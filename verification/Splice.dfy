/** The splicer: crates/fhec-emit/src/splice.rs. */
module Splice {
  import opened Wrappers
  import opened RewritePlan

  datatype Applied = Applied(output: Range, source: Range, rule: string)
  datatype Spliced = Spliced(text: Bytes, applied: seq<Applied>)

  datatype EmitError =
    | PatchOutOfBounds(range: Range, fileLen: nat)
    | PatchSplitsUtf8(range: Range)
    | PatchOverlap(first: Range, second: Range)

  /** A byte that continues a UTF-8 character. */
  predicate Continues(b: Byte) {
    0x80 <= b < 0xC0
  }

  predicate IsCharBoundary(text: Bytes, i: nat)
    requires i <= |text|
  {
    i == |text| || !Continues(text[i])
  }

  /** The UTF-8 form of a code point (section 3 of RFC 3629). */
  function Utf8(c: nat): Bytes
    requires c < 0x11_0000
  {
    if c < 0x80 then [c as Byte]
    else if c < 0x800 then [(0xC0 + c / 0x40) as Byte, (0x80 + c % 0x40) as Byte]
    else if c < 0x1_0000 then [(0xE0 + c / 0x1000) as Byte, (0x80 + c / 0x40 % 0x40) as Byte, (0x80 + c % 0x40) as Byte]
    else
      [(0xF0 + c / 0x4_0000) as Byte, (0x80 + c / 0x1000 % 0x40) as Byte, (0x80 + c / 0x40 % 0x40) as Byte, (0x80 + c % 0x40) as Byte]
  }

  /** The boundaries in an encoded character are its two ends. */
  lemma CharBoundaries(c: nat, i: nat)
    requires c < 0x11_0000 && i <= |Utf8(c)|
    ensures IsCharBoundary(Utf8(c), i) <==> i == 0 || i == |Utf8(c)|
  {
  }

  /** What boundaries depend on: no text begins inside a character. */
  predicate WellFormed(text: Bytes) {
    text != [] ==> !Continues(text[0])
  }

  /** The checks a patch has to pass when `cursor` bytes have been consumed. */
  function Refused(original: Bytes, p: Patch, cursor: nat, prev: Range): Option<EmitError> {
    var r := p.range;
    if r.start > r.end || r.end > |original| then Some(PatchOutOfBounds(r, |original|))
    else if !IsCharBoundary(original, r.start) || !IsCharBoundary(original, r.end) then Some(PatchSplitsUtf8(r))
    else if r.start < cursor then Some(PatchOverlap(prev, r))
    else None
  }

  /** What is still to come after `cursor` bytes, the patches in canonical order. */
  function Rest(original: Bytes, ps: seq<Patch>, cursor: nat, prev: Range, outLen: nat): Result<Spliced, EmitError>
    requires cursor <= |original|
  {
    if ps == [] then Success(Spliced(original[cursor..], []))
    else
      var p := ps[0];
      var refused := Refused(original, p, cursor, prev);
      if refused.Some? then Failure(refused.value)
      else
        var outStart := outLen + (p.range.start - cursor);
        var outEnd := outStart + |p.replacement|;
        var rest :- Rest(original, ps[1..], p.range.end, p.range, outEnd);
        Success(Spliced(original[cursor..p.range.start] + p.replacement + rest.text,
                        [Applied(Range(outStart, outEnd), p.range, p.rule)] + rest.applied))
  }

  function SpliceOf(original: Bytes, plan: seq<Patch>): Result<Spliced, EmitError> {
    Rest(original, Canonical(plan), 0, Range(0, 0), 0)
  }

  function Joined(out: Bytes, applied: seq<Applied>, rest: Result<Spliced, EmitError>): Result<Spliced, EmitError> {
    if rest.Failure? then rest else Success(Spliced(out + rest.value.text, applied + rest.value.applied))
  }

  lemma JoinedStep(out: Bytes, applied: seq<Applied>, more: Bytes, a: Applied, rest: Result<Spliced, EmitError>)
    ensures Joined(out + more, applied + [a], rest) == Joined(out, applied, Joined(more, [a], rest))
    ensures Joined([], [], rest) == rest
  {
    if rest.Success? {
      assert out + more + rest.value.text == out + (more + rest.value.text);
      assert applied + [a] + rest.value.applied == applied + ([a] + rest.value.applied);
      assert [] + rest.value.text == rest.value.text && [] + rest.value.applied == rest.value.applied;
    }
  }

  /** Applies a plan to a file. */
  method SpliceFile(original: Bytes, plan: FilePlan) returns (r: Result<Spliced, EmitError>)
    ensures r == SpliceOf(original, plan.patches)
  {
    var order := Canonical(plan.patches);
    var out: Bytes := [];
    var applied: seq<Applied> := [];
    var cursor: nat, prev := 0, Range(0, 0);
    JoinedStep([], [], [], Applied(prev, prev, ""), Rest(original, order, 0, prev, 0));
    for i := 0 to |order|
      invariant cursor <= |original|
      invariant SpliceOf(original, plan.patches) == Joined(out, applied, Rest(original, order[i..], cursor, prev, |out|))
    {
      var patch := order[i];
      var range := patch.range;
      assert order[i..][0] == patch && order[i..][1..] == order[i + 1..];
      if range.start > range.end || range.end > |original| {
        return Failure(PatchOutOfBounds(range, |original|));
      }
      if !IsCharBoundary(original, range.start) || !IsCharBoundary(original, range.end) {
        return Failure(PatchSplitsUtf8(range));
      }
      if range.start < cursor {
        return Failure(PatchOverlap(prev, range));
      }
      ghost var more := original[cursor..range.start] + patch.replacement;
      var outStart := |out| + (range.start - cursor);
      var a := Applied(Range(outStart, outStart + |patch.replacement|), range, patch.rule);
      JoinedStep(out, applied, more, a, Rest(original, order[i + 1..], range.end, range, outStart + |patch.replacement|));
      assert out + original[cursor..range.start] + patch.replacement == out + more;
      out := out + original[cursor..range.start];
      out := out + patch.replacement;
      applied := applied + [a];
      cursor := range.end;
      prev := range;
    }
    assert order[|order|..] == [];
    out := out + original[cursor..];
    assert applied + [] == applied;
    return Success(Spliced(out, applied));
  }

  // ---- what is accepted ---------------------------------------------------------------

  predicate InBounds(original: Bytes, p: Patch) {
    && p.range.start <= p.range.end <= |original|
    && IsCharBoundary(original, p.range.start) && IsCharBoundary(original, p.range.end)
  }

  /** Patches in canonical order that follow one another from `cursor` on. */
  predicate Chained(original: Bytes, ps: seq<Patch>, cursor: nat) {
    ps == [] || (InBounds(original, ps[0]) && cursor <= ps[0].range.start && Chained(original, ps[1..], ps[0].range.end))
  }

  lemma {:induction false} RestAccepts(original: Bytes, ps: seq<Patch>, cursor: nat, prev: Range, outLen: nat)
    requires cursor <= |original|
    ensures Rest(original, ps, cursor, prev, outLen).Success? <==> Chained(original, ps, cursor)
    decreases ps
  {
    if ps != [] && Refused(original, ps[0], cursor, prev).None? {
      var p := ps[0];
      RestAccepts(original, ps[1..], p.range.end, p.range, outLen + (p.range.start - cursor) + |p.replacement|);
    }
  }

  lemma {:induction false} ChainedEach(original: Bytes, ps: seq<Patch>, cursor: nat, j: nat)
    requires Chained(original, ps, cursor) && j < |ps|
    ensures InBounds(original, ps[j]) && cursor <= ps[j].range.start
    ensures forall i | 0 <= i < j :: ps[i].range.end <= ps[j].range.start
    decreases j
  {
    if j > 0 {
      ChainedEach(original, ps[1..], ps[0].range.end, j - 1);
      assert ps[j] == ps[1..][j - 1];
      forall i | 0 <= i < j
        ensures ps[i].range.end <= ps[j].range.start
      {
        if i > 0 { assert ps[i] == ps[1..][i - 1]; }
      }
    }
  }

  lemma {:induction false} PairsChain(original: Bytes, ps: seq<Patch>, cursor: nat)
    requires forall i | 0 <= i < |ps| :: InBounds(original, ps[i]) && cursor <= ps[i].range.start
    requires forall i, j | 0 <= i < j < |ps| :: ps[i].range.end <= ps[j].range.start
    ensures Chained(original, ps, cursor)
    decreases ps
  {
    if ps != [] {
      var rest := ps[1..];
      assert forall i | 0 <= i < |rest| :: rest[i] == ps[i + 1];
      PairsChain(original, rest, ps[0].range.end);
    }
  }

  lemma CanonicalMembers(plan: seq<Patch>)
    ensures forall p :: p in Canonical(plan) <==> p in plan
  {
    CanonicalSorted(plan);
    forall p
      ensures p in Canonical(plan) <==> p in plan
    {
      assert p in plan <==> p in multiset(plan);
      assert p in Canonical(plan) <==> p in multiset(Canonical(plan));
    }
  }

  /** None of the patches reaches into a later one. */
  predicate Apart(ps: seq<Patch>) {
    forall i, j | 0 <= i < j < |ps| :: ps[i].range.end <= ps[j].range.start
  }

  predicate AllInBounds(original: Bytes, ps: seq<Patch>) {
    forall p | p in ps :: InBounds(original, p)
  }

  lemma ChainedExactly(original: Bytes, ps: seq<Patch>)
    ensures Chained(original, ps, 0) <==> AllInBounds(original, ps) && Apart(ps)
  {
    if Chained(original, ps, 0) {
      forall j | 0 <= j < |ps|
        ensures InBounds(original, ps[j]) && forall i | 0 <= i < j :: ps[i].range.end <= ps[j].range.start
      {
        ChainedEach(original, ps, 0, j);
      }
    }
    if AllInBounds(original, ps) && Apart(ps) {
      PairsChain(original, ps, 0);
    }
  }

  /** The two ranges follow one another, the first possibly just before all patches. */
  predicate MeetAt(ps: seq<Patch>, prev: Range, x: Range, y: Range, i: nat)
    requires i < |ps|
  {
    ps[i].range == y && x == if i == 0 then prev else ps[i - 1].range
  }

  /** What a refusal says about the patches behind `prev`. */
  ghost predicate Blamed(original: Bytes, ps: seq<Patch>, prev: Range, e: EmitError) {
    match e
    case PatchOutOfBounds(r, n) => n == |original| && !(r.start <= r.end <= n) && exists p | p in ps :: p.range == r
    case PatchSplitsUtf8(r) =>
      && r.start <= r.end <= |original| && (!IsCharBoundary(original, r.start) || !IsCharBoundary(original, r.end))
      && exists p | p in ps :: p.range == r
    case PatchOverlap(x, y) => y.start < x.end && exists i | 0 <= i < |ps| :: MeetAt(ps, prev, x, y, i)
  }

  lemma BlamedHere(original: Bytes, ps: seq<Patch>, cursor: nat, prev: Range)
    requires ps != [] && cursor == prev.end && Refused(original, ps[0], cursor, prev).Some?
    ensures Blamed(original, ps, prev, Refused(original, ps[0], cursor, prev).value)
  {
    assert ps[0] in ps && MeetAt(ps, prev, prev, ps[0].range, 0);
  }

  lemma BlamedLater(original: Bytes, ps: seq<Patch>, prev: Range, e: EmitError)
    requires ps != [] && Blamed(original, ps[1..], ps[0].range, e)
    ensures Blamed(original, ps, prev, e)
  {
    var rest := ps[1..];
    assert forall p | p in rest :: p in ps;
    if e.PatchOverlap? {
      var i :| 0 <= i < |rest| && MeetAt(rest, ps[0].range, e.first, e.second, i);
      assert MeetAt(ps, prev, e.first, e.second, i + 1);
    }
  }

  lemma {:induction false} RefusalFrom(original: Bytes, ps: seq<Patch>, cursor: nat, prev: Range, outLen: nat)
    requires cursor <= |original| && cursor == prev.end && Rest(original, ps, cursor, prev, outLen).Failure?
    ensures Blamed(original, ps, prev, Rest(original, ps, cursor, prev, outLen).error)
    decreases ps
  {
    var p := ps[0];
    if Refused(original, p, cursor, prev).Some? {
      BlamedHere(original, ps, cursor, prev);
    } else {
      RefusalFrom(original, ps[1..], p.range.end, p.range, outLen + (p.range.start - cursor) + |p.replacement|);
      BlamedLater(original, ps, prev, Rest(original, ps, cursor, prev, outLen).error);
    }
  }

  /** A refusal names a patch that is out of bounds, one that splits a character, or
      two that follow one another in canonical order and overlap. */
  lemma RefusalNames(original: Bytes, plan: seq<Patch>)
    requires SpliceOf(original, plan).Failure?
    ensures var ps, e := Canonical(plan), SpliceOf(original, plan).error;
            && Blamed(original, ps, Range(0, 0), e)
            && (e.PatchOverlap? ==> exists i | 0 < i < |ps| :: ps[i - 1].range == e.first && ps[i].range == e.second && e.second.start < e.first.end)
  {
    var ps := Canonical(plan);
    RefusalFrom(original, ps, 0, Range(0, 0), 0);
    var e := SpliceOf(original, plan).error;
    if e.PatchOverlap? {
      var i :| 0 <= i < |ps| && MeetAt(ps, Range(0, 0), e.first, e.second, i);
      assert i > 0;
    }
  }

  /** A plan is accepted exactly when its patches are in bounds, on character
      boundaries, and in canonical order none reaches into the next. */
  lemma AcceptedExactly(original: Bytes, plan: seq<Patch>)
    ensures SpliceOf(original, plan).Success? <==> AllInBounds(original, plan) && Apart(Canonical(plan))
  {
    RestAccepts(original, Canonical(plan), 0, Range(0, 0), 0);
    ChainedExactly(original, Canonical(plan));
    CanonicalMembers(plan);
  }

  /** The output depends on the plan up to the order of patches with different keys. */
  lemma OutputDepends(original: Bytes, a: seq<Patch>, b: seq<Patch>)
    requires forall key :: Tied(a, key) == Tied(b, key)
    ensures SpliceOf(original, a) == SpliceOf(original, b)
  {
    CanonicalDepends(a, b);
  }

  // ---- what comes out ---------------------------------------------------------------------

  /** The applied patches cut the output, and the source, into the same pieces:
      replacements, and the kept text between them. */
  predicate Cut(original: Bytes, text: Bytes, ps: seq<Patch>, applied: seq<Applied>, cursor: nat, at: nat)
    requires cursor <= |original| && at <= |text|
    decreases applied
  {
    if applied == [] then ps == [] && text[at..] == original[cursor..]
    else
      && ps != []
      && applied[0].source == ps[0].range && applied[0].rule == ps[0].rule
      && cursor <= applied[0].source.start <= applied[0].source.end <= |original|
      && at <= applied[0].output.start <= applied[0].output.end <= |text|
      && text[at..applied[0].output.start] == original[cursor..applied[0].source.start]
      && text[applied[0].output.start..applied[0].output.end] == ps[0].replacement
      && Cut(original, text, ps[1..], applied[1..], applied[0].source.end, applied[0].output.end)
  }

  lemma Pieces(before: Bytes, kept: Bytes, put: Bytes, tail: Bytes)
    ensures var text := before + (kept + put + tail);
            && text == before + kept + put + tail
            && text[|before|..|before| + |kept|] == kept
            && text[|before| + |kept|..|before| + |kept| + |put|] == put
            && text[|before|..] == kept + put + tail
  {
  }

  lemma {:induction false} RestCut(original: Bytes, ps: seq<Patch>, cursor: nat, prev: Range, before: Bytes)
    requires cursor <= |original| && Rest(original, ps, cursor, prev, |before|).Success?
    ensures var r := Rest(original, ps, cursor, prev, |before|).value;
            Cut(original, before + r.text, ps, r.applied, cursor, |before|)
    decreases ps
  {
    var r := Rest(original, ps, cursor, prev, |before|).value;
    var text := before + r.text;
    if ps == [] {
      assert text[|before|..] == original[cursor..];
    } else {
      var p := ps[0];
      var kept := original[cursor..p.range.start];
      var before2 := before + kept + p.replacement;
      RestCut(original, ps[1..], p.range.end, p.range, before2);
      var rest := Rest(original, ps[1..], p.range.end, p.range, |before2|).value;
      Pieces(before, kept, p.replacement, rest.text);
      assert r.applied[1..] == rest.applied;
    }
  }

  /** Each output range holds exactly its replacement, and the text between the
      ranges is the source text between the patched ranges, in order. */
  lemma OutputIsCut(original: Bytes, plan: seq<Patch>)
    requires SpliceOf(original, plan).Success?
    ensures var r := SpliceOf(original, plan).value;
            && |r.applied| == |plan|
            && Cut(original, r.text, Canonical(plan), r.applied, 0, 0)
  {
    RestCut(original, Canonical(plan), 0, Range(0, 0), []);
    var r := SpliceOf(original, plan).value;
    assert [] + r.text == r.text;
    CutLengths(original, r.text, Canonical(plan), r.applied, 0, 0);
    CanonicalSorted(plan);
  }

  lemma {:induction false} CutLengths(original: Bytes, text: Bytes, ps: seq<Patch>, applied: seq<Applied>, cursor: nat, at: nat)
    requires cursor <= |original| && at <= |text| && Cut(original, text, ps, applied, cursor, at)
    ensures |applied| == |ps|
    decreases applied
  {
    if applied != [] {
      CutLengths(original, text, ps[1..], applied[1..], applied[0].source.end, applied[0].output.end);
    }
  }

  // ---- the inverse plan ------------------------------------------------------------------------

  function Undo(original: Bytes, a: Applied): Patch
    requires a.source.start <= a.source.end <= |original|
  {
    Replace(a.output, original[a.source.start..a.source.end], "")
  }

  predicate SourcesIn(original: Bytes, applied: seq<Applied>) {
    forall a | a in applied :: a.source.start <= a.source.end <= |original|
  }

  /** The plan that puts the original bytes back. */
  function Inverse(original: Bytes, applied: seq<Applied>): seq<Patch>
    requires SourcesIn(original, applied)
  {
    if applied == [] then [] else [Undo(original, applied[0])] + Inverse(original, applied[1..])
  }

  lemma {:induction false} CutSources(original: Bytes, text: Bytes, ps: seq<Patch>, applied: seq<Applied>, cursor: nat, at: nat)
    requires cursor <= |original| && at <= |text| && Cut(original, text, ps, applied, cursor, at)
    ensures SourcesIn(original, applied)
    decreases applied
  {
    if applied != [] {
      CutSources(original, text, ps[1..], applied[1..], applied[0].source.end, applied[0].output.end);
      assert applied == [applied[0]] + applied[1..];
    }
  }

  lemma {:induction false} InverseStarts(original: Bytes, text: Bytes, ps: seq<Patch>, applied: seq<Applied>, cursor: nat, at: nat)
    requires cursor <= |original| && at <= |text| && Cut(original, text, ps, applied, cursor, at)
    requires SourcesIn(original, applied)
    ensures forall q | q in Inverse(original, applied) :: at <= q.range.start <= q.range.end && q.order == Normal
    ensures Sorted(Inverse(original, applied))
    decreases applied
  {
    if applied != [] {
      var a, rest := applied[0], applied[1..];
      InverseStarts(original, text, ps[1..], rest, a.source.end, a.output.end);
      var inv := Inverse(original, rest);
      assert Inverse(original, applied) == [Undo(original, a)] + inv;
      forall q | q in inv
        ensures !Before(KeyOf(q), KeyOf(Undo(original, a)))
      {
      }
    }
  }

  lemma {:induction false} CutWellFormed(original: Bytes, text: Bytes, ps: seq<Patch>, applied: seq<Applied>, cursor: nat, at: nat)
    requires cursor <= |original| && at <= |text| && Cut(original, text, ps, applied, cursor, at)
    requires IsCharBoundary(original, cursor) && forall p | p in ps :: InBounds(original, p) && WellFormed(p.replacement)
    ensures IsCharBoundary(text, at)
    ensures forall a | a in applied :: a.output.start <= a.output.end <= |text| && IsCharBoundary(text, a.output.start) && IsCharBoundary(text, a.output.end)
    decreases applied
  {
    if applied == [] {
      if at < |text| {
        assert text[at] == text[at..][0] && original[cursor..][0] == original[cursor];
      }
    } else {
      var a := applied[0];
      assert ps == [ps[0]] + ps[1..] && applied == [a] + applied[1..];
      CutWellFormed(original, text, ps[1..], applied[1..], a.source.end, a.output.end);
      if a.output.start < a.output.end {
        assert text[a.output.start] == text[a.output.start..a.output.end][0];
      }
      if at < a.output.start {
        assert text[at] == text[at..a.output.start][0] && original[cursor..a.source.start][0] == original[cursor];
      }
    }
  }

  lemma ThreeParts(text: Bytes, i: nat, j: nat, k: nat)
    requires i <= j <= k <= |text|
    ensures text[i..] == text[i..j] + text[j..k] + text[k..]
  {
  }

  /** Undoing from `at` on gives back the source from `cursor` on. */
  lemma {:induction false} UndoRest(original: Bytes, text: Bytes, ps: seq<Patch>, applied: seq<Applied>, cursor: nat, at: nat,
                                    prev: Range, outLen: nat)
    requires cursor <= |original| && at <= |text| && Cut(original, text, ps, applied, cursor, at) && SourcesIn(original, applied)
    requires forall a | a in applied :: a.output.start <= a.output.end <= |text| && IsCharBoundary(text, a.output.start) && IsCharBoundary(text, a.output.end)
    ensures Rest(text, Inverse(original, applied), at, prev, outLen).Success?
    ensures Rest(text, Inverse(original, applied), at, prev, outLen).value.text == original[cursor..]
    decreases applied
  {
    if applied != [] {
      var a, inv := applied[0], Inverse(original, applied);
      var undo := Undo(original, a);
      assert applied == [a] + applied[1..];
      assert inv[0] == undo && inv[1..] == Inverse(original, applied[1..]);
      var outEnd := outLen + (a.output.start - at) + |undo.replacement|;
      UndoRest(original, text, ps[1..], applied[1..], a.source.end, a.output.end, a.output, outEnd);
      assert Refused(text, undo, at, prev).None?;
      ThreeParts(original, cursor, a.source.start, a.source.end);
    }
  }

  /**
   Round trip.  The inverse of an accepted plan is accepted on the output, and
   restores the original exactly.
   */
  lemma RoundTrip(original: Bytes, plan: seq<Patch>)
    requires SpliceOf(original, plan).Success?
    requires WellFormed(original) && forall p | p in plan :: WellFormed(p.replacement)
    ensures var r := SpliceOf(original, plan).value;
            && SourcesIn(original, r.applied)
            && SpliceOf(r.text, Inverse(original, r.applied)).Success?
            && SpliceOf(r.text, Inverse(original, r.applied)).value.text == original
  {
    var r, ps := SpliceOf(original, plan).value, Canonical(plan);
    OutputIsCut(original, plan);
    AcceptedExactly(original, plan);
    CanonicalMembers(plan);
    CutSources(original, r.text, ps, r.applied, 0, 0);
    CutWellFormed(original, r.text, ps, r.applied, 0, 0);
    InverseStarts(original, r.text, ps, r.applied, 0, 0);
    CanonicalOfSorted(Inverse(original, r.applied));
    UndoRest(original, r.text, ps, r.applied, 0, 0, Range(0, 0), 0);
    assert original[0..] == original;
  }
}
