/**
 From output positions back to source positions: the manifest of
 crates/fhec-emit/src/manifest.rs and `remap_range` of crates/fhec-cli/src/gate.rs.
 */
module SourceMap {
  import opened Wrappers
  import opened RewritePlan
  import opened Splice

  datatype Mapping = Mapping(output: Range, source: Range, rule: string)
  datatype ManifestFile = ManifestFile(noOp: bool, mappings: seq<Mapping>)

  function Mappings(applied: seq<Applied>): seq<Mapping> {
    if applied == [] then [] else [Mapping(applied[0].output, applied[0].source, applied[0].rule)] + Mappings(applied[1..])
  }

  function FromApplied(applied: seq<Applied>): ManifestFile {
    ManifestFile(applied == [], Mappings(applied))
  }

  datatype Remapped = Remapped(start: nat, end: nat, inside: bool)

  /** A mapping without output still answers for one byte. */
  predicate Answers(m: Mapping, at: nat) {
    m.output.start <= at && (at < m.output.end || at < m.output.start + 1)
  }

  function Hit(ms: seq<Mapping>, at: nat): Option<Mapping> {
    if ms == [] then None else if Answers(ms[0], at) then Some(ms[0]) else Hit(ms[1..], at)
  }

  /** How far the output is ahead of the source at this position. */
  function Delta(ms: seq<Mapping>, at: nat, delta: int): int {
    if ms == [] then delta
    else if ms[0].output.end <= at then Delta(ms[1..], at, ms[0].output.end - ms[0].source.end)
    else delta
  }

  function Shift(v: nat, delta: int): nat {
    if v - delta < 0 then 0 else v - delta
  }

  function Remap(ms: seq<Mapping>, start: nat, end: nat): Remapped {
    var hit := Hit(ms, start);
    if hit.Some? then Remapped(hit.value.source.start, hit.value.source.end, true)
    else
      var delta := Delta(ms, start, 0);
      Remapped(Shift(start, delta), Shift(end, delta), false)
  }

  method RemapRange(mf: ManifestFile, start: nat, end: nat) returns (r: Remapped)
    ensures r == Remap(mf.mappings, start, end)
  {
    var ms := mf.mappings;
    for i := 0 to |ms|
      invariant Hit(ms, start) == Hit(ms[i..], start)
    {
      assert ms[i..][0] == ms[i] && ms[i..][1..] == ms[i + 1..];
      if start >= ms[i].output.start && (start < ms[i].output.end || start < ms[i].output.start + 1) {
        return Remapped(ms[i].source.start, ms[i].source.end, true);
      }
    }
    assert ms[|ms|..] == [] && ms[0..] == ms;
    var delta: int := 0;
    var i := 0;
    while i < |ms| && ms[i].output.end <= start
      invariant 0 <= i <= |ms|
      invariant Delta(ms, start, 0) == Delta(ms[i..], start, delta)
    {
      assert ms[i..][0] == ms[i] && ms[i..][1..] == ms[i + 1..];
      delta := ms[i].output.end - ms[i].source.end;
      i := i + 1;
    }
    return Remapped(Shift(start, delta), Shift(end, delta), false);
  }

  // ---- where output bytes come from -------------------------------------------------

  /** The source offset of a kept output byte, by counting along the pieces. */
  function SourceOf(applied: seq<Applied>, cursor: nat, at: nat, v: nat): Option<nat>
    requires at <= v
  {
    if applied == [] then Some(cursor + (v - at))
    else if v < applied[0].output.start then Some(cursor + (v - at))
    else if v < applied[0].output.end then None
    else SourceOf(applied[1..], applied[0].source.end, applied[0].output.end, v)
  }

  predicate Replaced(applied: seq<Applied>, v: nat) {
    exists a | a in applied :: a.output.start <= v < a.output.end
  }

  /** A mapping that left nothing in the output sits at this position. */
  predicate EmptyAt(applied: seq<Applied>, v: nat) {
    exists a | a in applied :: a.output.start == a.output.end == v
  }

  lemma {:induction false} OutputsAfter(original: Bytes, text: Bytes, ps: seq<Patch>, applied: seq<Applied>, cursor: nat, at: nat)
    requires cursor <= |original| && at <= |text| && Cut(original, text, ps, applied, cursor, at)
    ensures forall a | a in applied :: at <= a.output.start <= a.output.end <= |text|
    decreases applied
  {
    if applied != [] {
      assert applied == [applied[0]] + applied[1..];
      OutputsAfter(original, text, ps[1..], applied[1..], applied[0].source.end, applied[0].output.end);
    }
  }

  /** A kept byte holds the byte at its source offset, and every byte is kept or replaced. */
  lemma {:induction false} SourceHolds(original: Bytes, text: Bytes, ps: seq<Patch>, applied: seq<Applied>, cursor: nat, at: nat, v: nat)
    requires cursor <= |original| && at <= v < |text| && Cut(original, text, ps, applied, cursor, at)
    ensures SourceOf(applied, cursor, at, v).None? <==> Replaced(applied, v)
    ensures SourceOf(applied, cursor, at, v).Some? ==>
              var s := SourceOf(applied, cursor, at, v).value; cursor <= s < |original| && text[v] == original[s]
    decreases applied
  {
    if applied == [] {
      assert text[v] == text[at..][v - at] && |text[at..]| == |original[cursor..]|;
    } else {
      var a := applied[0];
      assert applied == [a] + applied[1..];
      OutputsAfter(original, text, ps[1..], applied[1..], a.source.end, a.output.end);
      if v < a.output.start {
        assert text[v] == text[at..a.output.start][v - at] && |text[at..a.output.start]| == |original[cursor..a.source.start]|;
        assert original[cursor + (v - at)] == original[cursor..a.source.start][v - at];
      } else if v >= a.output.end {
        SourceHolds(original, text, ps[1..], applied[1..], a.source.end, a.output.end, v);
      } else {
        assert a in applied;
      }
    }
  }

  /** Kept bytes keep their order. */
  lemma {:induction false} SourceIncreases(original: Bytes, text: Bytes, ps: seq<Patch>, applied: seq<Applied>, cursor: nat, at: nat, v: nat, w: nat)
    requires cursor <= |original| && at <= v < w < |text| && Cut(original, text, ps, applied, cursor, at)
    requires SourceOf(applied, cursor, at, v).Some? && SourceOf(applied, cursor, at, w).Some?
    ensures SourceOf(applied, cursor, at, v).value < SourceOf(applied, cursor, at, w).value
    decreases applied
  {
    if applied != [] {
      var a := applied[0];
      if v >= a.output.end {
        SourceIncreases(original, text, ps[1..], applied[1..], a.source.end, a.output.end, v, w);
      } else if w >= a.output.end {
        SourceHolds(original, text, ps[1..], applied[1..], a.source.end, a.output.end, w);
        assert |text[at..a.output.start]| == |original[cursor..a.source.start]|;
      }
    }
  }

  /** Past the mappings that end before it, a kept byte is shifted to its source. */
  lemma {:induction false} DeltaExact(original: Bytes, text: Bytes, ps: seq<Patch>, applied: seq<Applied>, cursor: nat, at: nat, v: nat)
    requires cursor <= |original| && at <= v && at <= |text| && Cut(original, text, ps, applied, cursor, at)
    requires SourceOf(applied, cursor, at, v).Some?
    ensures v - Delta(Mappings(applied), v, at - cursor) == SourceOf(applied, cursor, at, v).value
    decreases applied
  {
    if applied != [] && v >= applied[0].output.start {
      var a := applied[0];
      assert Mappings(applied)[1..] == Mappings(applied[1..]);
      DeltaExact(original, text, ps[1..], applied[1..], a.source.end, a.output.end, v);
    }
  }

  lemma {:induction false} HitExactly(applied: seq<Applied>, v: nat)
    ensures Hit(Mappings(applied), v).Some? <==> Replaced(applied, v) || exists a | a in applied :: a.output.start == v
    ensures Hit(Mappings(applied), v).Some? ==>
              exists a | a in applied :: a.output.start <= v && (v < a.output.end || v == a.output.start)
                                         && Hit(Mappings(applied), v).value == Mapping(a.output, a.source, a.rule)
    decreases applied
  {
    if applied != [] {
      var a := applied[0];
      assert applied == [a] + applied[1..];
      assert Mappings(applied)[1..] == Mappings(applied[1..]);
      HitExactly(applied[1..], v);
      if Answers(Mappings(applied)[0], v) { assert a in applied; }
    }
  }

  /** The answer is the whole source range of the mapping that covers the position. */
  predicate Blames(applied: seq<Applied>, v: nat, m: Remapped) {
    exists a | a in applied :: a.output.start <= v < a.output.end && m == Remapped(a.source.start, a.source.end, true)
  }

  /**
   Source-map exactness.  Remapping a kept byte gives the offset of the source byte
   it is, shifted and never clipped, exactly when no mapping that left nothing in
   the output sits there.  At a deletion it blames the deleted text instead.
   */
  lemma RemapExact(original: Bytes, plan: seq<Patch>, v: nat, end: nat)
    requires SpliceOf(original, plan).Success? && v < |SpliceOf(original, plan).value.text|
    ensures var r := SpliceOf(original, plan).value;
            var s := SourceOf(r.applied, 0, 0, v);
            var m := Remap(FromApplied(r.applied).mappings, v, end);
            && (s.None? <==> Replaced(r.applied, v))
            && (s.Some? ==> s.value < |original| && r.text[v] == original[s.value])
            && (s.Some? ==> v - Delta(Mappings(r.applied), v, 0) == s.value)
            && (s.Some? ==> ((!m.inside && m.start == s.value) <==> !EmptyAt(r.applied, v)))
            && (s.None? ==> m.inside)
            && (s.None? && !EmptyAt(r.applied, v) ==> Blames(r.applied, v, m))
  {
    var r, ps := SpliceOf(original, plan).value, Canonical(plan);
    OutputIsCut(original, plan);
    SourceHolds(original, r.text, ps, r.applied, 0, 0, v);
    HitExactly(r.applied, v);
    OutputsAfter(original, r.text, ps, r.applied, 0, 0);
    if !Replaced(r.applied, v) {
      DeltaExact(original, r.text, ps, r.applied, 0, 0, v);
    }
  }

  /** No patch, not even a deletion, lies inside the range or begins it. */
  predicate Untouched(applied: seq<Applied>, v: nat, end: nat) {
    !EmptyAt(applied, v) && forall a | a in applied :: a.output.end <= v || end <= a.output.start
  }

  lemma {:induction false} SourceRuns(original: Bytes, text: Bytes, ps: seq<Patch>, applied: seq<Applied>, cursor: nat, at: nat, v: nat, w: nat)
    requires cursor <= |original| && at <= v <= w < |text| && Cut(original, text, ps, applied, cursor, at)
    requires forall a | a in applied :: a.output.end <= v || w < a.output.start
    ensures SourceOf(applied, cursor, at, v).Some? && SourceOf(applied, cursor, at, w) == Some(SourceOf(applied, cursor, at, v).value + (w - v))
    decreases applied
  {
    if applied != [] {
      var a := applied[0];
      assert applied == [a] + applied[1..] && a in applied;
      OutputsAfter(original, text, ps[1..], applied[1..], a.source.end, a.output.end);
      if v >= a.output.end { SourceRuns(original, text, ps[1..], applied[1..], a.source.end, a.output.end, v, w); }
    }
  }

  /** A byte of an untouched range is the source byte at the same distance from its start. */
  lemma UntouchedByte(original: Bytes, plan: seq<Patch>, v: nat, end: nat, w: nat)
    requires SpliceOf(original, plan).Success? && v <= w < end <= |SpliceOf(original, plan).value.text|
    requires Untouched(SpliceOf(original, plan).value.applied, v, end)
    ensures var r := SpliceOf(original, plan).value;
            var s := SourceOf(r.applied, 0, 0, v);
            s.Some? && s.value + (w - v) < |original| && r.text[w] == original[s.value + (w - v)]
  {
    var r, ps := SpliceOf(original, plan).value, Canonical(plan);
    OutputIsCut(original, plan);
    SourceRuns(original, r.text, ps, r.applied, 0, 0, v, w);
    SourceHolds(original, r.text, ps, r.applied, 0, 0, w);
  }

  predicate SameByte(a: Bytes, v: nat, b: Bytes, s: nat, k: nat) {
    v + k < |a| && s + k < |b| && a[v + k] == b[s + k]
  }

  lemma SlicesAgree(a: Bytes, b: Bytes, v: nat, s: nat, n: nat)
    requires n > 0 && forall k | 0 <= k < n :: SameByte(a, v, b, s, k)
    ensures v + n <= |a| && s + n <= |b| && a[v..v + n] == b[s..s + n]
  {
    assert SameByte(a, v, b, s, n - 1);
    var x, y := a[v..v + n], b[s..s + n];
    forall k | 0 <= k < n
      ensures x[k] == y[k]
    {
      assert SameByte(a, v, b, s, k);
    }
  }

  /** An untouched range is shifted as a whole to where its first byte comes from. */
  lemma UntouchedShift(original: Bytes, plan: seq<Patch>, v: nat, end: nat)
    requires SpliceOf(original, plan).Success? && v < end <= |SpliceOf(original, plan).value.text|
    requires Untouched(SpliceOf(original, plan).value.applied, v, end)
    ensures var r := SpliceOf(original, plan).value;
            var s := SourceOf(r.applied, 0, 0, v);
            s.Some? && Remap(FromApplied(r.applied).mappings, v, end) == Remapped(s.value, s.value + (end - v), false)
  {
    UntouchedByte(original, plan, v, end, v);
    RemapExact(original, plan, v, end);
  }

  lemma UntouchedText(original: Bytes, plan: seq<Patch>, v: nat, end: nat, s: nat)
    requires SpliceOf(original, plan).Success? && v < end <= |SpliceOf(original, plan).value.text|
    requires Untouched(SpliceOf(original, plan).value.applied, v, end) && SourceOf(SpliceOf(original, plan).value.applied, 0, 0, v) == Some(s)
    ensures s + (end - v) <= |original| && SpliceOf(original, plan).value.text[v..end] == original[s..s + (end - v)]
  {
    var text := SpliceOf(original, plan).value.text;
    forall k | 0 <= k < end - v
      ensures SameByte(text, v, original, s, k)
    {
      UntouchedByte(original, plan, v, end, v + k);
    }
    SlicesAgree(text, original, v, s, end - v);
  }

  /** A whole range of kept text maps to the range of the source that holds that text. */
  lemma RemapKeepsText(original: Bytes, plan: seq<Patch>, v: nat, end: nat)
    requires SpliceOf(original, plan).Success? && v < end <= |SpliceOf(original, plan).value.text|
    requires Untouched(SpliceOf(original, plan).value.applied, v, end)
    ensures var r := SpliceOf(original, plan).value;
            var m := Remap(FromApplied(r.applied).mappings, v, end);
            !m.inside && m.start <= m.end <= |original| && r.text[v..end] == original[m.start..m.end]
  {
    UntouchedShift(original, plan, v, end);
    UntouchedText(original, plan, v, end, SourceOf(SpliceOf(original, plan).value.applied, 0, 0, v).value);
  }

  /** Along the output, kept bytes map to increasing source offsets. */
  lemma RemapIncreases(original: Bytes, plan: seq<Patch>, v: nat, w: nat)
    requires SpliceOf(original, plan).Success? && v < w < |SpliceOf(original, plan).value.text|
    requires var a := SpliceOf(original, plan).value.applied;
             !Replaced(a, v) && !Replaced(a, w) && !EmptyAt(a, v) && !EmptyAt(a, w)
    ensures var ms := FromApplied(SpliceOf(original, plan).value.applied).mappings;
            Remap(ms, v, v + 1).start < Remap(ms, w, w + 1).start
  {
    var r := SpliceOf(original, plan).value;
    OutputIsCut(original, plan);
    RemapExact(original, plan, v, v + 1);
    RemapExact(original, plan, w, w + 1);
    SourceIncreases(original, r.text, Canonical(plan), r.applied, 0, 0, v, w);
  }

  /** Removing the first byte of a file: the byte that follows is reported as generated. */
  lemma DeletionBlamed(a: Byte, b: Byte)
    requires !Continues(a) && !Continues(b)
    ensures var r := SpliceOf([a, b], [Replace(Range(0, 1), [], "rule")]);
            && r.Success? && r.value.text == [b]
            && Remap(FromApplied(r.value.applied).mappings, 0, 1) == Remapped(0, 1, true)
  {
    var p := Replace(Range(0, 1), [], "rule");
    var original := [a, b];
    assert [p][..0] == [] && Canonical([p]) == [p];
    assert Refused(original, p, 0, Range(0, 0)).None?;
    assert [p][1..] == [];
    assert Rest(original, [], 1, Range(0, 1), 0) == Success(Spliced([b], []));
    var one := [Applied(Range(0, 0), Range(0, 1), "rule")];
    assert original[0..0] + [] + [b] == [b] && one + [] == one;
    assert original[1..] == [b];
    assert Rest(original, [p], 0, Range(0, 0), 0) == Success(Spliced([b], one));
    assert one[1..] == [] && Mappings([]) == [];
    assert Mappings(one) == [Mapping(Range(0, 0), Range(0, 1), "rule")];
  }

  lemma {:induction false} OneEach(original: Bytes, ps: seq<Patch>, cursor: nat, prev: Range, outLen: nat)
    requires cursor <= |original| && Rest(original, ps, cursor, prev, outLen).Success?
    ensures |Mappings(Rest(original, ps, cursor, prev, outLen).value.applied)| == |ps|
    decreases ps
  {
    if ps != [] {
      var p := ps[0];
      var outEnd := outLen + (p.range.start - cursor) + |p.replacement|;
      var rest := Rest(original, ps[1..], p.range.end, p.range, outEnd).value.applied;
      OneEach(original, ps[1..], p.range.end, p.range, outEnd);
      assert ([Applied(Range(outEnd - |p.replacement|, outEnd), p.range, p.rule)] + rest)[1..] == rest;
    }
  }

  /** The manifest has a mapping for each patch, and calls a file untouched exactly when
      there is none; then the output is the source. */
  lemma NoOpExact(original: Bytes, plan: seq<Patch>)
    requires SpliceOf(original, plan).Success?
    ensures var r := SpliceOf(original, plan).value;
            var mf := FromApplied(r.applied);
            |mf.mappings| == |plan| && (mf.noOp <==> plan == []) && (mf.noOp ==> r.text == original)
  {
    CanonicalSorted(plan);
    assert |Canonical(plan)| == |multiset(Canonical(plan))| == |multiset(plan)| == |plan|;
    OneEach(original, Canonical(plan), 0, Range(0, 0), 0);
  }

  /** Putting back what a range holds leaves the file byte for byte as it was, and yet it
      does not count as untouched. */
  lemma IdentityPatch(original: Bytes, range: Range, rule: string)
    requires InBounds(original, Replace(range, [], rule))
    ensures var plan := [Replace(range, original[range.start..range.end], rule)];
            && SpliceOf(original, plan).Success? && SpliceOf(original, plan).value.text == original
            && !FromApplied(SpliceOf(original, plan).value.applied).noOp
  {
    var p := Replace(range, original[range.start..range.end], rule);
    assert [p][..0] == [] && [p][1..] == [] && Canonical([p]) == [p];
    assert Rest(original, [], range.end, range, range.end) == Success(Spliced(original[range.end..], []));
    assert original[0..range.start] + original[range.start..range.end] + original[range.end..] == original;
  }
}
