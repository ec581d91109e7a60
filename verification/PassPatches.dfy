/**
 Which patches the two passes over a file produce, by occurrence in its statements,
 and what the spliced file holds in their places.
 */
module PassPatches {
  import opened Wrappers
  import opened RewritePlan
  import opened Splice
  import opened PassOrder

  /** The statement occurs in the other, below plain statements only. */
  ghost predicate Occurs(s: Stmt, x: Stmt)
    decreases s
  {
    s == x || (s.kind.Plain? && exists i | 0 <= i < |s.parts| && s.parts[i].AStmt? :: Occurs(s.parts[i].s, x))
  }

  /** The patch of an outermost encrypted `if`. */
  predicate IfPatch(x: Stmt, p: Patch) {
    x.kind.EncryptedIf? && p == Replace(x.range, x.kind.text, IF_RULE)
  }

  /** The patch of a step or a compound assignment that no other pass owns. */
  predicate StepPatch(x: Stmt, owned: seq<Range>, p: Patch) {
    x.kind.Stepped? && !Owns(owned, x.range) && p == Replace(x.kind.at, x.kind.text, STEP_RULE)
  }

  /** The patch of an expression that has a rendering and that no other pass owns. */
  predicate ExprPatch(e: Expr, owned: seq<Range>, p: Patch) {
    e.text.Some? && !Owns(owned, e.range) && p == Replace(e.range, e.text.value, OP_RULE)
  }

  /** The patch belongs to the statement itself, or to one of its own expressions. */
  ghost predicate Own(x: Stmt, owned: seq<Range>, p: Patch) {
    StepPatch(x, owned, p) || (x.kind.Plain? && exists i | 0 <= i < |x.parts| && x.parts[i].AnExpr? :: ExprPatch(x.parts[i].e, owned, p))
  }

  /** What the two passes owe to a function body. */
  ghost predicate Wanted(body: Stmt, owned: seq<Range>, p: Patch) {
    exists x :: Occurs(body, x) && (IfPatch(x, p) || Own(x, owned, p))
  }

  // ---- nesting -------------------------------------------------------------------------

  lemma {:induction false} PartsApart(ps: seq<Part>, from: nat, to: nat, i: nat, j: nat)
    requires PartsNested(ps, from, to) && i <= j < |ps|
    ensures from <= RangeOf(ps[i]).start < RangeOf(ps[i]).end <= RangeOf(ps[j]).end <= to && PartNested(ps[i])
    ensures i < j ==> RangeOf(ps[i]).end <= RangeOf(ps[j]).start
    decreases ps
  {
    PartsEnd(ps[1..], RangeOf(ps[0]).end, to);
    if i > 0 {
      PartsApart(ps[1..], RangeOf(ps[0]).end, to, i - 1, j - 1);
    } else if j > 0 {
      PartsApart(ps[1..], RangeOf(ps[0]).end, to, j - 1, j - 1);
    }
  }

  lemma {:induction false} PartsEnd(ps: seq<Part>, from: nat, to: nat)
    requires PartsNested(ps, from, to)
    ensures from <= to
    decreases ps
  {
    if ps != [] { PartsEnd(ps[1..], RangeOf(ps[0]).end, to); }
  }

  lemma {:induction false} OccursInside(s: Stmt, x: Stmt)
    requires Nested(s) && Occurs(s, x)
    ensures Nested(x) && Contains(s.range, x.range)
    decreases s
  {
    if s != x {
      var i :| 0 <= i < |s.parts| && s.parts[i].AStmt? && Occurs(s.parts[i].s, x);
      PartsApart(s.parts, s.range.start, s.range.end, i, i);
      OccursInside(s.parts[i].s, x);
    }
  }

  /** What occurs below different parts, or at a part, lies in that part's range. */
  lemma OccursAt(s: Stmt, i: nat, x: Stmt)
    requires Nested(s) && i < |s.parts| && s.parts[i].AStmt? && Occurs(s.parts[i].s, x)
    ensures Nested(s.parts[i].s) && Contains(RangeOf(s.parts[i]), x.range) && x.range.start < x.range.end
  {
    PartsApart(s.parts, s.range.start, s.range.end, i, i);
    OccursInside(s.parts[i].s, x);
  }

  lemma NotOwner(a: Range, b: Range)
    requires RangesApart(a, b) && b.start < b.end
    ensures !Contains(a, b)
  {
  }

  /** A step is outside every encrypted `if`. */
  lemma {:induction false} StepOutside(s: Stmt, x: Stmt, y: Stmt)
    requires Nested(s) && Occurs(s, x) && Occurs(s, y) && x.kind.Stepped? && y.kind.EncryptedIf?
    ensures !Contains(y.range, x.range)
    decreases s
  {
    var i :| 0 <= i < |s.parts| && s.parts[i].AStmt? && Occurs(s.parts[i].s, x);
    var j :| 0 <= j < |s.parts| && s.parts[j].AStmt? && Occurs(s.parts[j].s, y);
    OccursAt(s, i, x);
    OccursAt(s, j, y);
    if i == j {
      StepOutside(s.parts[i].s, x, y);
    } else {
      PartsApart(s.parts, s.range.start, s.range.end, if i < j then i else j, if i < j then j else i);
      NotOwner(y.range, x.range);
    }
  }

  /** An expression of a plain statement is outside every encrypted `if`. */
  lemma {:induction false} ExprOutside(s: Stmt, x: Stmt, k: nat, y: Stmt)
    requires Nested(s) && Occurs(s, x) && Occurs(s, y) && y.kind.EncryptedIf?
    requires x.kind.Plain? && k < |x.parts| && x.parts[k].AnExpr?
    ensures !Contains(y.range, x.parts[k].e.range)
    decreases s
  {
    var r := x.parts[k].e.range;
    OccursInside(s, x);
    PartsApart(x.parts, x.range.start, x.range.end, k, k);
    var j :| 0 <= j < |s.parts| && s.parts[j].AStmt? && Occurs(s.parts[j].s, y);
    OccursAt(s, j, y);
    if s == x {
      PartsApart(s.parts, s.range.start, s.range.end, if k < j then k else j, if k < j then j else k);
      NotOwner(y.range, r);
    } else {
      var i :| 0 <= i < |s.parts| && s.parts[i].AStmt? && Occurs(s.parts[i].s, x);
      OccursAt(s, i, x);
      if i == j {
        ExprOutside(s.parts[i].s, x, k, y);
      } else {
        PartsApart(s.parts, s.range.start, s.range.end, if i < j then i else j, if i < j then j else i);
        NotOwner(y.range, r);
      }
    }
  }

  // ---- the encrypted `if`s -------------------------------------------------------------

  lemma {:induction false} OuterAre(s: Stmt, x: Stmt)
    ensures x in OuterIfs(s) <==> Occurs(s, x) && x.kind.EncryptedIf?
    decreases s
  {
    if s.kind.Plain? {
      OuterIn(s.parts, x);
    }
  }

  lemma {:induction false} OuterAt(q: Part, x: Stmt)
    ensures x in OuterIfsOf(q) <==> q.AStmt? && Occurs(q.s, x) && x.kind.EncryptedIf?
    decreases q
  {
    if q.AStmt? { OuterAre(q.s, x); }
  }

  lemma {:induction false} OuterIn(ps: seq<Part>, x: Stmt)
    ensures x in OuterIfsIn(ps) <==> exists i | 0 <= i < |ps| && ps[i].AStmt? :: Occurs(ps[i].s, x) && x.kind.EncryptedIf?
    decreases ps
  {
    if ps != [] {
      OuterAt(ps[0], x);
      OuterIn(ps[1..], x);
      if exists i | 0 <= i < |ps[1..]| && ps[1..][i].AStmt? :: Occurs(ps[1..][i].s, x) && x.kind.EncryptedIf? {
        var i :| 0 <= i < |ps[1..]| && ps[1..][i].AStmt? && Occurs(ps[1..][i].s, x) && x.kind.EncryptedIf?;
        assert ps[i + 1] == ps[1..][i];
      }
      if exists i | 0 < i < |ps| && ps[i].AStmt? :: Occurs(ps[i].s, x) && x.kind.EncryptedIf? {
        var i :| 0 < i < |ps| && ps[i].AStmt? && Occurs(ps[i].s, x) && x.kind.EncryptedIf?;
        assert ps[1..][i - 1] == ps[i];
      }
    }
  }

  lemma {:induction false} IfPatchesAre(ifs: seq<Stmt>, p: Patch)
    requires forall x | x in ifs :: x.kind.EncryptedIf?
    ensures p in IfPatches(ifs) <==> exists x :: x in ifs && IfPatch(x, p)
    decreases ifs
  {
    if ifs != [] {
      assert ifs == [ifs[0]] + ifs[1..];
      IfPatchesAre(ifs[1..], p);
      assert IfPatch(ifs[0], p) <==> p == Replace(ifs[0].range, ifs[0].kind.text, IF_RULE);
    }
  }

  lemma {:induction false} SpansAre(ifs: seq<Stmt>, r: Range)
    ensures Owns(Spans(ifs), r) ==> exists x :: x in ifs && Contains(x.range, r)
    decreases ifs
  {
    if ifs != [] && Owns(Spans(ifs), r) {
      assert ifs == [ifs[0]] + ifs[1..];
      var i :| 0 <= i < |Spans(ifs)| && Contains(Spans(ifs)[i], r);
      if i > 0 {
        assert Contains(Spans(ifs[1..])[i - 1], r);
        SpansAre(ifs[1..], r);
      } else {
        assert ifs[0] in ifs;
      }
    }
  }

  // ---- everything outside them ---------------------------------------------------------

  lemma OwnsMore(skips: seq<Range>, outer: Range, inner: Range)
    requires Contains(outer, inner) && Owns(skips, outer)
    ensures Owns(skips, inner)
  {
    var i :| 0 <= i < |skips| && Contains(skips[i], outer);
    assert Contains(skips[i], inner);
  }

  /** Below an owned statement nothing is left to patch. */
  lemma OwnedHasNone(s: Stmt, skips: seq<Range>, x: Stmt, p: Patch)
    requires Nested(s) && Owns(skips, s.range) && Occurs(s, x)
    ensures !Own(x, skips, p)
  {
    OccursInside(s, x);
    OwnsMore(skips, s.range, x.range);
    if x.kind.Plain? {
      forall i | 0 <= i < |x.parts| && x.parts[i].AnExpr?
        ensures Owns(skips, x.parts[i].e.range)
      {
        PartsApart(x.parts, x.range.start, x.range.end, i, i);
        OwnsMore(skips, x.range, x.parts[i].e.range);
      }
    }
  }

  ghost predicate OwnBelow(s: Stmt, skips: seq<Range>, p: Patch) {
    exists x :: Occurs(s, x) && Own(x, skips, p)
  }

  /** A part's share: its own expression, or whatever occurs below it. */
  ghost predicate OwnPart(q: Part, skips: seq<Range>, p: Patch) {
    if q.AnExpr? then ExprPatch(q.e, skips, p) else OwnBelow(q.s, skips, p)
  }

  lemma PlainOwns(s: Stmt, skips: seq<Range>, p: Patch)
    requires s.kind.Plain?
    ensures OwnBelow(s, skips, p) <==> exists i | 0 <= i < |s.parts| :: OwnPart(s.parts[i], skips, p)
  {
    if OwnBelow(s, skips, p) {
      var x :| Occurs(s, x) && Own(x, skips, p);
      if s == x {
        var i :| 0 <= i < |x.parts| && x.parts[i].AnExpr? && ExprPatch(x.parts[i].e, skips, p);
        assert OwnPart(s.parts[i], skips, p);
      } else {
        var i :| 0 <= i < |s.parts| && s.parts[i].AStmt? && Occurs(s.parts[i].s, x);
        assert OwnPart(s.parts[i], skips, p);
      }
    }
    if i: nat :| i < |s.parts| && OwnPart(s.parts[i], skips, p) {
      if s.parts[i].AnExpr? {
        assert Occurs(s, s) && Own(s, skips, p);
      } else {
        var x :| Occurs(s.parts[i].s, x) && Own(x, skips, p);
        assert Occurs(s, x);
      }
    }
  }

  lemma {:induction false} StmtPatchesAre(s: Stmt, skips: seq<Range>, p: Patch)
    requires Nested(s)
    ensures p in StmtPatches(s, skips) <==> OwnBelow(s, skips, p)
    decreases s, 1
  {
    if Owns(skips, s.range) {
      forall x | Occurs(s, x)
        ensures !Own(x, skips, p)
      {
        OwnedHasNone(s, skips, x, p);
      }
    } else if s.kind.Plain? {
      PartPatchesAre(s.parts, s.range.start, s.range.end, skips, p);
      PlainOwns(s, skips, p);
    } else {
      assert Occurs(s, s) && forall x | Occurs(s, x) :: x == s;
    }
  }

  lemma {:induction false} PartPatchIs(q: Part, skips: seq<Range>, p: Patch)
    requires PartNested(q)
    ensures p in PatchesOf(q, skips) <==> OwnPart(q, skips, p)
    decreases q, 0
  {
    if q.AStmt? { StmtPatchesAre(q.s, skips, p); }
  }

  lemma {:induction false} PartPatchesAre(ps: seq<Part>, from: nat, to: nat, skips: seq<Range>, p: Patch)
    requires PartsNested(ps, from, to)
    ensures p in PartPatches(ps, skips) <==> exists i | 0 <= i < |ps| :: OwnPart(ps[i], skips, p)
    decreases ps, 0
  {
    if ps != [] {
      var rest := ps[1..];
      PartPatchIs(ps[0], skips, p);
      PartPatchesAre(rest, RangeOf(ps[0]).end, to, skips, p);
      if i: nat :| i < |rest| && OwnPart(rest[i], skips, p) { assert OwnPart(ps[i + 1], skips, p); }
      if i: nat :| 0 < i < |ps| && OwnPart(ps[i], skips, p) { assert OwnPart(rest[i - 1], skips, p); }
    }
  }

  // ---- both passes ---------------------------------------------------------------------

  /** Skipping the encrypted `if`s' own spans skips nothing that occurs outside them. */
  lemma SkipsNothing(body: Stmt, owned: seq<Range>, x: Stmt, p: Patch)
    requires Nested(body) && Occurs(body, x)
    ensures Own(x, Spans(OuterIfs(body)) + owned, p) <==> Own(x, owned, p)
  {
    var spans := Spans(OuterIfs(body));
    forall r: Range
      ensures Owns(spans + owned, r) <==> Owns(spans, r) || Owns(owned, r)
    {
      if Owns(spans, r) {
        var i :| 0 <= i < |spans| && Contains(spans[i], r);
        assert (spans + owned)[i] == spans[i];
      }
      if Owns(owned, r) {
        var i :| 0 <= i < |owned| && Contains(owned[i], r);
        assert (spans + owned)[|spans| + i] == owned[i];
      }
    }
    if x.kind.Stepped? && Owns(spans, x.range) {
      SpansAre(OuterIfs(body), x.range);
      var y :| y in OuterIfs(body) && Contains(y.range, x.range);
      OuterAre(body, y);
      StepOutside(body, x, y);
    }
    if x.kind.Plain? {
      forall i | 0 <= i < |x.parts| && x.parts[i].AnExpr?
        ensures !Owns(spans, x.parts[i].e.range)
      {
        ExprNotSpanned(body, x, i);
      }
    }
  }

  lemma ExprNotSpanned(body: Stmt, x: Stmt, i: nat)
    requires Nested(body) && Occurs(body, x) && x.kind.Plain? && i < |x.parts| && x.parts[i].AnExpr?
    ensures !Owns(Spans(OuterIfs(body)), x.parts[i].e.range)
  {
    if Owns(Spans(OuterIfs(body)), x.parts[i].e.range) {
      SpansAre(OuterIfs(body), x.parts[i].e.range);
      var y :| y in OuterIfs(body) && Contains(y.range, x.parts[i].e.range);
      OuterAre(body, y);
      ExprOutside(body, x, i, y);
    }
  }

  lemma BodyPatchesAre(body: Stmt, owned: seq<Range>, p: Patch)
    requires Nested(body)
    ensures p in BodyPatches(body, owned) <==> Wanted(body, owned, p)
  {
    var skips := Spans(OuterIfs(body)) + owned;
    OuterAreIfs(body);
    IfPatchesAre(OuterIfs(body), p);
    StmtPatchesAre(body, skips, p);
    forall x
      ensures x in OuterIfs(body) <==> Occurs(body, x) && x.kind.EncryptedIf?
      ensures Occurs(body, x) ==> (Own(x, skips, p) <==> Own(x, owned, p))
    {
      OuterAre(body, x);
      if Occurs(body, x) { SkipsNothing(body, owned, x, p); }
    }
  }

  predicate NoneTwice(ps: seq<Patch>) {
    forall i, j | 0 <= i < j < |ps| :: ps[i] != ps[j]
  }

  /**
   The plan for a file holds exactly the wanted patches, each once: the outermost
   encrypted `if`s, the steps outside them, and the expressions outside both that
   have a rendering, each at its own range with its own text.
   */
  lemma {:induction false} PatchesExactly(bodies: seq<Stmt>, owned: seq<Range>)
    requires BodiesApart(bodies)
    ensures forall p :: p in FilePatches(bodies, owned) <==> exists b :: b in bodies && Wanted(b, owned, p)
    ensures NoneTwice(FilePatches(bodies, owned))
  {
    forall p
      ensures p in FilePatches(bodies, owned) <==> exists b :: b in bodies && Wanted(b, owned, p)
    {
      FileWants(bodies, owned, p);
    }
    NeverCollide(bodies, owned);
    var ps := FilePatches(bodies, owned);
    forall i, j | 0 <= i < j < |ps|
      ensures ps[i] != ps[j]
    {
      assert ps[i] in ps && ps[i].range.start < ps[i].range.end;
    }
  }

  lemma {:induction false} FileWants(bodies: seq<Stmt>, owned: seq<Range>, p: Patch)
    requires forall b | b in bodies :: Nested(b)
    ensures p in FilePatches(bodies, owned) <==> exists b :: b in bodies && Wanted(b, owned, p)
    decreases bodies
  {
    if bodies != [] {
      assert bodies == [bodies[0]] + bodies[1..];
      BodyPatchesAre(bodies[0], owned, p);
      FileWants(bodies[1..], owned, p);
    }
  }

  // ---- what the output holds -----------------------------------------------------------

  /** The patch has left its text in the output, in place of its range. */
  ghost predicate Left(original: Bytes, r: Spliced, p: Patch) {
    exists a | a in r.applied ::
      a.source == p.range && a.output.start <= a.output.end <= |r.text| && r.text[a.output.start..a.output.end] == p.replacement
  }

  lemma {:induction false} CutLeft(original: Bytes, r: Spliced, ps: seq<Patch>, applied: seq<Applied>, cursor: nat, at: nat, p: Patch)
    requires cursor <= |original| && at <= |r.text| && Cut(original, r.text, ps, applied, cursor, at) && p in ps
    requires forall a | a in applied :: a in r.applied
    ensures Left(original, r, p)
    decreases applied
  {
    assert applied == [applied[0]] + applied[1..] && ps == [ps[0]] + ps[1..];
    if p == ps[0] {
      assert applied[0] in r.applied;
    } else {
      CutLeft(original, r, ps[1..], applied[1..], applied[0].source.end, applied[0].output.end, p);
    }
  }

  /** The lowered file holds, in place of everything wanted, exactly the wanted text;
      and there are no other replacements. */
  lemma LoweredText(original: Bytes, bodies: seq<Stmt>, owned: seq<Range>)
    requires BodiesApart(bodies) && AllInBounds(original, FilePatches(bodies, owned))
    ensures SpliceOf(original, FilePatches(bodies, owned)).Success?
    ensures var r := SpliceOf(original, FilePatches(bodies, owned)).value;
            && |r.applied| == |FilePatches(bodies, owned)|
            && forall b, p | b in bodies && Wanted(b, owned, p) :: Left(original, r, p)
  {
    var plan := FilePatches(bodies, owned);
    SpliceAccepts(original, bodies, owned);
    OutputIsCut(original, plan);
    var r := SpliceOf(original, plan).value;
    forall b, p | b in bodies && Wanted(b, owned, p)
      ensures Left(original, r, p)
    {
      FileWants(bodies, owned, p);
      CanonicalMembers(plan);
      CutLeft(original, r, Canonical(plan), r.applied, 0, 0, p);
    }
  }
}
