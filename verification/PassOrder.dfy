/**
 The passes over one file: encrypted `if`s first, then the expressions outside them.
 Their replacement patches never overlap.
 */
module PassOrder {
  import opened Wrappers
  import opened RewritePlan
  import opened Splice

  /** An expression position; `text` is what the renderer makes of it, if it differs. */
  datatype Expr = Expr(range: Range, text: Option<Bytes>)

  /** A statement with its expressions and statements in source order.  `Stepped` is an
      inc/dec or compound assignment, replaced as a whole or up to its semicolon. */
  datatype Stmt = Stmt(range: Range, kind: Kind, parts: seq<Part>)
  datatype Kind = Plain | EncryptedIf(text: Bytes) | Stepped(at: Range, text: Bytes)
  datatype Part = AnExpr(e: Expr) | AStmt(s: Stmt)

  const IF_RULE := "if-select"
  const OP_RULE := "operator-lowering"
  const STEP_RULE := "compound-assign"

  function RangeOf(p: Part): Range {
    match p
    case AnExpr(e) => e.range
    case AStmt(s) => s.range
  }

  /** The parts follow one another between two offsets, and are nested in turn. */
  predicate Nested(s: Stmt)
    decreases s
  {
    && s.range.start < s.range.end
    && PartsNested(s.parts, s.range.start, s.range.end)
    && (s.kind.Stepped? ==> s.range.start <= s.kind.at.start < s.kind.at.end <= s.range.end)
  }

  predicate PartsNested(ps: seq<Part>, from: nat, to: nat)
    decreases ps
  {
    if ps == [] then from <= to
    else
      && from <= RangeOf(ps[0]).start < RangeOf(ps[0]).end
      && PartNested(ps[0])
      && PartsNested(ps[1..], RangeOf(ps[0]).end, to)
  }

  predicate PartNested(p: Part)
    decreases p
  {
    p.AStmt? ==> Nested(p.s)
  }

  predicate Contains(outer: Range, inner: Range) {
    outer.start <= inner.start && inner.end <= outer.end
  }

  predicate Owns(skips: seq<Range>, r: Range) {
    exists i | 0 <= i < |skips| :: Contains(skips[i], r)
  }

  /** The outermost encrypted `if`s, in source order. */
  function OuterIfs(s: Stmt): seq<Stmt>
    decreases s
  {
    if s.kind.EncryptedIf? then [s] else if s.kind.Stepped? then [] else OuterIfsIn(s.parts)
  }

  function OuterIfsIn(ps: seq<Part>): seq<Stmt>
    decreases ps
  {
    if ps == [] then [] else OuterIfsOf(ps[0]) + OuterIfsIn(ps[1..])
  }

  function OuterIfsOf(p: Part): seq<Stmt>
    decreases p
  {
    if p.AStmt? then OuterIfs(p.s) else []
  }

  function IfPatches(ifs: seq<Stmt>): seq<Patch>
    requires forall s | s in ifs :: s.kind.EncryptedIf?
  {
    if ifs == [] then [] else [Replace(ifs[0].range, ifs[0].kind.text, IF_RULE)] + IfPatches(ifs[1..])
  }

  function Spans(ifs: seq<Stmt>): seq<Range> {
    if ifs == [] then [] else [ifs[0].range] + Spans(ifs[1..])
  }

  function ExprPatches(e: Expr, skips: seq<Range>): seq<Patch> {
    if Owns(skips, e.range) || e.text.None? then [] else [Replace(e.range, e.text.value, OP_RULE)]
  }

  /** What the expression pass adds for a statement. */
  function StmtPatches(s: Stmt, skips: seq<Range>): seq<Patch>
    decreases s, 0
  {
    if Owns(skips, s.range) then []
    else
      match s.kind
      case EncryptedIf(_) => []
      case Stepped(at, text) => [Replace(at, text, STEP_RULE)]
      case Plain => PartPatches(s.parts, skips)
  }

  function PartPatches(ps: seq<Part>, skips: seq<Range>): seq<Patch>
    decreases ps, 0
  {
    if ps == [] then []
    else PatchesOf(ps[0], skips) + PartPatches(ps[1..], skips)
  }

  function PatchesOf(p: Part, skips: seq<Range>): seq<Patch>
    decreases p, 0
  {
    match p
    case AnExpr(e) => ExprPatches(e, skips)
    case AStmt(s) => StmtPatches(s, skips)
  }

  lemma {:induction false} OuterAreIfs(s: Stmt)
    ensures forall x | x in OuterIfs(s) :: x.kind.EncryptedIf?
    decreases s
  {
    if s.kind.Plain? { OuterAreIfsIn(s.parts); }
  }

  lemma {:induction false} OuterAreIfsIn(ps: seq<Part>)
    ensures forall x | x in OuterIfsIn(ps) :: x.kind.EncryptedIf?
    decreases ps
  {
    if ps != [] {
      OuterOfAreIfs(ps[0]);
      OuterAreIfsIn(ps[1..]);
    }
  }

  lemma {:induction false} OuterOfAreIfs(p: Part)
    ensures forall x | x in OuterIfsOf(p) :: x.kind.EncryptedIf?
    decreases p
  {
    if p.AStmt? { OuterAreIfs(p.s); }
  }

  /** Both passes over one function body; `owned` are the spans of the pass between them. */
  function BodyPatches(body: Stmt, owned: seq<Range>): seq<Patch> {
    OuterAreIfs(body);
    IfPatches(OuterIfs(body)) + StmtPatches(body, Spans(OuterIfs(body)) + owned)
  }

  function FilePatches(bodies: seq<Stmt>, owned: seq<Range>): seq<Patch> {
    if bodies == [] then [] else BodyPatches(bodies[0], owned) + FilePatches(bodies[1..], owned)
  }

  // ---- no two patches overlap ----------------------------------------------------------

  predicate RangesApart(a: Range, b: Range) {
    a.end <= b.start || b.end <= a.start
  }

  /** Proper replacements inside a range. */
  predicate AllInside(ps: seq<Patch>, r: Range) {
    forall p | p in ps :: r.start <= p.range.start < p.range.end <= r.end
  }

  predicate AllApart(ps: seq<Patch>) {
    forall i, j | 0 <= i < j < |ps| :: RangesApart(ps[i].range, ps[j].range)
  }

  predicate CrossApart(a: seq<Patch>, b: seq<Patch>) {
    forall p, q | p in a && q in b :: RangesApart(p.range, q.range)
  }

  lemma JoinApart(a: seq<Patch>, b: seq<Patch>)
    requires AllApart(a) && AllApart(b) && CrossApart(a, b)
    ensures AllApart(a + b)
  {
    forall i, j | 0 <= i < j < |a + b|
      ensures RangesApart((a + b)[i].range, (a + b)[j].range)
    {
      if i < |a| && j >= |a| { assert (a + b)[i] in a && (a + b)[j] in b; }
    }
  }

  lemma InsideApart(a: seq<Patch>, r: Range, b: seq<Patch>, q: Range)
    requires AllInside(a, r) && AllInside(b, q) && RangesApart(r, q)
    ensures CrossApart(a, b)
  {
  }

  lemma IfPatchesJoin(a: seq<Stmt>, b: seq<Stmt>)
    requires forall s | s in a + b :: s.kind.EncryptedIf?
    ensures (forall s | s in a :: s.kind.EncryptedIf?) && (forall s | s in b :: s.kind.EncryptedIf?)
    ensures IfPatches(a + b) == IfPatches(a) + IfPatches(b)
    decreases a
  {
    assert forall s | s in a :: s in a + b;
    assert forall s | s in b :: s in a + b;
    if a == [] {
      assert a + b == b;
    } else {
      assert (a + b)[0] == a[0] && (a + b)[1..] == a[1..] + b;
      assert forall s | s in a[1..] + b :: s in a + b;
      IfPatchesJoin(a[1..], b);
    }
  }

  /** The patches of the two passes for a statement, side by side. */
  ghost predicate Settled(ifs: seq<Patch>, es: seq<Patch>, r: Range) {
    AllInside(ifs, r) && AllInside(es, r) && AllApart(ifs) && AllApart(es) && CrossApart(ifs, es)
  }

  lemma {:induction false} StmtSettled(s: Stmt, skips: seq<Range>)
    requires Nested(s)
    ensures (forall x | x in OuterIfs(s) :: x.kind.EncryptedIf?)
            && Settled(IfPatches(OuterIfs(s)), StmtPatches(s, skips), s.range)
    decreases s, 1
  {
    OuterAreIfs(s);
    if s.kind.EncryptedIf? {
      assert OuterIfs(s) == [s] && [s][1..] == [];
    } else if s.kind.Plain? {
      PartsSettled(s.parts, skips, s.range.start, s.range.end);
    }
  }

  lemma {:induction false} PartSettled(p: Part, skips: seq<Range>)
    requires PartNested(p) && RangeOf(p).start < RangeOf(p).end
    ensures (forall x | x in OuterIfsOf(p) :: x.kind.EncryptedIf?)
            && Settled(IfPatches(OuterIfsOf(p)), PatchesOf(p, skips), RangeOf(p))
    decreases p, 0
  {
    if p.AStmt? { StmtSettled(p.s, skips); }
  }

  lemma {:induction false} PartsSettled(ps: seq<Part>, skips: seq<Range>, from: nat, to: nat)
    requires PartsNested(ps, from, to)
    ensures from <= to
    ensures (forall x | x in OuterIfsIn(ps) :: x.kind.EncryptedIf?)
            && Settled(IfPatches(OuterIfsIn(ps)), PartPatches(ps, skips), Range(from, to))
    decreases ps, 0
  {
    OuterAreIfsIn(ps);
    if ps != [] {
      var r, ifs, es := RangeOf(ps[0]), OuterIfsOf(ps[0]), PatchesOf(ps[0], skips);
      PartSettled(ps[0], skips);
      PartsSettled(ps[1..], skips, r.end, to);
      IfPatchesJoin(ifs, OuterIfsIn(ps[1..]));
      TwoSettled(IfPatches(ifs), es, r, IfPatches(OuterIfsIn(ps[1..])), PartPatches(ps[1..], skips), Range(r.end, to), Range(from, to));
    }
  }

  /** Patches of one part, then those of the parts behind it. */
  lemma TwoSettled(ifs: seq<Patch>, es: seq<Patch>, r: Range, ifs2: seq<Patch>, es2: seq<Patch>, q: Range, all: Range)
    requires Settled(ifs, es, r) && Settled(ifs2, es2, q) && r.end <= q.start && Contains(all, r) && Contains(all, q)
    ensures Settled(ifs + ifs2, es + es2, all)
  {
    InsideApart(ifs, r, ifs2, q);
    InsideApart(es, r, es2, q);
    JoinApart(ifs, ifs2);
    JoinApart(es, es2);
  }

  lemma BodyApart(body: Stmt, owned: seq<Range>)
    requires Nested(body)
    ensures AllApart(BodyPatches(body, owned)) && AllInside(BodyPatches(body, owned), body.range)
  {
    StmtSettled(body, Spans(OuterIfs(body)) + owned);
    JoinApart(IfPatches(OuterIfs(body)), StmtPatches(body, Spans(OuterIfs(body)) + owned));
  }

  predicate BodiesApart(bodies: seq<Stmt>) {
    && (forall b | b in bodies :: Nested(b))
    && forall i, j | 0 <= i < j < |bodies| :: RangesApart(bodies[i].range, bodies[j].range)
  }

  /**
   Passes 1 and 2 never collide: over any well-nested file the replacements of the
   encrypted `if`s and of the expressions are pairwise disjoint.
   */
  lemma {:induction false} NeverCollide(bodies: seq<Stmt>, owned: seq<Range>)
    requires BodiesApart(bodies)
    ensures AllApart(FilePatches(bodies, owned))
    ensures forall p | p in FilePatches(bodies, owned) :: p.range.start < p.range.end && exists b | b in bodies :: Contains(b.range, p.range)
    decreases bodies
  {
    if bodies != [] {
      var first, rest := BodyPatches(bodies[0], owned), FilePatches(bodies[1..], owned);
      BodyApart(bodies[0], owned);
      NeverCollide(bodies[1..], owned);
      forall p, q | p in first && q in rest
        ensures RangesApart(p.range, q.range)
      {
        var b :| b in bodies[1..] && Contains(b.range, q.range);
        var j :| 1 <= j < |bodies| && bodies[j] == b;
        assert RangesApart(bodies[0].range, bodies[j].range);
      }
      JoinApart(first, rest);
      forall p | p in first + rest
        ensures p.range.start < p.range.end && exists b | b in bodies :: Contains(b.range, p.range)
      {
        if p in first {
          assert bodies[0] in bodies;
        } else {
          var b :| b in bodies[1..] && Contains(b.range, p.range);
          assert b in bodies;
        }
      }
    }
  }

  // ---- the splicer accepts them --------------------------------------------------------

  lemma SplitApart(ps: seq<Patch>, k: nat)
    requires k <= |ps| && AllApart(ps)
    ensures AllApart(ps[..k]) && AllApart(ps[k..]) && CrossApart(ps[..k], ps[k..])
  {
    forall x, y | x in ps[..k] && y in ps[k..]
      ensures RangesApart(x.range, y.range)
    {
      var i :| 0 <= i < k && ps[i] == x;
      var j :| 0 <= j < |ps| - k && ps[k..][j] == y;
      assert ps[k + j] == y;
    }
  }

  lemma PlaceApart(ps: seq<Patch>, p: Patch)
    requires Sorted(ps) && AllApart(ps) && forall q | q in ps :: RangesApart(p.range, q.range)
    ensures AllApart(Place(ps, p))
  {
    var k := PlaceWhere(ps, p);
    PlaceAt(ps, p, k);
    SplitApart(ps, k);
    JoinApart(ps[..k], [p]);
    assert CrossApart(ps[..k] + [p], ps[k..]);
    JoinApart(ps[..k] + [p], ps[k..]);
  }

  lemma {:induction false} CanonicalApart(ps: seq<Patch>)
    requires AllApart(ps)
    ensures AllApart(Canonical(ps))
  {
    if ps != [] {
      var front, last := ps[..|ps| - 1], ps[|ps| - 1];
      CanonicalApart(front);
      CanonicalSorted(front);
      forall q | q in Canonical(front)
        ensures RangesApart(last.range, q.range)
      {
        assert q in multiset(Canonical(front));
        assert q in front;
      }
      PlaceApart(Canonical(front), last);
    }
  }

  /** The splicer never reports an overlap between them. */
  lemma SpliceAccepts(original: Bytes, bodies: seq<Stmt>, owned: seq<Range>)
    requires BodiesApart(bodies) && AllInBounds(original, FilePatches(bodies, owned))
    ensures SpliceOf(original, FilePatches(bodies, owned)).Success?
  {
    var plan := FilePatches(bodies, owned);
    NeverCollide(bodies, owned);
    CanonicalApart(plan);
    CanonicalSorted(plan);
    var ps := Canonical(plan);
    forall i, j | 0 <= i < j < |ps|
      ensures ps[i].range.end <= ps[j].range.start
    {
      assert ps[i] in multiset(ps) && ps[j] in multiset(ps);
      assert ps[i] in plan && ps[j] in plan;
    }
    AcceptedExactly(original, plan);
  }

  // ---- the passes as they run ----------------------------------------------------------

  method PatchExpr(e: Expr, skips: seq<Range>, plan: FilePlan)
    modifies plan
    ensures plan.patches == old(plan.patches) + ExprPatches(e, skips)
  {
    if Owns(skips, e.range) { return; }
    if e.text.Some? { plan.Push(Replace(e.range, e.text.value, OP_RULE)); }
  }

  method WalkStmt(s: Stmt, skips: seq<Range>, plan: FilePlan)
    modifies plan
    ensures plan.patches == old(plan.patches) + StmtPatches(s, skips)
    decreases s, 0
  {
    if Owns(skips, s.range) { return; }
    match s.kind {
      case EncryptedIf(_) =>
      case Stepped(at, text) => plan.Push(Replace(at, text, STEP_RULE));
      case Plain => WalkParts(s.parts, skips, plan);
    }
  }

  method WalkPart(p: Part, skips: seq<Range>, plan: FilePlan)
    modifies plan
    ensures plan.patches == old(plan.patches) + PatchesOf(p, skips)
    decreases p, 0
  {
    match p {
      case AnExpr(e) => PatchExpr(e, skips, plan);
      case AStmt(s) => WalkStmt(s, skips, plan);
    }
  }

  method WalkParts(ps: seq<Part>, skips: seq<Range>, plan: FilePlan)
    modifies plan
    ensures plan.patches == old(plan.patches) + PartPatches(ps, skips)
    decreases ps, 0
  {
    ghost var before := plan.patches;
    assert ps[0..] == ps;
    for i := 0 to |ps|
      invariant plan.patches + PartPatches(ps[i..], skips) == before + PartPatches(ps, skips)
    {
      ghost var now := plan.patches;
      assert ps[i..][0] == ps[i] && ps[i..][1..] == ps[i + 1..];
      WalkPart(ps[i], skips, plan);
      assert now + PatchesOf(ps[i], skips) + PartPatches(ps[i + 1..], skips) == now + (PatchesOf(ps[i], skips) + PartPatches(ps[i + 1..], skips));
    }
    assert ps[|ps|..] == [];
  }

  /** One function: its encrypted `if`s, then everything outside what is owned. */
  method LowerBody(body: Stmt, owned: seq<Range>, plan: FilePlan)
    modifies plan
    ensures plan.patches == old(plan.patches) + BodyPatches(body, owned)
  {
    var sites := OuterIfs(body);
    OuterAreIfs(body);
    var spans: seq<Range> := [];
    ghost var before := plan.patches;
    assert sites[0..] == sites;
    for i := 0 to |sites|
      invariant plan.patches + IfPatches(sites[i..]) == before + IfPatches(sites)
      invariant spans + Spans(sites[i..]) == Spans(sites)
    {
      ghost var now := plan.patches;
      assert sites[i..][0] == sites[i] && sites[i..][1..] == sites[i + 1..];
      plan.Push(Replace(sites[i].range, sites[i].kind.text, IF_RULE));
      spans := spans + [sites[i].range];
      assert now + [Replace(sites[i].range, sites[i].kind.text, IF_RULE)] + IfPatches(sites[i + 1..])
          == now + ([Replace(sites[i].range, sites[i].kind.text, IF_RULE)] + IfPatches(sites[i + 1..]));
    }
    assert sites[|sites|..] == [] && spans + [] == spans && plan.patches + [] == plan.patches;
    WalkStmt(body, spans + owned, plan);
  }

  method LowerFile(bodies: seq<Stmt>, owned: seq<Range>, plan: FilePlan)
    requires plan.patches == []
    modifies plan
    ensures plan.patches == FilePatches(bodies, owned)
    ensures BodiesApart(bodies) ==> AllApart(plan.patches)
  {
    assert bodies[0..] == bodies;
    for i := 0 to |bodies|
      invariant plan.patches + FilePatches(bodies[i..], owned) == FilePatches(bodies, owned)
    {
      ghost var now := plan.patches;
      assert bodies[i..][0] == bodies[i] && bodies[i..][1..] == bodies[i + 1..];
      LowerBody(bodies[i], owned, plan);
      assert now + BodyPatches(bodies[i], owned) + FilePatches(bodies[i + 1..], owned)
          == now + (BodyPatches(bodies[i], owned) + FilePatches(bodies[i + 1..], owned));
    }
    assert bodies[|bodies|..] == [] && plan.patches + [] == plan.patches;
    if BodiesApart(bodies) { NeverCollide(bodies, owned); }
  }
}
