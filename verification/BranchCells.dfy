/** Which cells paths can denote, and what keeps the value of an expression. */
module BranchCells {
  import opened Wrappers
  import opened BranchAst
  import opened BranchLowering
  import opened BranchAdmission

  predicate SegFits(m: Meaning, q: PSeg, step: Step) {
    match q
    case PField(f) => step == FieldStep(f)
    case PLit(t) => step == KeyStep(m.lit(t))
    case PAny => step.KeyStep?
  }

  /** The cell is one the pattern describes. */
  predicate Fits(m: Meaning, q: Pat, c: Cell) {
    && m.place(q.root) <= c
    && |c| == |m.place(q.root)| + |q.segs|
    && forall i | 0 <= i < |q.segs| :: SegFits(m, q.segs[i], c[|m.place(q.root)| + i])
  }

  predicate FitsSome(m: Meaning, qs: set<Pat>, c: Cell) {
    exists q | q in qs :: Fits(m, q, c)
  }

  predicate PatIn(q: Pat, ctx: Ctx) {
    && q.root in ctx.roots
    && forall i | 0 <= i < |q.segs| && q.segs[i].PLit? :: q.segs[i].text in ctx.texts
  }

  lemma FitsSnoc(m: Meaning, q: Pat, c: Cell, seg: PSeg, step: Step)
    requires Fits(m, q, c) && SegFits(m, seg, step)
    ensures Fits(m, Pat(q.root, q.segs + [seg]), c + [step])
  {
    var r := Pat(q.root, q.segs + [seg]);
    forall i | 0 <= i < |r.segs|
      ensures SegFits(m, r.segs[i], (c + [step])[|m.place(r.root)| + i])
    {
      if i < |q.segs| {
        assert r.segs[i] == q.segs[i];
      }
    }
  }

  lemma {:induction false} CellFits(m: Meaning, p: Path, c: Cells, t: map<nat, int>)
    ensures Fits(m, PatOf(p), CellOf(m, p, c, t))
    decreases p
  {
    match p
    case Var(v) =>
    case Field(b, f) =>
      CellFits(m, b, c, t);
      FitsSnoc(m, PatOf(b), CellOf(m, b, c, t), PField(f), FieldStep(f));
    case Index(b, k) =>
      CellFits(m, b, c, t);
      FitsSnoc(m, PatOf(b), CellOf(m, b, c, t), if k.Lit? then PLit(k.text) else PAny, KeyStep(ValueOf(m, k, c, t)));
  }

  lemma {:induction false} PatInUniverse(p: Path, ctx: Ctx)
    requires InUniverse(p, ctx)
    ensures PatIn(PatOf(p), ctx)
    decreases p
  {
    match p
    case Var(v) =>
    case Field(b, f) => PatInUniverse(b, ctx);
    case Index(b, k) => PatInUniverse(b, ctx);
  }

  lemma PrefixOrder(a: Cell, b: Cell, c: Cell)
    requires a <= c && b <= c
    ensures a <= b || b <= a
  {
    if |a| <= |b| {
      assert a == b[..|a|] by { assert b == c[..|b|]; }
    } else {
      assert b == a[..|b|] by { assert a == c[..|a|]; }
    }
  }

  /** Cells below different roots differ. */
  lemma RootsApart(m: Meaning, roots: set<VarId>, v: VarId, w: VarId, c: Cell)
    requires RootsDisjoint(m, roots) && v in roots && w in roots
    requires m.place(v) <= c && m.place(w) <= c
    ensures v == w
  {
    PrefixOrder(m.place(v), m.place(w), c);
  }

  lemma SegApartFits(m: Meaning, ctx: Ctx, a: PSeg, b: PSeg, step: Step)
    requires MeaningOk(m, ctx) && SegApart(a, b)
    requires (a.PLit? ==> a.text in ctx.texts) && (b.PLit? ==> b.text in ctx.texts)
    ensures !(SegFits(m, a, step) && SegFits(m, b, step))
  {
  }

  /** Patterns that are apart never describe the same cell. */
  lemma ApartCells(m: Meaning, ctx: Ctx, a: Pat, b: Pat, c: Cell)
    requires MeaningOk(m, ctx) && PatIn(a, ctx) && PatIn(b, ctx)
    requires Apart(a, b)
    requires Fits(m, a, c)
    ensures !Fits(m, b, c)
  {
    if a.root != b.root {
      if m.place(b.root) <= c {
        RootsApart(m, ctx.roots, a.root, b.root, c);
      }
    } else if |a.segs| == |b.segs| {
      var i :| 0 <= i < |a.segs| && SegApart(a.segs[i], b.segs[i]);
      SegApartFits(m, ctx, a.segs[i], b.segs[i], c[|m.place(a.root)| + i]);
    }
  }

  /** A written path the aliasing test tells apart from another is apart from it. */
  lemma {:induction false} AliasTestApart(p: Path, q: Path, rows: seq<Row>)
    requires !MayAlias(KeyOf(p, rows), KeyOf(q, rows))
    ensures Apart(PatOf(p), PatOf(q))
  {
    if RootOf(p) == RootOf(q) {
      var i := DistinctAt(KeyOf(p, rows), KeyOf(q, rows), 0);
      SegPattern(p, rows, i);
      SegPattern(q, rows, i);
    }
  }

  lemma {:induction false} DistinctAt(a: LocKey, b: LocKey, from: nat) returns (i: nat)
    requires a.root == b.root && !AliasFrom(a, b, from)
    requires from <= |a.segs| && from <= |b.segs| && a.segs[..from] == b.segs[..from]
    ensures from <= i < |a.segs| && i < |b.segs| && SegRel(a.segs[i], b.segs[i]) == Distinct
    decreases |a.segs| - from
  {
    if SegRel(a.segs[from], b.segs[from]) == Distinct {
      i := from;
    } else {
      i := DistinctAt(a, b, from + 1);
    }
  }

  /** The pattern of a segment says no more than the segment. */
  predicate SegPat(s: Seg, q: PSeg) {
    match s
    case SField(f) => q == PField(f)
    case SKey(KLit(t)) => q == PLit(t)
    case SKey(_) => q == PAny
  }

  lemma {:induction false} SegPattern(p: Path, rows: seq<Row>, i: nat)
    requires i < |SegsOf(p, rows)|
    ensures |PSegsOf(p)| == |SegsOf(p, rows)|
    ensures SegPat(SegsOf(p, rows)[i], PSegsOf(p)[i])
    decreases p
  {
    SegCount(p, rows);
    match p
    case Var(v) =>
    case Field(b, f) =>
      SegCount(b, rows);
      if i < |SegsOf(b, rows)| { SegPattern(b, rows, i); }
    case Index(b, k) =>
      SegCount(b, rows);
      if i < |SegsOf(b, rows)| { SegPattern(b, rows, i); }
  }

  lemma {:induction false} SegCount(p: Path, rows: seq<Row>)
    ensures |PSegsOf(p)| == |SegsOf(p, rows)|
    decreases p
  {
    match p
    case Var(v) =>
    case Field(b, f) => SegCount(b, rows);
    case Index(b, k) => SegCount(b, rows);
  }

  /** The two stores agree wherever `raw` text of the context may read. */
  ghost predicate AgreeRaw(m: Meaning, ctx: Ctx, c: Cells, d: Cells) {
    forall x: Cell :: !Under(m, ctx.dead, x) && !FitsSome(m, ctx.stale + ctx.dirty, x) ==> Load(c, x) == Load(d, x)
  }

  predicate PatsIn(ctx: Ctx) {
    && ctx.dead <= ctx.roots
    && forall q | q in ctx.stale + ctx.dirty :: PatIn(q, ctx)
  }

  lemma {:induction false} RawValue(m: Meaning, ctx: Ctx, e: Expr, c: Cells, d: Cells, t: map<nat, int>, u: map<nat, int>)
    requires MeaningOk(m, ctx) && PatsIn(ctx) && AgreeRaw(m, ctx, c, d)
    requires ReadsOk(e, ctx, true)
    ensures ValueOf(m, e, c, t) == ValueOf(m, e, d, u)
    ensures Defined(e, t)
    decreases e
  {
    match e
    case Lit(_) =>
    case Read(p) =>
      RawCell(m, ctx, p, c, d, t, u);
      var x := CellOf(m, p, c, t);
      CellFits(m, p, c, t);
      PatInUniverse(p, ctx);
      if Under(m, ctx.dead, x) {
        var v :| v in ctx.dead && m.place(v) <= x;
        RootsApart(m, ctx.roots, v, RootOf(p), x);
      }
      if FitsSome(m, ctx.stale + ctx.dirty, x) {
        var q :| q in ctx.stale + ctx.dirty && Fits(m, q, x);
        ApartCells(m, ctx, PatOf(p), q, x);
      }
    case App(op, args) =>
      RawValues(m, ctx, args, c, d, t, u);
    case Select(b, y, n) =>
      RawValue(m, ctx, b, c, d, t, u);
      RawValue(m, ctx, y, c, d, t, u);
      RawValue(m, ctx, n, c, d, t, u);
  }

  lemma {:induction false} RawValues(m: Meaning, ctx: Ctx, es: seq<Expr>, c: Cells, d: Cells, t: map<nat, int>, u: map<nat, int>)
    requires MeaningOk(m, ctx) && PatsIn(ctx) && AgreeRaw(m, ctx, c, d)
    requires forall a | a in es :: ReadsOk(a, ctx, true)
    ensures ValuesOf(m, es, c, t) == ValuesOf(m, es, d, u)
    ensures forall a | a in es :: Defined(a, t)
    decreases es
  {
    if es != [] {
      RawValue(m, ctx, es[0], c, d, t, u);
      RawValues(m, ctx, es[1..], c, d, t, u);
    }
  }

  lemma {:induction false} RawCell(m: Meaning, ctx: Ctx, p: Path, c: Cells, d: Cells, t: map<nat, int>, u: map<nat, int>)
    requires MeaningOk(m, ctx) && PatsIn(ctx) && AgreeRaw(m, ctx, c, d)
    requires KeysOk(p, ctx, true)
    ensures CellOf(m, p, c, t) == CellOf(m, p, d, u)
    ensures DefinedPath(p, t)
    decreases p
  {
    match p
    case Var(v) =>
    case Field(b, f) => RawCell(m, ctx, b, c, d, t, u);
    case Index(b, k) =>
      RawCell(m, ctx, b, c, d, t, u);
      RawValue(m, ctx, k, c, d, t, u);
  }
}
