/**
 The conditions under which the encrypted-`if` lowering keeps the meaning of a
 statement, as a check over the source text alone.

 The pass compares locations by their spelling.  A location pattern is what that
 spelling says about a cell: the root, the fields and the literal keys.  A
 computed key may be anything.
 */
module BranchAdmission {
  import opened Wrappers
  import opened BranchAst
  import opened BranchLowering

  datatype PSeg = PField(f: string) | PLit(text: string) | PAny
  datatype Pat = Pat(root: VarId, segs: seq<PSeg>)

  function PSegsOf(p: Path): seq<PSeg> {
    match p
    case Var(_) => []
    case Field(b, f) => PSegsOf(b) + [PField(f)]
    case Index(b, k) => PSegsOf(b) + [if k.Lit? then PLit(k.text) else PAny]
  }

  function PatOf(p: Path): Pat {
    Pat(RootOf(p), PSegsOf(p))
  }

  predicate SegApart(a: PSeg, b: PSeg) {
    match (a, b)
    case (PField(x), PField(y)) => x != y
    case (PLit(x), PLit(y)) => x != y
    case (PField(_), _) => true
    case (_, PField(_)) => true
    case _ => false
  }

  /** No cell fits both patterns. */
  predicate Apart(a: Pat, b: Pat) {
    || a.root != b.root
    || |a.segs| != |b.segs|
    || exists i :: 0 <= i < |a.segs| && SegApart(a.segs[i], b.segs[i])
  }

  /**
   What holds at a point of an arm.  `writes` is the write set of the frame the
   arm belongs to.  `stale` describes the locations that arms of enclosing frames
   may have reassigned and `dirty` those this arm has; the cells behind them still
   hold the values from before the top-level statement.  `dead` are the branch
   locals out of scope and `live` those this arm itself has declared.  `roots` and
   `texts` bound the variables and the literal keys that occur.
   */
  datatype Ctx = Ctx(roots: set<VarId>, texts: set<string>, writes: set<Path>,
                     stale: set<Pat>, dirty: set<Pat>, dead: set<VarId>, live: set<VarId>)

  predicate InUniverse(p: Path, ctx: Ctx) {
    match p
    case Var(v) => v in ctx.roots
    case Field(b, _) => InUniverse(b, ctx)
    case Index(b, k) => InUniverse(b, ctx) && (k.Lit? ==> k.text in ctx.texts)
  }

  /**
   Every location the expression reads still has its value in its cell, or is one
   the innermost frame versions.  In `raw` text nothing is substituted.
   */
  predicate ReadsOk(e: Expr, ctx: Ctx, raw: bool)
    decreases e
  {
    match e
    case Lit(_) => true
    case Tmp(_) => false
    case Read(p) => PathOk(p, ctx, raw)
    case App(_, args) => forall a | a in args :: ReadsOk(a, ctx, raw)
    case Select(b, y, n) => ReadsOk(b, ctx, raw) && ReadsOk(y, ctx, raw) && ReadsOk(n, ctx, raw)
  }

  predicate PathOk(p: Path, ctx: Ctx, raw: bool)
    decreases p, 1
  {
    && InUniverse(p, ctx)
    && ((!raw && p in ctx.writes)
        || (RootOf(p) !in ctx.dead
            && (forall q | q in ctx.stale :: Apart(PatOf(p), q))
            && (raw ==> forall q | q in ctx.dirty :: Apart(PatOf(p), q))
            && KeysOk(p, ctx, raw)))
  }

  predicate KeysOk(p: Path, ctx: Ctx, raw: bool)
    decreases p, 0
  {
    match p
    case Var(_) => true
    case Field(b, _) => KeysOk(b, ctx, raw)
    case Index(b, k) => KeysOk(b, ctx, raw) && ReadsOk(k, ctx, raw)
  }

  /** The non-local paths a statement assigns, those of nested statements included. */
  function WritePaths(cfg: Cfg, s: Stmt): set<Path>
    decreases s
  {
    match s
    case Assign(p, _, _) => Target(cfg, p)
    case Compound(p, _, _, _) => Target(cfg, p)
    case IncDec(p, _, _) => Target(cfg, p)
    case Block(b) => WritePathsAll(cfg, b)
    case Unchecked(b) => WritePathsAll(cfg, b)
    case If(_, t, e) => WritePaths(cfg, t) + (if e.Some? then WritePaths(cfg, e.value) else {})
    case _ => {}
  }

  function WritePathsAll(cfg: Cfg, ss: seq<Stmt>): set<Path>
    decreases ss
  {
    if ss == [] then {} else WritePaths(cfg, ss[0]) + WritePathsAll(cfg, ss[1..])
  }

  function Target(cfg: Cfg, p: Path): set<Path> {
    if RootOf(p) in cfg.locals then {} else {p}
  }

  predicate LiteralKeys(p: Path) {
    match p
    case Var(_) => true
    case Field(b, _) => LiteralKeys(b)
    case Index(b, k) => LiteralKeys(b) && k.Lit?
  }

  function Pats(ps: set<Path>): set<Pat> {
    set p | p in ps :: PatOf(p)
  }

  /** An arm assigns only branch locals it has itself declared. */
  predicate TargetOk(cfg: Cfg, p: Path, ctx: Ctx) {
    RootOf(p) in cfg.locals ==> RootOf(p) in ctx.live && InUniverse(p, ctx) && KeysOk(p, ctx, true)
  }

  function Assigned(cfg: Cfg, p: Path, ctx: Ctx): Ctx {
    ctx.(dirty := ctx.dirty + Pats(Target(cfg, p)))
  }

  function Opened(ctx: Ctx, v: VarId): Ctx {
    ctx.(dead := ctx.dead - {v}, live := ctx.live + {v})
  }

  /** The point at the start of an arm of a nested frame. */
  function Inner(cfg: Cfg, ctx: Ctx, s: Stmt): Ctx {
    Ctx(ctx.roots, ctx.texts, WritePaths(cfg, s), ctx.stale + ctx.dirty, {}, ctx.dead + Decls(s), {})
  }

  function Left(cfg: Cfg, ctx: Ctx, s: Stmt): Ctx {
    ctx.(dirty := ctx.dirty + Pats(WritePaths(cfg, s)), dead := ctx.dead + Decls(s), live := ctx.live - Decls(s))
  }

  /** Checks one statement of an arm and gives the point after it. */
  function Check(cfg: Cfg, s: Stmt, ctx: Ctx): Option<Ctx>
    decreases s
  {
    match s
    case Assign(p, _, e) =>
      if ReadsOk(e, ctx, false) && TargetOk(cfg, p, ctx) then Some(Assigned(cfg, p, ctx)) else None
    case Compound(p, _, _, e) =>
      if ReadsOk(e, ctx, false) && TargetOk(cfg, p, ctx) then Some(Assigned(cfg, p, ctx)) else None
    case IncDec(p, _, _) =>
      if TargetOk(cfg, p, ctx) then Some(Assigned(cfg, p, ctx)) else None
    case Decl(v, init) =>
      if init.Some? ==> ReadsOk(init.value, ctx, false) then Some(Opened(ctx, v)) else None
    case ExprStmt(e) => if ReadsOk(e, ctx, false) then Some(ctx) else None
    case Block(b) => CheckAll(cfg, b, ctx)
    case Unchecked(b) => CheckAll(cfg, b, ctx)
    case If(c, t, e) =>
      if ReadsOk(c, ctx, false) && NestedOk(cfg, s, ctx) then Some(Left(cfg, ctx, s)) else None
    case Other => None
  }

  function CheckAll(cfg: Cfg, ss: seq<Stmt>, ctx: Ctx): Option<Ctx>
    decreases ss
  {
    if ss == [] then Some(ctx)
    else
      var ctx1 :- Check(cfg, ss[0], ctx);
      CheckAll(cfg, ss[1..], ctx1)
  }

  /** The direct form reads in the enclosing environment.  In the general form the
      nested arms see only the nested frame's versions, and its keys are literal. */
  predicate NestedOk(cfg: Cfg, s: Stmt, ctx: Ctx)
    requires s.If?
    decreases s, 0
  {
    var shape := DirectShape(cfg, s);
    if shape.Failure? then false
    else if shape.value.Some? then ReadsOk(shape.value.value.yes, ctx, false) && ReadsOk(shape.value.value.no, ctx, false)
    else
      && (forall p | p in WritePaths(cfg, s) :: LiteralKeys(p))
      && Check(cfg, s.thn, Inner(cfg, ctx, s)).Some?
      && (s.els.Some? ==> Check(cfg, s.els.value, Inner(cfg, ctx, s)).Some?)
  }

  /** Key expressions read nothing the statement writes and none of its locals. */
  function StableCtx(cfg: Cfg, ctx: Ctx): Ctx {
    Ctx(ctx.roots, ctx.texts, {}, Pats(ctx.writes), {}, cfg.locals, {})
  }

  predicate WritesStable(cfg: Cfg, ctx: Ctx) {
    forall p | p in ctx.writes :: RootOf(p) !in cfg.locals && InUniverse(p, ctx) && KeysOk(p, StableCtx(cfg, ctx), true)
  }

  function TopCtx(cfg: Cfg, s: Stmt, roots: set<VarId>, texts: set<string>): Ctx {
    Ctx(roots, texts, WritePaths(cfg, s), {}, {}, cfg.locals, {})
  }

  /** A top-level encrypted `if` inside the given variables and literal keys. */
  predicate Admissible(safeCall: string -> bool, s: Stmt, roots: set<VarId>, texts: set<string>)
    requires s.If?
  {
    var cfg := Cfg(Decls(s), safeCall);
    var ctx := TopCtx(cfg, s, roots, texts);
    && Decls(s) <= roots
    && WritesStable(cfg, ctx)
    && ReadsOk(s.cond, ctx, true)
    && (var shape := DirectShape(cfg, s);
        shape.Success? && shape.value.Some? ==>
        ReadsOk(shape.value.value.yes, ctx, true) && ReadsOk(shape.value.value.no, ctx, true))
    && Check(cfg, s.thn, ctx).Some?
    && (s.els.Some? ==> Check(cfg, s.els.value, ctx).Some?)
  }

  /** Distinct variables live in separate storage. */
  predicate RootsDisjoint(m: Meaning, roots: set<VarId>) {
    forall v, w | v in roots && w in roots && v != w :: !(m.place(v) <= m.place(w))
  }

  /** Literal keys have one spelling for each value. */
  predicate KeysCanonical(m: Meaning, texts: set<string>) {
    forall a, b | a in texts && b in texts && m.lit(a) == m.lit(b) :: a == b
  }

  predicate MeaningOk(m: Meaning, ctx: Ctx) {
    RootsDisjoint(m, ctx.roots) && KeysCanonical(m, ctx.texts)
  }

  /** The cell belongs to one of the variables. */
  predicate Under(m: Meaning, vs: set<VarId>, c: Cell) {
    exists v | v in vs :: m.place(v) <= c
  }
}
