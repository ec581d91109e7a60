/**
 How a run of the emitted code follows a run of the source inside an arm: the
 relation between the two stores, and the rendering of expressions under it.
 */
module BranchRelation {
  import opened Wrappers
  import opened BranchAst
  import opened BranchLowering
  import opened BranchAdmission
  import opened BranchCells
  import opened BranchScan
  import opened BranchShape

  ghost predicate CtxOk(cfg: Cfg, ctx: Ctx) {
    && cfg.locals <= ctx.roots && ctx.dead <= cfg.locals && ctx.live <= cfg.locals && ctx.live !! ctx.dead
    && WritesStable(cfg, ctx)
    && (forall q | q in ctx.stale :: PatIn(q, ctx) && q.root !in cfg.locals)
    && ctx.dirty <= Pats(ctx.writes)
  }

  ghost predicate EnvOk(ctx: Ctx, env: Env, n: nat) {
    && WritesOk(ctx.writes, env.writes, env.rows)
    && (forall r | r in env.rows :: r.tmp < n)
    && (forall p | p in ctx.writes :: KeyOf(p, env.rows) in env.pre && KeyOf(p, env.rows) in env.versions)
    && (forall k | k in env.versions :: env.versions[k] < n)
    && (forall k | k in env.pre :: env.pre[k] < n)
    && (forall p | p in ctx.writes && !env.IsPre(KeyOf(p, env.rows)) :: PatOf(p) in ctx.dirty)
  }

  /** The current version of the location holds a value: it was assigned in the arm,
      or its pre-value is among those the frame emits. */
  predicate Valued(env: Env, emitted: set<LocKey>, key: LocKey) {
    !env.IsPre(key) || key in emitted
  }

  ghost predicate Ready(ctx: Ctx, env: Env, emitted: set<LocKey>, temps: map<nat, int>) {
    && (forall r | r in env.rows :: r.tmp in temps)
    && (forall p | p in ctx.writes && Valued(env, emitted, KeyOf(p, env.rows)) ::
          KeyOf(p, env.rows) in env.versions && env.versions[KeyOf(p, env.rows)] in temps)
  }

  function SourceCell(m: Meaning, p: Path, c: Cells): Cell {
    CellOf(m, p, c, map[])
  }

  /** The arm has assigned a location that lives in this cell. */
  ghost predicate Reassigned(m: Meaning, ctx: Ctx, env: Env, src: Cells, x: Cell) {
    exists p :: p in ctx.writes && !env.IsPre(KeyOf(p, env.rows)) && x == SourceCell(m, p, src)
  }

  ghost predicate RowsHold(m: Meaning, env: Env, src: Cells, temps: map<nat, int>) {
    forall r | r in env.rows :: TempOf(temps, r.tmp) == ValueOf(m, r.src, src, map[])
  }

  ghost predicate VersionsHold(m: Meaning, ctx: Ctx, env: Env, emitted: set<LocKey>, src: Cells, temps: map<nat, int>) {
    forall p | p in ctx.writes && Valued(env, emitted, KeyOf(p, env.rows)) && KeyOf(p, env.rows) in env.versions ::
      TempOf(temps, env.versions[KeyOf(p, env.rows)]) == Load(src, SourceCell(m, p, src))
  }

  ghost predicate CellsHold(m: Meaning, ctx: Ctx, env: Env, moved: set<Cell>, src: Cells, cells: Cells) {
    forall x: Cell :: !Under(m, ctx.dead, x) && x !in moved && !Reassigned(m, ctx, env, src, x) ==> Load(src, x) == Load(cells, x)
  }

  /**
   The emitted state follows the source store.  Versions hold the values the source
   has in their cells.  A cell may differ only if this arm reassigned it, if it is
   one of `moved`, which arms of enclosing frames reassigned, or if it belongs to a
   branch local out of scope.
   */
  ghost predicate Follows(m: Meaning, ctx: Ctx, env: Env, emitted: set<LocKey>, moved: set<Cell>, src: Cells, st: State) {
    && RowsHold(m, env, src, st.temps)
    && VersionsHold(m, ctx, env, emitted, src, st.temps)
    && CellsHold(m, ctx, env, moved, src, st.cells)
  }

  ghost predicate Covers(m: Meaning, ctx: Ctx, moved: set<Cell>) {
    forall x | x in moved :: FitsSome(m, ctx.stale, x)
  }

  lemma CtxPatsIn(cfg: Cfg, ctx: Ctx)
    requires CtxOk(cfg, ctx)
    ensures PatsIn(ctx) && PatsIn(StableCtx(cfg, ctx))
  {
    forall q | q in Pats(ctx.writes)
      ensures PatIn(q, ctx) && PatIn(q, StableCtx(cfg, ctx))
    {
      var p :| p in ctx.writes && q == PatOf(p);
      PatInUniverse(p, ctx);
    }
    forall q | q in ctx.stale + ctx.dirty
      ensures PatIn(q, ctx)
    {
    }
  }

  /** The two stores differ only in written locations and branch locals. */
  ghost predicate Quiet(m: Meaning, cfg: Cfg, ctx: Ctx, c: Cells, d: Cells) {
    AgreeRaw(m, StableCtx(cfg, ctx), c, d)
  }

  lemma StableCell(m: Meaning, cfg: Cfg, ctx: Ctx, p: Path, c: Cells, d: Cells)
    requires MeaningOk(m, ctx) && CtxOk(cfg, ctx) && Quiet(m, cfg, ctx, c, d) && p in ctx.writes
    ensures SourceCell(m, p, c) == SourceCell(m, p, d)
  {
    CtxPatsIn(cfg, ctx);
    RawCell(m, StableCtx(cfg, ctx), p, c, d, map[], map[]);
  }

  lemma {:induction false} KeyReadsOk(k: Expr, p: Path, ctx: Ctx)
    requires IsKeyIn(k, p) && KeysOk(p, ctx, true)
    ensures ReadsOk(k, ctx, true)
    decreases p
  {
    match p
    case Field(b, _) => KeyReadsOk(k, b, ctx);
    case Index(b, key) => if key != k { KeyReadsOk(k, b, ctx); }
  }

  lemma RowReadsOk(cfg: Cfg, ctx: Ctx, rows: seq<Row>, r: Row)
    requires WritesStable(cfg, ctx) && KeysFrom(ctx.writes, rows) && r in rows
    ensures ReadsOk(r.src, StableCtx(cfg, ctx), true)
  {
    assert KeyFrom(ctx.writes, r.src);
    var p :| p in ctx.writes && IsKeyIn(r.src, p);
    KeyReadsOk(r.src, p, StableCtx(cfg, ctx));
  }

  lemma StableRows(m: Meaning, cfg: Cfg, ctx: Ctx, env: Env, c: Cells, d: Cells, temps: map<nat, int>)
    requires MeaningOk(m, ctx) && CtxOk(cfg, ctx) && Quiet(m, cfg, ctx, c, d) && KeysFrom(ctx.writes, env.rows)
    requires RowsHold(m, env, c, temps)
    ensures RowsHold(m, env, d, temps)
  {
    CtxPatsIn(cfg, ctx);
    forall r | r in env.rows
      ensures TempOf(temps, r.tmp) == ValueOf(m, r.src, d, map[])
    {
      RowReadsOk(cfg, ctx, env.rows, r);
      RawValue(m, StableCtx(cfg, ctx), r.src, c, d, map[], map[]);
    }
  }

  /** A path below the written one always looks as if it might alias it. */
  lemma {:induction false} PrefixAliases(a: LocKey, b: LocKey, i: nat)
    requires a.root == b.root && |a.segs| < |b.segs| && b.segs[..|a.segs|] == a.segs
    requires i <= |a.segs|
    ensures AliasFrom(a, b, i)
    decreases |a.segs| - i
  {
    if i < |a.segs| {
      assert a.segs[i] == b.segs[i];
      PrefixAliases(a, b, i + 1);
    }
  }

  predicate Versioned(cfg: Cfg, p: Path, env: Env) {
    RootOf(p) !in cfg.locals && HasKey(env.writes, KeyOf(p, env.rows))
  }

  lemma {:induction false} HasKeyAliases(writes: seq<Loc>, a: LocKey, b: LocKey)
    requires HasKey(writes, a) && MayAlias(a, b)
    ensures MayAliasAny(writes, b)
  {
    if writes[0].key != a { HasKeyAliases(writes[1..], a, b); }
  }

  lemma BaseUnversioned(cfg: Cfg, p: Path, env: Env)
    requires !p.Var? && RenderPath(cfg, p, env).Success? && !Versioned(cfg, p, env)
    ensures !Versioned(cfg, p.base, env)
  {
    if Versioned(cfg, p.base, env) {
      SegsSplit(p, env.rows);
      PrefixAliases(KeyOf(p.base, env.rows), KeyOf(p, env.rows), 0);
      HasKeyAliases(env.writes, KeyOf(p.base, env.rows), KeyOf(p, env.rows));
    }
  }

  ghost predicate Setting(m: Meaning, cfg: Cfg, ctx: Ctx, env: Env, n: nat, emitted: set<LocKey>, moved: set<Cell>, temps: map<nat, int>) {
    MeaningOk(m, ctx) && CtxOk(cfg, ctx) && EnvOk(ctx, env, n) && Covers(m, ctx, moved) && Ready(ctx, env, emitted, temps)
  }

  lemma {:induction false} RenderFollows(m: Meaning, cfg: Cfg, ctx: Ctx, e: Expr, env: Env, n: nat,
                                         emitted: set<LocKey>, moved: set<Cell>, src: Cells, st: State)
    requires Setting(m, cfg, ctx, env, n, emitted, moved, st.temps)
    requires ReadsOk(e, ctx, false) && Render(cfg, e, env).Success? && Render(cfg, e, env).value.used <= emitted
    ensures Defined(Render(cfg, e, env).value.e, st.temps)
    ensures Follows(m, ctx, env, emitted, moved, src, st) ==>
              ValueOf(m, Render(cfg, e, env).value.e, st.cells, st.temps) == ValueOf(m, e, src, map[])
    decreases e, 0
  {
    match e
    case Lit(_) =>
    case Read(p) => PathFollows(m, cfg, ctx, p, env, n, emitted, moved, src, st);
    case App(op, args) => ArgsFollow(m, cfg, ctx, args, env, n, emitted, moved, src, st);
    case Select(b, y, z) =>
      RenderFollows(m, cfg, ctx, b, env, n, emitted, moved, src, st);
      RenderFollows(m, cfg, ctx, y, env, n, emitted, moved, src, st);
      RenderFollows(m, cfg, ctx, z, env, n, emitted, moved, src, st);
  }

  lemma {:induction false} ArgsFollow(m: Meaning, cfg: Cfg, ctx: Ctx, es: seq<Expr>, env: Env, n: nat,
                                      emitted: set<LocKey>, moved: set<Cell>, src: Cells, st: State)
    requires Setting(m, cfg, ctx, env, n, emitted, moved, st.temps)
    requires forall a | a in es :: ReadsOk(a, ctx, false)
    requires RenderArgs(cfg, es, env).Success? && RenderArgs(cfg, es, env).value.used <= emitted
    ensures forall a | a in RenderArgs(cfg, es, env).value.es :: Defined(a, st.temps)
    ensures Follows(m, ctx, env, emitted, moved, src, st) ==>
              ValuesOf(m, RenderArgs(cfg, es, env).value.es, st.cells, st.temps) == ValuesOf(m, es, src, map[])
    decreases es, 0
  {
    if es != [] {
      RenderFollows(m, cfg, ctx, es[0], env, n, emitted, moved, src, st);
      ArgsFollow(m, cfg, ctx, es[1..], env, n, emitted, moved, src, st);
      var r, rs := Render(cfg, es[0], env).value, RenderArgs(cfg, es[1..], env).value;
      assert RenderArgs(cfg, es, env).value.es == [r.e] + rs.es;
      assert ([r.e] + rs.es)[1..] == rs.es;
    }
  }

  /** An unversioned path keeps its shape, and its cell. */
  lemma {:induction false} BaseFollows(m: Meaning, cfg: Cfg, ctx: Ctx, p: Path, env: Env, n: nat,
                                       emitted: set<LocKey>, moved: set<Cell>, src: Cells, st: State)
    requires Setting(m, cfg, ctx, env, n, emitted, moved, st.temps)
    requires KeysOk(p, ctx, false) && RenderPath(cfg, p, env).Success? && RenderPath(cfg, p, env).value.used <= emitted
    requires !Versioned(cfg, p, env)
    ensures RenderPath(cfg, p, env).value.e.Read?
    ensures DefinedPath(RenderPath(cfg, p, env).value.e.p, st.temps)
    ensures Follows(m, ctx, env, emitted, moved, src, st) ==>
              CellOf(m, RenderPath(cfg, p, env).value.e.p, st.cells, st.temps) == SourceCell(m, p, src)
    decreases p, 0
  {
    match p
    case Var(_) =>
    case Field(b, _) =>
      BaseUnversioned(cfg, p, env);
      BaseFollows(m, cfg, ctx, b, env, n, emitted, moved, src, st);
    case Index(b, k) =>
      BaseUnversioned(cfg, p, env);
      BaseFollows(m, cfg, ctx, b, env, n, emitted, moved, src, st);
      RenderFollows(m, cfg, ctx, k, env, n, emitted, moved, src, st);
  }

  lemma {:induction false} PathFollows(m: Meaning, cfg: Cfg, ctx: Ctx, p: Path, env: Env, n: nat,
                                       emitted: set<LocKey>, moved: set<Cell>, src: Cells, st: State)
    requires Setting(m, cfg, ctx, env, n, emitted, moved, st.temps)
    requires PathOk(p, ctx, false) && RenderPath(cfg, p, env).Success? && RenderPath(cfg, p, env).value.used <= emitted
    ensures Defined(RenderPath(cfg, p, env).value.e, st.temps)
    ensures Follows(m, ctx, env, emitted, moved, src, st) ==>
              ValueOf(m, RenderPath(cfg, p, env).value.e, st.cells, st.temps) == Load(src, SourceCell(m, p, src))
    decreases p, 1
  {
    if Versioned(cfg, p, env) {
      KnownPath(p, env.writes, env.rows, ctx.writes);
      assert Valued(env, emitted, KeyOf(p, env.rows));
    } else {
      assert p !in ctx.writes;
      BaseFollows(m, cfg, ctx, p, env, n, emitted, moved, src, st);
      if Follows(m, ctx, env, emitted, moved, src, st) {
        UntouchedCell(m, cfg, ctx, p, env, n, emitted, moved, src, st);
      }
    }
  }

  /** A read that is not substituted finds the source's value in its cell. */
  lemma UntouchedCell(m: Meaning, cfg: Cfg, ctx: Ctx, p: Path, env: Env, n: nat,
                      emitted: set<LocKey>, moved: set<Cell>, src: Cells, st: State)
    requires Setting(m, cfg, ctx, env, n, emitted, moved, st.temps)
    requires RootOf(p) in cfg.locals || !MayAliasAny(env.writes, KeyOf(p, env.rows))
    requires InUniverse(p, ctx) && RootOf(p) !in ctx.dead && (forall q | q in ctx.stale :: Apart(PatOf(p), q))
    requires Follows(m, ctx, env, emitted, moved, src, st)
    ensures Load(src, SourceCell(m, p, src)) == Load(st.cells, SourceCell(m, p, src))
  {
    var x := SourceCell(m, p, src);
    CellFits(m, p, src, map[]);
    PatInUniverse(p, ctx);
    if Under(m, ctx.dead, x) {
      var v :| v in ctx.dead && m.place(v) <= x;
      RootsApart(m, ctx.roots, v, RootOf(p), x);
    }
    if x in moved {
      var q :| q in ctx.stale && Fits(m, q, x);
      ApartCells(m, ctx, PatOf(p), q, x);
    }
    if Reassigned(m, ctx, env, src, x) {
      var q :| q in ctx.writes && !env.IsPre(KeyOf(q, env.rows)) && x == SourceCell(m, q, src);
      WrittenElsewhere(m, cfg, ctx, p, q, env, src);
    }
  }

  lemma WrittenElsewhere(m: Meaning, cfg: Cfg, ctx: Ctx, p: Path, q: Path, env: Env, src: Cells)
    requires MeaningOk(m, ctx) && CtxOk(cfg, ctx) && Covered(ctx.writes, env.writes, env.rows)
    requires RootOf(p) in cfg.locals || !MayAliasAny(env.writes, KeyOf(p, env.rows))
    requires InUniverse(p, ctx) && q in ctx.writes
    ensures SourceCell(m, p, src) != SourceCell(m, q, src)
  {
    CellFits(m, p, src, map[]);
    CellFits(m, q, src, map[]);
    PatInUniverse(p, ctx);
    PatInUniverse(q, ctx);
    if RootOf(p) !in cfg.locals {
      var l := HasKeyLoc(env.writes, KeyOf(q, env.rows));
      NoAliasAt(env.writes, KeyOf(p, env.rows), l);
      AliasTestApart(q, p, env.rows);
    }
    ApartCells(m, ctx, PatOf(q), PatOf(p), SourceCell(m, q, src));
  }

  lemma FitsMore(m: Meaning, qs: set<Pat>, more: set<Pat>, x: Cell)
    ensures FitsSome(m, qs, x) ==> FitsSome(m, qs + more, x)
  {
    if FitsSome(m, qs, x) {
      var q :| q in qs && Fits(m, q, x);
      assert q in qs + more;
    }
  }

  lemma ReassignedFits(m: Meaning, ctx: Ctx, env: Env, n: nat, src: Cells, x: Cell)
    requires EnvOk(ctx, env, n) && Reassigned(m, ctx, env, src, x)
    ensures FitsSome(m, ctx.stale + ctx.dirty, x)
  {
    var q :| q in ctx.writes && !env.IsPre(KeyOf(q, env.rows)) && x == SourceCell(m, q, src);
    CellFits(m, q, src, map[]);
    assert PatOf(q) in ctx.stale + ctx.dirty;
  }

  /** Raw text reads the source's values too, where the check lets it stand. */
  lemma FollowsRaw(m: Meaning, cfg: Cfg, ctx: Ctx, env: Env, n: nat, emitted: set<LocKey>, moved: set<Cell>, src: Cells, st: State)
    requires Setting(m, cfg, ctx, env, n, emitted, moved, st.temps)
    requires Follows(m, ctx, env, emitted, moved, src, st)
    ensures AgreeRaw(m, ctx, src, st.cells)
  {
    forall x: Cell | !Under(m, ctx.dead, x) && !FitsSome(m, ctx.stale + ctx.dirty, x)
      ensures Load(src, x) == Load(st.cells, x)
    {
      FitsMore(m, ctx.stale, ctx.dirty, x);
      if Reassigned(m, ctx, env, src, x) { ReassignedFits(m, ctx, env, n, src, x); }
    }
  }
}
