/** One statement of an arm that is not a nested `if`. */
module BranchStep {
  import opened Wrappers
  import opened BranchAst
  import opened BranchLowering
  import opened BranchAdmission
  import opened BranchCells
  import opened BranchScan
  import opened BranchShape
  import opened BranchRelation

  /** The temporaries from `lo` up to `hi` are unassigned, and `ds` are the declared ones. */
  ghost predicate RoomFor(st: State, lo: nat, hi: nat, ds: set<nat>) {
    forall t: nat | lo <= t < hi :: t !in st.temps && (t in st.declared <==> t in ds)
  }

  ghost predicate StateOk(st: State) {
    st.temps.Keys <= st.declared
  }

  /** A run that changes only the cells of `vs` and assigns only temporaries of `ds`. */
  ghost predicate Kept(m: Meaning, a: State, b: State, vs: set<VarId>, ds: set<nat>) {
    && b.declared == a.declared
    && a.temps.Keys <= b.temps.Keys <= a.temps.Keys + ds
    && (forall t | t in a.temps :: b.temps[t] == a.temps[t])
    && forall x: Cell :: !Under(m, vs, x) ==> Load(a.cells, x) == Load(b.cells, x)
  }

  lemma UnderMore(m: Meaning, vs: set<VarId>, ws: set<VarId>, x: Cell)
    requires vs <= ws && !Under(m, ws, x)
    ensures !Under(m, vs, x)
  {
  }

  lemma KeptTrans(m: Meaning, a: State, b: State, c: State, vs: set<VarId>, ws: set<VarId>, us: set<VarId>, ds: set<nat>, es: set<nat>)
    requires Kept(m, a, b, vs, ds) && Kept(m, b, c, ws, es) && vs <= us && ws <= us
    ensures Kept(m, a, c, us, ds + es)
  {
    forall x: Cell | !Under(m, us, x)
      ensures Load(a.cells, x) == Load(c.cells, x)
    {
      UnderMore(m, vs, us, x);
      UnderMore(m, ws, us, x);
    }
  }

  lemma RoomRest(m: Meaning, a: State, b: State, lo: nat, mid: nat, hi: nat, vs: set<VarId>, ds: set<nat>, es: set<nat>)
    requires RoomFor(a, lo, hi, ds + es) && Kept(m, a, b, vs, ds)
    requires lo <= mid && (forall t | t in ds :: lo <= t < mid) && (forall t | t in es :: mid <= t < hi)
    ensures RoomFor(b, mid, hi, es)
  {
  }

  /** What a statement of an arm needs. */
  ghost predicate Enter(m: Meaning, cfg: Cfg, ctx: Ctx, env: Env, n: nat, emitted: set<LocKey>, moved: set<Cell>, st: State,
                        env2: Env, n2: nat) {
    && Setting(m, cfg, ctx, env, n, emitted, moved, st.temps)
    && StateOk(st)
    && Extends(env, n, env2, n2) && env2.used <= emitted
    && RoomFor(st, n, n2, NewDecls(env, env2))
  }

  /** What it leaves: the next point, and an emitted state that still follows the source. */
  ghost predicate Leave(m: Meaning, cfg: Cfg, ctx: Ctx, env: Env, emitted: set<LocKey>, moved: set<Cell>, src: Cells, st: State,
                        ctx2: Ctx, env2: Env, n2: nat, src2: Cells, st2: State, vs: set<VarId>)
    requires |env.decls| <= |env2.decls|
  {
    && Kept(m, st, st2, vs + ctx.live, NewDecls(env, env2))
    && StateOk(st2)
    && Setting(m, cfg, ctx2, env2, n2, emitted, moved, st2.temps)
    && (Follows(m, ctx, env, emitted, moved, src, st) ==> Follows(m, ctx2, env2, emitted, moved, src2, st2))
  }

  /** Assigning a written path leaves every other written path alone. */
  lemma AssignQuiet(m: Meaning, cfg: Cfg, ctx: Ctx, p: Path, src: Cells, v: int)
    requires MeaningOk(m, ctx) && CtxOk(cfg, ctx) && p in ctx.writes
    ensures Quiet(m, cfg, ctx, src, src[SourceCell(m, p, src) := v])
  {
    var x := SourceCell(m, p, src);
    CellFits(m, p, src, map[]);
    assert PatOf(p) in Pats(ctx.writes);
    forall y: Cell | !Under(m, cfg.locals, y) && !FitsSome(m, Pats(ctx.writes) + {}, y)
      ensures Load(src, y) == Load(src[x := v], y)
    {
      assert Pats(ctx.writes) + {} == Pats(ctx.writes);
    }
  }

  lemma SeparateCells(m: Meaning, cfg: Cfg, ctx: Ctx, p: Path, q: Path, src: Cells)
    requires MeaningOk(m, ctx) && CtxOk(cfg, ctx) && PairwiseApart(ctx.writes)
    requires p in ctx.writes && q in ctx.writes && p != q
    ensures SourceCell(m, p, src) != SourceCell(m, q, src)
  {
    CellFits(m, p, src, map[]);
    CellFits(m, q, src, map[]);
    PatInUniverse(p, ctx);
    PatInUniverse(q, ctx);
    ApartCells(m, ctx, PatOf(p), PatOf(q), SourceCell(m, p, src));
  }

  lemma LocalCells(m: Meaning, cfg: Cfg, ctx: Ctx, v: VarId, q: Path, src: Cells)
    requires MeaningOk(m, ctx) && CtxOk(cfg, ctx) && v in cfg.locals && q in ctx.writes
    ensures !(m.place(v) <= SourceCell(m, q, src))
  {
    CellFits(m, q, src, map[]);
    PatInUniverse(q, ctx);
    if m.place(v) <= SourceCell(m, q, src) {
      RootsApart(m, ctx.roots, v, RootOf(q), SourceCell(m, q, src));
    }
  }

  /** Binding a written path to a fresh version. */
  lemma BindEnv(cfg: Cfg, ctx: Ctx, p: Path, env: Env, n: nat)
    requires CtxOk(cfg, ctx) && EnvOk(ctx, env, n) && p in ctx.writes
    ensures CtxOk(cfg, Assigned(cfg, p, ctx))
    ensures EnvOk(Assigned(cfg, p, ctx), env.Bind(KeyOf(p, env.rows), n), n + 1)
    ensures forall q | q in ctx.writes && q != p :: env.Bind(KeyOf(p, env.rows), n).IsPre(KeyOf(q, env.rows)) == env.IsPre(KeyOf(q, env.rows))
    ensures forall q | q in ctx.writes && q != p :: KeyOf(q, env.rows) != KeyOf(p, env.rows)
    ensures !env.Bind(KeyOf(p, env.rows), n).IsPre(KeyOf(p, env.rows))
  {
    var key, env2, ctx2 := KeyOf(p, env.rows), env.Bind(KeyOf(p, env.rows), n), Assigned(cfg, p, ctx);
    assert Target(cfg, p) == {p};
    assert PatOf(p) in ctx2.dirty;
    forall q | q in ctx.writes && q != p
      ensures KeyOf(q, env.rows) != key
    {
      if KeyOf(q, env.rows) == key { KeyInjective(p, q, env.rows); }
    }
    assert StableCtx(cfg, ctx2) == StableCtx(cfg, ctx);
    forall q | q in ctx2.writes
      ensures RootOf(q) !in cfg.locals && InUniverse(q, ctx2) && KeysOk(q, StableCtx(cfg, ctx2), true)
    {
      SameUniverse(q, ctx, ctx2);
    }
    forall q | q in ctx2.stale
      ensures PatIn(q, ctx2)
    {
    }
  }

  lemma {:induction false} SameUniverse(p: Path, a: Ctx, b: Ctx)
    requires a.roots == b.roots && a.texts == b.texts && InUniverse(p, a)
    ensures InUniverse(p, b)
    decreases p
  {
    if !p.Var? { SameUniverse(p.base, a, b); }
  }

  lemma BindReady(cfg: Cfg, ctx: Ctx, p: Path, env: Env, n: nat, emitted: set<LocKey>, temps: map<nat, int>, v: int)
    requires CtxOk(cfg, ctx) && EnvOk(ctx, env, n) && p in ctx.writes && Ready(ctx, env, emitted, temps)
    ensures Ready(Assigned(cfg, p, ctx), env.Bind(KeyOf(p, env.rows), n), emitted, temps[n := v])
  {
    var env2 := env.Bind(KeyOf(p, env.rows), n);
    BindEnv(cfg, ctx, p, env, n);
    forall q | q in ctx.writes && Valued(env2, emitted, KeyOf(q, env.rows))
      ensures KeyOf(q, env.rows) in env2.versions && env2.versions[KeyOf(q, env.rows)] in temps[n := v]
    {
      if q != p { assert Valued(env, emitted, KeyOf(q, env.rows)); }
    }
  }

  lemma BindFollows(m: Meaning, cfg: Cfg, ctx: Ctx, p: Path, env: Env, n: nat, emitted: set<LocKey>, moved: set<Cell>,
                    src: Cells, st: State, v: int)
    requires Setting(m, cfg, ctx, env, n, emitted, moved, st.temps) && p in ctx.writes
    requires Follows(m, ctx, env, emitted, moved, src, st)
    ensures Follows(m, Assigned(cfg, p, ctx), env.Bind(KeyOf(p, env.rows), n), emitted, moved,
                    src[SourceCell(m, p, src) := v], st.(temps := st.temps[n := v]))
  {
    var key, env2, ctx2 := KeyOf(p, env.rows), env.Bind(KeyOf(p, env.rows), n), Assigned(cfg, p, ctx);
    var x := SourceCell(m, p, src);
    var src2, temps2 := src[x := v], st.temps[n := v];
    BindEnv(cfg, ctx, p, env, n);
    AssignQuiet(m, cfg, ctx, p, src, v);
    StableRows(m, cfg, ctx, env, src, src2, st.temps);
    forall r | r in env2.rows
      ensures TempOf(temps2, r.tmp) == ValueOf(m, r.src, src2, map[])
    {
      assert TempOf(st.temps, r.tmp) == ValueOf(m, r.src, src2, map[]);
    }
    forall q | q in ctx.writes
      ensures SourceCell(m, q, src2) == SourceCell(m, q, src)
      ensures q != p ==> SourceCell(m, q, src) != x
    {
      StableCell(m, cfg, ctx, q, src, src2);
      if q != p { SeparateCells(m, cfg, ctx, q, p, src); }
    }
    forall q | q in ctx2.writes && Valued(env2, emitted, KeyOf(q, env.rows)) && KeyOf(q, env.rows) in env2.versions
      ensures TempOf(temps2, env2.versions[KeyOf(q, env.rows)]) == Load(src2, SourceCell(m, q, src2))
    {
      if q != p {
        assert Valued(env, emitted, KeyOf(q, env.rows));
      }
    }
    assert Reassigned(m, ctx2, env2, src2, x);
    forall y: Cell | Reassigned(m, ctx, env, src, y)
      ensures Reassigned(m, ctx2, env2, src2, y)
    {
      var q :| q in ctx.writes && !env.IsPre(KeyOf(q, env.rows)) && y == SourceCell(m, q, src);
      assert q in ctx2.writes && !env2.IsPre(KeyOf(q, env2.rows)) && y == SourceCell(m, q, src2);
    }
    assert CellsHold(m, ctx2, env2, moved, src2, st.cells);
  }

  /** Both sides change one branch local in the same way. */
  lemma LocalFollows(m: Meaning, cfg: Cfg, ctx: Ctx, ctx2: Ctx, v: VarId, env: Env, n: nat, emitted: set<LocKey>, moved: set<Cell>,
                     src: Cells, st: State, src2: Cells, cells2: Cells)
    requires Setting(m, cfg, ctx, env, n, emitted, moved, st.temps) && v in cfg.locals
    requires ctx2 == ctx || ctx2 == Opened(ctx, v)
    requires forall y: Cell :: !(m.place(v) <= y) ==> Load(src2, y) == Load(src, y) && Load(cells2, y) == Load(st.cells, y)
    requires Follows(m, ctx, env, emitted, moved, src, st)
    requires forall y: Cell :: m.place(v) <= y && !Under(m, ctx2.dead, y) && y !in moved ==> Load(src2, y) == Load(cells2, y)
    ensures Follows(m, ctx2, env, emitted, moved, src2, st.(cells := cells2))
  {
    forall y: Cell | !Under(m, cfg.locals, y)
      ensures Load(src, y) == Load(src2, y)
    {
    }
    assert Quiet(m, cfg, ctx, src, src2);
    StableRows(m, cfg, ctx, env, src, src2, st.temps);
    forall q | q in ctx.writes
      ensures SourceCell(m, q, src2) == SourceCell(m, q, src)
      ensures Load(src2, SourceCell(m, q, src2)) == Load(src, SourceCell(m, q, src))
    {
      StableCell(m, cfg, ctx, q, src, src2);
      LocalCells(m, cfg, ctx, v, q, src);
    }
    forall y: Cell | Reassigned(m, ctx, env, src, y)
      ensures Reassigned(m, ctx2, env, src2, y)
    {
      var q :| q in ctx.writes && !env.IsPre(KeyOf(q, env.rows)) && y == SourceCell(m, q, src);
      assert q in ctx2.writes && y == SourceCell(m, q, src2);
    }
    forall y: Cell | !Under(m, ctx2.dead, y) && y !in moved && !Reassigned(m, ctx2, env, src2, y)
      ensures Load(src2, y) == Load(cells2, y)
    {
      if !(m.place(v) <= y) {
        assert !Under(m, ctx.dead, y);
      }
    }
  }
}
