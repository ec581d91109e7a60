/** Assignments, compound assignments, `++`/`--` and declarations in an arm. */
module BranchSimple {
  import opened Wrappers
  import opened BranchAst
  import opened BranchLowering
  import opened BranchAdmission
  import opened BranchCells
  import opened BranchScan
  import opened BranchShape
  import opened BranchRelation
  import opened BranchStep

  lemma RunOne(m: Meaning, x: TStmt, s: State)
    ensures Run(m, [x], s) == Step1(m, x, s)
  {
    var r := Step1(m, x, s);
    assert [x][1..] == [];
    if r.Some? { assert Run(m, [], r.value) == Some(r.value); }
  }

  lemma UseSetting(m: Meaning, cfg: Cfg, ctx: Ctx, env: Env, n: nat, emitted: set<LocKey>, moved: set<Cell>,
                   temps: map<nat, int>, keys: set<LocKey>)
    requires Setting(m, cfg, ctx, env, n, emitted, moved, temps)
    ensures Setting(m, cfg, ctx, env.Use(keys), n, emitted, moved, temps)
  {
    var env2 := env.Use(keys);
    assert forall k :: env2.IsPre(k) == env.IsPre(k);
    assert EnvOk(ctx, env2, n);
    assert Ready(ctx, env2, emitted, temps);
  }

  lemma UseFollows(m: Meaning, ctx: Ctx, env: Env, emitted: set<LocKey>, moved: set<Cell>, src: Cells, st: State, keys: set<LocKey>)
    requires Follows(m, ctx, env, emitted, moved, src, st)
    ensures Follows(m, ctx, env.Use(keys), emitted, moved, src, st)
  {
    var env2 := env.Use(keys);
    assert forall k :: env2.IsPre(k) == env.IsPre(k);
    forall y: Cell | Reassigned(m, ctx, env, src, y)
      ensures Reassigned(m, ctx, env2, src, y)
    {
      var q :| q in ctx.writes && !env.IsPre(KeyOf(q, env.rows)) && y == SourceCell(m, q, src);
      assert q in ctx.writes && !env2.IsPre(KeyOf(q, env2.rows)) && y == SourceCell(m, q, src);
    }
    assert CellsHold(m, ctx, env2, moved, src, st.cells);
  }

  lemma SettingAssigned(m: Meaning, cfg: Cfg, ctx: Ctx, p: Path, env: Env, n: nat, emitted: set<LocKey>, moved: set<Cell>,
                        temps: map<nat, int>, v: int)
    requires Setting(m, cfg, ctx, env, n, emitted, moved, temps) && p in ctx.writes
    ensures Setting(m, cfg, Assigned(cfg, p, ctx), env.Bind(KeyOf(p, env.rows), n), n + 1, emitted, moved, temps[n := v])
  {
    BindEnv(cfg, ctx, p, env, n);
    BindReady(cfg, ctx, p, env, n, emitted, temps, v);
    forall x | x in moved
      ensures FitsSome(m, Assigned(cfg, p, ctx).stale, x)
    {
    }
  }

  lemma WriteLocation(m: Meaning, cfg: Cfg, ctx: Ctx, p: Path, ve: Expr, env: Env, n: nat, emitted: set<LocKey>,
                      moved: set<Cell>, src: Cells, v: int, st: State) returns (st2: State)
    requires p in ctx.writes && RootOf(p) !in cfg.locals && WriteVersioned(cfg, p, ve, env, n).Success?
    requires var o := WriteVersioned(cfg, p, ve, env, n).value; Enter(m, cfg, ctx, env, n, emitted, moved, st, o.env, o.n)
    requires Defined(ve, st.temps)
    requires Follows(m, ctx, env, emitted, moved, src, st) ==> ValueOf(m, ve, st.cells, st.temps) == v
    ensures var o := WriteVersioned(cfg, p, ve, env, n).value;
            && Run(m, o.code, st) == Some(st2)
            && Leave(m, cfg, ctx, env, emitted, moved, src, st, Assigned(cfg, p, ctx), o.env, o.n,
                     src[SourceCell(m, p, src) := v], st2, {})
  {
    var o := WriteVersioned(cfg, p, ve, env, n).value;
    var w := ValueOf(m, ve, st.cells, st.temps);
    st2 := st.(temps := st.temps[n := w]);
    assert o.env.decls[|env.decls|..] == [n];
    assert NewDecls(env, o.env) == {n};
    RunOne(m, SetTmp(n, ve), st);
    SettingAssigned(m, cfg, ctx, p, env, n, emitted, moved, st.temps, w);
    if Follows(m, ctx, env, emitted, moved, src, st) {
      BindFollows(m, cfg, ctx, p, env, n, emitted, moved, src, st, v);
    }
  }

  lemma LocalCellSame(m: Meaning, cfg: Cfg, ctx: Ctx, p: Path, env: Env, n: nat, emitted: set<LocKey>, moved: set<Cell>,
                      src: Cells, st: State)
    requires Setting(m, cfg, ctx, env, n, emitted, moved, st.temps) && KeysOk(p, ctx, true)
    requires Follows(m, ctx, env, emitted, moved, src, st)
    ensures CellOf(m, p, st.cells, st.temps) == SourceCell(m, p, src)
  {
    FollowsRaw(m, cfg, ctx, env, n, emitted, moved, src, st);
    CtxPatsIn(cfg, ctx);
    RawCell(m, ctx, p, src, st.cells, map[], st.temps);
  }

  lemma RawDefined(m: Meaning, cfg: Cfg, ctx: Ctx, p: Path, t: map<nat, int>)
    requires MeaningOk(m, ctx) && CtxOk(cfg, ctx) && KeysOk(p, ctx, true)
    ensures DefinedPath(p, t)
  {
    CtxPatsIn(cfg, ctx);
    RawCell(m, ctx, p, map[], map[], t, t);
  }

  lemma WriteLocal(m: Meaning, cfg: Cfg, ctx: Ctx, p: Path, ve: Expr, env: Env, n: nat, emitted: set<LocKey>,
                   moved: set<Cell>, src: Cells, v: int, st: State) returns (st2: State)
    requires RootOf(p) in cfg.locals && TargetOk(cfg, p, ctx)
    requires var o := WriteVersioned(cfg, p, ve, env, n).value; Enter(m, cfg, ctx, env, n, emitted, moved, st, o.env, o.n)
    requires Defined(ve, st.temps)
    requires Follows(m, ctx, env, emitted, moved, src, st) ==> ValueOf(m, ve, st.cells, st.temps) == v
    ensures var o := WriteVersioned(cfg, p, ve, env, n).value;
            && Run(m, o.code, st) == Some(st2)
            && Leave(m, cfg, ctx, env, emitted, moved, src, st, Assigned(cfg, p, ctx), o.env, o.n,
                     src[SourceCell(m, p, src) := v], st2, {})
  {
    var x, w := CellOf(m, p, st.cells, st.temps), ValueOf(m, ve, st.cells, st.temps);
    st2 := st.(cells := st.cells[x := w]);
    RawDefined(m, cfg, ctx, p, st.temps);
    RunOne(m, SetLoc(p, ve), st);
    CellFits(m, p, st.cells, st.temps);
    assert NewDecls(env, env) == {};
    forall y: Cell | !Under(m, ctx.live, y)
      ensures Load(st.cells, y) == Load(st2.cells, y)
    {
    }
    assert {} + ctx.live == ctx.live;
    assert Target(cfg, p) == {};
    assert Assigned(cfg, p, ctx) == ctx;
    if Follows(m, ctx, env, emitted, moved, src, st) {
      LocalCellSame(m, cfg, ctx, p, env, n, emitted, moved, src, st);
      var src2 := src[x := v];
      forall y: Cell | m.place(RootOf(p)) <= y && !Under(m, ctx.dead, y) && y !in moved
        ensures Load(src2, y) == Load(st2.cells, y)
      {
        if Reassigned(m, ctx, env, src, y) { LocalNotReassigned(m, cfg, ctx, RootOf(p), env, src, y); }
      }
      LocalFollows(m, cfg, ctx, ctx, RootOf(p), env, n, emitted, moved, src, st, src2, st2.cells);
    }
  }

  lemma LocalNotReassigned(m: Meaning, cfg: Cfg, ctx: Ctx, v: VarId, env: Env, src: Cells, y: Cell)
    requires MeaningOk(m, ctx) && CtxOk(cfg, ctx) && v in cfg.locals && m.place(v) <= y
    ensures !Reassigned(m, ctx, env, src, y)
  {
    forall q | q in ctx.writes
      ensures SourceCell(m, q, src) != y
    {
      LocalCells(m, cfg, ctx, v, q, src);
    }
  }

  /** A write in an arm, whatever it assigns to. */
  lemma Write(m: Meaning, cfg: Cfg, ctx: Ctx, p: Path, ve: Expr, env0: Env, used: set<LocKey>, n: nat, emitted: set<LocKey>,
              moved: set<Cell>, src: Cells, v: int, st: State) returns (st2: State)
    requires TargetOk(cfg, p, ctx) && Target(cfg, p) <= ctx.writes && WriteVersioned(cfg, p, ve, env0.Use(used), n).Success?
    requires var o := WriteVersioned(cfg, p, ve, env0.Use(used), n).value; Enter(m, cfg, ctx, env0, n, emitted, moved, st, o.env, o.n)
    requires Defined(ve, st.temps)
    requires Follows(m, ctx, env0, emitted, moved, src, st) ==> ValueOf(m, ve, st.cells, st.temps) == v
    ensures var o := WriteVersioned(cfg, p, ve, env0.Use(used), n).value;
            && Run(m, o.code, st) == Some(st2)
            && Leave(m, cfg, ctx, env0, emitted, moved, src, st, Assigned(cfg, p, ctx), o.env, o.n,
                     src[SourceCell(m, p, src) := v], st2, {})
  {
    var env := env0.Use(used);
    var o := WriteVersioned(cfg, p, ve, env, n).value;
    UseSetting(m, cfg, ctx, env0, n, emitted, moved, st.temps, used);
    assert NewDecls(env, o.env) == NewDecls(env0, o.env);
    if Follows(m, ctx, env, emitted, moved, src, st) {
      UseFollows(m, ctx, env, emitted, moved, src, st, env0.used);
      SameButUsed(m, ctx, env0, env, emitted, moved, src, st);
    }
    if RootOf(p) in cfg.locals {
      st2 := WriteLocal(m, cfg, ctx, p, ve, env, n, emitted, moved, src, v, st);
    } else {
      assert p in Target(cfg, p);
      st2 := WriteLocation(m, cfg, ctx, p, ve, env, n, emitted, moved, src, v, st);
    }
    if Follows(m, ctx, env0, emitted, moved, src, st) {
      UseFollows(m, ctx, env0, emitted, moved, src, st, used);
    }
  }

  /** Which pre-values were read plays no part in the relation. */
  lemma SameButUsed(m: Meaning, ctx: Ctx, a: Env, b: Env, emitted: set<LocKey>, moved: set<Cell>, src: Cells, st: State)
    requires b == a.(used := b.used) && Follows(m, ctx, b, emitted, moved, src, st)
    ensures Follows(m, ctx, a, emitted, moved, src, st)
  {
    assert forall k :: a.IsPre(k) == b.IsPre(k);
    forall y: Cell | Reassigned(m, ctx, b, src, y)
      ensures Reassigned(m, ctx, a, src, y)
    {
      var q :| q in ctx.writes && !b.IsPre(KeyOf(q, b.rows)) && y == SourceCell(m, q, src);
      assert q in ctx.writes && !a.IsPre(KeyOf(q, a.rows)) && y == SourceCell(m, q, src);
    }
    assert CellsHold(m, ctx, a, moved, src, st.cells);
  }

  /** The current value of the target of a compound write. */
  lemma ReadTarget(m: Meaning, cfg: Cfg, ctx: Ctx, p: Path, env: Env, n: nat, emitted: set<LocKey>, moved: set<Cell>,
                   src: Cells, st: State)
    requires Setting(m, cfg, ctx, env, n, emitted, moved, st.temps)
    requires TargetOk(cfg, p, ctx) && Target(cfg, p) <= ctx.writes
    requires ReadLvalue(cfg, p, env).used <= emitted
    ensures Defined(ReadLvalue(cfg, p, env).e, st.temps)
    ensures Follows(m, ctx, env, emitted, moved, src, st) ==>
              ValueOf(m, ReadLvalue(cfg, p, env).e, st.cells, st.temps) == Load(src, SourceCell(m, p, src))
  {
    if RootOf(p) in cfg.locals {
      RawDefined(m, cfg, ctx, p, st.temps);
      if Follows(m, ctx, env, emitted, moved, src, st) {
        var x := SourceCell(m, p, src);
        LocalCellSame(m, cfg, ctx, p, env, n, emitted, moved, src, st);
        CellFits(m, p, src, map[]);
        LocalNotReassigned(m, cfg, ctx, RootOf(p), env, src, x);
        if Under(m, ctx.dead, x) {
          var v :| v in ctx.dead && m.place(v) <= x;
          RootsApart(m, ctx.roots, v, RootOf(p), x);
        }
        LocalNotMoved(m, cfg, ctx, RootOf(p), moved, x);
      }
    } else {
      assert p in Target(cfg, p);
      assert Valued(env, emitted, KeyOf(p, env.rows));
    }
  }

  /** No branch local is a location an enclosing frame reassigned. */
  lemma LocalNotMoved(m: Meaning, cfg: Cfg, ctx: Ctx, v: VarId, moved: set<Cell>, x: Cell)
    requires MeaningOk(m, ctx) && CtxOk(cfg, ctx) && Covers(m, ctx, moved) && v in cfg.locals && m.place(v) <= x
    ensures x !in moved
  {
    if x in moved {
      var q :| q in ctx.stale && Fits(m, q, x);
      RootsApart(m, ctx.roots, v, q.root, x);
    }
  }
}
