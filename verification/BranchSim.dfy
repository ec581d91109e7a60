/**
 The simulation: running the code of an arm from a state that follows the source
 store, whether or not the source takes the arm.  By induction over statements,
 with nested frames of any depth.
 */
module BranchSim {
  import opened Wrappers
  import opened BranchAst
  import opened BranchLowering
  import opened BranchAdmission
  import opened BranchCells
  import opened BranchScan
  import opened BranchShape
  import opened BranchRelation
  import opened BranchStep
  import opened BranchSimple
  import opened BranchFrame
  import opened BranchPrologue

  // ---- the source side -------------------------------------------------

  /** What a source statement may change. */
  ghost predicate OnlyWrites(m: Meaning, cfg: Cfg, ctx: Ctx, ws: set<Path>, c: Cells, d: Cells) {
    && Quiet(m, cfg, ctx, c, d)
    && forall x: Cell :: !Under(m, cfg.locals, x) && (forall p | p in ws :: x != SourceCell(m, p, c)) ==> Load(c, x) == Load(d, x)
  }

  lemma OnlyWritesTrans(m: Meaning, cfg: Cfg, ctx: Ctx, ws: set<Path>, us: set<Path>, c: Cells, d: Cells, e: Cells)
    requires MeaningOk(m, ctx) && CtxOk(cfg, ctx) && ws <= ctx.writes && us <= ctx.writes
    requires OnlyWrites(m, cfg, ctx, ws, c, d) && OnlyWrites(m, cfg, ctx, us, d, e)
    ensures OnlyWrites(m, cfg, ctx, ws + us, c, e)
  {
    forall x: Cell | !Under(m, cfg.locals, x) && (forall p | p in ws + us :: x != SourceCell(m, p, c))
      ensures Load(c, x) == Load(e, x)
    {
      forall p | p in us
        ensures x != SourceCell(m, p, d)
      {
        StableCell(m, cfg, ctx, p, c, d);
        assert p in ws + us;
      }
      assert forall p | p in ws :: p in ws + us;
    }
  }

  lemma LocalOnly(m: Meaning, cfg: Cfg, ctx: Ctx, v: VarId, c: Cells, d: Cells)
    requires v in cfg.locals
    requires forall x: Cell :: !(m.place(v) <= x) ==> Load(c, x) == Load(d, x)
    ensures OnlyWrites(m, cfg, ctx, {}, c, d)
  {
    forall x: Cell | !Under(m, cfg.locals, x)
      ensures Load(c, x) == Load(d, x)
    {
    }
  }

  lemma TargetOnly(m: Meaning, cfg: Cfg, ctx: Ctx, p: Path, c: Cells, v: int)
    requires MeaningOk(m, ctx) && CtxOk(cfg, ctx) && Target(cfg, p) <= ctx.writes
    ensures OnlyWrites(m, cfg, ctx, Target(cfg, p), c, c[SourceCell(m, p, c) := v])
  {
    CellFits(m, p, c, map[]);
    if RootOf(p) in cfg.locals {
      LocalOnly(m, cfg, ctx, RootOf(p), c, c[SourceCell(m, p, c) := v]);
    } else {
      assert p in Target(cfg, p);
      AssignQuiet(m, cfg, ctx, p, c, v);
    }
  }

  lemma {:induction false} SourceOnly(m: Meaning, cfg: Cfg, ctx: Ctx, s: Stmt, c: Cells)
    requires MeaningOk(m, ctx) && CtxOk(cfg, ctx) && WritePaths(cfg, s) <= ctx.writes && Decls(s) <= cfg.locals
    ensures OnlyWrites(m, cfg, ctx, WritePaths(cfg, s), c, Exec(m, s, c))
    decreases s
  {
    match s
    case Assign(p, _, e) => TargetOnly(m, cfg, ctx, p, c, ValueOf(m, e, c, map[]));
    case Compound(p, _, op, e) => TargetOnly(m, cfg, ctx, p, c, ValueOf(m, App(op, [Read(p), e]), c, map[]));
    case IncDec(p, _, inc) => TargetOnly(m, cfg, ctx, p, c, Moved(m, Load(c, CellOf(m, p, c, map[])), inc));
    case Decl(v, init) => LocalOnly(m, cfg, ctx, v, c, Exec(m, s, c));
    case ExprStmt(_) =>
    case Block(b) => SourceAllOnly(m, cfg, ctx, b, c);
    case Unchecked(b) => SourceAllOnly(m, cfg, ctx, b, c);
    case If(b, t, e) =>
      SourceOnly(m, cfg, ctx, t, c);
      if e.Some? { SourceOnly(m, cfg, ctx, e.value, c); }
    case Other =>
  }

  lemma {:induction false} SourceAllOnly(m: Meaning, cfg: Cfg, ctx: Ctx, ss: seq<Stmt>, c: Cells)
    requires MeaningOk(m, ctx) && CtxOk(cfg, ctx) && WritePathsAll(cfg, ss) <= ctx.writes && DeclsAll(ss) <= cfg.locals
    ensures OnlyWrites(m, cfg, ctx, WritePathsAll(cfg, ss), c, ExecAll(m, ss, c))
    decreases ss
  {
    if ss != [] {
      SourceOnly(m, cfg, ctx, ss[0], c);
      SourceAllOnly(m, cfg, ctx, ss[1..], Exec(m, ss[0], c));
      OnlyWritesTrans(m, cfg, ctx, WritePaths(cfg, ss[0]), WritePathsAll(cfg, ss[1..]), c, Exec(m, ss[0], c), ExecAll(m, ss, c));
    }
  }


  // ---- statements and arms ----------------------------------------------------

  ghost predicate StmtReady(m: Meaning, cfg: Cfg, ctx: Ctx, s: Stmt, env: Env, n: nat, emitted: set<LocKey>, moved: set<Cell>,
                            src: Cells, st: State) {
    && RenderStmt(cfg, s, env, n).Success? && Check(cfg, s, ctx).Some?
    && WritePaths(cfg, s) <= ctx.writes && Decls(s) <= cfg.locals
    && Enter(m, cfg, ctx, env, n, emitted, moved, st, RenderStmt(cfg, s, env, n).value.env, RenderStmt(cfg, s, env, n).value.n)
    && Follows(m, ctx, env, emitted, moved, src, st)
  }

  ghost predicate StmtDone(m: Meaning, cfg: Cfg, ctx: Ctx, s: Stmt, env: Env, n: nat, emitted: set<LocKey>, moved: set<Cell>,
                           src: Cells, st: State, st2: State)
    requires StmtReady(m, cfg, ctx, s, env, n, emitted, moved, src, st)
  {
    var o := RenderStmt(cfg, s, env, n).value;
    && Run(m, o.code, st) == Some(st2)
    && Leave(m, cfg, ctx, env, emitted, moved, src, st, Check(cfg, s, ctx).value, o.env, o.n, Exec(m, s, src), st2, Decls(s))
  }

  lemma AssignSim(m: Meaning, cfg: Cfg, ctx: Ctx, s: Stmt, env: Env, n: nat, emitted: set<LocKey>, moved: set<Cell>,
                  src: Cells, st: State) returns (st2: State)
    requires s.Assign? && StmtReady(m, cfg, ctx, s, env, n, emitted, moved, src, st)
    ensures StmtDone(m, cfg, ctx, s, env, n, emitted, moved, src, st, st2)
  {
    var r := Render(cfg, s.rhs, env).value;
    RenderFollows(m, cfg, ctx, s.rhs, env, n, emitted, moved, src, st);
    st2 := Write(m, cfg, ctx, s.lhs, r.e, env, r.used, n, emitted, moved, src, ValueOf(m, s.rhs, src, map[]), st);
  }

  lemma CompoundSim(m: Meaning, cfg: Cfg, ctx: Ctx, s: Stmt, env: Env, n: nat, emitted: set<LocKey>, moved: set<Cell>,
                    src: Cells, st: State) returns (st2: State)
    requires s.Compound? && StmtReady(m, cfg, ctx, s, env, n, emitted, moved, src, st)
    ensures StmtDone(m, cfg, ctx, s, env, n, emitted, moved, src, st, st2)
  {
    var l, r := ReadLvalue(cfg, s.lhs, env), Render(cfg, s.rhs, env).value;
    ReadTarget(m, cfg, ctx, s.lhs, env, n, emitted, moved, src, st);
    RenderFollows(m, cfg, ctx, s.rhs, env, n, emitted, moved, src, st);
    PairValues(m, l.e, r.e, st.cells, st.temps);
    PairValues(m, Read(s.lhs), s.rhs, src, map[]);
    st2 := Write(m, cfg, ctx, s.lhs, App(s.op, [l.e, r.e]), env, l.used + r.used, n, emitted, moved, src,
                 ValueOf(m, App(s.op, [Read(s.lhs), s.rhs]), src, map[]), st);
  }

  lemma IncDecSim(m: Meaning, cfg: Cfg, ctx: Ctx, s: Stmt, env: Env, n: nat, emitted: set<LocKey>, moved: set<Cell>,
                  src: Cells, st: State) returns (st2: State)
    requires s.IncDec? && StmtReady(m, cfg, ctx, s, env, n, emitted, moved, src, st)
    ensures StmtDone(m, cfg, ctx, s, env, n, emitted, moved, src, st, st2)
  {
    var l := ReadLvalue(cfg, s.lhs, env);
    ReadTarget(m, cfg, ctx, s.lhs, env, n, emitted, moved, src, st);
    SteppedValue(m, l.e, s.increment, st.cells, st.temps);
    st2 := Write(m, cfg, ctx, s.lhs, Stepped(l.e, s.increment), env, l.used, n, emitted, moved, src,
                 Moved(m, Load(src, CellOf(m, s.lhs, src, map[])), s.increment), st);
  }

  lemma PairValues(m: Meaning, a: Expr, b: Expr, c: Cells, t: map<nat, int>)
    ensures ValuesOf(m, [a, b], c, t) == [ValueOf(m, a, c, t), ValueOf(m, b, c, t)]
    ensures Defined(a, t) && Defined(b, t) ==> forall e | e in [a, b] :: Defined(e, t)
  {
    assert [a, b][1..] == [b];
    assert [b][1..] == [];
    assert ValuesOf(m, [b], c, t) == [ValueOf(m, b, c, t)];
  }

  lemma SteppedValue(m: Meaning, e: Expr, inc: bool, c: Cells, t: map<nat, int>)
    ensures ValueOf(m, Stepped(e, inc), c, t) == Moved(m, ValueOf(m, e, c, t), inc)
    ensures Defined(e, t) ==> Defined(Stepped(e, inc), t)
  {
    var one := App("encrypt", [Lit("1")]);
    assert [Lit("1")][1..] == [];
    assert ValuesOf(m, [Lit("1")], c, t) == [m.lit("1")];
    assert ValueOf(m, one, c, t) == m.op("encrypt", [m.lit("1")]);
    PairValues(m, e, one, c, t);
    assert Defined(one, t);
  }

  lemma DeclaredElsewhere(m: Meaning, v: VarId, w: int, c: Cells)
    ensures forall y: Cell :: !(m.place(v) <= y) ==> Load(Declared(m, v, w, c), y) == Load(c, y)
    ensures forall y: Cell :: m.place(v) <= y ==> Load(Declared(m, v, w, c), y) == if y == m.place(v) then w else 0
  {
  }

  lemma UnderLocal(m: Meaning, v: VarId, vs: set<VarId>, y: Cell)
    requires v in vs && !Under(m, vs, y)
    ensures !(m.place(v) <= y)
  {
  }

  lemma DeclRun(m: Meaning, v: VarId, init: Option<Expr>, st: State) returns (st2: State)
    requires init.Some? ==> Defined(init.value, st.temps)
    requires StateOk(st)
    ensures Run(m, [NewLocal(v, init)], st) == Some(st2)
    ensures st2 == st.(cells := Declared(m, v, InitValue(m, init, st.cells, st.temps), st.cells))
    ensures Kept(m, st, st2, {v}, {})
  {
    st2 := st.(cells := Declared(m, v, InitValue(m, init, st.cells, st.temps), st.cells));
    RunOne(m, NewLocal(v, init), st);
    DeclaredElsewhere(m, v, InitValue(m, init, st.cells, st.temps), st.cells);
    forall y: Cell | !Under(m, {v}, y)
      ensures Load(st.cells, y) == Load(st2.cells, y)
    {
      UnderLocal(m, v, {v}, y);
    }
  }

  /** A declaration gives the local the same value on both sides. */
  lemma DeclFollows(m: Meaning, cfg: Cfg, ctx: Ctx, v: VarId, w: int, env: Env, n: nat, emitted: set<LocKey>, moved: set<Cell>,
                    src: Cells, st: State, keys: set<LocKey>)
    requires Setting(m, cfg, ctx, env, n, emitted, moved, st.temps) && v in cfg.locals
    requires Follows(m, ctx, env, emitted, moved, src, st)
    ensures Setting(m, cfg, Opened(ctx, v), env.Use(keys), n, emitted, moved, st.temps)
    ensures Follows(m, Opened(ctx, v), env.Use(keys), emitted, moved, Declared(m, v, w, src), st.(cells := Declared(m, v, w, st.cells)))
  {
    var ctx2, src2, st2 := Opened(ctx, v), Declared(m, v, w, src), st.(cells := Declared(m, v, w, st.cells));
    DeclaredElsewhere(m, v, w, src);
    DeclaredElsewhere(m, v, w, st.cells);
    LocalFollows(m, cfg, ctx, ctx2, v, env, n, emitted, moved, src, st, src2, st2.cells);
    OpenedSetting(m, cfg, ctx, v, env, n, emitted, moved, st.temps);
    UseSetting(m, cfg, ctx2, env, n, emitted, moved, st.temps, keys);
    UseFollows(m, ctx2, env, emitted, moved, src2, st2, keys);
  }

  lemma DeclRendered(m: Meaning, cfg: Cfg, ctx: Ctx, s: Stmt, env: Env, n: nat, emitted: set<LocKey>, moved: set<Cell>,
                     src: Cells, st: State) returns (init: Option<Expr>, keys: set<LocKey>)
    requires s.Decl? && StmtReady(m, cfg, ctx, s, env, n, emitted, moved, src, st)
    ensures RenderStmt(cfg, s, env, n) == Success(Out([NewLocal(s.v, init)], env.Use(keys), n))
    ensures init.Some? ==> Defined(init.value, st.temps)
    ensures InitValue(m, init, st.cells, st.temps) == InitValue(m, s.init, src, map[])
  {
    if s.init.Some? {
      var r := Render(cfg, s.init.value, env).value;
      RenderFollows(m, cfg, ctx, s.init.value, env, n, emitted, moved, src, st);
      init, keys := Some(r.e), r.used;
    } else {
      init, keys := None, {};
      assert env.Use({}) == env;
    }
  }

  lemma DeclSim(m: Meaning, cfg: Cfg, ctx: Ctx, s: Stmt, env: Env, n: nat, emitted: set<LocKey>, moved: set<Cell>,
                src: Cells, st: State) returns (st2: State)
    requires s.Decl? && StmtReady(m, cfg, ctx, s, env, n, emitted, moved, src, st)
    ensures StmtDone(m, cfg, ctx, s, env, n, emitted, moved, src, st, st2)
  {
    var init, keys := DeclRendered(m, cfg, ctx, s, env, n, emitted, moved, src, st);
    st2 := DeclRun(m, s.v, init, st);
    assert NewDecls(env, env.Use(keys)) == {};
    KeptTrans(m, st, st2, st2, {s.v}, {}, {s.v} + ctx.live, {}, {});
    DeclFollows(m, cfg, ctx, s.v, InitValue(m, s.init, src, map[]), env, n, emitted, moved, src, st, keys);
  }

  lemma OpenedSetting(m: Meaning, cfg: Cfg, ctx: Ctx, v: VarId, env: Env, n: nat, emitted: set<LocKey>, moved: set<Cell>,
                      temps: map<nat, int>)
    requires Setting(m, cfg, ctx, env, n, emitted, moved, temps) && v in cfg.locals
    ensures Setting(m, cfg, Opened(ctx, v), env, n, emitted, moved, temps)
  {
    var ctx2 := Opened(ctx, v);
    assert StableCtx(cfg, ctx2) == StableCtx(cfg, ctx);
    forall p | p in ctx2.writes
      ensures RootOf(p) !in cfg.locals && InUniverse(p, ctx2) && KeysOk(p, StableCtx(cfg, ctx2), true)
    {
      SameUniverse(p, ctx, ctx2);
    }
    assert forall q | q in ctx2.stale :: PatIn(q, ctx) ==> PatIn(q, ctx2);
    assert CtxOk(cfg, ctx2);
    assert EnvOk(ctx2, env, n) && Ready(ctx2, env, emitted, temps) && Covers(m, ctx2, moved);
  }

  lemma ExprSim(m: Meaning, cfg: Cfg, ctx: Ctx, s: Stmt, env: Env, n: nat, emitted: set<LocKey>, moved: set<Cell>,
                src: Cells, st: State) returns (st2: State)
    requires s.ExprStmt? && StmtReady(m, cfg, ctx, s, env, n, emitted, moved, src, st)
    ensures StmtDone(m, cfg, ctx, s, env, n, emitted, moved, src, st, st2)
  {
    var o := RenderStmt(cfg, s, env, n).value;
    var keys := Render(cfg, s.e, env).value.used;
    RenderFollows(m, cfg, ctx, s.e, env, n, emitted, moved, src, st);
    st2 := st;
    RunOne(m, o.code[0], st);
    assert o.code == [o.code[0]];
    assert NewDecls(env, o.env) == {};
    UseSetting(m, cfg, ctx, env, n, emitted, moved, st.temps, keys);
    UseFollows(m, ctx, env, emitted, moved, src, st, keys);
  }
}
