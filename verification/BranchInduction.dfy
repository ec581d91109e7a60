/** The simulation by induction over statements. */
module BranchInduction {
  import opened Wrappers
  import opened BranchAst
  import opened BranchLowering
  import opened BranchAdmission
  import opened BranchCells
  import opened BranchScan
  import opened BranchShape
  import opened BranchRelation
  import opened BranchStep
  import opened BranchSimple
  import opened BranchFrame
  import opened BranchPrologue
  import opened BranchSim
  import opened BranchArms
  import opened BranchNested
  import opened BranchMerge
  import opened BranchNestedEnd

  function DeclSet(o: Out): set<nat> {
    set t | t in o.env.decls
  }

  ghost predicate ArmReady(m: Meaning, cfg: Cfg, ctx: Ctx, s: Stmt, env: Env, n: nat, o: Out, emitted: set<LocKey>, moved: set<Cell>,
                           src: Cells, st: State) {
    && RenderArm(cfg, s, env, n) == Success(o) && Check(cfg, s, ctx).Some?
    && WritePaths(cfg, s) <= ctx.writes && Decls(s) <= cfg.locals && ctx.live == {}
    && env.decls == [] && Extends(env, n, o.env, o.n) && o.env.used <= emitted
    && Setting(m, cfg, ctx, env, n, emitted, moved, st.temps) && StateOk(st)
    && RoomFor(st, n, o.n, {})
    && Follows(m, ctx, env, emitted, moved, src, st)
  }

  ghost predicate FrameReady(m: Meaning, cfg: Cfg, ci: Ctx, s: Stmt, q: Parts, emitted: set<LocKey>, moved: set<Cell>,
                             src: Cells, st: State) {
    && s.If? && ci.live == {} && Decls(s) <= ci.dead && (s.els.Some? <==> q.els.Some?)
    && ArmReady(m, cfg, ci, s.thn, q.env, q.pre.n, q.thn, emitted, moved, src, st)
    && (s.els.Some? ==>
          && RenderArm(cfg, s.els.value, q.env.Use(q.thn.env.used), q.thn.n) == Success(q.els.value)
          && Check(cfg, s.els.value, ci).Some? && WritePaths(cfg, s.els.value) <= ci.writes && Decls(s.els.value) <= cfg.locals
          && Extends(q.env.Use(q.thn.env.used), q.thn.n, q.els.value.env, q.els.value.n) && q.els.value.env.used <= emitted
          && RoomFor(st, q.thn.n, q.els.value.n, {}))
  }

  /** What the arms of a frame leave: either arm's versions, as the source has them. */
  ghost predicate FrameRan(m: Meaning, ci: Ctx, s: Stmt, q: Parts, emitted: set<LocKey>, moved: set<Cell>, src: Cells, st: State, b: State)
    requires s.If? && (s.els.Some? <==> q.els.Some?)
  {
    && ArmRun(m, st, b, Decls(s), DeclSet(q.thn) + (if q.els.Some? then DeclSet(q.els.value) else {}))
    && ArmHolds(m, ci, q.thn.env, emitted, moved, ci.dead, src, Exec(m, s.thn, src), b)
    && (s.els.Some? ==> ArmHolds(m, ci, q.els.value.env, emitted, moved, ci.dead, src, Exec(m, s.els.value, src), b))
    && (s.els.None? ==> ArmHolds(m, ci, q.env, emitted, moved, ci.dead, src, src, b))
  }

  function ArmsCode(q: Parts): seq<TStmt> {
    Declares(q.thn.env.decls) + [Scope(q.thn.code)]
    + (if q.els.Some? then Declares(q.els.value.env.decls) + [Scope(q.els.value.code)] else [])
  }

  lemma ArmRunTrans(m: Meaning, a: State, b: State, c: State, vs: set<VarId>, ws: set<VarId>, us: set<VarId>, ds: set<nat>, es: set<nat>)
    requires ArmRun(m, a, b, vs, ds) && ArmRun(m, b, c, ws, es) && vs <= us && ws <= us
    ensures ArmRun(m, a, c, us, ds + es)
  {
    forall x: Cell | !Under(m, us, x)
      ensures Load(a.cells, x) == Load(c.cells, x)
    {
      UnderMore(m, vs, us, x);
      UnderMore(m, ws, us, x);
    }
  }

  lemma ArmRunMore(m: Meaning, a: State, b: State, vs: set<VarId>, us: set<VarId>, ds: set<nat>)
    requires ArmRun(m, a, b, vs, ds) && vs <= us
    ensures forall x: Cell :: !Under(m, us, x) ==> Load(a.cells, x) == Load(b.cells, x)
  {
    forall x: Cell | !Under(m, us, x)
      ensures Load(a.cells, x) == Load(b.cells, x)
    {
      UnderMore(m, vs, us, x);
    }
  }

  lemma {:induction false} StmtSim(m: Meaning, cfg: Cfg, ctx: Ctx, s: Stmt, env: Env, n: nat, emitted: set<LocKey>, moved: set<Cell>,
                                   src: Cells, st: State) returns (st2: State)
    requires StmtReady(m, cfg, ctx, s, env, n, emitted, moved, src, st)
    ensures StmtDone(m, cfg, ctx, s, env, n, emitted, moved, src, st, st2)
    decreases s, 3
  {
    match s
    case Assign(_, _, _) => st2 := AssignSim(m, cfg, ctx, s, env, n, emitted, moved, src, st);
    case Compound(_, _, _, _) => st2 := CompoundSim(m, cfg, ctx, s, env, n, emitted, moved, src, st);
    case IncDec(_, _, _) => st2 := IncDecSim(m, cfg, ctx, s, env, n, emitted, moved, src, st);
    case Decl(_, _) => st2 := DeclSim(m, cfg, ctx, s, env, n, emitted, moved, src, st);
    case ExprStmt(_) => st2 := ExprSim(m, cfg, ctx, s, env, n, emitted, moved, src, st);
    case Block(b) =>
      st2 := AllSim(m, cfg, ctx, b, env, n, emitted, moved, src, st);
      var o := RenderAll(cfg, b, env, n).value;
      ScopeStep(m, o.code, st, st2);
      RunOne(m, Scope(o.code), st);
    case Unchecked(b) =>
      st2 := AllSim(m, cfg, ctx, b, env, n, emitted, moved, src, st);
      var o := RenderAll(cfg, b, env, n).value;
      ScopeStep(m, o.code, st, st2);
      RunOne(m, Scope(o.code), st);
    case If(_, _, _) =>
      st2 := NestedSim(m, cfg, ctx, s, env, n, emitted, moved, src, st);
  }

  ghost predicate AllReady(m: Meaning, cfg: Cfg, ctx: Ctx, ss: seq<Stmt>, env: Env, n: nat, emitted: set<LocKey>, moved: set<Cell>,
                           src: Cells, st: State) {
    && RenderAll(cfg, ss, env, n).Success? && CheckAll(cfg, ss, ctx).Some?
    && WritePathsAll(cfg, ss) <= ctx.writes && DeclsAll(ss) <= cfg.locals
    && Enter(m, cfg, ctx, env, n, emitted, moved, st, RenderAll(cfg, ss, env, n).value.env, RenderAll(cfg, ss, env, n).value.n)
    && Follows(m, ctx, env, emitted, moved, src, st)
  }

  ghost predicate AllDone(m: Meaning, cfg: Cfg, ctx: Ctx, ss: seq<Stmt>, env: Env, n: nat, emitted: set<LocKey>, moved: set<Cell>,
                          src: Cells, st: State, st2: State)
    requires AllReady(m, cfg, ctx, ss, env, n, emitted, moved, src, st)
  {
    var o := RenderAll(cfg, ss, env, n).value;
    && Run(m, o.code, st) == Some(st2)
    && Leave(m, cfg, ctx, env, emitted, moved, src, st, CheckAll(cfg, ss, ctx).value, o.env, o.n, ExecAll(m, ss, src), st2, DeclsAll(ss))
  }

  lemma LeaveTrans(m: Meaning, cfg: Cfg, c0: Ctx, c1: Ctx, c2: Ctx, e0: Env, e1: Env, e2: Env, n0: nat, n1: nat, n2: nat,
                   emitted: set<LocKey>, moved: set<Cell>, src0: Cells, src1: Cells, src2: Cells,
                   s0: State, s1: State, s2: State, vs: set<VarId>, ws: set<VarId>)
    requires Extends(e0, n0, e1, n1) && Extends(e1, n1, e2, n2) && c1.live <= c0.live + vs
    requires Follows(m, c0, e0, emitted, moved, src0, s0)
    requires Leave(m, cfg, c0, e0, emitted, moved, src0, s0, c1, e1, n1, src1, s1, vs)
    requires Leave(m, cfg, c1, e1, emitted, moved, src1, s1, c2, e2, n2, src2, s2, ws)
    ensures |e0.decls| <= |e2.decls|
    ensures Leave(m, cfg, c0, e0, emitted, moved, src0, s0, c2, e2, n2, src2, s2, vs + ws)
  {
    ExtendsTrans(e0, n0, e1, n1, e2, n2);
    KeptTrans(m, s0, s1, s2, vs + c0.live, ws + c1.live, vs + ws + c0.live, NewDecls(e0, e1), NewDecls(e1, e2));
  }

  lemma {:induction false} AllSim(m: Meaning, cfg: Cfg, ctx: Ctx, ss: seq<Stmt>, env: Env, n: nat, emitted: set<LocKey>, moved: set<Cell>,
                                  src: Cells, st: State) returns (st2: State)
    requires AllReady(m, cfg, ctx, ss, env, n, emitted, moved, src, st)
    ensures AllDone(m, cfg, ctx, ss, env, n, emitted, moved, src, st, st2)
    decreases ss
  {
    if ss == [] {
      st2 := st;
      assert NewDecls(env, env) == {};
    } else {
      var o, r := RenderStmt(cfg, ss[0], env, n).value, RenderAll(cfg, ss, env, n).value;
      var rest := RenderAll(cfg, ss[1..], o.env, o.n).value;
      StmtShape(cfg, ss[0], env, n);
      AllShape(cfg, ss[1..], o.env, o.n);
      ExtendsTrans(env, n, o.env, o.n, r.env, r.n);
      CheckShape(cfg, ss[0], ctx);
      HeadRoom(st, n, o.n, r.n, NewDecls(env, o.env), NewDecls(o.env, r.env));
      var st1 := StmtSim(m, cfg, ctx, ss[0], env, n, emitted, moved, src, st);
      var ctx1, src1 := Check(cfg, ss[0], ctx).value, Exec(m, ss[0], src);
      RoomRest(m, st, st1, n, o.n, r.n, Decls(ss[0]) + ctx.live, NewDecls(env, o.env), NewDecls(o.env, r.env));
      st2 := AllSim(m, cfg, ctx1, ss[1..], o.env, o.n, emitted, moved, src1, st1);
      RunAppend(m, o.code, rest.code, st);
      LeaveTrans(m, cfg, ctx, ctx1, CheckAll(cfg, ss, ctx).value, env, o.env, r.env, n, o.n, r.n, emitted, moved,
                 src, src1, ExecAll(m, ss, src), st, st1, st2, Decls(ss[0]), DeclsAll(ss[1..]));
    }
  }

  lemma HeadRoom(st: State, lo: nat, mid: nat, hi: nat, ds: set<nat>, es: set<nat>)
    requires RoomFor(st, lo, hi, ds + es) && lo <= mid <= hi
    requires (forall t | t in ds :: lo <= t < mid) && (forall t | t in es :: mid <= t < hi)
    ensures RoomFor(st, lo, mid, ds)
  {
  }

  /** The statements of an arm, once its versions are declared. */
  lemma {:induction false} ArmBody(m: Meaning, cfg: Cfg, ctx: Ctx, s: Stmt, env: Env, n: nat, o: Out, emitted: set<LocKey>, moved: set<Cell>,
                                   src: Cells, st: State) returns (st2: State)
    requires ArmReady(m, cfg, ctx, s, env, n, o, emitted, moved, src, st)
    ensures var d := st.(declared := st.declared + DeclSet(o));
            && Run(m, o.code, d) == Some(st2)
            && Leave(m, cfg, ctx, env, emitted, moved, src, d, Check(cfg, s, ctx).value, o.env, o.n, Exec(m, s, src), st2, Decls(s))
            && Follows(m, ctx, env, emitted, moved, src, d)
            && NewDecls(env, o.env) == DeclSet(o)
    decreases s, 4
  {
    var d := st.(declared := st.declared + DeclSet(o));
    FollowsDeclared(m, ctx, env, emitted, moved, src, st, d.declared);
    assert o.env.decls[|env.decls|..] == o.env.decls;
    assert NewDecls(env, o.env) == DeclSet(o);
    if s.Block? {
      st2 := AllSim(m, cfg, ctx, s.body, env, n, emitted, moved, src, d);
    } else {
      st2 := StmtSim(m, cfg, ctx, s, env, n, emitted, moved, src, d);
    }
  }

  lemma {:induction false} ArmSim(m: Meaning, cfg: Cfg, ctx: Ctx, s: Stmt, env: Env, n: nat, o: Out, emitted: set<LocKey>, moved: set<Cell>,
                                  src: Cells, st: State) returns (st2: State)
    requires ArmReady(m, cfg, ctx, s, env, n, o, emitted, moved, src, st)
    ensures Run(m, Declares(o.env.decls) + [Scope(o.code)], st) == Some(st2)
    ensures ArmRun(m, st, st2, Decls(s), DeclSet(o))
    ensures ArmHolds(m, ctx, o.env, emitted, moved, ctx.dead + Decls(s), src, Exec(m, s, src), st2)
    decreases s, 5
  {
    st2 := ArmBody(m, cfg, ctx, s, env, n, o, emitted, moved, src, st);
    assert Decls(s) + ctx.live == Decls(s);
    ScopeRun(m, o.env.decls, o.code, Decls(s), st, st2);
    CheckShape(cfg, s, ctx);
    FollowsHolds(m, ctx, Check(cfg, s, ctx).value, o.env, emitted, moved, ctx.dead + Decls(s), src, Exec(m, s, src), st2);
  }

  /** Both arms run, one after the other, and each follows the source arm it renders. */
  lemma {:induction false} ArmsSim(m: Meaning, cfg: Cfg, ci: Ctx, s: Stmt, q: Parts, emitted: set<LocKey>, moved: set<Cell>,
                                   src: Cells, st: State) returns (b: State)
    requires FrameReady(m, cfg, ci, s, q, emitted, moved, src, st)
    ensures Run(m, ArmsCode(q), st) == Some(b)
    ensures FrameRan(m, ci, s, q, emitted, moved, src, st, b)
    decreases s, 0
  {
    var b1 := ArmSim(m, cfg, ci, s.thn, q.env, q.pre.n, q.thn, emitted, moved, src, st);
    assert ci.dead + Decls(s.thn) == ci.dead;
    ArmRunMore(m, st, b1, Decls(s.thn), ci.dead, DeclSet(q.thn));
    FollowsIdle(m, ci, q.env, q.pre.n, emitted, moved, src, st, b1);
    RunAppend(m, Declares(q.thn.env.decls) + [Scope(q.thn.code)],
              if q.els.Some? then Declares(q.els.value.env.decls) + [Scope(q.els.value.code)] else [], st);
    if s.els.Some? {
      var used := q.thn.env.used;
      UseSetting(m, cfg, ci, q.env, q.pre.n, emitted, moved, b1.temps, used);
      LaterSetting(m, cfg, ci, q.env.Use(used), q.pre.n, q.thn.n, emitted, moved, b1.temps);
      UseFollows(m, ci, q.env, emitted, moved, src, b1, used);
      b := ArmSim(m, cfg, ci, s.els.value, q.env.Use(used), q.thn.n, q.els.value, emitted, moved, src, b1);
      assert ci.dead + Decls(s.els.value) == ci.dead;
      ArmRunMore(m, b1, b, Decls(s.els.value), ci.dead, DeclSet(q.els.value));
      HoldsIdle(m, ci, q.thn.env, emitted, moved, ci.dead, src, Exec(m, s.thn, src), b1, b);
      ArmRunTrans(m, st, b1, b, Decls(s.thn), Decls(s.els.value), Decls(s), DeclSet(q.thn), DeclSet(q.els.value));
    } else {
      b := b1;
      FollowsHolds(m, ci, ci, q.env, emitted, moved, ci.dead, src, src, b);
      assert DeclSet(q.thn) + {} == DeclSet(q.thn);
    }
  }

  lemma LaterSetting(m: Meaning, cfg: Cfg, ctx: Ctx, env: Env, n: nat, n2: nat, emitted: set<LocKey>, moved: set<Cell>, temps: map<nat, int>)
    requires Setting(m, cfg, ctx, env, n, emitted, moved, temps) && n <= n2
    ensures Setting(m, cfg, ctx, env, n2, emitted, moved, temps)
  {
  }

  function Begin(n: nat, q: Parts): seq<TStmt> {
    [Let(n, q.cond.e)] + KeyLets(q.sc.keys.rows) + PreLets(q.pre.pres, q.mg.used)
  }

  lemma FrameCode(n: nat, q: Parts)
    ensures Assemble(n, q.cond.e, q.sc.keys.rows, q.pre.pres, q.mg.used, q.thn, q.els, q.mg.code) == Begin(n, q) + ArmsCode(q) + q.mg.code
  {
    var e := if q.els.Some? then Declares(q.els.value.env.decls) + [Scope(q.els.value.code)] else [];
    assert Begin(n, q) + Declares(q.thn.env.decls) + [Scope(q.thn.code)] + e
        == Begin(n, q) + (Declares(q.thn.env.decls) + [Scope(q.thn.code)] + e);
  }

  lemma FrameRun(m: Meaning, n: nat, q: Parts, st: State, st3: State, b: State, c: State)
    requires Run(m, Begin(n, q), st) == Some(st3) && Run(m, ArmsCode(q), st3) == Some(b) && Run(m, q.mg.code, b) == Some(c)
    ensures Run(m, [Scope(Assemble(n, q.cond.e, q.sc.keys.rows, q.pre.pres, q.mg.used, q.thn, q.els, q.mg.code))], st)
            == Some(State(c.cells, Visible(c.temps, st.declared), st.declared))
  {
    var code := Assemble(n, q.cond.e, q.sc.keys.rows, q.pre.pres, q.mg.used, q.thn, q.els, q.mg.code);
    FrameCode(n, q);
    RunAppend(m, Begin(n, q), ArmsCode(q), st);
    RunAppend(m, Begin(n, q) + ArmsCode(q), q.mg.code, st);
    RunOne(m, Scope(code), st);
  }

  lemma FrameMergeable(cfg: Cfg, ci: Ctx, s: Stmt, outer: Option<Env>, n: nat, q: Parts)
    requires s.If? && RenderGeneral(cfg, s, outer, n).Success? && q == PartsOf(cfg, s, outer, n)
    requires ci.writes == WritePaths(cfg, s) && Decls(s) <= cfg.locals && CtxOk(cfg, ci)
    ensures Mergeable(cfg, ci, s, q, n)
  {
    GeneralShape(cfg, s, outer, n);
    ScanFrameFacts(cfg, s, n + 1);
    KnownKeys(ci.writes, q.sc.writes, q.sc.keys.rows);
    var last := if q.els.Some? then q.els.value else q.thn;
    MergeUses(q.sc.writes, n, q.env.pre, q.thn.env.versions, ElsVersions(q), q.pre.outer, last.n, last.env.used);
    StartKeys(q.sc.writes, q.pre.pres);
  }

  lemma {:induction false} StartKeys(writes: seq<Loc>, pres: seq<PreVal>)
    requires |pres| == |writes| && forall i | 0 <= i < |writes| :: pres[i].key == writes[i].key
    ensures forall l | l in writes :: l.key in PreMap(pres)
  {
    forall l | l in writes
      ensures l.key in PreMap(pres)
    {
      var i :| 0 <= i < |writes| && writes[i] == l;
      assert pres[i].key == l.key;
    }
  }

  lemma RenderedArms(cfg: Cfg, s: Stmt, outer: Option<Env>, n: nat, q: Parts)
    requires s.If? && RenderGeneral(cfg, s, outer, n).Success? && q == PartsOf(cfg, s, outer, n)
    ensures RenderArm(cfg, s.thn, q.env, q.pre.n) == Success(q.thn) && (s.els.Some? <==> q.els.Some?)
    ensures s.els.Some? ==> RenderArm(cfg, s.els.value, q.env.Use(q.thn.env.used), q.thn.n) == Success(q.els.value)
  {
  }

  lemma FrameIsReady(m: Meaning, cfg: Cfg, ci: Ctx, s: Stmt, outer: Option<Env>, n: nat, q: Parts, moved: set<Cell>, src: Cells, st: State, st3: State)
    requires s.If? && RenderGeneral(cfg, s, outer, n).Success? && q == PartsOf(cfg, s, outer, n)
    requires ci.writes == WritePaths(cfg, s) && Decls(s) <= cfg.locals && ci.live == {} && Decls(s) <= ci.dead
    requires Check(cfg, s.thn, ci).Some? && (s.els.Some? ==> Check(cfg, s.els.value, ci).Some?)
    requires Started(m, cfg, ci, s, n, q, moved, src, st, st3)
    ensures FrameReady(m, cfg, ci, s, q, q.mg.used, moved, src, st3)
  {
    GeneralShape(cfg, s, outer, n);
    RenderedArms(cfg, s, outer, n, q);
  }

  /** The temporaries of a nested frame end with it, except the versions it bound. */
  lemma NestedKept(m: Meaning, s: Stmt, n: nat, q: Parts, env: Env, vs: set<VarId>, st: State, st3: State, b: State, c: State, st2: State)
    requires q.mg.outer.Some? && Extends(env, LastN(q), q.mg.outer.value, q.mg.n) && n <= q.pre.n <= LastN(q)
    requires RoomFor(st, n, q.mg.n, NewDecls(env, q.mg.outer.value)) && StateOk(st)
    requires Grown(st, st3, n, q.pre.n)
    requires b.declared <= st3.declared + Inside(q) && b.temps.Keys <= st3.temps.Keys + Inside(q)
    requires forall t | t in Inside(q) :: q.pre.n <= t < LastN(q)
    requires (forall t | t in st3.temps :: t in b.temps && b.temps[t] == st3.temps[t]) && st3.declared <= b.declared
    requires forall x: Cell :: !Under(m, vs, x) ==> Load(st3.cells, x) == Load(b.cells, x)
    requires c.cells == b.cells && (forall t | t in b.temps :: t in c.temps && c.temps[t] == b.temps[t])
    requires forall t | t in c.temps :: t in b.temps || LastN(q) <= t < q.mg.n
    requires st2 == State(c.cells, Visible(c.temps, st.declared), st.declared)
    ensures Kept(m, st, st2, vs, NewDecls(env, q.mg.outer.value)) && StateOk(st2)
  {
    forall t | t in st2.temps
      ensures t in st.temps || t in NewDecls(env, q.mg.outer.value)
    {
      assert t in c.temps && t in st.declared;
    }
  }

  function Inside(q: Parts): set<nat> {
    DeclSet(q.thn) + (if q.els.Some? then DeclSet(q.els.value) else {})
  }

  lemma {:induction false} NestedSim(m: Meaning, cfg: Cfg, ctx: Ctx, s: Stmt, env: Env, n: nat, emitted: set<LocKey>, moved: set<Cell>,
                                     src: Cells, st: State) returns (st2: State)
    requires s.If? && StmtReady(m, cfg, ctx, s, env, n, emitted, moved, src, st)
    ensures StmtDone(m, cfg, ctx, s, env, n, emitted, moved, src, st, st2)
    decreases s, 2
  {
    assert RenderFrame(cfg, s, Some(env), n).Success?;
    if TryDirect(cfg, s, Some(env), n).value.Some? {
      st2 := NestedDirect(m, cfg, ctx, s, env, n, emitted, moved, src, st);
    } else {
      GeneralOut(cfg, s, env, n);
      var q := PartsOf(cfg, s, Some(env), n);
      NestedFrameOk(m, cfg, ctx, s, env, n, emitted, moved, src, st, q);
      var st3, b := NestedArms(m, cfg, ctx, s, env, n, emitted, moved, src, st, q);
      st2 := NestedExit(m, cfg, ctx, s, env, n, emitted, moved, src, st, q, st3, b);
    }
  }

  lemma {:induction false} NestedArms(m: Meaning, cfg: Cfg, ctx: Ctx, s: Stmt, env: Env, n: nat, emitted: set<LocKey>, moved: set<Cell>,
                                      src: Cells, st: State, q: Parts) returns (st3: State, b: State)
    requires NestedFrame(m, cfg, ctx, s, env, n, emitted, st, q)
    requires Check(cfg, s, ctx).Some? && TryDirect(cfg, s, Some(env), n) == Success(None)
    requires RenderGeneral(cfg, s, Some(env), n).Success? && q == PartsOf(cfg, s, Some(env), n)
    requires Setting(m, cfg, ctx, env, n, emitted, moved, st.temps) && StateOk(st) && Follows(m, ctx, env, emitted, moved, src, st)
    ensures Started(m, cfg, Inner(cfg, ctx, s), s, n, q, MovedIn(m, ctx, env, moved, src), src, st, st3)
    ensures s.els.Some? <==> q.els.Some?
    ensures Run(m, ArmsCode(q), st3) == Some(b)
    ensures FrameRan(m, Inner(cfg, ctx, s), s, q, q.mg.used, MovedIn(m, ctx, env, moved, src), src, st3, b)
    decreases s, 1
  {
    var ci, moved2 := Inner(cfg, ctx, s), MovedIn(m, ctx, env, moved, src);
    GeneralCheck(cfg, ctx, s, env, n);
    st3 := NestedStart(m, cfg, ctx, s, env, n, emitted, moved, src, st, q);
    FrameIsReady(m, cfg, ci, s, Some(env), n, q, moved2, src, st, st3);
    b := ArmsSim(m, cfg, ci, s, q, q.mg.used, moved2, src, st3);
  }

  /** What the merges of a nested frame give. */
  ghost predicate Merged(m: Meaning, cfg: Cfg, s: Stmt, q: Parts, env: Env, src: Cells, b: State, c: State) {
    && q.mg.outer.Some?
    && Run(m, q.mg.code, b) == Some(c)
    && c.cells == b.cells && c.declared == b.declared
    && (forall t | t in b.temps :: t in c.temps && c.temps[t] == b.temps[t])
    && (forall t | t in c.temps :: t in b.temps || LastN(q) <= t < q.mg.n)
    && (forall p | p in WritePaths(cfg, s) ::
          && KeyOf(p, env.rows) in q.mg.outer.value.versions && q.mg.outer.value.versions[KeyOf(p, env.rows)] in c.temps
          && c.temps[q.mg.outer.value.versions[KeyOf(p, env.rows)]] == Load(Exec(m, s, src), SourceCell(m, p, src)))
  }

  /** Every merge of the frame has its operands. */
  lemma MergesReady(m: Meaning, cfg: Cfg, ci: Ctx, s: Stmt, q: Parts, n: nat, moved: set<Cell>, src: Cells, b: State)
    requires MeaningOk(m, ci) && Mergeable(cfg, ci, s, q, n) && Ran(m, ci, s, q, q.mg.used, moved, src, b)
    requires n in b.temps && b.temps[n] == ValueOf(m, s.cond, src, map[])
    ensures var at := AtOf(m, ci.writes, q.sc.writes, q.sc.keys.rows, src);
            forall l | l in q.sc.writes ::
              SelectReady(l, n, q.env.pre, q.thn.env.versions, ElsVersions(q), b.temps, at, Exec(m, s, src))
  {
    var at := AtOf(m, ci.writes, q.sc.writes, q.sc.keys.rows, src);
    forall l | l in q.sc.writes
      ensures SelectReady(l, n, q.env.pre, q.thn.env.versions, ElsVersions(q), b.temps, at, Exec(m, s, src))
    {
      var p := MergeAt(m, cfg, ci, s, q, n, moved, src, b, l);
    }
  }

  /** The enclosing frame's new versions hold what the source leaves in the locations. */
  lemma MergesHold(m: Meaning, ctx: Ctx, ws: set<Path>, env: Env, env2: Env, n: nat, sc: Scan, src: Cells, src2: Cells, temps: map<nat, int>)
    requires MeaningOk(m, ctx) && Nested(ctx, ws, env, n, sc.writes, sc.keys.rows)
    requires forall l | l in sc.writes :: MergeBound(env2, l, temps, src2, AtOf(m, ws, sc.writes, sc.keys.rows, src))
    ensures forall p | p in ws ::
              && KeyOf(p, env.rows) in env2.versions && env2.versions[KeyOf(p, env.rows)] in temps
              && temps[env2.versions[KeyOf(p, env.rows)]] == Load(src2, SourceCell(m, p, src))
  {
    var at := AtOf(m, ws, sc.writes, sc.keys.rows, src);
    forall p | p in ws
      ensures KeyOf(p, env.rows) in env2.versions && env2.versions[KeyOf(p, env.rows)] in temps
      ensures temps[env2.versions[KeyOf(p, env.rows)]] == Load(src2, SourceCell(m, p, src))
    {
      NestedKey(ctx, ws, env, n, sc.writes, sc.keys.rows, p);
      var l := HasKeyLoc(sc.writes, KeyOf(p, env.rows));
      assert MergeBound(env2, l, temps, src2, at);
      AtIs(m, ws, sc.writes, sc.keys.rows, src, p);
    }
  }

  lemma NestedMergeRun(m: Meaning, cfg: Cfg, ctx: Ctx, s: Stmt, env: Env, n: nat, moved: set<Cell>, src: Cells, q: Parts, b: State)
    returns (c: State)
    requires s.If? && RenderGeneral(cfg, s, Some(env), n).Success? && q == PartsOf(cfg, s, Some(env), n)
    requires MeaningOk(m, ctx) && Nested(ctx, WritePaths(cfg, s), env, n, q.sc.writes, q.sc.keys.rows)
    requires Mergeable(cfg, Inner(cfg, ctx, s), s, q, n) && Ran(m, Inner(cfg, ctx, s), s, q, q.mg.used, moved, src, b)
    requires n in b.temps && b.temps[n] == ValueOf(m, s.cond, src, map[])
    requires forall t | LastN(q) <= t < q.mg.n :: t in b.declared && t !in b.temps
    ensures Merged(m, cfg, s, q, env, src, b, c)
    ensures Rebound(ctx, WritePaths(cfg, s), env, q.mg.outer.value, LastN(q))
  {
    var ci, ws := Inner(cfg, ctx, s), WritePaths(cfg, s);
    var at, src2 := AtOf(m, ws, q.sc.writes, q.sc.keys.rows, src), Exec(m, s, src);
    var last := if q.els.Some? then q.els.value else q.thn;
    var envp := q.pre.outer.value;
    GeneralShape(cfg, s, Some(env), n);
    NestedHasKeys(ctx, ws, env, n, q.sc.writes, q.sc.keys.rows);
    MergesReady(m, cfg, ci, s, q, n, moved, src, b);
    AllocPreKeeps(q.sc.writes, env.Use(q.cond.used), q.sc.keys.n);
    MergeVersions(q.sc.writes, n, q.env.pre, q.thn.env.versions, ElsVersions(q), envp, last.n, last.env.used);
    c := NestedMerges(m, q.sc.writes, n, q.env.pre, q.thn.env.versions, ElsVersions(q), envp, last.n, last.env.used, at, src2, b);
    MergesRebind(ctx, ws, env, envp, n, last.n, q.sc.writes, q.sc.keys.rows, n, q.env.pre, q.thn.env.versions, ElsVersions(q),
                 last.env.used, q.mg.outer.value);
    MergesHold(m, ctx, ws, env, q.mg.outer.value, n, q.sc, src, src2, c.temps);
  }

  lemma {:induction false} AllocPreKeeps(writes: seq<Loc>, env: Env, n: nat)
    ensures var o := AllocPre(writes, Some(env), n).outer.value; o == env.(used := o.used)
    decreases writes
  {
    if writes != [] {
      AllocPreKeeps(writes[1..], env.Use(env.Uses(writes[0].key)), n + 1);
    }
  }

  lemma InsideRange(cfg: Cfg, s: Stmt, outer: Option<Env>, n: nat, q: Parts)
    requires s.If? && RenderGeneral(cfg, s, outer, n).Success? && q == PartsOf(cfg, s, outer, n)
    ensures n < q.pre.n <= LastN(q) && forall t | t in Inside(q) :: q.pre.n <= t < LastN(q)
  {
    GeneralShape(cfg, s, outer, n);
  }

  ghost predicate MergeSpace(env: Env, n: nat, q: Parts, st: State) {
    && q.mg.outer.Some? && |env.decls| <= |q.mg.outer.value.decls|
    && RoomFor(st, n, q.mg.n, NewDecls(env, q.mg.outer.value))
  }

  lemma MergeDecls(cfg: Cfg, s: Stmt, env: Env, n: nat, q: Parts)
    requires s.If? && RenderGeneral(cfg, s, Some(env), n).Success? && q == PartsOf(cfg, s, Some(env), n)
    requires forall l | l in q.sc.writes :: HasKey(env.writes, l.key)
    requires q.mg.outer.Some? && |env.decls| <= |q.mg.outer.value.decls|
    ensures forall t | LastN(q) <= t < q.mg.n :: t in NewDecls(env, q.mg.outer.value)
  {
    var last := if q.els.Some? then q.els.value else q.thn;
    AllocPreKeeps(q.sc.writes, env.Use(q.cond.used), q.sc.keys.n);
    MergeVersions(q.sc.writes, n, q.env.pre, q.thn.env.versions, ElsVersions(q), q.pre.outer.value, last.n, last.env.used);
    var decls := q.mg.outer.value.decls;
    forall t | LastN(q) <= t < q.mg.n
      ensures t in NewDecls(env, q.mg.outer.value)
    {
      assert decls[|env.decls|..][t - LastN(q)] == decls[|env.decls| + (t - LastN(q))] == t;
    }
  }

  /** The versions a nested frame binds are declared, and unassigned until its merges. */
  lemma MergeRoom(cfg: Cfg, s: Stmt, env: Env, n: nat, q: Parts, st: State, st3: State, b: State)
    requires s.If? && RenderGeneral(cfg, s, Some(env), n).Success? && q == PartsOf(cfg, s, Some(env), n)
    requires forall l | l in q.sc.writes :: HasKey(env.writes, l.key)
    requires MergeSpace(env, n, q, st)
    requires Grown(st, st3, n, q.pre.n) && st3.declared <= b.declared && b.temps.Keys <= st3.temps.Keys + Inside(q)
    ensures forall t | LastN(q) <= t < q.mg.n :: t in NewDecls(env, q.mg.outer.value) && t in b.declared && t !in b.temps
  {
    InsideRange(cfg, s, Some(env), n, q);
    MergeDecls(cfg, s, env, n, q);
  }

  /** A nested frame has run to its end. */
  ghost predicate NestedRan(m: Meaning, cfg: Cfg, ctx: Ctx, s: Stmt, env: Env, n: nat, moved: set<Cell>, src: Cells, st: State,
                            q: Parts, b: State, c: State) {
    && Nested(ctx, WritePaths(cfg, s), env, n, q.sc.writes, q.sc.keys.rows)
    && Mergeable(cfg, Inner(cfg, ctx, s), s, q, n)
    && Ran(m, Inner(cfg, ctx, s), s, q, q.mg.used, MovedIn(m, ctx, env, moved, src), src, b)
    && Merged(m, cfg, s, q, env, src, b, c)
    && Rebound(ctx, WritePaths(cfg, s), env, q.mg.outer.value, LastN(q))
    && |env.decls| <= |q.mg.outer.value.decls|
    && (forall t | LastN(q) <= t < q.mg.n :: t in NewDecls(env, q.mg.outer.value))
    && Extends(env, n, q.mg.outer.value, q.mg.n) && n < LastN(q) <= q.mg.n
    && Kept(m, st, State(c.cells, Visible(c.temps, st.declared), st.declared), Decls(s), NewDecls(env, q.mg.outer.value))
    && StateOk(State(c.cells, Visible(c.temps, st.declared), st.declared))
  }

  lemma NestedTail(m: Meaning, cfg: Cfg, ctx: Ctx, s: Stmt, env: Env, n: nat, emitted: set<LocKey>, moved: set<Cell>,
                   src: Cells, st: State, q: Parts, st3: State, b: State) returns (c: State)
    requires NestedFrame(m, cfg, ctx, s, env, n, emitted, st, q)
    requires RenderGeneral(cfg, s, Some(env), n).Success? && q == PartsOf(cfg, s, Some(env), n)
    requires Setting(m, cfg, ctx, env, n, emitted, moved, st.temps) && StateOk(st)
    requires MergeSpace(env, n, q, st)
    requires Started(m, cfg, Inner(cfg, ctx, s), s, n, q, MovedIn(m, ctx, env, moved, src), src, st, st3)
    requires s.els.Some? <==> q.els.Some?
    requires FrameRan(m, Inner(cfg, ctx, s), s, q, q.mg.used, MovedIn(m, ctx, env, moved, src), src, st3, b)
    ensures NestedRan(m, cfg, ctx, s, env, n, moved, src, st, q, b, c)
  {
    var ci, ws := Inner(cfg, ctx, s), WritePaths(cfg, s);
    InnerCtxOk(m, cfg, ctx, s);
    FrameMergeable(cfg, ci, s, Some(env), n, q);
    NestedHasKeys(ctx, ws, env, n, q.sc.writes, q.sc.keys.rows);
    GeneralShape(cfg, s, Some(env), n);
    InsideRange(cfg, s, Some(env), n, q);
    MergeRoom(cfg, s, env, n, q, st, st3, b);
    c := NestedMergeRun(m, cfg, ctx, s, env, n, MovedIn(m, ctx, env, moved, src), src, q, b);
    NestedKept(m, s, n, q, env, Decls(s), st, st3, b, c, State(c.cells, Visible(c.temps, st.declared), st.declared));
  }

  lemma NestedSetting(m: Meaning, cfg: Cfg, ctx: Ctx, s: Stmt, env: Env, n: nat, emitted: set<LocKey>, moved: set<Cell>,
                      src: Cells, st: State, q: Parts, b: State, c: State)
    requires Setting(m, cfg, ctx, env, n, emitted, moved, st.temps) && StateOk(st) && Decls(s) <= cfg.locals
    requires MergeSpace(env, n, q, st)
    requires NestedRan(m, cfg, ctx, s, env, n, moved, src, st, q, b, c)
    ensures Setting(m, cfg, Left(cfg, ctx, s), q.mg.outer.value, q.mg.n, emitted, moved, Visible(c.temps, st.declared))
    ensures forall p | p in WritePaths(cfg, s) :: q.mg.outer.value.versions[KeyOf(p, env.rows)] in Visible(c.temps, st.declared)
  {
    var env2 := q.mg.outer.value;
    var st2 := State(c.cells, Visible(c.temps, st.declared), st.declared);
    LeftCtxOk(cfg, ctx, s);
    ReboundEnvOk(cfg, ctx, s, env, env2, n, LastN(q), q.mg.n);
    forall p | p in WritePaths(cfg, s)
      ensures env2.versions[KeyOf(p, env.rows)] in st2.temps
    {
      var t := env2.versions[KeyOf(p, env.rows)];
      assert LastN(q) <= t < q.mg.n;
      assert t in st.declared && t in c.temps;
    }
    ReboundReady(cfg, ctx, s, env, env2, n, LastN(q), emitted, st.temps, st2.temps);
  }

  lemma NestedFollows(m: Meaning, cfg: Cfg, ctx: Ctx, s: Stmt, env: Env, n: nat, emitted: set<LocKey>, moved: set<Cell>,
                      src: Cells, st: State, q: Parts, b: State, c: State)
    requires Setting(m, cfg, ctx, env, n, emitted, moved, st.temps) && Decls(s) <= cfg.locals
    requires NestedRan(m, cfg, ctx, s, env, n, moved, src, st, q, b, c)
    requires forall p | p in WritePaths(cfg, s) :: q.mg.outer.value.versions[KeyOf(p, env.rows)] in Visible(c.temps, st.declared)
    requires Follows(m, ctx, env, emitted, moved, src, st)
    ensures Follows(m, Left(cfg, ctx, s), q.mg.outer.value, emitted, moved, Exec(m, s, src),
                    State(c.cells, Visible(c.temps, st.declared), st.declared))
  {
    var env2, u, src2, moved2 := q.mg.outer.value, Visible(c.temps, st.declared), Exec(m, s, src), MovedIn(m, ctx, env, moved, src);
    SourceOnly(m, cfg, ctx, s, src);
    StableRows(m, cfg, ctx, env, src, src2, st.temps);
    assert RowsHold(m, env2, src2, u) by {
      forall r | r in env2.rows
        ensures TempOf(u, r.tmp) == ValueOf(m, r.src, src2, map[])
      {
        assert r.tmp in st.temps;
      }
    }
    ReboundVersions(m, cfg, ctx, s, env, env2, n, LastN(q), emitted, src, st.temps, u);
    forall x: Cell | !Under(m, ctx.dead + Decls(s), x) && x !in moved2 && (forall p | p in WritePaths(cfg, s) :: x != SourceCell(m, p, src))
      ensures Load(src2, x) == Load(c.cells, x)
    {
      ElsewhereHolds(m, cfg, Inner(cfg, ctx, s), s, q, n, moved2, src, b, x);
    }
    ReboundCells(m, cfg, ctx, s, env, env2, n, LastN(q), moved, src, c.cells);
  }

  lemma KeptMore(m: Meaning, a: State, b: State, vs: set<VarId>, us: set<VarId>, ds: set<nat>)
    requires Kept(m, a, b, vs, ds) && vs <= us
    ensures Kept(m, a, b, us, ds)
  {
    KeptTrans(m, a, b, b, vs, {}, us, ds, {});
    assert ds + {} == ds;
  }

  lemma NestedExit(m: Meaning, cfg: Cfg, ctx: Ctx, s: Stmt, env: Env, n: nat, emitted: set<LocKey>, moved: set<Cell>,
                   src: Cells, st: State, q: Parts, st3: State, b: State) returns (st2: State)
    requires s.If? && StmtReady(m, cfg, ctx, s, env, n, emitted, moved, src, st)
    requires TryDirect(cfg, s, Some(env), n) == Success(None)
    requires RenderGeneral(cfg, s, Some(env), n).Success? && q == PartsOf(cfg, s, Some(env), n)
    requires NestedFrame(m, cfg, ctx, s, env, n, emitted, st, q)
    requires Started(m, cfg, Inner(cfg, ctx, s), s, n, q, MovedIn(m, ctx, env, moved, src), src, st, st3)
    requires s.els.Some? <==> q.els.Some?
    requires Run(m, ArmsCode(q), st3) == Some(b)
    requires FrameRan(m, Inner(cfg, ctx, s), s, q, q.mg.used, MovedIn(m, ctx, env, moved, src), src, st3, b)
    ensures StmtDone(m, cfg, ctx, s, env, n, emitted, moved, src, st, st2)
  {
    GeneralOut(cfg, s, env, n);
    GeneralCheck(cfg, ctx, s, env, n);
    var c := NestedTail(m, cfg, ctx, s, env, n, emitted, moved, src, st, q, st3, b);
    st2 := State(c.cells, Visible(c.temps, st.declared), st.declared);
    FrameRun(m, n, q, st, st3, b, c);
    NestedSetting(m, cfg, ctx, s, env, n, emitted, moved, src, st, q, b, c);
    NestedFollows(m, cfg, ctx, s, env, n, emitted, moved, src, st, q, b, c);
    KeptMore(m, st, st2, Decls(s), Decls(s) + ctx.live, NewDecls(env, q.mg.outer.value));
  }
}
