/**
 Expression statements: the emitted code evaluates those of both arms, in source
 order and with the values the source gives them, and nothing else.
 */
module BranchTrace {
  import opened Wrappers
  import opened BranchAst
  import opened BranchLowering
  import opened BranchAdmission
  import opened BranchCells
  import opened BranchScan
  import opened BranchShape
  import opened BranchRelation
  import opened BranchStep
  import opened BranchSimple
  import opened BranchFrame
  import opened BranchPrologue
  import opened BranchSim
  import opened BranchArms
  import opened BranchNested
  import opened BranchMerge
  import opened BranchNestedEnd
  import opened BranchInduction

  /** The values of the expression statements of an arm.  Both arms of a nested `if`
      are executed, each from the store the statement starts with. */
  function Both(m: Meaning, s: Stmt, c: Cells): seq<int>
    decreases s
  {
    match s
    case ExprStmt(e) => [ValueOf(m, e, c, map[])]
    case Block(b) => BothAll(m, b, c)
    case Unchecked(b) => BothAll(m, b, c)
    case If(_, t, e) => Both(m, t, c) + (if e.Some? then Both(m, e.value, c) else [])
    case _ => []
  }

  function BothAll(m: Meaning, ss: seq<Stmt>, c: Cells): seq<int>
    decreases ss
  {
    if ss == [] then [] else Both(m, ss[0], c) + BothAll(m, ss[1..], Exec(m, ss[0], c))
  }

  /** The values of the expression statements of emitted code, as it runs. */
  function Traced(m: Meaning, code: seq<TStmt>, s: State): seq<int>
    decreases code
  {
    if code == [] then []
    else
      var next := Step1(m, code[0], s);
      TracedOne(m, code[0], s) + (if next.Some? then Traced(m, code[1..], next.value) else [])
  }

  function TracedOne(m: Meaning, x: TStmt, s: State): seq<int>
    decreases x
  {
    match x
    case Eval(e) => [ValueOf(m, e, s.cells, s.temps)]
    case Scope(b) => Traced(m, b, s)
    case _ => []
  }

  lemma {:induction false} TracedAppend(m: Meaning, a: seq<TStmt>, b: seq<TStmt>, s: State)
    requires Run(m, a, s).Some?
    ensures Traced(m, a + b, s) == Traced(m, a, s) + Traced(m, b, Run(m, a, s).value)
    decreases a
  {
    if a == [] {
      assert a + b == b;
    } else {
      assert (a + b)[0] == a[0] && (a + b)[1..] == a[1..] + b;
      TracedAppend(m, a[1..], b, Step1(m, a[0], s).value);
    }
  }

  predicate Silent(code: seq<TStmt>) {
    forall x | x in code :: !x.Eval? && !x.Scope?
  }

  lemma {:induction false} SilentTraced(m: Meaning, code: seq<TStmt>, s: State)
    requires Silent(code)
    ensures Traced(m, code, s) == []
    decreases code
  {
    if code != [] {
      var next := Step1(m, code[0], s);
      assert code[0] in code && Silent(code[1..]);
      if next.Some? { SilentTraced(m, code[1..], next.value); }
    }
  }

  lemma TracedScope(m: Meaning, code: seq<TStmt>, s: State)
    ensures Traced(m, [Scope(code)], s) == Traced(m, code, s)
  {
    assert [Scope(code)][1..] == [];
  }

  // ---- code that evaluates nothing -----------------------------------------------------

  lemma WriteSilent(cfg: Cfg, p: Path, value: Expr, env: Env, n: nat)
    requires WriteVersioned(cfg, p, value, env, n).Success?
    ensures Silent(WriteVersioned(cfg, p, value, env, n).value.code)
  {
  }

  lemma {:induction false} DeclaresSilent(ts: seq<nat>)
    ensures Silent(Declares(ts))
  {
    if ts != [] { DeclaresSilent(ts[1..]); }
  }

  lemma {:induction false} KeyLetsSilent(rows: seq<Row>)
    ensures Silent(KeyLets(rows))
  {
    if rows != [] { KeyLetsSilent(rows[1..]); }
  }

  lemma {:induction false} PreLetsSilent(pres: seq<PreVal>, used: set<LocKey>)
    ensures Silent(PreLets(pres, used))
    decreases pres
  {
    if pres != [] { PreLetsSilent(pres[1..], used); }
  }

  lemma {:induction false} MergesSilent(writes: seq<Loc>, cond: nat, pre: map<LocKey, nat>, thn: map<LocKey, nat>, els: map<LocKey, nat>,
                                        outer: Option<Env>, n: nat, used: set<LocKey>)
    requires forall l | l in writes :: l.key in pre
    ensures Silent(MergeAll(writes, cond, pre, thn, els, outer, n, used).code)
    decreases writes
  {
    if writes != [] {
      var l := writes[0];
      var tv, ev := VersionOr(thn, l.key, pre[l.key]), VersionOr(els, l.key, pre[l.key]);
      var used1 := if tv == pre[l.key] || ev == pre[l.key] then used + {l.key} else used;
      if outer.Some? && HasKey(outer.value.writes, l.key) {
        MergesSilent(writes[1..], cond, pre, thn, els, Some(outer.value.Bind(l.key, n)), n + 1, used1);
      } else {
        MergesSilent(writes[1..], cond, pre, thn, els, outer, n, used1);
      }
    }
  }

  lemma BeginSilent(n: nat, q: Parts)
    ensures Silent(Begin(n, q))
  {
    KeyLetsSilent(q.sc.keys.rows);
    PreLetsSilent(q.pre.pres, q.mg.used);
  }

  lemma FrameMergesSilent(cfg: Cfg, s: Stmt, outer: Option<Env>, n: nat, q: Parts)
    requires s.If? && RenderGeneral(cfg, s, outer, n).Success? && q == PartsOf(cfg, s, outer, n)
    ensures Silent(q.mg.code)
  {
    StartKeys(q.sc.writes, q.pre.pres);
    var last := if q.els.Some? then q.els.value else q.thn;
    MergesSilent(q.sc.writes, n, q.env.pre, q.thn.env.versions, ElsVersions(q), q.pre.outer, last.n, last.env.used);
  }

  lemma {:induction false} PlainAssignNone(m: Meaning, s: Stmt, c: Cells)
    requires SinglePlainAssign(s).Some?
    ensures Both(m, s, c) == []
    decreases s
  {
    if s.Block? {
      PlainAssignNone(m, s.body[0], c);
      assert s.body[1..] == [] && BothAll(m, s.body[1..], Exec(m, s.body[0], c)) == [];
    }
  }

  /** The direct form: neither its arms nor its one line evaluate a statement. */
  lemma DirectTraced(m: Meaning, cfg: Cfg, s: Stmt, outer: Option<Env>, n: nat, src: Cells, st: State)
    requires s.If? && TryDirect(cfg, s, outer, n).Success? && TryDirect(cfg, s, outer, n).value.Some?
    ensures Traced(m, TryDirect(cfg, s, outer, n).value.value.code, st) == []
    ensures Both(m, s, src) == []
  {
    PlainAssignNone(m, s.thn, src);
    PlainAssignNone(m, s.els.value, src);
    assert Both(m, s, src) == Both(m, s.thn, src) + Both(m, s.els.value, src);
    SilentTraced(m, TryDirect(cfg, s, outer, n).value.value.code, st);
  }

  /** A frame evaluates what its arms evaluate. */
  lemma FrameTraced(m: Meaning, n: nat, q: Parts, st: State, st3: State, b: State)
    requires Run(m, Begin(n, q), st) == Some(st3) && Run(m, ArmsCode(q), st3) == Some(b) && Silent(q.mg.code)
    ensures Traced(m, [Scope(Assemble(n, q.cond.e, q.sc.keys.rows, q.pre.pres, q.mg.used, q.thn, q.els, q.mg.code))], st)
            == Traced(m, ArmsCode(q), st3)
  {
    var code := Assemble(n, q.cond.e, q.sc.keys.rows, q.pre.pres, q.mg.used, q.thn, q.els, q.mg.code);
    FrameCode(n, q);
    TracedScope(m, code, st);
    RunAppend(m, Begin(n, q), ArmsCode(q), st);
    TracedAppend(m, Begin(n, q) + ArmsCode(q), q.mg.code, st);
    TracedAppend(m, Begin(n, q), ArmsCode(q), st);
    BeginSilent(n, q);
    SilentTraced(m, Begin(n, q), st);
    SilentTraced(m, q.mg.code, b);
  }

  // ---- statements and arms -------------------------------------------------------------

  lemma WriteStmtTraced(m: Meaning, cfg: Cfg, s: Stmt, env: Env, n: nat, src: Cells, st: State)
    requires (s.Assign? || s.Compound? || s.IncDec? || s.Decl?) && RenderStmt(cfg, s, env, n).Success?
    ensures Traced(m, RenderStmt(cfg, s, env, n).value.code, st) == Both(m, s, src) == []
  {
    assert Silent(RenderStmt(cfg, s, env, n).value.code);
    SilentTraced(m, RenderStmt(cfg, s, env, n).value.code, st);
  }

  lemma {:induction false} StmtTraced(m: Meaning, cfg: Cfg, ctx: Ctx, s: Stmt, env: Env, n: nat, emitted: set<LocKey>, moved: set<Cell>,
                                      src: Cells, st: State)
    requires StmtReady(m, cfg, ctx, s, env, n, emitted, moved, src, st)
    ensures Traced(m, RenderStmt(cfg, s, env, n).value.code, st) == Both(m, s, src)
    decreases s, 3
  {
    match s
    case ExprStmt(e) =>
      RenderFollows(m, cfg, ctx, e, env, n, emitted, moved, src, st);
      assert [Eval(Render(cfg, e, env).value.e)][1..] == [];
    case Block(b) =>
      AllTraced(m, cfg, ctx, b, env, n, emitted, moved, src, st);
      TracedScope(m, RenderAll(cfg, b, env, n).value.code, st);
    case Unchecked(b) =>
      AllTraced(m, cfg, ctx, b, env, n, emitted, moved, src, st);
      TracedScope(m, RenderAll(cfg, b, env, n).value.code, st);
    case If(_, _, _) => NestedTraced(m, cfg, ctx, s, env, n, emitted, moved, src, st);
    case _ => WriteStmtTraced(m, cfg, s, env, n, src, st);
  }

  lemma {:induction false} AllTraced(m: Meaning, cfg: Cfg, ctx: Ctx, ss: seq<Stmt>, env: Env, n: nat, emitted: set<LocKey>, moved: set<Cell>,
                                     src: Cells, st: State)
    requires AllReady(m, cfg, ctx, ss, env, n, emitted, moved, src, st)
    ensures Traced(m, RenderAll(cfg, ss, env, n).value.code, st) == BothAll(m, ss, src)
    decreases ss
  {
    if ss != [] {
      var o, r := RenderStmt(cfg, ss[0], env, n).value, RenderAll(cfg, ss, env, n).value;
      var rest := RenderAll(cfg, ss[1..], o.env, o.n).value;
      StmtShape(cfg, ss[0], env, n);
      AllShape(cfg, ss[1..], o.env, o.n);
      ExtendsTrans(env, n, o.env, o.n, r.env, r.n);
      CheckShape(cfg, ss[0], ctx);
      HeadRoom(st, n, o.n, r.n, NewDecls(env, o.env), NewDecls(o.env, r.env));
      StmtTraced(m, cfg, ctx, ss[0], env, n, emitted, moved, src, st);
      var st1 := StmtSim(m, cfg, ctx, ss[0], env, n, emitted, moved, src, st);
      RoomRest(m, st, st1, n, o.n, r.n, Decls(ss[0]) + ctx.live, NewDecls(env, o.env), NewDecls(o.env, r.env));
      AllTraced(m, cfg, Check(cfg, ss[0], ctx).value, ss[1..], o.env, o.n, emitted, moved, Exec(m, ss[0], src), st1);
      TracedAppend(m, o.code, rest.code, st);
    }
  }

  /** Declaring an arm's versions evaluates nothing. */
  lemma DeclaredTraced(m: Meaning, ts: seq<nat>, code: seq<TStmt>, st: State)
    requires forall i, j | 0 <= i < j < |ts| :: ts[i] != ts[j]
    requires forall t | t in ts :: t !in st.declared
    ensures Traced(m, Declares(ts) + [Scope(code)], st) == Traced(m, code, st.(declared := st.declared + set t | t in ts))
  {
    var d := DeclaresRun(m, ts, st);
    TracedAppend(m, Declares(ts), [Scope(code)], st);
    DeclaresSilent(ts);
    SilentTraced(m, Declares(ts), st);
    TracedScope(m, code, d);
  }

  lemma {:induction false} ArmBodyTraced(m: Meaning, cfg: Cfg, ctx: Ctx, s: Stmt, env: Env, n: nat, o: Out, emitted: set<LocKey>,
                                         moved: set<Cell>, src: Cells, st: State)
    requires ArmReady(m, cfg, ctx, s, env, n, o, emitted, moved, src, st)
    ensures Traced(m, o.code, st.(declared := st.declared + DeclSet(o))) == Both(m, s, src)
    decreases s, 4
  {
    var d := st.(declared := st.declared + DeclSet(o));
    FollowsDeclared(m, ctx, env, emitted, moved, src, st, d.declared);
    assert o.env.decls[|env.decls|..] == o.env.decls;
    assert NewDecls(env, o.env) == DeclSet(o);
    if s.Block? {
      AllTraced(m, cfg, ctx, s.body, env, n, emitted, moved, src, d);
    } else {
      StmtTraced(m, cfg, ctx, s, env, n, emitted, moved, src, d);
    }
  }

  lemma {:induction false} ArmTraced(m: Meaning, cfg: Cfg, ctx: Ctx, s: Stmt, env: Env, n: nat, o: Out, emitted: set<LocKey>, moved: set<Cell>,
                                     src: Cells, st: State)
    requires ArmReady(m, cfg, ctx, s, env, n, o, emitted, moved, src, st)
    ensures Traced(m, Declares(o.env.decls) + [Scope(o.code)], st) == Both(m, s, src)
    decreases s, 5
  {
    ArmBodyTraced(m, cfg, ctx, s, env, n, o, emitted, moved, src, st);
    assert o.env.decls[|env.decls|..] == o.env.decls;
    DeclaredTraced(m, o.env.decls, o.code, st);
  }

  /** After the first arm the second one starts as it would have alone. */
  lemma SecondReady(m: Meaning, cfg: Cfg, ci: Ctx, s: Stmt, q: Parts, emitted: set<LocKey>, moved: set<Cell>, src: Cells, st: State, b1: State)
    requires FrameReady(m, cfg, ci, s, q, emitted, moved, src, st) && s.els.Some?
    requires ArmRun(m, st, b1, Decls(s.thn), DeclSet(q.thn)) && forall t | t in DeclSet(q.thn) :: t < q.thn.n
    ensures ArmReady(m, cfg, ci, s.els.value, q.env.Use(q.thn.env.used), q.thn.n, q.els.value, emitted, moved, src, b1)
  {
    var used := q.thn.env.used;
    ArmRunMore(m, st, b1, Decls(s.thn), ci.dead, DeclSet(q.thn));
    FollowsIdle(m, ci, q.env, q.pre.n, emitted, moved, src, st, b1);
    UseSetting(m, cfg, ci, q.env, q.pre.n, emitted, moved, b1.temps, used);
    LaterSetting(m, cfg, ci, q.env.Use(used), q.pre.n, q.thn.n, emitted, moved, b1.temps);
    UseFollows(m, ci, q.env, emitted, moved, src, b1, used);
  }

  /** The arms of a frame evaluate the expression statements of the source's arms. */
  lemma {:induction false} ArmsTraced(m: Meaning, cfg: Cfg, ci: Ctx, s: Stmt, q: Parts, emitted: set<LocKey>, moved: set<Cell>,
                                      src: Cells, st: State)
    requires FrameReady(m, cfg, ci, s, q, emitted, moved, src, st)
    ensures Traced(m, ArmsCode(q), st) == Both(m, s, src)
    decreases s, 0
  {
    var thn := Declares(q.thn.env.decls) + [Scope(q.thn.code)];
    ArmTraced(m, cfg, ci, s.thn, q.env, q.pre.n, q.thn, emitted, moved, src, st);
    var b1 := ArmSim(m, cfg, ci, s.thn, q.env, q.pre.n, q.thn, emitted, moved, src, st);
    if s.els.Some? {
      SecondReady(m, cfg, ci, s, q, emitted, moved, src, st, b1);
      ArmTraced(m, cfg, ci, s.els.value, q.env.Use(q.thn.env.used), q.thn.n, q.els.value, emitted, moved, src, b1);
      TracedAppend(m, thn, Declares(q.els.value.env.decls) + [Scope(q.els.value.code)], st);
    } else {
      assert thn + [] == thn && Both(m, s.thn, src) + [] == Both(m, s.thn, src);
    }
  }

  lemma {:induction false} NestedTraced(m: Meaning, cfg: Cfg, ctx: Ctx, s: Stmt, env: Env, n: nat, emitted: set<LocKey>, moved: set<Cell>,
                                        src: Cells, st: State)
    requires s.If? && StmtReady(m, cfg, ctx, s, env, n, emitted, moved, src, st)
    ensures Traced(m, RenderStmt(cfg, s, env, n).value.code, st) == Both(m, s, src)
    decreases s, 2
  {
    assert RenderFrame(cfg, s, Some(env), n).Success?;
    if TryDirect(cfg, s, Some(env), n).value.Some? {
      DirectTraced(m, cfg, s, Some(env), n, src, st);
    } else {
      GeneralOut(cfg, s, env, n);
      var q := PartsOf(cfg, s, Some(env), n);
      NestedFrameOk(m, cfg, ctx, s, env, n, emitted, moved, src, st, q);
      NestedFrameTraced(m, cfg, ctx, s, env, n, emitted, moved, src, st, q);
    }
  }

  lemma {:induction false} NestedFrameTraced(m: Meaning, cfg: Cfg, ctx: Ctx, s: Stmt, env: Env, n: nat, emitted: set<LocKey>, moved: set<Cell>,
                                             src: Cells, st: State, q: Parts)
    requires NestedFrame(m, cfg, ctx, s, env, n, emitted, st, q)
    requires Check(cfg, s, ctx).Some? && TryDirect(cfg, s, Some(env), n) == Success(None)
    requires RenderGeneral(cfg, s, Some(env), n).Success? && q == PartsOf(cfg, s, Some(env), n)
    requires Setting(m, cfg, ctx, env, n, emitted, moved, st.temps) && StateOk(st) && Follows(m, ctx, env, emitted, moved, src, st)
    ensures Traced(m, [Scope(Assemble(n, q.cond.e, q.sc.keys.rows, q.pre.pres, q.mg.used, q.thn, q.els, q.mg.code))], st) == Both(m, s, src)
    decreases s, 1
  {
    var ci, moved2 := Inner(cfg, ctx, s), MovedIn(m, ctx, env, moved, src);
    GeneralCheck(cfg, ctx, s, env, n);
    var st3 := NestedStart(m, cfg, ctx, s, env, n, emitted, moved, src, st, q);
    FrameIsReady(m, cfg, ci, s, Some(env), n, q, moved2, src, st, st3);
    var b := ArmsSim(m, cfg, ci, s, q, q.mg.used, moved2, src, st3);
    ArmsTraced(m, cfg, ci, s, q, q.mg.used, moved2, src, st3);
    FrameMergesSilent(cfg, s, Some(env), n, q);
    FrameTraced(m, n, q, st, st3, b);
  }
}
