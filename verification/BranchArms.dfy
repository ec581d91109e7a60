/** Facts about frames that need no induction over statements. */
module BranchArms {
  import opened Wrappers
  import opened BranchAst
  import opened BranchLowering
  import opened BranchAdmission
  import opened BranchCells
  import opened BranchScan
  import opened BranchShape
  import opened BranchRelation
  import opened BranchStep
  import opened BranchSimple
  import opened BranchFrame
  import opened BranchPrologue
  import opened BranchSim

  /** A run of one arm in its own scope. */
  ghost predicate ArmRun(m: Meaning, a: State, b: State, vs: set<VarId>, ds: set<nat>) {
    && b.declared == a.declared + ds
    && StateOk(b)
    && a.temps.Keys <= b.temps.Keys <= a.temps.Keys + ds
    && (forall t | t in a.temps :: b.temps[t] == a.temps[t])
    && forall x: Cell :: !Under(m, vs, x) ==> Load(a.cells, x) == Load(b.cells, x)
  }

  /** Leaving a scope that declared nothing of its own drops nothing. */
  lemma ScopeStep(m: Meaning, code: seq<TStmt>, d: State, inner: State)
    requires Run(m, code, d) == Some(inner) && inner.declared == d.declared && StateOk(inner)
    ensures Step1(m, Scope(code), d) == Some(inner)
  {
    assert Visible(inner.temps, d.declared) == inner.temps;
  }

  lemma ScopeRun(m: Meaning, ts: seq<nat>, code: seq<TStmt>, vs: set<VarId>, st: State, inner: State)
    requires StateOk(st)
    requires forall i, j | 0 <= i < j < |ts| :: ts[i] < ts[j]
    requires forall t | t in ts :: t !in st.declared
    requires var d := st.(declared := st.declared + (set t | t in ts));
             Run(m, code, d) == Some(inner) && Kept(m, d, inner, vs, set t | t in ts) && StateOk(inner)
    ensures Run(m, Declares(ts) + [Scope(code)], st) == Some(inner)
    ensures ArmRun(m, st, inner, vs, set t | t in ts)
  {
    var d := DeclaresRun(m, ts, st);
    RunAppend(m, Declares(ts), [Scope(code)], st);
    RunOne(m, Scope(code), d);
    ScopeStep(m, code, d, inner);
  }

  lemma FollowsDeclared(m: Meaning, ctx: Ctx, env: Env, emitted: set<LocKey>, moved: set<Cell>, src: Cells, st: State, ds: set<nat>)
    requires Follows(m, ctx, env, emitted, moved, src, st)
    ensures Follows(m, ctx, env, emitted, moved, src, st.(declared := ds))
  {
  }

  /** What ran since touched only out-of-scope locals and fresh temporaries. */
  lemma FollowsIdle(m: Meaning, ctx: Ctx, env: Env, n: nat, emitted: set<LocKey>, moved: set<Cell>, src: Cells, a: State, b: State)
    requires EnvOk(ctx, env, n) && Ready(ctx, env, emitted, a.temps)
    requires Follows(m, ctx, env, emitted, moved, src, a)
    requires forall t | t in a.temps :: t in b.temps && b.temps[t] == a.temps[t]
    requires forall x: Cell :: !Under(m, ctx.dead, x) ==> Load(a.cells, x) == Load(b.cells, x)
    ensures Follows(m, ctx, env, emitted, moved, src, b) && Ready(ctx, env, emitted, b.temps)
  {
    forall p | p in ctx.writes && Valued(env, emitted, KeyOf(p, env.rows)) && KeyOf(p, env.rows) in env.versions
      ensures TempOf(b.temps, env.versions[KeyOf(p, env.rows)]) == Load(src, SourceCell(m, p, src))
    {
      assert env.versions[KeyOf(p, env.rows)] in a.temps;
    }
    forall r | r in env.rows
      ensures TempOf(b.temps, r.tmp) == ValueOf(m, r.src, src, map[])
    {
      assert r.tmp in a.temps;
    }
  }

  /** After an arm: its versions hold the source's values, and no other cell has moved. */
  ghost predicate ArmHolds(m: Meaning, ctx: Ctx, env: Env, emitted: set<LocKey>, moved: set<Cell>, out: set<VarId>,
                           src: Cells, src2: Cells, b: State) {
    && (forall p | p in ctx.writes && Valued(env, emitted, KeyOf(p, env.rows)) ::
          && KeyOf(p, env.rows) in env.versions && env.versions[KeyOf(p, env.rows)] in b.temps
          && b.temps[env.versions[KeyOf(p, env.rows)]] == Load(src2, SourceCell(m, p, src2)))
    && (forall x: Cell :: !Under(m, out, x) && x !in moved && (forall p | p in ctx.writes :: x != SourceCell(m, p, src2)) ==>
          Load(src2, x) == Load(b.cells, x))
  }

  lemma FollowsHolds(m: Meaning, ctx: Ctx, ctx2: Ctx, env: Env, emitted: set<LocKey>, moved: set<Cell>, out: set<VarId>,
                     src: Cells, src2: Cells, b: State)
    requires ctx2.writes == ctx.writes && ctx2.dead <= out
    requires Ready(ctx2, env, emitted, b.temps) && Follows(m, ctx2, env, emitted, moved, src2, b)
    ensures ArmHolds(m, ctx, env, emitted, moved, out, src, src2, b)
  {
    forall x: Cell | !Under(m, out, x) && x !in moved && (forall p | p in ctx.writes :: x != SourceCell(m, p, src2))
      ensures Load(src2, x) == Load(b.cells, x)
    {
      UnderMore(m, ctx2.dead, out, x);
      assert !Reassigned(m, ctx2, env, src2, x);
    }
  }

  lemma HoldsIdle(m: Meaning, ctx: Ctx, env: Env, emitted: set<LocKey>, moved: set<Cell>, out: set<VarId>,
                  src: Cells, src2: Cells, a: State, b: State)
    requires ArmHolds(m, ctx, env, emitted, moved, out, src, src2, a)
    requires forall t | t in a.temps :: t in b.temps && b.temps[t] == a.temps[t]
    requires forall x: Cell :: !Under(m, out, x) ==> Load(a.cells, x) == Load(b.cells, x)
    ensures ArmHolds(m, ctx, env, emitted, moved, out, src, src2, b)
  {
  }

  /** The environment and the point with which the arms of a frame start. */
  lemma InnerCtxOk(m: Meaning, cfg: Cfg, ctx: Ctx, s: Stmt)
    requires CtxOk(cfg, ctx) && MeaningOk(m, ctx) && s.If? && Decls(s) <= cfg.locals && WritePaths(cfg, s) <= ctx.writes
    requires forall p | p in WritePaths(cfg, s) :: LiteralKeys(p)
    ensures CtxOk(cfg, Inner(cfg, ctx, s)) && MeaningOk(m, Inner(cfg, ctx, s))
  {
    var ci := Inner(cfg, ctx, s);
    forall p | p in ci.writes
      ensures RootOf(p) !in cfg.locals && InUniverse(p, ci) && KeysOk(p, StableCtx(cfg, ci), true)
    {
      SameUniverse(p, ctx, ci);
      LiteralKeysOk(p, StableCtx(cfg, ci), true);
    }
    forall q | q in ci.stale
      ensures PatIn(q, ci) && q.root !in cfg.locals
    {
      if q in ctx.dirty {
        var p :| p in ctx.writes && q == PatOf(p);
        PatInUniverse(p, ctx);
      }
    }
  }

  lemma {:induction false} LiteralKeysOk(p: Path, ctx: Ctx, raw: bool)
    requires LiteralKeys(p)
    ensures KeysOk(p, ctx, raw)
    decreases p
  {
    if !p.Var? { LiteralKeysOk(p.base, ctx, raw); }
  }

  lemma {:induction false} LiteralKeySame(p: Path, a: seq<Row>, b: seq<Row>)
    requires LiteralKeys(p)
    ensures KeyOf(p, a) == KeyOf(p, b)
    decreases p
  {
    if !p.Var? { LiteralKeySame(p.base, a, b); }
  }

  lemma {:induction false} LiteralKeyIn(k: Expr, p: Path)
    requires LiteralKeys(p) && IsKeyIn(k, p)
    ensures k.Lit?
    decreases p
  {
    match p
    case Field(b, _) => LiteralKeyIn(k, b);
    case Index(b, key) => if key != k { LiteralKeyIn(k, b); }
  }

  /** The environment a frame's arms start with. */
  lemma StartEnvOk(cfg: Cfg, ci: Ctx, sc: Scan, pre: PreOut, env: Env, n1: nat)
    requires ScanOk(ci.writes, sc, n1)
    requires pre.n == sc.keys.n + |sc.writes| && |pre.pres| == |sc.writes|
    requires forall i | 0 <= i < |sc.writes| :: pre.pres[i].key == sc.writes[i].key && pre.pres[i].tmp == sc.keys.n + i
    requires env == Env(sc.writes, sc.keys.rows, PreMap(pre.pres), PreMap(pre.pres), [], {})
    ensures EnvOk(ci, env, pre.n)
    ensures forall p | p in ci.writes :: KeyOf(p, env.rows) in env.pre && env.IsPre(KeyOf(p, env.rows))
    ensures forall k | k in env.pre :: exists p | p in pre.pres :: p.key == k && p.tmp == env.pre[k]
  {
    PreMapIs(pre.pres);
    forall p | p in ci.writes
      ensures KeyOf(p, env.rows) in env.pre
    {
      var l := HasKeyLoc(sc.writes, KeyOf(p, env.rows));
      var i :| 0 <= i < |sc.writes| && sc.writes[i] == l;
      assert pre.pres[i].key == l.key;
    }
    forall k | k in env.pre
      ensures env.pre[k] < pre.n
    {
      var p :| p in pre.pres && p.key == k && p.tmp == env.pre[k];
    }
  }

  /** A pre-value that something reads has been assigned when the arms start. */
  lemma StartReady(ci: Ctx, pres: seq<PreVal>, env: Env, n: nat, used: set<LocKey>, temps: map<nat, int>)
    requires EnvOk(ci, env, n)
    requires forall p | p in ci.writes :: KeyOf(p, env.rows) in env.pre && env.IsPre(KeyOf(p, env.rows))
    requires forall k | k in env.pre :: exists p | p in pres :: p.key == k && p.tmp == env.pre[k]
    requires forall r | r in env.rows :: r.tmp in temps
    requires forall p | p in pres && p.key in used :: p.tmp in temps
    ensures Ready(ci, env, used, temps)
  {
    forall p | p in ci.writes && Valued(env, used, KeyOf(p, env.rows))
      ensures KeyOf(p, env.rows) in env.versions && env.versions[KeyOf(p, env.rows)] in temps
    {
      var k := KeyOf(p, env.rows);
      var pv :| pv in pres && pv.key == k && pv.tmp == env.pre[k];
    }
  }

  lemma StartFollows(m: Meaning, ci: Ctx, pres: seq<PreVal>, env: Env, n: nat, used: set<LocKey>, moved: set<Cell>,
                     want: map<LocKey, int>, src: Cells, st: State)
    requires EnvOk(ci, env, n)
    requires forall p | p in ci.writes :: KeyOf(p, env.rows) in env.pre && env.IsPre(KeyOf(p, env.rows))
    requires forall k | k in env.pre :: exists p | p in pres :: p.key == k && p.tmp == env.pre[k]
    requires RowsHold(m, env, src, st.temps)
    requires forall p | p in pres && p.key in used :: p.key in want && p.tmp in st.temps && st.temps[p.tmp] == want[p.key]
    requires forall p | p in ci.writes && KeyOf(p, env.rows) in want :: want[KeyOf(p, env.rows)] == Load(src, SourceCell(m, p, src))
    requires forall x: Cell :: !Under(m, ci.dead, x) && x !in moved ==> Load(src, x) == Load(st.cells, x)
    ensures Follows(m, ci, env, used, moved, src, st)
  {
    forall p | p in ci.writes && Valued(env, used, KeyOf(p, env.rows)) && KeyOf(p, env.rows) in env.versions
      ensures TempOf(st.temps, env.versions[KeyOf(p, env.rows)]) == Load(src, SourceCell(m, p, src))
    {
      var k := KeyOf(p, env.rows);
      var pv :| pv in pres && pv.key == k && pv.tmp == env.pre[k];
    }
  }
}
