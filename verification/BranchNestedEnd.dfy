/** From the merges of a nested frame back to the enclosing arm. */
module BranchNestedEnd {
  import opened Wrappers
  import opened BranchAst
  import opened BranchLowering
  import opened BranchAdmission
  import opened BranchCells
  import opened BranchScan
  import opened BranchShape
  import opened BranchRelation
  import opened BranchStep
  import opened BranchSimple
  import opened BranchFrame
  import opened BranchPrologue
  import opened BranchSim
  import opened BranchArms
  import opened BranchNested
  import opened BranchMerge

  /** How a nested frame's write set sits in the enclosing environment. */
  ghost predicate Nested(ctx: Ctx, ws: set<Path>, env: Env, n: nat, writes: seq<Loc>, rows: seq<Row>) {
    && EnvOk(ctx, env, n) && ws <= ctx.writes && (forall p | p in ws :: LiteralKeys(p))
    && WritesOk(ws, writes, rows)
  }

  lemma NestedKey(ctx: Ctx, ws: set<Path>, env: Env, n: nat, writes: seq<Loc>, rows: seq<Row>, p: Path)
    requires Nested(ctx, ws, env, n, writes, rows) && p in ctx.writes
    ensures HasKey(writes, KeyOf(p, env.rows)) <==> p in ws
    ensures p in ws ==> KeyOf(p, rows) == KeyOf(p, env.rows)
  {
    if p in ws {
      LiteralKeySame(p, rows, env.rows);
      assert HasKey(writes, KeyOf(p, rows));
    } else if HasKey(writes, KeyOf(p, env.rows)) {
      var l := HasKeyLoc(writes, KeyOf(p, env.rows));
      assert Stands(ws, l, rows);
      var q :| q in ws && l.key == KeyOf(q, rows) && l.display == Display(q, rows);
      LiteralKeySame(q, rows, env.rows);
      KeyInjective(q, p, env.rows);
    }
  }

  lemma NestedHasKeys(ctx: Ctx, ws: set<Path>, env: Env, n: nat, writes: seq<Loc>, rows: seq<Row>)
    requires Nested(ctx, ws, env, n, writes, rows)
    ensures forall l | l in writes :: HasKey(env.writes, l.key)
  {
    forall l | l in writes
      ensures HasKey(env.writes, l.key)
    {
      assert Stands(ws, l, rows);
      var q :| q in ws && l.key == KeyOf(q, rows) && l.display == Display(q, rows);
      LiteralKeySame(q, rows, env.rows);
    }
  }

  /** The enclosing environment after the merges: the nested frame's locations are
      bound to fresh versions from `lo` on, the others are as before. */
  ghost predicate Rebound(ctx: Ctx, ws: set<Path>, env: Env, env2: Env, lo: nat) {
    && env2.rows == env.rows && env2.writes == env.writes && env2.pre == env.pre
    && (forall p | p in ctx.writes :: KeyOf(p, env.rows) in env2.versions)
    && (forall p | p in ws :: KeyOf(p, env.rows) in env2.versions && lo <= env2.versions[KeyOf(p, env.rows)])
    && (forall p | p in ctx.writes && p !in ws && KeyOf(p, env.rows) in env.versions ::
          KeyOf(p, env.rows) in env2.versions && env2.versions[KeyOf(p, env.rows)] == env.versions[KeyOf(p, env.rows)])
  }

  lemma MergesRebind(ctx: Ctx, ws: set<Path>, env: Env, envp: Env, n: nat, lo: nat, writes: seq<Loc>, rows: seq<Row>, cond: nat,
                     pre: map<LocKey, nat>, thn: map<LocKey, nat>, els: map<LocKey, nat>, used: set<LocKey>, env2: Env)
    requires Nested(ctx, ws, env, n, writes, rows) && envp == env.(used := envp.used)
    requires forall l | l in writes :: l.key in pre
    requires MergeAll(writes, cond, pre, thn, els, Some(envp), lo, used).outer == Some(env2)
    ensures Rebound(ctx, ws, env, env2, lo)
  {
    NestedHasKeys(ctx, ws, env, n, writes, rows);
    MergeVersions(writes, cond, pre, thn, els, envp, lo, used);
    MergeShape(writes, cond, pre, thn, els, Some(envp), lo, used);
    forall p | p in ctx.writes
      ensures KeyOf(p, env.rows) in env2.versions
      ensures p in ws ==> lo <= env2.versions[KeyOf(p, env.rows)]
      ensures p !in ws ==> env2.versions[KeyOf(p, env.rows)] == env.versions[KeyOf(p, env.rows)]
    {
      NestedKey(ctx, ws, env, n, writes, rows, p);
      if p in ws {
        var l := HasKeyLoc(writes, KeyOf(p, env.rows));
      }
    }
  }

  lemma ReboundPre(ctx: Ctx, ws: set<Path>, env: Env, env2: Env, n: nat, lo: nat, p: Path)
    requires EnvOk(ctx, env, n) && Rebound(ctx, ws, env, env2, lo) && n <= lo && p in ctx.writes
    ensures p in ws ==> !env2.IsPre(KeyOf(p, env.rows))
    ensures p !in ws ==> env2.IsPre(KeyOf(p, env.rows)) == env.IsPre(KeyOf(p, env.rows))
  {
  }

  lemma LeftCtxOk(cfg: Cfg, ctx: Ctx, s: Stmt)
    requires CtxOk(cfg, ctx) && s.If? && Decls(s) <= cfg.locals && WritePaths(cfg, s) <= ctx.writes
    ensures CtxOk(cfg, Left(cfg, ctx, s))
  {
    var ctx2 := Left(cfg, ctx, s);
    assert StableCtx(cfg, ctx2) == StableCtx(cfg, ctx);
    forall p | p in ctx2.writes
      ensures RootOf(p) !in cfg.locals && InUniverse(p, ctx2) && KeysOk(p, StableCtx(cfg, ctx2), true)
    {
      SameUniverse(p, ctx, ctx2);
    }
    assert forall q | q in ctx2.stale :: PatIn(q, ctx) ==> PatIn(q, ctx2);
  }

  lemma ReboundEnvOk(cfg: Cfg, ctx: Ctx, s: Stmt, env: Env, env2: Env, n: nat, lo: nat, n2: nat)
    requires s.If? && EnvOk(ctx, env, n) && WritePaths(cfg, s) <= ctx.writes && n <= lo <= n2
    requires Rebound(ctx, WritePaths(cfg, s), env, env2, lo) && Extends(env, n, env2, n2)
    ensures EnvOk(Left(cfg, ctx, s), env2, n2)
  {
    var ctx2 := Left(cfg, ctx, s);
    forall p | p in ctx2.writes && !env2.IsPre(KeyOf(p, env2.rows))
      ensures PatOf(p) in ctx2.dirty
    {
      ReboundPre(ctx, WritePaths(cfg, s), env, env2, n, lo, p);
      if p in WritePaths(cfg, s) {
        assert PatOf(p) in Pats(WritePaths(cfg, s));
      }
    }
  }

  lemma ReboundReady(cfg: Cfg, ctx: Ctx, s: Stmt, env: Env, env2: Env, n: nat, lo: nat, emitted: set<LocKey>,
                     t: map<nat, int>, u: map<nat, int>)
    requires s.If? && EnvOk(ctx, env, n) && WritePaths(cfg, s) <= ctx.writes && n <= lo
    requires Rebound(ctx, WritePaths(cfg, s), env, env2, lo) && Ready(ctx, env, emitted, t)
    requires forall i | i in t :: i in u
    requires forall p | p in WritePaths(cfg, s) :: env2.versions[KeyOf(p, env.rows)] in u
    ensures Ready(Left(cfg, ctx, s), env2, emitted, u)
  {
    forall p | p in ctx.writes && Valued(env2, emitted, KeyOf(p, env2.rows))
      ensures KeyOf(p, env2.rows) in env2.versions && env2.versions[KeyOf(p, env2.rows)] in u
    {
      ReboundPre(ctx, WritePaths(cfg, s), env, env2, n, lo, p);
      if p !in WritePaths(cfg, s) { assert Valued(env, emitted, KeyOf(p, env.rows)); }
    }
  }

  lemma ReboundVersions(m: Meaning, cfg: Cfg, ctx: Ctx, s: Stmt, env: Env, env2: Env, n: nat, lo: nat, emitted: set<LocKey>,
                        src: Cells, t: map<nat, int>, u: map<nat, int>)
    requires s.If? && MeaningOk(m, ctx) && CtxOk(cfg, ctx) && EnvOk(ctx, env, n) && n <= lo
    requires WritePaths(cfg, s) <= ctx.writes && Decls(s) <= cfg.locals
    requires Rebound(ctx, WritePaths(cfg, s), env, env2, lo) && Ready(ctx, env, emitted, t)
    requires VersionsHold(m, ctx, env, emitted, src, t)
    requires forall i | i in t :: i in u && u[i] == t[i]
    requires forall p | p in WritePaths(cfg, s) ::
               && env2.versions[KeyOf(p, env.rows)] in u
               && u[env2.versions[KeyOf(p, env.rows)]] == Load(Exec(m, s, src), SourceCell(m, p, src))
    ensures VersionsHold(m, Left(cfg, ctx, s), env2, emitted, Exec(m, s, src), u)
  {
    var ws, src2 := WritePaths(cfg, s), Exec(m, s, src);
    SourceOnly(m, cfg, ctx, s, src);
    forall p | p in ctx.writes && Valued(env2, emitted, KeyOf(p, env.rows)) && KeyOf(p, env.rows) in env2.versions
      ensures TempOf(u, env2.versions[KeyOf(p, env.rows)]) == Load(src2, SourceCell(m, p, src2))
    {
      StableCell(m, cfg, ctx, p, src, src2);
      ReboundPre(ctx, ws, env, env2, n, lo, p);
      if p !in ws {
        assert Valued(env, emitted, KeyOf(p, env.rows));
        UnwrittenKept(m, cfg, ctx, s, p, src);
      }
    }
  }

  lemma UnwrittenKept(m: Meaning, cfg: Cfg, ctx: Ctx, s: Stmt, p: Path, src: Cells)
    requires MeaningOk(m, ctx) && CtxOk(cfg, ctx) && PairwiseApart(ctx.writes)
    requires WritePaths(cfg, s) <= ctx.writes && Decls(s) <= cfg.locals && p in ctx.writes && p !in WritePaths(cfg, s)
    ensures Load(Exec(m, s, src), SourceCell(m, p, src)) == Load(src, SourceCell(m, p, src))
  {
    SourceOnly(m, cfg, ctx, s, src);
    var x := SourceCell(m, p, src);
    forall q | q in WritePaths(cfg, s)
      ensures x != SourceCell(m, q, src)
    {
      SeparateCells(m, cfg, ctx, p, q, src);
    }
    forall v | v in cfg.locals
      ensures !(m.place(v) <= x)
    {
      LocalCells(m, cfg, ctx, v, p, src);
    }
    assert !Under(m, cfg.locals, x);
  }

  lemma ReboundCells(m: Meaning, cfg: Cfg, ctx: Ctx, s: Stmt, env: Env, env2: Env, n: nat, lo: nat, moved: set<Cell>,
                     src: Cells, cells: Cells)
    requires s.If? && MeaningOk(m, ctx) && CtxOk(cfg, ctx) && EnvOk(ctx, env, n) && n <= lo
    requires WritePaths(cfg, s) <= ctx.writes && Decls(s) <= cfg.locals
    requires Rebound(ctx, WritePaths(cfg, s), env, env2, lo)
    requires forall x: Cell :: !Under(m, ctx.dead + Decls(s), x) && x !in MovedIn(m, ctx, env, moved, src)
                               && (forall p | p in WritePaths(cfg, s) :: x != SourceCell(m, p, src)) ==>
                                 Load(Exec(m, s, src), x) == Load(cells, x)
    ensures CellsHold(m, Left(cfg, ctx, s), env2, moved, Exec(m, s, src), cells)
  {
    var ws, src2, ctx2 := WritePaths(cfg, s), Exec(m, s, src), Left(cfg, ctx, s);
    SourceOnly(m, cfg, ctx, s, src);
    forall p | p in ctx.writes && !env2.IsPre(KeyOf(p, env.rows))
      ensures Reassigned(m, ctx2, env2, src2, SourceCell(m, p, src))
    {
      StableCell(m, cfg, ctx, p, src, src2);
      assert p in ctx2.writes && !env2.IsPre(KeyOf(p, env2.rows)) && SourceCell(m, p, src) == SourceCell(m, p, src2);
    }
    forall p | p in ctx.writes && (p in ws || !env.IsPre(KeyOf(p, env.rows)))
      ensures Reassigned(m, ctx2, env2, src2, SourceCell(m, p, src))
    {
      ReboundPre(ctx, ws, env, env2, n, lo, p);
    }
    forall x: Cell | !Under(m, ctx2.dead, x) && x !in moved && !Reassigned(m, ctx2, env2, src2, x)
      ensures Load(src2, x) == Load(cells, x)
    {
      assert x !in MovedIn(m, ctx, env, moved, src);
    }
  }
}
