/** The merges at the end of a frame. */
module BranchMerge {
  import opened Wrappers
  import opened BranchAst
  import opened BranchLowering
  import opened BranchAdmission
  import opened BranchCells
  import opened BranchScan
  import opened BranchShape
  import opened BranchRelation
  import opened BranchStep
  import opened BranchSimple
  import opened BranchFrame
  import opened BranchPrologue
  import opened BranchSim
  import opened BranchArms
  import opened BranchNested

  function ElsVersions(q: Parts): map<LocKey, nat> {
    if q.els.Some? then q.els.value.env.versions else map[]
  }

  /** One arm's version of a location, or the pre-value when the arm left it alone. */
  lemma ArmVersion(m: Meaning, cfg: Cfg, ci: Ctx, p: Path, env0: Env, env: Env, used: set<LocKey>, moved: set<Cell>, out: set<VarId>,
                   src: Cells, src2: Cells, b: State)
    requires p in ci.writes && KeyOf(p, env.rows) in env0.pre && env.pre == env0.pre && KeyOf(p, env.rows) in env.versions
    requires ArmHolds(m, ci, env, used, moved, out, src, src2, b)
    requires SourceCell(m, p, src2) == SourceCell(m, p, src)
    requires VersionOr(env.versions, KeyOf(p, env.rows), env0.pre[KeyOf(p, env.rows)]) == env0.pre[KeyOf(p, env.rows)] ==> KeyOf(p, env.rows) in used
    ensures var t := VersionOr(env.versions, KeyOf(p, env.rows), env0.pre[KeyOf(p, env.rows)]);
            t in b.temps && b.temps[t] == Load(src2, SourceCell(m, p, src))
  {
    assert Valued(env, used, KeyOf(p, env.rows));
  }

  lemma ArmCell(m: Meaning, cfg: Cfg, ci: Ctx, s: Stmt, p: Path, src: Cells)
    requires MeaningOk(m, ci) && CtxOk(cfg, ci) && WritePaths(cfg, s) <= ci.writes && Decls(s) <= cfg.locals && p in ci.writes
    ensures SourceCell(m, p, Exec(m, s, src)) == SourceCell(m, p, src)
  {
    SourceOnly(m, cfg, ci, s, src);
    StableCell(m, cfg, ci, p, src, Exec(m, s, src));
  }

  /** What the merges need of the parts of a frame. */
  ghost predicate Mergeable(cfg: Cfg, ci: Ctx, s: Stmt, q: Parts, n: nat) {
    && s.If? && (s.els.Some? <==> q.els.Some?)
    && ci.writes == WritePaths(cfg, s) && Decls(s) <= cfg.locals && CtxOk(cfg, ci)
    && WritesOk(ci.writes, q.sc.writes, q.sc.keys.rows) && KeysKnown(ci.writes, q.sc.writes, q.sc.keys.rows)
    && q.env.writes == q.sc.writes && q.env.rows == q.sc.keys.rows && q.env.versions == q.env.pre
    && (forall l | l in q.sc.writes :: l.key in q.env.pre)
    && q.thn.env.rows == q.env.rows && q.thn.env.pre == q.env.pre && q.env.versions.Keys <= q.thn.env.versions.Keys
    && (q.els.Some? ==> q.els.value.env.rows == q.env.rows && q.els.value.env.pre == q.env.pre
                        && q.env.versions.Keys <= q.els.value.env.versions.Keys)
    && (forall l | l in q.sc.writes ::
          (VersionOr(q.thn.env.versions, l.key, q.env.pre[l.key]) == q.env.pre[l.key]
           || VersionOr(ElsVersions(q), l.key, q.env.pre[l.key]) == q.env.pre[l.key]) ==> l.key in q.mg.used)
  }

  ghost predicate Ran(m: Meaning, ci: Ctx, s: Stmt, q: Parts, emitted: set<LocKey>, moved: set<Cell>, src: Cells, b: State)
    requires s.If? && (s.els.Some? <==> q.els.Some?)
  {
    && ArmHolds(m, ci, q.thn.env, emitted, moved, ci.dead, src, Exec(m, s.thn, src), b)
    && (s.els.Some? ==> ArmHolds(m, ci, q.els.value.env, emitted, moved, ci.dead, src, Exec(m, s.els.value, src), b))
    && (s.els.None? ==> ArmHolds(m, ci, q.env, emitted, moved, ci.dead, src, src, b))
  }

  lemma MergeAt(m: Meaning, cfg: Cfg, ci: Ctx, s: Stmt, q: Parts, n: nat, moved: set<Cell>, src: Cells, b: State, l: Loc)
    returns (p: Path)
    requires MeaningOk(m, ci) && Mergeable(cfg, ci, s, q, n) && Ran(m, ci, s, q, q.mg.used, moved, src, b)
    requires n in b.temps && b.temps[n] == ValueOf(m, s.cond, src, map[]) && l in q.sc.writes
    ensures SelectReady(l, n, q.env.pre, q.thn.env.versions, ElsVersions(q), b.temps,
                        AtOf(m, ci.writes, q.sc.writes, q.sc.keys.rows, src), Exec(m, s, src))
    ensures p in ci.writes && l.key == KeyOf(p, q.sc.keys.rows) && l.display == Display(p, q.sc.keys.rows)
    ensures l.key in AtOf(m, ci.writes, q.sc.writes, q.sc.keys.rows, src)
    ensures AtOf(m, ci.writes, q.sc.writes, q.sc.keys.rows, src)[l.key] == SourceCell(m, p, src)
  {
    p := AtOfLoc(m, ci.writes, q.sc.writes, q.sc.keys.rows, src, l);
    ArmCell(m, cfg, ci, s.thn, p, src);
    ArmVersion(m, cfg, ci, p, q.env, q.thn.env, q.mg.used, moved, ci.dead, src, Exec(m, s.thn, src), b);
    if s.els.Some? {
      ArmCell(m, cfg, ci, s.els.value, p, src);
      ArmVersion(m, cfg, ci, p, q.env, q.els.value.env, q.mg.used, moved, ci.dead, src, Exec(m, s.els.value, src), b);
    } else {
      ArmVersion(m, cfg, ci, p, q.env, q.env, q.mg.used, moved, ci.dead, src, src, b);
    }
  }

  /** Cells the source statement does not write keep the emitted state's value. */
  lemma ElsewhereHolds(m: Meaning, cfg: Cfg, ci: Ctx, s: Stmt, q: Parts, n: nat, moved: set<Cell>, src: Cells, b: State, x: Cell)
    requires MeaningOk(m, ci) && Mergeable(cfg, ci, s, q, n) && Ran(m, ci, s, q, q.mg.used, moved, src, b)
    requires !Under(m, ci.dead, x) && x !in moved && (forall p | p in ci.writes :: x != SourceCell(m, p, src))
    ensures Load(Exec(m, s, src), x) == Load(b.cells, x)
  {
    forall p | p in ci.writes
      ensures SourceCell(m, p, Exec(m, s.thn, src)) == SourceCell(m, p, src)
      ensures s.els.Some? ==> SourceCell(m, p, Exec(m, s.els.value, src)) == SourceCell(m, p, src)
    {
      ArmCell(m, cfg, ci, s.thn, p, src);
      if s.els.Some? { ArmCell(m, cfg, ci, s.els.value, p, src); }
    }
  }
}
