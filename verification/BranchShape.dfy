/** What rendering leaves alone, and how the temporaries it allocates are numbered. */
module BranchShape {
  import opened Wrappers
  import opened BranchAst
  import opened BranchLowering
  import opened BranchAdmission

  /** `b` continues `a`: the same frame, more versions, fresh temporaries from `n` up to `n2`. */
  ghost predicate Extends(a: Env, n: nat, b: Env, n2: nat) {
    && n <= n2
    && b.writes == a.writes && b.rows == a.rows && b.pre == a.pre
    && a.decls <= b.decls
    && (forall i | |a.decls| <= i < |b.decls| :: n <= b.decls[i] < n2)
    && (forall i, j | |a.decls| <= i < j < |b.decls| :: b.decls[i] < b.decls[j])
    && a.used <= b.used
    && a.versions.Keys <= b.versions.Keys
    && (forall k | k in b.versions :: (k in a.versions && b.versions[k] == a.versions[k]) || n <= b.versions[k] < n2)
  }

  /** The temporaries a continuation declares. */
  function NewDecls(a: Env, b: Env): set<nat>
    requires |a.decls| <= |b.decls|
  {
    set t | t in b.decls[|a.decls|..]
  }

  lemma ExtendsTrans(a: Env, n: nat, b: Env, n1: nat, c: Env, n2: nat)
    requires Extends(a, n, b, n1) && Extends(b, n1, c, n2)
    ensures Extends(a, n, c, n2)
    ensures NewDecls(a, c) == NewDecls(a, b) + NewDecls(b, c)
    ensures c.decls[..|b.decls|] == b.decls
  {
    assert c.decls[|a.decls|..] == b.decls[|a.decls|..] + c.decls[|b.decls|..];
    assert c.decls[..|b.decls|] == b.decls;
  }

  ghost predicate OuterExtends(a: Option<Env>, n: nat, b: Option<Env>, n2: nat) {
    n <= n2 && (a.Some? <==> b.Some?) && (a.Some? ==> Extends(a.value, n, b.value, n2))
  }

  lemma {:induction false} AllocPreShape(writes: seq<Loc>, outer: Option<Env>, n: nat)
    ensures var r := AllocPre(writes, outer, n); OuterExtends(outer, n, r.outer, n)
    ensures outer.Some? ==> var o := AllocPre(writes, outer, n).outer.value;
                            o.decls == outer.value.decls && o.versions == outer.value.versions
    decreases writes
  {
    if writes != [] {
      var l := writes[0];
      var outer1 := if outer.Some? then Some(outer.value.Use(outer.value.Uses(l.key))) else None;
      AllocPreShape(writes[1..], outer1, n + 1);
    }
  }

  lemma {:induction false} MergeShape(writes: seq<Loc>, cond: nat, pre: map<LocKey, nat>, thn: map<LocKey, nat>,
                                      els: map<LocKey, nat>, outer: Option<Env>, n: nat, used: set<LocKey>)
    requires forall l | l in writes :: l.key in pre
    ensures var r := MergeAll(writes, cond, pre, thn, els, outer, n, used);
            OuterExtends(outer, n, r.outer, r.n) && used <= r.used
    decreases writes
  {
    if writes != [] {
      var l := writes[0];
      var tv := VersionOr(thn, l.key, pre[l.key]);
      var ev := VersionOr(els, l.key, pre[l.key]);
      var used1 := if tv == pre[l.key] || ev == pre[l.key] then used + {l.key} else used;
      if outer.Some? && HasKey(outer.value.writes, l.key) {
        var o1 := outer.value.Bind(l.key, n);
        assert Extends(outer.value, n, o1, n + 1);
        MergeShape(writes[1..], cond, pre, thn, els, Some(o1), n + 1, used1);
        var r := MergeAll(writes[1..], cond, pre, thn, els, Some(o1), n + 1, used1);
        ExtendsTrans(outer.value, n, o1, n + 1, r.outer.value, r.n);
      } else {
        MergeShape(writes[1..], cond, pre, thn, els, outer, n, used1);
      }
    }
  }

  lemma {:induction false} StmtShape(cfg: Cfg, s: Stmt, env: Env, n: nat)
    requires RenderStmt(cfg, s, env, n).Success?
    ensures var o := RenderStmt(cfg, s, env, n).value; Extends(env, n, o.env, o.n)
    decreases s, 0
  {
    match s
    case Block(b) => AllShape(cfg, b, env, n);
    case Unchecked(b) => AllShape(cfg, b, env, n);
    case If(_, _, _) => FrameShape(cfg, s, Some(env), n);
    case _ =>
  }

  lemma {:induction false} AllShape(cfg: Cfg, ss: seq<Stmt>, env: Env, n: nat)
    requires RenderAll(cfg, ss, env, n).Success?
    ensures var o := RenderAll(cfg, ss, env, n).value; Extends(env, n, o.env, o.n)
    decreases ss
  {
    if ss != [] {
      StmtShape(cfg, ss[0], env, n);
      var o := RenderStmt(cfg, ss[0], env, n).value;
      AllShape(cfg, ss[1..], o.env, o.n);
      var r := RenderAll(cfg, ss[1..], o.env, o.n).value;
      ExtendsTrans(env, n, o.env, o.n, r.env, r.n);
    }
  }

  lemma {:induction false} ArmShape(cfg: Cfg, s: Stmt, env: Env, n: nat)
    requires RenderArm(cfg, s, env, n).Success?
    ensures var o := RenderArm(cfg, s, env, n).value; Extends(env, n, o.env, o.n)
    decreases s, 1
  {
    if s.Block? { AllShape(cfg, s.body, env, n); } else { StmtShape(cfg, s, env, n); }
  }

  /** The parts of the general form. */
  datatype Parts = Parts(cond: Rendered, sc: Scan, pre: PreOut, env: Env, thn: Out, els: Option<Out>, mg: MergeOut)

  function PartsOf(cfg: Cfg, s: Stmt, outer: Option<Env>, n: nat): Parts
    requires s.If? && RenderGeneral(cfg, s, outer, n).Success?
  {
    var cond := RenderIn(cfg, s.cond, outer).value;
    var sc := ScanFrame(cfg, s, n + 1).value;
    var pre := AllocPre(sc.writes, UseIn(outer, cond.used), sc.keys.n);
    var preMap := PreMap(pre.pres);
    var env := Env(sc.writes, sc.keys.rows, preMap, preMap, [], {});
    var thn := RenderArm(cfg, s.thn, env, pre.n).value;
    var els := if s.els.Some? then Some(RenderArm(cfg, s.els.value, env.Use(thn.env.used), thn.n).value) else None;
    var last := if els.Some? then els.value else thn;
    var elsVersions := if els.Some? then els.value.env.versions else map[];
    Parts(cond, sc, pre, env, thn, els,
          MergeAll(sc.writes, n, preMap, thn.env.versions, elsVersions, pre.outer, last.n, last.env.used))
  }

  lemma {:induction false} ScanNumbers(cfg: Cfg, s: Stmt, sc: Scan)
    requires ScanBranch(cfg, s, sc).Success?
    ensures sc.keys.n <= ScanBranch(cfg, s, sc).value.keys.n
    decreases s
  {
    match s
    case Assign(p, ty, _) => HoistNumbers(p, sc.keys);
    case Compound(p, ty, _, _) => HoistNumbers(p, sc.keys);
    case IncDec(p, ty, _) => HoistNumbers(p, sc.keys);
    case Block(b) => ScanAllNumbers(cfg, b, sc);
    case Unchecked(b) => ScanAllNumbers(cfg, b, sc);
    case If(_, t, e) =>
      ScanNumbers(cfg, t, sc);
      if e.Some? { ScanNumbers(cfg, e.value, ScanBranch(cfg, t, sc).value); }
    case _ =>
  }

  lemma {:induction false} ScanAllNumbers(cfg: Cfg, ss: seq<Stmt>, sc: Scan)
    requires ScanAll(cfg, ss, sc).Success?
    ensures sc.keys.n <= ScanAll(cfg, ss, sc).value.keys.n
    decreases ss
  {
    if ss != [] {
      ScanNumbers(cfg, ss[0], sc);
      ScanAllNumbers(cfg, ss[1..], ScanBranch(cfg, ss[0], sc).value);
    }
  }

  lemma {:induction false} HoistNumbers(p: Path, ks: Keys)
    ensures HoistKeys(p, ks).Success? ==> ks.n <= HoistKeys(p, ks).value.n
    decreases p
  {
    if !p.Var? { HoistNumbers(p.base, ks); }
  }

  lemma {:induction false} ScanFrameNumbers(cfg: Cfg, s: Stmt, n: nat)
    requires s.If? && ScanFrame(cfg, s, n).Success?
    ensures n <= ScanFrame(cfg, s, n).value.keys.n
  {
    var sc0 := Scan([], Keys([], n));
    ScanNumbers(cfg, s.thn, sc0);
    if s.els.Some? { ScanNumbers(cfg, s.els.value, ScanBranch(cfg, s.thn, sc0).value); }
  }

  lemma {:induction false} FrameShape(cfg: Cfg, s: Stmt, outer: Option<Env>, n: nat)
    requires s.If? && RenderFrame(cfg, s, outer, n).Success?
    ensures var f := RenderFrame(cfg, s, outer, n).value; OuterExtends(outer, n, f.outer, f.n)
    decreases s, 0, 1
  {
    if TryDirect(cfg, s, outer, n).value.None? {
      GeneralShape(cfg, s, outer, n);
    }
  }

  /** The general form allocates, in order: the condition, the keys, the pre-values,
      the versions of each arm, and the enclosing frame's versions. */
  lemma {:induction false} GeneralShape(cfg: Cfg, s: Stmt, outer: Option<Env>, n: nat)
    requires s.If? && RenderGeneral(cfg, s, outer, n).Success?
    ensures var f := RenderGeneral(cfg, s, outer, n).value; OuterExtends(outer, n, f.outer, f.n)
    ensures var q := PartsOf(cfg, s, outer, n);
            && Extends(q.env, q.pre.n, q.thn.env, q.thn.n)
            && (q.els.Some? ==> Extends(q.env.Use(q.thn.env.used), q.thn.n, q.els.value.env, q.els.value.n))
            && n < q.sc.keys.n <= q.pre.n
            && OuterExtends(outer, if q.els.Some? then q.els.value.n else q.thn.n, q.mg.outer, q.mg.n)
            && (if q.els.Some? then q.els.value.env.used else q.thn.env.used) <= q.mg.used
            && (outer.Some? ==> q.pre.outer.Some? && q.pre.outer.value.decls == outer.value.decls
                                && q.pre.outer.value.versions == outer.value.versions
                                && outer.value.used + q.cond.used <= q.pre.outer.value.used <= q.mg.outer.value.used)
    decreases s, 0, 0
  {
    var q := PartsOf(cfg, s, outer, n);
    ScanFrameNumbers(cfg, s, n + 1);
    AllocPreShape(q.sc.writes, UseIn(outer, q.cond.used), q.sc.keys.n);
    ArmShape(cfg, s.thn, q.env, q.pre.n);
    if s.els.Some? { ArmShape(cfg, s.els.value, q.env.Use(q.thn.env.used), q.thn.n); }
    var last := if q.els.Some? then q.els.value else q.thn;
    MergeShape(q.sc.writes, n, q.env.pre, q.thn.env.versions, if q.els.Some? then q.els.value.env.versions else map[],
               q.pre.outer, last.n, last.env.used);
    if outer.Some? {
      assert NewDecls(outer.value, q.pre.outer.value) == {};
    }
  }

  /** A checked statement only moves the arm's own bookkeeping. */
  ghost predicate SameFrame(a: Ctx, b: Ctx) {
    b.roots == a.roots && b.texts == a.texts && b.writes == a.writes && b.stale == a.stale && a.dirty <= b.dirty
  }

  lemma {:induction false} CheckShape(cfg: Cfg, s: Stmt, ctx: Ctx)
    requires Check(cfg, s, ctx).Some?
    ensures SameFrame(ctx, Check(cfg, s, ctx).value)
    ensures Pats(WritePaths(cfg, s)) <= Check(cfg, s, ctx).value.dirty <= ctx.dirty + Pats(WritePaths(cfg, s))
    ensures Check(cfg, s, ctx).value.dead <= ctx.dead + Decls(s)
    ensures Check(cfg, s, ctx).value.live <= ctx.live + Decls(s)
    ensures ctx.live !! ctx.dead ==> Check(cfg, s, ctx).value.live !! Check(cfg, s, ctx).value.dead
    decreases s
  {
    match s
    case Block(b) => CheckAllShape(cfg, b, ctx);
    case Unchecked(b) => CheckAllShape(cfg, b, ctx);
    case _ =>
  }

  lemma {:induction false} CheckAllShape(cfg: Cfg, ss: seq<Stmt>, ctx: Ctx)
    requires CheckAll(cfg, ss, ctx).Some?
    ensures SameFrame(ctx, CheckAll(cfg, ss, ctx).value)
    ensures Pats(WritePathsAll(cfg, ss)) <= CheckAll(cfg, ss, ctx).value.dirty <= ctx.dirty + Pats(WritePathsAll(cfg, ss))
    ensures CheckAll(cfg, ss, ctx).value.dead <= ctx.dead + DeclsAll(ss)
    ensures CheckAll(cfg, ss, ctx).value.live <= ctx.live + DeclsAll(ss)
    ensures ctx.live !! ctx.dead ==> CheckAll(cfg, ss, ctx).value.live !! CheckAll(cfg, ss, ctx).value.dead
    decreases ss
  {
    if ss != [] {
      CheckShape(cfg, ss[0], ctx);
      CheckAllShape(cfg, ss[1..], Check(cfg, ss[0], ctx).value);
    }
  }
}
