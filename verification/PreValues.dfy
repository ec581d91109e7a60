/**
 The checker and the lowerer agree on pre-values: what the lowering of an encrypted
 `if` reads before its arms is what the checker has made sure of.
 */
module PreValues {
  import opened Wrappers
  import opened BranchAst
  import opened BranchLowering
  import opened BranchAdmission
  import opened BranchScan
  import opened BranchShape
  import opened BranchFrame
  import opened BranchArms
  import D = DefiniteAssignment
  import F = DefiniteFrames
  import B = DefiniteBranches
  import S = DefiniteSound
  import R = DefiniteRuns

  /** Every variable an expression mentions. */
  function VarsOf(e: Expr): set<VarId>
    decreases e
  {
    match e
    case Lit(_) => {}
    case Tmp(_) => {}
    case Read(p) => VarsOfPath(p)
    case App(_, args) => VarsOfAll(args)
    case Select(b, y, n) => VarsOf(b) + VarsOf(y) + VarsOf(n)
  }

  function VarsOfAll(es: seq<Expr>): set<VarId>
    decreases es
  {
    if es == [] then {} else VarsOf(es[0]) + VarsOfAll(es[1..])
  }

  function VarsOfPath(p: Path): set<VarId>
    decreases p
  {
    match p
    case Var(v) => {v}
    case Field(b, _) => VarsOfPath(b)
    case Index(b, k) => VarsOfPath(b) + VarsOf(k)
  }

  /** How the checker sees the reads of an expression: any split into checked uses and others. */
  type Split = Expr -> set<VarId>

  function Seen(split: Split, e: Expr): D.Expr {
    D.Expr(VarsOf(e) - split(e), VarsOf(e) * split(e))
  }

  /** The checker's view of a statement of an arm; only `slots` are tracked locals. */
  function View(slots: set<VarId>, split: Split, s: Stmt): D.Stmt
    decreases s
  {
    match s
    case Assign(p, _, e) => if p.Var? && p.v in slots then D.Assign(p.v, Seen(split, e)) else D.Store(Seen(split, e))
    case Compound(p, _, _, e) => if p.Var? && p.v in slots then D.Compound(p.v, Seen(split, e)) else D.Store(Seen(split, e))
    case IncDec(p, _, _) => if p.Var? && p.v in slots then D.Compound(p.v, D.Expr({}, {})) else D.Store(D.Expr({}, {}))
    case Decl(v, init) => D.Decl(v, if init.Some? then Some(Seen(split, init.value)) else None)
    case ExprStmt(e) => D.ExprStmt(Seen(split, e))
    case Block(b) => D.Block(ViewAll(slots, split, b))
    case Unchecked(b) => D.Block(ViewAll(slots, split, b))
    case If(c, t, e) =>
      D.EncryptedIf(Seen(split, c), View(slots, split, t), if e.Some? then Some(View(slots, split, e.value)) else None)
    case Other => D.Assembly
  }

  function ViewAll(slots: set<VarId>, split: Split, ss: seq<Stmt>): seq<D.Stmt>
    decreases ss
  {
    if ss == [] then [] else [View(slots, split, ss[0])] + ViewAll(slots, split, ss[1..])
  }

  predicate Flat(s: Stmt)
    decreases s
  {
    match s
    case Block(b) => AllFlat(b)
    case Unchecked(b) => AllFlat(b)
    case If(_, _, _) => false
    case _ => true
  }

  predicate AllFlat(ss: seq<Stmt>)
    decreases ss
  {
    ss == [] || (Flat(ss[0]) && AllFlat(ss[1..]))
  }

  function Key(v: VarId): LocKey {
    LocKey(v, [])
  }

  /** A pre-value of a whole variable is used only where the variable is mentioned. */
  lemma {:induction false} UsedIsRead(cfg: Cfg, e: Expr, env: Env, v: VarId)
    requires Render(cfg, e, env).Success? && Key(v) in Render(cfg, e, env).value.used
    ensures v in VarsOf(e) && env.IsPre(Key(v))
    decreases e
  {
    match e
    case Read(p) => UsedInPath(cfg, p, env, v);
    case App(_, args) => UsedInAll(cfg, args, env, v);
    case Select(b, y, n) =>
      if Key(v) in Render(cfg, b, env).value.used { UsedIsRead(cfg, b, env, v); }
      else if Key(v) in Render(cfg, y, env).value.used { UsedIsRead(cfg, y, env, v); }
      else { UsedIsRead(cfg, n, env, v); }
    case _ =>
  }

  lemma {:induction false} UsedInAll(cfg: Cfg, es: seq<Expr>, env: Env, v: VarId)
    requires RenderArgs(cfg, es, env).Success? && Key(v) in RenderArgs(cfg, es, env).value.used
    ensures v in VarsOfAll(es) && env.IsPre(Key(v))
    decreases es
  {
    if Key(v) in Render(cfg, es[0], env).value.used { UsedIsRead(cfg, es[0], env, v); } else { UsedInAll(cfg, es[1..], env, v); }
  }

  lemma {:induction false} RootMentioned(p: Path)
    ensures RootOf(p) in VarsOfPath(p)
    decreases p
  {
    if !p.Var? { RootMentioned(p.base); }
  }

  lemma {:induction false} UsedInPath(cfg: Cfg, p: Path, env: Env, v: VarId)
    requires RenderPath(cfg, p, env).Success? && Key(v) in RenderPath(cfg, p, env).value.used
    ensures v in VarsOfPath(p) && env.IsPre(Key(v))
    decreases p
  {
    if RootOf(p) !in cfg.locals && HasKey(env.writes, KeyOf(p, env.rows)) {
      RootMentioned(p);
    } else {
      match p
      case Field(b, _) => UsedInPath(cfg, b, env, v);
      case Index(b, k) =>
        if Key(v) in RenderPath(cfg, b, env).value.used { UsedInPath(cfg, b, env, v); } else { UsedIsRead(cfg, k, env, v); }
      case _ =>
    }
  }

  /** A slot from outside the branch: if the arm still has its pre-value, the checker
      does not count it as assigned. */
  ghost predicate Open(f: D.Fn, ck: D.Ck, env: Env, n: nat, v: VarId) {
    && D.InBranch(ck) && ck.branchWrites != [] && ck.branchReads != [] && !ck.terminated && ck.diags == {}
    && D.DepthOf(f, v) < ck.branchDepth
    && (Key(v) in env.pre ==> env.pre[Key(v)] < n)
    && (env.IsPre(Key(v)) ==> v !in ck.sure)
  }

  /** Uses of the pre-value between two points are in the checker's log of early reads. */
  ghost predicate UsesSeen(ck: D.Ck, env: Env, ck2: D.Ck, env2: Env, v: VarId) {
    && (Key(v) in env2.used && Key(v) !in env.used ==> v in D.TopSlots(ck2.branchReads) && Key(v) in env.pre)
    && D.TopSlots(ck.branchReads) <= D.TopSlots(ck2.branchReads)
    && env2.pre == env.pre
  }

  /** Typing an expression notes the read of a slot that is not assigned. */
  lemma ReadNoted(f: D.Fn, e: D.Expr, ck: D.Ck, v: VarId)
    requires D.InBranch(ck) && ck.branchReads != [] && D.DepthOf(f, v) < ck.branchDepth && v !in ck.sure && v in e.flows + e.uses
    ensures v in D.TopSlots(D.TypeExpr(f, e, ck).branchReads)
  {
    F.AddSlotsFrame(ck.branchReads, D.Outer(f, ck, e.flows + e.uses - ck.sure));
  }

  lemma Rendering(cfg: Cfg, e: Expr, env: Env, split: Split, f: D.Fn, ck: D.Ck, n: nat, v: VarId)
    requires Render(cfg, e, env).Success? && Open(f, ck, env, n, v) && Key(v) in Render(cfg, e, env).value.used
    ensures v in D.TopSlots(D.TypeExpr(f, Seen(split, e), ck).branchReads) && Key(v) in env.pre
  {
    UsedIsRead(cfg, e, env, v);
    assert VarsOf(e) - split(e) + VarsOf(e) * split(e) == VarsOf(e);
    ReadNoted(f, Seen(split, e), ck, v);
  }

  /** A write to something else leaves the slot as it was. */
  lemma WritesElsewhere(cfg: Cfg, p: Path, value: Expr, env: Env, n: nat, v: VarId)
    requires WriteVersioned(cfg, p, value, env, n).Success? && v !in cfg.locals && p != Var(v)
    ensures var o := WriteVersioned(cfg, p, value, env, n).value;
            o.env.IsPre(Key(v)) == env.IsPre(Key(v)) && o.env.used == env.used && o.env.pre == env.pre && o.n >= n
  {
    SegsSplit(p, env.rows);
  }

  lemma WritesSlot(cfg: Cfg, value: Expr, env: Env, n: nat, v: VarId)
    requires WriteVersioned(cfg, Var(v), value, env, n).Success? && v !in cfg.locals
    requires Key(v) in env.pre ==> env.pre[Key(v)] < n
    ensures var o := WriteVersioned(cfg, Var(v), value, env, n).value;
            !o.env.IsPre(Key(v)) && o.env.used == env.used && o.env.pre == env.pre && o.n >= n
  {
  }

  /** What one statement does to the slot, on both sides. */
  ghost predicate Agrees(f: D.Fn, ck: D.Ck, env: Env, n: nat, ck2: D.Ck, env2: Env, n2: nat, v: VarId) {
    n <= n2 && F.Frame(ck, ck2) && Open(f, ck2, env2, n2, v) && UsesSeen(ck, env, ck2, env2, v)
  }

  /** A rendered write, whatever the checker made of it. */
  lemma WriteAgrees(cfg: Cfg, p: Path, value: Expr, env: Env, used: set<LocKey>, n: nat, f: D.Fn, ck: D.Ck, ck2: D.Ck, v: VarId)
    requires Open(f, ck, env, n, v) && v !in cfg.locals && WriteVersioned(cfg, p, value, env.Use(used), n).Success?
    requires F.Frame(ck, ck2) && !ck2.terminated && ck2.diags == {}
    requires Key(v) in used && Key(v) !in env.used ==> v in D.TopSlots(ck2.branchReads) && Key(v) in env.pre
    requires p != Var(v) && v in ck2.sure ==> v in ck.sure
    ensures var o := WriteVersioned(cfg, p, value, env.Use(used), n).value; Agrees(f, ck, env, n, ck2, o.env, o.n, v)
  {
    if p == Var(v) {
      WritesSlot(cfg, value, env.Use(used), n, v);
    } else {
      WritesElsewhere(cfg, p, value, env.Use(used), n, v);
    }
  }

  lemma AssignAgrees(cfg: Cfg, slots: set<VarId>, split: Split, s: Stmt, env: Env, n: nat, f: D.Fn, ck: D.Ck, v: VarId)
    requires s.Assign? && RenderStmt(cfg, s, env, n).Success? && Open(f, ck, env, n, v) && v in slots - cfg.locals
    requires D.Walk(f, View(slots, split, s), ck).diags == {}
    ensures var o := RenderStmt(cfg, s, env, n).value; Agrees(f, ck, env, n, D.Walk(f, View(slots, split, s), ck), o.env, o.n, v)
  {
    var e, t := Seen(split, s.rhs), View(slots, split, s);
    var r := Render(cfg, s.rhs, env).value;
    if Key(v) in r.used { Rendering(cfg, s.rhs, env, split, f, ck, n, v); }
    if t.Assign? {
      AssignWalk(f, t, ck);
    } else {
      F.CheckedFrame(f, e, ck);
    }
    WriteAgrees(cfg, s.lhs, r.e, env, r.used, n, f, ck, D.Walk(f, t, ck), v);
  }

  lemma AssignWalk(f: D.Fn, t: D.Stmt, ck: D.Ck)
    requires t.Assign?
    ensures var r := D.Walk(f, t, ck);
            && F.Frame(ck, r) && r.terminated == ck.terminated
            && r.branchReads == D.TypeExpr(f, t.e, ck).branchReads
            && forall v | v != t.x :: v in r.sure <==> v in ck.sure
  {
    F.TypeFrame(f, t.e, ck);
    F.PutFrame(f, t.x, !(t.e.flows <= ck.sure), D.TypeExpr(f, t.e, ck));
    F.FrameTrans(ck, D.TypeExpr(f, t.e, ck), D.Walk(f, t, ck));
  }

  /** What a compound write or a step reads of its own target. */
  lemma LvalueUse(cfg: Cfg, slots: set<VarId>, split: Split, s: Stmt, env: Env, n: nat, f: D.Fn, ck: D.Ck, v: VarId)
    requires (s.Compound? || s.IncDec?) && Open(f, ck, env, n, v) && v in slots - cfg.locals
    requires D.Walk(f, View(slots, split, s), ck).diags == {}
    ensures Key(v) !in ReadLvalue(cfg, s.lhs, env).used
  {
    SegsSplit(s.lhs, env.rows);
    if s.lhs == Var(v) {
      F.CompoundFrame(f, v, if s.Compound? then Seen(split, s.rhs) else D.Expr({}, {}), ck);
    }
  }

  /** The walk over a compound write, a step, or a store. */
  lemma CompoundWalk(f: D.Fn, t: D.Stmt, ck: D.Ck)
    requires t.Compound? || t.Store?
    ensures var r := D.Walk(f, t, ck);
            && F.Frame(ck, r) && r.terminated == ck.terminated
            && r.branchReads == D.TypeExpr(f, t.e, ck).branchReads
            && forall v | v in r.sure && v !in ck.sure :: t == D.Compound(v, t.e)
  {
    if t.Compound? {
      F.CompoundFrame(f, t.x, t.e, ck);
    } else {
      F.CheckedFrame(f, t.e, ck);
    }
  }

  lemma CompoundAgrees(cfg: Cfg, slots: set<VarId>, split: Split, s: Stmt, env: Env, n: nat, f: D.Fn, ck: D.Ck, v: VarId)
    requires s.Compound? && RenderStmt(cfg, s, env, n).Success? && Open(f, ck, env, n, v) && v in slots - cfg.locals
    requires D.Walk(f, View(slots, split, s), ck).diags == {}
    ensures var o := RenderStmt(cfg, s, env, n).value; Agrees(f, ck, env, n, D.Walk(f, View(slots, split, s), ck), o.env, o.n, v)
  {
    var t, l, r := View(slots, split, s), ReadLvalue(cfg, s.lhs, env), Render(cfg, s.rhs, env).value;
    LvalueUse(cfg, slots, split, s, env, n, f, ck, v);
    if Key(v) in r.used { Rendering(cfg, s.rhs, env, split, f, ck, n, v); }
    CompoundWalk(f, t, ck);
    WriteAgrees(cfg, s.lhs, App(s.op, [l.e, r.e]), env, l.used + r.used, n, f, ck, D.Walk(f, t, ck), v);
  }

  lemma IncDecAgrees(cfg: Cfg, slots: set<VarId>, split: Split, s: Stmt, env: Env, n: nat, f: D.Fn, ck: D.Ck, v: VarId)
    requires s.IncDec? && RenderStmt(cfg, s, env, n).Success? && Open(f, ck, env, n, v) && v in slots - cfg.locals
    requires D.Walk(f, View(slots, split, s), ck).diags == {}
    ensures var o := RenderStmt(cfg, s, env, n).value; Agrees(f, ck, env, n, D.Walk(f, View(slots, split, s), ck), o.env, o.n, v)
  {
    var t, l := View(slots, split, s), ReadLvalue(cfg, s.lhs, env);
    LvalueUse(cfg, slots, split, s, env, n, f, ck, v);
    CompoundWalk(f, t, ck);
    WriteAgrees(cfg, s.lhs, Stepped(l.e, s.increment), env, l.used, n, f, ck, D.Walk(f, t, ck), v);
  }

  /** A declaration or a bare expression writes no location. */
  lemma ReadAgrees(cfg: Cfg, split: Split, e: Expr, env: Env, n: nat, f: D.Fn, ck: D.Ck, ck2: D.Ck, v: VarId)
    requires Open(f, ck, env, n, v) && Render(cfg, e, env).Success?
    requires F.Frame(ck, ck2) && !ck2.terminated && ck2.diags == {} && ck2.branchReads == D.TypeExpr(f, Seen(split, e), ck).branchReads
    requires v in ck2.sure ==> v in ck.sure
    ensures Agrees(f, ck, env, n, ck2, env.Use(Render(cfg, e, env).value.used), n, v)
  {
    if Key(v) in Render(cfg, e, env).value.used { Rendering(cfg, e, env, split, f, ck, n, v); }
  }

  lemma DeclAgrees(cfg: Cfg, slots: set<VarId>, split: Split, s: Stmt, env: Env, n: nat, f: D.Fn, ck: D.Ck, v: VarId)
    requires s.Decl? && s.v != v && RenderStmt(cfg, s, env, n).Success? && Open(f, ck, env, n, v)
    requires D.Walk(f, View(slots, split, s), ck).diags == {}
    ensures var o := RenderStmt(cfg, s, env, n).value; Agrees(f, ck, env, n, D.Walk(f, View(slots, split, s), ck), o.env, o.n, v)
  {
    var ck2 := D.Walk(f, View(slots, split, s), ck);
    F.WriteFrame(f, View(slots, split, s), ck);
    if s.init.Some? {
      F.TypeFrame(f, Seen(split, s.init.value), ck);
      ReadAgrees(cfg, split, s.init.value, env, n, f, ck, ck2, v);
    }
  }

  lemma ExprAgrees(cfg: Cfg, slots: set<VarId>, split: Split, s: Stmt, env: Env, n: nat, f: D.Fn, ck: D.Ck, v: VarId)
    requires s.ExprStmt? && RenderStmt(cfg, s, env, n).Success? && Open(f, ck, env, n, v)
    requires D.Walk(f, View(slots, split, s), ck).diags == {}
    ensures var o := RenderStmt(cfg, s, env, n).value; Agrees(f, ck, env, n, D.Walk(f, View(slots, split, s), ck), o.env, o.n, v)
  {
    F.TypeFrame(f, Seen(split, s.e), ck);
    ReadAgrees(cfg, split, s.e, env, n, f, ck, D.Walk(f, View(slots, split, s), ck), v);
  }

  lemma AgreesTrans(f: D.Fn, ck: D.Ck, env: Env, n: nat, ck1: D.Ck, env1: Env, n1: nat, ck2: D.Ck, env2: Env, n2: nat, v: VarId)
    requires Agrees(f, ck, env, n, ck1, env1, n1, v) && Agrees(f, ck1, env1, n1, ck2, env2, n2, v)
    ensures Agrees(f, ck, env, n, ck2, env2, n2, v)
  {
    F.FrameTrans(ck, ck1, ck2);
  }

  /** A statement without a nested `if`: the lowerer's early uses are the checker's early reads. */
  lemma {:induction false} StmtAgrees(cfg: Cfg, slots: set<VarId>, split: Split, s: Stmt, env: Env, n: nat, f: D.Fn, ck: D.Ck, v: VarId)
    requires Flat(s) && RenderStmt(cfg, s, env, n).Success? && Open(f, ck, env, n, v) && v in slots - cfg.locals && v !in Decls(s)
    requires D.Walk(f, View(slots, split, s), ck).diags == {}
    ensures var o := RenderStmt(cfg, s, env, n).value; Agrees(f, ck, env, n, D.Walk(f, View(slots, split, s), ck), o.env, o.n, v)
    decreases s
  {
    match s
    case Assign(_, _, _) => AssignAgrees(cfg, slots, split, s, env, n, f, ck, v);
    case Compound(_, _, _, _) => CompoundAgrees(cfg, slots, split, s, env, n, f, ck, v);
    case IncDec(_, _, _) => IncDecAgrees(cfg, slots, split, s, env, n, f, ck, v);
    case Decl(_, _) => DeclAgrees(cfg, slots, split, s, env, n, f, ck, v);
    case ExprStmt(_) => ExprAgrees(cfg, slots, split, s, env, n, f, ck, v);
    case Block(b) => AllAgrees(cfg, slots, split, b, env, n, f, ck, v);
    case Unchecked(b) => AllAgrees(cfg, slots, split, b, env, n, f, ck, v);
  }

  lemma {:induction false} AllAgrees(cfg: Cfg, slots: set<VarId>, split: Split, ss: seq<Stmt>, env: Env, n: nat, f: D.Fn, ck: D.Ck, v: VarId)
    requires AllFlat(ss) && RenderAll(cfg, ss, env, n).Success? && Open(f, ck, env, n, v) && v in slots - cfg.locals && v !in DeclsAll(ss)
    requires D.WalkBlock(f, ViewAll(slots, split, ss), ck).diags == {}
    ensures var o := RenderAll(cfg, ss, env, n).value; Agrees(f, ck, env, n, D.WalkBlock(f, ViewAll(slots, split, ss), ck), o.env, o.n, v)
    decreases ss
  {
    if ss != [] {
      var vs := ViewAll(slots, split, ss);
      assert vs[0] == View(slots, split, ss[0]) && vs[1..] == ViewAll(slots, split, ss[1..]);
      var o, ck1 := RenderStmt(cfg, ss[0], env, n).value, D.Walk(f, vs[0], ck);
      F.BlockFrame(f, vs[1..], ck1);
      StmtAgrees(cfg, slots, split, ss[0], env, n, f, ck, v);
      AllAgrees(cfg, slots, split, ss[1..], o.env, o.n, f, ck1, v);
      var r := RenderAll(cfg, ss[1..], o.env, o.n).value;
      AgreesTrans(f, ck, env, n, ck1, o.env, o.n, D.WalkBlock(f, vs, ck), r.env, r.n, v);
    }
  }

  lemma {:induction false} ArmAgrees(cfg: Cfg, slots: set<VarId>, split: Split, s: Stmt, env: Env, n: nat, f: D.Fn, ck: D.Ck, v: VarId)
    requires Flat(s) && RenderArm(cfg, s, env, n).Success? && Open(f, ck, env, n, v) && v in slots - cfg.locals && v !in Decls(s)
    requires D.Walk(f, View(slots, split, s), ck).diags == {}
    ensures var o := RenderArm(cfg, s, env, n).value; Agrees(f, ck, env, n, D.Walk(f, View(slots, split, s), ck), o.env, o.n, v)
  {
    if s.Block? {
      AllAgrees(cfg, slots, split, s.body, env, n, f, ck, v);
    } else {
      StmtAgrees(cfg, slots, split, s, env, n, f, ck, v);
    }
  }

  /** A slot the lowerer versions is one the checker logs. */
  lemma {:induction false} TargetSeen(cfg: Cfg, slots: set<VarId>, split: Split, s: Stmt, v: VarId)
    requires Var(v) in WritePaths(cfg, s) && v in slots
    ensures v in R.Targets(View(slots, split, s))
    decreases s
  {
    match s
    case Assign(_, _, _) =>
    case Compound(_, _, _, _) =>
    case IncDec(_, _, _) =>
    case Block(b) => TargetSeenIn(cfg, slots, split, b, v);
    case Unchecked(b) => TargetSeenIn(cfg, slots, split, b, v);
    case If(_, t, e) =>
      if Var(v) in WritePaths(cfg, t) { TargetSeen(cfg, slots, split, t, v); } else { TargetSeen(cfg, slots, split, e.value, v); }
  }

  lemma {:induction false} TargetSeenIn(cfg: Cfg, slots: set<VarId>, split: Split, ss: seq<Stmt>, v: VarId)
    requires Var(v) in WritePathsAll(cfg, ss) && v in slots
    ensures v in R.TargetsAll(ViewAll(slots, split, ss))
    decreases ss
  {
    var vs := ViewAll(slots, split, ss);
    assert vs[0] == View(slots, split, ss[0]) && vs[1..] == ViewAll(slots, split, ss[1..]);
    if Var(v) in WritePaths(cfg, ss[0]) {
      TargetSeen(cfg, slots, split, ss[0], v);
    } else {
      TargetSeenIn(cfg, slots, split, ss[1..], v);
    }
  }

  /** The merges use only the pre-values some arm has left in place. */
  lemma {:induction false} MergeUsedFrom(writes: seq<Loc>, cond: nat, pre: map<LocKey, nat>, thn: map<LocKey, nat>,
                                         els: map<LocKey, nat>, outer: Option<Env>, n: nat, used: set<LocKey>, key: LocKey)
    requires forall l | l in writes :: l.key in pre
    requires key in MergeAll(writes, cond, pre, thn, els, outer, n, used).used && key !in used
    ensures key in pre && (VersionOr(thn, key, pre[key]) == pre[key] || VersionOr(els, key, pre[key]) == pre[key])
    decreases writes
  {
    var l := writes[0];
    var tv, ev := VersionOr(thn, l.key, pre[l.key]), VersionOr(els, l.key, pre[l.key]);
    var used1 := if tv == pre[l.key] || ev == pre[l.key] then used + {l.key} else used;
    if key !in used1 {
      var nested := outer.Some? && HasKey(outer.value.writes, l.key);
      MergeUsedFrom(writes[1..], cond, pre, thn, els, if nested then Some(outer.value.Bind(l.key, n)) else outer,
                    if nested then n + 1 else n, used1, key);
    }
  }

  function ArmOne(slots: set<VarId>, split: Split, s: Stmt, f: D.Fn, ck: D.Ck): D.Ck
    requires s.If?
  {
    D.Walk(f, View(slots, split, s.thn), D.OpenBranch(ck))
  }

  function ArmTwo(slots: set<VarId>, split: Split, s: Stmt, f: D.Fn, ck: D.Ck): D.Ck
    requires s.If?
  {
    var c := D.NextArm(ck.sure, ArmOne(slots, split, s, f, ck));
    if s.els.Some? then D.Walk(f, View(slots, split, s.els.value), c) else c
  }

  /** A flat `if` the lowerer accepts, and its parts. */
  ghost predicate Emits(cfg: Cfg, s: Stmt, n: nat, q: Parts) {
    && s.If? && Flat(s.thn) && (s.els.Some? ==> Flat(s.els.value)) && Decls(s) <= cfg.locals
    && (s.els.Some? <==> q.els.Some?)
    && RenderArm(cfg, s.thn, q.env, q.pre.n) == Success(q.thn)
    && (s.els.Some? ==> RenderArm(cfg, s.els.value, q.env.Use(q.thn.env.used), q.thn.n) == Success(q.els.value))
    && q.env.used == {} && q.env.versions == q.env.pre
    && (forall l | l in q.sc.writes :: l.key in q.env.pre)
    && q.mg == MergeAll(q.sc.writes, n, q.env.pre, q.thn.env.versions, if q.els.Some? then q.els.value.env.versions else map[],
                        q.pre.outer, LastOf(q).n, LastOf(q).env.used)
  }

  function LastOf(q: Parts): Out {
    if q.els.Some? then q.els.value else q.thn
  }

  lemma EmitsParts(cfg: Cfg, s: Stmt, n: nat, q: Parts)
    requires s.If? && Flat(s.thn) && (s.els.Some? ==> Flat(s.els.value)) && Decls(s) <= cfg.locals
    requires RenderGeneral(cfg, s, None, n).Success? && q == PartsOf(cfg, s, None, n)
    ensures Emits(cfg, s, n, q)
  {
  }

  /** The pre-values of a whole variable are those of an assigned path. */
  ghost predicate PreWritten(cfg: Cfg, s: Stmt, q: Parts, v: VarId) {
    && (Key(v) in q.env.pre ==> q.env.pre[Key(v)] < q.pre.n && Var(v) in WritePaths(cfg, s))
    && forall p | p in q.pre.pres && p.init == Read(Var(v)) :: p.key == Key(v)
  }

  lemma KeyOfVar(p: Path, rows: seq<Row>, v: VarId)
    ensures KeyOf(p, rows) == Key(v) || Display(p, rows) == Var(v) ==> p == Var(v)
  {
    SegsSplit(p, rows);
  }

  lemma AllocatedFor(ws: set<Path>, writes: seq<Loc>, rows: seq<Row>, n: nat, v: VarId, p: PreVal)
    requires Recorded(ws, writes, rows) && p in AllocPre(writes, None, n).pres
    requires p.key == Key(v) || p.init == Read(Var(v))
    ensures p.key == Key(v) && Var(v) in ws && p.tmp < n + |writes|
  {
    var pres := AllocPre(writes, None, n).pres;
    AllocPreInits(writes, None, n);
    var i :| 0 <= i < |pres| && pres[i] == p;
    assert Stands(ws, writes[i], rows);
    var w :| w in ws && writes[i].key == KeyOf(w, rows) && writes[i].display == Display(w, rows);
    KeyOfVar(w, rows, v);
  }

  lemma PreIsWritten(cfg: Cfg, s: Stmt, n: nat, q: Parts, v: VarId)
    requires s.If? && RenderGeneral(cfg, s, None, n).Success? && q == PartsOf(cfg, s, None, n)
    ensures PreWritten(cfg, s, q, v)
  {
    var ws, pres := WritePaths(cfg, s), q.pre.pres;
    ScanFrameFacts(cfg, s, n + 1);
    PreMapIs(pres);
    forall p | p in pres && (p.key == Key(v) || p.init == Read(Var(v)))
      ensures p.key == Key(v) && Var(v) in ws && p.tmp < q.pre.n
    {
      AllocatedFor(ws, q.sc.writes, q.sc.keys.rows, q.sc.keys.n, v, p);
    }
  }

  /** A walk over both arms that reports nothing. */
  ghost predicate Passes(slots: set<VarId>, split: Split, s: Stmt, f: D.Fn, ck: D.Ck, v: VarId) {
    && s.If? && v in slots && D.DepthOf(f, v) <= ck.branchDepth
    && ArmOne(slots, split, s, f, ck).diags == {} && !ArmOne(slots, split, s, f, ck).terminated
    && ArmTwo(slots, split, s, f, ck).diags == {}
    && F.Frame(D.OpenBranch(ck), ArmOne(slots, split, s, f, ck))
    && D.CloseBranch(f, ck.sure, ck.terminated, s.els.None?, ArmOne(slots, split, s, f, ck), ArmTwo(slots, split, s, f, ck)).diags == {}
    && (v in R.Targets(View(slots, split, s)) ==>
          v in D.TopSlots(ArmOne(slots, split, s, f, ck).branchWrites) + D.TopSlots(ArmTwo(slots, split, s, f, ck).branchWrites))
  }

  lemma ViewOfIf(slots: set<VarId>, split: Split, s: Stmt)
    requires s.If?
    ensures View(slots, split, s) == D.EncryptedIf(Seen(split, s.cond), View(slots, split, s.thn),
                                                   if s.els.Some? then Some(View(slots, split, s.els.value)) else None)
  {
  }

  lemma WalkOfIf(slots: set<VarId>, split: Split, s: Stmt, f: D.Fn, ck: D.Ck)
    requires s.If? && View(slots, split, s).EncryptedIf?
    ensures D.WalkEncryptedIf(f, View(slots, split, s), ck)
            == D.CloseBranch(f, ck.sure, ck.terminated, s.els.None?, ArmOne(slots, split, s, f, ck), ArmTwo(slots, split, s, f, ck))
  {
    ViewOfIf(slots, split, s);
    B.ArmsClose(f, View(slots, split, s), ck, ArmOne(slots, split, s, f, ck), ArmTwo(slots, split, s, f, ck));
  }

  lemma WalkPasses(slots: set<VarId>, split: Split, s: Stmt, f: D.Fn, ck: D.Ck, v: VarId)
    requires s.If? && v in slots && D.DepthOf(f, v) <= ck.branchDepth && !ck.terminated
    requires View(slots, split, s).EncryptedIf? && D.WalkEncryptedIf(f, View(slots, split, s), ck).diags == {}
    ensures Passes(slots, split, s, f, ck, v)
  {
    var t := View(slots, split, s);
    WalkOfIf(slots, split, s, f, ck);
    ViewOfIf(slots, split, s);
    S.ArmsLog(f, t, ck);
    ArmsOf(slots, split, s, f, ck, t, v);
  }

  /** The checker's arms of the view are the arms of the statement. */
  lemma ArmsOf(slots: set<VarId>, split: Split, s: Stmt, f: D.Fn, ck: D.Ck, t: D.Stmt, v: VarId)
    requires s.If? && t == D.EncryptedIf(Seen(split, s.cond), View(slots, split, s.thn),
                                         if s.els.Some? then Some(View(slots, split, s.els.value)) else None)
    ensures ArmOne(slots, split, s, f, ck) == D.Walk(f, t.thn, D.OpenBranch(ck))
    ensures ArmTwo(slots, split, s, f, ck) == (var c := D.NextArm(ck.sure, D.Walk(f, t.thn, D.OpenBranch(ck)));
                                               if t.els.Some? then D.Walk(f, t.els.value, c) else c)
  {
  }

  /** Everything both sides know of a flat `if` they accept. */
  ghost predicate Accepted(cfg: Cfg, slots: set<VarId>, split: Split, s: Stmt, n: nat, q: Parts, f: D.Fn, ck: D.Ck, v: VarId) {
    Emits(cfg, s, n, q) && PreWritten(cfg, s, q, v) && Passes(slots, split, s, f, ck, v) && v !in cfg.locals && !ck.terminated
  }

  lemma FirstOpen(cfg: Cfg, slots: set<VarId>, split: Split, s: Stmt, n: nat, q: Parts, f: D.Fn, ck: D.Ck, v: VarId)
    requires Accepted(cfg, slots, split, s, n, q, f, ck, v) && v !in ck.sure
    ensures Open(f, D.OpenBranch(ck), q.env, q.pre.n, v)
  {
    assert D.OpenBranch(ck).diags <= ArmOne(slots, split, s, f, ck).diags;
  }

  lemma FirstArm(cfg: Cfg, slots: set<VarId>, split: Split, s: Stmt, n: nat, q: Parts, f: D.Fn, ck: D.Ck, v: VarId)
    requires Accepted(cfg, slots, split, s, n, q, f, ck, v) && v !in ck.sure
    ensures Agrees(f, D.OpenBranch(ck), q.env, q.pre.n, ArmOne(slots, split, s, f, ck), q.thn.env, q.thn.n, v)
  {
    FirstOpen(cfg, slots, split, s, n, q, f, ck, v);
    ArmAgrees(cfg, slots, split, s.thn, q.env, q.pre.n, f, D.OpenBranch(ck), v);
  }

  lemma SecondArm(cfg: Cfg, slots: set<VarId>, split: Split, s: Stmt, n: nat, q: Parts, f: D.Fn, ck: D.Ck, v: VarId)
    requires Accepted(cfg, slots, split, s, n, q, f, ck, v) && v !in ck.sure && s.els.Some?
    requires q.pre.n <= q.thn.n
    ensures Agrees(f, D.NextArm(ck.sure, ArmOne(slots, split, s, f, ck)), q.env.Use(q.thn.env.used), q.thn.n,
                   ArmTwo(slots, split, s, f, ck), q.els.value.env, q.els.value.n, v)
  {
    var c := D.NextArm(ck.sure, ArmOne(slots, split, s, f, ck));
    assert Open(f, c, q.env.Use(q.thn.env.used), q.thn.n, v);
    ArmAgrees(cfg, slots, split, s.els.value, q.env.Use(q.thn.env.used), q.thn.n, f, c, v);
  }

  /** After a rendered arm the slot still has a version, its own or the pre-value. */
  lemma ArmKeeps(cfg: Cfg, s: Stmt, env: Env, n: nat, key: LocKey)
    requires RenderArm(cfg, s, env, n).Success? && key in env.versions
    ensures key in RenderArm(cfg, s, env, n).value.env.versions
  {
    ArmShape(cfg, s, env, n);
  }

  /** What the checker has on record about a slot whose pre-value is used. */
  ghost predicate Guarded(slots: set<VarId>, split: Split, s: Stmt, f: D.Fn, ck: D.Ck, v: VarId)
    requires s.If?
  {
    var t, e := ArmOne(slots, split, s, f, ck), ArmTwo(slots, split, s, f, ck);
    s.els.None? || v !in t.sure || v !in e.sure || v in D.TopSlots(t.branchReads) + D.TopSlots(e.branchReads)
  }

  lemma ArmUse(cfg: Cfg, slots: set<VarId>, split: Split, s: Stmt, n: nat, q: Parts, f: D.Fn, ck: D.Ck, v: VarId)
    requires Accepted(cfg, slots, split, s, n, q, f, ck, v) && v !in ck.sure && Key(v) in LastOf(q).env.used
    ensures Key(v) in q.env.pre && Guarded(slots, split, s, f, ck, v)
  {
    FirstArm(cfg, slots, split, s, n, q, f, ck, v);
    if s.els.Some? { SecondArm(cfg, slots, split, s, n, q, f, ck, v); }
  }

  lemma MergeUse(cfg: Cfg, slots: set<VarId>, split: Split, s: Stmt, n: nat, q: Parts, f: D.Fn, ck: D.Ck, v: VarId)
    requires Accepted(cfg, slots, split, s, n, q, f, ck, v) && v !in ck.sure && Key(v) in q.mg.used && Key(v) !in LastOf(q).env.used
    ensures Key(v) in q.env.pre && Guarded(slots, split, s, f, ck, v)
  {
    FirstArm(cfg, slots, split, s, n, q, f, ck, v);
    MergeUsedFrom(q.sc.writes, n, q.env.pre, q.thn.env.versions, if q.els.Some? then q.els.value.env.versions else map[],
                  q.pre.outer, LastOf(q).n, LastOf(q).env.used, Key(v));
    ArmKeeps(cfg, s.thn, q.env, q.pre.n, Key(v));
    if s.els.Some? {
      SecondArm(cfg, slots, split, s, n, q, f, ck, v);
      ArmKeeps(cfg, s.els.value, q.env.Use(q.thn.env.used), q.thn.n, Key(v));
    }
  }

  /** A slot that needs its value from before, and has none, is reported. */
  lemma NeededIsFlagged(f: D.Fn, snap: D.Slots, terminated: bool, oneArm: bool, t: D.Ck, e: D.Ck, v: VarId)
    requires v in D.NeedsPre(oneArm, t, e) && v !in snap
    ensures D.Uninit(v) in D.CloseBranch(f, snap, terminated, oneArm, t, e).diags
  {
    assert v in D.NeedsPre(oneArm, t, e) - snap;
  }

  lemma UsedIsSure(cfg: Cfg, slots: set<VarId>, split: Split, s: Stmt, n: nat, q: Parts, f: D.Fn, ck: D.Ck, v: VarId)
    requires Accepted(cfg, slots, split, s, n, q, f, ck, v) && Key(v) in q.mg.used
    ensures v in ck.sure
  {
    if v !in ck.sure {
      if Key(v) in LastOf(q).env.used {
        ArmUse(cfg, slots, split, s, n, q, f, ck, v);
      } else {
        MergeUse(cfg, slots, split, s, n, q, f, ck, v);
      }
      TargetSeen(cfg, slots, split, s, v);
      NeededIsFlagged(f, ck.sure, ck.terminated, s.els.None?, ArmOne(slots, split, s, f, ck), ArmTwo(slots, split, s, f, ck), v);
    }
  }

  lemma {:induction false} EmittedIsUsed(pres: seq<PreVal>, used: set<LocKey>, x: TStmt)
    requires x in PreLets(pres, used)
    ensures exists p | p in pres :: p.key in used && x == Let(p.tmp, p.init)
  {
    if pres[0].key in used && x == Let(pres[0].tmp, pres[0].init) {
      assert pres[0] in pres;
    } else {
      EmittedIsUsed(pres[1..], used, x);
      var p :| p in pres[1..] && p.key in used && x == Let(p.tmp, p.init);
      assert p in pres;
    }
  }

  lemma EncryptedWalk(f: D.Fn, t: D.Stmt, ck: D.Ck)
    requires t.EncryptedIf?
    ensures D.Walk(f, t, ck) == D.WalkEncryptedIf(f, t, D.TypeChecked(f, t.c, ck))
  {
  }

  lemma Both(cfg: Cfg, slots: set<VarId>, split: Split, s: Stmt, n: nat, q: Parts, f: D.Fn, ck: D.Ck, v: VarId)
    requires Emits(cfg, s, n, q) && PreWritten(cfg, s, q, v) && v in slots - cfg.locals
    requires D.DepthOf(f, v) <= ck.branchDepth && !ck.terminated && D.Walk(f, View(slots, split, s), ck).diags == {}
    ensures Accepted(cfg, slots, split, s, n, q, f, D.TypeChecked(f, Seen(split, s.cond), ck), v)
  {
    var c := D.TypeChecked(f, Seen(split, s.cond), ck);
    F.CheckedFrame(f, Seen(split, s.cond), ck);
    ViewOfIf(slots, split, s);
    EncryptedWalk(f, View(slots, split, s), ck);
    assert c.branchDepth == ck.branchDepth && c.terminated == ck.terminated;
    WalkPasses(slots, split, s, f, c, v);
  }

  /**
   The checker and the lowerer agree on pre-values.  For an encrypted `if` without
   nested `if`s that both accept, every emitted `pre = L` over a tracked local reads
   a definitely assigned `L`.
   */
  lemma PreValuesGuarded(cfg: Cfg, slots: set<VarId>, split: Split, s: Stmt, n: nat, q: Parts, f: D.Fn, ck: D.Ck, v: VarId, t: nat)
    requires s.If? && Flat(s.thn) && (s.els.Some? ==> Flat(s.els.value)) && Decls(s) <= cfg.locals
    requires RenderGeneral(cfg, s, None, n).Success? && q == PartsOf(cfg, s, None, n)
    requires v in slots - cfg.locals && D.DepthOf(f, v) <= ck.branchDepth && !ck.terminated
    requires D.Walk(f, View(slots, split, s), ck).diags == {}
    requires Let(t, Read(Var(v))) in PreLets(q.pre.pres, q.mg.used)
    ensures v in ck.sure
  {
    EmitsParts(cfg, s, n, q);
    PreIsWritten(cfg, s, n, q, v);
    EmittedIsUsed(q.pre.pres, q.mg.used, Let(t, Read(Var(v))));
    F.CheckedFrame(f, Seen(split, s.cond), ck);
    Both(cfg, slots, split, s, n, q, f, ck, v);
    UsedIsSure(cfg, slots, split, s, n, q, f, D.TypeChecked(f, Seen(split, s.cond), ck), v);
  }
}
