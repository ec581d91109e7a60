/** The frame of a nested encrypted `if`, inside an arm of its enclosing frame. */
module BranchNested {
  import opened Wrappers
  import opened BranchAst
  import opened BranchLowering
  import opened BranchAdmission
  import opened BranchCells
  import opened BranchScan
  import opened BranchShape
  import opened BranchRelation
  import opened BranchStep
  import opened BranchSimple
  import opened BranchFrame
  import opened BranchPrologue
  import opened BranchSim
  import opened BranchArms

  // ---- the direct form --------------------------------------------------

  lemma {:induction false} PlainArm(m: Meaning, cfg: Cfg, s: Stmt, src: Cells)
    requires SinglePlainAssign(s).Some? && RootOf(SinglePlainAssign(s).value.lhs) !in cfg.locals
    ensures WritePaths(cfg, s) == {SinglePlainAssign(s).value.lhs} && Decls(s) == {}
    ensures var a := SinglePlainAssign(s).value; Exec(m, s, src) == src[SourceCell(m, a.lhs, src) := ValueOf(m, a.rhs, src, map[])]
    decreases s
  {
    if s.Block? {
      PlainArm(m, cfg, s.body[0], src);
      assert s.body[1..] == [];
      assert ExecAll(m, [], Exec(m, s.body[0], src)) == Exec(m, s.body[0], src);
      assert WritePathsAll(cfg, s.body) == WritePaths(cfg, s.body[0]);
      assert DeclsAll(s.body) == Decls(s.body[0]);
    }
  }

  lemma DirectMeaning(m: Meaning, cfg: Cfg, s: Stmt, d: DirectIf, src: Cells)
    requires s.If? && DirectShape(cfg, s) == Success(Some(d))
    ensures WritePaths(cfg, s) == {Var(d.v)} && Decls(s) == {} && d.v !in cfg.locals
    ensures Exec(m, s, src) == src[SourceCell(m, Var(d.v), src) := ValueOf(m, Select(s.cond, d.yes, d.no), src, map[])]
  {
    PlainArm(m, cfg, s.thn, src);
    PlainArm(m, cfg, s.els.value, src);
  }

  lemma DirectReads(cfg: Cfg, ctx: Ctx, s: Stmt, d: DirectIf)
    requires s.If? && Check(cfg, s, ctx).Some? && DirectShape(cfg, s) == Success(Some(d))
    ensures ReadsOk(s.cond, ctx, false) && ReadsOk(d.yes, ctx, false) && ReadsOk(d.no, ctx, false)
    ensures Check(cfg, s, ctx) == Some(Left(cfg, ctx, s))
  {
    assert NestedOk(cfg, s, ctx);
  }

  function DirectUsed(cfg: Cfg, s: Stmt, d: DirectIf, env: Env): set<LocKey>
    requires s.If? && Render(cfg, s.cond, env).Success? && Render(cfg, d.yes, env).Success? && Render(cfg, d.no, env).Success?
  {
    Render(cfg, s.cond, env).value.used + Render(cfg, d.yes, env).value.used + Render(cfg, d.no, env).value.used
  }

  function DirectSelect(cfg: Cfg, s: Stmt, d: DirectIf, env: Env): Expr
    requires s.If? && Render(cfg, s.cond, env).Success? && Render(cfg, d.yes, env).Success? && Render(cfg, d.no, env).Success?
  {
    Select(Render(cfg, s.cond, env).value.e, Render(cfg, d.yes, env).value.e, Render(cfg, d.no, env).value.e)
  }

  /** Inside a frame the direct form is a versioned write of the select. */
  lemma DirectAsWrite(cfg: Cfg, ctx: Ctx, s: Stmt, d: DirectIf, env: Env, n: nat)
    requires s.If? && DirectShape(cfg, s) == Success(Some(d)) && d.v !in cfg.locals
    requires TryDirect(cfg, s, Some(env), n).Success?
    requires Var(d.v) in ctx.writes && Covered(ctx.writes, env.writes, env.rows)
    ensures Render(cfg, s.cond, env).Success? && Render(cfg, d.yes, env).Success? && Render(cfg, d.no, env).Success?
    ensures WriteVersioned(cfg, Var(d.v), DirectSelect(cfg, s, d, env), env.Use(DirectUsed(cfg, s, d, env)), n) == RenderStmt(cfg, s, env, n)
  {
    assert KeyOf(Var(d.v), env.rows) == LocKey(d.v, []);
    assert HasKey(env.writes, KeyOf(Var(d.v), env.rows));
    var w := WriteVersioned(cfg, Var(d.v), DirectSelect(cfg, s, d, env), env.Use(DirectUsed(cfg, s, d, env)), n);
    assert TryDirect(cfg, s, Some(env), n) == Success(Some(FrameOut(w.value.code, Some(w.value.env), w.value.n)));
    assert RenderFrame(cfg, s, Some(env), n) == Success(FrameOut(w.value.code, Some(w.value.env), w.value.n));
  }

  lemma DirectRendered(m: Meaning, cfg: Cfg, ctx: Ctx, s: Stmt, d: DirectIf, env: Env, n: nat, emitted: set<LocKey>, moved: set<Cell>,
                       src: Cells, st: State)
    requires s.If? && Setting(m, cfg, ctx, env, n, emitted, moved, st.temps) && Follows(m, ctx, env, emitted, moved, src, st)
    requires ReadsOk(s.cond, ctx, false) && ReadsOk(d.yes, ctx, false) && ReadsOk(d.no, ctx, false)
    requires Render(cfg, s.cond, env).Success? && Render(cfg, d.yes, env).Success? && Render(cfg, d.no, env).Success?
    requires DirectUsed(cfg, s, d, env) <= emitted
    ensures Defined(DirectSelect(cfg, s, d, env), st.temps)
    ensures ValueOf(m, DirectSelect(cfg, s, d, env), st.cells, st.temps) == ValueOf(m, Select(s.cond, d.yes, d.no), src, map[])
  {
    RenderFollows(m, cfg, ctx, s.cond, env, n, emitted, moved, src, st);
    RenderFollows(m, cfg, ctx, d.yes, env, n, emitted, moved, src, st);
    RenderFollows(m, cfg, ctx, d.no, env, n, emitted, moved, src, st);
  }

  lemma NestedDirect(m: Meaning, cfg: Cfg, ctx: Ctx, s: Stmt, env: Env, n: nat, emitted: set<LocKey>, moved: set<Cell>,
                     src: Cells, st: State) returns (st2: State)
    requires s.If? && StmtReady(m, cfg, ctx, s, env, n, emitted, moved, src, st)
    requires TryDirect(cfg, s, Some(env), n).Success? && TryDirect(cfg, s, Some(env), n).value.Some?
    ensures StmtDone(m, cfg, ctx, s, env, n, emitted, moved, src, st, st2)
  {
    var d := DirectShape(cfg, s).value.value;
    DirectMeaning(m, cfg, s, d, src);
    DirectReads(cfg, ctx, s, d);
    var p := Var(d.v);
    assert p in WritePaths(cfg, s);
    DirectAsWrite(cfg, ctx, s, d, env, n);
    var used, select := DirectUsed(cfg, s, d, env), DirectSelect(cfg, s, d, env);
    DirectRendered(m, cfg, ctx, s, d, env, n, emitted, moved, src, st);
    st2 := Write(m, cfg, ctx, p, select, env, used, n, emitted, moved, src, ValueOf(m, Select(s.cond, d.yes, d.no), src, map[]), st);
    DirectLeft(cfg, ctx, s, p);
  }

  lemma DirectLeft(cfg: Cfg, ctx: Ctx, s: Stmt, p: Path)
    requires s.If? && WritePaths(cfg, s) == {p} == Target(cfg, p) && Decls(s) == {}
    ensures Left(cfg, ctx, s) == Assigned(cfg, p, ctx)
  {
    assert ctx.dead + Decls(s) == ctx.dead && ctx.live - Decls(s) == ctx.live;
  }

  // ---- where the written locations live ---------------------------------------

  ghost function PathFor(ws: set<Path>, rows: seq<Row>, key: LocKey): Path
    requires exists p :: p in ws && KeyOf(p, rows) == key
  {
    var p :| p in ws && KeyOf(p, rows) == key;
    p
  }

  predicate KeysKnown(ws: set<Path>, writes: seq<Loc>, rows: seq<Row>) {
    forall l | l in writes :: exists p | p in ws :: KeyOf(p, rows) == l.key
  }

  ghost function AtOf(m: Meaning, ws: set<Path>, writes: seq<Loc>, rows: seq<Row>, src: Cells): map<LocKey, Cell>
    requires KeysKnown(ws, writes, rows)
  {
    map k | k in (set l | l in writes :: l.key) :: SourceCell(m, PathFor(ws, rows, k), src)
  }

  lemma KnownKeys(ws: set<Path>, writes: seq<Loc>, rows: seq<Row>)
    requires Recorded(ws, writes, rows)
    ensures KeysKnown(ws, writes, rows)
  {
    forall l | l in writes
      ensures exists p | p in ws :: KeyOf(p, rows) == l.key
    {
      assert Stands(ws, l, rows);
    }
  }

  lemma AtIs(m: Meaning, ws: set<Path>, writes: seq<Loc>, rows: seq<Row>, src: Cells, p: Path)
    requires WritesOk(ws, writes, rows) && KeysKnown(ws, writes, rows) && p in ws
    ensures KeyOf(p, rows) in AtOf(m, ws, writes, rows, src)
    ensures AtOf(m, ws, writes, rows, src)[KeyOf(p, rows)] == SourceCell(m, p, src)
  {
    var k := KeyOf(p, rows);
    var l := HasKeyLoc(writes, k);
    assert k in (set l | l in writes :: l.key);
    KeyInjective(p, PathFor(ws, rows, k), rows);
  }

  lemma AtOfLoc(m: Meaning, ws: set<Path>, writes: seq<Loc>, rows: seq<Row>, src: Cells, l: Loc) returns (p: Path)
    requires WritesOk(ws, writes, rows) && KeysKnown(ws, writes, rows) && l in writes
    ensures p in ws && l.key == KeyOf(p, rows) && l.display == Display(p, rows)
    ensures l.key in AtOf(m, ws, writes, rows, src) && AtOf(m, ws, writes, rows, src)[l.key] == SourceCell(m, p, src)
  {
    assert Stands(ws, l, rows);
    p :| p in ws && l.key == KeyOf(p, rows) && l.display == Display(p, rows);
    AtIs(m, ws, writes, rows, src, p);
  }

  ghost function WantOf(at: map<LocKey, Cell>, src: Cells): map<LocKey, int> {
    map k | k in at :: Load(src, at[k])
  }

  // ---- the general form: up to the arms ---------------------------------------------

  /** The cells the enclosing arms have reassigned so far. */
  ghost function MovedIn(m: Meaning, ctx: Ctx, env: Env, moved: set<Cell>, src: Cells): set<Cell> {
    moved + set p | p in ctx.writes && !env.IsPre(KeyOf(p, env.rows)) :: SourceCell(m, p, src)
  }

  lemma MovedCovered(m: Meaning, cfg: Cfg, ctx: Ctx, s: Stmt, env: Env, n: nat, moved: set<Cell>, src: Cells)
    requires EnvOk(ctx, env, n) && Covers(m, ctx, moved)
    ensures Covers(m, Inner(cfg, ctx, s), MovedIn(m, ctx, env, moved, src))
  {
    var ci := Inner(cfg, ctx, s);
    forall x | x in MovedIn(m, ctx, env, moved, src)
      ensures FitsSome(m, ci.stale, x)
    {
      if x in moved {
        FitsMore(m, ctx.stale, ctx.dirty, x);
      } else {
        var p :| p in ctx.writes && !env.IsPre(KeyOf(p, env.rows)) && x == SourceCell(m, p, src);
        CellFits(m, p, src, map[]);
        assert PatOf(p) in ci.stale;
      }
    }
  }

  /** Inside a nested frame a cell differs only if an enclosing arm moved it, or a local died. */
  lemma InnerCells(m: Meaning, cfg: Cfg, ctx: Ctx, s: Stmt, env: Env, emitted: set<LocKey>, moved: set<Cell>, src: Cells, st: State)
    requires Follows(m, ctx, env, emitted, moved, src, st)
    ensures forall x: Cell :: !Under(m, Inner(cfg, ctx, s).dead, x) && x !in MovedIn(m, ctx, env, moved, src) ==> Load(src, x) == Load(st.cells, x)
  {
    forall x: Cell | !Under(m, Inner(cfg, ctx, s).dead, x) && x !in MovedIn(m, ctx, env, moved, src)
      ensures Load(src, x) == Load(st.cells, x)
    {
      UnderMore(m, ctx.dead, ctx.dead + Decls(s), x);
      assert !Reassigned(m, ctx, env, src, x);
    }
  }

  /** A nested frame's hoisted keys, if any, are literal. */
  lemma LiteralRows(m: Meaning, ws: set<Path>, rows: seq<Row>, c: Cells, d: Cells)
    requires KeysFrom(ws, rows) && (forall p | p in ws :: LiteralKeys(p))
    ensures forall r | r in rows :: Closed(m, r.src, c) && ValueOf(m, r.src, c, map[]) == ValueOf(m, r.src, d, map[])
  {
    forall r | r in rows
      ensures r.src.Lit?
    {
      assert KeyFrom(ws, r.src);
      var p :| p in ws && IsKeyIn(r.src, p);
      LiteralKeyIn(r.src, p);
    }
  }

  /** The pre-value of a nested frame is the enclosing frame's current version. */
  lemma NestedInit(m: Meaning, ctx: Ctx, env: Env, emitted: set<LocKey>, src: Cells, st: State, p: Path, rows: seq<Row>, display: Path)
    requires p in ctx.writes && KeyOf(p, env.rows) in env.versions
    requires Ready(ctx, env, emitted, st.temps) && VersionsHold(m, ctx, env, emitted, src, st.temps)
    requires env.Uses(KeyOf(p, env.rows)) <= emitted
    ensures InitOk(m, env.Current(KeyOf(p, env.rows), display), rows, st, Load(src, SourceCell(m, p, src)))
  {
    assert Valued(env, emitted, KeyOf(p, env.rows));
    assert env.versions[KeyOf(p, env.rows)] in st.temps;
  }

  function LastN(q: Parts): nat {
    if q.els.Some? then q.els.value.n else q.thn.n
  }

  lemma GeneralCheck(cfg: Cfg, ctx: Ctx, s: Stmt, env: Env, n: nat)
    requires s.If? && Check(cfg, s, ctx).Some? && TryDirect(cfg, s, Some(env), n) == Success(None)
    ensures ReadsOk(s.cond, ctx, false) && Check(cfg, s, ctx) == Some(Left(cfg, ctx, s))
    ensures forall p | p in WritePaths(cfg, s) :: LiteralKeys(p)
    ensures Check(cfg, s.thn, Inner(cfg, ctx, s)).Some?
    ensures s.els.Some? ==> Check(cfg, s.els.value, Inner(cfg, ctx, s)).Some?
  {
    assert NestedOk(cfg, s, ctx);
    assert DirectShape(cfg, s) == Success(None);
  }

  lemma GeneralOut(cfg: Cfg, s: Stmt, env: Env, n: nat)
    requires s.If? && RenderStmt(cfg, s, env, n).Success? && TryDirect(cfg, s, Some(env), n) == Success(None)
    ensures RenderGeneral(cfg, s, Some(env), n).Success?
    ensures var q := PartsOf(cfg, s, Some(env), n);
            RenderStmt(cfg, s, env, n).value ==
            Out([Scope(Assemble(n, q.cond.e, q.sc.keys.rows, q.pre.pres, q.mg.used, q.thn, q.els, q.mg.code))], q.mg.outer.value, q.mg.n)
  {
    assert RenderFrame(cfg, s, Some(env), n) == RenderGeneral(cfg, s, Some(env), n);
  }

  lemma NestedInitAt(m: Meaning, ctx: Ctx, ws: set<Path>, env: Env, envc: Env, n: nat, emitted: set<LocKey>, src: Cells, st: State,
                     writes: seq<Loc>, rows: seq<Row>, l: Loc)
    requires EnvOk(ctx, env, n) && ws <= ctx.writes && (forall p | p in ws :: LiteralKeys(p))
    requires Ready(ctx, env, emitted, st.temps) && VersionsHold(m, ctx, env, emitted, src, st.temps)
    requires envc == env.(used := envc.used) && envc.Uses(l.key) <= emitted
    requires WritesOk(ws, writes, rows) && KeysKnown(ws, writes, rows) && l in writes
    ensures var at := AtOf(m, ws, writes, rows, src);
            l.key in at && InitOk(m, envc.Current(l.key, l.display), rows, st, Load(src, at[l.key]))
  {
    var p := AtOfLoc(m, ws, writes, rows, src, l);
    LiteralKeySame(p, rows, env.rows);
    assert env.Uses(l.key) == envc.Uses(l.key);
    NestedInit(m, ctx, env, emitted, src, st, p, rows, l.display);
  }

  /** The initial values of a nested frame's pre-values. */
  lemma NestedInits(m: Meaning, ctx: Ctx, ws: set<Path>, env: Env, envc: Env, n: nat, emitted: set<LocKey>, src: Cells, st: State,
                    writes: seq<Loc>, rows: seq<Row>, pre: PreOut, n1: nat, want: map<LocKey, int>)
    requires EnvOk(ctx, env, n) && ws <= ctx.writes && (forall p | p in ws :: LiteralKeys(p))
    requires Ready(ctx, env, emitted, st.temps) && VersionsHold(m, ctx, env, emitted, src, st.temps)
    requires envc == env.(used := envc.used) && pre == AllocPre(writes, Some(envc), n1) && pre.outer.value.used <= emitted
    requires WritesOk(ws, writes, rows) && KeysKnown(ws, writes, rows)
    requires want == WantOf(AtOf(m, ws, writes, rows, src), src)
    ensures forall p | p in pre.pres :: p.key in want && InitOk(m, p.init, rows, st, want[p.key])
  {
    forall i | 0 <= i < |pre.pres|
      ensures pre.pres[i].key in want && InitOk(m, pre.pres[i].init, rows, st, want[pre.pres[i].key])
    {
      AllocPreInits(writes, Some(envc), n1);
      NestedInitAt(m, ctx, ws, env, envc, n, emitted, src, st, writes, rows, writes[i]);
    }
  }

  /** The state in which the arms of a nested frame start. */
  ghost predicate Started(m: Meaning, cfg: Cfg, ci: Ctx, s: Stmt, n: nat, q: Parts, moved: set<Cell>, src: Cells, st: State, st3: State)
    requires s.If?
  {
    && Run(m, [Let(n, q.cond.e)] + KeyLets(q.sc.keys.rows) + PreLets(q.pre.pres, q.mg.used), st) == Some(st3)
    && Grown(st, st3, n, q.pre.n) && StateOk(st3)
    && n in st3.temps && st3.temps[n] == ValueOf(m, s.cond, src, map[])
    && Setting(m, cfg, ci, q.env, q.pre.n, q.mg.used, moved, st3.temps)
    && Follows(m, ci, q.env, q.mg.used, moved, src, st3)
    && RoomFor(st3, q.pre.n, LastN(q), {})
  }

  /** What is known of a nested frame before it runs. */
  ghost predicate NestedFrame(m: Meaning, cfg: Cfg, ctx: Ctx, s: Stmt, env: Env, n: nat, emitted: set<LocKey>, st: State, q: Parts) {
    && s.If? && ReadsOk(s.cond, ctx, false) && (forall p | p in WritePaths(cfg, s) :: LiteralKeys(p))
    && WritePaths(cfg, s) <= ctx.writes && Decls(s) <= cfg.locals
    && ScanOk(WritePaths(cfg, s), q.sc, n + 1) && KeysKnown(WritePaths(cfg, s), q.sc.writes, q.sc.keys.rows)
    && Render(cfg, s.cond, env) == Success(q.cond) && q.cond.used <= emitted
    && q.pre == AllocPre(q.sc.writes, Some(env.Use(q.cond.used)), q.sc.keys.n)
    && q.pre.outer.value.used <= emitted
    && q.env == Env(q.sc.writes, q.sc.keys.rows, PreMap(q.pre.pres), PreMap(q.pre.pres), [], {})
    && n < q.sc.keys.n && q.pre.n <= LastN(q)
    && (forall t | n <= t < LastN(q) :: t !in st.declared && t !in st.temps)
  }

  lemma NestedFrameOk(m: Meaning, cfg: Cfg, ctx: Ctx, s: Stmt, env: Env, n: nat, emitted: set<LocKey>, moved: set<Cell>,
                      src: Cells, st: State, q: Parts)
    requires s.If? && StmtReady(m, cfg, ctx, s, env, n, emitted, moved, src, st)
    requires TryDirect(cfg, s, Some(env), n) == Success(None)
    requires RenderGeneral(cfg, s, Some(env), n).Success? && q == PartsOf(cfg, s, Some(env), n)
    ensures NestedFrame(m, cfg, ctx, s, env, n, emitted, st, q)
  {
    GeneralCheck(cfg, ctx, s, env, n);
    GeneralOut(cfg, s, env, n);
    GeneralShape(cfg, s, Some(env), n);
    ScanFrameFacts(cfg, s, n + 1);
    KnownKeys(WritePaths(cfg, s), q.sc.writes, q.sc.keys.rows);
    NestedRoom(st, n, q, env);
  }

  lemma NestedPrologue(m: Meaning, cfg: Cfg, ctx: Ctx, s: Stmt, env: Env, n: nat, emitted: set<LocKey>, moved: set<Cell>,
                       src: Cells, st: State, q: Parts, want: map<LocKey, int>) returns (st3: State)
    requires NestedFrame(m, cfg, ctx, s, env, n, emitted, st, q)
    requires Setting(m, cfg, ctx, env, n, emitted, moved, st.temps) && StateOk(st) && Follows(m, ctx, env, emitted, moved, src, st)
    requires want == WantOf(AtOf(m, WritePaths(cfg, s), q.sc.writes, q.sc.keys.rows, src), src)
    ensures Run(m, [Let(n, q.cond.e)] + KeyLets(q.sc.keys.rows) + PreLets(q.pre.pres, q.mg.used), st) == Some(st3)
    ensures Grown(st, st3, n, q.pre.n) && StateOk(st3)
    ensures n in st3.temps && st3.temps[n] == ValueOf(m, s.cond, src, map[])
    ensures forall r | r in q.sc.keys.rows :: r.tmp in st3.temps && st3.temps[r.tmp] == ValueOf(m, r.src, src, map[])
    ensures forall p | p in q.pre.pres && p.key in q.mg.used :: p.key in want && p.tmp in st3.temps && st3.temps[p.tmp] == want[p.key]
  {
    var ws, rows := WritePaths(cfg, s), q.sc.keys.rows;
    RenderFollows(m, cfg, ctx, s.cond, env, n, emitted, moved, src, st);
    LiteralRows(m, ws, rows, st.cells, src);
    NestedInits(m, ctx, ws, env, env.Use(q.cond.used), n, emitted, src, st, q.sc.writes, rows, q.pre, q.sc.keys.n, want);
    st3 := Prologue(m, q.cond.e, n, rows, q.pre.pres, q.mg.used, want, st);
  }

  lemma WantHolds(m: Meaning, ws: set<Path>, sc: Scan, src: Cells)
    requires WritesOk(ws, sc.writes, sc.keys.rows) && KeysKnown(ws, sc.writes, sc.keys.rows)
    ensures var want := WantOf(AtOf(m, ws, sc.writes, sc.keys.rows, src), src);
            forall p | p in ws :: KeyOf(p, sc.keys.rows) in want && want[KeyOf(p, sc.keys.rows)] == Load(src, SourceCell(m, p, src))
  {
    var want := WantOf(AtOf(m, ws, sc.writes, sc.keys.rows, src), src);
    forall p | p in ws
      ensures KeyOf(p, sc.keys.rows) in want && want[KeyOf(p, sc.keys.rows)] == Load(src, SourceCell(m, p, src))
    {
      AtIs(m, ws, sc.writes, sc.keys.rows, src, p);
    }
  }

  lemma NestedStart(m: Meaning, cfg: Cfg, ctx: Ctx, s: Stmt, env: Env, n: nat, emitted: set<LocKey>, moved: set<Cell>,
                    src: Cells, st: State, q: Parts) returns (st3: State)
    requires NestedFrame(m, cfg, ctx, s, env, n, emitted, st, q)
    requires Setting(m, cfg, ctx, env, n, emitted, moved, st.temps) && StateOk(st) && Follows(m, ctx, env, emitted, moved, src, st)
    ensures Started(m, cfg, Inner(cfg, ctx, s), s, n, q, MovedIn(m, ctx, env, moved, src), src, st, st3)
  {
    var ci, ws, rows, moved2 := Inner(cfg, ctx, s), WritePaths(cfg, s), q.sc.keys.rows, MovedIn(m, ctx, env, moved, src);
    var want := WantOf(AtOf(m, ws, q.sc.writes, rows, src), src);
    st3 := NestedPrologue(m, cfg, ctx, s, env, n, emitted, moved, src, st, q, want);
    InnerCtxOk(m, cfg, ctx, s);
    MovedCovered(m, cfg, ctx, s, env, n, moved, src);
    StartEnvOk(cfg, ci, q.sc, q.pre, q.env, n + 1);
    StartReady(ci, q.pre.pres, q.env, q.pre.n, q.mg.used, st3.temps);
    InnerCells(m, cfg, ctx, s, env, emitted, moved, src, st);
    WantHolds(m, ws, q.sc, src);
    StartFollows(m, ci, q.pre.pres, q.env, q.pre.n, q.mg.used, moved2, want, src, st3);
  }

  /** A nested frame's own temporaries are not declared outside it. */
  lemma NestedRoom(st: State, n: nat, q: Parts, env: Env)
    requires q.mg.outer.Some? && Extends(env, LastN(q), q.mg.outer.value, q.mg.n) && n <= q.pre.n <= LastN(q)
    requires RoomFor(st, n, q.mg.n, NewDecls(env, q.mg.outer.value))
    ensures forall t | n <= t < LastN(q) :: t !in st.declared && t !in st.temps
  {
  }
}
