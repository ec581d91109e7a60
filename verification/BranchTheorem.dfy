/**
 The main theorem about encrypted `if`s: running the emitted block gives every
 cell, branch locals apart, the value the source statement gives it.
 */
module BranchTheorem {
  import opened Wrappers
  import opened BranchAst
  import opened BranchLowering
  import opened BranchAdmission
  import opened BranchCells
  import opened BranchScan
  import opened BranchShape
  import opened BranchRelation
  import opened BranchStep
  import opened BranchSimple
  import opened BranchFrame
  import opened BranchPrologue
  import opened BranchSim
  import opened BranchArms
  import opened BranchNested
  import opened BranchMerge
  import opened BranchInduction
  import opened BranchTrace

  /** Two stores that differ at most in the statement's own locals. */
  ghost predicate Agree(m: Meaning, s: Stmt, c: Cells, d: Cells) {
    forall x: Cell :: !Under(m, Decls(s), x) ==> Load(c, x) == Load(d, x)
  }

  /** No temporary from `n` on has been declared. */
  ghost predicate Unused(st: State, n: nat) {
    StateOk(st) && forall t | t in st.declared :: t < n
  }

  /** A statement inside the hypotheses, and a meaning that satisfies them. */
  ghost predicate Sound(m: Meaning, safeCall: string -> bool, s: Stmt, roots: set<VarId>, texts: set<string>)
    requires s.If?
  {
    Admissible(safeCall, s, roots, texts) && RootsDisjoint(m, roots) && KeysCanonical(m, texts)
  }

  /** The emitted block has run: the source's store, and no temporary left over. */
  ghost predicate Preserved(m: Meaning, s: Stmt, src: Cells, st: State, st2: State) {
    Agree(m, s, Exec(m, s, src), st2.cells) && st2.temps == st.temps && st2.declared == st.declared
  }

  /** What the hypotheses give about the statement's parts. */
  ghost predicate TopOk(m: Meaning, cfg: Cfg, ctx: Ctx, s: Stmt) {
    && s.If? && MeaningOk(m, ctx) && CtxOk(cfg, ctx) && ReadsOk(s.cond, ctx, true)
    && ctx.writes == WritePaths(cfg, s) && ctx.dead == cfg.locals == Decls(s) && ctx.live == {}
    && Check(cfg, s.thn, ctx).Some? && (s.els.Some? ==> Check(cfg, s.els.value, ctx).Some?)
  }

  lemma TopCtxOk(m: Meaning, safeCall: string -> bool, s: Stmt, roots: set<VarId>, texts: set<string>)
    requires s.If? && Sound(m, safeCall, s, roots, texts)
    ensures var cfg := Cfg(Decls(s), safeCall); TopOk(m, cfg, TopCtx(cfg, s, roots, texts), s)
  {
  }

  lemma GeneralCode(cfg: Cfg, s: Stmt, n: nat, q: Parts)
    requires s.If? && RenderGeneral(cfg, s, None, n).Success? && q == PartsOf(cfg, s, None, n)
    ensures RenderGeneral(cfg, s, None, n).value.code
            == [Scope(Assemble(n, q.cond.e, q.sc.keys.rows, q.pre.pres, q.mg.used, q.thn, q.els, q.mg.code))]
  {
  }

  /** Text the check lets stand raw means the same in both stores. */
  lemma TopText(m: Meaning, cfg: Cfg, ctx: Ctx, e: Expr, src: Cells, st: State)
    requires MeaningOk(m, ctx) && CtxOk(cfg, ctx) && ReadsOk(e, ctx, true)
    requires forall x: Cell :: !Under(m, ctx.dead, x) ==> Load(src, x) == Load(st.cells, x)
    ensures Defined(e, st.temps) && ValueOf(m, e, st.cells, st.temps) == ValueOf(m, e, src, map[])
  {
    CtxPatsIn(cfg, ctx);
    RawValue(m, ctx, e, st.cells, src, st.temps, map[]);
  }

  lemma TopRows(m: Meaning, cfg: Cfg, ctx: Ctx, rows: seq<Row>, src: Cells, st: State)
    requires MeaningOk(m, ctx) && CtxOk(cfg, ctx) && KeysFrom(ctx.writes, rows)
    requires forall x: Cell :: !Under(m, cfg.locals, x) ==> Load(src, x) == Load(st.cells, x)
    ensures forall r | r in rows :: Closed(m, r.src, st.cells) && ValueOf(m, r.src, st.cells, map[]) == ValueOf(m, r.src, src, map[])
  {
    CtxPatsIn(cfg, ctx);
    var sx := StableCtx(cfg, ctx);
    forall r | r in rows
      ensures Closed(m, r.src, st.cells) && ValueOf(m, r.src, st.cells, map[]) == ValueOf(m, r.src, src, map[])
    {
      RowReadsOk(cfg, ctx, rows, r);
      RawValue(m, sx, r.src, st.cells, src, map[], map[]);
      forall t: map<nat, int>
        ensures Defined(r.src, t) && ValueOf(m, r.src, st.cells, t) == ValueOf(m, r.src, st.cells, map[])
      {
        RawValue(m, sx, r.src, st.cells, st.cells, t, map[]);
      }
    }
  }

  /** A top-level pre-value reads its location. */
  lemma TopInit(m: Meaning, cfg: Cfg, ctx: Ctx, p: Path, rows: seq<Row>, src: Cells, st: State)
    requires MeaningOk(m, ctx) && CtxOk(cfg, ctx) && p in ctx.writes && Resolved(p, rows)
    requires forall r | r in rows :: ValueOf(m, r.src, st.cells, map[]) == ValueOf(m, r.src, src, map[])
    requires forall x: Cell :: !Under(m, cfg.locals, x) ==> Load(src, x) == Load(st.cells, x)
    ensures InitOk(m, Read(Display(p, rows)), rows, st, Load(src, SourceCell(m, p, src)))
  {
    forall v | v in cfg.locals
      ensures !(m.place(v) <= SourceCell(m, p, src))
    {
      LocalCells(m, cfg, ctx, v, p, src);
    }
    forall t: map<nat, int> | forall r | r in rows :: r.tmp in t && t[r.tmp] == ValueOf(m, r.src, st.cells, map[])
      ensures Defined(Read(Display(p, rows)), t)
      ensures ValueOf(m, Read(Display(p, rows)), st.cells, t) == Load(src, SourceCell(m, p, src))
    {
      DisplayCell(m, p, rows, src, t);
    }
  }

  lemma TopInits(m: Meaning, cfg: Cfg, ctx: Ctx, writes: seq<Loc>, rows: seq<Row>, n: nat, src: Cells, st: State, want: map<LocKey, int>)
    requires MeaningOk(m, ctx) && CtxOk(cfg, ctx) && WritesOk(ctx.writes, writes, rows) && KeysKnown(ctx.writes, writes, rows)
    requires forall r | r in rows :: ValueOf(m, r.src, st.cells, map[]) == ValueOf(m, r.src, src, map[])
    requires forall x: Cell :: !Under(m, cfg.locals, x) ==> Load(src, x) == Load(st.cells, x)
    requires want == WantOf(AtOf(m, ctx.writes, writes, rows, src), src)
    ensures forall p | p in AllocPre(writes, None, n).pres :: p.key in want && InitOk(m, p.init, rows, st, want[p.key])
  {
    var pres := AllocPre(writes, None, n).pres;
    AllocPreInits(writes, None, n);
    forall i | 0 <= i < |pres|
      ensures pres[i].key in want && InitOk(m, pres[i].init, rows, st, want[pres[i].key])
    {
      var p := AtOfLoc(m, ctx.writes, writes, rows, src, writes[i]);
      TopInit(m, cfg, ctx, p, rows, src, st);
    }
  }

  /** What is known of a top-level frame before it runs. */
  ghost predicate TopFrame(m: Meaning, cfg: Cfg, ctx: Ctx, s: Stmt, n: nat, q: Parts, src: Cells, st: State) {
    && TopOk(m, cfg, ctx, s)
    && ScanOk(ctx.writes, q.sc, n + 1) && KeysKnown(ctx.writes, q.sc.writes, q.sc.keys.rows)
    && q.cond == Rendered(s.cond, {}) && q.pre == AllocPre(q.sc.writes, None, q.sc.keys.n)
    && q.env == Env(q.sc.writes, q.sc.keys.rows, PreMap(q.pre.pres), PreMap(q.pre.pres), [], {})
    && n < q.sc.keys.n && q.pre.n <= LastN(q) && Unused(st, n)
    && (forall x: Cell :: !Under(m, cfg.locals, x) ==> Load(src, x) == Load(st.cells, x))
  }

  lemma TopPrologue(m: Meaning, cfg: Cfg, ctx: Ctx, s: Stmt, n: nat, q: Parts, src: Cells, st: State, want: map<LocKey, int>)
    returns (st3: State)
    requires TopFrame(m, cfg, ctx, s, n, q, src, st)
    requires want == WantOf(AtOf(m, ctx.writes, q.sc.writes, q.sc.keys.rows, src), src)
    ensures Run(m, Begin(n, q), st) == Some(st3)
    ensures Grown(st, st3, n, q.pre.n) && StateOk(st3)
    ensures n in st3.temps && st3.temps[n] == ValueOf(m, s.cond, src, map[])
    ensures forall r | r in q.sc.keys.rows :: r.tmp in st3.temps && st3.temps[r.tmp] == ValueOf(m, r.src, src, map[])
    ensures forall p | p in q.pre.pres && p.key in q.mg.used :: p.key in want && p.tmp in st3.temps && st3.temps[p.tmp] == want[p.key]
  {
    var rows := q.sc.keys.rows;
    TopText(m, cfg, ctx, s.cond, src, st);
    TopRows(m, cfg, ctx, rows, src, st);
    TopInits(m, cfg, ctx, q.sc.writes, rows, q.sc.keys.n, src, st, want);
    st3 := Prologue(m, s.cond, n, rows, q.pre.pres, q.mg.used, want, st);
  }

  lemma TopStart(m: Meaning, cfg: Cfg, ctx: Ctx, s: Stmt, n: nat, q: Parts, src: Cells, st: State) returns (st3: State)
    requires TopFrame(m, cfg, ctx, s, n, q, src, st)
    ensures Started(m, cfg, ctx, s, n, q, {}, src, st, st3)
  {
    var ws, rows := ctx.writes, q.sc.keys.rows;
    var want := WantOf(AtOf(m, ws, q.sc.writes, rows, src), src);
    st3 := TopPrologue(m, cfg, ctx, s, n, q, src, st, want);
    StartEnvOk(cfg, ctx, q.sc, q.pre, q.env, n + 1);
    StartReady(ctx, q.pre.pres, q.env, q.pre.n, q.mg.used, st3.temps);
    forall p | p in ws
      ensures KeyOf(p, rows) in want && want[KeyOf(p, rows)] == Load(src, SourceCell(m, p, src))
    {
      AtIs(m, ws, q.sc.writes, rows, src, p);
    }
    StartFollows(m, ctx, q.pre.pres, q.env, q.pre.n, q.mg.used, {}, want, src, st3);
  }

  /** The merges of a top-level frame, and the store they leave. */
  lemma TopEnd(m: Meaning, cfg: Cfg, ctx: Ctx, s: Stmt, n: nat, q: Parts, src: Cells, b: State) returns (c: State)
    requires s.If? && RenderGeneral(cfg, s, None, n).Success? && q == PartsOf(cfg, s, None, n)
    requires MeaningOk(m, ctx) && ctx.dead == cfg.locals
    requires Mergeable(cfg, ctx, s, q, n) && Ran(m, ctx, s, q, q.mg.used, {}, src, b)
    requires n in b.temps && b.temps[n] == ValueOf(m, s.cond, src, map[])
    requires forall r | r in q.sc.keys.rows :: r.tmp in b.temps && b.temps[r.tmp] == ValueOf(m, r.src, src, map[])
    ensures Run(m, q.mg.code, b) == Some(c) && c.temps == b.temps
    ensures forall x: Cell :: !Under(m, cfg.locals, x) ==> Load(Exec(m, s, src), x) == Load(c.cells, x)
  {
    var ws, rows, src2 := ctx.writes, q.sc.keys.rows, Exec(m, s, src);
    var at := AtOf(m, ws, q.sc.writes, rows, src);
    var last := if q.els.Some? then q.els.value else q.thn;
    forall l | l in q.sc.writes
      ensures l.key in at && MergeReady(m, l, n, q.env.pre, q.thn.env.versions, ElsVersions(q), b.temps, at, src2)
    {
      var p := MergeAt(m, cfg, ctx, s, q, n, {}, src, b, l);
      DisplayCell(m, p, rows, src, b.temps);
    }
    c := TopMerges(m, q.sc.writes, n, q.env.pre, q.thn.env.versions, ElsVersions(q), last.n, last.env.used, at, src2, b);
    forall x: Cell | !Under(m, cfg.locals, x)
      ensures Load(src2, x) == Load(c.cells, x)
    {
      if x !in CellsAt(q.sc.writes, at) {
        forall p | p in ws
          ensures x != SourceCell(m, p, src)
        {
          AtIs(m, ws, q.sc.writes, rows, src, p);
          var l := HasKeyLoc(q.sc.writes, KeyOf(p, rows));
        }
        ElsewhereHolds(m, cfg, ctx, s, q, n, {}, src, b, x);
      }
    }
  }

  lemma TopFrameOk(m: Meaning, cfg: Cfg, ctx: Ctx, s: Stmt, n: nat, q: Parts, src: Cells, st: State)
    requires TopOk(m, cfg, ctx, s)
    requires RenderGeneral(cfg, s, None, n).Success? && q == PartsOf(cfg, s, None, n) && Unused(st, n)
    requires forall x: Cell :: !Under(m, cfg.locals, x) ==> Load(src, x) == Load(st.cells, x)
    ensures TopFrame(m, cfg, ctx, s, n, q, src, st)
  {
    GeneralShape(cfg, s, None, n);
    ScanFrameFacts(cfg, s, n + 1);
    KnownKeys(ctx.writes, q.sc.writes, q.sc.keys.rows);
  }

  /** Every temporary of the frame goes out of scope with it. */
  lemma TopLeaves(st: State, st3: State, b: State, c: State, n: nat, q: Parts)
    requires Unused(st, n) && Grown(st, st3, n, q.pre.n) && b.temps.Keys <= st3.temps.Keys + Inside(q)
    requires (forall t | t in st3.temps :: t in b.temps && b.temps[t] == st3.temps[t]) && c.temps == b.temps
    requires forall t | t in Inside(q) :: n <= t
    ensures Visible(c.temps, st.declared) == st.temps
  {
  }

  lemma TopArms(m: Meaning, cfg: Cfg, ctx: Ctx, s: Stmt, n: nat, q: Parts, src: Cells, st: State) returns (st3: State, b: State)
    requires TopFrame(m, cfg, ctx, s, n, q, src, st)
    requires RenderGeneral(cfg, s, None, n).Success? && q == PartsOf(cfg, s, None, n)
    ensures Started(m, cfg, ctx, s, n, q, {}, src, st, st3)
    ensures s.els.Some? <==> q.els.Some?
    ensures Run(m, ArmsCode(q), st3) == Some(b)
    ensures FrameRan(m, ctx, s, q, q.mg.used, {}, src, st3, b)
  {
    st3 := TopStart(m, cfg, ctx, s, n, q, src, st);
    FrameIsReady(m, cfg, ctx, s, None, n, q, {}, src, st, st3);
    b := ArmsSim(m, cfg, ctx, s, q, q.mg.used, {}, src, st3);
  }

  lemma TopRun(m: Meaning, cfg: Cfg, ctx: Ctx, s: Stmt, n: nat, q: Parts, src: Cells, st: State) returns (st2: State)
    requires TopFrame(m, cfg, ctx, s, n, q, src, st)
    requires RenderGeneral(cfg, s, None, n).Success? && q == PartsOf(cfg, s, None, n)
    ensures Run(m, [Scope(Assemble(n, q.cond.e, q.sc.keys.rows, q.pre.pres, q.mg.used, q.thn, q.els, q.mg.code))], st) == Some(st2)
    ensures Preserved(m, s, src, st, st2)
  {
    var st3, b := TopArms(m, cfg, ctx, s, n, q, src, st);
    FrameMergeable(cfg, ctx, s, None, n, q);
    var c := TopEnd(m, cfg, ctx, s, n, q, src, b);
    InsideRange(cfg, s, None, n, q);
    TopLeaves(st, st3, b, c, n, q);
    FrameRun(m, n, q, st, st3, b, c);
    st2 := State(c.cells, st.temps, st.declared);
  }

  /** The frame evaluates the expression statements of both arms. */
  lemma TopTraced(m: Meaning, cfg: Cfg, ctx: Ctx, s: Stmt, n: nat, q: Parts, src: Cells, st: State)
    requires TopFrame(m, cfg, ctx, s, n, q, src, st)
    requires RenderGeneral(cfg, s, None, n).Success? && q == PartsOf(cfg, s, None, n)
    ensures Traced(m, [Scope(Assemble(n, q.cond.e, q.sc.keys.rows, q.pre.pres, q.mg.used, q.thn, q.els, q.mg.code))], st) == Both(m, s, src)
  {
    var st3 := TopStart(m, cfg, ctx, s, n, q, src, st);
    FrameIsReady(m, cfg, ctx, s, None, n, q, {}, src, st, st3);
    var b := ArmsSim(m, cfg, ctx, s, q, q.mg.used, {}, src, st3);
    ArmsTraced(m, cfg, ctx, s, q, q.mg.used, {}, src, st3);
    FrameMergesSilent(cfg, s, None, n, q);
    FrameTraced(m, n, q, st, st3, b);
  }

  /** The general form keeps the meaning, with nested frames of any depth. */
  lemma GeneralPreserves(m: Meaning, safeCall: string -> bool, s: Stmt, roots: set<VarId>, texts: set<string>, n: nat, src: Cells, st: State)
    returns (st2: State)
    requires s.If? && Sound(m, safeCall, s, roots, texts)
    requires RenderGeneral(Cfg(Decls(s), safeCall), s, None, n).Success?
    requires Agree(m, s, src, st.cells) && Unused(st, n)
    ensures Run(m, RenderGeneral(Cfg(Decls(s), safeCall), s, None, n).value.code, st) == Some(st2)
    ensures Preserved(m, s, src, st, st2)
    ensures Traced(m, RenderGeneral(Cfg(Decls(s), safeCall), s, None, n).value.code, st) == Both(m, s, src)
  {
    var cfg := Cfg(Decls(s), safeCall);
    var ctx, q := TopCtx(cfg, s, roots, texts), PartsOf(cfg, s, None, n);
    TopCtxOk(m, safeCall, s, roots, texts);
    GeneralCode(cfg, s, n, q);
    TopFrameOk(m, cfg, ctx, s, n, q, src, st);
    st2 := TopRun(m, cfg, ctx, s, n, q, src, st);
    TopTraced(m, cfg, ctx, s, n, q, src, st);
  }

  /** The direct form is one write of a `select` over the source text. */
  lemma DirectPreserves(m: Meaning, safeCall: string -> bool, s: Stmt, roots: set<VarId>, texts: set<string>, n: nat, src: Cells, st: State)
    returns (st2: State)
    requires s.If? && Sound(m, safeCall, s, roots, texts)
    requires var r := TryDirect(Cfg(Decls(s), safeCall), s, None, n); r.Success? && r.value.Some?
    requires Agree(m, s, src, st.cells) && Unused(st, n)
    ensures Run(m, TryDirect(Cfg(Decls(s), safeCall), s, None, n).value.value.code, st) == Some(st2)
    ensures Preserved(m, s, src, st, st2)
    ensures Traced(m, TryDirect(Cfg(Decls(s), safeCall), s, None, n).value.value.code, st) == Both(m, s, src)
    ensures Decls(s) == {}
  {
    var cfg := Cfg(Decls(s), safeCall);
    var ctx := TopCtx(cfg, s, roots, texts);
    var d := DirectShape(cfg, s).value.value;
    TopCtxOk(m, safeCall, s, roots, texts);
    DirectMeaning(m, cfg, s, d, src);
    DirectTraced(m, cfg, s, None, n, src, st);
    var select := Select(s.cond, d.yes, d.no);
    TopText(m, cfg, ctx, select, src, st);
    st2 := st.(cells := st.cells[m.place(d.v) := ValueOf(m, select, st.cells, st.temps)]);
    RunOne(m, SetLoc(Var(d.v), select), st);
  }

  /**
   Meaning preservation.  Whenever lowering a top-level encrypted `if` succeeds,
   the emitted block runs to its end from every store, so that every temporary is
   declared once and assigned once before it is read.  Each cell outside the
   statement's own locals then holds what the source statement puts there, and the
   expression statements of both arms have been evaluated, in source order and with
   the source's values.
   */
  lemma LoweringPreserves(m: Meaning, safeCall: string -> bool, s: Stmt, roots: set<VarId>, texts: set<string>, n: nat, src: Cells, st: State)
    returns (st2: State)
    requires s.If? && Sound(m, safeCall, s, roots, texts)
    requires LowerTopIf(safeCall, s, n).Success?
    requires Agree(m, s, src, st.cells) && Unused(st, n)
    ensures Run(m, LowerTopIf(safeCall, s, n).value.code, st) == Some(st2)
    ensures Preserved(m, s, src, st, st2)
    ensures Traced(m, LowerTopIf(safeCall, s, n).value.code, st) == Both(m, s, src)
  {
    if TryDirect(Cfg(Decls(s), safeCall), s, None, n).value.Some? {
      st2 := DirectPreserves(m, safeCall, s, roots, texts, n, src, st);
    } else {
      st2 := GeneralPreserves(m, safeCall, s, roots, texts, n, src, st);
    }
  }

  /** Where both forms apply they leave the same state, cell for cell. */
  lemma DirectRefinesGeneral(m: Meaning, safeCall: string -> bool, s: Stmt, roots: set<VarId>, texts: set<string>, n: nat, st: State)
    requires s.If? && Sound(m, safeCall, s, roots, texts) && Unused(st, n)
    requires var r := TryDirect(Cfg(Decls(s), safeCall), s, None, n); r.Success? && r.value.Some?
    requires RenderGeneral(Cfg(Decls(s), safeCall), s, None, n).Success?
    ensures var a := Run(m, TryDirect(Cfg(Decls(s), safeCall), s, None, n).value.value.code, st);
            var b := Run(m, RenderGeneral(Cfg(Decls(s), safeCall), s, None, n).value.code, st);
            && a.Some? && b.Some? && a.value.temps == b.value.temps && a.value.declared == b.value.declared
            && forall x: Cell :: Load(a.value.cells, x) == Load(b.value.cells, x)
  {
    var a := DirectPreserves(m, safeCall, s, roots, texts, n, st.cells, st);
    var b := GeneralPreserves(m, safeCall, s, roots, texts, n, st.cells, st);
    forall x: Cell
      ensures Load(a.cells, x) == Load(b.cells, x)
    {
      assert !Under(m, Decls(s), x);
    }
  }
}
