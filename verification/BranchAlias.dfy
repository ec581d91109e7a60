/** Alias soundness of an accepted write set, over every store. */
module BranchAlias {
  import opened Wrappers
  import opened BranchAst
  import opened BranchLowering
  import opened BranchAdmission
  import opened BranchCells
  import opened BranchScan

  /** The pass names a location as the source does, up to computed keys. */
  lemma {:induction false} DisplayPattern(p: Path, rows: seq<Row>)
    ensures PatOf(Display(p, rows)) == PatOf(p)
    decreases p
  {
    if !p.Var? { DisplayPattern(p.base, rows); }
  }

  /** Paths whose patterns are apart denote different cells, whatever the stores. */
  lemma ApartInEveryStore(m: Meaning, ctx: Ctx, p: Path, q: Path, a: Path, b: Path, c: Cells, t: map<nat, int>, d: Cells, u: map<nat, int>)
    requires MeaningOk(m, ctx) && InUniverse(p, ctx) && InUniverse(q, ctx) && Apart(PatOf(p), PatOf(q))
    requires PatOf(a) == PatOf(p) && PatOf(b) == PatOf(q)
    ensures CellOf(m, a, c, t) != CellOf(m, b, d, u)
  {
    PatInUniverse(p, ctx);
    PatInUniverse(q, ctx);
    CellFits(m, a, c, t);
    CellFits(m, b, d, u);
    ApartCells(m, ctx, PatOf(p), PatOf(q), CellOf(m, a, c, t));
  }

  ghost predicate DistinctKeys(writes: seq<Loc>) {
    forall i, j | 0 <= i < j < |writes| :: writes[i].key != writes[j].key
  }

  lemma RecordOnce(cfg: Cfg, p: Path, ty: Option<EType>, sc: Scan)
    requires DistinctKeys(sc.writes) && RecordWrite(cfg, p, ty, sc).Success?
    ensures DistinctKeys(RecordWrite(cfg, p, ty, sc).value.writes)
  {
    forall i | 0 <= i < |sc.writes|
      ensures HasKey(sc.writes, sc.writes[i].key)
    {
      HasKeyOf(sc.writes, sc.writes[i]);
    }
  }

  lemma {:induction false} ScanOnce(cfg: Cfg, s: Stmt, sc: Scan)
    requires DistinctKeys(sc.writes) && ScanBranch(cfg, s, sc).Success?
    ensures DistinctKeys(ScanBranch(cfg, s, sc).value.writes)
    decreases s
  {
    match s
    case Assign(p, ty, _) => RecordOnce(cfg, p, ty, sc);
    case Compound(p, ty, _, _) => RecordOnce(cfg, p, ty, sc);
    case IncDec(p, ty, _) => RecordOnce(cfg, p, ty, sc);
    case Decl(_, _) =>
    case ExprStmt(_) =>
    case Block(b) => ScanAllOnce(cfg, b, sc);
    case Unchecked(b) => ScanAllOnce(cfg, b, sc);
    case If(_, t, e) =>
      ScanOnce(cfg, t, sc);
      if e.Some? { ScanOnce(cfg, e.value, ScanBranch(cfg, t, sc).value); }
  }

  lemma {:induction false} ScanAllOnce(cfg: Cfg, ss: seq<Stmt>, sc: Scan)
    requires DistinctKeys(sc.writes) && ScanAll(cfg, ss, sc).Success?
    ensures DistinctKeys(ScanAll(cfg, ss, sc).value.writes)
    decreases ss
  {
    if ss != [] {
      ScanOnce(cfg, ss[0], sc);
      ScanAllOnce(cfg, ss[1..], ScanBranch(cfg, ss[0], sc).value);
    }
  }

  lemma FrameOnce(cfg: Cfg, s: Stmt, n: nat)
    requires s.If? && ScanFrame(cfg, s, n).Success?
    ensures DistinctKeys(ScanFrame(cfg, s, n).value.writes)
  {
    var sc := Scan([], Keys([], n));
    ScanOnce(cfg, s.thn, sc);
    if s.els.Some? { ScanOnce(cfg, s.els.value, ScanBranch(cfg, s.thn, sc).value); }
  }

  /**
   When the scan accepts a statement, the locations of its write set are named by
   distinct keys and denote different cells, whatever the stores and the key
   temporaries hold, as long as distinct roots live apart and literal keys have one
   spelling.
   */
  lemma AliasSound(m: Meaning, cfg: Cfg, s: Stmt, n: nat, ctx: Ctx, i: nat, j: nat, c: Cells, t: map<nat, int>, d: Cells, u: map<nat, int>)
    requires s.If? && ScanFrame(cfg, s, n).Success? && MeaningOk(m, ctx)
    requires forall p | p in WritePaths(cfg, s) :: InUniverse(p, ctx)
    requires var ws := ScanFrame(cfg, s, n).value.writes; i < |ws| && j < |ws| && i != j
    ensures var ws := ScanFrame(cfg, s, n).value.writes;
            ws[i].key != ws[j].key && CellOf(m, ws[i].display, c, t) != CellOf(m, ws[j].display, d, u)
  {
    var sc := ScanFrame(cfg, s, n).value;
    FrameOnce(cfg, s, n);
    ScanFrameFacts(cfg, s, n);
    assert Stands(WritePaths(cfg, s), sc.writes[i], sc.keys.rows) && Stands(WritePaths(cfg, s), sc.writes[j], sc.keys.rows);
    var p :| p in WritePaths(cfg, s) && sc.writes[i].key == KeyOf(p, sc.keys.rows) && sc.writes[i].display == Display(p, sc.keys.rows);
    var q :| q in WritePaths(cfg, s) && sc.writes[j].key == KeyOf(q, sc.keys.rows) && sc.writes[j].display == Display(q, sc.keys.rows);
    DisplayPattern(p, sc.keys.rows);
    DisplayPattern(q, sc.keys.rows);
    ApartInEveryStore(m, ctx, p, q, sc.writes[i].display, sc.writes[j].display, c, t, d, u);
  }

  /** A location an arm reads is versioned, or is none of the written cells in any store. */
  lemma ReadSound(m: Meaning, cfg: Cfg, s: Stmt, n: nat, ctx: Ctx, env: Env, p: Path, c: Cells, t: map<nat, int>, d: Cells, u: map<nat, int>)
    requires s.If? && ScanFrame(cfg, s, n).Success? && MeaningOk(m, ctx)
    requires forall q | q in WritePaths(cfg, s) :: InUniverse(q, ctx)
    requires var sc := ScanFrame(cfg, s, n).value; env.writes == sc.writes && env.rows == sc.keys.rows
    requires InUniverse(p, ctx) && RootOf(p) !in cfg.locals && RenderPath(cfg, p, env).Success?
    ensures HasKey(env.writes, KeyOf(p, env.rows)) || forall l | l in env.writes :: CellOf(m, p, c, t) != CellOf(m, l.display, d, u)
  {
    ScanFrameFacts(cfg, s, n);
    if !HasKey(env.writes, KeyOf(p, env.rows)) {
      forall l | l in env.writes
        ensures CellOf(m, p, c, t) != CellOf(m, l.display, d, u)
      {
        assert Stands(WritePaths(cfg, s), l, env.rows);
        var q :| q in WritePaths(cfg, s) && l.key == KeyOf(q, env.rows) && l.display == Display(q, env.rows);
        NoAliasAt(env.writes, KeyOf(p, env.rows), l);
        AliasTestApart(q, p, env.rows);
        ApartSymmetric(PatOf(q), PatOf(p));
        DisplayPattern(q, env.rows);
        ApartInEveryStore(m, ctx, p, q, p, l.display, c, t, d, u);
      }
    }
  }
}
