/** What the write-set scan establishes. */
module BranchScan {
  import opened Wrappers
  import opened BranchAst
  import opened BranchLowering
  import opened BranchAdmission
  import opened BranchCells

  /** Every computed key of the path is in the table. */
  predicate Resolved(p: Path, rows: seq<Row>) {
    match p
    case Var(_) => true
    case Field(b, _) => Resolved(b, rows)
    case Index(b, k) => Resolved(b, rows) && (k.Lit? || Lookup(rows, k).Some?)
  }

  predicate IsKeyIn(k: Expr, p: Path) {
    match p
    case Var(_) => false
    case Field(b, _) => IsKeyIn(k, b)
    case Index(b, key) => key == k || IsKeyIn(k, b)
  }

  /** Key temporaries are numbered without gaps from `n0`. */
  predicate Consecutive(ks: Keys, n0: nat) {
    && ks.n == n0 + |ks.rows|
    && forall i | 0 <= i < |ks.rows| :: ks.rows[i].tmp == n0 + i
  }

  predicate DistinctTemps(rows: seq<Row>) {
    forall i, j | 0 <= i < j < |rows| :: rows[i].tmp != rows[j].tmp
  }

  lemma {:induction false} LookupIs(rows: seq<Row>, k: Expr)
    ensures Lookup(rows, k).Some? ==> exists i | 0 <= i < |rows| :: rows[i] == Row(k, Lookup(rows, k).value)
  {
    if rows != [] && rows[0].src != k {
      LookupIs(rows[1..], k);
      if Lookup(rows, k).Some? {
        var i :| 0 <= i < |rows[1..]| && rows[1..][i] == Row(k, Lookup(rows, k).value);
        assert rows[i + 1] == Row(k, Lookup(rows, k).value);
      }
    } else if rows != [] {
      assert rows[0] == Row(k, Lookup(rows, k).value);
    }
  }

  lemma {:induction false} LookupPrefix(a: seq<Row>, b: seq<Row>, k: Expr)
    requires a <= b && Lookup(a, k).Some?
    ensures Lookup(b, k) == Lookup(a, k)
    decreases a
  {
    assert b[..|a|] == a;
    if a[0].src != k {
      assert a[1..] <= b[1..] by { assert b[1..][..|a| - 1] == a[1..]; }
      LookupPrefix(a[1..], b[1..], k);
    }
  }

  lemma {:induction false} LookupLast(rows: seq<Row>, k: Expr, t: nat)
    requires Lookup(rows, k).None?
    ensures Lookup(rows + [Row(k, t)], k) == Some(t)
  {
    if rows != [] {
      assert (rows + [Row(k, t)])[1..] == rows[1..] + [Row(k, t)];
      LookupLast(rows[1..], k, t);
    }
  }

  lemma {:induction false} ResolvedPrefix(p: Path, a: seq<Row>, b: seq<Row>)
    requires a <= b && Resolved(p, a)
    ensures Resolved(p, b) && KeyOf(p, b) == KeyOf(p, a) && Display(p, b) == Display(p, a)
    decreases p
  {
    match p
    case Var(_) =>
    case Field(base, _) => ResolvedPrefix(base, a, b);
    case Index(base, k) =>
      ResolvedPrefix(base, a, b);
      if !k.Lit? { LookupPrefix(a, b, k); }
  }

  lemma {:induction false} HoistFacts(p: Path, ks: Keys, n0: nat)
    requires Consecutive(ks, n0) && HoistKeys(p, ks).Success?
    ensures var r := HoistKeys(p, ks).value;
            && ks.rows <= r.rows && Consecutive(r, n0) && Resolved(p, r.rows)
            && forall row | row in r.rows :: row in ks.rows || IsKeyIn(row.src, p)
    decreases p
  {
    match p
    case Var(_) =>
    case Field(b, _) => HoistFacts(b, ks, n0);
    case Index(b, k) =>
      HoistFacts(b, ks, n0);
      var r1 := HoistKeys(b, ks).value;
      if !k.Lit? && Lookup(r1.rows, k).None? {
        LookupLast(r1.rows, k, r1.n);
        ResolvedPrefix(b, r1.rows, HoistKeys(p, ks).value.rows);
      }
  }

  lemma SegsSplit(p: Path, rows: seq<Row>)
    ensures p.Var? ==> SegsOf(p, rows) == []
    ensures p.Field? ==> SegsOf(p, rows) != [] && SegsOf(p, rows)[|SegsOf(p, rows)| - 1] == SField(p.f)
    ensures p.Index? ==> SegsOf(p, rows) != [] && SegsOf(p, rows)[|SegsOf(p, rows)| - 1] == SKey(KeyIdOf(p.key, rows))
    ensures !p.Var? ==> SegsOf(p, rows)[..|SegsOf(p, rows)| - 1] == SegsOf(p.base, rows)
  {
  }

  /** Equal keys are equal paths once every computed key has its own temporary. */
  lemma {:induction false} KeyInjective(p: Path, q: Path, rows: seq<Row>)
    requires Resolved(p, rows) && DistinctTemps(rows)
    requires KeyOf(p, rows) == KeyOf(q, rows)
    ensures p == q
    decreases p
  {
    SegsSplit(p, rows);
    SegsSplit(q, rows);
    if !p.Var? {
      KeyInjective(p.base, q.base, rows);
      if p.Index? {
        LookupIs(rows, p.key);
        LookupIs(rows, q.key);
      }
    }
  }

  lemma {:induction false} HasKeyLoc(writes: seq<Loc>, key: LocKey) returns (l: Loc)
    requires HasKey(writes, key)
    ensures l in writes && l.key == key
  {
    if writes[0].key == key { l := writes[0]; } else { l := HasKeyLoc(writes[1..], key); }
  }

  lemma {:induction false} HasKeyOf(writes: seq<Loc>, l: Loc)
    requires l in writes
    ensures HasKey(writes, l.key)
  {
    if writes[0] != l { HasKeyOf(writes[1..], l); }
  }

  lemma {:induction false} NoAliasAt(writes: seq<Loc>, key: LocKey, l: Loc)
    requires !MayAliasAny(writes, key) && l in writes
    ensures !MayAlias(l.key, key)
  {
    if writes[0] != l { NoAliasAt(writes[1..], key, l); }
  }

  /** Every entry of the write set stands for a path of `ws`. */
  ghost predicate Recorded(ws: set<Path>, writes: seq<Loc>, rows: seq<Row>) {
    forall l | l in writes :: Stands(ws, l, rows)
  }

  ghost predicate Stands(ws: set<Path>, l: Loc, rows: seq<Row>) {
    exists p :: p in ws && l.key == KeyOf(p, rows) && l.display == Display(p, rows)
  }

  /** Every path of `ws` has an entry. */
  predicate Covered(ws: set<Path>, writes: seq<Loc>, rows: seq<Row>) {
    forall p | p in ws :: Resolved(p, rows) && HasKey(writes, KeyOf(p, rows))
  }

  predicate PairwiseApart(ws: set<Path>) {
    forall p, q | p in ws && q in ws && p != q :: Apart(PatOf(p), PatOf(q))
  }

  /** Every hoisted key occurs in a written path. */
  ghost predicate KeysFrom(ws: set<Path>, rows: seq<Row>) {
    forall r | r in rows :: KeyFrom(ws, r.src)
  }

  ghost predicate KeyFrom(ws: set<Path>, k: Expr) {
    exists p :: p in ws && IsKeyIn(k, p)
  }

  /** The write set describes exactly the paths `ws`, and they are pairwise apart. */
  ghost predicate WritesOk(ws: set<Path>, writes: seq<Loc>, rows: seq<Row>) {
    DistinctTemps(rows) && Recorded(ws, writes, rows) && Covered(ws, writes, rows) && PairwiseApart(ws) && KeysFrom(ws, rows)
  }

  lemma ConsecutiveDistinct(ks: Keys, n0: nat)
    requires Consecutive(ks, n0)
    ensures DistinctTemps(ks.rows)
  {
  }

  /** Later hoists leave the recorded keys as they are. */
  lemma MoreRows(ws: set<Path>, writes: seq<Loc>, a: seq<Row>, b: seq<Row>)
    requires Recorded(ws, writes, a) && Covered(ws, writes, a) && a <= b
    ensures Recorded(ws, writes, b) && Covered(ws, writes, b)
  {
    forall p | p in ws
      ensures Resolved(p, b) && KeyOf(p, b) == KeyOf(p, a) && Display(p, b) == Display(p, a)
    {
      ResolvedPrefix(p, a, b);
    }
    forall l | l in writes
      ensures Stands(ws, l, b)
    {
      assert Stands(ws, l, a);
    }
  }

  lemma ApartSymmetric(a: Pat, b: Pat)
    requires Apart(a, b)
    ensures Apart(b, a)
  {
    if a.root == b.root && |a.segs| == |b.segs| {
      var i :| 0 <= i < |a.segs| && SegApart(a.segs[i], b.segs[i]);
      assert SegApart(b.segs[i], a.segs[i]);
    }
  }

  ghost predicate ScanOk(ws: set<Path>, sc: Scan, n0: nat) {
    Consecutive(sc.keys, n0) && WritesOk(ws, sc.writes, sc.keys.rows)
  }

  lemma MoreKeys(p: Path, before: seq<Row>, rows: seq<Row>, ws: set<Path>)
    requires KeysFrom(ws, before)
    requires forall r | r in rows :: r in before || IsKeyIn(r.src, p)
    ensures KeysFrom(ws + {p}, rows)
  {
    forall r | r in rows
      ensures KeyFrom(ws + {p}, r.src)
    {
      assert p in ws + {p};
      if r in before {
        assert KeyFrom(ws, r.src);
        var q :| q in ws && IsKeyIn(r.src, q);
        assert q in ws + {p};
      }
    }
  }

  lemma AddRecorded(ws: set<Path>, writes: seq<Loc>, rows: seq<Row>, p: Path, ty: EType)
    requires Recorded(ws, writes, rows)
    ensures Recorded(ws + {p}, writes + [Loc(KeyOf(p, rows), Display(p, rows), ty)], rows)
  {
    var l0 := Loc(KeyOf(p, rows), Display(p, rows), ty);
    forall l | l in writes + [l0]
      ensures Stands(ws + {p}, l, rows)
    {
      if l in writes {
        assert Stands(ws, l, rows);
        var q :| q in ws && l.key == KeyOf(q, rows) && l.display == Display(q, rows);
        assert q in ws + {p};
      } else {
        assert p in ws + {p};
      }
    }
  }

  lemma AddCovered(ws: set<Path>, writes: seq<Loc>, rows: seq<Row>, p: Path, ty: EType)
    requires Covered(ws, writes, rows) && Resolved(p, rows)
    ensures Covered(ws + {p}, writes + [Loc(KeyOf(p, rows), Display(p, rows), ty)], rows)
  {
    var l0 := Loc(KeyOf(p, rows), Display(p, rows), ty);
    forall q | q in ws + {p}
      ensures Resolved(q, rows) && HasKey(writes + [l0], KeyOf(q, rows))
    {
      if q in ws {
        var l := HasKeyLoc(writes, KeyOf(q, rows));
        HasKeyOf(writes + [l0], l);
      } else {
        HasKeyOf(writes + [l0], l0);
      }
    }
  }

  lemma AddApart(p: Path, writes: seq<Loc>, ws: set<Path>, rows: seq<Row>)
    requires !MayAliasAny(writes, KeyOf(p, rows)) && Covered(ws, writes, rows) && PairwiseApart(ws)
    ensures PairwiseApart(ws + {p})
  {
    forall q | q in ws
      ensures Apart(PatOf(p), PatOf(q)) && Apart(PatOf(q), PatOf(p))
    {
      var l := HasKeyLoc(writes, KeyOf(q, rows));
      NoAliasAt(writes, KeyOf(p, rows), l);
      AliasTestApart(q, p, rows);
      ApartSymmetric(PatOf(q), PatOf(p));
    }
  }

  lemma HoistStep(p: Path, sc: Scan, ws: set<Path>, n0: nat)
    requires ScanOk(ws, sc, n0) && HoistKeys(p, sc.keys).Success?
    ensures var ks := HoistKeys(p, sc.keys).value;
            && Consecutive(ks, n0) && DistinctTemps(ks.rows) && Resolved(p, ks.rows)
            && Recorded(ws, sc.writes, ks.rows) && Covered(ws, sc.writes, ks.rows) && KeysFrom(ws + {p}, ks.rows)
  {
    var ks := HoistKeys(p, sc.keys).value;
    HoistFacts(p, sc.keys, n0);
    ConsecutiveDistinct(ks, n0);
    MoreRows(ws, sc.writes, sc.keys.rows, ks.rows);
    MoreKeys(p, sc.keys.rows, ks.rows, ws);
  }

  lemma KnownPath(p: Path, writes: seq<Loc>, rows: seq<Row>, ws: set<Path>)
    requires DistinctTemps(rows) && Recorded(ws, writes, rows) && Covered(ws, writes, rows)
    requires HasKey(writes, KeyOf(p, rows))
    ensures p in ws
  {
    var l := HasKeyLoc(writes, KeyOf(p, rows));
    assert Stands(ws, l, rows);
    var q :| q in ws && l.key == KeyOf(q, rows) && l.display == Display(q, rows);
    KeyInjective(q, p, rows);
  }

  lemma {:induction false} RecordWriteFacts(cfg: Cfg, p: Path, ty: Option<EType>, sc: Scan, ws: set<Path>, n0: nat)
    requires ScanOk(ws, sc, n0)
    requires RecordWrite(cfg, p, ty, sc).Success?
    ensures ScanOk(ws + Target(cfg, p), RecordWrite(cfg, p, ty, sc).value, n0)
  {
    if RootOf(p) in cfg.locals {
      assert ws + Target(cfg, p) == ws;
    } else {
      var ks := HoistKeys(p, sc.keys).value;
      HoistStep(p, sc, ws, n0);
      assert Target(cfg, p) == {p};
      if HasKey(sc.writes, KeyOf(p, ks.rows)) {
        KnownPath(p, sc.writes, ks.rows, ws);
        assert ws + {p} == ws;
      } else {
        AddRecorded(ws, sc.writes, ks.rows, p, ty.value);
        AddCovered(ws, sc.writes, ks.rows, p, ty.value);
        AddApart(p, sc.writes, ws, ks.rows);
      }
    }
  }

  /** Alias soundness: an accepted scan has recorded every assigned path, under keys
      that are pairwise apart. */
  lemma {:induction false} ScanFacts(cfg: Cfg, s: Stmt, sc: Scan, ws: set<Path>, n0: nat)
    requires ScanOk(ws, sc, n0)
    requires ScanBranch(cfg, s, sc).Success?
    ensures ScanOk(ws + WritePaths(cfg, s), ScanBranch(cfg, s, sc).value, n0)
    decreases s
  {
    match s
    case Assign(p, ty, _) => RecordWriteFacts(cfg, p, ty, sc, ws, n0);
    case Compound(p, ty, _, _) => RecordWriteFacts(cfg, p, ty, sc, ws, n0);
    case IncDec(p, ty, _) => RecordWriteFacts(cfg, p, ty, sc, ws, n0);
    case Decl(_, _) => assert ws + WritePaths(cfg, s) == ws;
    case ExprStmt(_) => assert ws + WritePaths(cfg, s) == ws;
    case Block(b) => ScanAllFacts(cfg, b, sc, ws, n0);
    case Unchecked(b) => ScanAllFacts(cfg, b, sc, ws, n0);
    case If(_, t, e) =>
      ScanFacts(cfg, t, sc, ws, n0);
      if e.Some? {
        ScanFacts(cfg, e.value, ScanBranch(cfg, t, sc).value, ws + WritePaths(cfg, t), n0);
        assert ws + WritePaths(cfg, s) == ws + WritePaths(cfg, t) + WritePaths(cfg, e.value);
      } else {
        assert ws + WritePaths(cfg, s) == ws + WritePaths(cfg, t);
      }
  }

  lemma {:induction false} ScanAllFacts(cfg: Cfg, ss: seq<Stmt>, sc: Scan, ws: set<Path>, n0: nat)
    requires ScanOk(ws, sc, n0)
    requires ScanAll(cfg, ss, sc).Success?
    ensures ScanOk(ws + WritePathsAll(cfg, ss), ScanAll(cfg, ss, sc).value, n0)
    decreases ss
  {
    if ss == [] {
      assert ws + WritePathsAll(cfg, ss) == ws;
    } else {
      ScanFacts(cfg, ss[0], sc, ws, n0);
      ScanAllFacts(cfg, ss[1..], ScanBranch(cfg, ss[0], sc).value, ws + WritePaths(cfg, ss[0]), n0);
      assert ws + WritePathsAll(cfg, ss) == ws + WritePaths(cfg, ss[0]) + WritePathsAll(cfg, ss[1..]);
    }
  }

  lemma {:induction false} ScanFrameFacts(cfg: Cfg, s: Stmt, n: nat)
    requires s.If? && ScanFrame(cfg, s, n).Success?
    ensures ScanOk(WritePaths(cfg, s), ScanFrame(cfg, s, n).value, n)
  {
    var sc0 := Scan([], Keys([], n));
    ScanFacts(cfg, s.thn, sc0, {}, n);
    assert {} + WritePaths(cfg, s.thn) == WritePaths(cfg, s.thn);
    if s.els.Some? {
      ScanFacts(cfg, s.els.value, ScanBranch(cfg, s.thn, sc0).value, WritePaths(cfg, s.thn), n);
    } else {
      assert WritePaths(cfg, s) == WritePaths(cfg, s.thn);
    }
  }
}
