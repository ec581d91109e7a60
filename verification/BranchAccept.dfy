/**
 Which encrypted `if`s are lowered.  The answer is given over the source text alone:
 the statements that occur, the declared types, the keys of written paths and which
 paths may clash.
 */
module BranchAccept {
  import opened Wrappers
  import opened BranchAst
  import opened BranchLowering
  import opened BranchAdmission
  import opened BranchCells
  import opened BranchScan
  import opened BranchShape

  // ---- paths that may clash ------------------------------------------------------------

  datatype At = AtField(f: string) | AtKey(k: Expr)

  function Steps(p: Path): seq<At> {
    match p
    case Var(_) => []
    case Field(b, f) => Steps(b) + [AtField(f)]
    case Index(b, k) => Steps(b) + [AtKey(k)]
  }

  /** Two fields, or two literal keys, that are spelled differently. */
  predicate ToldApart(a: At, b: At) {
    match (a, b)
    case (AtField(x), AtField(y)) => x != y
    case (AtKey(x), AtKey(y)) => x.Lit? && y.Lit? && x != y
    case _ => false
  }

  /** The paths agree up to a step at which they certainly part. */
  predicate PartAt(p: Path, q: Path, i: nat) {
    i < |Steps(p)| && i < |Steps(q)| && Steps(p)[..i] == Steps(q)[..i] && ToldApart(Steps(p)[i], Steps(q)[i])
  }

  /** Different paths on one root of which nothing tells whether they are one location. */
  predicate Clash(p: Path, q: Path) {
    RootOf(p) == RootOf(q) && p != q && forall i | 0 <= i < |Steps(p)| :: !PartAt(p, q, i)
  }

  predicate NoClash(ws: set<Path>) {
    forall p, q | p in ws && q in ws :: !Clash(p, q)
  }

  lemma ClashSymmetric(p: Path, q: Path)
    ensures Clash(p, q) <==> Clash(q, p)
  {
    forall i: nat
      ensures PartAt(p, q, i) <==> PartAt(q, p, i)
    {
    }
  }

  lemma {:induction false} StepsInjective(p: Path, q: Path)
    requires RootOf(p) == RootOf(q) && Steps(p) == Steps(q)
    ensures p == q
    decreases p
  {
    if !p.Var? && !q.Var? {
      var a, b := Steps(p), Steps(q);
      assert a[|a| - 1] == b[|b| - 1];
      assert Steps(p.base) == a[..|a| - 1] && Steps(q.base) == b[..|b| - 1];
      StepsInjective(p.base, q.base);
    }
  }

  function SegOf(a: At, rows: seq<Row>): Seg {
    match a
    case AtField(f) => SField(f)
    case AtKey(k) => SKey(KeyIdOf(k, rows))
  }

  lemma {:induction false} SegsAre(p: Path, rows: seq<Row>)
    ensures |SegsOf(p, rows)| == |Steps(p)|
    ensures forall i | 0 <= i < |Steps(p)| :: SegsOf(p, rows)[i] == SegOf(Steps(p)[i], rows)
    decreases p
  {
    if !p.Var? { SegsAre(p.base, rows); }
  }

  predicate Known(a: At, rows: seq<Row>) {
    a.AtKey? && !a.k.Lit? ==> Lookup(rows, a.k).Some?
  }

  lemma {:induction false} StepsKnown(p: Path, rows: seq<Row>)
    requires Resolved(p, rows)
    ensures forall i | 0 <= i < |Steps(p)| :: Known(Steps(p)[i], rows)
    decreases p
  {
    if !p.Var? { StepsKnown(p.base, rows); }
  }

  /** The segments of two steps compare as the steps do. */
  lemma StepExact(a: At, b: At, rows: seq<Row>)
    requires Known(a, rows) && DistinctTemps(rows)
    ensures SegRel(SegOf(a, rows), SegOf(b, rows)) == (if a == b then Same else if ToldApart(a, b) then Distinct else Unknown)
  {
    if a.AtKey? && b.AtKey? && !a.k.Lit? && !b.k.Lit? {
      LookupIs(rows, a.k);
      LookupIs(rows, b.k);
    }
  }

  lemma NoneLater(p: Path, q: Path, i: nat)
    requires i < |Steps(p)| && i < |Steps(q)| && Steps(p)[i] != Steps(q)[i]
    ensures forall j | i < j < |Steps(p)| :: !PartAt(p, q, j)
  {
    forall j | i < j < |Steps(p)| && j < |Steps(q)|
      ensures !PartAt(p, q, j)
    {
      assert Steps(p)[..j][i] != Steps(q)[..j][i];
    }
  }

  /** One step of the aliasing test. */
  lemma AliasStep(p: Path, q: Path, rows: seq<Row>, i: nat)
    requires Resolved(p, rows) && DistinctTemps(rows) && RootOf(p) == RootOf(q) && p != q
    requires i <= |Steps(p)| && i <= |Steps(q)|
    ensures var test := AliasFrom(KeyOf(p, rows), KeyOf(q, rows), i);
            if i == |Steps(p)| || i == |Steps(q)| then (|Steps(p)| != |Steps(q)| ==> test)
            else if Steps(p)[i] == Steps(q)[i] then test == AliasFrom(KeyOf(p, rows), KeyOf(q, rows), i + 1)
            else test == !ToldApart(Steps(p)[i], Steps(q)[i])
  {
    SegsAre(p, rows);
    SegsAre(q, rows);
    if i < |Steps(p)| && i < |Steps(q)| {
      StepsKnown(p, rows);
      StepExact(Steps(p)[i], Steps(q)[i], rows);
    }
  }

  lemma {:induction false} AliasFromExact(p: Path, q: Path, rows: seq<Row>, i: nat)
    requires Resolved(p, rows) && DistinctTemps(rows) && RootOf(p) == RootOf(q) && p != q
    requires i <= |Steps(p)| && i <= |Steps(q)| && Steps(p)[..i] == Steps(q)[..i]
    ensures AliasFrom(KeyOf(p, rows), KeyOf(q, rows), i) <==> forall j | i <= j < |Steps(p)| :: !PartAt(p, q, j)
    decreases |Steps(p)| - i
  {
    var a, b := Steps(p), Steps(q);
    AliasStep(p, q, rows, i);
    if i == |a| || i == |b| {
      if |a| == |b| { StepsInjective(p, q); }
    } else if a[i] == b[i] {
      assert a[..i + 1] == a[..i] + [a[i]] && b[..i + 1] == b[..i] + [b[i]];
      AliasFromExact(p, q, rows, i + 1);
      assert !PartAt(p, q, i);
    } else {
      NoneLater(p, q, i);
      assert PartAt(p, q, i) <==> ToldApart(a[i], b[i]);
    }
  }

  /** The aliasing test over location keys is `Clash` over paths. */
  lemma AliasExact(p: Path, q: Path, rows: seq<Row>)
    requires Resolved(p, rows) && DistinctTemps(rows) && p != q
    ensures MayAlias(KeyOf(p, rows), KeyOf(q, rows)) <==> Clash(p, q)
  {
    if RootOf(p) == RootOf(q) { AliasFromExact(p, q, rows, 0); }
  }

  // ---- keys ----------------------------------------------------------------------------

  /** An index into `base` with the given key. */
  datatype KeyUse = KeyUse(base: Path, key: Expr)

  function KeyUses(p: Path): seq<KeyUse> {
    match p
    case Var(_) => []
    case Field(b, _) => KeyUses(b)
    case Index(b, k) => KeyUses(b) + [KeyUse(b, k)]
  }

  predicate Seen(us: seq<KeyUse>, k: Expr) {
    exists j | 0 <= j < |us| :: us[j].key == k
  }

  /** No struct field lies between the variable and the key. */
  predicate NoField(p: Path) {
    forall i | 0 <= i < |Steps(p)| :: Steps(p)[i].AtKey?
  }

  /** Where a computed key occurs for the first time, its type is known. */
  predicate Typed(us: seq<KeyUse>) {
    forall i | 0 <= i < |us| && !us[i].key.Lit? :: NoField(us[i].base) || Seen(us[..i], us[i].key)
  }

  lemma {:induction false} KnownExact(p: Path)
    ensures KeyTypeKnown(p) <==> NoField(p)
    decreases p
  {
    match p
    case Var(_) =>
    case Field(b, f) => assert Steps(p)[|Steps(b)|] == AtField(f);
    case Index(b, k) =>
      KnownExact(b);
      assert forall i | 0 <= i < |Steps(b)| :: Steps(p)[i] == Steps(b)[i];
  }

  lemma TypedSnoc(us: seq<KeyUse>, u: KeyUse)
    ensures Typed(us + [u]) <==> Typed(us) && (u.key.Lit? || NoField(u.base) || Seen(us, u.key))
  {
    var vs := us + [u];
    assert vs[..|us|] == us;
    forall i | 0 <= i < |us|
      ensures vs[i] == us[i] && vs[..i] == us[..i]
    {
    }
  }

  lemma TypedPrefix(a: seq<KeyUse>, b: seq<KeyUse>)
    requires Typed(a + b)
    ensures Typed(a)
  {
    forall i | 0 <= i < |a|
      ensures (a + b)[i] == a[i] && (a + b)[..i] == a[..i]
    {
    }
  }

  /** The table holds exactly the computed keys seen. */
  ghost predicate Tabled(us: seq<KeyUse>, rows: seq<Row>) {
    forall k: Expr | !k.Lit? :: Lookup(rows, k).Some? <==> Seen(us, k)
  }

  lemma {:induction false} LookupSnoc(rows: seq<Row>, r: Row, k: Expr)
    ensures Lookup(rows + [r], k) == if Lookup(rows, k).Some? then Lookup(rows, k) else if r.src == k then Some(r.tmp) else None
    decreases rows
  {
    if rows != [] {
      assert (rows + [r])[1..] == rows[1..] + [r];
      LookupSnoc(rows[1..], r, k);
    }
  }

  lemma SeenSnoc(us: seq<KeyUse>, u: KeyUse, k: Expr)
    ensures Seen(us + [u], k) <==> Seen(us, k) || u.key == k
  {
    var vs := us + [u];
    if Seen(us, k) {
      var j :| 0 <= j < |us| && us[j].key == k;
      assert vs[j].key == k;
    }
    if u.key == k { assert vs[|us|].key == k; }
  }

  lemma TabledSnoc(us: seq<KeyUse>, rows: seq<Row>, u: KeyUse, t: nat)
    requires Tabled(us, rows)
    ensures u.key.Lit? || Lookup(rows, u.key).Some? ==> Tabled(us + [u], rows)
    ensures Tabled(us + [u], rows + [Row(u.key, t)])
  {
    forall k: Expr | !k.Lit?
      ensures Seen(us + [u], k) <==> Seen(us, k) || u.key == k
      ensures Lookup(rows + [Row(u.key, t)], k).Some? <==> Lookup(rows, k).Some? || u.key == k
    {
      SeenSnoc(us, u, k);
      LookupSnoc(rows, Row(u.key, t), k);
    }
  }

  /** Hoisting the keys of a path succeeds exactly when their types are known. */
  lemma {:induction false} HoistExact(p: Path, ks: Keys, us: seq<KeyUse>)
    requires Tabled(us, ks.rows) && Typed(us)
    ensures HoistKeys(p, ks).Success? <==> Typed(us + KeyUses(p))
    ensures HoistKeys(p, ks).Success? ==> Tabled(us + KeyUses(p), HoistKeys(p, ks).value.rows)
    decreases p
  {
    match p
    case Var(_) => assert us + [] == us;
    case Field(b, _) => HoistExact(b, ks, us);
    case Index(b, k) =>
      var u, vs := KeyUse(b, k), us + KeyUses(b);
      HoistExact(b, ks, us);
      assert us + KeyUses(p) == vs + [u];
      TypedSnoc(vs, u);
      KnownExact(b);
      if HoistKeys(b, ks).Success? {
        var ks1 := HoistKeys(b, ks).value;
        TabledSnoc(vs, ks1.rows, u, ks1.n);
      }
  }

  // ---- the write set -------------------------------------------------------------------

  datatype WriteAt = WriteAt(p: Path, ty: Option<EType>)

  /** The assignments of a statement, in order. */
  function WritesIn(s: Stmt): seq<WriteAt>
    decreases s
  {
    match s
    case Assign(p, ty, _) => [WriteAt(p, ty)]
    case Compound(p, ty, _, _) => [WriteAt(p, ty)]
    case IncDec(p, ty, _) => [WriteAt(p, ty)]
    case Block(b) => WritesInAll(b)
    case Unchecked(b) => WritesInAll(b)
    case If(_, t, e) => WritesIn(t) + (if e.Some? then WritesIn(e.value) else [])
    case _ => []
  }

  function WritesInAll(ss: seq<Stmt>): seq<WriteAt>
    decreases ss
  {
    if ss == [] then [] else WritesIn(ss[0]) + WritesInAll(ss[1..])
  }

  /** Only statements an arm may hold. */
  predicate Supported(s: Stmt)
    decreases s
  {
    match s
    case Other => false
    case Block(b) => forall x | x in b :: Supported(x)
    case Unchecked(b) => forall x | x in b :: Supported(x)
    case If(_, t, e) => Supported(t) && (e.Some? ==> Supported(e.value))
    case _ => true
  }

  /** The keys of the written paths that are not branch locals, in order. */
  function UsesIn(cfg: Cfg, ws: seq<WriteAt>): seq<KeyUse> {
    if ws == [] then []
    else (if RootOf(ws[0].p) in cfg.locals then [] else KeyUses(ws[0].p)) + UsesIn(cfg, ws[1..])
  }

  function PathsIn(cfg: Cfg, ws: seq<WriteAt>): set<Path> {
    set w | w in ws && RootOf(w.p) !in cfg.locals :: w.p
  }

  /** The write set can be determined. */
  predicate Decidable(cfg: Cfg, ws: seq<WriteAt>) {
    && (forall w | w in ws :: w.ty.Some?)
    && Typed(UsesIn(cfg, ws))
    && NoClash(PathsIn(cfg, ws))
  }

  function RecordAll(cfg: Cfg, ws: seq<WriteAt>, sc: Scan): Result<Scan, Error> {
    if ws == [] then Success(sc)
    else
      var sc1 :- RecordWrite(cfg, ws[0].p, ws[0].ty, sc);
      RecordAll(cfg, ws[1..], sc1)
  }

  lemma {:induction false} RecordAppend(cfg: Cfg, a: seq<WriteAt>, b: seq<WriteAt>, sc: Scan)
    ensures RecordAll(cfg, a + b, sc) == (var r := RecordAll(cfg, a, sc); if r.Failure? then r else RecordAll(cfg, b, r.value))
    decreases a
  {
    if a == [] {
      assert a + b == b;
    } else {
      assert (a + b)[0] == a[0] && (a + b)[1..] == a[1..] + b;
      var r := RecordWrite(cfg, a[0].p, a[0].ty, sc);
      if r.Success? { RecordAppend(cfg, a[1..], b, r.value); }
    }
  }

  /** The scan of the text is the scan of its assignments. */
  lemma {:induction false} ScanRecords(cfg: Cfg, s: Stmt, sc: Scan)
    ensures !Supported(s) ==> ScanBranch(cfg, s, sc).Failure?
    ensures Supported(s) ==> ScanBranch(cfg, s, sc) == RecordAll(cfg, WritesIn(s), sc)
    decreases s
  {
    match s
    case Assign(p, ty, _) => OneRecord(cfg, p, ty, sc);
    case Compound(p, ty, _, _) => OneRecord(cfg, p, ty, sc);
    case IncDec(p, ty, _) => OneRecord(cfg, p, ty, sc);
    case Block(b) => ScanAllRecords(cfg, b, sc);
    case Unchecked(b) => ScanAllRecords(cfg, b, sc);
    case If(_, t, e) =>
      ScanRecords(cfg, t, sc);
      if e.Some? {
        if ScanBranch(cfg, t, sc).Success? { ScanRecords(cfg, e.value, ScanBranch(cfg, t, sc).value); }
        RecordAppend(cfg, WritesIn(t), WritesIn(e.value), sc);
      } else {
        assert WritesIn(s) == WritesIn(t);
      }
    case _ =>
  }

  lemma OneRecord(cfg: Cfg, p: Path, ty: Option<EType>, sc: Scan)
    ensures RecordAll(cfg, [WriteAt(p, ty)], sc) == RecordWrite(cfg, p, ty, sc)
  {
    assert [WriteAt(p, ty)][1..] == [];
  }

  lemma {:induction false} ScanAllRecords(cfg: Cfg, ss: seq<Stmt>, sc: Scan)
    ensures (exists x | x in ss :: !Supported(x)) ==> ScanAll(cfg, ss, sc).Failure?
    ensures (forall x | x in ss :: Supported(x)) ==> ScanAll(cfg, ss, sc) == RecordAll(cfg, WritesInAll(ss), sc)
    decreases ss
  {
    if ss != [] {
      ScanRecords(cfg, ss[0], sc);
      var r := ScanBranch(cfg, ss[0], sc);
      if r.Success? { ScanAllRecords(cfg, ss[1..], r.value); }
      RecordAppend(cfg, WritesIn(ss[0]), WritesInAll(ss[1..]), sc);
    }
  }

  lemma {:induction false} AliasAnyExact(p: Path, writes: seq<Loc>, rows: seq<Row>, ws: set<Path>)
    requires DistinctTemps(rows) && Recorded(ws, writes, rows) && Covered(ws, writes, rows) && p !in ws
    ensures MayAliasAny(writes, KeyOf(p, rows)) <==> exists q | q in ws :: Clash(q, p)
  {
    if MayAliasAny(writes, KeyOf(p, rows)) {
      var l := AliasWitness(writes, KeyOf(p, rows));
      assert Stands(ws, l, rows);
      var q :| q in ws && l.key == KeyOf(q, rows) && l.display == Display(q, rows);
      AliasExact(q, p, rows);
    } else {
      forall q | q in ws
        ensures !Clash(q, p)
      {
        var l := HasKeyLoc(writes, KeyOf(q, rows));
        NoAliasAt(writes, KeyOf(p, rows), l);
        AliasExact(q, p, rows);
      }
    }
  }

  lemma {:induction false} AliasWitness(writes: seq<Loc>, key: LocKey) returns (l: Loc)
    requires MayAliasAny(writes, key)
    ensures l in writes && MayAlias(l.key, key)
  {
    if MayAlias(writes[0].key, key) { l := writes[0]; } else { l := AliasWitness(writes[1..], key); }
  }

  lemma NoClashAdd(ws: set<Path>, p: Path)
    requires NoClash(ws)
    ensures NoClash(ws + {p}) <==> forall q | q in ws :: !Clash(q, p)
  {
    forall q | q in ws
      ensures Clash(q, p) <==> Clash(p, q)
    {
      ClashSymmetric(q, p);
    }
    if NoClash(ws + {p}) {
      forall q | q in ws
        ensures !Clash(q, p)
      {
        assert q in ws + {p} && p in ws + {p};
      }
    }
  }

  lemma NoClashLess(ws: set<Path>, more: set<Path>)
    requires NoClash(more) && ws <= more
    ensures NoClash(ws)
  {
  }

  /** One assignment is recorded exactly when its type and keys are known and it clashes
      with none before it. */
  lemma {:induction false} RecordExact(cfg: Cfg, w: WriteAt, sc: Scan, us: seq<KeyUse>, ws: set<Path>, n0: nat)
    requires ScanOk(ws, sc, n0) && Tabled(us, sc.keys.rows) && Typed(us) && NoClash(ws)
    ensures var r, vs := RecordWrite(cfg, w.p, w.ty, sc), us + (if RootOf(w.p) in cfg.locals then [] else KeyUses(w.p));
            && (r.Success? <==> w.ty.Some? && Typed(vs) && NoClash(ws + Target(cfg, w.p)))
            && (r.Success? ==> Tabled(vs, r.value.keys.rows) && ScanOk(ws + Target(cfg, w.p), r.value, n0))
  {
    var p := w.p;
    if RootOf(p) in cfg.locals {
      assert us + [] == us && ws + {} == ws;
    } else {
      HoistExact(p, sc.keys, us);
      if HoistKeys(p, sc.keys).Success? {
        var ks := HoistKeys(p, sc.keys).value;
        HoistStep(p, sc, ws, n0);
        if p in ws {
          assert HasKey(sc.writes, KeyOf(p, ks.rows));
          assert ws + {p} == ws;
        } else {
          if HasKey(sc.writes, KeyOf(p, ks.rows)) { KnownPath(p, sc.writes, ks.rows, ws); }
          AliasAnyExact(p, sc.writes, ks.rows, ws);
          NoClashAdd(ws, p);
        }
      }
    }
    if RecordWrite(cfg, p, w.ty, sc).Success? { RecordWriteFacts(cfg, p, w.ty, sc, ws, n0); }
  }

  lemma {:induction false} RecordAllExact(cfg: Cfg, ws: seq<WriteAt>, sc: Scan, us: seq<KeyUse>, ps: set<Path>, n0: nat)
    requires ScanOk(ps, sc, n0) && Tabled(us, sc.keys.rows) && Typed(us) && NoClash(ps)
    ensures RecordAll(cfg, ws, sc).Success?
            <==> (forall w | w in ws :: w.ty.Some?) && Typed(us + UsesIn(cfg, ws)) && NoClash(ps + PathsIn(cfg, ws))
    decreases ws
  {
    if ws == [] {
      assert us + [] == us && ps + PathsIn(cfg, ws) == ps;
    } else {
      var w := ws[0];
      var vs := us + (if RootOf(w.p) in cfg.locals then [] else KeyUses(w.p));
      RecordExact(cfg, w, sc, us, ps, n0);
      assert us + UsesIn(cfg, ws) == vs + UsesIn(cfg, ws[1..]);
      assert ps + PathsIn(cfg, ws) == (ps + Target(cfg, w.p)) + PathsIn(cfg, ws[1..]);
      var r := RecordWrite(cfg, w.p, w.ty, sc);
      if r.Success? {
        RecordAllExact(cfg, ws[1..], r.value, vs, ps + Target(cfg, w.p), n0);
      } else {
        if Typed(us + UsesIn(cfg, ws)) { TypedPrefix(vs, UsesIn(cfg, ws[1..])); }
        if NoClash(ps + PathsIn(cfg, ws)) { NoClashLess(ps + Target(cfg, w.p), ps + PathsIn(cfg, ws)); }
      }
    }
  }

  lemma {:induction false} PathsAre(cfg: Cfg, s: Stmt)
    ensures PathsIn(cfg, WritesIn(s)) == WritePaths(cfg, s)
    decreases s
  {
    match s
    case Block(b) => PathsAllAre(cfg, b);
    case Unchecked(b) => PathsAllAre(cfg, b);
    case If(_, t, e) =>
      PathsAre(cfg, t);
      if e.Some? { PathsAre(cfg, e.value); }
    case _ =>
  }

  lemma {:induction false} PathsAllAre(cfg: Cfg, ss: seq<Stmt>)
    ensures PathsIn(cfg, WritesInAll(ss)) == WritePathsAll(cfg, ss)
    decreases ss
  {
    if ss != [] {
      PathsAre(cfg, ss[0]);
      PathsAllAre(cfg, ss[1..]);
    }
  }

  /** The write-set scan of a frame succeeds exactly when the write set can be determined. */
  lemma ScanExact(cfg: Cfg, s: Stmt, n: nat)
    requires s.If?
    ensures ScanFrame(cfg, s, n).Success? <==> Supported(s) && Decidable(cfg, WritesIn(s))
  {
    var sc := Scan([], Keys([], n));
    ScanRecords(cfg, s, sc);
    assert ScanFrame(cfg, s, n) == ScanBranch(cfg, s, sc);
    RecordAllExact(cfg, WritesIn(s), sc, [], {}, n);
    assert [] + UsesIn(cfg, WritesIn(s)) == UsesIn(cfg, WritesIn(s));
    assert {} + PathsIn(cfg, WritesIn(s)) == PathsIn(cfg, WritesIn(s));
  }

  // ---- reads ---------------------------------------------------------------------------

  /** Every location the expression reads is written by the frame or clashes with nothing
      it writes; of the latter the base and the keys are read too. */
  predicate Readable(cfg: Cfg, e: Expr, ws: set<Path>)
    decreases e
  {
    match e
    case Lit(_) => true
    case Tmp(_) => true
    case Read(p) => ReadablePath(cfg, p, ws)
    case App(_, args) => forall a | a in args :: Readable(cfg, a, ws)
    case Select(b, y, n) => Readable(cfg, b, ws) && Readable(cfg, y, ws) && Readable(cfg, n, ws)
  }

  predicate ReadablePath(cfg: Cfg, p: Path, ws: set<Path>)
    decreases p
  {
    || (RootOf(p) !in cfg.locals && p in ws)
    || ((RootOf(p) in cfg.locals || forall q | q in ws :: !Clash(q, p))
        && match p
           case Var(_) => true
           case Field(b, _) => ReadablePath(cfg, b, ws)
           case Index(b, k) => ReadablePath(cfg, b, ws) && Readable(cfg, k, ws))
  }

  /** The environment of a frame that writes the paths `ws`. */
  ghost predicate Frames(env: Env, ws: set<Path>) {
    DistinctTemps(env.rows) && Recorded(ws, env.writes, env.rows) && Covered(ws, env.writes, env.rows)
  }

  lemma VersionedExact(p: Path, env: Env, ws: set<Path>)
    requires Frames(env, ws)
    ensures HasKey(env.writes, KeyOf(p, env.rows)) <==> p in ws
  {
    if HasKey(env.writes, KeyOf(p, env.rows)) { KnownPath(p, env.writes, env.rows, ws); }
  }

  lemma {:induction false} RenderExact(cfg: Cfg, e: Expr, env: Env, ws: set<Path>)
    requires Frames(env, ws)
    ensures Render(cfg, e, env).Success? <==> Readable(cfg, e, ws)
    decreases e
  {
    match e
    case Lit(_) =>
    case Tmp(_) =>
    case Read(p) => RenderPathExact(cfg, p, env, ws);
    case App(_, args) => RenderArgsExact(cfg, args, env, ws);
    case Select(b, y, n) =>
      RenderExact(cfg, b, env, ws);
      RenderExact(cfg, y, env, ws);
      RenderExact(cfg, n, env, ws);
  }

  lemma {:induction false} RenderArgsExact(cfg: Cfg, es: seq<Expr>, env: Env, ws: set<Path>)
    requires Frames(env, ws)
    ensures RenderArgs(cfg, es, env).Success? <==> forall a | a in es :: Readable(cfg, a, ws)
    decreases es
  {
    if es != [] {
      RenderExact(cfg, es[0], env, ws);
      RenderArgsExact(cfg, es[1..], env, ws);
    }
  }

  lemma {:induction false} RenderPathExact(cfg: Cfg, p: Path, env: Env, ws: set<Path>)
    requires Frames(env, ws)
    ensures RenderPath(cfg, p, env).Success? <==> ReadablePath(cfg, p, ws)
    decreases p
  {
    VersionedExact(p, env, ws);
    if p !in ws { AliasAnyExact(p, env.writes, env.rows, ws); }
    match p
    case Var(_) =>
    case Field(b, _) => RenderPathExact(cfg, b, env, ws);
    case Index(b, k) =>
      RenderPathExact(cfg, b, env, ws);
      RenderExact(cfg, k, env, ws);
  }

  // ---- whole statements ----------------------------------------------------------------

  /** The one assignment an arm consists of. */
  function Only(s: Stmt): Option<Stmt>
    decreases s
  {
    match s
    case Assign(_, _, _) => Some(s)
    case Block(b) => if |b| == 1 then Only(b[0]) else None
    case _ => None
  }

  function Calls(e: Expr): set<string>
    decreases e
  {
    match e
    case App(op, args) => {op} + CallsAll(args)
    case Select(b, y, n) => Calls(b) + Calls(y) + Calls(n)
    case Read(p) => PathCalls(p)
    case _ => {}
  }

  function CallsAll(es: seq<Expr>): set<string>
    decreases es
  {
    if es == [] then {} else Calls(es[0]) + CallsAll(es[1..])
  }

  function PathCalls(p: Path): set<string>
    decreases p
  {
    match p
    case Var(_) => {}
    case Field(b, _) => PathCalls(b)
    case Index(b, k) => PathCalls(b) + Calls(k)
  }

  /** Both arms assign one variable of one type, and evaluating both values is harmless. */
  predicate OneLine(cfg: Cfg, s: Stmt)
    requires s.If?
  {
    s.els.Some? && match (Only(s.thn), Only(s.els.value))
    case (Some(Assign(p, t, x)), Some(Assign(q, u, y))) =>
      p.Var? && p == q && p.v !in cfg.locals && t.Some? && t == u
      && forall op | op in Calls(s.cond) + Calls(x) + Calls(y) :: cfg.safeCall(op)
    case _ => false
  }

  predicate ReadableIn(cfg: Cfg, e: Expr, outer: Option<set<Path>>) {
    outer.Some? ==> Readable(cfg, e, outer.value)
  }

  /** What the statements of an arm read, its frame writing `ws`. */
  predicate Accepts(cfg: Cfg, s: Stmt, ws: set<Path>)
    decreases s, 1
  {
    match s
    case Assign(_, _, e) => Readable(cfg, e, ws)
    case Compound(_, _, _, e) => Readable(cfg, e, ws)
    case IncDec(_, _, _) => true
    case Decl(_, init) => init.Some? ==> Readable(cfg, init.value, ws)
    case ExprStmt(e) => Readable(cfg, e, ws)
    case Block(b) => forall x | x in b :: Accepts(cfg, x, ws)
    case Unchecked(b) => forall x | x in b :: Accepts(cfg, x, ws)
    case If(_, _, _) => AcceptsFrame(cfg, s, Some(ws))
    case Other => false
  }

  /**
   A frame is lowered: its condition is read where the frame stands.  In the one-line
   form the two values are too.  Otherwise the arms hold supported statements, the
   write set can be determined, and the arms read what they may.
   */
  predicate AcceptsFrame(cfg: Cfg, s: Stmt, outer: Option<set<Path>>)
    requires s.If?
    decreases s, 0
  {
    && ReadableIn(cfg, s.cond, outer)
    && if OneLine(cfg, s) then ReadableIn(cfg, Only(s.thn).value.rhs, outer) && ReadableIn(cfg, Only(s.els.value).value.rhs, outer)
       else
         && Supported(s) && Decidable(cfg, WritesIn(s))
         && Accepts(cfg, s.thn, WritePaths(cfg, s))
         && (s.els.Some? ==> Accepts(cfg, s.els.value, WritePaths(cfg, s)))
  }

  lemma {:induction false} OnlyIs(s: Stmt)
    ensures SinglePlainAssign(s).Some? <==> Only(s).Some?
    ensures Only(s).Some? ==> Only(s).value.Assign?
                              && SinglePlainAssign(s).value == Plain(Only(s).value.lhs, Only(s).value.ty, Only(s).value.rhs)
                              && WriteAt(Only(s).value.lhs, Only(s).value.ty) in WritesIn(s)
    decreases s
  {
    if s.Block? && |s.body| == 1 {
      OnlyIs(s.body[0]);
      assert WritesInAll(s.body) == WritesIn(s.body[0]) + WritesInAll(s.body[1..]);
    }
  }

  lemma {:induction false} SafeExact(cfg: Cfg, e: Expr)
    ensures SelectSafe(cfg, e) <==> forall op | op in Calls(e) :: cfg.safeCall(op)
    decreases e
  {
    match e
    case Lit(_) =>
    case Tmp(_) =>
    case Read(p) => SafePathExact(cfg, p);
    case App(_, args) => SafeAllExact(cfg, args);
    case Select(b, y, n) =>
      SafeExact(cfg, b);
      SafeExact(cfg, y);
      SafeExact(cfg, n);
  }

  lemma {:induction false} SafeAllExact(cfg: Cfg, es: seq<Expr>)
    ensures (forall a | a in es :: SelectSafe(cfg, a)) <==> forall op | op in CallsAll(es) :: cfg.safeCall(op)
    decreases es
  {
    if es != [] {
      SafeExact(cfg, es[0]);
      SafeAllExact(cfg, es[1..]);
    }
  }

  lemma {:induction false} SafePathExact(cfg: Cfg, p: Path)
    ensures SelectSafePath(cfg, p) <==> forall op | op in PathCalls(p) :: cfg.safeCall(op)
    decreases p
  {
    match p
    case Var(_) =>
    case Field(b, _) => SafePathExact(cfg, b);
    case Index(b, k) =>
      SafePathExact(cfg, b);
      SafeExact(cfg, k);
  }

  /** The one-line form is chosen exactly for the statements it is for. */
  lemma OneLineExact(cfg: Cfg, s: Stmt)
    requires s.If?
    ensures OneLine(cfg, s) <==> DirectShape(cfg, s).Success? && DirectShape(cfg, s).value.Some?
    ensures OneLine(cfg, s) ==>
              var d, a, b := DirectShape(cfg, s).value.value, Only(s.thn).value, Only(s.els.value).value;
              d.v == a.lhs.v && Some(d.ty) == a.ty && d.yes == a.rhs && d.no == b.rhs
    ensures DirectShape(cfg, s).Failure? ==> exists w | w in WritesIn(s) :: w.ty.None?
  {
    if s.els.Some? {
      OnlyIs(s.thn);
      OnlyIs(s.els.value);
      var a, b := Only(s.thn), Only(s.els.value);
      if a.Some? && b.Some? {
        SafeExact(cfg, s.cond);
        SafeExact(cfg, a.value.rhs);
        SafeExact(cfg, b.value.rhs);
        assert WriteAt(a.value.lhs, a.value.ty) in WritesIn(s) && WriteAt(b.value.lhs, b.value.ty) in WritesIn(s);
      }
    }
  }

  lemma RenderInExact(cfg: Cfg, e: Expr, outer: Option<Env>, ws: Option<set<Path>>)
    requires (outer.Some? <==> ws.Some?) && (outer.Some? ==> Frames(outer.value, ws.value))
    ensures RenderIn(cfg, e, outer).Success? <==> ReadableIn(cfg, e, ws)
  {
    if outer.Some? { RenderExact(cfg, e, outer.value, ws.value); }
  }

  /** Writes of the frame's own paths never miss. */
  lemma WriteExact(cfg: Cfg, p: Path, value: Expr, env: Env, n: nat, ws: set<Path>)
    requires Frames(env, ws) && Target(cfg, p) <= ws
    ensures WriteVersioned(cfg, p, value, env, n).Success?
  {
    if RootOf(p) !in cfg.locals { VersionedExact(p, env, ws); }
  }

  lemma {:induction false} StmtExact(cfg: Cfg, s: Stmt, env: Env, n: nat, ws: set<Path>)
    requires Frames(env, ws) && WritePaths(cfg, s) <= ws
    ensures RenderStmt(cfg, s, env, n).Success? <==> Accepts(cfg, s, ws)
    decreases s, 1
  {
    match s
    case Assign(p, _, e) =>
      RenderExact(cfg, e, env, ws);
      if Readable(cfg, e, ws) {
        var r := Render(cfg, e, env).value;
        WriteExact(cfg, p, r.e, env.Use(r.used), n, ws);
      }
    case Compound(p, _, op, e) =>
      RenderExact(cfg, e, env, ws);
      if Readable(cfg, e, ws) {
        var l, r := ReadLvalue(cfg, p, env), Render(cfg, e, env).value;
        WriteExact(cfg, p, App(op, [l.e, r.e]), env.Use(l.used + r.used), n, ws);
      }
    case IncDec(p, _, inc) =>
      var l := ReadLvalue(cfg, p, env);
      WriteExact(cfg, p, Stepped(l.e, inc), env.Use(l.used), n, ws);
    case Decl(_, init) => if init.Some? { RenderExact(cfg, init.value, env, ws); }
    case ExprStmt(e) => RenderExact(cfg, e, env, ws);
    case Block(b) => AllExact(cfg, b, env, n, ws);
    case Unchecked(b) => AllExact(cfg, b, env, n, ws);
    case If(_, _, _) => FrameExact(cfg, s, Some(env), n, Some(ws));
    case Other =>
  }

  lemma {:induction false} AllExact(cfg: Cfg, ss: seq<Stmt>, env: Env, n: nat, ws: set<Path>)
    requires Frames(env, ws) && WritePathsAll(cfg, ss) <= ws
    ensures RenderAll(cfg, ss, env, n).Success? <==> forall x | x in ss :: Accepts(cfg, x, ws)
    decreases ss, 0
  {
    if ss != [] {
      StmtExact(cfg, ss[0], env, n, ws);
      if RenderStmt(cfg, ss[0], env, n).Success? {
        var o := RenderStmt(cfg, ss[0], env, n).value;
        StmtShape(cfg, ss[0], env, n);
        AllExact(cfg, ss[1..], o.env, o.n, ws);
      }
    }
  }

  lemma {:induction false} ArmExact(cfg: Cfg, s: Stmt, env: Env, n: nat, ws: set<Path>)
    requires Frames(env, ws) && WritePaths(cfg, s) <= ws
    ensures RenderArm(cfg, s, env, n).Success? <==> Accepts(cfg, s, ws)
    decreases s, 2
  {
    if s.Block? { AllExact(cfg, s.body, env, n, ws); } else { StmtExact(cfg, s, env, n, ws); }
  }

  /** A frame is lowered exactly when it is accepted. */
  lemma {:induction false} FrameExact(cfg: Cfg, s: Stmt, outer: Option<Env>, n: nat, ws: Option<set<Path>>)
    requires s.If? && (outer.Some? <==> ws.Some?) && (outer.Some? ==> Frames(outer.value, ws.value))
    ensures RenderFrame(cfg, s, outer, n).Success? <==> AcceptsFrame(cfg, s, ws)
    decreases s, 0
  {
    OneLineExact(cfg, s);
    RenderInExact(cfg, s.cond, outer, ws);
    if OneLine(cfg, s) {
      var d := DirectShape(cfg, s).value.value;
      RenderInExact(cfg, d.yes, outer, ws);
      RenderInExact(cfg, d.no, outer, ws);
    } else {
      if DirectShape(cfg, s).Success? { GeneralExact(cfg, s, outer, n, ws); }
    }
  }

  lemma {:induction false} GeneralExact(cfg: Cfg, s: Stmt, outer: Option<Env>, n: nat, ws: Option<set<Path>>)
    requires s.If? && (outer.Some? <==> ws.Some?) && (outer.Some? ==> Frames(outer.value, ws.value))
    ensures RenderGeneral(cfg, s, outer, n).Success?
            <==> ReadableIn(cfg, s.cond, ws) && Supported(s) && Decidable(cfg, WritesIn(s))
                 && Accepts(cfg, s.thn, WritePaths(cfg, s)) && (s.els.Some? ==> Accepts(cfg, s.els.value, WritePaths(cfg, s)))
    decreases s, 0, 0
  {
    RenderInExact(cfg, s.cond, outer, ws);
    ScanExact(cfg, s, n + 1);
    PathsAre(cfg, s);
    if RenderIn(cfg, s.cond, outer).Success? && ScanFrame(cfg, s, n + 1).Success? {
      var cond, sc, own := RenderIn(cfg, s.cond, outer).value, ScanFrame(cfg, s, n + 1).value, WritePaths(cfg, s);
      ScanFrameFacts(cfg, s, n + 1);
      var pre := AllocPre(sc.writes, UseIn(outer, cond.used), sc.keys.n);
      var preMap := PreMap(pre.pres);
      var env := Env(sc.writes, sc.keys.rows, preMap, preMap, [], {});
      ArmExact(cfg, s.thn, env, pre.n, own);
      if s.els.Some? && RenderArm(cfg, s.thn, env, pre.n).Success? {
        var thn := RenderArm(cfg, s.thn, env, pre.n).value;
        ArmExact(cfg, s.els.value, env.Use(thn.env.used), thn.n, own);
      }
    }
  }

  /** A top-level encrypted `if` is lowered exactly when its text is accepted. */
  lemma LowersExactly(safeCall: string -> bool, s: Stmt, n: nat)
    requires s.If?
    ensures LowerTopIf(safeCall, s, n).Success? <==> AcceptsFrame(Cfg(Decls(s), safeCall), s, None)
  {
    FrameExact(Cfg(Decls(s), safeCall), s, None, n, None);
  }
}
