/** The straight-line parts of a rendered frame: what each of them leaves in the state. */
module BranchFrame {
  import opened Wrappers
  import opened BranchAst
  import opened BranchLowering
  import opened BranchAdmission
  import opened BranchCells
  import opened BranchScan
  import opened BranchShape
  import opened BranchRelation
  import opened BranchStep
  import opened BranchSimple

  /** A run that only declares and assigns temporaries from `lo` up to `hi`. */
  ghost predicate Grown(a: State, b: State, lo: nat, hi: nat) {
    && b.cells == a.cells
    && a.temps.Keys <= b.temps.Keys && a.declared <= b.declared
    && (forall t | t in a.temps :: b.temps[t] == a.temps[t])
    && (forall t | t in b.temps && t !in a.temps :: lo <= t < hi)
    && (forall t | t in b.declared && t !in a.declared :: lo <= t < hi)
  }

  /** An expression without temporaries. */
  ghost predicate Closed(m: Meaning, e: Expr, c: Cells) {
    forall t: map<nat, int> :: Defined(e, t) && ValueOf(m, e, c, t) == ValueOf(m, e, c, map[])
  }

  lemma {:induction false} KeyLetsRun(m: Meaning, rows: seq<Row>, n: nat, st: State) returns (st2: State)
    requires forall i | 0 <= i < |rows| :: rows[i].tmp == n + i
    requires forall t | n <= t < n + |rows| :: t !in st.declared && t !in st.temps
    requires forall r | r in rows :: Closed(m, r.src, st.cells)
    ensures Run(m, KeyLets(rows), st) == Some(st2) && Grown(st, st2, n, n + |rows|)
    ensures StateOk(st) ==> StateOk(st2)
    ensures forall r | r in rows :: r.tmp in st2.temps && st2.temps[r.tmp] == ValueOf(m, r.src, st.cells, map[])
    decreases rows
  {
    if rows == [] {
      st2 := st;
    } else {
      var r := rows[0];
      var st1 := st.(temps := st.temps[r.tmp := ValueOf(m, r.src, st.cells, st.temps)], declared := st.declared + {r.tmp});
      assert r in rows;
      assert Step1(m, Let(r.tmp, r.src), st) == Some(st1);
      st2 := KeyLetsRun(m, rows[1..], n + 1, st1);
      assert KeyLets(rows)[1..] == KeyLets(rows[1..]);
      assert r.tmp in st2.temps && st2.temps[r.tmp] == st1.temps[r.tmp];
      forall q | q in rows
        ensures q.tmp in st2.temps && st2.temps[q.tmp] == ValueOf(m, q.src, st.cells, map[])
      {
        if q != r { assert q in rows[1..]; }
      }
    }
  }

  /** An initial value that is defined wherever the temporaries of `base` are. */
  ghost predicate Fixed(m: Meaning, e: Expr, base: map<nat, int>, c: Cells) {
    forall t: map<nat, int> :: (forall i | i in base :: i in t && t[i] == base[i]) ==>
      Defined(e, t) && ValueOf(m, e, c, t) == ValueOf(m, e, c, base)
  }

  lemma {:induction false} PreLetsRun(m: Meaning, pres: seq<PreVal>, used: set<LocKey>, n: nat, base: map<nat, int>, st: State)
    returns (st2: State)
    requires forall i | 0 <= i < |pres| :: pres[i].tmp == n + i
    requires forall t | n <= t < n + |pres| :: t !in st.declared && t !in st.temps
    requires forall i | i in base :: i in st.temps && st.temps[i] == base[i]
    requires forall p | p in pres :: Fixed(m, p.init, base, st.cells)
    ensures Run(m, PreLets(pres, used), st) == Some(st2) && Grown(st, st2, n, n + |pres|)
    ensures StateOk(st) ==> StateOk(st2)
    ensures forall p | p in pres && p.key in used :: p.tmp in st2.temps && st2.temps[p.tmp] == ValueOf(m, p.init, st.cells, base)
    decreases pres
  {
    if pres == [] {
      st2 := st;
    } else {
      var p := pres[0];
      assert p in pres;
      if p.key in used {
        var st1 := st.(temps := st.temps[p.tmp := ValueOf(m, p.init, st.cells, st.temps)], declared := st.declared + {p.tmp});
        assert Step1(m, Let(p.tmp, p.init), st) == Some(st1);
        st2 := PreLetsRun(m, pres[1..], used, n + 1, base, st1);
        assert PreLets(pres, used)[0] == Let(p.tmp, p.init);
        assert PreLets(pres, used)[1..] == PreLets(pres[1..], used);
        assert p.tmp in st2.temps && st2.temps[p.tmp] == st1.temps[p.tmp];
      } else {
        st2 := PreLetsRun(m, pres[1..], used, n + 1, base, st);
        assert PreLets(pres, used) == PreLets(pres[1..], used);
      }
      forall q | q in pres && q.key in used
        ensures q.tmp in st2.temps && st2.temps[q.tmp] == ValueOf(m, q.init, st.cells, base)
      {
        if q != p { assert q in pres[1..]; }
      }
    }
  }

  lemma {:induction false} DeclaresRun(m: Meaning, ts: seq<nat>, st: State) returns (st2: State)
    requires forall i, j | 0 <= i < j < |ts| :: ts[i] != ts[j]
    requires forall t | t in ts :: t !in st.declared
    ensures Run(m, Declares(ts), st) == Some(st2)
    ensures st2 == st.(declared := st.declared + (set t | t in ts))
    decreases ts
  {
    if ts == [] {
      st2 := st;
      assert (set t | t in ts) == {};
    } else {
      var st1 := st.(declared := st.declared + {ts[0]});
      assert ts[0] in ts;
      assert Step1(m, Declare(ts[0]), st) == Some(st1);
      forall t | t in ts[1..]
        ensures t !in st1.declared
      {
        assert t in ts;
      }
      st2 := DeclaresRun(m, ts[1..], st1);
      assert Declares(ts)[1..] == Declares(ts[1..]);
      assert (set t | t in ts) == {ts[0]} + (set t | t in ts[1..]);
      assert st2.declared == st.declared + (set t | t in ts);
    }
  }

  lemma {:induction false} AllocPreInits(writes: seq<Loc>, outer: Option<Env>, n: nat)
    ensures var r := AllocPre(writes, outer, n);
            forall i | 0 <= i < |writes| ::
              && r.pres[i].init == (if outer.Some? then outer.value.Current(writes[i].key, writes[i].display) else Read(writes[i].display))
              && (outer.Some? ==> outer.value.Uses(writes[i].key) <= r.outer.value.used)
    decreases writes
  {
    if writes != [] {
      var l := writes[0];
      var outer1 := if outer.Some? then Some(outer.value.Use(outer.value.Uses(l.key))) else None;
      AllocPreInits(writes[1..], outer1, n + 1);
      AllocPreShape(writes[1..], outer1, n + 1);
      var r := AllocPre(writes, outer, n);
      forall i | 0 <= i < |writes|
        ensures r.pres[i].init == (if outer.Some? then outer.value.Current(writes[i].key, writes[i].display) else Read(writes[i].display))
        ensures outer.Some? ==> outer.value.Uses(writes[i].key) <= r.outer.value.used
      {
        if i > 0 { assert writes[i] == writes[1..][i - 1]; }
      }
    }
  }

  lemma {:induction false} PreMapIs(pres: seq<PreVal>)
    ensures forall k | k in PreMap(pres) :: exists p | p in pres :: p.key == k && p.tmp == PreMap(pres)[k]
    decreases pres
  {
    if pres != [] {
      var last := pres[|pres| - 1];
      PreMapIs(pres[..|pres| - 1]);
      assert PreMap(pres) == PreMap(pres[..|pres| - 1])[last.key := last.tmp];
      forall k | k in PreMap(pres)
        ensures exists p | p in pres :: p.key == k && p.tmp == PreMap(pres)[k]
      {
        if k == last.key {
          assert last in pres;
        } else {
          var p :| p in pres[..|pres| - 1] && p.key == k && p.tmp == PreMap(pres[..|pres| - 1])[k];
          assert p in pres;
        }
      }
    }
  }

  /** What a merge selects for a location. */
  function Chosen(taken: bool, thn: map<LocKey, nat>, els: map<LocKey, nat>, pre: map<LocKey, nat>, key: LocKey): nat
    requires key in pre
  {
    VersionOr(if taken then thn else els, key, pre[key])
  }

  lemma {:induction false} MergeUses(writes: seq<Loc>, cond: nat, pre: map<LocKey, nat>, thn: map<LocKey, nat>,
                                     els: map<LocKey, nat>, outer: Option<Env>, n: nat, used: set<LocKey>)
    requires forall l | l in writes :: l.key in pre
    ensures forall l | l in writes && (VersionOr(thn, l.key, pre[l.key]) == pre[l.key] || VersionOr(els, l.key, pre[l.key]) == pre[l.key]) ::
              l.key in MergeAll(writes, cond, pre, thn, els, outer, n, used).used
    decreases writes
  {
    if writes != [] {
      var l := writes[0];
      var tv := VersionOr(thn, l.key, pre[l.key]);
      var ev := VersionOr(els, l.key, pre[l.key]);
      var used1 := if tv == pre[l.key] || ev == pre[l.key] then used + {l.key} else used;
      var nested := outer.Some? && HasKey(outer.value.writes, l.key);
      var o1 := if nested then Some(outer.value.Bind(l.key, n)) else outer;
      MergeUses(writes[1..], cond, pre, thn, els, o1, if nested then n + 1 else n, used1);
      MergeShape(writes[1..], cond, pre, thn, els, o1, if nested then n + 1 else n, used1);
    }
  }

  lemma SelectTemps(m: Meaning, c: nat, y: nat, z: nat, cells: Cells, t: map<nat, int>)
    requires c in t && y in t && z in t
    ensures Defined(Select(Tmp(c), Tmp(y), Tmp(z)), t)
    ensures ValueOf(m, Select(Tmp(c), Tmp(y), Tmp(z)), cells, t) == if t[c] != 0 then t[y] else t[z]
  {
    assert Defined(Tmp(c), t) && Defined(Tmp(y), t) && Defined(Tmp(z), t);
    assert ValueOf(m, Tmp(c), cells, t) == t[c] && ValueOf(m, Tmp(y), cells, t) == t[y] && ValueOf(m, Tmp(z), cells, t) == t[z];
  }

  /** The select of a merge evaluates to what the source has in the location's cell. */
  ghost predicate SelectReady(l: Loc, cond: nat, pre: map<LocKey, nat>, thn: map<LocKey, nat>, els: map<LocKey, nat>,
                              temps: map<nat, int>, at: map<LocKey, Cell>, src: Cells) {
    && l.key in pre && l.key in at && cond in temps
    && VersionOr(thn, l.key, pre[l.key]) in temps && VersionOr(els, l.key, pre[l.key]) in temps
    && temps[Chosen(temps[cond] != 0, thn, els, pre, l.key)] == Load(src, at[l.key])
  }

  ghost predicate MergeReady(m: Meaning, l: Loc, cond: nat, pre: map<LocKey, nat>, thn: map<LocKey, nat>, els: map<LocKey, nat>,
                             temps: map<nat, int>, at: map<LocKey, Cell>, src: Cells) {
    && SelectReady(l, cond, pre, thn, els, temps, at, src)
    && DefinedPath(l.display, temps)
    && forall c :: CellOf(m, l.display, c, temps) == at[l.key]
  }

  lemma MergeStep(m: Meaning, l: Loc, cond: nat, pre: map<LocKey, nat>, thn: map<LocKey, nat>, els: map<LocKey, nat>,
                  at: map<LocKey, Cell>, src: Cells, st: State)
    requires MergeReady(m, l, cond, pre, thn, els, st.temps, at, src)
    ensures Step1(m, SetLoc(l.display, Select(Tmp(cond), Tmp(VersionOr(thn, l.key, pre[l.key])), Tmp(VersionOr(els, l.key, pre[l.key])))), st)
            == Some(st.(cells := st.cells[at[l.key] := Load(src, at[l.key])]))
  {
    var tv, ev := VersionOr(thn, l.key, pre[l.key]), VersionOr(els, l.key, pre[l.key]);
    SelectTemps(m, cond, tv, ev, st.cells, st.temps);
    assert CellOf(m, l.display, st.cells, st.temps) == at[l.key];
  }

  function CellsAt(writes: seq<Loc>, at: map<LocKey, Cell>): set<Cell>
    requires forall l | l in writes :: l.key in at
  {
    set l | l in writes :: at[l.key]
  }

  /** The merges of a top-level frame bring the written cells to the source's values. */
  lemma {:induction false} TopMerges(m: Meaning, writes: seq<Loc>, cond: nat, pre: map<LocKey, nat>, thn: map<LocKey, nat>,
                                     els: map<LocKey, nat>, n: nat, used: set<LocKey>, at: map<LocKey, Cell>, src: Cells, st: State)
    returns (st2: State)
    requires forall l | l in writes :: l.key in pre && l.key in at
    requires forall l | l in writes :: MergeReady(m, l, cond, pre, thn, els, st.temps, at, src)
    ensures Run(m, MergeAll(writes, cond, pre, thn, els, None, n, used).code, st) == Some(st2)
    ensures st2.temps == st.temps && st2.declared == st.declared
    ensures forall x: Cell :: Load(st2.cells, x) == if x in CellsAt(writes, at) then Load(src, x) else Load(st.cells, x)
    decreases writes
  {
    if writes == [] {
      st2 := st;
    } else {
      var l := writes[0];
      assert l in writes;
      MergeStep(m, l, cond, pre, thn, els, at, src, st);
      var st1 := st.(cells := st.cells[at[l.key] := Load(src, at[l.key])]);
      var tv, ev := VersionOr(thn, l.key, pre[l.key]), VersionOr(els, l.key, pre[l.key]);
      var used1 := if tv == pre[l.key] || ev == pre[l.key] then used + {l.key} else used;
      var code := MergeAll(writes, cond, pre, thn, els, None, n, used).code;
      assert code[1..] == MergeAll(writes[1..], cond, pre, thn, els, None, n, used1).code;
      st2 := TopMerges(m, writes[1..], cond, pre, thn, els, n, used1, at, src, st1);
      assert CellsAt(writes, at) == {at[l.key]} + CellsAt(writes[1..], at);
    }
  }

  /** The merges of a nested frame bind fresh versions of the enclosing frame. */
  ghost predicate MergeBound(env2: Env, l: Loc, temps: map<nat, int>, src: Cells, at: map<LocKey, Cell>) {
    && l.key in env2.versions && l.key in at
    && env2.versions[l.key] in temps
    && temps[env2.versions[l.key]] == Load(src, at[l.key])
  }

  /** Which versions the enclosing environment has after a nested frame's merges. */
  lemma {:induction false} MergeVersions(writes: seq<Loc>, cond: nat, pre: map<LocKey, nat>, thn: map<LocKey, nat>,
                                         els: map<LocKey, nat>, env: Env, n: nat, used: set<LocKey>)
    requires forall l | l in writes :: l.key in pre
    requires forall l | l in writes :: HasKey(env.writes, l.key)
    ensures var env2 := MergeAll(writes, cond, pre, thn, els, Some(env), n, used).outer.value;
            && (forall l | l in writes :: l.key in env2.versions && n <= env2.versions[l.key])
            && (forall k | k in env.versions && !HasKey(writes, k) :: k in env2.versions && env2.versions[k] == env.versions[k])
            && |env2.decls| == |env.decls| + |writes|
            && (forall i | |env.decls| <= i < |env2.decls| :: env2.decls[i] == n + (i - |env.decls|))
            && MergeAll(writes, cond, pre, thn, els, Some(env), n, used).n == n + |writes|
    decreases writes
  {
    if writes != [] {
      var l := writes[0];
      assert l in writes;
      var tv, ev := VersionOr(thn, l.key, pre[l.key]), VersionOr(els, l.key, pre[l.key]);
      var used1 := if tv == pre[l.key] || ev == pre[l.key] then used + {l.key} else used;
      var env1 := env.Bind(l.key, n);
      MergeVersions(writes[1..], cond, pre, thn, els, env1, n + 1, used1);
      MergeShape(writes[1..], cond, pre, thn, els, Some(env1), n + 1, used1);
      assert MergeAll(writes, cond, pre, thn, els, Some(env), n, used).outer.value.decls[|env.decls|] == env1.decls[|env.decls|];
      if HasKey(writes[1..], l.key) {
        var j := HasKeyLoc(writes[1..], l.key);
      }
    }
  }

  lemma SelectsMore(writes: seq<Loc>, cond: nat, pre: map<LocKey, nat>, thn: map<LocKey, nat>, els: map<LocKey, nat>,
                    t: map<nat, int>, u: map<nat, int>, at: map<LocKey, Cell>, src: Cells)
    requires forall l | l in writes :: SelectReady(l, cond, pre, thn, els, t, at, src)
    requires forall i | i in t :: i in u && u[i] == t[i]
    ensures forall l | l in writes :: SelectReady(l, cond, pre, thn, els, u, at, src)
  {
  }

  lemma FirstBound(writes: seq<Loc>, cond: nat, pre: map<LocKey, nat>, thn: map<LocKey, nat>, els: map<LocKey, nat>,
                   l: Loc, env: Env, n: nat, used: set<LocKey>, u: map<nat, int>, src: Cells, at: map<LocKey, Cell>)
    requires forall l | l in writes :: l.key in pre && HasKey(env.writes, l.key)
    requires l.key in at && n in u && u[n] == Load(src, at[l.key])
    requires var env2 := MergeAll(writes, cond, pre, thn, els, Some(env.Bind(l.key, n)), n + 1, used).outer.value;
             forall k | k in writes :: MergeBound(env2, k, u, src, at)
    ensures var env2 := MergeAll(writes, cond, pre, thn, els, Some(env.Bind(l.key, n)), n + 1, used).outer.value;
            MergeBound(env2, l, u, src, at)
  {
    MergeVersions(writes, cond, pre, thn, els, env.Bind(l.key, n), n + 1, used);
    if HasKey(writes, l.key) {
      var j := HasKeyLoc(writes, l.key);
    }
  }

  function UsedBy(l: Loc, pre: map<LocKey, nat>, thn: map<LocKey, nat>, els: map<LocKey, nat>, used: set<LocKey>): set<LocKey>
    requires l.key in pre
  {
    if VersionOr(thn, l.key, pre[l.key]) == pre[l.key] || VersionOr(els, l.key, pre[l.key]) == pre[l.key] then used + {l.key} else used
  }

  function MergeOf(l: Loc, cond: nat, pre: map<LocKey, nat>, thn: map<LocKey, nat>, els: map<LocKey, nat>): Expr
    requires l.key in pre
  {
    Select(Tmp(cond), Tmp(VersionOr(thn, l.key, pre[l.key])), Tmp(VersionOr(els, l.key, pre[l.key])))
  }

  /** The first merge of a nested frame, and the rest. */
  lemma NestedUnfold(m: Meaning, writes: seq<Loc>, cond: nat, pre: map<LocKey, nat>, thn: map<LocKey, nat>, els: map<LocKey, nat>,
                     env: Env, n: nat, used: set<LocKey>, at: map<LocKey, Cell>, src: Cells, st: State)
    requires writes != [] && (forall l | l in writes :: l.key in pre) && HasKey(env.writes, writes[0].key)
    requires SelectReady(writes[0], cond, pre, thn, els, st.temps, at, src)
    requires n in st.declared && n !in st.temps
    ensures var l := writes[0];
            var r := MergeAll(writes, cond, pre, thn, els, Some(env), n, used);
            var rest := MergeAll(writes[1..], cond, pre, thn, els, Some(env.Bind(l.key, n)), n + 1, UsedBy(l, pre, thn, els, used));
            && r.outer == rest.outer
            && Run(m, r.code, st) == Run(m, rest.code, st.(temps := st.temps[n := Load(src, at[l.key])]))
  {
    var l := writes[0];
    var tv, ev := VersionOr(thn, l.key, pre[l.key]), VersionOr(els, l.key, pre[l.key]);
    var rest := MergeAll(writes[1..], cond, pre, thn, els, Some(env.Bind(l.key, n)), n + 1, UsedBy(l, pre, thn, els, used));
    SelectTemps(m, cond, tv, ev, st.cells, st.temps);
    var x := SetTmp(n, MergeOf(l, cond, pre, thn, els));
    assert MergeAll(writes, cond, pre, thn, els, Some(env), n, used).code == [x] + rest.code;
    assert ([x] + rest.code)[1..] == rest.code;
    assert Step1(m, x, st) == Some(st.(temps := st.temps[n := Load(src, at[l.key])]));
  }

  /** A run that only assigns temporaries from `lo` up to `hi`. */
  ghost predicate Filled(a: State, b: State, lo: nat, hi: nat) {
    && b.cells == a.cells && b.declared == a.declared
    && (forall t | t in a.temps :: t in b.temps && b.temps[t] == a.temps[t])
    && (forall t | t in b.temps :: t in a.temps || lo <= t < hi)
  }

  lemma FilledStep(a: State, t: nat, v: int, b: State, hi: nat)
    requires t !in a.temps && t < hi && Filled(a.(temps := a.temps[t := v]), b, t + 1, hi)
    ensures Filled(a, b, t, hi) && t in b.temps && b.temps[t] == v
  {
    assert t in a.temps[t := v];
  }

  lemma {:induction false} NestedMerges(m: Meaning, writes: seq<Loc>, cond: nat, pre: map<LocKey, nat>, thn: map<LocKey, nat>,
                                        els: map<LocKey, nat>, env: Env, n: nat, used: set<LocKey>, at: map<LocKey, Cell>,
                                        src: Cells, st: State)
    returns (st2: State)
    requires forall l | l in writes :: l.key in pre && HasKey(env.writes, l.key)
    requires forall l | l in writes :: SelectReady(l, cond, pre, thn, els, st.temps, at, src)
    requires forall t | n <= t < n + |writes| :: t in st.declared && t !in st.temps
    ensures Run(m, MergeAll(writes, cond, pre, thn, els, Some(env), n, used).code, st) == Some(st2)
    ensures Filled(st, st2, n, n + |writes|)
    ensures var env2 := MergeAll(writes, cond, pre, thn, els, Some(env), n, used).outer.value;
            forall l | l in writes :: MergeBound(env2, l, st2.temps, src, at)
    decreases writes
  {
    if writes == [] {
      st2 := st;
    } else {
      var l := writes[0];
      assert l in writes;
      var used1 := UsedBy(l, pre, thn, els, used);
      var st1 := st.(temps := st.temps[n := Load(src, at[l.key])]);
      NestedUnfold(m, writes, cond, pre, thn, els, env, n, used, at, src, st);
      SelectsMore(writes, cond, pre, thn, els, st.temps, st1.temps, at, src);
      st2 := NestedMerges(m, writes[1..], cond, pre, thn, els, env.Bind(l.key, n), n + 1, used1, at, src, st1);
      FilledStep(st, n, Load(src, at[l.key]), st2, n + |writes|);
      FirstBound(writes[1..], cond, pre, thn, els, l, env, n, used1, st2.temps, src, at);
    }
  }

  lemma {:induction false} MorePath(m: Meaning, p: Path, t: map<nat, int>, u: map<nat, int>)
    requires DefinedPath(p, t)
    requires forall i | i in t :: i in u && u[i] == t[i]
    ensures DefinedPath(p, u) && forall c :: CellOf(m, p, c, u) == CellOf(m, p, c, t)
    decreases p, 0
  {
    match p
    case Var(_) =>
    case Field(b, _) => MorePath(m, b, t, u);
    case Index(b, k) =>
      MorePath(m, b, t, u);
      MoreExpr(m, k, t, u);
  }

  lemma {:induction false} MoreExpr(m: Meaning, e: Expr, t: map<nat, int>, u: map<nat, int>)
    requires Defined(e, t)
    requires forall i | i in t :: i in u && u[i] == t[i]
    ensures Defined(e, u) && forall c :: ValueOf(m, e, c, u) == ValueOf(m, e, c, t)
    decreases e, 0
  {
    match e
    case Lit(_) =>
    case Tmp(_) =>
    case Read(p) => MorePath(m, p, t, u);
    case App(_, args) => MoreExprs(m, args, t, u);
    case Select(b, y, n) =>
      MoreExpr(m, b, t, u);
      MoreExpr(m, y, t, u);
      MoreExpr(m, n, t, u);
  }

  lemma {:induction false} MoreExprs(m: Meaning, es: seq<Expr>, t: map<nat, int>, u: map<nat, int>)
    requires forall a | a in es :: Defined(a, t)
    requires forall i | i in t :: i in u && u[i] == t[i]
    ensures (forall a | a in es :: Defined(a, u)) && forall c :: ValuesOf(m, es, c, u) == ValuesOf(m, es, c, t)
    decreases es, 0
  {
    if es != [] {
      MoreExpr(m, es[0], t, u);
      MoreExprs(m, es[1..], t, u);
    }
  }
}
