/** The beginning of a frame: the condition, the hoisted keys and the pre-values. */
module BranchPrologue {
  import opened Wrappers
  import opened BranchAst
  import opened BranchLowering
  import opened BranchAdmission
  import opened BranchCells
  import opened BranchScan
  import opened BranchShape
  import opened BranchRelation
  import opened BranchStep
  import opened BranchSimple
  import opened BranchFrame

  /** The displayed path denotes the source's cell once the key temporaries are set. */
  lemma {:induction false} DisplayCell(m: Meaning, p: Path, rows: seq<Row>, src: Cells, t: map<nat, int>)
    requires Resolved(p, rows)
    requires forall r | r in rows :: r.tmp in t && t[r.tmp] == ValueOf(m, r.src, src, map[])
    ensures DefinedPath(Display(p, rows), t)
    ensures forall c :: CellOf(m, Display(p, rows), c, t) == SourceCell(m, p, src)
    decreases p
  {
    match p
    case Var(_) =>
    case Field(b, _) => DisplayCell(m, b, rows, src, t);
    case Index(b, k) =>
      DisplayCell(m, b, rows, src, t);
      LookupIs(rows, k);
      forall c
        ensures CellOf(m, Display(p, rows), c, t) == SourceCell(m, p, src)
      {
        assert CellOf(m, Display(b, rows), c, t) == SourceCell(m, b, src);
        assert ValueOf(m, KeyText(k, rows), c, t) == ValueOf(m, k, src, map[]);
      }
  }

  /** The initial value of a pre-value is `w` once the keys are set. */
  ghost predicate InitOk(m: Meaning, init: Expr, rows: seq<Row>, st: State, w: int) {
    forall t: map<nat, int> ::
      (forall i | i in st.temps :: i in t && t[i] == st.temps[i]) &&
      (forall r | r in rows :: r.tmp in t && t[r.tmp] == ValueOf(m, r.src, st.cells, map[])) ==>
      Defined(init, t) && ValueOf(m, init, st.cells, t) == w
  }

  lemma FixedFrom(m: Meaning, init: Expr, rows: seq<Row>, st: State, w: int, base: map<nat, int>)
    requires InitOk(m, init, rows, st, w)
    requires forall i | i in st.temps :: i in base && base[i] == st.temps[i]
    requires forall r | r in rows :: r.tmp in base && base[r.tmp] == ValueOf(m, r.src, st.cells, map[])
    ensures Fixed(m, init, base, st.cells) && ValueOf(m, init, st.cells, base) == w
  {
    forall t: map<nat, int> | forall i | i in base :: i in t && t[i] == base[i]
      ensures Defined(init, t) && ValueOf(m, init, st.cells, t) == w
    {
    }
  }

  lemma Prologue(m: Meaning, cond: Expr, n: nat, rows: seq<Row>, pres: seq<PreVal>, used: set<LocKey>, want: map<LocKey, int>, st: State)
    returns (st3: State)
    requires Defined(cond, st.temps) && StateOk(st)
    requires forall t | n <= t < n + 1 + |rows| + |pres| :: t !in st.declared && t !in st.temps
    requires forall i | 0 <= i < |rows| :: rows[i].tmp == n + 1 + i
    requires forall i | 0 <= i < |pres| :: pres[i].tmp == n + 1 + |rows| + i
    requires forall r | r in rows :: Closed(m, r.src, st.cells)
    requires forall p | p in pres :: p.key in want && InitOk(m, p.init, rows, st, want[p.key])
    ensures Run(m, [Let(n, cond)] + KeyLets(rows) + PreLets(pres, used), st) == Some(st3)
    ensures Grown(st, st3, n, n + 1 + |rows| + |pres|) && StateOk(st3)
    ensures n in st3.temps && st3.temps[n] == ValueOf(m, cond, st.cells, st.temps)
    ensures forall r | r in rows :: r.tmp in st3.temps && st3.temps[r.tmp] == ValueOf(m, r.src, st.cells, map[])
    ensures forall p | p in pres && p.key in used :: p.tmp in st3.temps && st3.temps[p.tmp] == want[p.key]
  {
    var st1 := st.(temps := st.temps[n := ValueOf(m, cond, st.cells, st.temps)], declared := st.declared + {n});
    assert Step1(m, Let(n, cond), st) == Some(st1);
    RunOne(m, Let(n, cond), st);
    var st2 := KeyLetsRun(m, rows, n + 1, st1);
    RunAppend(m, [Let(n, cond)], KeyLets(rows), st);
    forall p | p in pres
      ensures Fixed(m, p.init, st2.temps, st2.cells) && ValueOf(m, p.init, st2.cells, st2.temps) == want[p.key]
    {
      FixedFrom(m, p.init, rows, st, want[p.key], st2.temps);
    }
    st3 := PreLetsRun(m, pres, used, n + 1 + |rows|, st2.temps, st2);
    RunAppend(m, [Let(n, cond)] + KeyLets(rows), PreLets(pres, used), st);
  }
}
