/**
 The hypotheses about nested frames are needed: each of these families lowers
 without an error, and keeps the meaning exactly from the stores its theorem names.
 */
module BranchNestedCounterexamples {
  import opened Wrappers
  import opened BranchAst
  import opened BranchLowering
  import opened BranchAdmission
  import opened BranchStep
  import opened BranchSimple
  import opened BranchFrame
  import opened BranchArms
  import opened BranchSim
  import opened BranchTheorem
  import opened BranchCounterexamples

  const BOOL: Option<EType> := Some(Ebool)

  /** The literals of a program: the outer condition, the nested one, the value. */
  datatype Texts = Texts(c: string, d: string, e: string)

  // ---- a nested write under a computed key --------------------------------------

  const ELEM := Index(Var(0), Read(Var(1)))
  function At(t: nat): Path { Index(Var(0), Tmp(t)) }
  function KeyAt(t: nat): LocKey { LocKey(0, [SKey(KTmp(t))]) }
  function LocAt(t: nat): Loc { Loc(KeyAt(t), At(t), Ebool) }
  function Rows(t: nat): seq<Row> { [Row(Read(Var(1)), t)] }

  /** `if (c) { if (d) a[k] = e; }` */
  function Keyed(lits: Texts): Stmt { If(Lit(lits.c), If(Lit(lits.d), Assign(ELEM, BOOL, Lit(lits.e)), None), None) }

  function KeyedInnerText(lits: Texts): seq<TStmt> {
    [
     Let(3, Lit(lits.d)), Let(4, Read(Var(1))), Let(5, Read(At(4))), Declare(6), Scope([SetTmp(6, Lit(lits.e))]),
     SetLoc(At(4), Select(Tmp(3), Tmp(6), Tmp(5)))]
  }
  function KeyedCode(lits: Texts): seq<TStmt> {
    [
     Let(0, Lit(lits.c)), Let(1, Read(Var(1))), Let(2, Read(At(1))), Scope([Scope(KeyedInnerText(lits))]),
     SetLoc(At(1), Select(Tmp(0), Tmp(2), Tmp(2)))]
  }

  lemma ElemKey(t: nat)
    ensures KeyOf(ELEM, Rows(t)) == KeyAt(t) && Display(ELEM, Rows(t)) == At(t)
  {
    assert Lookup(Rows(t), Read(Var(1))) == Some(t);
    assert SegsOf(Var(0), Rows(t)) == [];
    assert SegsOf(ELEM, Rows(t)) == [] + [SKey(KTmp(t))] == [SKey(KTmp(t))];
  }

  /** One merge into a location that is not the enclosing frame's. */
  lemma MergeOne(l: Loc, cond: nat, pre: map<LocKey, nat>, thn: map<LocKey, nat>, els: map<LocKey, nat>, outer: Option<Env>, n: nat)
    requires l.key in pre && (outer.Some? ==> !HasKey(outer.value.writes, l.key))
    requires VersionOr(thn, l.key, pre[l.key]) == pre[l.key] || VersionOr(els, l.key, pre[l.key]) == pre[l.key]
    ensures MergeAll([l], cond, pre, thn, els, outer, n, {}) == MergeOut([SetLoc(l.display, MergeOf(l, cond, pre, thn, els))], outer, n, {l.key})
  {
    assert [l][1..] == [] && {} + {l.key} == {l.key};
    var rest := MergeAll([], cond, pre, thn, els, outer, n, {l.key});
    assert [SetLoc(l.display, MergeOf(l, cond, pre, thn, els))] + rest.code == [SetLoc(l.display, MergeOf(l, cond, pre, thn, els))];
  }

  /** The frame of one assignment to `a[k]`, whose key gets temporary `n + 1`. */
  lemma ElemScan(cfg: Cfg, s: Stmt, n: nat)
    requires s.If? && s.els.None? && cfg.locals == {}
    requires ScanBranch(cfg, s.thn, Scan([], Keys([], n))) == RecordWrite(cfg, ELEM, BOOL, Scan([], Keys([], n)))
    ensures ScanFrame(cfg, s, n) == Success(Scan([LocAt(n)], Keys(Rows(n), n + 1)))
  {
    assert HoistKeys(Var(0), Keys([], n)) == Success(Keys([], n));
    assert [] + Rows(n) == Rows(n) && [] + [LocAt(n)] == [LocAt(n)];
    assert HoistKeys(ELEM, Keys([], n)) == Success(Keys(Rows(n), n + 1));
    ElemKey(n);
  }

  function EnvAt(t: nat): Env {
    Env([LocAt(t)], Rows(t), map[KeyAt(t) := t + 1], map[KeyAt(t) := t + 1], [], {})
  }

  lemma PreAt(t: nat, outer: Option<Env>)
    requires outer.Some? ==> KeyAt(t) !in outer.value.versions
    ensures AllocPre([LocAt(t)], outer, t + 1) == PreOut([PreVal(KeyAt(t), t + 1, Read(At(t)))], outer, t + 2)
    ensures PreMap([PreVal(KeyAt(t), t + 1, Read(At(t)))]) == map[KeyAt(t) := t + 1]
  {
    if outer.Some? { assert outer.value.Use({}) == outer.value; }
    var pres := [PreVal(KeyAt(t), t + 1, Read(At(t)))];
    assert pres[..0] == [] && [LocAt(t)][1..] == [];
    assert AllocPre([], outer, t + 2) == PreOut([], outer, t + 2);
  }

  lemma ElemArm(cfg: Cfg, t: nat, lits: Texts)
    requires cfg.locals == {}
    ensures RenderArm(cfg, Assign(ELEM, BOOL, Lit(lits.e)), EnvAt(t), t + 2) == Success(Out([SetTmp(t + 2, Lit(lits.e))], EnvAt(t).Bind(KeyAt(t), t + 2), t + 3))
  {
    ElemKey(t);
    assert EnvAt(t).Use({}) == EnvAt(t);
    assert HasKey([LocAt(t)], KeyAt(t));
  }

  lemma KeyedInner(cfg: Cfg, lits: Texts)
    requires cfg.locals == {}
    ensures RenderFrame(cfg, Keyed(lits).thn, Some(EnvAt(1)), 3) == Success(FrameOut([Scope(KeyedInnerText(lits))], Some(EnvAt(1)), 7))
  {
    KeyedInnerGeneral(cfg, lits);
    NoDirect(cfg, Keyed(lits).thn, Some(EnvAt(1)), 3);
  }

  /** Without an `else` there is no direct form. */
  lemma NoDirect(cfg: Cfg, s: Stmt, outer: Option<Env>, n: nat)
    requires s.If? && s.els.None?
    ensures TryDirect(cfg, s, outer, n) == Success(None) && RenderFrame(cfg, s, outer, n) == RenderGeneral(cfg, s, outer, n)
  {
  }

  /** The two frames name the key apart, so the inner merge writes the cell itself. */
  lemma KeyedInnerMerge()
    ensures AllocPre([LocAt(4)], Some(EnvAt(1)), 5) == PreOut([PreVal(KeyAt(4), 5, Read(At(4)))], Some(EnvAt(1)), 6)
    ensures PreMap([PreVal(KeyAt(4), 5, Read(At(4)))]) == map[KeyAt(4) := 5]
    ensures MergeAll([LocAt(4)], 3, EnvAt(4).pre, EnvAt(4).Bind(KeyAt(4), 6).versions, map[], Some(EnvAt(1)), 7, {})
            == MergeOut([SetLoc(At(4), Select(Tmp(3), Tmp(6), Tmp(5)))], Some(EnvAt(1)), 7, {KeyAt(4)})
  {
    assert KeyAt(4) != KeyAt(1) by { assert KeyAt(4).segs[0] != KeyAt(1).segs[0]; }
    PreAt(4, Some(EnvAt(1)));
    assert !HasKey([LocAt(1)], KeyAt(4)) by { assert [LocAt(1)][1..] == []; }
    MergeOne(LocAt(4), 3, EnvAt(4).pre, EnvAt(4).Bind(KeyAt(4), 6).versions, map[], Some(EnvAt(1)), 7);
  }

  lemma KeyedInnerGeneral(cfg: Cfg, lits: Texts)
    requires cfg.locals == {}
    ensures RenderGeneral(cfg, Keyed(lits).thn, Some(EnvAt(1)), 3) == Success(FrameOut([Scope(KeyedInnerText(lits))], Some(EnvAt(1)), 7))
  {
    var s, env, outer := Keyed(lits).thn, EnvAt(4), Some(EnvAt(1));
    assert EnvAt(1).Use({}) == EnvAt(1);
    ElemScan(cfg, s, 4);
    ElemArm(cfg, 4, lits);
    KeyedInnerMerge();
    var thn := Out([SetTmp(6, Lit(lits.e))], env.Bind(KeyAt(4), 6), 7);
    var mg := MergeOut([SetLoc(At(4), Select(Tmp(3), Tmp(6), Tmp(5)))], outer, 7, {KeyAt(4)});
    GeneralFrom(cfg, s, outer, 3, Rendered(Lit(lits.d), {}), Scan([LocAt(4)], Keys(Rows(4), 5)), AllocPre([LocAt(4)], outer, 5), env, thn, None, mg);
    KeyedInnerCode(thn, mg.code, lits);
  }

  lemma KeyedInnerCode(thn: Out, merges: seq<TStmt>, lits: Texts)
    requires thn.code == [SetTmp(6, Lit(lits.e))] && thn.env.decls == [6] && merges == [SetLoc(At(4), Select(Tmp(3), Tmp(6), Tmp(5)))]
    ensures Assemble(3, Lit(lits.d), Rows(4), [PreVal(KeyAt(4), 5, Read(At(4)))], {KeyAt(4)}, thn, None, merges) == KeyedInnerText(lits)
  {
    OneElem(4, {KeyAt(4)});
  }

  lemma OneElem(t: nat, used: set<LocKey>)
    requires KeyAt(t) in used
    ensures KeyLets(Rows(t)) == [Let(t, Read(Var(1)))]
    ensures PreLets([PreVal(KeyAt(t), t + 1, Read(At(t)))], used) == [Let(t + 1, Read(At(t)))]
    ensures forall i: nat :: Declares([i]) == [Declare(i)]
  {
    var pres := [PreVal(KeyAt(t), t + 1, Read(At(t)))];
    assert Rows(t)[1..] == [] && pres[1..] == [];
    assert PreLets([], used) == [];
    forall i: nat
      ensures Declares([i]) == [Declare(i)]
    {
      assert [i][1..] == [];
      assert Declares([]) == [];
    }
  }

  lemma KeyedOuterCode(thn: Out, merges: seq<TStmt>, lits: Texts)
    requires thn.code == [Scope(KeyedInnerText(lits))] && thn.env.decls == [] && merges == [SetLoc(At(1), Select(Tmp(0), Tmp(2), Tmp(2)))]
    ensures Assemble(0, Lit(lits.c), Rows(1), [PreVal(KeyAt(1), 2, Read(At(1)))], {KeyAt(1)}, thn, None, merges) == KeyedCode(lits)
  {
    OneElem(1, {KeyAt(1)});
    assert Declares([]) == [];
  }

  lemma KeyedLowered(safe: string -> bool, lits: Texts)
    ensures LowerTopIf(safe, Keyed(lits), 0) == Success(FrameOut([Scope(KeyedCode(lits))], None, 7))
  {
    var s := Keyed(lits);
    assert Decls(s.thn.thn) == {};
    assert Decls(s.thn) == {};
    assert Decls(s) == {};
    var cfg, env := Cfg(Decls(s), safe), EnvAt(1);
    ElemScan(cfg, s, 1);
    PreAt(1, None);
    KeyedInner(cfg, lits);
    var thn := Out([Scope(KeyedInnerText(lits))], env, 7);
    assert RenderArm(cfg, s.thn, env, 3) == Success(thn);
    MergeOne(LocAt(1), 0, env.pre, env.versions, map[], None, 7);
    var mg := MergeOut([SetLoc(At(1), Select(Tmp(0), Tmp(2), Tmp(2)))], None, 7, {KeyAt(1)});
    GeneralFrom(cfg, s, None, 0, Rendered(Lit(lits.c), {}), Scan([LocAt(1)], Keys(Rows(1), 2)), AllocPre([LocAt(1)], None, 2), env, thn, None, mg);
    KeyedOuterCode(thn, mg.code, lits);
    NoDirect(cfg, s, None, 0);
  }

  /** What the nested frame stores. */
  function InnerValue(m: Meaning, lits: Texts, c: Cells): int {
    if m.lit(lits.d) != 0 then m.lit(lits.e) else Load(c, ElemCell(m, c))
  }

  function ElemCell(m: Meaning, c: Cells): Cell {
    m.place(0) + [KeyStep(Load(c, m.place(1)))]
  }

  lemma AtCell(m: Meaning, t: nat, c: Cells, temps: map<nat, int>)
    requires t in temps
    ensures DefinedPath(At(t), temps) && CellOf(m, At(t), c, temps) == m.place(0) + [KeyStep(temps[t])]
    ensures Defined(Read(At(t)), temps) && ValueOf(m, Read(At(t)), c, temps) == Load(c, m.place(0) + [KeyStep(temps[t])])
  {
    assert Defined(Tmp(t), temps) && ValueOf(m, Tmp(t), c, temps) == temps[t];
    assert DefinedPath(At(t), temps);
  }

  lemma KeyLet(m: Meaning, t: nat, s: State)
    requires t !in s.declared && t !in s.temps
    ensures Step1(m, Let(t, Read(Var(1))), s) == Some(LetIn(s, t, Load(s.cells, m.place(1))))
  {
    assert DefinedPath(Var(1), s.temps);
    assert Defined(Read(Var(1)), s.temps);
    assert CellOf(m, Var(1), s.cells, s.temps) == m.place(1);
  }

  lemma AtLet(m: Meaning, t: nat, k: nat, s: State)
    requires t !in s.declared && t !in s.temps && k in s.temps
    ensures Step1(m, Let(t, Read(At(k))), s) == Some(LetIn(s, t, Load(s.cells, m.place(0) + [KeyStep(s.temps[k])])))
  {
    AtCell(m, k, s.cells, s.temps);
  }

  lemma AtSelect(m: Meaning, k: nat, x: nat, y: nat, z: nat, s: State)
    requires k in s.temps && x in s.temps && y in s.temps && z in s.temps
    ensures Step1(m, SetLoc(At(k), Select(Tmp(x), Tmp(y), Tmp(z))), s)
            == Some(s.(cells := s.cells[m.place(0) + [KeyStep(s.temps[k])] := if s.temps[x] != 0 then s.temps[y] else s.temps[z]]))
  {
    AtCell(m, k, s.cells, s.temps);
    SelectTemps(m, x, y, z, s.cells, s.temps);
  }

  /** A scope keeps the cells and drops the temporaries declared inside it. */
  lemma ScopeDrops(m: Meaning, code: seq<TStmt>, a: State, z: State)
    requires Run(m, code, a) == Some(z)
    requires forall t | t in a.temps :: t in a.declared && t in z.temps && z.temps[t] == a.temps[t]
    requires forall t | t in z.temps && t in a.declared :: t in a.temps
    ensures Step1(m, Scope(code), a) == Some(a.(cells := z.cells))
  {
    assert Visible(z.temps, a.declared) == a.temps;
  }

  lemma KeyedInnerLets(m: Meaning, s0: State, lits: Texts) returns (s3: State)
    requires StateOk(s0) && forall t | t in s0.declared :: t < 3
    ensures Run(m, KeyedInnerText(lits)[..3], s0) == Some(s3)
    ensures s3 == State(s0.cells, s0.temps[3 := m.lit(lits.d)][4 := Load(s0.cells, m.place(1))][5 := Load(s0.cells, ElemCell(m, s0.cells))],
                        s0.declared + {3} + {4} + {5})
  {
    var s1 := LetIn(s0, 3, m.lit(lits.d));
    var s2 := LetIn(s1, 4, Load(s0.cells, m.place(1)));
    KeyLet(m, 4, s1);
    s3 := LetIn(s2, 5, Load(s0.cells, ElemCell(m, s0.cells)));
    AtLet(m, 5, 4, s2);
    RunChain(m, KeyedInnerText(lits)[..3], [s0, s1, s2, s3]);
  }

  lemma KeyedInnerSteps(m: Meaning, s0: State, lits: Texts) returns (s6: State)
    requires StateOk(s0) && forall t | t in s0.declared :: t < 3
    ensures Run(m, KeyedInnerText(lits), s0) == Some(s6) && s6.cells == s0.cells[ElemCell(m, s0.cells) := InnerValue(m, lits, s0.cells)]
    ensures forall t | t in s0.temps :: t in s6.temps && s6.temps[t] == s0.temps[t]
    ensures forall t | t in s6.temps :: t in s0.temps || 3 <= t
  {
    var x := ElemCell(m, s0.cells);
    var s3 := KeyedInnerLets(m, s0, lits);
    var s4 := s3.(declared := s3.declared + {6});
    var s5 := s4.(temps := s4.temps[6 := m.lit(lits.e)]);
    RunScoped(m, 6, Lit(lits.e), s4);
    s6 := s5.(cells := s5.cells[x := InnerValue(m, lits, s0.cells)]);
    AtSelect(m, 4, 3, 6, 5, s5);
    RunChain(m, KeyedInnerText(lits)[3..], [s3, s4, s5, s6]);
    assert KeyedInnerText(lits)[..3] + KeyedInnerText(lits)[3..] == KeyedInnerText(lits);
    RunAppend(m, KeyedInnerText(lits)[..3], KeyedInnerText(lits)[3..], s0);
  }

  lemma KeyedInnerRun(m: Meaning, s0: State, lits: Texts)
    requires StateOk(s0) && forall t | t in s0.declared :: t < 3
    ensures Step1(m, Scope([Scope(KeyedInnerText(lits))]), s0) == Some(s0.(cells := s0.cells[ElemCell(m, s0.cells) := InnerValue(m, lits, s0.cells)]))
  {
    var s6 := KeyedInnerSteps(m, s0, lits);
    ScopeDrops(m, KeyedInnerText(lits), s0, s6);
    RunOne(m, Scope(KeyedInnerText(lits)), s0);
    ScopeDrops(m, [Scope(KeyedInnerText(lits))], s0, s0.(cells := s6.cells));
  }

  lemma KeyedRun(m: Meaning, c: Cells, lits: Texts)
    ensures var r := Run(m, KeyedCode(lits), State(c, map[], {}));
            r.Some? && r.value.cells == c[ElemCell(m, c) := InnerValue(m, lits, c)][ElemCell(m, c) := Load(c, ElemCell(m, c))]
  {
    var x, s0 := ElemCell(m, c), State(c, map[], {});
    var s1 := LetIn(s0, 0, m.lit(lits.c));
    var s2 := LetIn(s1, 1, Load(c, m.place(1)));
    KeyLet(m, 1, s1);
    var s3 := LetIn(s2, 2, Load(c, x));
    AtLet(m, 2, 1, s2);
    var s4 := s3.(cells := c[x := InnerValue(m, lits, c)]);
    KeyedInnerRun(m, s3, lits);
    AtSelect(m, 1, 0, 2, 2, s4);
    RunChain(m, KeyedCode(lits), [s0, s1, s2, s3, s4, s4.(cells := s4.cells[x := Load(c, x)])]);
  }

  lemma KeyedExec(m: Meaning, lits: Texts, c: Cells)
    ensures Decls(Keyed(lits)) == {}
    ensures Exec(m, Keyed(lits), c) == if m.lit(lits.c) != 0 && m.lit(lits.d) != 0 then c[ElemCell(m, c) := m.lit(lits.e)] else c
  {
    var s := Keyed(lits);
    assert Decls(s.thn.thn) == {};
    assert Decls(s.thn) == {};
    assert ValueOf(m, Read(Var(1)), c, map[]) == Load(c, m.place(1)) by {
      assert CellOf(m, Var(1), c, map[]) == m.place(1);
    }
    assert CellOf(m, ELEM, c, map[]) == ElemCell(m, c);
    assert Exec(m, s.thn.thn, c) == c[ElemCell(m, c) := m.lit(lits.e)];
    assert Exec(m, s.thn, c) == if m.lit(lits.d) != 0 then c[ElemCell(m, c) := m.lit(lits.e)] else c;
  }

  /** Each frame names the key anew, so the enclosing frame writes its pre-value over
      the nested write: the meaning is kept exactly when that write does nothing. */
  lemma NestedKeyedWriteLost(safe: string -> bool, m: Meaning, lits: Texts, c: Cells)
    ensures LowerTopIf(safe, Keyed(lits), 0).Success?
    ensures Keeps(m, Keyed(lits), LowerTopIf(safe, Keyed(lits), 0).value.code, c)
            <==> m.lit(lits.c) == 0 || m.lit(lits.d) == 0 || Load(c, ElemCell(m, c)) == m.lit(lits.e)
  {
    KeyedLowered(safe, lits);
    KeyedRun(m, c, lits);
    ScopedKeeps(m, Keyed(lits), KeyedCode(lits), c);
    KeyedExec(m, lits, c);
    NoLocals(m, Keyed(lits), ElemCell(m, c));
  }

  lemma NoLocals(m: Meaning, s: Stmt, x: Cell)
    requires Decls(s) == {}
    ensures !Under(m, Decls(s), x)
  {
  }

  // ---- a nested write to a local of the enclosing arm ---------------------------

  function Key0(v: VarId): LocKey { LocKey(v, []) }
  function Loc0(v: VarId): Loc { Loc(Key0(v), Var(v), Ebool) }

  /** `if (c) { T l; if (v) l = e; x = l; }` with `x`, `l` and `v` the variables 0, 1 and 2. */
  function Inherited(lits: Texts): Stmt { If(Lit(lits.c), Block([Decl(1, None), If(Read(Var(2)), Assign(Var(1), BOOL, Lit(lits.e)), None), Assign(Var(0), BOOL, Read(Var(1)))]), None) }
  function InheritedInnerCode(lits: Texts): seq<TStmt> { [Let(2, Read(Var(2))), Scope([SetLoc(Var(1), Lit(lits.e))])] }
  function InheritedArmCode(lits: Texts): seq<TStmt> { [NewLocal(1, None), Scope(InheritedInnerCode(lits)), SetTmp(3, Read(Var(1)))] }
  function InheritedCode(lits: Texts): seq<TStmt> { [Let(0, Lit(lits.c)), Let(1, Read(Var(0))), Declare(3), Scope(InheritedArmCode(lits)), SetLoc(Var(0), Select(Tmp(0), Tmp(3), Tmp(1)))] }

  const ENV_ONE := Env([Loc0(0)], [], map[Key0(0) := 1], map[Key0(0) := 1], [], {})

  lemma OneLoc(v: VarId, w: VarId)
    ensures HasKey([Loc0(v)], Key0(w)) == (v == w)
    ensures v != w ==> !MayAliasAny([Loc0(v)], Key0(w))
  {
    assert [Loc0(v)][1..] == [];
  }

  lemma InheritedInner(cfg: Cfg, lits: Texts)
    requires cfg.locals == {1}
    ensures RenderFrame(cfg, Inherited(lits).thn.body[1], Some(ENV_ONE), 2) == Success(FrameOut([Scope(InheritedInnerCode(lits))], Some(ENV_ONE), 3))
  {
    var s, outer := Inherited(lits).thn.body[1], Some(ENV_ONE);
    OneLoc(0, 2);
    assert ENV_ONE.Use({}) == ENV_ONE;
    var env := Env([], [], map[], map[], [], {});
    assert env.Use({}) == env;
    assert PreMap([]) == map[];
    var thn := Out([SetLoc(Var(1), Lit(lits.e))], env, 3);
    GeneralFrom(cfg, s, outer, 2, Rendered(Read(Var(2)), {}), Scan([], Keys([], 3)), PreOut([], outer, 3), env, thn, None, MergeOut([], outer, 3, {}));
    assert KeyLets([]) == [] && PreLets([], {}) == [] && Declares([]) == [];
    assert Assemble(2, Read(Var(2)), [], [], {}, thn, None, []) == InheritedInnerCode(lits);
  }

  lemma InheritedScan(cfg: Cfg, lits: Texts)
    requires cfg.locals == {1}
    ensures ScanFrame(cfg, Inherited(lits), 1) == Success(Scan([Loc0(0)], Keys([], 1)))
  {
    var body, sc := Inherited(lits).thn.body, Scan([], Keys([], 1));
    assert body[1..] == [body[1], body[2]] && body[1..][1..] == [body[2]] && [body[2]][1..] == [];
    assert [] + [Loc0(0)] == [Loc0(0)];
    assert ScanAll(cfg, [body[2]], sc) == Success(Scan([Loc0(0)], Keys([], 1)));
    var rest := body[1..];
    assert rest[0] == body[1] && rest[1..] == [body[2]];
    assert ScanBranch(cfg, body[1], sc) == Success(sc);
    assert ScanAll(cfg, rest, sc) == ScanAll(cfg, [body[2]], sc);
    assert ScanAll(cfg, body, sc) == ScanAll(cfg, rest, sc);
  }

  lemma InheritedArm(cfg: Cfg, lits: Texts)
    requires cfg.locals == {1}
    ensures RenderArm(cfg, Inherited(lits).thn, ENV_ONE, 2) == Success(Out(InheritedArmCode(lits), ENV_ONE.Bind(Key0(0), 3), 4))
  {
    var body := Inherited(lits).thn.body;
    assert body[1..] == [body[1], body[2]] && [body[1], body[2]][1..] == [body[2]] && [body[2]][1..] == [];
    OneLoc(0, 0);
    assert ENV_ONE.Use({}) == ENV_ONE;
    var env1 := ENV_ONE.Bind(Key0(0), 3);
    assert RenderStmt(cfg, body[2], ENV_ONE, 3) == Success(Out([SetTmp(3, Read(Var(1)))], env1, 4));
    assert [SetTmp(3, Read(Var(1)))] + [] == [SetTmp(3, Read(Var(1)))];
    assert RenderAll(cfg, [body[2]], ENV_ONE, 3) == Success(Out([SetTmp(3, Read(Var(1)))], env1, 4));
    InheritedInner(cfg, lits);
    assert RenderStmt(cfg, body[1], ENV_ONE, 2) == Success(Out([Scope(InheritedInnerCode(lits))], ENV_ONE, 3));
    var rest := body[1..];
    assert rest[0] == body[1] && rest[1..] == [body[2]];
    assert [Scope(InheritedInnerCode(lits))] + [SetTmp(3, Read(Var(1)))] == [Scope(InheritedInnerCode(lits)), SetTmp(3, Read(Var(1)))];
    assert RenderAll(cfg, rest, ENV_ONE, 2) == Success(Out([Scope(InheritedInnerCode(lits)), SetTmp(3, Read(Var(1)))], env1, 4));
    assert RenderStmt(cfg, body[0], ENV_ONE, 2) == Success(Out([NewLocal(1, None)], ENV_ONE, 2));
    assert [NewLocal(1, None)] + [Scope(InheritedInnerCode(lits)), SetTmp(3, Read(Var(1)))] == InheritedArmCode(lits);
  }

  lemma InheritedLowered(safe: string -> bool, lits: Texts)
    ensures Decls(Inherited(lits)) == {1}
    ensures LowerTopIf(safe, Inherited(lits), 0) == Success(FrameOut([Scope(InheritedCode(lits))], None, 4))
  {
    var s, body := Inherited(lits), Inherited(lits).thn.body;
    InheritedDecls(lits);
    var cfg := Cfg(Decls(s), safe);
    InheritedScan(cfg, lits);
    InheritedArm(cfg, lits);
    Pre0(0, 1);
    var pres := [PreVal(Key0(0), 1, Read(Var(0)))];
    var thn := Out(InheritedArmCode(lits), ENV_ONE.Bind(Key0(0), 3), 4);
    MergeOne(Loc0(0), 0, ENV_ONE.pre, thn.env.versions, map[], None, 4);
    var mg := MergeOut([SetLoc(Var(0), Select(Tmp(0), Tmp(3), Tmp(1)))], None, 4, {Key0(0)});
    GeneralFrom(cfg, s, None, 0, Rendered(Lit(lits.c), {}), Scan([Loc0(0)], Keys([], 1)), PreOut(pres, None, 2), ENV_ONE, thn, None, mg);
    InheritedAssembled(thn, lits);
  }

  lemma InheritedDecls(lits: Texts)
    ensures Decls(Inherited(lits)) == {1}
  {
    var body := Inherited(lits).thn.body;
    var rest := body[1..];
    assert rest[0] == body[1] && rest[1..] == [body[2]];
    AssignDecls(body[1].thn);
    AssignDecls(body[2]);
    assert Decls(body[1]) == {};
    DeclsCons([body[2]]);
    DeclsCons(rest);
    DeclsCons(body);
    assert Inherited(lits).thn == Block(body);
  }

  lemma Pre0(v: VarId, t: nat)
    ensures AllocPre([Loc0(v)], None, t) == PreOut([PreVal(Key0(v), t, Read(Var(v)))], None, t + 1)
    ensures PreMap([PreVal(Key0(v), t, Read(Var(v)))]) == map[Key0(v) := t]
  {
    var pres := [PreVal(Key0(v), t, Read(Var(v)))];
    assert pres[..0] == [] && [Loc0(v)][1..] == [];
  }

  lemma InheritedAssembled(thn: Out, lits: Texts)
    requires thn == Out(InheritedArmCode(lits), ENV_ONE.Bind(Key0(0), 3), 4)
    ensures Assemble(0, Lit(lits.c), [], [PreVal(Key0(0), 1, Read(Var(0)))], {Key0(0)}, thn, None, [SetLoc(Var(0), Select(Tmp(0), Tmp(3), Tmp(1)))])
            == InheritedCode(lits)
  {
    var pres := [PreVal(Key0(0), 1, Read(Var(0)))];
    assert pres[1..] == [] && PreLets([], {Key0(0)}) == [] && KeyLets([]) == [];
    assert PreLets(pres, {Key0(0)}) == [Let(1, Read(Var(0)))];
    assert thn.env.decls == [3] && [3][1..] == [] && Declares([]) == [] && Declares([3]) == [Declare(3)];
  }

  lemma VarLet(m: Meaning, t: nat, v: VarId, s: State)
    requires t !in s.declared && t !in s.temps
    ensures Step1(m, Let(t, Read(Var(v))), s) == Some(LetIn(s, t, Load(s.cells, m.place(v))))
    ensures Defined(Read(Var(v)), s.temps) && ValueOf(m, Read(Var(v)), s.cells, s.temps) == Load(s.cells, m.place(v))
  {
    assert DefinedPath(Var(v), s.temps);
    assert CellOf(m, Var(v), s.cells, s.temps) == m.place(v);
  }

  /** The nested arm runs whatever its condition. */
  lemma InheritedInnerRun(m: Meaning, s0: State, lits: Texts)
    requires StateOk(s0) && 2 !in s0.declared
    ensures Step1(m, Scope(InheritedInnerCode(lits)), s0) == Some(s0.(cells := s0.cells[m.place(1) := m.lit(lits.e)]))
  {
    VarLet(m, 2, 2, s0);
    var s1 := LetIn(s0, 2, Load(s0.cells, m.place(2)));
    var s2 := s1.(cells := s1.cells[m.place(1) := m.lit(lits.e)]);
    RunOne(m, SetLoc(Var(1), Lit(lits.e)), s1);
    ScopeDrops(m, [SetLoc(Var(1), Lit(lits.e))], s1, s2);
    RunChain(m, InheritedInnerCode(lits), [s0, s1, s2]);
    ScopeDrops(m, InheritedInnerCode(lits), s0, s2);
  }

  lemma InheritedArmRun(m: Meaning, s0: State, lits: Texts)
    requires StateOk(s0) && 2 !in s0.declared && 3 in s0.declared && 3 !in s0.temps
    ensures Step1(m, Scope(InheritedArmCode(lits)), s0)
            == Some(s0.(cells := Declared(m, 1, 0, s0.cells)[m.place(1) := m.lit(lits.e)], temps := s0.temps[3 := m.lit(lits.e)]))
  {
    var s1 := s0.(cells := Declared(m, 1, 0, s0.cells));
    var s2 := s1.(cells := s1.cells[m.place(1) := m.lit(lits.e)]);
    InheritedInnerRun(m, s1, lits);
    var s3 := s2.(temps := s2.temps[3 := m.lit(lits.e)]);
    assert Defined(Read(Var(1)), s2.temps) && ValueOf(m, Read(Var(1)), s2.cells, s2.temps) == m.lit(lits.e) by {
      assert DefinedPath(Var(1), s2.temps);
      assert CellOf(m, Var(1), s2.cells, s2.temps) == m.place(1);
    }
    RunChain(m, InheritedArmCode(lits), [s0, s1, s2, s3]);
    ScopeStep(m, InheritedArmCode(lits), s0.(temps := s0.temps), s3);
  }

  function Merged(m: Meaning, lits: Texts, c: Cells): int {
    if m.lit(lits.c) != 0 then m.lit(lits.e) else Load(c, m.place(0))
  }

  lemma InheritedRun(m: Meaning, c: Cells, lits: Texts)
    ensures var r := Run(m, InheritedCode(lits), State(c, map[], {}));
            r.Some? && r.value.cells == Declared(m, 1, 0, c)[m.place(1) := m.lit(lits.e)][m.place(0) := Merged(m, lits, c)]
  {
    var s0 := State(c, map[], {});
    var s1 := LetIn(s0, 0, m.lit(lits.c));
    var s2 := LetIn(s1, 1, Load(c, m.place(0)));
    VarLet(m, 1, 0, s1);
    var s3 := s2.(declared := s2.declared + {3});
    InheritedArmRun(m, s3, lits);
    var s4 := s3.(cells := Declared(m, 1, 0, c)[m.place(1) := m.lit(lits.e)], temps := s3.temps[3 := m.lit(lits.e)]);
    SelectInto(m, Var(0), 0, 3, 1, s4);
    RunChain(m, InheritedCode(lits), [s0, s1, s2, s3, s4, s4.(cells := s4.cells[m.place(0) := Merged(m, lits, c)])]);
  }

  lemma InheritedExec(m: Meaning, lits: Texts, c: Cells)
    requires m.lit(lits.c) != 0 && RootsDisjoint(m, {0, 1, 2})
    ensures var v := if Load(c, m.place(2)) != 0 then m.lit(lits.e) else 0;
            Exec(m, Inherited(lits), c) == Declared(m, 1, 0, c)[m.place(1) := v][m.place(0) := v]
  {
    var body := Inherited(lits).thn.body;
    var rest := body[1..];
    assert rest[0] == body[1] && rest[1..] == [body[2]] && [body[2]][1..] == [];
    var c1 := Declared(m, 1, 0, c);
    var v := if Load(c, m.place(2)) != 0 then m.lit(lits.e) else 0;
    assert Exec(m, body[0], c) == c1;
    InheritedNested(m, lits, c);
    var c2 := c1[m.place(1) := v];
    VarRead(m, 1, c2, map[]);
    assert CellOf(m, Var(0), c2, map[]) == m.place(0);
    assert Exec(m, body[2], c2) == c2[m.place(0) := v];
    assert ExecAll(m, [], c2[m.place(0) := v]) == c2[m.place(0) := v];
    assert ExecAll(m, [body[2]], c2) == c2[m.place(0) := v];
    assert ExecAll(m, rest, c1) == c2[m.place(0) := v];
    assert ExecAll(m, body, c) == c2[m.place(0) := v];
  }

  /** The source's nested `if` after the declaration. */
  lemma InheritedNested(m: Meaning, lits: Texts, c: Cells)
    requires RootsDisjoint(m, {0, 1, 2})
    ensures var c1 := Declared(m, 1, 0, c);
            Exec(m, Inherited(lits).thn.body[1], c1) == c1[m.place(1) := if Load(c, m.place(2)) != 0 then m.lit(lits.e) else 0]
  {
    var s, c1 := Inherited(lits).thn.body[1], Declared(m, 1, 0, c);
    DeclaredElsewhere(m, 1, 0, c);
    assert !(m.place(1) <= m.place(2));
    VarRead(m, 2, c1, map[]);
    assert CellOf(m, Var(1), c1, map[]) == m.place(1);
    assert Exec(m, s.thn, c1) == c1[m.place(1) := m.lit(lits.e)];
    assert c1[m.place(1) := 0] == c1;
  }

  /** A nested arm writes the enclosing arm's local whether it is taken or not. */
  lemma NestedLocalWriteUnconditional(safe: string -> bool, m: Meaning, lits: Texts, c: Cells)
    requires RootsDisjoint(m, {0, 1, 2})
    ensures LowerTopIf(safe, Inherited(lits), 0).Success?
    ensures Keeps(m, Inherited(lits), LowerTopIf(safe, Inherited(lits), 0).value.code, c)
            <==> m.lit(lits.c) == 0 || Load(c, m.place(2)) != 0 || m.lit(lits.e) == 0
  {
    InheritedLowered(safe, lits);
    InheritedRun(m, c, lits);
    ScopedKeeps(m, Inherited(lits), InheritedCode(lits), c);
    assert !Under(m, {1}, m.place(0));
    if m.lit(lits.c) != 0 {
      InheritedExec(m, lits, c);
      var v := if Load(c, m.place(2)) != 0 then m.lit(lits.e) else 0;
      LocalsAside(m, c, v, v, m.lit(lits.e), m.lit(lits.e));
    } else {
      forall x: Cell | !Under(m, {1}, x)
        ensures Load(c, x) == Load(Declared(m, 1, 0, c)[m.place(1) := m.lit(lits.e)][m.place(0) := Load(c, m.place(0))], x)
      {
        DeclaredElsewhere(m, 1, 0, c);
        UnderLocal(m, 1, {1}, x);
      }
    }
  }

  lemma LocalsAside(m: Meaning, c: Cells, v: int, v0: int, w: int, w0: int)
    ensures forall x: Cell | !Under(m, {1}, x) && x != m.place(0) ::
              Load(Declared(m, 1, 0, c)[m.place(1) := v][m.place(0) := v0], x)
              == Load(Declared(m, 1, 0, c)[m.place(1) := w][m.place(0) := w0], x)
  {
    forall x: Cell | !Under(m, {1}, x) && x != m.place(0)
      ensures Load(Declared(m, 1, 0, c)[m.place(1) := v][m.place(0) := v0], x)
           == Load(Declared(m, 1, 0, c)[m.place(1) := w][m.place(0) := w0], x)
    {
      UnderLocal(m, 1, {1}, x);
    }
  }

  // ---- a nested read of a location the enclosing arm reassigned -------------------

  /** `if (c) { x = e; if (d) y = x; }` with `x` and `y` the variables 0 and 1. */
  function Stale(lits: Texts): Stmt { If(Lit(lits.c), Block([Assign(Var(0), BOOL, Lit(lits.e)), If(Lit(lits.d), Assign(Var(1), BOOL, Read(Var(0))), None)]), None) }
  function StaleInnerText(lits: Texts): seq<TStmt> {
    [
     Let(4, Lit(lits.d)), Let(5, Tmp(2)), Declare(6), Scope([SetTmp(6, Read(Var(0)))]), SetTmp(7, Select(Tmp(4), Tmp(6), Tmp(5)))]
  }
  function StaleArmText(lits: Texts): seq<TStmt> { [SetTmp(3, Lit(lits.e)), Scope(StaleInnerText(lits))] }
  const STALE_MERGES := [SetLoc(Var(0), Select(Tmp(0), Tmp(3), Tmp(1))), SetLoc(Var(1), Select(Tmp(0), Tmp(7), Tmp(2)))]
  function StaleCode(lits: Texts): seq<TStmt> {
    [Let(0, Lit(lits.c)), Let(1, Read(Var(0))), Let(2, Read(Var(1))), Declare(3), Declare(7), Scope(StaleArmText(lits))] + STALE_MERGES
  }

  const PRE_TWO := map[Key0(0) := 1, Key0(1) := 2]
  const ENV_TWO := Env([Loc0(0), Loc0(1)], [], PRE_TWO, PRE_TWO, [], {})
  /** After `x = e`, and after the nested frame too. */
  const ENV_SET := ENV_TWO.Bind(Key0(0), 3)
  const ENV_BOTH := ENV_SET.Use({Key0(1)}).Bind(Key0(1), 7)

  lemma TwoLocs(v: VarId)
    ensures HasKey([Loc0(0), Loc0(1)], Key0(v)) == (v == 0 || v == 1)
  {
    assert [Loc0(0), Loc0(1)][1..] == [Loc0(1)];
    OneLoc(1, v);
  }

  lemma StaleInner(cfg: Cfg, lits: Texts)
    requires cfg.locals == {}
    ensures RenderFrame(cfg, Stale(lits).thn.body[1], Some(ENV_SET), 4) == Success(FrameOut([Scope(StaleInnerText(lits))], Some(ENV_BOTH), 8))
  {
    var s, outer := Stale(lits).thn.body[1], Some(ENV_SET);
    assert ENV_SET.Use({}) == ENV_SET;
    var used := Some(ENV_SET.Use({Key0(1)}));
    var env := Env([Loc0(1)], [], map[Key0(1) := 5], map[Key0(1) := 5], [], {});
    StaleInnerScan(cfg, lits);
    StaleInnerPre(outer);
    StaleInnerArm(cfg, env, lits);
    StaleInnerMerge(env.Bind(Key0(1), 6).versions);
    var thn := Out([SetTmp(6, Read(Var(0)))], env.Bind(Key0(1), 6), 7);
    var mg := MergeOut([SetTmp(7, Select(Tmp(4), Tmp(6), Tmp(5)))], Some(ENV_BOTH), 8, {Key0(1)});
    GeneralFrom(cfg, s, outer, 4, Rendered(Lit(lits.d), {}), Scan([Loc0(1)], Keys([], 5)),
                PreOut([PreVal(Key0(1), 5, Tmp(2))], used, 6), env, thn, None, mg);
    StaleInnerCode(thn, lits);
    NoDirect(cfg, s, outer, 4);
  }

  lemma StaleInnerScan(cfg: Cfg, lits: Texts)
    requires cfg.locals == {}
    ensures ScanFrame(cfg, Stale(lits).thn.body[1], 5) == Success(Scan([Loc0(1)], Keys([], 5)))
  {
    assert [] + [Loc0(1)] == [Loc0(1)];
  }

  lemma StaleInnerPre(outer: Option<Env>)
    requires outer == Some(ENV_SET)
    ensures AllocPre([Loc0(1)], outer, 5) == PreOut([PreVal(Key0(1), 5, Tmp(2))], Some(ENV_SET.Use({Key0(1)})), 6)
    ensures PreMap([PreVal(Key0(1), 5, Tmp(2))]) == map[Key0(1) := 5]
  {
    assert [Loc0(1)][1..] == [];
    var pres := [PreVal(Key0(1), 5, Tmp(2))];
    assert pres[..0] == [];
    assert ENV_SET.Uses(Key0(1)) == {Key0(1)};
    assert AllocPre([], Some(ENV_SET.Use({Key0(1)})), 6) == PreOut([], Some(ENV_SET.Use({Key0(1)})), 6);
  }

  lemma StaleInnerArm(cfg: Cfg, env: Env, lits: Texts)
    requires cfg.locals == {} && env == Env([Loc0(1)], [], map[Key0(1) := 5], map[Key0(1) := 5], [], {})
    ensures RenderArm(cfg, Stale(lits).thn.body[1].thn, env, 6) == Success(Out([SetTmp(6, Read(Var(0)))], env.Bind(Key0(1), 6), 7))
  {
    OneLoc(1, 0);
    OneLoc(1, 1);
    assert env.Use({}) == env;
  }

  lemma StaleInnerMerge(thn: map<LocKey, nat>)
    requires thn == map[Key0(1) := 5][Key0(1) := 6]
    ensures MergeAll([Loc0(1)], 4, map[Key0(1) := 5], thn, map[], Some(ENV_SET.Use({Key0(1)})), 7, {})
            == MergeOut([SetTmp(7, Select(Tmp(4), Tmp(6), Tmp(5)))], Some(ENV_BOTH), 8, {Key0(1)})
  {
    TwoLocs(1);
    assert [Loc0(1)][1..] == [] && {} + {Key0(1)} == {Key0(1)};
    assert MergeAll([], 4, map[Key0(1) := 5], thn, map[], Some(ENV_BOTH), 8, {Key0(1)}) == MergeOut([], Some(ENV_BOTH), 8, {Key0(1)});
  }

  lemma StaleInnerCode(thn: Out, lits: Texts)
    requires thn.code == [SetTmp(6, Read(Var(0)))] && thn.env.decls == [6]
    ensures Assemble(4, Lit(lits.d), [], [PreVal(Key0(1), 5, Tmp(2))], {Key0(1)}, thn, None, [SetTmp(7, Select(Tmp(4), Tmp(6), Tmp(5)))]) == StaleInnerText(lits)
  {
    var pres := [PreVal(Key0(1), 5, Tmp(2))];
    assert pres[1..] == [] && PreLets([], {Key0(1)}) == [] && KeyLets([]) == [];
    assert PreLets(pres, {Key0(1)}) == [Let(5, Tmp(2))];
    assert [6][1..] == [] && Declares([]) == [] && Declares([6]) == [Declare(6)];
  }

  lemma StaleScan(cfg: Cfg, lits: Texts)
    requires cfg.locals == {}
    ensures ScanFrame(cfg, Stale(lits), 1) == Success(Scan([Loc0(0), Loc0(1)], Keys([], 1)))
  {
    var body, sc0, sc1 := Stale(lits).thn.body, Scan([], Keys([], 1)), Scan([Loc0(0)], Keys([], 1));
    var rest := body[1..];
    assert rest[0] == body[1] && rest[1..] == [];
    assert [] + [Loc0(0)] == [Loc0(0)] && [Loc0(0)] + [Loc0(1)] == [Loc0(0), Loc0(1)];
    OneLoc(0, 1);
    assert ScanBranch(cfg, body[0], sc0) == Success(sc1);
    assert ScanBranch(cfg, body[1], sc1) == Success(Scan([Loc0(0), Loc0(1)], Keys([], 1)));
    assert ScanAll(cfg, [], Scan([Loc0(0), Loc0(1)], Keys([], 1))) == Success(Scan([Loc0(0), Loc0(1)], Keys([], 1)));
    assert ScanAll(cfg, rest, sc1) == Success(Scan([Loc0(0), Loc0(1)], Keys([], 1)));
    assert ScanAll(cfg, body, sc0) == ScanAll(cfg, rest, sc1);
  }

  lemma StaleFirst(cfg: Cfg, lits: Texts)
    requires cfg.locals == {}
    ensures RenderStmt(cfg, Stale(lits).thn.body[0], ENV_TWO, 3) == Success(Out([SetTmp(3, Lit(lits.e))], ENV_SET, 4))
  {
    TwoLocs(0);
    assert ENV_TWO.Use({}) == ENV_TWO;
  }

  lemma StaleArm(cfg: Cfg, lits: Texts)
    requires cfg.locals == {}
    ensures RenderArm(cfg, Stale(lits).thn, ENV_TWO, 3) == Success(Out(StaleArmText(lits), ENV_BOTH, 8))
  {
    var body := Stale(lits).thn.body;
    var rest := body[1..];
    assert rest[0] == body[1] && rest[1..] == [];
    StaleFirst(cfg, lits);
    StaleInner(cfg, lits);
    var none, one := Out([], ENV_BOTH, 8), Out([Scope(StaleInnerText(lits))], ENV_BOTH, 8);
    assert RenderStmt(cfg, body[1], ENV_SET, 4) == Success(one);
    assert RenderAll(cfg, [], ENV_BOTH, 8) == Success(none);
    assert one.code + none.code == one.code;
    assert RenderAll(cfg, rest, ENV_SET, 4) == Success(one);
    RenderCons(cfg, body, ENV_TWO, 3, Out([SetTmp(3, Lit(lits.e))], ENV_SET, 4), one);
    assert [SetTmp(3, Lit(lits.e))] + one.code == StaleArmText(lits);
    assert Stale(lits).thn == Block(body);
  }

  lemma StaleDecls(lits: Texts)
    ensures Decls(Stale(lits)) == {}
  {
    var body := Stale(lits).thn.body;
    var rest := body[1..];
    assert rest[0] == body[1] && rest[1..] == [];
    AssignDecls(body[0]);
    AssignDecls(body[1].thn);
    assert Decls(body[1]) == {};
    DeclsCons(rest);
    DeclsCons(body);
  }

  lemma AssignDecls(s: Stmt)
    requires s.Assign?
    ensures Decls(s) == {}
  {
  }

  lemma DeclsCons(ss: seq<Stmt>)
    requires ss != []
    ensures DeclsAll(ss) == Decls(ss[0]) + DeclsAll(ss[1..]) && Decls(Block(ss)) == DeclsAll(ss)
  {
  }

  lemma RenderCons(cfg: Cfg, ss: seq<Stmt>, env: Env, n: nat, o: Out, rest: Out)
    requires ss != [] && RenderStmt(cfg, ss[0], env, n) == Success(o) && RenderAll(cfg, ss[1..], o.env, o.n) == Success(rest)
    ensures RenderArm(cfg, Block(ss), env, n) == Success(Out(o.code + rest.code, rest.env, rest.n))
  {
  }

  lemma StalePre()
    ensures AllocPre([Loc0(0), Loc0(1)], None, 1) == PreOut([PreVal(Key0(0), 1, Read(Var(0))), PreVal(Key0(1), 2, Read(Var(1)))], None, 3)
    ensures PreMap([PreVal(Key0(0), 1, Read(Var(0))), PreVal(Key0(1), 2, Read(Var(1)))]) == PRE_TWO
  {
    var pres := [PreVal(Key0(0), 1, Read(Var(0))), PreVal(Key0(1), 2, Read(Var(1)))];
    assert [Loc0(0), Loc0(1)][1..] == [Loc0(1)];
    Pre0(1, 2);
    Pre0(0, 1);
    assert pres[..1] == [pres[0]];
  }

  lemma StaleMerge()
    ensures MergeAll([Loc0(0), Loc0(1)], 0, PRE_TWO, ENV_BOTH.versions, map[], None, 8, {Key0(1)}) == MergeOut(STALE_MERGES, None, 8, {Key0(0), Key0(1)})
  {
    var keys := {Key0(1)} + {Key0(0)};
    assert [Loc0(0), Loc0(1)][1..] == [Loc0(1)] && [Loc0(1)][1..] == [];
    assert keys + {Key0(1)} == keys == {Key0(0), Key0(1)};
    assert MergeAll([], 0, PRE_TWO, ENV_BOTH.versions, map[], None, 8, keys) == MergeOut([], None, 8, keys);
    assert MergeAll([Loc0(1)], 0, PRE_TWO, ENV_BOTH.versions, map[], None, 8, keys)
        == MergeOut([SetLoc(Var(1), Select(Tmp(0), Tmp(7), Tmp(2)))], None, 8, keys);
  }

  lemma StaleAssembled(thn: Out, lits: Texts)
    requires thn == Out(StaleArmText(lits), ENV_BOTH, 8)
    ensures Assemble(0, Lit(lits.c), [], [PreVal(Key0(0), 1, Read(Var(0))), PreVal(Key0(1), 2, Read(Var(1)))], {Key0(0), Key0(1)}, thn, None, STALE_MERGES)
            == StaleCode(lits)
  {
    var pres, keys := [PreVal(Key0(0), 1, Read(Var(0))), PreVal(Key0(1), 2, Read(Var(1)))], {Key0(0), Key0(1)};
    assert pres[1..] == [pres[1]] && [pres[1]][1..] == [] && PreLets([], keys) == [] && KeyLets([]) == [];
    assert PreLets([pres[1]], keys) == [Let(2, Read(Var(1)))];
    assert PreLets(pres, keys) == [Let(1, Read(Var(0))), Let(2, Read(Var(1)))];
    assert ENV_BOTH.decls == [3, 7] && [3, 7][1..] == [7] && [7][1..] == [] && Declares([]) == [];
    assert Declares([7]) == [Declare(7)] && Declares([3, 7]) == [Declare(3), Declare(7)];
  }

  lemma StaleLowered(safe: string -> bool, lits: Texts)
    ensures Decls(Stale(lits)) == {}
    ensures LowerTopIf(safe, Stale(lits), 0) == Success(FrameOut([Scope(StaleCode(lits))], None, 8))
  {
    var s := Stale(lits);
    StaleDecls(lits);
    assert ENV_BOTH.used == {Key0(1)};
    var cfg := Cfg(Decls(s), safe);
    StaleScan(cfg, lits);
    StalePre();
    StaleArm(cfg, lits);
    StaleMerge();
    var thn := Out(StaleArmText(lits), ENV_BOTH, 8);
    GeneralFrom(cfg, s, None, 0, Rendered(Lit(lits.c), {}), Scan([Loc0(0), Loc0(1)], Keys([], 1)),
                AllocPre([Loc0(0), Loc0(1)], None, 1), ENV_TWO, thn, None, MergeOut(STALE_MERGES, None, 8, {Key0(0), Key0(1)}));
    StaleAssembled(thn, lits);
  }

  lemma VarRead(m: Meaning, v: VarId, c: Cells, t: map<nat, int>)
    ensures Defined(Read(Var(v)), t) && ValueOf(m, Read(Var(v)), c, t) == Load(c, m.place(v))
  {
    assert DefinedPath(Var(v), t);
    assert CellOf(m, Var(v), c, t) == m.place(v);
  }

  /** What the nested frame selects for `y`. */
  function Picked(m: Meaning, lits: Texts, taken: int, kept: int): int {
    if m.lit(lits.d) != 0 then taken else kept
  }

  lemma StaleInnerRun(m: Meaning, s0: State, lits: Texts)
    requires StateOk(s0) && 2 in s0.temps && 7 in s0.declared && 7 !in s0.temps
    requires 4 !in s0.declared && 5 !in s0.declared && 6 !in s0.declared
    ensures Step1(m, Scope(StaleInnerText(lits)), s0)
            == Some(s0.(temps := s0.temps[7 := Picked(m, lits, Load(s0.cells, m.place(0)), s0.temps[2])]))
  {
    var s5 := StaleInnerSteps(m, s0, lits);
    assert Visible(s5.temps, s0.declared) == s0.temps[7 := Picked(m, lits, Load(s0.cells, m.place(0)), s0.temps[2])];
  }

  lemma StaleInnerSteps(m: Meaning, s0: State, lits: Texts) returns (s5: State)
    requires StateOk(s0) && 2 in s0.temps && 7 in s0.declared && 7 !in s0.temps
    requires 4 !in s0.declared && 5 !in s0.declared && 6 !in s0.declared
    ensures Run(m, StaleInnerText(lits), s0) == Some(s5) && s5.cells == s0.cells
    ensures s5.temps == s0.temps[4 := m.lit(lits.d)][5 := s0.temps[2]][6 := Load(s0.cells, m.place(0))]
                        [7 := Picked(m, lits, Load(s0.cells, m.place(0)), s0.temps[2])]
  {
    var w := Load(s0.cells, m.place(0));
    var s1 := LetIn(s0, 4, m.lit(lits.d));
    var s2 := LetIn(s1, 5, s0.temps[2]);
    var s3 := s2.(declared := s2.declared + {6});
    VarRead(m, 0, s3.cells, s3.temps);
    RunScoped(m, 6, Read(Var(0)), s3);
    var s4 := s3.(temps := s3.temps[6 := w]);
    SelectTemps(m, 4, 6, 5, s4.cells, s4.temps);
    s5 := s4.(temps := s4.temps[7 := Picked(m, lits, w, s0.temps[2])]);
    RunChain(m, StaleInnerText(lits), [s0, s1, s2, s3, s4, s5]);
  }

  lemma StaleArmRun(m: Meaning, s0: State, lits: Texts)
    requires StateOk(s0) && s0.declared == {0} + {1} + {2} + {3} + {7} && s0.temps.Keys == {0, 1, 2}
    ensures Step1(m, Scope(StaleArmText(lits)), s0)
            == Some(s0.(temps := s0.temps[3 := m.lit(lits.e)][7 := Picked(m, lits, Load(s0.cells, m.place(0)), s0.temps[2])]))
  {
    var s1 := s0.(temps := s0.temps[3 := m.lit(lits.e)]);
    StaleInnerRun(m, s1, lits);
    var s2 := s1.(temps := s1.temps[7 := Picked(m, lits, Load(s0.cells, m.place(0)), s0.temps[2])]);
    RunChain(m, StaleArmText(lits), [s0, s1, s2]);
    ScopeStep(m, StaleArmText(lits), s0, s2);
  }

  lemma StaleLets(m: Meaning, lits: Texts, c: Cells) returns (s5: State)
    ensures Run(m, StaleCode(lits)[..5], State(c, map[], {})) == Some(s5) && StateOk(s5) && s5.cells == c
    ensures s5.declared == {0} + {1} + {2} + {3} + {7}
    ensures s5.temps == map[0 := m.lit(lits.c), 1 := Load(c, m.place(0)), 2 := Load(c, m.place(1))]
  {
    var s0 := State(c, map[], {});
    var s1 := LetIn(s0, 0, m.lit(lits.c));
    VarLet(m, 1, 0, s1);
    var s2 := LetIn(s1, 1, Load(c, m.place(0)));
    VarLet(m, 2, 1, s2);
    var s3 := LetIn(s2, 2, Load(c, m.place(1)));
    var s4 := s3.(declared := s3.declared + {3});
    s5 := s4.(declared := s4.declared + {7});
    RunChain(m, StaleCode(lits)[..5], [s0, s1, s2, s3, s4, s5]);
  }

  /** What the emitted code leaves in `x` and `y`. */
  function StaleX(m: Meaning, lits: Texts, c: Cells): int {
    if m.lit(lits.c) != 0 then m.lit(lits.e) else Load(c, m.place(0))
  }

  function StaleY(m: Meaning, lits: Texts, c: Cells): int {
    if m.lit(lits.c) != 0 then Picked(m, lits, Load(c, m.place(0)), Load(c, m.place(1))) else Load(c, m.place(1))
  }

  lemma StaleRun(m: Meaning, c: Cells, lits: Texts)
    ensures var r := Run(m, StaleCode(lits), State(c, map[], {}));
            r.Some? && r.value.cells == c[m.place(0) := StaleX(m, lits, c)][m.place(1) := StaleY(m, lits, c)]
  {
    var code, s0 := StaleCode(lits), State(c, map[], {});
    var s5 := StaleLets(m, lits, c);
    StaleArmRun(m, s5, lits);
    var s6 := s5.(temps := s5.temps[3 := m.lit(lits.e)][7 := Picked(m, lits, Load(c, m.place(0)), s5.temps[2])]);
    StaleMergesRun(m, s6);
    RunOne(m, Scope(StaleArmText(lits)), s5);
    RunAppend(m, [Scope(StaleArmText(lits))], STALE_MERGES, s5);
    RunAppend(m, code[..5], [Scope(StaleArmText(lits))] + STALE_MERGES, s0);
    assert code == code[..5] + ([Scope(StaleArmText(lits))] + STALE_MERGES);
  }

  lemma StaleMergesRun(m: Meaning, s: State)
    requires forall t | t in {0, 1, 2, 3, 7} :: t in s.temps
    ensures Run(m, STALE_MERGES, s)
            == Some(s.(cells := s.cells[m.place(0) := if s.temps[0] != 0 then s.temps[3] else s.temps[1]]
                                       [m.place(1) := if s.temps[0] != 0 then s.temps[7] else s.temps[2]]))
  {
    SelectInto(m, Var(0), 0, 3, 1, s);
    var s1 := s.(cells := s.cells[m.place(0) := if s.temps[0] != 0 then s.temps[3] else s.temps[1]]);
    SelectInto(m, Var(1), 0, 7, 2, s1);
    RunChain(m, STALE_MERGES, [s, s1, s1.(cells := s1.cells[m.place(1) := if s.temps[0] != 0 then s.temps[7] else s.temps[2]])]);
  }

  lemma StaleExec(m: Meaning, lits: Texts, c: Cells)
    ensures var c1 := c[m.place(0) := m.lit(lits.e)];
            Exec(m, Stale(lits), c)
            == if m.lit(lits.c) == 0 then c else if m.lit(lits.d) != 0 then c1[m.place(1) := m.lit(lits.e)] else c1
  {
    var body := Stale(lits).thn.body;
    var rest := body[1..];
    assert rest[0] == body[1] && rest[1..] == [];
    var c1 := c[m.place(0) := m.lit(lits.e)];
    assert CellOf(m, Var(0), c, map[]) == m.place(0);
    assert Exec(m, body[0], c) == c1;
    VarRead(m, 0, c1, map[]);
    assert CellOf(m, Var(1), c1, map[]) == m.place(1);
    assert Exec(m, body[1].thn, c1) == c1[m.place(1) := m.lit(lits.e)];
    assert Exec(m, body[1], c1) == if m.lit(lits.d) != 0 then c1[m.place(1) := m.lit(lits.e)] else c1;
    assert ExecAll(m, rest, c1) == Exec(m, body[1], c1);
    assert ExecAll(m, body, c) == Exec(m, body[1], c1);
  }

  /** A nested arm reads the cell of a location whose new value is still in a version. */
  lemma NestedStaleRead(safe: string -> bool, m: Meaning, lits: Texts, c: Cells)
    requires RootsDisjoint(m, {0, 1})
    ensures LowerTopIf(safe, Stale(lits), 0).Success?
    ensures Keeps(m, Stale(lits), LowerTopIf(safe, Stale(lits), 0).value.code, c)
            <==> m.lit(lits.c) == 0 || m.lit(lits.d) == 0 || Load(c, m.place(0)) == m.lit(lits.e)
  {
    StaleLowered(safe, lits);
    StaleRun(m, c, lits);
    StaleExec(m, lits, c);
    ScopedKeeps(m, Stale(lits), StaleCode(lits), c);
    NoLocals(m, Stale(lits), m.place(1));
    assert m.place(0) != m.place(1);
  }
}
