/**
 The hypotheses about storage are needed: two spellings of one key, and two
 storage pointers to one place, are kept apart by the pass and lose a write.
 */
module BranchCounterexamples {
  import opened Wrappers
  import opened BranchAst
  import opened BranchLowering
  import opened BranchAdmission
  import opened BranchTheorem
  import opened BranchStep
  import opened BranchSimple
  import opened BranchFrame
  import opened BranchArms

  function Entry(text: string): Path { Index(Var(0), Lit(text)) }
  /** `if (1) p = 5; else q = 7;` */
  function Either(p: Path, q: Path): Stmt {
    If(Lit("1"), Assign(p, Some(Ebool), Lit("5")), Some(Assign(q, Some(Ebool), Lit("7"))))
  }
  function EitherCode(p: Path, q: Path): seq<TStmt> {
    [Let(0, Lit("1")), Let(1, Read(p)), Let(2, Read(q)),
     Declare(3), Scope([SetTmp(3, Lit("5"))]), Declare(4), Scope([SetTmp(4, Lit("7"))]),
     SetLoc(p, Select(Tmp(0), Tmp(3), Tmp(1))), SetLoc(q, Select(Tmp(0), Tmp(2), Tmp(4)))]
  }
  ghost predicate Unaliased(p: Path, q: Path) {
    && LiteralKeys(p) && LiteralKeys(q)
    && KeyOf(p, []) != KeyOf(q, []) && !MayAlias(KeyOf(p, []), KeyOf(q, []))
  }
  function LocOf(p: Path): Loc { Loc(KeyOf(p, []), p, Ebool) }
  function PreOf(p: Path, q: Path): map<LocKey, nat> { map[KeyOf(p, []) := 1, KeyOf(q, []) := 2] }
  function EnvOf(p: Path, q: Path): Env { Env([LocOf(p), LocOf(q)], [], PreOf(p, q), PreOf(p, q), [], {}) }

  lemma ScanOne(cfg: Cfg, p: Path, sc: Scan)
    requires RootOf(p) !in cfg.locals && HoistKeys(p, sc.keys) == Success(sc.keys) && Display(p, sc.keys.rows) == p
    requires !HasKey(sc.writes, KeyOf(p, sc.keys.rows)) && !MayAliasAny(sc.writes, KeyOf(p, sc.keys.rows))
    ensures RecordWrite(cfg, p, Some(Ebool), sc) == Success(Scan(sc.writes + [Loc(KeyOf(p, sc.keys.rows), p, Ebool)], sc.keys))
  {
  }

  lemma {:induction false} LiteralShape(p: Path, ks: Keys)
    requires LiteralKeys(p)
    ensures HoistKeys(p, ks) == Success(ks) && Display(p, []) == p
    decreases p
  {
    if !p.Var? { LiteralShape(p.base, ks); }
  }

  lemma EitherScan(cfg: Cfg, p: Path, q: Path)
    requires Unaliased(p, q) && cfg.locals == {}
    ensures ScanFrame(cfg, Either(p, q), 1) == Success(Scan([LocOf(p), LocOf(q)], Keys([], 1)))
  {
    var l1, l2 := LocOf(p), LocOf(q);
    var sc0 := Scan([], Keys([], 1));
    assert [] + [l1] == [l1] && [l1] + [l2] == [l1, l2];
    assert [l1][1..] == [];
    LiteralShape(p, Keys([], 1));
    LiteralShape(q, Keys([], 1));
    ScanOne(cfg, p, sc0);
    assert HasKey([l1], l2.key) == HasKey([], l2.key);
    assert MayAliasAny([l1], l2.key) == MayAliasAny([], l2.key);
    ScanOne(cfg, q, Scan([l1], Keys([], 1)));
  }

  lemma EitherPre(p: Path, q: Path)
    requires Unaliased(p, q)
    ensures AllocPre([LocOf(p), LocOf(q)], None, 1) == PreOut([PreVal(KeyOf(p, []), 1, Read(p)), PreVal(KeyOf(q, []), 2, Read(q))], None, 3)
    ensures PreMap([PreVal(KeyOf(p, []), 1, Read(p)), PreVal(KeyOf(q, []), 2, Read(q))]) == PreOf(p, q)
  {
    var l1, l2 := LocOf(p), LocOf(q);
    var pres := [PreVal(l1.key, 1, Read(p)), PreVal(l2.key, 2, Read(q))];
    assert [l1, l2][1..] == [l2];
    assert AllocPre([l2], None, 2) == PreOut([pres[1]], None, 3);
    assert pres[..1] == [pres[0]] && pres[..1][..0] == [];
    assert PreMap(pres[..1]) == map[l1.key := 1];
  }

  lemma EitherArms(cfg: Cfg, p: Path, q: Path)
    requires Unaliased(p, q) && cfg.locals == {}
    ensures var s, env := Either(p, q), EnvOf(p, q);
      && RenderArm(cfg, s.thn, env, 3) == Success(Out([SetTmp(3, Lit("5"))], env.Bind(KeyOf(p, []), 3), 4))
      && RenderArm(cfg, s.els.value, env, 4) == Success(Out([SetTmp(4, Lit("7"))], env.Bind(KeyOf(q, []), 4), 5))
  {
    var l1, l2, env := LocOf(p), LocOf(q), EnvOf(p, q);
    assert env.Use({}) == env;
    assert [l1, l2][1..] == [l2];
    assert HasKey([l2], l2.key);
    assert HasKey([l1, l2], l1.key) && HasKey([l1, l2], l2.key);
  }

  lemma EitherMerges(p: Path, q: Path)
    requires Unaliased(p, q)
    ensures MergeAll([LocOf(p), LocOf(q)], 0, PreOf(p, q), PreOf(p, q)[KeyOf(p, []) := 3], PreOf(p, q)[KeyOf(q, []) := 4], None, 5, {})
      == MergeOut([SetLoc(p, Select(Tmp(0), Tmp(3), Tmp(1))), SetLoc(q, Select(Tmp(0), Tmp(2), Tmp(4)))], None, 5, {KeyOf(p, []), KeyOf(q, [])})
  {
    var l1, l2 := LocOf(p), LocOf(q);
    var pre, thn, els := PreOf(p, q), PreOf(p, q)[KeyOf(p, []) := 3], PreOf(p, q)[KeyOf(q, []) := 4];
    assert [l1, l2][1..] == [l2] && [l2][1..] == [];
    assert MergeAll([], 0, pre, thn, els, None, 5, {l1.key} + {l2.key}) == MergeOut([], None, 5, {l1.key} + {l2.key});
    assert {} + {l1.key} == {l1.key};
    assert MergeAll([l2], 0, pre, thn, els, None, 5, {l1.key}) == MergeOut([SetLoc(q, Select(Tmp(0), Tmp(2), Tmp(4)))], None, 5, {l1.key} + {l2.key});
    assert {l1.key} + {l2.key} == {l1.key, l2.key};
  }

  /** The general form, put together from its parts. */
  lemma GeneralFrom(cfg: Cfg, s: Stmt, outer: Option<Env>, n: nat, cond: Rendered, sc: Scan, pre: PreOut, env: Env, thn: Out, els: Option<Out>, mg: MergeOut)
    requires s.If? && RenderIn(cfg, s.cond, outer) == Success(cond) && ScanFrame(cfg, s, n + 1) == Success(sc)
    requires pre == AllocPre(sc.writes, UseIn(outer, cond.used), sc.keys.n)
    requires env == Env(sc.writes, sc.keys.rows, PreMap(pre.pres), PreMap(pre.pres), [], {})
    requires RenderArm(cfg, s.thn, env, pre.n) == Success(thn)
    requires s.els.Some? <==> els.Some?
    requires els.Some? ==> RenderArm(cfg, s.els.value, env.Use(thn.env.used), thn.n) == Success(els.value)
    requires (forall l | l in sc.writes :: l.key in env.pre)
    requires var last := if els.Some? then els.value else thn;
             mg == MergeAll(sc.writes, n, env.pre, thn.env.versions, if els.Some? then els.value.env.versions else map[], pre.outer, last.n, last.env.used)
    ensures RenderGeneral(cfg, s, outer, n)
            == Success(FrameOut([Scope(Assemble(n, cond.e, sc.keys.rows, pre.pres, mg.used, thn, els, mg.code))], mg.outer, mg.n))
  {
  }

  lemma TwoPreLets(a: PreVal, z: PreVal, used: set<LocKey>)
    requires a.key in used && z.key in used
    ensures PreLets([a, z], used) == [Let(a.tmp, a.init), Let(z.tmp, z.init)]
  {
    assert [a, z][1..] == [z] && [z][1..] == [] && PreLets([], used) == [];
    assert PreLets([z], used) == [Let(z.tmp, z.init)];
  }

  lemma OneDeclare(t: nat)
    ensures Declares([] + [t]) == [Declare(t)]
  {
    assert [] + [t] == [t] && [t][1..] == [] && Declares([]) == [];
  }

  lemma EitherAssembled(p: Path, q: Path)
    ensures var env := EnvOf(p, q);
    Assemble(0, Lit("1"), [], [PreVal(KeyOf(p, []), 1, Read(p)), PreVal(KeyOf(q, []), 2, Read(q))], {KeyOf(p, []), KeyOf(q, [])},
      Out([SetTmp(3, Lit("5"))], env.Bind(KeyOf(p, []), 3), 4), Some(Out([SetTmp(4, Lit("7"))], env.Bind(KeyOf(q, []), 4), 5)),
      [SetLoc(p, Select(Tmp(0), Tmp(3), Tmp(1))), SetLoc(q, Select(Tmp(0), Tmp(2), Tmp(4)))]) == EitherCode(p, q)
  {
    TwoPreLets(PreVal(KeyOf(p, []), 1, Read(p)), PreVal(KeyOf(q, []), 2, Read(q)), {KeyOf(p, []), KeyOf(q, [])});
    OneDeclare(3);
    OneDeclare(4);
    assert KeyLets([]) == [];
  }

  lemma EitherGeneral(cfg: Cfg, p: Path, q: Path)
    requires Unaliased(p, q) && cfg.locals == {}
    ensures RenderGeneral(cfg, Either(p, q), None, 0) == Success(FrameOut([Scope(EitherCode(p, q))], None, 5))
  {
    var s, env := Either(p, q), EnvOf(p, q);
    EitherScan(cfg, p, q);
    EitherPre(p, q);
    EitherArms(cfg, p, q);
    EitherMerges(p, q);
    EitherAssembled(p, q);
    assert env.Use({}) == env;
    var sc, pre := Scan([LocOf(p), LocOf(q)], Keys([], 1)), AllocPre([LocOf(p), LocOf(q)], None, 1);
    GeneralFrom(cfg, s, None, 0, Rendered(s.cond, {}), sc, pre, env,
                Out([SetTmp(3, Lit("5"))], env.Bind(KeyOf(p, []), 3), 4), Some(Out([SetTmp(4, Lit("7"))], env.Bind(KeyOf(q, []), 4), 5)),
                MergeOut([SetLoc(p, Select(Tmp(0), Tmp(3), Tmp(1))), SetLoc(q, Select(Tmp(0), Tmp(2), Tmp(4)))], None, 5, {KeyOf(p, []), KeyOf(q, [])}));
  }

  lemma EitherDecls(p: Path, q: Path)
    ensures Decls(Either(p, q)) == {}
  {
    var s := Either(p, q);
    assert Decls(s.thn) == {} && Decls(s.els.value) == {};
  }

  lemma EitherLowered(safe: string -> bool, p: Path, q: Path)
    requires Unaliased(p, q)
    ensures LowerTopIf(safe, Either(p, q), 0) == Success(FrameOut([Scope(EitherCode(p, q))], None, 5))
  {
    EitherDecls(p, q);
    var cfg := Cfg({}, safe);
    EitherGeneral(cfg, p, q);
    assert DirectShape(cfg, Either(p, q)) == Success(None);
    assert TryDirect(cfg, Either(p, q), None, 0) == Success(None);
  }

  lemma {:induction false} LiteralCell(m: Meaning, p: Path, c: Cells, t: map<nat, int>)
    requires LiteralKeys(p)
    ensures CellOf(m, p, c, t) == CellOf(m, p, map[], map[]) && DefinedPath(p, t)
    decreases p
  {
    if !p.Var? { LiteralCell(m, p.base, c, t); }
  }

  /** Code runs through a chain of states. */
  lemma {:induction false} RunChain(m: Meaning, code: seq<TStmt>, states: seq<State>)
    requires |states| == |code| + 1
    requires forall i | 0 <= i < |code| :: Step1(m, code[i], states[i]) == Some(states[i + 1])
    ensures Run(m, code, states[0]) == Some(states[|code|])
    decreases code
  {
    if code != [] {
      assert Step1(m, code[0], states[0]) == Some(states[1]);
      forall i | 0 <= i < |code[1..]|
        ensures Step1(m, code[1..][i], states[1..][i]) == Some(states[1..][i + 1])
      {
        assert Step1(m, code[i + 1], states[i + 1]) == Some(states[i + 2]);
      }
      RunChain(m, code[1..], states[1..]);
    }
  }

  lemma RunScoped(m: Meaning, t: nat, e: Expr, s: State)
    requires StateOk(s) && t in s.declared && t !in s.temps && Defined(e, s.temps)
    ensures Step1(m, Scope([SetTmp(t, e)]), s) == Some(s.(temps := s.temps[t := ValueOf(m, e, s.cells, s.temps)]))
  {
    var s1 := s.(temps := s.temps[t := ValueOf(m, e, s.cells, s.temps)]);
    RunOne(m, SetTmp(t, e), s);
    ScopeStep(m, [SetTmp(t, e)], s, s1);
  }

  function LetIn(s: State, t: nat, v: int): State {
    s.(temps := s.temps[t := v], declared := s.declared + {t})
  }

  lemma LetLocation(m: Meaning, t: nat, p: Path, s: State)
    requires LiteralKeys(p) && t !in s.declared && t !in s.temps
    ensures Step1(m, Let(t, Read(p)), s) == Some(LetIn(s, t, Load(s.cells, CellOf(m, p, map[], map[]))))
  {
    LiteralCell(m, p, s.cells, s.temps);
    assert Defined(Read(p), s.temps);
  }

  lemma EitherLetsRun(m: Meaning, p: Path, q: Path, s0: State) returns (s3: State)
    requires LiteralKeys(p) && LiteralKeys(q) && s0.declared == {} && s0.temps == map[]
    ensures Run(m, EitherCode(p, q)[..3], s0) == Some(s3) && StateOk(s3) && s3.cells == s0.cells && s3.temps.Keys == {0, 1, 2}
    ensures s3.temps[0] == m.lit("1") && 3 !in s3.declared && 4 !in s3.declared
    ensures s3.temps[1] == Load(s0.cells, CellOf(m, p, map[], map[])) && s3.temps[2] == Load(s0.cells, CellOf(m, q, map[], map[]))
  {
    var s1 := LetIn(s0, 0, m.lit("1"));
    LetLocation(m, 1, p, s1);
    var s2 := LetIn(s1, 1, Load(s0.cells, CellOf(m, p, map[], map[])));
    LetLocation(m, 2, q, s2);
    s3 := LetIn(s2, 2, Load(s0.cells, CellOf(m, q, map[], map[])));
    RunChain(m, EitherCode(p, q)[..3], [s0, s1, s2, s3]);
  }

  lemma EitherArmsRun(m: Meaning, p: Path, q: Path, s0: State) returns (s7: State)
    requires LiteralKeys(p) && LiteralKeys(q) && s0.declared == {} && s0.temps == map[]
    ensures Run(m, EitherCode(p, q)[..7], s0) == Some(s7) && s7.cells == s0.cells && s7.temps.Keys == {0, 1, 2, 3, 4}
    ensures s7.temps[0] == m.lit("1") && s7.temps[3] == m.lit("5")
    ensures s7.temps[1] == Load(s0.cells, CellOf(m, p, map[], map[])) && s7.temps[2] == Load(s0.cells, CellOf(m, q, map[], map[]))
  {
    var code := EitherCode(p, q);
    var s3 := EitherLetsRun(m, p, q, s0);
    var s4 := s3.(declared := s3.declared + {3});
    var s5 := s4.(temps := s4.temps[3 := m.lit("5")]);
    RunScoped(m, 3, Lit("5"), s4);
    var s6 := s5.(declared := s5.declared + {4});
    s7 := s6.(temps := s6.temps[4 := m.lit("7")]);
    RunScoped(m, 4, Lit("7"), s6);
    RunChain(m, code[3..7], [s3, s4, s5, s6, s7]);
    assert code[..3] + code[3..7] == code[..7];
    RunAppend(m, code[..3], code[3..7], s0);
  }

  lemma SelectInto(m: Meaning, p: Path, a: nat, b: nat, c: nat, s: State)
    requires LiteralKeys(p) && a in s.temps && b in s.temps && c in s.temps
    ensures Step1(m, SetLoc(p, Select(Tmp(a), Tmp(b), Tmp(c))), s)
            == Some(s.(cells := s.cells[CellOf(m, p, map[], map[]) := if s.temps[a] != 0 then s.temps[b] else s.temps[c]]))
  {
    LiteralCell(m, p, s.cells, s.temps);
    SelectTemps(m, a, b, c, s.cells, s.temps);
  }

  lemma EitherRun(m: Meaning, p: Path, q: Path, c: Cells)
    requires LiteralKeys(p) && LiteralKeys(q) && m.lit("1") != 0
    ensures var x, y := CellOf(m, p, map[], map[]), CellOf(m, q, map[], map[]);
            var r := Run(m, EitherCode(p, q), State(c, map[], {}));
            r.Some? && r.value.cells == c[x := m.lit("5")][y := Load(c, y)]
  {
    var x, y, code := CellOf(m, p, map[], map[]), CellOf(m, q, map[], map[]), EitherCode(p, q);
    var s7 := EitherArmsRun(m, p, q, State(c, map[], {}));
    var s8 := s7.(cells := c[x := m.lit("5")]);
    SelectInto(m, p, 0, 3, 1, s7);
    SelectInto(m, q, 0, 2, 4, s8);
    RunChain(m, code[7..], [s7, s8, s8.(cells := s8.cells[y := Load(c, y)])]);
    assert code[..7] + code[7..] == code;
    RunAppend(m, code[..7], code[7..], State(c, map[], {}));
  }

  lemma EitherCodeExact(m: Meaning, p: Path, q: Path)
    requires LiteralKeys(p) && LiteralKeys(q) && m.lit("1") != 0
    ensures (forall c: Cells :: Keeps(m, Either(p, q), EitherCode(p, q), c)) <==> CellOf(m, p, map[], map[]) != CellOf(m, q, map[], map[])
  {
    var x, y := CellOf(m, p, map[], map[]), CellOf(m, q, map[], map[]);
    var s := Either(p, q);
    EitherDecls(p, q);
    forall c: Cells
      ensures Exec(m, s, c) == c[x := m.lit("5")]
      ensures var r := Run(m, EitherCode(p, q), State(c, map[], {}));
              r.Some? && r.value.cells == c[x := m.lit("5")][y := Load(c, y)]
    {
      LiteralCell(m, p, c, map[]);
      EitherRun(m, p, q, c);
    }
    if x == y {
      var c: Cells := map[x := m.lit("5") + 1];
      assert Load(Exec(m, s, c), x) == m.lit("5");
      assert !Under(m, Decls(s), x);
      assert !Keeps(m, s, EitherCode(p, q), c);
    } else {
      forall c: Cells
        ensures Keeps(m, s, EitherCode(p, q), c)
      {
      }
    }
  }

  /** From this store, with no temporaries, the code runs and ends as the source statement does. */
  ghost predicate Keeps(m: Meaning, s: Stmt, code: seq<TStmt>, c: Cells) {
    var r := Run(m, code, State(c, map[], {}));
    r.Some? && Agree(m, s, Exec(m, s, c), r.value.cells)
  }

  lemma EitherAdmissible(safe: string -> bool, p: Path, q: Path, roots: set<VarId>, texts: set<string>)
    requires LiteralKeys(p) && LiteralKeys(q) && p != q
    requires InUniverse(p, TopCtx(Cfg({}, safe), Either(p, q), roots, texts)) && InUniverse(q, TopCtx(Cfg({}, safe), Either(p, q), roots, texts))
    ensures Admissible(safe, Either(p, q), roots, texts)
  {
    var s := Either(p, q);
    EitherDecls(p, q);
    var cfg := Cfg(Decls(s), safe);
    var ctx := TopCtx(cfg, s, roots, texts);
    assert WritePaths(cfg, s.thn) == {p} && WritePaths(cfg, s.els.value) == {q};
    assert ctx.writes == {p, q};
    LiteralKeysOk(p, StableCtx(cfg, ctx), true);
    LiteralKeysOk(q, StableCtx(cfg, ctx), true);
    assert DirectShape(cfg, s) == Success(None);
  }

  /** The frame's own scope changes no cell. */
  lemma ScopedKeeps(m: Meaning, s: Stmt, code: seq<TStmt>, c: Cells)
    ensures Keeps(m, s, [Scope(code)], c) == Keeps(m, s, code, c)
  {
    RunOne(m, Scope(code), State(c, map[], {}));
  }

  /**
   Two locations the pass keeps apart by their spelling: the emitted block keeps
   the meaning from every store exactly when they denote different cells.
   */
  lemma EitherExact(safe: string -> bool, m: Meaning, p: Path, q: Path)
    requires Unaliased(p, q) && m.lit("1") != 0
    ensures LowerTopIf(safe, Either(p, q), 0).Success?
    ensures (forall c: Cells :: Keeps(m, Either(p, q), LowerTopIf(safe, Either(p, q), 0).value.code, c))
            <==> CellOf(m, p, map[], map[]) != CellOf(m, q, map[], map[])
  {
    EitherLowered(safe, p, q);
    EitherCodeExact(m, p, q);
    forall c: Cells
      ensures Keeps(m, Either(p, q), LowerTopIf(safe, Either(p, q), 0).value.code, c) == Keeps(m, Either(p, q), EitherCode(p, q), c)
    {
      ScopedKeeps(m, Either(p, q), EitherCode(p, q), c);
    }
  }

  /** A literal key spelled two ways: everything else is as the theorem asks. */
  lemma TwoSpellings(safe: string -> bool, m: Meaning)
    requires m.lit("1") == m.lit("0x1") != 0
    ensures var s := Either(Entry("1"), Entry("0x1"));
            && Admissible(safe, s, {0}, {"1", "0x1"}) && RootsDisjoint(m, {0}) && !KeysCanonical(m, {"1", "0x1"})
            && LowerTopIf(safe, s, 0).Success?
            && exists c: Cells :: !Keeps(m, s, LowerTopIf(safe, s, 0).value.code, c)
  {
    var p, q := Entry("1"), Entry("0x1");
    EitherAdmissible(safe, p, q, {0}, {"1", "0x1"});
    assert SegRel(KeyOf(p, []).segs[0], KeyOf(q, []).segs[0]) == Distinct;
    EitherExact(safe, m, p, q);
  }

  /** Two storage pointers to one place: everything else is as the theorem asks. */
  lemma TwoPointers(safe: string -> bool, m: Meaning)
    requires m.lit("1") != 0 && m.place(0) == m.place(1)
    ensures var s := Either(Var(0), Var(1));
            && Admissible(safe, s, {0, 1}, {}) && !RootsDisjoint(m, {0, 1}) && KeysCanonical(m, {})
            && LowerTopIf(safe, s, 0).Success?
            && exists c: Cells :: !Keeps(m, s, LowerTopIf(safe, s, 0).value.code, c)
  {
    EitherAdmissible(safe, Var(0), Var(1), {0, 1}, {});
    EitherExact(safe, m, Var(0), Var(1));
  }
}
