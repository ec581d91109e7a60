/**
 Where the single pass reports nothing and a default handle still gets out.  Each
 gap is a family of programs with two conditions: when the walk passes, and when
 every run is clean.
 */
module DefiniteGaps {
  import opened Wrappers
  import opened DefiniteAssignment
  import opened DefiniteFrames
  import opened DefiniteBranches
  import opened DefiniteRuns
  import opened DefiniteSound

  /** The checker outside encrypted branches, with nothing reported so far. */
  ghost predicate Ready(ck: Ck) {
    !InBranch(ck) && !ck.terminated && ck.diags == {}
  }

  /** No run that starts with at least the assigned slots initialised goes wrong. */
  ghost predicate CleanFrom(f: Fn, s: Stmt, ck: Ck) {
    forall i, o, k :: ck.sure <= i && Runs(f, s, ck.branchDepth, i, o, k) ==> o != Bad
  }

  function CopyOf(x: Slot): Expr {
    Expr({x}, {})
  }

  lemma FlagNothing(xs: Slots, ck: Ck)
    requires xs <= ck.sure
    ensures Flag(xs, ck) == ck
  {
    assert (set x | x in xs - ck.sure :: Uninit(x)) == {};
    assert ck.diags + {} == ck.diags;
  }

  /** An expression passes exactly when what it checks is assigned. */
  lemma Passing(f: Fn, e: Expr, ck: Ck)
    requires Ready(ck)
    ensures TypeExpr(f, e, ck).diags == {} <==> e.uses <= ck.sure
    ensures e.uses <= ck.sure ==> TypeExpr(f, e, ck) == ck
  {
    TypeFrame(f, e, ck);
    if e.uses <= ck.sure { FlagNothing(e.uses, ck); }
  }

  lemma {:induction false} PassingAll(f: Fn, es: seq<Expr>, ck: Ck)
    requires Ready(ck)
    ensures TypeAll(f, es, ck).diags == {} <==> UnionUses(es) <= ck.sure
    ensures UnionUses(es) <= ck.sure ==> TypeAll(f, es, ck) == ck
    decreases es
  {
    TypeAllFrame(f, es, ck);
    if es != [] && UnionUses(es) <= ck.sure {
      Passing(f, es[0], ck);
      PassingAll(f, es[1..], ck);
    }
  }

  lemma TwoSteps(f: Fn, a: Stmt, b: Stmt, ck: Ck)
    requires !ck.terminated
    ensures WalkBlock(f, [a, b], ck) == (var c := Walk(f, a, ck); if c.terminated then c else Walk(f, b, c))
  {
    var c := Walk(f, a, ck);
    assert [a, b][1..] == [b] && [b][1..] == [];
    assert WalkBlock(f, [b], c) == if c.terminated then c else WalkBlock(f, [], Walk(f, b, c));
  }

  lemma TwoRuns(f: Fn, a: Stmt, b: Stmt, d: nat, i: Slots, o: Outcome, k: nat)
    ensures RunsBlock(f, [a, b], d, i, o, k)
            <==> exists o1 :: Runs(f, a, d, i, o1, k) && if o1.Fell? then Runs(f, b, d, o1.init, o, k) else o == o1
  {
    assert [a, b][1..] == [b];
    forall j
      ensures RunsBlock(f, [b], d, j, o, k) <==> Runs(f, b, d, j, o, k)
    {
      OneRun(f, b, d, j, o, k);
    }
  }

  lemma OneRun(f: Fn, s: Stmt, d: nat, i: Slots, o: Outcome, k: nat)
    ensures RunsBlock(f, [s], d, i, o, k) <==> Runs(f, s, d, i, o, k)
  {
    assert [s][1..] == [];
    if Runs(f, s, d, i, o, k) && o.Fell? { assert RunsBlock(f, [], d, o.init, o, k); }
  }

  // ---- a copy that lowers a slot inside a loop -----------------------------------------

  /** `while (c) { use(u); x = e; }` */
  function CopyLoop(c: Expr, u: Expr, x: Slot, e: Expr): Stmt {
    While(c, Block([ExprStmt(u), Assign(x, e)]))
  }

  lemma CopyBodyWalk(f: Fn, u: Expr, x: Slot, e: Expr, ck: Ck)
    requires Ready(ck)
    ensures var b := Walk(f, Block([ExprStmt(u), Assign(x, e)]), ck);
            && (b.diags == {} <==> u.uses + e.uses <= ck.sure)
            && (b.diags == {} ==> b == ck.(sure := if e.flows <= ck.sure then ck.sure + {x} else ck.sure - {x}))
  {
    var c := Walk(f, ExprStmt(u), ck);
    TwoSteps(f, ExprStmt(u), Assign(x, e), ck);
    Passing(f, u, ck);
    TypeFrame(f, u, ck);
    WriteFrame(f, Assign(x, e), c);
    if u.uses <= ck.sure {
      Passing(f, e, ck);
      TypeFrame(f, e, ck);
      PutFrame(f, x, !(e.flows <= ck.sure), TypeExpr(f, e, ck));
      assert ck.sure + {x} - {x} == ck.sure - {x};
    }
  }

  lemma CopyLoopPasses(f: Fn, c: Expr, u: Expr, x: Slot, e: Expr, ck: Ck)
    requires Ready(ck)
    ensures Walk(f, CopyLoop(c, u, x, e), ck).diags == {} <==> c.uses + u.uses + e.uses <= ck.sure
  {
    var s := CopyLoop(c, u, x, e);
    var c1 := TypeExpr(f, c, ck);
    Passing(f, c, ck);
    TypeFrame(f, c, ck);
    WhileFrame(f, s, c1);
    assert Reject(ck) == ck;
    if c.uses <= ck.sure { CopyBodyWalk(f, u, x, e, OpenLoop(ck)); }
  }

  /** What is initialised whenever the loop's condition is reached. */
  function Lasting(x: Slot, e: Expr, sure: Slots): Slots {
    if e.flows <= sure then sure else sure - {x}
  }

  lemma {:induction false} CopyLoopTurns(f: Fn, c: Expr, u: Expr, x: Slot, e: Expr, sure: Slots, d: nat, i: Slots, o: Outcome, k: nat)
    requires c.uses + u.uses + e.uses <= Lasting(x, e, sure) <= i
    requires RunsWhile(f, CopyLoop(c, u, x, e), d, i, o, k)
    ensures o != Bad
    decreases k
  {
    var s := CopyLoop(c, u, x, e);
    if o != Fell(i) {
      var o1 :| Runs(f, s.loop, d, i, o1, k) &&
        match o1
        case Fell(j) => k > 0 && RunsWhile(f, s, d, j, o, k - 1)
        case Continued(j) => k > 0 && RunsWhile(f, s, d, j, o, k - 1)
        case Broke(j) => o == Fell(j)
        case _ => o == o1;
      TwoRuns(f, ExprStmt(u), Assign(x, e), d, i, o1, k);
      if o1.Fell? { CopyLoopTurns(f, c, u, x, e, sure, d, o1.init, o, k - 1); }
    }
  }

  lemma CopyTurn(f: Fn, u: Expr, x: Slot, e: Expr, d: nat, i: Slots, k: nat)
    requires u.uses + e.uses <= i && !(e.flows <= i)
    ensures Runs(f, Block([ExprStmt(u), Assign(x, e)]), d, i, Fell(i - {x}), k)
  {
    TwoRuns(f, ExprStmt(u), Assign(x, e), d, i, Fell(i - {x}), k);
    assert Runs(f, ExprStmt(u), d, i, Fell(i), k) && Runs(f, Assign(x, e), d, i, Fell(i - {x}), k);
  }

  /** The second turn meets the default handle the first one copied. */
  lemma CopyLoopFails(f: Fn, c: Expr, u: Expr, x: Slot, e: Expr, d: nat, i: Slots)
    requires c.uses + u.uses + e.uses <= i && !(e.flows <= i) && x in c.uses + u.uses + e.uses
    ensures RunsWhile(f, CopyLoop(c, u, x, e), d, i, Bad, 1)
  {
    var s, j := CopyLoop(c, u, x, e), i - {x};
    CopyTurn(f, u, x, e, d, i, 1);
    if c.uses <= j {
      TwoRuns(f, ExprStmt(u), Assign(x, e), d, j, Bad, 0);
      if u.uses <= j {
        assert Runs(f, ExprStmt(u), d, j, Fell(j), 0) && Runs(f, Assign(x, e), d, j, Bad, 0);
      } else {
        assert Runs(f, ExprStmt(u), d, j, Bad, 0);
      }
      assert Runs(f, s.loop, d, j, Bad, 0);
    }
    assert RunsWhile(f, s, d, j, Bad, 0);
  }

  /**
   A loop that copies over a slot it also checks.  The walk passes when what is
   checked is assigned before the loop; runs are clean exactly when, besides, the
   copied value is, or the slot copied to is not checked.
   */
  lemma LoopCopyExact(f: Fn, c: Expr, u: Expr, x: Slot, e: Expr, ck: Ck)
    requires Ready(ck)
    ensures var s := CopyLoop(c, u, x, e);
            && (Walk(f, s, ck).diags == {} <==> c.uses + u.uses + e.uses <= ck.sure)
            && (Walk(f, s, ck).diags == {} ==> (CleanFrom(f, s, ck) <==> e.flows <= ck.sure || x !in c.uses + u.uses + e.uses))
  {
    var s := CopyLoop(c, u, x, e);
    CopyLoopPasses(f, c, u, x, e, ck);
    if c.uses + u.uses + e.uses <= ck.sure {
      if e.flows <= ck.sure || x !in c.uses + u.uses + e.uses {
        forall i, o, k | ck.sure <= i && Runs(f, s, ck.branchDepth, i, o, k)
          ensures o != Bad
        {
          CopyLoopTurns(f, c, u, x, e, ck.sure, ck.branchDepth, i, o, k);
        }
      } else {
        CopyLoopFails(f, c, u, x, e, ck.branchDepth, ck.sure);
        assert Runs(f, s, ck.branchDepth, ck.sure, Bad, 1);
      }
    }
  }

  // ---- what follows a `continue` -------------------------------------------------------

  /** Statements that always fall through. */
  predicate Straight(ss: seq<Stmt>) {
    ss == [] || ((ss[0].Decl? || ss[0].Assign? || ss[0].Compound? || ss[0].Store? || ss[0].ExprStmt?) && Straight(ss[1..]))
  }

  /** `{ if (p) continue; tail }` */
  function Skipping(p: Expr, tail: seq<Stmt>): Stmt {
    Block([If(p, Continue, None)] + tail)
  }

  /** The checker's state after the jump out of the loop body has been recorded. */
  function Skipped(ck: Ck): Ck {
    ck.(continues := AddState(ck.continues, ck.sure))
  }

  lemma {:induction false} StraightWalk(f: Fn, ss: seq<Stmt>, ck: Ck)
    requires Straight(ss) && !ck.terminated
    ensures var r := WalkBlock(f, ss, ck); !r.terminated && r.continues == ck.continues && Frame(ck, r)
    ensures DisciplinedBlock(f, ss, ck) && !HasAssemblyIn(ss)
    decreases ss
  {
    if ss != [] {
      StraightStep(f, ss[0], ck);
      StraightWalk(f, ss[1..], Walk(f, ss[0], ck));
      FrameTrans(ck, Walk(f, ss[0], ck), WalkBlock(f, ss, ck));
    }
  }

  lemma StraightStep(f: Fn, s: Stmt, ck: Ck)
    requires s.Decl? || s.Assign? || s.Compound? || s.Store? || s.ExprStmt?
    ensures var r := Walk(f, s, ck); r.terminated == ck.terminated && r.continues == ck.continues && Frame(ck, r)
  {
    if IsWrite(s) {
      WriteFrame(f, s, ck);
    } else if s.Store? {
      CheckedFrame(f, s.e, ck);
    } else {
      TypeFrame(f, s.e, ck);
    }
  }

  lemma SkipWalk(f: Fn, p: Expr, ck: Ck)
    requires Ready(ck) && p.uses <= ck.sure
    ensures Walk(f, If(p, Continue, None), ck) == Skipped(ck)
  {
    Passing(f, p, ck);
    assert Reject(ck) == ck;
    assert Walk(f, Continue, ck) == Skipped(ck).(terminated := true);
    assert FellState(Walk(f, Continue, ck)) + [ck.sure] == [ck.sure];
  }

  lemma SkippingWalk(f: Fn, p: Expr, tail: seq<Stmt>, ck: Ck)
    requires Ready(ck) && p.uses <= ck.sure && Straight(tail)
    ensures var b := Walk(f, Skipping(p, tail), ck);
            && b == WalkBlock(f, tail, Skipped(ck)) && !b.terminated && b.continues == Skipped(ck).continues
            && Frame(ck, b) && Disciplined(f, Skipping(p, tail), ck) && !HasAssembly(Skipping(p, tail))
  {
    var ss := [If(p, Continue, None)] + tail;
    SkipWalk(f, p, ck);
    Passing(f, p, ck);
    assert Reject(ck) == ck;
    StraightWalk(f, tail, Skipped(ck));
    AddStateFrame(ck.continues, ck.sure);
    assert ss[0] == If(p, Continue, None) && ss[1..] == tail;
    assert Frame(ck, Skipped(ck));
    assert Disciplined(f, Continue, TypeExpr(f, p, ck)) && Disciplined(f, ss[0], ck) && DisciplinedBlock(f, ss, ck);
    assert !HasAssembly(Continue) && !HasAssembly(ss[0]) && !HasAssemblyIn(ss);
    FrameTrans(ck, Skipped(ck), WalkBlock(f, tail, Skipped(ck)));
  }

  lemma SkippingRun(f: Fn, p: Expr, tail: seq<Stmt>, d: nat, i: Slots, k: nat)
    requires p.uses <= i
    ensures Runs(f, Skipping(p, tail), d, i, Continued(i), k)
  {
    var ss := [If(p, Continue, None)] + tail;
    assert ss[0] == If(p, Continue, None);
    assert Runs(f, Continue, d, i, Continued(i), k);
    assert Runs(f, ss[0], d, i, Continued(i), k);
  }

  /** The body as the loop's walk sees it: it passes and leaves no slot lower. */
  ghost predicate BodyPasses(f: Fn, p: Expr, tail: seq<Stmt>, ck: Ck) {
    && Ready(ck) && p.uses <= ck.sure && Straight(tail) && DepthsOk(f, Skipping(p, tail), ck.branchDepth)
    && AfterTail(f, tail, ck).diags == {} && ck.sure <= AfterTail(f, tail, ck).sure
  }

  /** The state at the end of the body, on the path that has not skipped. */
  function AfterTail(f: Fn, tail: seq<Stmt>, ck: Ck): Ck {
    WalkBlock(f, tail, Skipped(OpenLoop(ck)))
  }

  lemma BodyWalk(f: Fn, p: Expr, tail: seq<Stmt>, ck: Ck)
    requires BodyPasses(f, p, tail, ck)
    ensures var b := Walk(f, Skipping(p, tail), OpenLoop(ck));
            && b == AfterTail(f, tail, ck) && Ready(b) && TopStates(b.continues) == [ck.sure] && b.sure == AfterTail(f, tail, ck).sure
            && Frame(OpenLoop(ck), b) && Disciplined(f, Skipping(p, tail), OpenLoop(ck)) && !HasAssembly(Skipping(p, tail))
            && NotLower(ck.sure, b)
  {
    SkippingWalk(f, p, tail, OpenLoop(ck));
    AddStateFrame(OpenLoop(ck).continues, ck.sure);
    assert TopStates(OpenLoop(ck).continues) == [] && [] + [ck.sure] == [ck.sure];
  }

  function SkipFor(p: Expr, tail: seq<Stmt>, next: Expr): Stmt {
    For(None, None, Some(next), Skipping(p, tail))
  }

  lemma SkipForWalk(f: Fn, p: Expr, tail: seq<Stmt>, next: Expr, ck: Ck)
    requires BodyPasses(f, p, tail, ck)
    ensures Walk(f, SkipFor(p, tail, next), ck).diags == {} <==> next.uses <= AfterTail(f, tail, ck).sure
    ensures next.uses <= ck.sure ==> Disciplined(f, SkipFor(p, tail, next), ck)
  {
    var s, b := SkipFor(p, tail, next), AfterTail(f, tail, ck);
    BodyWalk(f, p, tail, ck);
    Passing(f, next, b);
    assert Reject(ck) == ck && ForEntry(f, s, ck) == ck;
    assert Walk(f, s, ck) == WalkFor(f, s, ck) && WalkFor(f, s, ck).diags == TypeExpr(f, next, b).diags;
  }

  /**
   The trailing expression of a `for` whose body may skip.  The walk checks it where
   the body ends; runs also reach it from the `continue`, so they are clean exactly
   when what it checks is assigned before the loop.
   */
  lemma ForNextExact(f: Fn, p: Expr, tail: seq<Stmt>, next: Expr, ck: Ck)
    requires BodyPasses(f, p, tail, ck)
    ensures Walk(f, SkipFor(p, tail, next), ck).diags == {} <==> next.uses <= AfterTail(f, tail, ck).sure
    ensures CleanFrom(f, SkipFor(p, tail, next), ck) <==> next.uses <= ck.sure
  {
    var s := SkipFor(p, tail, next);
    SkipForWalk(f, p, tail, next, ck);
    BodyWalk(f, p, tail, ck);
    if next.uses <= ck.sure {
      forall i, o, k | ck.sure <= i && Runs(f, s, ck.branchDepth, i, o, k)
        ensures o != Bad
      {
        assert Clear(f, s, ck, i);
        Sound(f, s, ck, i, o, k);
      }
    } else {
      SkippingRun(f, p, tail, ck.branchDepth, ck.sure, 0);
      assert RunsFor(f, s, ck.branchDepth, ck.sure, Bad, 0);
      assert Runs(f, s, ck.branchDepth, ck.sure, Bad, 0);
    }
  }

  function SkipDo(p: Expr, tail: seq<Stmt>, c: Expr): Stmt {
    DoWhile(Skipping(p, tail), c)
  }

  lemma SkipDoWalk(f: Fn, p: Expr, tail: seq<Stmt>, c: Expr, ck: Ck)
    requires BodyPasses(f, p, tail, ck)
    ensures Walk(f, SkipDo(p, tail, c), ck).diags == {} <==> c.uses <= AfterTail(f, tail, ck).sure
    ensures c.uses <= ck.sure ==> Disciplined(f, SkipDo(p, tail, c), ck)
  {
    var s, b := SkipDo(p, tail, c), AfterTail(f, tail, ck);
    BodyWalk(f, p, tail, ck);
    Passing(f, c, CloseLoop(b));
    assert Reject(ck) == ck;
    assert Walk(f, s, ck) == WalkDo(f, s, ck) && WalkDo(f, s, ck).diags == TypeExpr(f, c, CloseLoop(b)).diags;
  }

  /** The condition of a `do` loop whose body may skip: as for the trailing expression. */
  lemma DoConditionExact(f: Fn, p: Expr, tail: seq<Stmt>, c: Expr, ck: Ck)
    requires BodyPasses(f, p, tail, ck)
    ensures Walk(f, SkipDo(p, tail, c), ck).diags == {} <==> c.uses <= AfterTail(f, tail, ck).sure
    ensures CleanFrom(f, SkipDo(p, tail, c), ck) <==> c.uses <= ck.sure
  {
    var s := SkipDo(p, tail, c);
    SkipDoWalk(f, p, tail, c, ck);
    BodyWalk(f, p, tail, ck);
    if c.uses <= ck.sure {
      forall i, o, k | ck.sure <= i && Runs(f, s, ck.branchDepth, i, o, k)
        ensures o != Bad
      {
        assert Clear(f, s, ck, i);
        Sound(f, s, ck, i, o, k);
      }
    } else {
      SkippingRun(f, p, tail, ck.branchDepth, ck.sure, 0);
      assert RunsDo(f, s, ck.branchDepth, ck.sure, Bad, 0);
      assert Runs(f, s, ck.branchDepth, ck.sure, Bad, 0);
    }
  }

  // ---- tuples --------------------------------------------------------------------------

  /** Declares or assigns, then returns one of the slots. */
  function ThenReturn(s: Stmt, x: Slot): Stmt {
    Block([s, Return(Some(CopyOf(x)))])
  }

  lemma ReturnWalk(f: Fn, s: Stmt, x: Slot, ck: Ck)
    requires Ready(ck) && IsWrite(s)
    ensures Walk(f, ThenReturn(s, x), ck).diags == {} <==> Walk(f, s, ck).diags == {} && x in Walk(f, s, ck).sure
  {
    var c := Walk(f, s, ck);
    TwoSteps(f, s, Return(Some(CopyOf(x))), ck);
    WriteFrame(f, s, ck);
    CheckedFrame(f, CopyOf(x), Reject(c));
    if c.diags == {} && x in c.sure {
      Passing(f, CopyOf(x), c);
      FlagNothing({x}, c);
    }
  }

  lemma ReturnsCopy(f: Fn, x: Slot, d: nat, i: Slots, o: Outcome, k: nat)
    ensures Runs(f, Return(Some(CopyOf(x))), d, i, o, k) <==> (o == Bad && x !in i) || o == Returned
  {
  }

  /** A default handle in the returned slot gets out. */
  lemma ReturnRuns(f: Fn, s: Stmt, x: Slot, d: nat, i: Slots, o: Outcome, k: nat)
    ensures Runs(f, ThenReturn(s, x), d, i, o, k)
            <==> exists o1 :: Runs(f, s, d, i, o1, k)
                   && if o1.Fell? then (o == Bad && x !in o1.init) || o == Returned else o == o1
  {
    TwoRuns(f, s, Return(Some(CopyOf(x))), d, i, o, k);
    assert Runs(f, ThenReturn(s, x), d, i, o, k) <==> RunsBlock(f, [s, Return(Some(CopyOf(x)))], d, i, o, k);
    forall j
      ensures Runs(f, Return(Some(CopyOf(x))), d, j, o, k) <==> (o == Bad && x !in j) || o == Returned
    {
      ReturnsCopy(f, x, d, j, o, k);
    }
  }

  lemma {:induction false} DeclaredAre(xs: seq<Option<Slot>>)
    ensures LocalsFrom(AsTargets(xs), 0) == DeclaredFrom(xs, 0)
  {
    AsTargetsAt(xs);
    DeclaredFromAre(xs, 0);
  }

  lemma {:induction false} DeclaredFromAre(xs: seq<Option<Slot>>, k: nat)
    requires k <= |xs|
    ensures LocalsFrom(AsTargets(xs), k) == DeclaredFrom(xs, k)
    decreases |xs| - k
  {
    AsTargetsAt(xs);
    if k < |xs| { DeclaredFromAre(xs, k + 1); }
  }

  lemma {:induction false} UnpairedDeclares(xs: seq<Option<Slot>>, parts: seq<Expr>, before: Slots, k: nat, ck: Ck)
    requires k <= |xs| && |parts| != |xs|
    ensures DeclareAll(xs, parts, before, k, ck) == ck.(sure := ck.sure + DeclaredFrom(xs, k))
    decreases |xs| - k
  {
    if k < |xs| {
      var next := if xs[k].Some? then Declare(xs[k].value, true, ck) else ck;
      UnpairedDeclares(xs, parts, before, k + 1, next);
      assert ck.sure + DeclaredFrom(xs, k) == next.sure + DeclaredFrom(xs, k + 1);
    }
  }

  lemma UnpairedRun(f: Fn, xs: seq<Option<Slot>>, parts: seq<Expr>, d: nat, i: Slots, k: nat)
    requires |parts| != |xs| && UnionUses(parts) <= i && !(UnionFlows(parts) <= i)
    ensures Runs(f, DeclTuple(xs, parts), d, i, Fell(i - DeclaredFrom(xs, 0)), k)
  {
    var ts := AsTargets(xs);
    DeclaredAre(xs);
    LocalsAre(ts, 0);
    forall y | y in LocalsFrom(ts, 0)
      ensures MayDefault(ts, parts, i, y)
    {
      var m :| 0 <= m < |ts| && ts[m] == Local(y);
      assert PartFlows(parts, |ts|, m) == UnionFlows(parts);
    }
  }

  /**
   A declaration whose right side cannot be paired counts as assigned.  Returning a
   declared slot is clean exactly when nothing the right side copies is unassigned.
   */
  lemma UnpairedExact(f: Fn, xs: seq<Option<Slot>>, parts: seq<Expr>, x: Slot, ck: Ck)
    requires Ready(ck) && |parts| != |xs| && x in DeclaredFrom(xs, 0)
    ensures var s := ThenReturn(DeclTuple(xs, parts), x);
            && (Walk(f, s, ck).diags == {} <==> UnionUses(parts) <= ck.sure)
            && (Walk(f, s, ck).diags == {} ==> (CleanFrom(f, s, ck) <==> UnionFlows(parts) <= ck.sure))
  {
    var t := DeclTuple(xs, parts);
    var s := ThenReturn(t, x);
    ReturnWalk(f, t, x, ck);
    PassingAll(f, parts, ck);
    UnpairedDeclares(xs, parts, ck.sure, 0, TypeAll(f, parts, ck));
    if UnionUses(parts) <= ck.sure {
      if UnionFlows(parts) <= ck.sure {
        forall i, o, k | ck.sure <= i && Runs(f, s, ck.branchDepth, i, o, k)
          ensures o != Bad
        {
          UnpairedClean(f, xs, parts, x, ck.branchDepth, i, o, k);
        }
      } else {
        UnpairedRun(f, xs, parts, ck.branchDepth, ck.sure, 0);
        ReturnRuns(f, t, x, ck.branchDepth, ck.sure, Bad, 0);
        assert x !in Fell(ck.sure - DeclaredFrom(xs, 0)).init;
        assert Runs(f, s, ck.branchDepth, ck.sure, Bad, 0);
      }
    }
  }

  lemma UnpairedClean(f: Fn, xs: seq<Option<Slot>>, parts: seq<Expr>, x: Slot, d: nat, i: Slots, o: Outcome, k: nat)
    requires |parts| != |xs| && x in DeclaredFrom(xs, 0) && UnionUses(parts) + UnionFlows(parts) <= i
    requires Runs(f, ThenReturn(DeclTuple(xs, parts), x), d, i, o, k)
    ensures o != Bad
  {
    var ts := AsTargets(xs);
    ReturnRuns(f, DeclTuple(xs, parts), x, d, i, o, k);
    DeclaredAre(xs);
    assert !MayDefault(ts, parts, i, x);
  }

  /** `(x, x) = (a, b)` */
  function Twice(x: Slot, a: Expr, b: Expr): Stmt {
    TupleAssign([Local(x), Local(x)], [a, b])
  }

  lemma TwiceFacts(x: Slot, a: Expr, b: Expr)
    ensures UnionUses([a, b]) == a.uses + b.uses
    ensures LocalsFrom([Local(x), Local(x)], 0) == {x}
    ensures forall i :: MayDefault([Local(x), Local(x)], [a, b], i, x) <==> !(a.flows + b.flows <= i)
  {
    var ts: seq<Target>, parts := [Local(x), Local(x)], [a, b];
    assert parts[1..] == [b] && [b][1..] == [] && UnionUses([]) == {};
    assert LocalsFrom(ts, 2) == {} && LocalsFrom(ts, 1) == {x};
    assert PartFlows(parts, 2, 0) == a.flows && PartFlows(parts, 2, 1) == b.flows;
    forall i
      ensures MayDefault(ts, parts, i, x) <==> !(a.flows + b.flows <= i)
    {
      assert ts[0] == Local(x) && ts[1] == Local(x);
    }
  }

  lemma TwiceWalk(f: Fn, x: Slot, a: Expr, b: Expr, ck: Ck)
    requires Ready(ck) && a.uses + b.uses <= ck.sure
    ensures Walk(f, Twice(x, a, b), ck).diags == {}
    ensures x in Walk(f, Twice(x, a, b), ck).sure <==> b.flows <= ck.sure
  {
    var ts: seq<Target>, parts := [Local(x), Local(x)], [a, b];
    TwiceFacts(x, a, b);
    PassingAll(f, parts, ck);
    var c1 := Put(f, x, !(a.flows <= ck.sure), ck);
    var c2 := Put(f, x, !(b.flows <= ck.sure), c1);
    PutFrame(f, x, !(a.flows <= ck.sure), ck);
    PutFrame(f, x, !(b.flows <= ck.sure), c1);
    assert PutAll(f, ts, parts, ck.sure, 2, c2) == c2;
    assert PutAll(f, ts, parts, ck.sure, 1, c1) == c2;
    assert PutAll(f, ts, parts, ck.sure, 0, ck) == c2;
  }

  lemma TwicePasses(f: Fn, x: Slot, a: Expr, b: Expr, ck: Ck)
    requires Ready(ck)
    ensures Walk(f, ThenReturn(Twice(x, a, b), x), ck).diags == {} <==> a.uses + b.uses + b.flows <= ck.sure
  {
    var t := Twice(x, a, b);
    ReturnWalk(f, t, x, ck);
    TwiceFacts(x, a, b);
    PassingAll(f, [a, b], ck);
    if a.uses + b.uses <= ck.sure {
      TwiceWalk(f, x, a, b, ck);
    } else {
      TypeAllFrame(f, [a, b], ck);
      PutAllFrame(f, t.targets, [a, b], ck.sure, 0, TypeAll(f, [a, b], ck));
    }
  }

  /**
   A slot named twice in a tuple assignment.  The walk looks at the last component;
   which write comes last in a run is left open, so returning the slot is clean
   exactly when the first component's reads are assigned as well.
   */
  lemma RepeatedExact(f: Fn, x: Slot, a: Expr, b: Expr, ck: Ck)
    requires Ready(ck)
    ensures var s := ThenReturn(Twice(x, a, b), x);
            && (Walk(f, s, ck).diags == {} <==> a.uses + b.uses + b.flows <= ck.sure)
            && (Walk(f, s, ck).diags == {} ==> (CleanFrom(f, s, ck) <==> a.flows <= ck.sure))
  {
    var t := Twice(x, a, b);
    var s := ThenReturn(t, x);
    TwicePasses(f, x, a, b, ck);
    TwiceFacts(x, a, b);
    if a.uses + b.uses + b.flows <= ck.sure {
      if a.flows <= ck.sure {
        forall i, o, k | ck.sure <= i && Runs(f, s, ck.branchDepth, i, o, k)
          ensures o != Bad
        {
          TwiceClean(f, x, a, b, ck.branchDepth, i, o, k);
        }
      } else {
        ReturnRuns(f, t, x, ck.branchDepth, ck.sure, Bad, 0);
        assert Runs(f, t, ck.branchDepth, ck.sure, Fell(ck.sure - {x}), 0);
        assert Runs(f, s, ck.branchDepth, ck.sure, Bad, 0);
      }
    }
  }

  lemma TwiceClean(f: Fn, x: Slot, a: Expr, b: Expr, d: nat, i: Slots, o: Outcome, k: nat)
    requires a.uses + b.uses + a.flows + b.flows <= i && Runs(f, ThenReturn(Twice(x, a, b), x), d, i, o, k)
    ensures o != Bad
  {
    TwiceFacts(x, a, b);
    ReturnRuns(f, Twice(x, a, b), x, d, i, o, k);
    assert !MayDefault([Local(x), Local(x)], [a, b], i, x);
  }
}
