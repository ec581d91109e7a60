/**
 The definite-assignment checker as it runs: one pass over the statements that
 updates its own fields.  Every method's new state is the one `DefiniteAssignment`
 specifies, so what `DefiniteSound` proves holds of the checker.
 */
module DefiniteChecker {
  import opened Wrappers
  import opened DefiniteAssignment
  import DefiniteFrames
  import opened DefiniteRuns
  import opened DefiniteBranches
  import opened DefiniteSound
  import opened DefiniteSyntax
  import ModifierScan

  lemma {:induction false} MeetMore(states: seq<Slots>, i: nat)
    requires 0 < i < |states|
    ensures Meet(states[..i + 1]) == Meet(states[..i]) * states[i]
    decreases i
  {
    assert states[..i + 1][1..] == states[1..][..i] && states[..i][1..] == states[1..][..i - 1];
    if i > 1 {
      MeetMore(states[1..], i - 1);
    } else {
      assert states[1..][..1] == [states[1]];
    }
  }

  lemma AddSlotsTwice(stack: seq<Slots>, a: Slots, b: Slots)
    ensures AddSlots(AddSlots(stack, a), b) == AddSlots(stack, a + b)
  {
    if stack != [] { assert Top(stack) + a + b == Top(stack) + (a + b); }
  }

  lemma AddNoSlots(stack: seq<Slots>)
    ensures AddSlots(stack, {}) == stack
  {
    if stack != [] { assert Top(stack) + {} == Top(stack); }
  }

  /** The states of the slots once those of `done` have been merged. */
  function Settled(snap: Slots, thn: Slots, els: Slots, thenWrites: Slots, elseWrites: Slots, done: Slots): Slots {
    (set x | x in snap * thn * els && x !in done)
    + (set x | x in done && (if (x in thenWrites && x in elseWrites) || x in snap then x in thn && x in els else true))
  }

  lemma SettledMore(snap: Slots, thn: Slots, els: Slots, thenWrites: Slots, elseWrites: Slots, done: Slots, x: Slot)
    ensures var before := Settled(snap, thn, els, thenWrites, elseWrites, done);
            Settled(snap, thn, els, thenWrites, elseWrites, done + {x})
            == if ((x in thenWrites && x in elseWrites) || x in snap) && !(x in thn && x in els) then before - {x} else before + {x}
  {
  }

  function LogOuterWrites(f: Fn, ck: Ck, xs: Slots): seq<Slots> {
    if InBranch(ck) then AddSlots(ck.branchWrites, Outer(f, ck, xs)) else ck.branchWrites
  }

  lemma LogNone(f: Fn, ck: Ck)
    ensures LogOuterWrites(f, ck, {}) == ck.branchWrites
  {
    AddNoSlots(ck.branchWrites);
    assert Outer(f, ck, {}) == {};
  }

  lemma LogMore(f: Fn, ck: Ck, done: Slots, x: Slot)
    ensures LogOuterWrites(f, ck, done + {x})
            == if InBranch(ck) && DepthOf(f, x) < ck.branchDepth then AddSlots(LogOuterWrites(f, ck, done), {x})
               else LogOuterWrites(f, ck, done)
  {
    AddSlotsTwice(ck.branchWrites, Outer(f, ck, done), {x});
    assert Outer(f, ck, done + {x}) == if DepthOf(f, x) < ck.branchDepth then Outer(f, ck, done) + {x} else Outer(f, ck, done);
  }

  class FnChecker {
    const f: Fn
    var sure: Slots
    var branchDepth: nat
    var branchWrites: seq<Slots>
    var branchReads: seq<Slots>
    var terminated: bool
    var loopBreaks: seq<seq<Slots>>
    var loopContinues: seq<seq<Slots>>
    var diags: set<Diag>

    ghost function View(): Ck
      reads this
    {
      Ck(sure, branchDepth, branchWrites, branchReads, terminated, loopBreaks, loopContinues, diags)
    }

    constructor (fn: Fn, params: Slots)
      ensures f == fn && View() == Start(params - fn.named)
    {
      f := fn;
      sure, branchDepth, branchWrites, branchReads := params - fn.named, 0, [], [];
      terminated, loopBreaks, loopContinues, diags := false, [], [], {};
    }

    predicate InsideBranch()
      reads this
    {
      branchDepth > 0
    }

    method RejectInBranch()
      modifies this
      ensures View() == Reject(old(View()))
    {
      if InsideBranch() { diags := diags + {Rejected}; }
    }

    // ---- reads and writes ----------------------------------------------------------------

    /** A read of a slot that is not assigned is logged in the innermost branch. */
    method NoteRead(x: Slot)
      modifies this
      ensures View() == NoteReads(f, {x}, old(View()))
    {
      AddNoSlots(branchReads);
      if x !in sure && branchDepth > 0 && DepthOf(f, x) < branchDepth {
        assert Outer(f, View(), {x} - sure) == {x};
        branchReads := AddSlots(branchReads, {x});
      } else {
        assert InsideBranch() ==> Outer(f, View(), {x} - sure) == {};
      }
    }

    method NoteAllReads(xs: Slots)
      modifies this
      ensures View() == NoteReads(f, xs, old(View()))
    {
      var todo := xs;
      AddNoSlots(branchReads);
      assert Outer(f, View(), (xs - todo) - sure) == {};
      while todo != {}
        invariant todo <= xs
        invariant View() == NoteReads(f, xs - todo, old(View()))
        decreases todo
      {
        var x :| x in todo;
        AddSlotsTwice(old(branchReads), Outer(f, old(View()), (xs - todo) - sure), Outer(f, old(View()), {x} - sure));
        assert Outer(f, old(View()), (xs - (todo - {x})) - sure)
            == Outer(f, old(View()), (xs - todo) - sure) + Outer(f, old(View()), {x} - sure);
        NoteRead(x);
        todo := todo - {x};
      }
      assert xs - todo == xs;
    }

    method FlagUninit(xs: Slots)
      modifies this
      ensures View() == Flag(xs, old(View()))
    {
      var todo := xs;
      while todo != {}
        invariant todo <= xs
        invariant View() == old(View()).(diags := diags)
        invariant diags == old(diags) + set x | x in (xs - todo) - sure :: Uninit(x)
        decreases todo
      {
        var x :| x in todo;
        if x !in sure { diags := diags + {Uninit(x)}; }
        todo := todo - {x};
      }
    }

    method TypeAnExpr(e: Expr)
      modifies this
      ensures View() == TypeExpr(f, e, old(View()))
    {
      NoteAllReads(e.flows + e.uses);
      FlagUninit(e.uses);
    }

    method TypeCheckedExpr(e: Expr)
      modifies this
      ensures View() == TypeChecked(f, e, old(View()))
    {
      TypeAnExpr(e);
      FlagUninit(e.flows);
    }

    method TypeParts(es: seq<Expr>)
      modifies this
      ensures View() == TypeAll(f, es, old(View()))
    {
      for i := 0 to |es|
        invariant TypeAll(f, es[i..], View()) == TypeAll(f, es, old(View()))
      {
        assert es[i..][1..] == es[i + 1..];
        TypeAnExpr(es[i]);
      }
    }

    method NoteAssigned(x: Slot)
      modifies this
      ensures View() == NoteAssign(f, x, old(View()))
    {
      if branchDepth > 0 {
        AddNoSlots(branchWrites);
        assert Outer(f, View(), {x}) == if DepthOf(f, x) < branchDepth then {x} else {};
        if DepthOf(f, x) < branchDepth { branchWrites := AddSlots(branchWrites, {x}); }
      }
      sure := sure + {x};
    }

    /** A plain assignment, which a copy of an unassigned value leaves unassigned. */
    method AssignSlot(x: Slot, tainted: bool)
      modifies this
      ensures View() == Put(f, x, tainted, old(View()))
    {
      NoteAssigned(x);
      if tainted { sure := sure - {x}; }
    }

    method DeclareSlot(x: Slot, isSet: bool)
      modifies this
      ensures View() == Declare(x, isSet, old(View()))
    {
      sure := if isSet then sure + {x} else sure - {x};
    }

    method FlagReads(xs: Slots, before: Slots)
      modifies this
      ensures View() == old(View()).(diags := old(diags) + set x | x in xs - before :: Uninit(x))
    {
      var todo := xs;
      while todo != {}
        invariant todo <= xs
        invariant View() == old(View()).(diags := diags)
        invariant diags == old(diags) + set x | x in (xs - todo) - before :: Uninit(x)
        decreases todo
      {
        var x :| x in todo;
        if x !in before { diags := diags + {Uninit(x)}; }
        todo := todo - {x};
      }
    }

    method AssignTuple(targets: seq<Target>, parts: seq<Expr>)
      modifies this
      ensures View() == Walk(f, TupleAssign(targets, parts), old(View()))
    {
      var before := sure;
      TypeParts(parts);
      ghost var typed := View();
      for k := 0 to |targets|
        invariant PutAll(f, targets, parts, before, k, View()) == PutAll(f, targets, parts, before, 0, typed)
      {
        var rs := PartFlows(parts, |targets|, k);
        match targets[k] {
          case Local(x) => AssignSlot(x, !(rs <= before));
          case Elsewhere => FlagReads(rs, before);
          case Hole =>
        }
      }
    }

    method DeclareTuple(xs: seq<Option<Slot>>, parts: seq<Expr>)
      modifies this
      ensures View() == Walk(f, DeclTuple(xs, parts), old(View()))
    {
      var before := sure;
      TypeParts(parts);
      ghost var typed := View();
      for k := 0 to |xs|
        invariant DeclareAll(xs, parts, before, k, View()) == DeclareAll(xs, parts, before, 0, typed)
      {
        if xs[k].Some? { DeclareSlot(xs[k].value, |parts| != |xs| || parts[k].flows <= before); }
      }
    }

    method CheckNamedReturns()
      modifies this
      ensures View() == CheckNamed(f, old(View()))
    {
      FlagUninit(f.named);
    }

    // ---- joins and jumps -----------------------------------------------------------------

    /** Restores the first candidate, then joins the others into it. */
    method JoinCandidates(candidates: seq<Slots>)
      modifies this
      ensures View() == JoinAll(candidates, old(View()))
    {
      if candidates == [] { return; }
      sure := candidates[0];
      assert candidates[..1] == [candidates[0]];
      for i := 1 to |candidates|
        invariant View() == old(View()).(sure := Meet(candidates[..i]))
      {
        MeetMore(candidates, i);
        sure := sure * candidates[i];
      }
      assert candidates[..|candidates|] == candidates;
    }

    method Jump(s: Stmt)
      requires s.Break? || s.Continue?
      modifies this
      ensures View() == Walk(f, s, old(View()))
    {
      if InsideBranch() {
        RejectInBranch();
      } else if s.Break? {
        loopBreaks := AddState(loopBreaks, sure);
      } else {
        loopContinues := AddState(loopContinues, sure);
      }
      terminated := true;
    }

    method Leave(v: Option<Expr>)
      modifies this
      ensures View() == Walk(f, Return(v), old(View()))
    {
      RejectInBranch();
      if v.Some? {
        TypeCheckedExpr(v.value);
      } else if !InsideBranch() {
        CheckNamedReturns();
      }
      terminated := true;
    }

    // ---- statements ----------------------------------------------------------------------

    method WalkStmt(s: Stmt)
      modifies this
      ensures View() == Walk(f, s, old(View()))
      decreases s, 2
    {
      match s {
        case Block(b) => WalkStmts(b);
        case If(_, _, _) => IfStmt(s);
        case EncryptedIf(_, _, _) => EncryptedIfStmt(s);
        case While(_, _) => WhileStmt(s);
        case DoWhile(_, _) => DoStmt(s);
        case For(_, _, _, _) => ForStmt(s);
        case Try(_, _) => TryStmt(s);
        case _ => WalkSimple(s);
      }
    }

    method WalkSimple(s: Stmt)
      requires !DefiniteFrames.IsFlow(s)
      modifies this
      ensures View() == Walk(f, s, old(View()))
    {
      match s {
        case Decl(x, init) =>
          var before := sure;
          if init.Some? { TypeAnExpr(init.value); }
          DeclareSlot(x, init.Some? && init.value.flows <= before);
        case DeclTuple(xs, parts) => DeclareTuple(xs, parts);
        case Assign(x, e) =>
          var tainted := !(e.flows <= sure);
          TypeAnExpr(e);
          AssignSlot(x, tainted);
        case TupleAssign(targets, parts) => AssignTuple(targets, parts);
        case Compound(x, e) =>
          TypeCheckedExpr(e);
          FlagUninit({x});
          NoteAssigned(x);
        case Store(e) => TypeCheckedExpr(e);
        case ExprStmt(e) => TypeAnExpr(e);
        case Break => Jump(s);
        case Continue => Jump(s);
        case Return(v) => Leave(v);
        case Revert(e) =>
          RejectInBranch();
          TypeAnExpr(e);
          terminated := true;
        case Halt(e) =>
          RejectInBranch();
          TypeAnExpr(e);
          terminated := true;
        case Emit(e) =>
          RejectInBranch();
          TypeAnExpr(e);
        case Assembly => RejectInBranch();
      }
    }

    method WalkStmts(ss: seq<Stmt>)
      modifies this
      ensures View() == WalkBlock(f, ss, old(View()))
      decreases ss, 0
    {
      for i := 0 to |ss|
        invariant WalkBlock(f, ss[i..], View()) == WalkBlock(f, ss, old(View()))
      {
        if terminated { break; }
        assert ss[i..][1..] == ss[i + 1..];
        WalkStmt(ss[i]);
      }
    }

    method IfStmt(s: Stmt)
      requires s.If?
      modifies this
      ensures View() == Walk(f, s, old(View()))
      decreases s, 1
    {
      TypeAnExpr(s.c);
      RejectInBranch();
      var snap, preTerminated := sure, terminated;
      WalkStmt(s.thn);
      var thenState, thenTerminated := sure, terminated;
      sure := snap;
      terminated := preTerminated;
      var elseTerminated := false;
      if s.els.Some? {
        WalkStmt(s.els.value);
        elseTerminated := terminated;
      }
      var candidates := (if thenTerminated then [] else [thenState]) + (if elseTerminated then [] else [sure]);
      JoinCandidates(candidates);
      terminated := preTerminated || (thenTerminated && elseTerminated);
    }

    /** The merges of an encrypted branch that need an unassigned value from before. */
    method FlagMerges(writes: Slots, needs: Slots, snap: Slots)
      requires needs <= writes
      modifies this
      ensures View() == old(View()).(diags := old(diags) + set x | x in needs - snap :: Uninit(x))
    {
      var todo := writes;
      while todo != {}
        invariant todo <= writes
        invariant View() == old(View()).(diags := diags)
        invariant diags == old(diags) + set x | x in (needs - todo) - snap :: Uninit(x)
        decreases todo
      {
        var x :| x in todo;
        if x !in snap && x in needs { diags := diags + {Uninit(x)}; }
        todo := todo - {x};
      }
    }

    /** The state after the merges, and the merges as writes of the enclosing branch. */
    method Settle(snap: Slots, thn: Slots, els: Slots, thenWrites: Slots, elseWrites: Slots)
      modifies this
      ensures View() == old(View()).(sure := Settled(snap, thn, els, thenWrites, elseWrites, thenWrites + elseWrites),
                                     branchWrites := LogOuterWrites(f, old(View()), thenWrites + elseWrites))
    {
      var written := thenWrites + elseWrites;
      sure := snap * thn * els;
      var todo := written;
      LogNone(f, View());
      assert written - todo == {};
      while todo != {}
        invariant todo <= written
        invariant View() == old(View()).(sure := sure, branchWrites := branchWrites)
        invariant sure == Settled(snap, thn, els, thenWrites, elseWrites, written - todo)
        invariant branchWrites == LogOuterWrites(f, old(View()), written - todo)
        decreases todo
      {
        var x :| x in todo;
        assert written - (todo - {x}) == (written - todo) + {x};
        LogMore(f, old(View()), written - todo, x);
        SettledMore(snap, thn, els, thenWrites, elseWrites, written - todo, x);
        if (x in thenWrites && x in elseWrites) || x in snap {
          sure := if x in thn && x in els then sure + {x} else sure - {x};
        } else {
          sure := sure + {x};
        }
        if branchDepth > 0 && DepthOf(f, x) < branchDepth {
          branchWrites := AddSlots(branchWrites, {x});
        }
        todo := todo - {x};
      }
      assert written - todo == written;
    }

    method EncryptedIfStmt(s: Stmt)
      requires s.EncryptedIf?
      modifies this
      ensures View() == Walk(f, s, old(View()))
      decreases s, 1
    {
      TypeCheckedExpr(s.c);
      ghost var before := View();
      var snap, preTerminated := sure, terminated;
      branchDepth := branchDepth + 1;
      branchWrites, branchReads := branchWrites + [{}], branchReads + [{}];
      assert View() == OpenBranch(before);
      WalkStmt(s.thn);
      ghost var t := View();
      var thenState, thenWrites, thenReads := sure, TopSlots(branchWrites), TopSlots(branchReads);
      sure := snap;
      branchWrites, branchReads := Pop(branchWrites) + [{}], Pop(branchReads) + [{}];
      assert View() == NextArm(snap, t);
      if s.els.Some? { WalkStmt(s.els.value); }
      ghost var e := View();
      CloseArms(s.els.None?, snap, preTerminated, thenState, thenWrites, thenReads, t);
      assert View() == CloseBranch(f, snap, preTerminated, s.els.None?, t, e);
    }

    /** The end of an encrypted `if`, from the state of its second arm. */
    method CloseArms(oneArm: bool, snap: Slots, preTerminated: bool, thenState: Slots, thenWrites: Slots, thenReads: Slots, ghost t: Ck)
      requires thenState == t.sure && thenWrites == TopSlots(t.branchWrites) && thenReads == TopSlots(t.branchReads)
      modifies this
      ensures View() == CloseBranch(f, snap, preTerminated, oneArm, t, old(View()))
    {
      var elseState, elseWrites, elseReads := sure, TopSlots(branchWrites), TopSlots(branchReads);
      branchWrites, branchReads := Pop(branchWrites), Pop(branchReads);
      if branchDepth > 0 { branchDepth := branchDepth - 1; }
      var writes := thenWrites + elseWrites;
      var needs := set x | x in writes && (oneArm || x !in thenState || x !in elseState || x in thenReads + elseReads);
      FlagMerges(writes, needs, snap);
      Settle(snap, thenState, elseState, thenWrites, elseWrites);
      terminated := preTerminated;
    }

    /** The exits of a loop that may run zero times. */
    method LeaveLoop(snap: Slots, preTerminated: bool)
      modifies this
      ensures var b := old(View());
              View() == JoinAll([snap] + FellState(b) + TopStates(b.breaks) + TopStates(b.continues), CloseLoop(b))
                        .(terminated := preTerminated)
    {
      var bodyState := if terminated then [] else [sure];
      var candidates := [snap] + bodyState + TopStates(loopBreaks) + TopStates(loopContinues);
      loopBreaks, loopContinues := Pop(loopBreaks), Pop(loopContinues);
      JoinCandidates(candidates);
      terminated := preTerminated;
    }

    method WhileStmt(s: Stmt)
      requires s.While?
      modifies this
      ensures View() == Walk(f, s, old(View()))
      decreases s, 1
    {
      RejectInBranch();
      TypeAnExpr(s.c);
      var snap, preTerminated := sure, terminated;
      loopBreaks, loopContinues := loopBreaks + [[]], loopContinues + [[]];
      WalkStmt(s.loop);
      LeaveLoop(snap, preTerminated);
    }

    method DoStmt(s: Stmt)
      requires s.DoWhile?
      modifies this
      ensures View() == Walk(f, s, old(View()))
      decreases s, 1
    {
      RejectInBranch();
      var preTerminated := terminated;
      loopBreaks, loopContinues := loopBreaks + [[]], loopContinues + [[]];
      WalkStmt(s.loop);
      var bodyState := if terminated then [] else [sure];
      var candidates := bodyState + TopStates(loopBreaks) + TopStates(loopContinues);
      loopBreaks, loopContinues := Pop(loopBreaks), Pop(loopContinues);
      TypeAnExpr(s.c);
      terminated := preTerminated || candidates == [];
      JoinCandidates(candidates);
    }

    /** The trailing expression of a `for`, typed once. */
    method TypeTrailing(next: Option<Expr>)
      modifies this
      ensures View() == TypeNext(f, next, old(View()))
    {
      if next.None? { return; }
      if !terminated {
        TypeAnExpr(next.value);
      } else if TopStates(loopContinues) != [] {
        var preNext := sure;
        JoinCandidates(TopStates(loopContinues));
        TypeAnExpr(next.value);
        sure := preNext;
      }
    }

    method ForStmt(s: Stmt)
      requires s.For?
      modifies this
      ensures View() == Walk(f, s, old(View()))
      decreases s, 1
    {
      RejectInBranch();
      if s.first.Some? { WalkStmt(s.first.value); }
      if s.cond.Some? { TypeAnExpr(s.cond.value); }
      var snap, preTerminated := sure, terminated;
      loopBreaks, loopContinues := loopBreaks + [[]], loopContinues + [[]];
      WalkStmt(s.loop);
      TypeTrailing(s.next);
      LeaveLoop(snap, preTerminated);
    }

    method TryStmt(s: Stmt)
      requires s.Try?
      modifies this
      ensures View() == Walk(f, s, old(View()))
      decreases s, 1
    {
      RejectInBranch();
      TypeAnExpr(s.e);
      var preTerminated := terminated;
      var outs := TryClauses(s.clauses);
      JoinCandidates(outs);
      terminated := preTerminated || outs == [];
    }

    method TryClauses(clauses: seq<Clause>) returns (outs: seq<Slots>)
      modifies this
      ensures Clauses(outs, View()) == WalkClauses(f, clauses, old(sure), old(terminated), old(View()))
      decreases clauses, 0
    {
      var snap, preTerminated := sure, terminated;
      outs := [];
      for i := 0 to |clauses|
        invariant var rest := WalkClauses(f, clauses[i..], snap, preTerminated, View());
                  WalkClauses(f, clauses, snap, preTerminated, old(View())) == Clauses(outs + rest.outs, rest.ck)
      {
        assert clauses[i..][1..] == clauses[i + 1..];
        ghost var here, rest := View(), WalkClauses(f, clauses[i..], snap, preTerminated, View());
        sure := snap + clauses[i].params;
        terminated := preTerminated;
        assert View() == here.(sure := snap + clauses[i].params, terminated := preTerminated);
        WalkStmts(clauses[i].body);
        ghost var more := WalkClauses(f, clauses[i + 1..], snap, preTerminated, View());
        assert rest == Clauses(FellState(View()) + more.outs, more.ck);
        if !terminated {
          assert outs + ([sure] + more.outs) == outs + [sure] + more.outs;
          outs := outs + [sure];
        }
      }
    }

    /** One function body. */
    method CheckBody(body: seq<Stmt>, riskyModifier: bool)
      modifies this
      ensures var ck1 := if f.named != {} && (riskyModifier || HasAssemblyIn(body)) then CheckNamed(f, old(View())) else old(View());
              var ck2 := WalkBlock(f, body, ck1);
              View() == if ck2.terminated then ck2 else CheckNamed(f, ck2)
    {
      if f.named != {} && (riskyModifier || HasAssemblyIn(body)) { CheckNamedReturns(); }
      WalkStmts(body);
      if !terminated { CheckNamedReturns(); }
    }
  }

  /** A modifier as the checker finds it: its body, or nothing it can look into. */
  type Modifier = Option<seq<ModifierScan.Stmt>>

  /** No modifier leaves without having run the guarded body. */
  ghost predicate AlwaysRunsBody(modifiers: seq<Modifier>) {
    forall m | m in modifiers :: m.Some? && forall o, k :: !ModifierScan.Skips(m.value, o, k)
  }

  method HasRiskyModifier(modifiers: seq<Modifier>) returns (risky: bool)
    ensures !risky ==> AlwaysRunsBody(modifiers)
    ensures risky ==> exists m | m in modifiers :: m.None? || ModifierScan.MaySkip(m.value)
  {
    for i := 0 to |modifiers|
      invariant AlwaysRunsBody(modifiers[..i])
    {
      if modifiers[i].None? {
        assert modifiers[i] in modifiers;
        return true;
      }
      var skip := ModifierScan.ModifierMaySkipBody(modifiers[i].value);
      if skip {
        assert modifiers[i] in modifiers;
        return true;
      }
      assert modifiers[..i + 1] == modifiers[..i] + [modifiers[i]];
    }
    assert modifiers[..|modifiers|] == modifiers;
    risky := false;
  }

  /** Every run of the body keeps default handles in, and every modifier reaches the body. */
  ghost predicate Safe(f: Fn, params: Slots, body: seq<Stmt>, modifiers: seq<Modifier>) {
    && (forall o, k :: FunctionRuns(f, params, body, o, k) ==> Clean(f, o))
    && (f.named != {} ==> AlwaysRunsBody(modifiers))
  }

  /** The whole check of one function: without diagnostics the function is safe. */
  method CheckWhole(f: Fn, params: Slots, body: seq<Stmt>, modifiers: seq<Modifier>) returns (diags: set<Diag>)
    ensures diags == {} && (TidyAll(body, params) || DisciplinedBlock(f, body, Start(params - f.named))) && DepthsAllOk(f, body, 0) ==>
              Safe(f, params, body, modifiers)
  {
    var risky := HasRiskyModifier(modifiers);
    var checker := new FnChecker(f, params);
    checker.CheckBody(body, risky);
    diags := checker.diags;
    assert diags == CheckFunction(f, params, body, risky);
    if TidyAll(body, params) { TidyBlock(f, body, params, Start(params - f.named)); }
    if diags == {} && DisciplinedBlock(f, body, Start(params - f.named)) && DepthsAllOk(f, body, 0) {
      forall o, k | FunctionRuns(f, params, body, o, k)
        ensures Clean(f, o)
      {
        CheckSound(f, params, body, risky, o, k);
      }
      if f.named != {} && risky { RiskyFlagged(f, params, body, risky); }
    }
  }
}
