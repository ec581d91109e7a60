/**
 Where the single pass reports a correct program.  The condition of a `do` loop is
 typed where the walk of the body stopped, also when no path falls through the body
 and only a `continue` reaches the condition.
 */
module DefiniteLeftover {
  import opened Wrappers
  import opened DefiniteAssignment
  import opened DefiniteFrames
  import opened DefiniteRuns
  import opened DefiniteGaps

  /** `if (p) { x = e; continue; } else { revert(r); }` */
  function Retry(p: Expr, x: Slot, e: Expr, r: Expr): Stmt {
    If(p, Block([Assign(x, e), Continue]), Some(Revert(r)))
  }

  function RetryLoop(p: Expr, x: Slot, e: Expr, r: Expr, c: Expr): Stmt {
    DoWhile(Retry(p, x, e, r), c)
  }

  // ---- the walk ------------------------------------------------------------------------

  lemma ArmWalk(f: Fn, x: Slot, e: Expr, ck: Ck)
    requires Ready(ck) && e.flows <= ck.sure
    ensures var t := Walk(f, Block([Assign(x, e), Continue]), ck);
            && (t.diags == {} <==> e.uses <= ck.sure)
            && (t.diags == {} ==> t == ck.(sure := ck.sure + {x}, continues := AddState(ck.continues, ck.sure + {x}), terminated := true))
  {
    TwoSteps(f, Assign(x, e), Continue, ck);
    Passing(f, e, ck);
    TypeFrame(f, e, ck);
    PutFrame(f, x, false, TypeExpr(f, e, ck));
  }

  /** The body reports what its expressions check, and leaves the state before the jump behind. */
  lemma RetryWalk(f: Fn, p: Expr, x: Slot, e: Expr, r: Expr, ck: Ck)
    requires Ready(ck) && e.flows <= ck.sure
    ensures var b := Walk(f, Retry(p, x, e, r), ck);
            && (b.diags == {} <==> p.uses + e.uses + r.uses <= ck.sure)
            && (b.diags == {} ==> b == ck.(continues := AddState(ck.continues, ck.sure + {x}), terminated := true))
  {
    var arm, s := Block([Assign(x, e), Continue]), Retry(p, x, e, r);
    Passing(f, p, ck);
    TypeFrame(f, p, ck);
    assert Walk(f, s, ck) == WalkIf(f, s, TypeExpr(f, p, ck)) && Reject(ck) == ck;
    if p.uses <= ck.sure {
      var t := Walk(f, arm, ck);
      ArmWalk(f, x, e, ck);
      WalkFrame(f, arm, ck);
      var c2 := t.(sure := ck.sure, terminated := false);
      var w := Walk(f, Revert(r), c2);
      assert Reject(c2) == c2 && w == TypeExpr(f, r, c2).(terminated := true);
      assert WalkIf(f, s, ck) == JoinAll(FellState(t) + [], w).(terminated := t.terminated);
      TypeFrame(f, r, c2);
      if e.uses <= ck.sure { Passing(f, r, c2); }
    } else {
      IfFrame(f, Retry(p, x, e, r), TypeExpr(f, p, ck));
    }
  }

  lemma RetryLoopPasses(f: Fn, p: Expr, x: Slot, e: Expr, r: Expr, c: Expr, ck: Ck)
    requires Ready(ck) && e.flows <= ck.sure
    ensures Walk(f, RetryLoop(p, x, e, r, c), ck).diags == {} <==> p.uses + e.uses + r.uses + c.uses <= ck.sure
  {
    var s, b := RetryLoop(p, x, e, r, c), Walk(f, Retry(p, x, e, r), OpenLoop(ck));
    RetryWalk(f, p, x, e, r, OpenLoop(ck));
    assert Reject(ck) == ck && Walk(f, s, ck).diags == TypeExpr(f, c, CloseLoop(b)).diags;
    TypeFrame(f, c, CloseLoop(b));
    if b.diags == {} {
      FlagFrame(c.uses, NoteReads(f, c.flows + c.uses, CloseLoop(b)));
      if c.uses <= ck.sure { FlagNothing(c.uses, NoteReads(f, c.flows + c.uses, CloseLoop(b))); }
    }
  }

  // ---- the runs ------------------------------------------------------------------------

  lemma RetryRuns(f: Fn, p: Expr, x: Slot, e: Expr, r: Expr, d: nat, i: Slots, o: Outcome, k: nat)
    requires e.flows <= i
    ensures p.uses + e.uses + r.uses <= i ==>
              (Runs(f, Retry(p, x, e, r), d, i, o, k) <==> o == Continued(i + {x}) || o == Reverted)
    ensures !(p.uses + e.uses + r.uses <= i) ==> Runs(f, Retry(p, x, e, r), d, i, Bad, k)
  {
    var arm := Block([Assign(x, e), Continue]);
    forall o1
      ensures p.uses <= i ==> (Runs(f, Retry(p, x, e, r), d, i, o1, k) <==> Runs(f, arm, d, i, o1, k) || Runs(f, Revert(r), d, i, o1, k))
    {
    }
    ArmRuns(f, x, e, d, i, o, k);
    ArmRuns(f, x, e, d, i, Bad, k);
  }

  lemma ArmRuns(f: Fn, x: Slot, e: Expr, d: nat, i: Slots, o: Outcome, k: nat)
    requires e.flows <= i
    ensures Runs(f, Block([Assign(x, e), Continue]), d, i, o, k) <==> o == if e.uses <= i then Continued(i + {x}) else Bad
  {
    TwoRuns(f, Assign(x, e), Continue, d, i, o, k);
    if e.uses <= i {
      assert Runs(f, Assign(x, e), d, i, Fell(i + {x}), k);
    } else {
      assert Runs(f, Assign(x, e), d, i, Bad, k);
    }
  }

  lemma {:induction false} RetryLoopTurns(f: Fn, p: Expr, x: Slot, e: Expr, r: Expr, c: Expr, d: nat, i: Slots, o: Outcome, k: nat)
    requires e.flows + p.uses + e.uses + r.uses <= i && c.uses <= i + {x}
    requires RunsDo(f, RetryLoop(p, x, e, r, c), d, i, o, k)
    ensures o != Bad
    decreases k
  {
    var s := RetryLoop(p, x, e, r, c);
    var o1 :| Runs(f, s.loop, d, i, o1, k) &&
      match o1
      case Fell(j) => if !(s.c.uses <= j) then o == Bad else o == Fell(j) || (k > 0 && RunsDo(f, s, d, j, o, k - 1))
      case Continued(j) => if !(s.c.uses <= j) then o == Bad else o == Fell(j) || (k > 0 && RunsDo(f, s, d, j, o, k - 1))
      case Broke(j) => o == Fell(j)
      case _ => o == o1;
    RetryRuns(f, p, x, e, r, d, i, o1, k);
    if o == Bad { RetryLoopTurns(f, p, x, e, r, c, d, i + {x}, o, k - 1); }
  }

  lemma RetryLoopFails(f: Fn, p: Expr, x: Slot, e: Expr, r: Expr, c: Expr, d: nat, i: Slots)
    requires e.flows <= i && !(p.uses + e.uses + r.uses <= i && c.uses <= i + {x})
    ensures RunsDo(f, RetryLoop(p, x, e, r, c), d, i, Bad, 0)
  {
    var s := RetryLoop(p, x, e, r, c);
    if p.uses + e.uses + r.uses <= i {
      RetryRuns(f, p, x, e, r, d, i, Continued(i + {x}), 0);
      assert Runs(f, s.loop, d, i, Continued(i + {x}), 0);
    } else {
      RetryRuns(f, p, x, e, r, d, i, Bad, 0);
      assert Runs(f, s.loop, d, i, Bad, 0);
    }
  }

  /**
   A `do` loop whose condition only a `continue` reaches.  Runs are clean exactly when
   what the condition checks is assigned at the jump; the walk passes only when it was
   assigned before the body already.
   */
  lemma DoLeftoverExact(f: Fn, p: Expr, x: Slot, e: Expr, r: Expr, c: Expr, ck: Ck)
    requires Ready(ck) && e.flows <= ck.sure
    ensures var s := RetryLoop(p, x, e, r, c);
            && (Walk(f, s, ck).diags == {} <==> p.uses + e.uses + r.uses + c.uses <= ck.sure)
            && (CleanFrom(f, s, ck) <==> p.uses + e.uses + r.uses <= ck.sure && c.uses <= ck.sure + {x})
  {
    var s := RetryLoop(p, x, e, r, c);
    RetryLoopPasses(f, p, x, e, r, c, ck);
    if p.uses + e.uses + r.uses <= ck.sure && c.uses <= ck.sure + {x} {
      forall i, o, k | ck.sure <= i && Runs(f, s, ck.branchDepth, i, o, k)
        ensures o != Bad
      {
        RetryLoopTurns(f, p, x, e, r, c, ck.branchDepth, i, o, k);
      }
    } else {
      RetryLoopFails(f, p, x, e, r, c, ck.branchDepth, ck.sure);
      assert Runs(f, s, ck.branchDepth, ck.sure, Bad, 0);
    }
  }
}
