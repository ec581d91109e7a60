/** Encrypted branches: the write log, and what an arm may make assigned. */
module DefiniteBranches {
  import opened Wrappers
  import opened DefiniteAssignment
  import opened DefiniteFrames

  /** Each declaration is recorded at the branch depth it stands at. */
  predicate DepthsOk(f: Fn, s: Stmt, d: nat)
    decreases s
  {
    match s
    case Decl(x, _) => DepthOf(f, x) == d
    case DeclTuple(xs, _) => forall x | x in DeclaredFrom(xs, 0) :: DepthOf(f, x) == d
    case Block(b) => DepthsAllOk(f, b, d)
    case If(_, t, e) => DepthsOk(f, t, d) && (e.Some? ==> DepthsOk(f, e.value, d))
    case EncryptedIf(_, t, e) => DepthsOk(f, t, d + 1) && (e.Some? ==> DepthsOk(f, e.value, d + 1))
    case While(_, b) => DepthsOk(f, b, d)
    case DoWhile(b, _) => DepthsOk(f, b, d)
    case For(i, _, _, b) => (i.Some? ==> DepthsOk(f, i.value, d)) && DepthsOk(f, b, d)
    case Try(_, cs) => DepthsClausesOk(f, cs, d)
    case _ => true
  }

  predicate DepthsAllOk(f: Fn, ss: seq<Stmt>, d: nat)
    decreases ss
  {
    ss == [] || (DepthsOk(f, ss[0], d) && DepthsAllOk(f, ss[1..], d))
  }

  predicate DepthsClausesOk(f: Fn, cs: seq<Clause>, d: nat)
    decreases cs
  {
    cs == [] || ((forall x | x in cs[0].params :: DepthOf(f, x) == d) && DepthsAllOk(f, cs[0].body, d) && DepthsClausesOk(f, cs[1..], d))
  }

  /** The slots from outside the branch that a statement made assigned are logged. */
  ghost predicate Risen(f: Fn, a: Ck, b: Ck) {
    forall x | x in b.sure && x !in a.sure && DepthOf(f, x) < a.branchDepth :: x in TopSlots(b.branchWrites)
  }

  ghost predicate LogOuter(f: Fn, ck: Ck) {
    forall x | x in TopSlots(ck.branchWrites) :: DepthOf(f, x) < ck.branchDepth
  }

  /** No jump is recorded inside a branch, and the log holds only slots that outlive it. */
  ghost predicate Quiet(f: Fn, a: Ck, b: Ck) {
    && Frame(a, b) && Risen(f, a, b)
    && b.breaks == a.breaks && b.continues == a.continues
    && (LogOuter(f, a) ==> LogOuter(f, b))
  }

  lemma QuietTrans(f: Fn, a: Ck, b: Ck, c: Ck)
    requires Quiet(f, a, b) && Quiet(f, b, c)
    ensures Quiet(f, a, c)
  {
    FrameTrans(a, b, c);
  }

  /** A step that neither assigns nor logs anything. */
  lemma QuietStill(f: Fn, a: Ck, b: Ck)
    requires Frame(a, b) && b.sure <= a.sure && b.branchWrites == a.branchWrites && b.breaks == a.breaks && b.continues == a.continues
    ensures Quiet(f, a, b)
  {
  }

  lemma MeetIn(states: seq<Slots>, x: Slot)
    requires states != [] && x in Meet(states)
    ensures forall st | st in states :: x in st
    decreases states
  {
    if |states| > 1 {
      MeetIn(states[1..], x);
      assert states == [states[0]] + states[1..];
    } else {
      assert states == [states[0]];
    }
  }

  lemma {:induction false} QuietWrite(f: Fn, s: Stmt, ck: Ck)
    requires IsWrite(s) && InBranch(ck) && ck.branchWrites != [] && DepthsOk(f, s, ck.branchDepth)
    ensures Quiet(f, ck, Walk(f, s, ck))
  {
    WriteFrame(f, s, ck);
    match s
    case Decl(x, init) => if init.Some? { TypeFrame(f, init.value, ck); }
    case DeclTuple(xs, parts) =>
      TypeAllFrame(f, parts, ck);
      DeclareAllFrame(xs, parts, ck.sure, 0, TypeAll(f, parts, ck));
    case Assign(x, e) =>
      TypeFrame(f, e, ck);
      PutFrame(f, x, !(e.flows <= ck.sure), TypeExpr(f, e, ck));
      AddSlotsFrame(ck.branchWrites, Outer(f, ck, {x}));
    case TupleAssign(targets, parts) =>
      TypeAllFrame(f, parts, ck);
      PutAllFrame(f, targets, parts, ck.sure, 0, TypeAll(f, parts, ck));
    case Compound(x, e) =>
      CompoundFrame(f, x, e, ck);
      AddSlotsFrame(ck.branchWrites, Outer(f, ck, {x}));
  }

  lemma QuietPlain(f: Fn, s: Stmt, ck: Ck)
    requires !IsWrite(s) && !IsFlow(s) && InBranch(ck)
    ensures Quiet(f, ck, Walk(f, s, ck))
  {
    PlainFrame(f, s, ck);
    PlainWrites(f, s, ck);
  }

  lemma PlainWrites(f: Fn, s: Stmt, ck: Ck)
    requires !IsWrite(s) && !IsFlow(s)
    ensures Walk(f, s, ck).branchWrites == ck.branchWrites
    ensures InBranch(ck) ==> Walk(f, s, ck).breaks == ck.breaks && Walk(f, s, ck).continues == ck.continues
  {
    match s
    case Store(e) => CheckedFrame(f, e, ck);
    case ExprStmt(e) => TypeFrame(f, e, ck);
    case Return(v) => if v.Some? { CheckedFrame(f, v.value, Reject(ck)); }
    case Revert(e) => TypeFrame(f, e, Reject(ck));
    case Halt(e) => TypeFrame(f, e, Reject(ck));
    case Emit(e) => TypeFrame(f, e, Reject(ck));
    case _ =>
  }

  /**
   Merge-state invariant.  Inside an encrypted branch a slot from outside it
   becomes assigned only if the branch's write log has it.
   */
  lemma {:induction false} MergeInvariant(f: Fn, s: Stmt, ck: Ck)
    requires InBranch(ck) && ck.branchWrites != [] && DepthsOk(f, s, ck.branchDepth)
    ensures Quiet(f, ck, Walk(f, s, ck))
    decreases s, 3
  {
    if IsWrite(s) {
      QuietWrite(f, s, ck);
    } else if IsFlow(s) {
      QuietFlow(f, s, ck);
    } else {
      QuietPlain(f, s, ck);
    }
  }

  lemma {:induction false} QuietFlow(f: Fn, s: Stmt, ck: Ck)
    requires IsFlow(s) && InBranch(ck) && ck.branchWrites != [] && DepthsOk(f, s, ck.branchDepth)
    ensures Quiet(f, ck, Walk(f, s, ck))
    decreases s, 2
  {
    match s
    case Block(b) => QuietBlock(f, b, ck);
    case If(_, _, _) => QuietIf(f, s, ck);
    case EncryptedIf(_, _, _) => QuietEncrypted(f, s, ck);
    case While(_, _) => QuietWhile(f, s, ck);
    case DoWhile(_, _) => QuietDo(f, s, ck);
    case For(_, _, _, _) => QuietFor(f, s, ck);
    case Try(_, _) => QuietTry(f, s, ck);
  }

  lemma {:induction false} QuietBlock(f: Fn, ss: seq<Stmt>, ck: Ck)
    requires InBranch(ck) && ck.branchWrites != [] && DepthsAllOk(f, ss, ck.branchDepth)
    ensures Quiet(f, ck, WalkBlock(f, ss, ck))
    decreases ss, 0
  {
    if ss != [] && !ck.terminated {
      MergeInvariant(f, ss[0], ck);
      QuietBlock(f, ss[1..], Walk(f, ss[0], ck));
      QuietTrans(f, ck, Walk(f, ss[0], ck), WalkBlock(f, ss, ck));
    }
  }

  lemma {:induction false} QuietIf(f: Fn, s: Stmt, ck: Ck)
    requires s.If? && InBranch(ck) && ck.branchWrites != [] && DepthsOk(f, s, ck.branchDepth)
    ensures Quiet(f, ck, Walk(f, s, ck))
    decreases s, 1
  {
    var c := TypeExpr(f, s.c, ck);
    TypeFrame(f, s.c, ck);
    QuietStill(f, ck, c);
    QuietArms(f, s, c);
    QuietTrans(f, ck, c, WalkIf(f, s, c));
  }

  lemma {:induction false} QuietArms(f: Fn, s: Stmt, c: Ck)
    requires s.If? && InBranch(c) && c.branchWrites != [] && DepthsOk(f, s, c.branchDepth)
    ensures Quiet(f, c, WalkIf(f, s, c))
    decreases s, 0
  {
    var ck := Reject(c);
    var t := Walk(f, s.thn, ck);
    MergeInvariant(f, s.thn, ck);
    var c2 := t.(sure := ck.sure, terminated := ck.terminated);
    var e := if s.els.Some? then Walk(f, s.els.value, c2) else c2;
    if s.els.Some? { MergeInvariant(f, s.els.value, c2); }
    QuietStill(f, c, ck);
    JoinedArms(f, ck, t, c2, e, s.els.Some? && e.terminated);
    QuietTrans(f, c, ck, WalkIf(f, s, c));
  }

  /** The arms of a plain `if` are joined when they fall through. */
  lemma JoinedArms(f: Fn, ck: Ck, t: Ck, c2: Ck, e: Ck, elsTerminated: bool)
    requires Quiet(f, ck, t) && c2 == t.(sure := ck.sure, terminated := ck.terminated) && Quiet(f, c2, e)
    ensures var candidates := FellState(t) + (if elsTerminated then [] else [e.sure]);
            Quiet(f, ck, JoinAll(candidates, e).(terminated := ck.terminated || (t.terminated && elsTerminated)))
  {
    var candidates := FellState(t) + (if elsTerminated then [] else [e.sure]);
    var r := JoinAll(candidates, e).(terminated := ck.terminated || (t.terminated && elsTerminated));
    FrameTrans(ck, t, c2);
    FrameTrans(ck, c2, e);
    forall x | x in r.sure && x !in ck.sure && DepthOf(f, x) < ck.branchDepth
      ensures x in TopSlots(r.branchWrites)
    {
      if candidates != [] {
        MeetIn(candidates, x);
        assert candidates[0] in candidates;
      }
    }
  }

  lemma {:induction false} QuietEncrypted(f: Fn, s: Stmt, ck: Ck)
    requires s.EncryptedIf? && InBranch(ck) && ck.branchWrites != [] && DepthsOk(f, s, ck.branchDepth)
    ensures Quiet(f, ck, Walk(f, s, ck))
    decreases s, 1
  {
    var c := TypeChecked(f, s.c, ck);
    CheckedFrame(f, s.c, ck);
    QuietStill(f, ck, c);
    QuietMerge(f, s, c);
    QuietTrans(f, ck, c, WalkEncryptedIf(f, s, c));
  }

  lemma {:induction false} QuietMerge(f: Fn, s: Stmt, ck: Ck)
    requires s.EncryptedIf? && InBranch(ck) && ck.branchWrites != [] && DepthsOk(f, s, ck.branchDepth)
    ensures Quiet(f, ck, WalkEncryptedIf(f, s, ck))
    decreases s, 0
  {
    var o := OpenBranch(ck);
    var t := Walk(f, s.thn, o);
    MergeInvariant(f, s.thn, o);
    var c2 := NextArm(ck.sure, t);
    var e := if s.els.Some? then Walk(f, s.els.value, c2) else c2;
    if s.els.Some? { MergeInvariant(f, s.els.value, c2); }
    QuietClose(f, ck, t, e, s.els.None?);
  }

  lemma QuietClose(f: Fn, ck: Ck, t: Ck, e: Ck, oneArm: bool)
    requires InBranch(ck) && ck.branchWrites != []
    requires Quiet(f, OpenBranch(ck), t) && Quiet(f, NextArm(ck.sure, t), e)
    ensures Quiet(f, ck, CloseBranch(f, ck.sure, ck.terminated, oneArm, t, e))
  {
    ClosedFrame(f, ck, t, e, oneArm);
    assert Pop(NextArm(ck.sure, t).branchWrites) == ck.branchWrites by {
      assert Pop(OpenBranch(ck).branchWrites) == ck.branchWrites;
    }
    AddSlotsFrame(ck.branchWrites, Outer(f, ck, TopSlots(t.branchWrites) + TopSlots(e.branchWrites)));
  }

  lemma {:induction false} QuietWhile(f: Fn, s: Stmt, ck0: Ck)
    requires s.While? && InBranch(ck0) && ck0.branchWrites != [] && DepthsOk(f, s, ck0.branchDepth)
    ensures Quiet(f, ck0, Walk(f, s, ck0))
    decreases s, 1
  {
    var ck := TypeExpr(f, s.c, Reject(ck0));
    TypeFrame(f, s.c, Reject(ck0));
    QuietStill(f, ck0, ck);
    QuietWhileLoop(f, s, ck);
    QuietTrans(f, ck0, ck, WalkWhile(f, s, ck));
  }

  lemma {:induction false} QuietWhileLoop(f: Fn, s: Stmt, ck: Ck)
    requires s.While? && InBranch(ck) && ck.branchWrites != [] && DepthsOk(f, s, ck.branchDepth)
    ensures Quiet(f, ck, WalkWhile(f, s, ck))
    decreases s, 0
  {
    var b := Walk(f, s.loop, OpenLoop(ck));
    MergeInvariant(f, s.loop, OpenLoop(ck));
    NoRise(f, ck, b, [ck.sure] + FellState(b) + TopStates(b.breaks) + TopStates(b.continues));
  }

  /** With the state before the loop among the candidates nothing rises. */
  lemma NoRise(f: Fn, ck: Ck, b: Ck, candidates: seq<Slots>)
    requires Quiet(f, OpenLoop(ck), b) && ck.sure in candidates
    ensures Quiet(f, ck, JoinAll(candidates, CloseLoop(b)).(terminated := ck.terminated))
  {
    LoopFrame(ck, b);
    forall x | x in Meet(candidates)
      ensures x in ck.sure
    {
      MeetIn(candidates, x);
    }
  }

  lemma {:induction false} QuietDo(f: Fn, s: Stmt, ck0: Ck)
    requires s.DoWhile? && InBranch(ck0) && ck0.branchWrites != [] && DepthsOk(f, s, ck0.branchDepth)
    ensures Quiet(f, ck0, Walk(f, s, ck0))
    decreases s, 1
  {
    QuietStill(f, ck0, Reject(ck0));
    QuietDoLoop(f, s, Reject(ck0));
    QuietTrans(f, ck0, Reject(ck0), WalkDo(f, s, Reject(ck0)));
  }

  lemma {:induction false} QuietDoLoop(f: Fn, s: Stmt, ck: Ck)
    requires s.DoWhile? && InBranch(ck) && ck.branchWrites != [] && DepthsOk(f, s, ck.branchDepth)
    ensures Quiet(f, ck, WalkDo(f, s, ck))
    decreases s, 0
  {
    var b := Walk(f, s.loop, OpenLoop(ck));
    MergeInvariant(f, s.loop, OpenLoop(ck));
    DoFrame(f, s, ck);
    LoopFrame(ck, b);
    TypeFrame(f, s.c, CloseLoop(b));
    assert TopStates(b.breaks) == [] && TopStates(b.continues) == [];
    assert FellState(b) + TopStates(b.breaks) + TopStates(b.continues) == FellState(b);
  }

  lemma {:induction false} QuietFor(f: Fn, s: Stmt, ck0: Ck)
    requires s.For? && InBranch(ck0) && ck0.branchWrites != [] && DepthsOk(f, s, ck0.branchDepth)
    ensures Quiet(f, ck0, Walk(f, s, ck0))
    decreases s, 1
  {
    var c0 := Reject(ck0);
    QuietStill(f, ck0, c0);
    var c1 := if s.first.Some? then Walk(f, s.first.value, c0) else c0;
    if s.first.Some? { MergeInvariant(f, s.first.value, c0); } else { QuietStill(f, c0, c0); }
    var ck := ForEntry(f, s, ck0);
    if s.cond.Some? { TypeFrame(f, s.cond.value, c1); }
    QuietStill(f, c1, ck);
    QuietTrans(f, ck0, c0, c1);
    QuietTrans(f, ck0, c1, ck);
    QuietForLoop(f, s, ck);
    QuietTrans(f, ck0, ck, WalkFor(f, s, ck));
  }

  lemma {:induction false} QuietForLoop(f: Fn, s: Stmt, ck: Ck)
    requires s.For? && InBranch(ck) && ck.branchWrites != [] && DepthsOk(f, s, ck.branchDepth)
    ensures Quiet(f, ck, WalkFor(f, s, ck))
    decreases s, 0
  {
    var b0 := Walk(f, s.loop, OpenLoop(ck));
    MergeInvariant(f, s.loop, OpenLoop(ck));
    NextFrame(f, s.next, b0);
    var b := TypeNext(f, s.next, b0);
    QuietStill(f, b0, b);
    QuietTrans(f, OpenLoop(ck), b0, b);
    NoRise(f, ck, b, [ck.sure] + FellState(b) + TopStates(b.breaks) + TopStates(b.continues));
  }

  lemma {:induction false} QuietTry(f: Fn, s: Stmt, ck0: Ck)
    requires s.Try? && InBranch(ck0) && ck0.branchWrites != [] && DepthsOk(f, s, ck0.branchDepth)
    ensures Quiet(f, ck0, Walk(f, s, ck0))
    decreases s, 1
  {
    TypeFrame(f, s.e, Reject(ck0));
    var ck := TypeExpr(f, s.e, Reject(ck0));
    QuietClauses(f, s.clauses, ck, ck);
    var r := WalkClauses(f, s.clauses, ck.sure, ck.terminated, ck);
    QuietStill(f, ck0, ck);
    forall x | x in Walk(f, s, ck0).sure && x !in ck.sure && DepthOf(f, x) < ck.branchDepth
      ensures x in TopSlots(r.ck.branchWrites)
    {
      if r.outs != [] {
        MeetIn(r.outs, x);
        assert r.outs[0] in r.outs;
      }
    }
    QuietTrans(f, ck0, ck, Walk(f, s, ck0));
  }

  lemma {:induction false} QuietClauses(f: Fn, clauses: seq<Clause>, base: Ck, ck: Ck)
    requires InBranch(ck) && ck.branchWrites != [] && DepthsClausesOk(f, clauses, ck.branchDepth)
    requires Quiet(f, base, ck)
    ensures var r := WalkClauses(f, clauses, base.sure, base.terminated, ck);
            && Quiet(f, base, r.ck)
            && (forall st, x | st in r.outs && x in st && x !in base.sure && DepthOf(f, x) < base.branchDepth :: x in TopSlots(r.ck.branchWrites))
    decreases clauses, 0
  {
    if clauses != [] {
      var c1 := ck.(sure := base.sure + clauses[0].params, terminated := base.terminated);
      QuietBlock(f, clauses[0].body, c1);
      var r := WalkBlock(f, clauses[0].body, c1);
      FrameTrans(base, ck, c1);
      assert Quiet(f, base, c1);
      QuietTrans(f, base, c1, r);
      QuietClauses(f, clauses[1..], base, r);
      var rest := WalkClauses(f, clauses[1..], base.sure, base.terminated, r);
      ClausesFrame(f, clauses[1..], base.sure, base.terminated, r);
    }
  }

  // ---- the forced case -------------------------------------------------------------

  /** A written slot whose merge the walk forces to be assigned. */
  ghost predicate Forced(x: Slot, snap: Slots, t: Ck, e: Ck) {
    var tw, ew := TopSlots(t.branchWrites), TopSlots(e.branchWrites);
    x in tw + ew && !(x in tw && x in ew) && x !in snap
  }

  /** The states after the two arms of an encrypted `if`. */
  ghost predicate Arms(f: Fn, s: Stmt, ck: Ck, t: Ck, e: Ck)
    requires s.EncryptedIf?
  {
    && t == Walk(f, s.thn, OpenBranch(ck))
    && e == if s.els.Some? then Walk(f, s.els.value, NextArm(ck.sure, t)) else NextArm(ck.sure, t)
  }

  lemma ArmsClose(f: Fn, s: Stmt, ck: Ck, t: Ck, e: Ck)
    requires s.EncryptedIf? && Arms(f, s, ck, t, e)
    ensures WalkEncryptedIf(f, s, ck) == CloseBranch(f, ck.sure, ck.terminated, s.els.None?, t, e)
  {
  }

  lemma ArmsRise(f: Fn, s: Stmt, ck: Ck, t: Ck, e: Ck)
    requires s.EncryptedIf? && DepthsOk(f, s, ck.branchDepth) && Arms(f, s, ck, t, e)
    ensures Quiet(f, OpenBranch(ck), t) && Quiet(f, NextArm(ck.sure, t), e)
  {
    MergeInvariant(f, s.thn, OpenBranch(ck));
    if s.els.Some? { MergeInvariant(f, s.els.value, NextArm(ck.sure, t)); }
  }

  /** The forced case is reached only after a diagnostic. */
  lemma ForcedIsFlagged(f: Fn, s: Stmt, ck: Ck, t: Ck, e: Ck, x: Slot)
    requires s.EncryptedIf? && DepthsOk(f, s, ck.branchDepth) && Arms(f, s, ck, t, e)
    requires Forced(x, ck.sure, t, e)
    ensures Uninit(x) in WalkEncryptedIf(f, s, ck).diags
  {
    ArmsRise(f, s, ck, t, e);
    ArmsClose(f, s, ck, t, e);
    NeedsItsPre(f, ck, t, e, s.els.None?, x);
  }

  lemma NeedsItsPre(f: Fn, ck: Ck, t: Ck, e: Ck, oneArm: bool, x: Slot)
    requires Quiet(f, OpenBranch(ck), t) && Quiet(f, NextArm(ck.sure, t), e) && Forced(x, ck.sure, t, e)
    ensures Uninit(x) in CloseBranch(f, ck.sure, ck.terminated, oneArm, t, e).diags
  {
    assert TopSlots(NextArm(ck.sure, t).branchWrites) == {};
    assert x in NeedsPre(oneArm, t, e) - ck.sure;
  }

  /** In walks without a diagnostic the state of a written slot is the join of the arms. */
  lemma WrittenIsJoin(f: Fn, s: Stmt, ck: Ck, t: Ck, e: Ck, x: Slot)
    requires s.EncryptedIf? && DepthsOk(f, s, ck.branchDepth) && Arms(f, s, ck, t, e) && WalkEncryptedIf(f, s, ck).diags == {}
    ensures x in TopSlots(t.branchWrites) + TopSlots(e.branchWrites) ==>
              (x in WalkEncryptedIf(f, s, ck).sure <==> x in t.sure && x in e.sure)
  {
    ArmsClose(f, s, ck, t, e);
    if Forced(x, ck.sure, t, e) { ForcedIsFlagged(f, s, ck, t, e, x); }
    MergedAt(ck.sure, t, e, x);
  }

  lemma MergedAt(snap: Slots, t: Ck, e: Ck, x: Slot)
    ensures !Forced(x, snap, t, e) && x in TopSlots(t.branchWrites) + TopSlots(e.branchWrites) ==>
              (x in Merged(snap, t, e) <==> x in t.sure && x in e.sure)
  {
  }
}
