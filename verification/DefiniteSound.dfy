/** The definite-assignment walk is sound over all runs. */
module DefiniteSound {
  import opened Wrappers
  import opened DefiniteAssignment
  import opened DefiniteFrames
  import opened DefiniteBranches
  import opened DefiniteRuns

  predicate DistinctTargets(targets: seq<Target>) {
    forall j, k | 0 <= j < k < |targets| && targets[j].Local? && targets[k].Local? :: targets[j].x != targets[k].x
  }

  /** No loop body leaves a slot lower than it was when the body began. */
  predicate NotLower(entry: Slots, b: Ck) {
    (!b.terminated ==> entry <= b.sure) && forall st | st in TopStates(b.continues) :: entry <= st
  }

  predicate AssignedAtContinues(uses: Slots, b: Ck) {
    forall st | st in TopStates(b.continues) :: uses <= st
  }

  /**
   What the single pass relies on, read off the walk itself: tuple targets are
   distinct, an unpaired declaration copies nothing unassigned, and loops lower no
   slot and check nothing after `continue` that is not assigned there.
   */
  predicate Disciplined(f: Fn, s: Stmt, ck: Ck)
    decreases s, 1
  {
    match s
    case DeclTuple(xs, parts) => DistinctTargets(AsTargets(xs)) && (|parts| == |xs| || UnionFlows(parts) <= ck.sure)
    case TupleAssign(targets, _) => DistinctTargets(targets)
    case Block(b) => DisciplinedBlock(f, b, ck)
    case If(c, t, e) =>
      var c1 := Reject(TypeExpr(f, c, ck));
      var r := Walk(f, t, c1);
      Disciplined(f, t, c1) && (e.Some? ==> Disciplined(f, e.value, r.(sure := c1.sure, terminated := c1.terminated)))
    case EncryptedIf(c, t, e) =>
      var c1 := TypeChecked(f, c, ck);
      var r := Walk(f, t, OpenBranch(c1));
      Disciplined(f, t, OpenBranch(c1)) && (e.Some? ==> Disciplined(f, e.value, NextArm(c1.sure, r)))
    case While(c, b) =>
      var c1 := TypeExpr(f, c, Reject(ck));
      Disciplined(f, b, OpenLoop(c1)) && NotLower(c1.sure, Walk(f, b, OpenLoop(c1)))
    case DoWhile(b, c) =>
      var r := Walk(f, b, OpenLoop(Reject(ck)));
      Disciplined(f, b, OpenLoop(Reject(ck))) && NotLower(ck.sure, r) && AssignedAtContinues(c.uses, r)
    case For(first, cond, next, b) =>
      var c1 := ForEntry(f, s, ck);
      var r := Walk(f, b, OpenLoop(c1));
      && (first.Some? ==> Disciplined(f, first.value, Reject(ck)))
      && Disciplined(f, b, OpenLoop(c1)) && NotLower(c1.sure, r)
      && (!r.terminated ==> AssignedAtContinues(UsesOf(next), r))
    case Try(e, clauses) =>
      var c1 := TypeExpr(f, e, Reject(ck));
      DisciplinedClauses(f, clauses, c1.sure, c1.terminated, c1)
    case _ => true
  }

  predicate DisciplinedBlock(f: Fn, ss: seq<Stmt>, ck: Ck)
    decreases ss, 0
  {
    ss == [] || ck.terminated || (Disciplined(f, ss[0], ck) && DisciplinedBlock(f, ss[1..], Walk(f, ss[0], ck)))
  }

  predicate DisciplinedClauses(f: Fn, clauses: seq<Clause>, snap: Slots, terminated: bool, ck: Ck)
    decreases clauses, 0
  {
    clauses == []
    || (var c1 := ck.(sure := snap + clauses[0].params, terminated := terminated);
        DisciplinedBlock(f, clauses[0].body, c1) && DisciplinedClauses(f, clauses[1..], snap, terminated, WalkBlock(f, clauses[0].body, c1)))
  }

  // ---- the log of a clean branch -------------------------------------------------------

  ghost predicate Logged(f: Fn, s: Stmt, a: Ck, b: Ck) {
    !b.terminated && TopSlots(b.branchWrites) == TopSlots(a.branchWrites) + MergedTargets(f, s, a.branchDepth)
  }

  lemma RejectedIn(f: Fn, s: Stmt, ck: Ck)
    requires InBranch(ck) && (s.If? || s.While? || s.DoWhile? || s.For? || s.Try? || s.Break? || s.Continue? || s.Return? || s.Revert? || s.Halt? || s.Emit? || s.Assembly?)
    ensures Walk(f, s, ck).diags != {}
  {
    if s.If? {
      var c := TypeExpr(f, s.c, ck);
      TypeFrame(f, s.c, ck);
      IfFrame(f, s, c);
      RejectedArms(f, s, c);
    } else {
      RejectedElse(f, s, ck);
    }
  }

  lemma RejectedArms(f: Fn, s: Stmt, c: Ck)
    requires s.If? && InBranch(c)
    ensures Rejected in WalkIf(f, s, c).diags
  {
    var ck := Reject(c);
    var t := Walk(f, s.thn, ck);
    WalkFrame(f, s.thn, ck);
    var c2 := t.(sure := ck.sure, terminated := ck.terminated);
    if s.els.Some? { WalkFrame(f, s.els.value, c2); }
  }

  lemma RejectedElse(f: Fn, s: Stmt, ck: Ck)
    requires InBranch(ck) && (s.While? || s.DoWhile? || s.For? || s.Try? || s.Break? || s.Continue? || s.Return? || s.Revert? || s.Halt? || s.Emit? || s.Assembly?)
    ensures Rejected in Walk(f, s, ck).diags
  {
    if s.While? || s.DoWhile? || s.For? || s.Try? {
      RejectedNested(f, s, ck);
    } else {
      RejectedPlain(f, s, ck);
    }
  }

  lemma RejectedPlain(f: Fn, s: Stmt, ck: Ck)
    requires InBranch(ck) && (s.Break? || s.Continue? || s.Return? || s.Revert? || s.Halt? || s.Emit? || s.Assembly?)
    ensures Rejected in Walk(f, s, ck).diags
  {
    var c := Reject(ck);
    match s
    case Return(v) => if v.Some? { CheckedFrame(f, v.value, c); }
    case Revert(e) => TypeFrame(f, e, c);
    case Halt(e) => TypeFrame(f, e, c);
    case Emit(e) => TypeFrame(f, e, c);
    case _ =>
  }

  lemma RejectedNested(f: Fn, s: Stmt, ck: Ck)
    requires InBranch(ck) && (s.While? || s.DoWhile? || s.For? || s.Try?)
    ensures Rejected in Walk(f, s, ck).diags
  {
    var c := Reject(ck);
    match s
    case While(e, _) =>
      TypeFrame(f, e, c);
      WhileFrame(f, s, TypeExpr(f, e, c));
    case DoWhile(_, _) => DoFrame(f, s, c);
    case For(_, _, _, _) => RejectedFor(f, s, ck);
    case Try(e, clauses) =>
      TypeFrame(f, e, c);
      var c1 := TypeExpr(f, e, c);
      ClausesFrame(f, clauses, c1.sure, c1.terminated, c1);
  }

  lemma RejectedFor(f: Fn, s: Stmt, ck: Ck)
    requires s.For? && InBranch(ck)
    ensures Rejected in Walk(f, s, ck).diags
  {
    var c0 := Reject(ck);
    if s.first.Some? { WalkFrame(f, s.first.value, c0); }
    var c1 := if s.first.Some? then Walk(f, s.first.value, c0) else c0;
    if s.cond.Some? { TypeFrame(f, s.cond.value, c1); }
    ForFrame(f, s, ForEntry(f, s, ck));
  }

  lemma LoggedWrite(f: Fn, s: Stmt, ck: Ck)
    requires IsWrite(s) && InBranch(ck) && ck.branchWrites != [] && !ck.terminated
    ensures Logged(f, s, ck, Walk(f, s, ck))
  {
    WriteFrame(f, s, ck);
    match s
    case Decl(x, init) => if init.Some? { TypeFrame(f, init.value, ck); }
    case DeclTuple(xs, parts) =>
      TypeAllFrame(f, parts, ck);
      DeclareAllFrame(xs, parts, ck.sure, 0, TypeAll(f, parts, ck));
    case Assign(x, e) =>
      TypeFrame(f, e, ck);
      PutFrame(f, x, !(e.flows <= ck.sure), TypeExpr(f, e, ck));
      AddSlotsFrame(ck.branchWrites, Outer(f, ck, {x}));
    case TupleAssign(targets, parts) =>
      TypeAllFrame(f, parts, ck);
      PutAllFrame(f, targets, parts, ck.sure, 0, TypeAll(f, parts, ck));
    case Compound(x, e) =>
      CompoundFrame(f, x, e, ck);
      AddSlotsFrame(ck.branchWrites, Outer(f, ck, {x}));
  }

  /** A clean branch logs exactly the targets that outlive it, and falls through. */
  lemma {:induction false} BranchLog(f: Fn, s: Stmt, ck: Ck)
    requires InBranch(ck) && ck.branchWrites != [] && !ck.terminated && Walk(f, s, ck).diags == {}
    ensures Logged(f, s, ck, Walk(f, s, ck))
    decreases s, 2
  {
    if IsWrite(s) {
      LoggedWrite(f, s, ck);
    } else if s.Block? {
      BlockLog(f, s.body, ck);
      assert MergedTargets(f, s, ck.branchDepth) == set x | x in TargetsAll(s.body) && DepthOf(f, x) < ck.branchDepth;
    } else if s.EncryptedIf? {
      CheckedFrame(f, s.c, ck);
      EncryptedFrame(f, s, TypeChecked(f, s.c, ck));
      EncryptedLog(f, s, TypeChecked(f, s.c, ck));
    } else if s.Store? {
      CheckedFrame(f, s.e, ck);
    } else if s.ExprStmt? {
      TypeFrame(f, s.e, ck);
    } else {
      RejectedIn(f, s, ck);
    }
  }

  lemma {:induction false} BlockLog(f: Fn, ss: seq<Stmt>, ck: Ck)
    requires InBranch(ck) && ck.branchWrites != [] && !ck.terminated && WalkBlock(f, ss, ck).diags == {}
    ensures !WalkBlock(f, ss, ck).terminated
    ensures TopSlots(WalkBlock(f, ss, ck).branchWrites)
            == TopSlots(ck.branchWrites) + set x | x in TargetsAll(ss) && DepthOf(f, x) < ck.branchDepth
    decreases ss, 0
  {
    if ss != [] {
      var r := Walk(f, ss[0], ck);
      WalkFrame(f, ss[0], ck);
      BlockFrame(f, ss[1..], r);
      BranchLog(f, ss[0], ck);
      BlockLog(f, ss[1..], r);
    }
  }

  lemma {:induction false} EncryptedLog(f: Fn, s: Stmt, ck: Ck)
    requires s.EncryptedIf? && InBranch(ck) && ck.branchWrites != [] && !ck.terminated && WalkEncryptedIf(f, s, ck).diags == {}
    ensures Logged(f, s, ck, WalkEncryptedIf(f, s, ck))
    decreases s, 0
  {
    var t := Walk(f, s.thn, OpenBranch(ck));
    var c2 := NextArm(ck.sure, t);
    var e := if s.els.Some? then Walk(f, s.els.value, c2) else c2;
    ArmsLog(f, s, ck);
    ClosedLog(f, s, ck, t, e);
  }

  lemma ClosedLog(f: Fn, s: Stmt, ck: Ck, t: Ck, e: Ck)
    requires s.EncryptedIf? && InBranch(ck) && ck.branchWrites != [] && !ck.terminated
    requires Frame(OpenBranch(ck), t) && Frame(NextArm(ck.sure, t), e)
    requires TopSlots(t.branchWrites) == MergedTargets(f, s.thn, ck.branchDepth + 1)
    requires TopSlots(e.branchWrites) == (if s.els.Some? then MergedTargets(f, s.els.value, ck.branchDepth + 1) else {})
    ensures Logged(f, s, ck, CloseBranch(f, ck.sure, ck.terminated, s.els.None?, t, e))
  {
    assert Pop(OpenBranch(ck).branchWrites) == ck.branchWrites;
    assert Pop(NextArm(ck.sure, t).branchWrites) == ck.branchWrites;
    var ws := TopSlots(t.branchWrites) + TopSlots(e.branchWrites);
    assert Outer(f, ck, ws) == MergedTargets(f, s, ck.branchDepth);
    AddSlotsFrame(ck.branchWrites, Outer(f, ck, ws));
  }

  /** The write sets of the two arms of an encrypted `if`. */
  lemma {:induction false} ArmsLog(f: Fn, s: Stmt, ck: Ck)
    requires s.EncryptedIf? && !ck.terminated && WalkEncryptedIf(f, s, ck).diags == {}
    ensures var t := Walk(f, s.thn, OpenBranch(ck));
            var c2 := NextArm(ck.sure, t);
            var e := if s.els.Some? then Walk(f, s.els.value, c2) else c2;
            && t.diags == {} && !t.terminated && e.diags == {} && !e.terminated
            && Frame(OpenBranch(ck), t) && Frame(c2, e)
            && TopSlots(t.branchWrites) == MergedTargets(f, s.thn, ck.branchDepth + 1)
            && TopSlots(e.branchWrites) == (if s.els.Some? then MergedTargets(f, s.els.value, ck.branchDepth + 1) else {})
    decreases s, 0, 0
  {
    var t := Walk(f, s.thn, OpenBranch(ck));
    var c2 := NextArm(ck.sure, t);
    WalkFrame(f, s.thn, OpenBranch(ck));
    var e := if s.els.Some? then Walk(f, s.els.value, c2) else c2;
    if s.els.Some? { WalkFrame(f, s.els.value, c2); }
    assert t.diags <= e.diags <= WalkEncryptedIf(f, s, ck).diags;
    BranchLog(f, s.thn, OpenBranch(ck));
    if s.els.Some? { BranchLog(f, s.els.value, c2); }
  }

  // ---- soundness -----------------------------------------------------------------------

  /** A clean walk that the statement starts in a state the run satisfies. */
  ghost predicate Clear(f: Fn, s: Stmt, ck: Ck, i: Slots) {
    && ck.sure <= i && !ck.terminated && Walk(f, s, ck).diags == {} && Disciplined(f, s, ck)
    && DepthsOk(f, s, ck.branchDepth) && (f.named == {} || !HasAssembly(s))
    && (InBranch(ck) ==> ck.branchWrites != [])
  }

  /** The walk accounts for the way a run ended. */
  ghost predicate Covered(ck: Ck, r: Ck, o: Outcome) {
    && o != Bad
    && (o.Fell? ==> !r.terminated && r.sure <= o.init)
    && (o.Broke? ==> !InBranch(ck) && (ck.breaks != [] ==> exists st | st in TopStates(r.breaks) :: st <= o.init))
    && (o.Continued? ==> !InBranch(ck) && (ck.continues != [] ==> exists st | st in TopStates(r.continues) :: st <= o.init))
  }

  lemma MeetBelow(states: seq<Slots>, st: Slots)
    requires st in states
    ensures Meet(states) <= st
  {
    forall x | x in Meet(states)
      ensures x in st
    {
      MeetIn(states, x);
    }
  }

  /** Later steps keep the recorded jumps. */
  lemma CoveredLater(ck: Ck, r: Ck, r2: Ck, o: Outcome)
    requires Covered(ck, r, o) && Frame(r, r2) && !o.Fell?
    ensures Covered(ck, r2, o)
  {
  }

  lemma {:induction false} PutAllSure(f: Fn, targets: seq<Target>, parts: seq<Expr>, before: Slots, k: nat, ck: Ck)
    requires k <= |targets| && DistinctTargets(targets)
    ensures var r := PutAll(f, targets, parts, before, k, ck);
            && (forall x | x in r.sure :: x in ck.sure || x in LocalsFrom(targets, k))
            && (forall m | k <= m < |targets| && targets[m].Local? && targets[m].x in r.sure :: PartFlows(parts, |targets|, m) <= before)
            && (r.diags == {} ==> forall m | k <= m < |targets| && targets[m] == Elsewhere :: PartFlows(parts, |targets|, m) <= before)
            && (forall x | x !in LocalsFrom(targets, k) :: x in r.sure <==> x in ck.sure)
            && ck.diags <= r.diags
    decreases |targets| - k
  {
    if k < |targets| {
      match targets[k]
      case Local(x) =>
        PutFrame(f, x, !(PartFlows(parts, |targets|, k) <= before), ck);
        PutAllSure(f, targets, parts, before, k + 1, Put(f, x, !(PartFlows(parts, |targets|, k) <= before), ck));
        LaterLocals(targets, k);
      case Elsewhere =>
        var flagged := set x | x in PartFlows(parts, |targets|, k) - before :: Uninit(x);
        PutAllSure(f, targets, parts, before, k + 1, ck.(diags := ck.diags + flagged));
        forall x | x in PartFlows(parts, |targets|, k)
          ensures x in before || Uninit(x) in flagged
        {
          assert x !in before ==> x in PartFlows(parts, |targets|, k) - before;
        }
      case Hole => PutAllSure(f, targets, parts, before, k + 1, ck);
    }
  }

  lemma {:induction false} LaterLocals(targets: seq<Target>, k: nat)
    requires k < |targets| && targets[k].Local? && DistinctTargets(targets)
    ensures targets[k].x !in LocalsFrom(targets, k + 1)
  {
    LocalsAre(targets, k + 1);
  }

  lemma {:induction false} LocalsAre(targets: seq<Target>, k: nat)
    requires k <= |targets|
    ensures forall x :: x in LocalsFrom(targets, k) <==> exists m | k <= m < |targets| :: targets[m] == Local(x)
    decreases |targets| - k
  {
    if k < |targets| {
      LocalsAre(targets, k + 1);
    }
  }

  lemma TupleSound(targets: seq<Target>, parts: seq<Expr>, before: Slots, i: Slots, j: Slots, sure: Slots)
    requires before <= i && TupleWrites(targets, parts, i, j)
    requires forall m | 0 <= m < |targets| && targets[m].Local? && targets[m].x in sure :: PartFlows(parts, |targets|, m) <= before
    requires forall x | x !in LocalsFrom(targets, 0) :: x in sure ==> x in before
    ensures sure <= j
  {
    forall x | x in sure
      ensures x in j
    {
      assert !MayDefault(targets, parts, i, x);
    }
  }

  lemma SoundTuple(f: Fn, s: Stmt, ck: Ck, i: Slots, o: Outcome, k: nat)
    requires s.TupleAssign? && Clear(f, s, ck, i) && Runs(f, s, ck.branchDepth, i, o, k)
    ensures Covered(ck, Walk(f, s, ck), o)
  {
    var c := TypeAll(f, s.parts, ck);
    TypeAllFrame(f, s.parts, ck);
    PutAllFrame(f, s.targets, s.parts, ck.sure, 0, c);
    PutAllSure(f, s.targets, s.parts, ck.sure, 0, c);
    if o.Fell? {
      TupleSound(s.targets, s.parts, ck.sure, i, o.init, Walk(f, s, ck).sure);
    }
  }

  lemma {:induction false} DeclareAllSure(xs: seq<Option<Slot>>, parts: seq<Expr>, before: Slots, k: nat, ck: Ck)
    requires k <= |xs| && DistinctTargets(AsTargets(xs)) && (|parts| == |xs| || UnionFlows(parts) <= before)
    ensures var r := DeclareAll(xs, parts, before, k, ck);
            && (forall m | k <= m < |xs| && xs[m].Some? && xs[m].value in r.sure :: PartFlows(parts, |xs|, m) <= before)
            && (forall x | x !in LocalsFrom(AsTargets(xs), k) :: x in r.sure <==> x in ck.sure)
    decreases |xs| - k
  {
    AsTargetsAt(xs);
    if k < |xs| {
      var next := if xs[k].Some? then Declare(xs[k].value, |parts| != |xs| || parts[k].flows <= before, ck) else ck;
      DeclareAllSure(xs, parts, before, k + 1, next);
      if xs[k].Some? { LaterLocals(AsTargets(xs), k); }
    }
  }

  lemma {:induction false} AsTargetsAt(xs: seq<Option<Slot>>)
    ensures forall m | 0 <= m < |xs| :: AsTargets(xs)[m] == if xs[m].Some? then Local(xs[m].value) else Hole
  {
    if xs != [] {
      AsTargetsAt(xs[1..]);
      forall m | 0 <= m < |xs|
        ensures AsTargets(xs)[m] == if xs[m].Some? then Local(xs[m].value) else Hole
      {
        if m > 0 { assert xs[m] == xs[1..][m - 1]; }
      }
    }
  }

  lemma SoundDeclTuple(f: Fn, s: Stmt, ck: Ck, i: Slots, o: Outcome, k: nat)
    requires s.DeclTuple? && Clear(f, s, ck, i) && Runs(f, s, ck.branchDepth, i, o, k)
    ensures Covered(ck, Walk(f, s, ck), o)
  {
    var c, targets := TypeAll(f, s.parts, ck), AsTargets(s.xs);
    TypeAllFrame(f, s.parts, ck);
    DeclareAllFrame(s.xs, s.parts, ck.sure, 0, c);
    DeclareAllSure(s.xs, s.parts, ck.sure, 0, c);
    AsTargetsAt(s.xs);
    if o.Fell? {
      TupleSound(targets, s.parts, ck.sure, i, o.init, Walk(f, s, ck).sure);
    }
  }

  lemma SoundWrite(f: Fn, s: Stmt, ck: Ck, i: Slots, o: Outcome, k: nat)
    requires (s.Decl? || s.Assign?) && Clear(f, s, ck, i) && Runs(f, s, ck.branchDepth, i, o, k)
    ensures Covered(ck, Walk(f, s, ck), o)
  {
    if s.Decl? {
      if s.init.Some? { TypeFrame(f, s.init.value, ck); }
    } else {
      TypeFrame(f, s.e, ck);
      PutFrame(f, s.x, !(s.e.flows <= ck.sure), TypeExpr(f, s.e, ck));
    }
  }

  lemma SoundUse(f: Fn, s: Stmt, ck: Ck, i: Slots, o: Outcome, k: nat)
    requires (s.Compound? || s.Store? || s.ExprStmt?) && Clear(f, s, ck, i) && Runs(f, s, ck.branchDepth, i, o, k)
    ensures Covered(ck, Walk(f, s, ck), o)
  {
    if s.Compound? {
      CompoundFrame(f, s.x, s.e, ck);
    } else if s.Store? {
      CheckedFrame(f, s.e, ck);
    } else {
      TypeFrame(f, s.e, ck);
    }
  }

  lemma SoundSimple(f: Fn, s: Stmt, ck: Ck, i: Slots, o: Outcome, k: nat)
    requires !IsFlow(s) && Clear(f, s, ck, i) && Runs(f, s, ck.branchDepth, i, o, k)
    ensures Covered(ck, Walk(f, s, ck), o)
  {
    if s.Decl? || s.Assign? {
      SoundWrite(f, s, ck, i, o, k);
    } else if s.DeclTuple? {
      SoundDeclTuple(f, s, ck, i, o, k);
    } else if s.TupleAssign? {
      SoundTuple(f, s, ck, i, o, k);
    } else if s.Compound? || s.Store? || s.ExprStmt? {
      SoundUse(f, s, ck, i, o, k);
    } else {
      SoundJump(f, s, ck, i, o, k);
    }
  }

  lemma SoundJump(f: Fn, s: Stmt, ck: Ck, i: Slots, o: Outcome, k: nat)
    requires !IsFlow(s) && !IsWrite(s) && !s.Store? && !s.ExprStmt?
    requires Clear(f, s, ck, i) && Runs(f, s, ck.branchDepth, i, o, k)
    ensures Covered(ck, Walk(f, s, ck), o)
  {
    if InBranch(ck) {
      RejectedIn(f, s, ck);
    } else {
      match s
      case Break =>
        AddStateFrame(ck.breaks, ck.sure);
        assert ck.breaks != [] ==> ck.sure in TopStates(Walk(f, s, ck).breaks);
      case Continue =>
        AddStateFrame(ck.continues, ck.sure);
        assert ck.continues != [] ==> ck.sure in TopStates(Walk(f, s, ck).continues);
      case Return(v) => if v.Some? { CheckedFrame(f, v.value, ck); } else { FlagFrame(f.named, ck); }
      case Revert(e) => TypeFrame(f, e, ck);
      case Halt(e) => TypeFrame(f, e, ck);
      case Emit(e) => TypeFrame(f, e, ck);
      case Assembly =>
    }
  }

  /** What the walk does with a loop body, or with an arm, stays clean. */
  lemma {:induction false} Sound(f: Fn, s: Stmt, ck: Ck, i: Slots, o: Outcome, k: nat)
    requires Clear(f, s, ck, i) && Runs(f, s, ck.branchDepth, i, o, k)
    ensures Covered(ck, Walk(f, s, ck), o)
    decreases k, s, 5
  {
    if s.Block? {
      SoundBlock(f, s.body, ck, i, o, k);
    } else if s.If? {
      SoundIf(f, s, ck, i, o, k);
    } else if s.EncryptedIf? {
      SoundEncrypted(f, s, ck, i, o, k);
    } else if s.Try? {
      SoundTry(f, s, ck, i, o, k);
    } else if s.While? || s.DoWhile? || s.For? {
      SoundLoop(f, s, ck, i, o, k);
    } else {
      SoundSimple(f, s, ck, i, o, k);
    }
  }

  lemma {:induction false} SoundLoop(f: Fn, s: Stmt, ck: Ck, i: Slots, o: Outcome, k: nat)
    requires s.While? || s.DoWhile? || s.For?
    requires Clear(f, s, ck, i) && Runs(f, s, ck.branchDepth, i, o, k)
    ensures Covered(ck, Walk(f, s, ck), o)
    decreases k, s, 4
  {
    if s.While? {
      SoundWhile(f, s, ck, i, o, k);
    } else if s.DoWhile? {
      SoundDo(f, s, ck, i, o, k);
    } else {
      SoundFor(f, s, ck, i, o, k);
    }
  }

  lemma {:induction false} SoundBlock(f: Fn, ss: seq<Stmt>, ck: Ck, i: Slots, o: Outcome, k: nat)
    requires ck.sure <= i && !ck.terminated && WalkBlock(f, ss, ck).diags == {} && DisciplinedBlock(f, ss, ck)
    requires DepthsAllOk(f, ss, ck.branchDepth) && (f.named == {} || !HasAssemblyIn(ss)) && (InBranch(ck) ==> ck.branchWrites != [])
    requires RunsBlock(f, ss, ck.branchDepth, i, o, k)
    ensures Covered(ck, WalkBlock(f, ss, ck), o)
    decreases k, ss, 0
  {
    if ss != [] {
      var r := Walk(f, ss[0], ck);
      WalkFrame(f, ss[0], ck);
      BlockFrame(f, ss[1..], r);
      var o1 :| Runs(f, ss[0], ck.branchDepth, i, o1, k)
                && if o1.Fell? then RunsBlock(f, ss[1..], ck.branchDepth, o1.init, o, k) else o == o1;
      Sound(f, ss[0], ck, i, o1, k);
      if o1.Fell? {
        SoundBlock(f, ss[1..], r, o1.init, o, k);
      } else {
        CoveredLater(ck, r, WalkBlock(f, ss, ck), o);
      }
    }
  }

  lemma {:induction false} SoundIf(f: Fn, s: Stmt, ck0: Ck, i: Slots, o: Outcome, k: nat)
    requires s.If? && Clear(f, s, ck0, i) && Runs(f, s, ck0.branchDepth, i, o, k)
    ensures Covered(ck0, Walk(f, s, ck0), o)
    decreases k, s, 2
  {
    if InBranch(ck0) {
      RejectedIn(f, s, ck0);
    } else {
      var ck := IfClear(f, s, ck0, i);
      SoundArms(f, s, ck, i, o, k);
    }
  }

  /** The two arms of a plain `if` start clean. */
  ghost predicate ArmsOfIfClear(f: Fn, s: Stmt, ck: Ck, i: Slots)
    requires s.If?
  {
    && !InBranch(ck) && !ck.terminated && Clear(f, s.thn, ck, i)
    && (s.els.Some? ==> Clear(f, s.els.value, SecondArm(f, s, ck), i))
  }

  function SecondArm(f: Fn, s: Stmt, ck: Ck): Ck
    requires s.If?
  {
    Walk(f, s.thn, ck).(sure := ck.sure, terminated := ck.terminated)
  }

  lemma IfClear(f: Fn, s: Stmt, ck0: Ck, i: Slots) returns (ck: Ck)
    requires s.If? && !InBranch(ck0) && Clear(f, s, ck0, i)
    ensures ck == TypeExpr(f, s.c, ck0) && Walk(f, s, ck0) == WalkIf(f, s, ck)
    ensures ck.breaks == ck0.breaks && ck.continues == ck0.continues && ck.branchDepth == ck0.branchDepth && s.c.uses <= i
    ensures ArmsOfIfClear(f, s, ck, i)
  {
    ck := TypeExpr(f, s.c, ck0);
    TypeFrame(f, s.c, ck0);
    assert Reject(ck) == ck;
    IfDiags(f, s, ck);
  }

  lemma IfDiags(f: Fn, s: Stmt, ck: Ck)
    requires s.If? && !InBranch(ck)
    ensures ck.diags <= WalkIf(f, s, ck).diags && Walk(f, s.thn, ck).diags <= WalkIf(f, s, ck).diags
    ensures s.els.Some? ==> Walk(f, s.els.value, SecondArm(f, s, ck)).diags <= WalkIf(f, s, ck).diags
    ensures SecondArm(f, s, ck).branchDepth == ck.branchDepth
  {
    WalkFrame(f, s.thn, ck);
    if s.els.Some? { WalkFrame(f, s.els.value, SecondArm(f, s, ck)); }
    assert Reject(ck) == ck;
  }

  lemma {:induction false} SoundArms(f: Fn, s: Stmt, ck: Ck, i: Slots, o: Outcome, k: nat)
    requires s.If? && ArmsOfIfClear(f, s, ck, i)
    requires Runs(f, s.thn, ck.branchDepth, i, o, k) || (if s.els.Some? then Runs(f, s.els.value, ck.branchDepth, i, o, k) else o == Fell(i))
    ensures Covered(ck, WalkIf(f, s, ck), o)
    decreases k, s, 1
  {
    var t, c2 := Walk(f, s.thn, ck), SecondArm(f, s, ck);
    var e := if s.els.Some? then Walk(f, s.els.value, c2) else c2;
    WalkFrame(f, s.thn, ck);
    if s.els.Some? { WalkFrame(f, s.els.value, c2); }
    assert Reject(ck) == ck;
    if Runs(f, s.thn, ck.branchDepth, i, o, k) {
      Sound(f, s.thn, ck, i, o, k);
      if !o.Fell? { CoveredLater(ck, t, e, o); }
      JoinCovers(ck, t, e, s.els.Some? && e.terminated, o, true);
    } else {
      if s.els.Some? { Sound(f, s.els.value, c2, i, o, k); }
      JoinCovers(ck, t, e, s.els.Some? && e.terminated, o, false);
    }
  }

  /** Joining the arms of a plain `if` covers whichever arm the run took. */
  lemma JoinCovers(ck: Ck, t: Ck, e: Ck, elsTerminated: bool, o: Outcome, tookThen: bool)
    requires !ck.terminated && o != Bad
    requires o.Fell? && tookThen ==> !t.terminated && t.sure <= o.init
    requires o.Fell? && !tookThen ==> !elsTerminated && e.sure <= o.init
    requires !o.Fell? ==> Covered(ck, e, o)
    ensures Covered(ck, JoinAll(FellState(t) + (if elsTerminated then [] else [e.sure]), e)
                        .(terminated := ck.terminated || (t.terminated && elsTerminated)), o)
  {
    var candidates := FellState(t) + (if elsTerminated then [] else [e.sure]);
    if o.Fell? {
      MeetBelow(candidates, if tookThen then t.sure else e.sure);
    }
  }

  lemma {:induction false} SoundEncrypted(f: Fn, s: Stmt, ck0: Ck, i: Slots, o: Outcome, k: nat)
    requires s.EncryptedIf? && Clear(f, s, ck0, i) && Runs(f, s, ck0.branchDepth, i, o, k)
    ensures Covered(ck0, Walk(f, s, ck0), o)
    decreases k, s, 2
  {
    var ck := TypeChecked(f, s.c, ck0);
    CheckedFrame(f, s.c, ck0);
    EncryptedFrame(f, s, ck);
    var t := Walk(f, s.thn, OpenBranch(ck));
    var e := if s.els.Some? then Walk(f, s.els.value, NextArm(ck.sure, t)) else NextArm(ck.sure, t);
    SoundBoth(f, s, ck, t, e, i, o, k);
  }

  /** A clean encrypted `if` whose condition has been typed, with its arms' states. */
  ghost predicate EncryptedClear(f: Fn, s: Stmt, ck: Ck, t: Ck, e: Ck, i: Slots)
    requires s.EncryptedIf?
  {
    && ck.sure <= i && !ck.terminated && WalkEncryptedIf(f, s, ck).diags == {} && Arms(f, s, ck, t, e)
    && Disciplined(f, s.thn, OpenBranch(ck)) && (s.els.Some? ==> Disciplined(f, s.els.value, NextArm(ck.sure, t)))
    && DepthsOk(f, s, ck.branchDepth) && (f.named == {} || !HasAssembly(s))
  }

  lemma {:induction false} SoundBoth(f: Fn, s: Stmt, ck: Ck, t: Ck, e: Ck, i: Slots, o: Outcome, k: nat)
    requires s.EncryptedIf? && EncryptedClear(f, s, ck, t, e, i)
    requires RunsBoth(f, s, ck.branchDepth, i, o, k)
    ensures Covered(ck, WalkEncryptedIf(f, s, ck), o)
    decreases k, s, 1
  {
    var o1, o2 := BothRuns(f, s, ck.branchDepth, i, o, k);
    ArmsStart(f, s, ck, t, e, i);
    Sound(f, s.thn, OpenBranch(ck), i, o1, k);
    if s.els.Some? { Sound(f, s.els.value, NextArm(ck.sure, t), i, o2, k); }
    ArmsAreLogged(f, s, ck, t, e, i);
    SoundMerge(f, s, ck, t, e, i, o1, o2);
  }

  lemma BothRuns(f: Fn, s: Stmt, d: nat, i: Slots, o: Outcome, k: nat) returns (o1: Outcome, o2: Outcome)
    requires s.EncryptedIf? && RunsBoth(f, s, d, i, o, k)
    ensures Runs(f, s.thn, d + 1, i, o1, k) && o == Select(f, s, d, i, o1, o2)
    ensures if s.els.Some? then Runs(f, s.els.value, d + 1, i, o2, k) else o2 == Fell(i)
  {
    o1, o2 :| Runs(f, s.thn, d + 1, i, o1, k) && (if s.els.Some? then Runs(f, s.els.value, d + 1, i, o2, k) else o2 == Fell(i))
              && o == Select(f, s, d, i, o1, o2);
  }

  lemma SoundMerge(f: Fn, s: Stmt, ck: Ck, t: Ck, e: Ck, i: Slots, o1: Outcome, o2: Outcome)
    requires s.EncryptedIf? && EncryptedClear(f, s, ck, t, e, i) && ArmsLogged(f, s, ck, t, e)
    requires Covered(OpenBranch(ck), t, o1)
    requires if s.els.Some? then Covered(NextArm(ck.sure, t), e, o2) else o2 == Fell(i)
    ensures Covered(ck, WalkEncryptedIf(f, s, ck), Select(f, s, ck.branchDepth, i, o1, o2))
  {
    NoneForced(f, s, ck, t, e);
    BothSound(f, s, ck, t, e, i, o1, o2);
    ArmsClose(f, s, ck, t, e);
  }

  /** The logs of clean arms, and their depth. */
  ghost predicate ArmsLogged(f: Fn, s: Stmt, ck: Ck, t: Ck, e: Ck)
    requires s.EncryptedIf?
  {
    && TopSlots(t.branchWrites) == MergedTargets(f, s.thn, ck.branchDepth + 1) && t.branchDepth > 0
    && TopSlots(e.branchWrites) == (if s.els.Some? then MergedTargets(f, s.els.value, ck.branchDepth + 1) else {}) && e.branchDepth > 0
  }

  lemma ArmsAreLogged(f: Fn, s: Stmt, ck: Ck, t: Ck, e: Ck, i: Slots)
    requires s.EncryptedIf? && EncryptedClear(f, s, ck, t, e, i)
    ensures ArmsLogged(f, s, ck, t, e)
  {
    ArmsLog(f, s, ck);
  }

  /** The run's side of the merge. */
  lemma BothSound(f: Fn, s: Stmt, ck: Ck, t: Ck, e: Ck, i: Slots, o1: Outcome, o2: Outcome)
    requires s.EncryptedIf? && ck.sure <= i && !ck.terminated
    requires TopSlots(t.branchWrites) == MergedTargets(f, s.thn, ck.branchDepth + 1)
    requires TopSlots(e.branchWrites) == (if s.els.Some? then MergedTargets(f, s.els.value, ck.branchDepth + 1) else {})
    requires (forall x :: !Forced(x, ck.sure, t, e)) && t.branchDepth > 0 && e.branchDepth > 0
    requires Covered(OpenBranch(ck), t, o1)
    requires if s.els.Some? then Covered(NextArm(ck.sure, t), e, o2) else o2 == Fell(i) && e.sure <= i
    ensures Covered(ck, CloseBranch(f, ck.sure, ck.terminated, s.els.None?, t, e), Select(f, s, ck.branchDepth, i, o1, o2))
  {
    if o1.Fell? && o2.Fell? {
      MergedBelow(ck.sure, t, e, i, o1.init, o2.init);
    }
  }

  lemma ArmsStart(f: Fn, s: Stmt, ck: Ck, t: Ck, e: Ck, i: Slots)
    requires s.EncryptedIf? && EncryptedClear(f, s, ck, t, e, i)
    ensures Clear(f, s.thn, OpenBranch(ck), i) && t == Walk(f, s.thn, OpenBranch(ck))
    ensures s.els.Some? ==> Clear(f, s.els.value, NextArm(ck.sure, t), i) && e == Walk(f, s.els.value, NextArm(ck.sure, t))
    ensures OpenBranch(ck).branchDepth == ck.branchDepth + 1 == NextArm(ck.sure, t).branchDepth
    ensures s.els.None? ==> e.sure <= i
  {
    ArmsLog(f, s, ck);
    ArmsClear(f, s, ck, i);
  }

  lemma ArmsClear(f: Fn, s: Stmt, ck: Ck, i: Slots)
    requires s.EncryptedIf? && ck.sure <= i && !ck.terminated && WalkEncryptedIf(f, s, ck).diags == {}
    requires Disciplined(f, s.thn, OpenBranch(ck))
    requires s.els.Some? ==> Disciplined(f, s.els.value, NextArm(ck.sure, Walk(f, s.thn, OpenBranch(ck))))
    requires DepthsOk(f, s, ck.branchDepth) && (f.named == {} || !HasAssembly(s))
    ensures Clear(f, s.thn, OpenBranch(ck), i)
    ensures s.els.Some? ==> Clear(f, s.els.value, NextArm(ck.sure, Walk(f, s.thn, OpenBranch(ck))), i)
  {
    ArmsLog(f, s, ck);
  }

  lemma NoneForced(f: Fn, s: Stmt, ck: Ck, t: Ck, e: Ck)
    requires s.EncryptedIf? && WalkEncryptedIf(f, s, ck).diags == {} && DepthsOk(f, s, ck.branchDepth) && Arms(f, s, ck, t, e)
    ensures forall x :: !Forced(x, ck.sure, t, e)
  {
    forall x
      ensures !Forced(x, ck.sure, t, e)
    {
      if Forced(x, ck.sure, t, e) { ForcedIsFlagged(f, s, ck, t, e, x); }
    }
  }

  /** The merge of two clean arms. */
  lemma MergedBelow(snap: Slots, t: Ck, e: Ck, i: Slots, j1: Slots, j2: Slots)
    requires forall x :: !Forced(x, snap, t, e)
    requires snap <= i && t.sure <= j1 && e.sure <= j2
    ensures var tw, ew := TopSlots(t.branchWrites), TopSlots(e.branchWrites);
            && (tw + ew) - (tw * ew) <= i
            && Merged(snap, t, e) <= (i - (tw + ew)) + (j1 * j2 * (tw + ew))
  {
    var tw, ew := TopSlots(t.branchWrites), TopSlots(e.branchWrites);
    forall x | x in (tw + ew) - (tw * ew)
      ensures x in i
    {
      assert !Forced(x, snap, t, e);
    }
    forall x | x in Merged(snap, t, e)
      ensures x in (i - (tw + ew)) + (j1 * j2 * (tw + ew))
    {
      assert !Forced(x, snap, t, e);
    }
  }

  /** A loop body, walked once from the loop's entry, is clean. */
  ghost predicate BodyClear(f: Fn, loop: Stmt, ck: Ck) {
    && !InBranch(ck) && !ck.terminated && Walk(f, loop, OpenLoop(ck)).diags == {} && Disciplined(f, loop, OpenLoop(ck))
    && DepthsOk(f, loop, ck.branchDepth) && (f.named == {} || !HasAssembly(loop))
    && NotLower(ck.sure, Walk(f, loop, OpenLoop(ck)))
  }

  lemma {:induction false} SoundWhile(f: Fn, s: Stmt, ck: Ck, i: Slots, o: Outcome, k: nat)
    requires s.While? && Clear(f, s, ck, i) && Runs(f, s, ck.branchDepth, i, o, k)
    ensures Covered(ck, Walk(f, s, ck), o)
    decreases k, s, 2
  {
    if InBranch(ck) {
      RejectedIn(f, s, ck);
    } else {
      var c := TypeExpr(f, s.c, ck);
      TypeFrame(f, s.c, ck);
      WalkFrame(f, s.loop, OpenLoop(c));
      WhileFrame(f, s, c);
      WhileTurns(f, s, c, i, o, k);
    }
  }

  /** What a loop that may run zero times leaves covers each way out of it. */
  lemma ExitCovered(ck: Ck, b: Ck, st: Slots, o: Outcome)
    requires !ck.terminated && o != Bad && !o.Broke? && !o.Continued?
    requires o.Fell? ==> st <= o.init && (st == ck.sure || st in TopStates(b.breaks))
    ensures Covered(ck, JoinAll([ck.sure] + FellState(b) + TopStates(b.breaks) + TopStates(b.continues), CloseLoop(b))
                        .(terminated := ck.terminated), o)
  {
    if o.Fell? {
      MeetBelow([ck.sure] + FellState(b) + TopStates(b.breaks) + TopStates(b.continues), st);
    }
  }

  lemma {:induction false} WhileTurns(f: Fn, s: Stmt, ck: Ck, i: Slots, o: Outcome, k: nat)
    requires s.While? && BodyClear(f, s.loop, ck) && ck.sure <= i && s.c.uses <= ck.sure
    requires RunsWhile(f, s, ck.branchDepth, i, o, k)
    ensures Covered(ck, WalkWhile(f, s, ck), o)
    decreases k, s, 1
  {
    var b := Walk(f, s.loop, OpenLoop(ck));
    if o == Fell(i) {
      ExitCovered(ck, b, ck.sure, o);
    } else {
      var o1 :| Runs(f, s.loop, ck.branchDepth, i, o1, k) &&
        match o1
        case Fell(j) => k > 0 && RunsWhile(f, s, ck.branchDepth, j, o, k - 1)
        case Continued(j) => k > 0 && RunsWhile(f, s, ck.branchDepth, j, o, k - 1)
        case Broke(j) => o == Fell(j)
        case _ => o == o1;
      Sound(f, s.loop, OpenLoop(ck), i, o1, k);
      if o1.Fell? || o1.Continued? {
        WhileTurns(f, s, ck, o1.init, o, k - 1);
      } else if o1.Broke? {
        var st :| st in TopStates(b.breaks) && st <= o1.init;
        ExitCovered(ck, b, st, o);
      } else {
        ExitCovered(ck, b, ck.sure, o);
      }
    }
  }

  lemma {:induction false} SoundDo(f: Fn, s: Stmt, ck: Ck, i: Slots, o: Outcome, k: nat)
    requires s.DoWhile? && Clear(f, s, ck, i) && Runs(f, s, ck.branchDepth, i, o, k)
    ensures Covered(ck, Walk(f, s, ck), o)
    decreases k, s, 2
  {
    if InBranch(ck) {
      RejectedIn(f, s, ck);
    } else {
      var b := Walk(f, s.loop, OpenLoop(ck));
      WalkFrame(f, s.loop, OpenLoop(ck));
      LoopFrame(ck, b);
      TypeFrame(f, s.c, CloseLoop(b));
      assert Reject(ck) == ck && Walk(f, s, ck) == WalkDo(f, s, ck);
      assert b.diags <= TypeExpr(f, s.c, CloseLoop(b)).diags == WalkDo(f, s, ck).diags;
      DoTurns(f, s, ck, i, o, k);
    }
  }

  lemma {:induction false} DoTurns(f: Fn, s: Stmt, ck: Ck, i: Slots, o: Outcome, k: nat)
    requires s.DoWhile? && BodyClear(f, s.loop, ck) && ck.sure <= i
    requires s.c.uses <= Walk(f, s.loop, OpenLoop(ck)).sure && AssignedAtContinues(s.c.uses, Walk(f, s.loop, OpenLoop(ck)))
    requires RunsDo(f, s, ck.branchDepth, i, o, k)
    ensures Covered(ck, WalkDo(f, s, ck), o)
    decreases k, s, 1
  {
    var b := Walk(f, s.loop, OpenLoop(ck));
    var candidates := FellState(b) + TopStates(b.breaks) + TopStates(b.continues);
    var o1 :| Runs(f, s.loop, ck.branchDepth, i, o1, k) &&
      match o1
      case Fell(j) => if !(s.c.uses <= j) then o == Bad else o == Fell(j) || (k > 0 && RunsDo(f, s, ck.branchDepth, j, o, k - 1))
      case Continued(j) => if !(s.c.uses <= j) then o == Bad else o == Fell(j) || (k > 0 && RunsDo(f, s, ck.branchDepth, j, o, k - 1))
      case Broke(j) => o == Fell(j)
      case _ => o == o1;
    Sound(f, s.loop, OpenLoop(ck), i, o1, k);
    if o1.Fell? {
      MeetBelow(candidates, b.sure);
      if o != Fell(o1.init) { DoTurns(f, s, ck, o1.init, o, k - 1); }
    } else if o1.Continued? {
      var st :| st in TopStates(b.continues) && st <= o1.init;
      MeetBelow(candidates, st);
      if o != Fell(o1.init) { DoTurns(f, s, ck, o1.init, o, k - 1); }
    } else if o1.Broke? {
      var st :| st in TopStates(b.breaks) && st <= o1.init;
      MeetBelow(candidates, st);
    }
  }

  lemma {:induction false} SoundFor(f: Fn, s: Stmt, ck: Ck, i: Slots, o: Outcome, k: nat)
    requires s.For? && Clear(f, s, ck, i) && Runs(f, s, ck.branchDepth, i, o, k)
    ensures Covered(ck, Walk(f, s, ck), o)
    decreases k, s, 3
  {
    if InBranch(ck) {
      RejectedIn(f, s, ck);
    } else {
      var c := ForEntry(f, s, ck);
      ForEntryFrame(f, s, ck);
      ForReady(f, s, ck, i);
      if s.first.Some? {
        var c1 := Walk(f, s.first.value, ck);
        var o1 :| Runs(f, s.first.value, ck.branchDepth, i, o1, k)
                  && if o1.Fell? then RunsFor(f, s, ck.branchDepth, o1.init, o, k) else o == o1;
        Sound(f, s.first.value, ck, i, o1, k);
        if o1.Fell? {
          ForLoop(f, s, c, o1.init, o, k);
        } else {
          CoveredLater(ck, c1, Walk(f, s, ck), o);
        }
      } else {
        ForLoop(f, s, c, i, o, k);
      }
    }
  }

  lemma ForReady(f: Fn, s: Stmt, ck: Ck, i: Slots)
    requires s.For? && !InBranch(ck) && Clear(f, s, ck, i)
    ensures s.first.Some? ==> Clear(f, s.first.value, ck, i)
    ensures ForClear(f, s, ForEntry(f, s, ck))
  {
    ForEntryFrame(f, s, ck);
  }

  /** The loop of a `for`, from where its condition has been typed. */
  ghost predicate ForClear(f: Fn, s: Stmt, ck: Ck)
    requires s.For?
  {
    && !InBranch(ck) && WalkFor(f, s, ck).diags == {}
    && Disciplined(f, s.loop, OpenLoop(ck)) && NotLower(ck.sure, Walk(f, s.loop, OpenLoop(ck)))
    && (!Walk(f, s.loop, OpenLoop(ck)).terminated ==> AssignedAtContinues(UsesOf(s.next), Walk(f, s.loop, OpenLoop(ck))))
    && DepthsOk(f, s.loop, ck.branchDepth) && (f.named == {} || !HasAssembly(s.loop)) && UsesOf(s.cond) <= ck.sure
  }

  lemma ForEntryFrame(f: Fn, s: Stmt, ck: Ck)
    requires s.For? && !InBranch(ck)
    ensures var c1 := if s.first.Some? then Walk(f, s.first.value, ck) else ck;
            var c := ForEntry(f, s, ck);
            && Frame(ck, c1) && Frame(c1, c) && Frame(c, Walk(f, s, ck)) && Frame(c1, Walk(f, s, ck)) && Walk(f, s, ck) == WalkFor(f, s, c)
            && c.sure == c1.sure && c.terminated == c1.terminated
            && (c.diags == {} ==> UsesOf(s.cond) <= c.sure)
  {
    var c1 := if s.first.Some? then Walk(f, s.first.value, ck) else ck;
    if s.first.Some? { WalkFrame(f, s.first.value, ck); }
    if s.cond.Some? { TypeFrame(f, s.cond.value, c1); }
    ForFrame(f, s, ForEntry(f, s, ck));
    FrameTrans(c1, ForEntry(f, s, ck), Walk(f, s, ck));
  }

  lemma {:induction false} ForLoop(f: Fn, s: Stmt, ck: Ck, i: Slots, o: Outcome, k: nat)
    requires s.For? && !ck.terminated && ck.sure <= i && ForClear(f, s, ck)
    requires RunsFor(f, s, ck.branchDepth, i, o, k)
    ensures Covered(ck, WalkFor(f, s, ck), o)
    decreases k, s, 2
  {
    var b := Walk(f, s.loop, OpenLoop(ck));
    WalkFrame(f, s.loop, OpenLoop(ck));
    NextFrame(f, s.next, b);
    NextTyped(f, s.next, b);
    ForTurns(f, s, ck, i, o, k);
  }

  /** Wherever the trailing expression is reached, what it checks is assigned. */
  lemma NextTyped(f: Fn, next: Option<Expr>, b: Ck)
    requires TypeNext(f, next, b).diags == {}
    ensures !b.terminated ==> UsesOf(next) <= b.sure
    ensures b.terminated ==> AssignedAtContinues(UsesOf(next), b)
  {
    if next.Some? {
      if !b.terminated {
        TypeFrame(f, next.value, b);
      } else if TopStates(b.continues) != [] {
        TypeFrame(f, next.value, JoinAll(TopStates(b.continues), b));
        forall st | st in TopStates(b.continues)
          ensures UsesOf(next) <= st
        {
          MeetBelow(TopStates(b.continues), st);
        }
      }
    }
  }

  lemma ForTurn(f: Fn, s: Stmt, d: nat, i: Slots, o: Outcome, k: nat) returns (o1: Outcome)
    requires s.For? && UsesOf(s.cond) <= i && o != Fell(i) && RunsFor(f, s, d, i, o, k)
    ensures Runs(f, s.loop, d, i, o1, k)
    ensures match o1
            case Fell(j) => if !(UsesOf(s.next) <= j) then o == Bad else k > 0 && RunsFor(f, s, d, j, o, k - 1)
            case Continued(j) => if !(UsesOf(s.next) <= j) then o == Bad else k > 0 && RunsFor(f, s, d, j, o, k - 1)
            case Broke(j) => o == Fell(j)
            case _ => o == o1
  {
    o1 :| Runs(f, s.loop, d, i, o1, k) &&
      match o1
      case Fell(j) => if !(UsesOf(s.next) <= j) then o == Bad else k > 0 && RunsFor(f, s, d, j, o, k - 1)
      case Continued(j) => if !(UsesOf(s.next) <= j) then o == Bad else k > 0 && RunsFor(f, s, d, j, o, k - 1)
      case Broke(j) => o == Fell(j)
      case _ => o == o1;
  }

  lemma {:induction false} ForTurns(f: Fn, s: Stmt, ck: Ck, i: Slots, o: Outcome, k: nat)
    requires s.For? && BodyClear(f, s.loop, ck) && ck.sure <= i && UsesOf(s.cond) <= ck.sure
    requires var b := Walk(f, s.loop, OpenLoop(ck));
             (!b.terminated ==> UsesOf(s.next) <= b.sure) && AssignedAtContinues(UsesOf(s.next), b)
    requires RunsFor(f, s, ck.branchDepth, i, o, k)
    ensures Covered(ck, WalkFor(f, s, ck), o)
    decreases k, s, 1
  {
    var b0 := Walk(f, s.loop, OpenLoop(ck));
    var b := TypeNext(f, s.next, b0);
    NextFrame(f, s.next, b0);
    if o == Fell(i) {
      ExitCovered(ck, b, ck.sure, o);
    } else {
      var o1 := ForTurn(f, s, ck.branchDepth, i, o, k);
      Sound(f, s.loop, OpenLoop(ck), i, o1, k);
      if o1.Fell? || o1.Continued? {
        ForTurns(f, s, ck, o1.init, o, k - 1);
      } else if o1.Broke? {
        var st :| st in TopStates(b.breaks) && st <= o1.init;
        ExitCovered(ck, b, st, o);
      } else {
        ExitCovered(ck, b, ck.sure, o);
      }
    }
  }

  lemma {:induction false} SoundTry(f: Fn, s: Stmt, ck: Ck, i: Slots, o: Outcome, k: nat)
    requires s.Try? && Clear(f, s, ck, i) && Runs(f, s, ck.branchDepth, i, o, k)
    ensures Covered(ck, Walk(f, s, ck), o)
    decreases k, s, 2
  {
    if InBranch(ck) {
      RejectedIn(f, s, ck);
    } else {
      var c := TypeExpr(f, s.e, ck);
      TypeFrame(f, s.e, ck);
      ClausesFrame(f, s.clauses, c.sure, false, c);
      var r := WalkClauses(f, s.clauses, c.sure, false, c);
      if o != Reverted {
        var n :| 0 <= n < |s.clauses| && RunsBlock(f, s.clauses[n].body, ck.branchDepth, i + s.clauses[n].params, o, k);
        SoundClauses(f, s.clauses, c.sure, c, n, i, o, k);
        if o.Fell? {
          var st :| st in r.outs && st <= o.init;
          MeetBelow(r.outs, st);
        }
      }
    }
  }

  lemma {:induction false} SoundClauses(f: Fn, clauses: seq<Clause>, snap: Slots, ck: Ck, n: nat, i: Slots, o: Outcome, k: nat)
    requires n < |clauses| && snap <= i && !InBranch(ck) && WalkClauses(f, clauses, snap, false, ck).ck.diags == {}
    requires DisciplinedClauses(f, clauses, snap, false, ck) && DepthsClausesOk(f, clauses, ck.branchDepth)
    requires f.named == {} || !HasAssemblyClauses(clauses)
    requires RunsBlock(f, clauses[n].body, ck.branchDepth, i + clauses[n].params, o, k)
    ensures var r := WalkClauses(f, clauses, snap, false, ck);
            && o != Bad && (o.Fell? ==> exists st | st in r.outs :: st <= o.init)
            && (!o.Fell? ==> Covered(ck, r.ck, o))
    decreases k, clauses, 1
  {
    var c1 := ck.(sure := snap + clauses[0].params, terminated := false);
    var r := WalkBlock(f, clauses[0].body, c1);
    BlockFrame(f, clauses[0].body, c1);
    ClausesFrame(f, clauses[1..], snap, false, r);
    var rest := WalkClauses(f, clauses[1..], snap, false, r);
    if n == 0 {
      SoundBlock(f, clauses[0].body, c1, i + clauses[0].params, o, k);
      if o.Fell? {
        assert r.sure in FellState(r) + rest.outs;
      } else {
        CoveredLater(c1, r, rest.ck, o);
      }
    } else {
      SoundClauses(f, clauses[1..], snap, r, n - 1, i, o, k);
      if o.Fell? {
        var st :| st in rest.outs && st <= o.init;
        assert st in FellState(r) + rest.outs;
      }
    }
  }

  /**
   Definite-assignment soundness.  When the check of a function reports nothing, no
   run lets a default handle out: none reaches a checked use, storage or a return
   value, and at every exit the encrypted named returns are initialised.
   */
  lemma CheckSound(f: Fn, params: Slots, body: seq<Stmt>, riskyModifier: bool, o: Outcome, k: nat)
    requires CheckFunction(f, params, body, riskyModifier) == {}
    requires DisciplinedBlock(f, body, Start(params - f.named)) && DepthsAllOk(f, body, 0)
    requires FunctionRuns(f, params, body, o, k)
    ensures Clean(f, o)
  {
    var ck0 := Start(params - f.named);
    if f.named != {} && (riskyModifier || HasAssemblyIn(body)) {
      RiskyFlagged(f, params, body, riskyModifier);
    } else {
      var ck2 := WalkBlock(f, body, ck0);
      FlagFrame(f.named, ck2);
      SoundBlock(f, body, ck0, params - f.named, o, k);
    }
  }

  /** A modifier that may skip the body, or assembly, is reported for every named return. */
  lemma RiskyFlagged(f: Fn, params: Slots, body: seq<Stmt>, riskyModifier: bool)
    requires f.named != {} && (riskyModifier || HasAssemblyIn(body))
    ensures forall x | x in f.named :: Uninit(x) in CheckFunction(f, params, body, riskyModifier)
    ensures CheckFunction(f, params, body, riskyModifier) != {}
  {
    var ck0 := Start(params - f.named);
    var ck1 := CheckNamed(f, ck0);
    var ck2 := WalkBlock(f, body, ck1);
    BlockFrame(f, body, ck1);
    FlagFrame(f.named, ck2);
    forall x | x in f.named
      ensures Uninit(x) in ck1.diags
    {
      assert x in f.named - ck0.sure;
    }
    var x :| x in f.named;
    assert Uninit(x) in CheckFunction(f, params, body, riskyModifier);
  }

  /** `terminated` is set only where no run falls through. */
  lemma TerminatedSound(f: Fn, s: Stmt, ck: Ck, i: Slots, o: Outcome, k: nat)
    requires Clear(f, s, ck, i) && Runs(f, s, ck.branchDepth, i, o, k) && Walk(f, s, ck).terminated
    ensures !o.Fell?
  {
    Sound(f, s, ck, i, o, k);
  }
}
