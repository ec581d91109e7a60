/**
 A check on the text alone under which the definite-assignment walk is sound: no
 walk has to be consulted.
 */
module DefiniteSyntax {
  import opened Wrappers
  import opened DefiniteAssignment
  import opened DefiniteFrames
  import opened DefiniteBranches
  import opened DefiniteRuns
  import opened DefiniteSound

  /** The slots a statement may make assigned. */
  function Adds(s: Stmt): Slots
    decreases s
  {
    match s
    case Decl(x, _) => {x}
    case DeclTuple(xs, _) => DeclaredFrom(xs, 0)
    case Assign(x, _) => {x}
    case TupleAssign(targets, _) => LocalsFrom(targets, 0)
    case Compound(x, _) => {x}
    case Block(b) => AddsAll(b)
    case If(_, t, e) => Adds(t) + (if e.Some? then Adds(e.value) else {})
    case EncryptedIf(_, t, e) => Adds(t) + (if e.Some? then Adds(e.value) else {})
    case While(_, b) => Adds(b)
    case DoWhile(b, _) => Adds(b)
    case For(i, _, _, b) => (if i.Some? then Adds(i.value) else {}) + Adds(b)
    case Try(_, cs) => AddsClauses(cs)
    case _ => {}
  }

  function AddsAll(ss: seq<Stmt>): Slots
    decreases ss
  {
    if ss == [] then {} else Adds(ss[0]) + AddsAll(ss[1..])
  }

  function AddsClauses(cs: seq<Clause>): Slots
    decreases cs
  {
    if cs == [] then {} else cs[0].params + AddsAll(cs[0].body) + AddsClauses(cs[1..])
  }

  /** The slots a statement declares. */
  function Declares(s: Stmt): Slots
    decreases s
  {
    match s
    case Decl(x, _) => {x}
    case DeclTuple(xs, _) => DeclaredFrom(xs, 0)
    case Block(b) => DeclaresAll(b)
    case If(_, t, e) => Declares(t) + (if e.Some? then Declares(e.value) else {})
    case EncryptedIf(_, t, e) => Declares(t) + (if e.Some? then Declares(e.value) else {})
    case While(_, b) => Declares(b)
    case DoWhile(b, _) => Declares(b)
    case For(i, _, _, b) => (if i.Some? then Declares(i.value) else {}) + Declares(b)
    case Try(_, cs) => DeclaresClauses(cs)
    case _ => {}
  }

  function DeclaresAll(ss: seq<Stmt>): Slots
    decreases ss
  {
    if ss == [] then {} else Declares(ss[0]) + DeclaresAll(ss[1..])
  }

  function DeclaresClauses(cs: seq<Clause>): Slots
    decreases cs
  {
    if cs == [] then {} else DeclaresAll(cs[0].body) + DeclaresClauses(cs[1..])
  }

  /** A component that copies a slot goes to a slot of `inner`. */
  predicate CopiesInside(targets: seq<Target>, parts: seq<Expr>, inner: Slots) {
    forall k | 0 <= k < |targets| && targets[k].Local? :: targets[k].x in inner || PartFlows(parts, |targets|, k) == {}
  }

  /** No slot is copied into a slot outside `inner`, and only those are declared. */
  predicate LowersOnly(s: Stmt, inner: Slots)
    decreases s
  {
    match s
    case Decl(x, _) => x in inner
    case DeclTuple(xs, _) => DeclaredFrom(xs, 0) <= inner
    case Assign(x, e) => x in inner || e.flows == {}
    case TupleAssign(targets, parts) => CopiesInside(targets, parts, inner)
    case Block(b) => LowersOnlyAll(b, inner)
    case If(_, t, e) => LowersOnly(t, inner) && (e.Some? ==> LowersOnly(e.value, inner))
    case EncryptedIf(_, t, e) => LowersOnly(t, inner) && (e.Some? ==> LowersOnly(e.value, inner))
    case While(_, b) => LowersOnly(b, inner)
    case DoWhile(b, _) => LowersOnly(b, inner)
    case For(i, _, _, b) => (i.Some? ==> LowersOnly(i.value, inner)) && LowersOnly(b, inner)
    case Try(_, cs) => LowersOnlyClauses(cs, inner)
    case _ => true
  }

  predicate LowersOnlyAll(ss: seq<Stmt>, inner: Slots)
    decreases ss
  {
    ss == [] || (LowersOnly(ss[0], inner) && LowersOnlyAll(ss[1..], inner))
  }

  predicate LowersOnlyClauses(cs: seq<Clause>, inner: Slots)
    decreases cs
  {
    cs == [] || (LowersOnlyAll(cs[0].body, inner) && LowersOnlyClauses(cs[1..], inner))
  }

  /** A loop body declares slots of its own and copies slots into those only. */
  predicate LoopTidy(b: Stmt, known: Slots) {
    Declares(b) !! known && LowersOnly(b, Declares(b))
  }

  /**
   What a reader checks: distinct tuple targets, unpaired declarations that copy no
   slot, loops whose bodies copy no slot into one from outside, and `do` conditions
   and trailing expressions that check none.  `known` are the slots from before.
   */
  predicate Tidy(s: Stmt, known: Slots)
    decreases s
  {
    match s
    case DeclTuple(xs, parts) => DistinctTargets(AsTargets(xs)) && (|parts| == |xs| || UnionFlows(parts) == {})
    case TupleAssign(targets, _) => DistinctTargets(targets)
    case Block(b) => TidyAll(b, known)
    case If(_, t, e) => Tidy(t, known) && (e.Some? ==> Tidy(e.value, known))
    case EncryptedIf(_, t, e) => Tidy(t, known) && (e.Some? ==> Tidy(e.value, known))
    case While(_, b) => LoopTidy(b, known) && Tidy(b, known)
    case DoWhile(b, c) => LoopTidy(b, known) && Tidy(b, known) && c.uses == {}
    case For(i, _, next, b) =>
      var known1 := known + if i.Some? then Adds(i.value) else {};
      (i.Some? ==> Tidy(i.value, known)) && LoopTidy(b, known1) && Tidy(b, known1) && UsesOf(next) == {}
    case Try(_, cs) => TidyClauses(cs, known)
    case _ => true
  }

  predicate TidyAll(ss: seq<Stmt>, known: Slots)
    decreases ss
  {
    ss == [] || (Tidy(ss[0], known) && TidyAll(ss[1..], known + Adds(ss[0])))
  }

  predicate TidyClauses(cs: seq<Clause>, known: Slots)
    decreases cs
  {
    cs == [] || (TidyAll(cs[0].body, known + cs[0].params) && TidyClauses(cs[1..], known))
  }

  // ---- what the walk keeps assigned ----------------------------------------------------

  /** `low` is assigned here and wherever the innermost loop has been left. */
  ghost predicate Above(low: Slots, ck: Ck) {
    && low <= ck.sure
    && (forall st | st in TopStates(ck.breaks) :: low <= st)
    && (forall st | st in TopStates(ck.continues) :: low <= st)
  }

  /** From `a` to `b` nothing outside `high` has become assigned, was logged, or was
      assigned where the innermost loop has been left. */
  ghost predicate Below(high: Slots, a: Ck, b: Ck) {
    && b.sure <= high && TopSlots(b.branchWrites) <= TopSlots(a.branchWrites) + high
    && (forall st | st in TopStates(b.breaks) :: st in TopStates(a.breaks) || st <= high)
    && (forall st | st in TopStates(b.continues) :: st in TopStates(a.continues) || st <= high)
  }

  lemma {:induction false} MeetAbove(states: seq<Slots>, low: Slots)
    requires states != [] && forall st | st in states :: low <= st
    ensures low <= Meet(states)
    decreases states
  {
    assert states[0] in states;
    if |states| > 1 {
      forall st | st in states[1..]
        ensures low <= st
      {
        assert st in states;
      }
      MeetAbove(states[1..], low);
    }
  }

  lemma JoinAbove(candidates: seq<Slots>, ck: Ck, low: Slots)
    requires low <= ck.sure && forall st | st in candidates :: low <= st
    ensures low <= JoinAll(candidates, ck).sure
  {
    if candidates != [] { MeetAbove(candidates, low); }
  }

  lemma JoinBelow(candidates: seq<Slots>, ck: Ck, high: Slots)
    requires ck.sure <= high && forall st | st in candidates :: st <= high
    ensures JoinAll(candidates, ck).sure <= high
  {
    if candidates != [] {
      MeetBelow(candidates, candidates[0]);
    }
  }

  lemma {:induction false} PutAllAbove(f: Fn, targets: seq<Target>, parts: seq<Expr>, before: Slots, k: nat, ck: Ck, low: Slots, inner: Slots)
    requires k <= |targets| && CopiesInside(targets, parts, inner) && low !! inner && low <= ck.sure
    ensures low <= PutAll(f, targets, parts, before, k, ck).sure
    decreases |targets| - k
  {
    if k < |targets| {
      var rs := PartFlows(parts, |targets|, k);
      match targets[k]
      case Local(x) =>
        PutFrame(f, x, !(rs <= before), ck);
        PutAllAbove(f, targets, parts, before, k + 1, Put(f, x, !(rs <= before), ck), low, inner);
      case Elsewhere => PutAllAbove(f, targets, parts, before, k + 1, ck.(diags := ck.diags + set x | x in rs - before :: Uninit(x)), low, inner);
      case Hole => PutAllAbove(f, targets, parts, before, k + 1, ck, low, inner);
    }
  }

  lemma {:induction false} DeclareAllAbove(xs: seq<Option<Slot>>, parts: seq<Expr>, before: Slots, k: nat, ck: Ck, low: Slots)
    requires k <= |xs| && DeclaredFrom(xs, k) !! low && low <= ck.sure
    ensures low <= DeclareAll(xs, parts, before, k, ck).sure
    decreases |xs| - k
  {
    if k < |xs| {
      var next := if xs[k].Some? then Declare(xs[k].value, |parts| != |xs| || parts[k].flows <= before, ck) else ck;
      DeclareAllAbove(xs, parts, before, k + 1, next, low);
    }
  }

  lemma WriteAbove(f: Fn, s: Stmt, ck: Ck, low: Slots, inner: Slots)
    requires IsWrite(s) && LowersOnly(s, inner) && low !! inner && Above(low, ck)
    ensures Above(low, Walk(f, s, ck))
  {
    WriteFrame(f, s, ck);
    match s
    case Decl(x, init) => if init.Some? { TypeFrame(f, init.value, ck); }
    case DeclTuple(xs, parts) =>
      TypeAllFrame(f, parts, ck);
      DeclareAllAbove(xs, parts, ck.sure, 0, TypeAll(f, parts, ck), low);
    case Assign(x, e) =>
      TypeFrame(f, e, ck);
      PutFrame(f, x, !(e.flows <= ck.sure), TypeExpr(f, e, ck));
    case TupleAssign(targets, parts) =>
      TypeAllFrame(f, parts, ck);
      PutAllAbove(f, targets, parts, ck.sure, 0, TypeAll(f, parts, ck), low, inner);
    case Compound(x, e) => CompoundFrame(f, x, e, ck);
  }

  lemma PlainAbove(f: Fn, s: Stmt, ck: Ck, low: Slots)
    requires !IsWrite(s) && !IsFlow(s) && Above(low, ck)
    ensures Above(low, Walk(f, s, ck))
  {
    PlainFrame(f, s, ck);
    if s.Break? || s.Continue? {
      AddStateFrame(ck.breaks, ck.sure);
      AddStateFrame(ck.continues, ck.sure);
    } else {
      PlainJumps(f, s, ck);
    }
  }

  lemma PlainJumps(f: Fn, s: Stmt, ck: Ck)
    requires !IsWrite(s) && !IsFlow(s) && !s.Break? && !s.Continue?
    ensures Walk(f, s, ck).breaks == ck.breaks && Walk(f, s, ck).continues == ck.continues && Walk(f, s, ck).branchWrites == ck.branchWrites
  {
    match s
    case Store(e) => CheckedFrame(f, e, ck);
    case ExprStmt(e) => TypeFrame(f, e, ck);
    case Return(v) => if v.Some? { CheckedFrame(f, v.value, Reject(ck)); }
    case Revert(e) => TypeFrame(f, e, Reject(ck));
    case Halt(e) => TypeFrame(f, e, Reject(ck));
    case Emit(e) => TypeFrame(f, e, Reject(ck));
    case Assembly =>
  }

  /** A walk lowers only the slots its statement may lower. */
  lemma {:induction false} WalkAbove(f: Fn, s: Stmt, ck: Ck, low: Slots, inner: Slots)
    requires LowersOnly(s, inner) && low !! inner && Above(low, ck)
    ensures Above(low, Walk(f, s, ck))
    decreases s, 2
  {
    if IsWrite(s) {
      WriteAbove(f, s, ck, low, inner);
    } else if IsFlow(s) {
      FlowAbove(f, s, ck, low, inner);
    } else {
      PlainAbove(f, s, ck, low);
    }
  }

  lemma {:induction false} FlowAbove(f: Fn, s: Stmt, ck: Ck, low: Slots, inner: Slots)
    requires IsFlow(s) && LowersOnly(s, inner) && low !! inner && Above(low, ck)
    ensures Above(low, Walk(f, s, ck))
    decreases s, 1
  {
    match s
    case Block(b) => BlockAbove(f, b, ck, low, inner);
    case If(c, _, _) =>
      TypeFrame(f, c, ck);
      IfAbove(f, s, Reject(TypeExpr(f, c, ck)), low, inner);
    case EncryptedIf(c, _, _) =>
      CheckedFrame(f, c, ck);
      EncryptedAbove(f, s, TypeChecked(f, c, ck), low, inner);
    case While(c, _) =>
      TypeFrame(f, c, Reject(ck));
      WhileAbove(f, s, TypeExpr(f, c, Reject(ck)), low, inner);
    case DoWhile(_, _) => DoAbove(f, s, Reject(ck), low, inner);
    case For(i, c, _, _) =>
      var c0 := Reject(ck);
      if i.Some? { WalkAbove(f, i.value, c0, low, inner); }
      if c.Some? { TypeFrame(f, c.value, if i.Some? then Walk(f, i.value, c0) else c0); }
      ForAbove(f, s, ForEntry(f, s, ck), low, inner);
    case Try(e, clauses) =>
      TypeFrame(f, e, Reject(ck));
      var c := TypeExpr(f, e, Reject(ck));
      ClausesAbove(f, clauses, c.sure, c.terminated, c, low, inner);
      JoinAbove(WalkClauses(f, clauses, c.sure, c.terminated, c).outs, WalkClauses(f, clauses, c.sure, c.terminated, c).ck, low);
  }

  lemma {:induction false} BlockAbove(f: Fn, ss: seq<Stmt>, ck: Ck, low: Slots, inner: Slots)
    requires LowersOnlyAll(ss, inner) && low !! inner && Above(low, ck)
    ensures Above(low, WalkBlock(f, ss, ck))
    decreases ss, 0
  {
    if ss != [] && !ck.terminated {
      WalkAbove(f, ss[0], ck, low, inner);
      BlockAbove(f, ss[1..], Walk(f, ss[0], ck), low, inner);
    }
  }

  lemma {:induction false} IfAbove(f: Fn, s: Stmt, ck: Ck, low: Slots, inner: Slots)
    requires s.If? && LowersOnly(s, inner) && low !! inner && Above(low, ck) && Reject(ck) == ck
    ensures Above(low, WalkIf(f, s, ck))
    decreases s, 0
  {
    var t := Walk(f, s.thn, ck);
    WalkAbove(f, s.thn, ck, low, inner);
    var c2 := t.(sure := ck.sure, terminated := ck.terminated);
    var e := if s.els.Some? then Walk(f, s.els.value, c2) else c2;
    if s.els.Some? { WalkAbove(f, s.els.value, c2, low, inner); }
    JoinAbove(FellState(t) + (if s.els.Some? && e.terminated then [] else [e.sure]), e, low);
  }

  lemma {:induction false} EncryptedAbove(f: Fn, s: Stmt, ck: Ck, low: Slots, inner: Slots)
    requires s.EncryptedIf? && LowersOnly(s, inner) && low !! inner && Above(low, ck)
    ensures Above(low, WalkEncryptedIf(f, s, ck))
    decreases s, 0
  {
    var t := Walk(f, s.thn, OpenBranch(ck));
    WalkAbove(f, s.thn, OpenBranch(ck), low, inner);
    var c2 := NextArm(ck.sure, t);
    if s.els.Some? { WalkAbove(f, s.els.value, c2, low, inner); }
  }

  lemma {:induction false} WhileAbove(f: Fn, s: Stmt, ck: Ck, low: Slots, inner: Slots)
    requires s.While? && LowersOnly(s, inner) && low !! inner && Above(low, ck)
    ensures Above(low, WalkWhile(f, s, ck))
    decreases s, 0
  {
    WalkAbove(f, s.loop, OpenLoop(ck), low, inner);
    WalkFrame(f, s.loop, OpenLoop(ck));
    LoopAbove(ck, Walk(f, s.loop, OpenLoop(ck)), low);
  }

  lemma LoopAbove(ck: Ck, b: Ck, low: Slots)
    requires Above(low, ck) && Above(low, b) && Frame(OpenLoop(ck), b)
    ensures Above(low, JoinAll([ck.sure] + FellState(b) + TopStates(b.breaks) + TopStates(b.continues), CloseLoop(b)).(terminated := ck.terminated))
  {
    LoopFrame(ck, b);
    JoinAbove([ck.sure] + FellState(b) + TopStates(b.breaks) + TopStates(b.continues), CloseLoop(b), low);
  }

  lemma {:induction false} DoAbove(f: Fn, s: Stmt, ck: Ck, low: Slots, inner: Slots)
    requires s.DoWhile? && LowersOnly(s, inner) && low !! inner && Above(low, ck)
    ensures Above(low, WalkDo(f, s, ck))
    decreases s, 0
  {
    var b := Walk(f, s.loop, OpenLoop(ck));
    WalkAbove(f, s.loop, OpenLoop(ck), low, inner);
    WalkFrame(f, s.loop, OpenLoop(ck));
    LoopFrame(ck, b);
    TypeFrame(f, s.c, CloseLoop(b));
    JoinAbove(FellState(b) + TopStates(b.breaks) + TopStates(b.continues), TypeExpr(f, s.c, CloseLoop(b)), low);
  }

  lemma {:induction false} ForAbove(f: Fn, s: Stmt, ck: Ck, low: Slots, inner: Slots)
    requires s.For? && LowersOnly(s, inner) && low !! inner && Above(low, ck)
    ensures Above(low, WalkFor(f, s, ck))
    decreases s, 0
  {
    var b := Walk(f, s.loop, OpenLoop(ck));
    WalkAbove(f, s.loop, OpenLoop(ck), low, inner);
    WalkFrame(f, s.loop, OpenLoop(ck));
    NextFrame(f, s.next, b);
    FrameTrans(OpenLoop(ck), b, TypeNext(f, s.next, b));
    LoopAbove(ck, TypeNext(f, s.next, b), low);
  }

  lemma {:induction false} ClausesAbove(f: Fn, clauses: seq<Clause>, snap: Slots, terminated: bool, ck: Ck, low: Slots, inner: Slots)
    requires LowersOnlyClauses(clauses, inner) && low !! inner && low <= snap && Above(low, ck)
    ensures var r := WalkClauses(f, clauses, snap, terminated, ck); Above(low, r.ck) && forall st | st in r.outs :: low <= st
    decreases clauses, 0
  {
    if clauses != [] {
      var c1 := ck.(sure := snap + clauses[0].params, terminated := terminated);
      BlockAbove(f, clauses[0].body, c1, low, inner);
      ClausesAbove(f, clauses[1..], snap, terminated, WalkBlock(f, clauses[0].body, c1), low, inner);
    }
  }

  // ---- what the walk may add -----------------------------------------------------------

  lemma BelowTrans(high: Slots, a: Ck, b: Ck, c: Ck)
    requires Below(high, a, b) && Below(high, b, c)
    ensures Below(high, a, c)
  {
  }

  lemma PutBelow(f: Fn, x: Slot, tainted: bool, ck: Ck, high: Slots)
    requires ck.sure <= high && x in high
    ensures Below(high, ck, Put(f, x, tainted, ck))
  {
    PutFrame(f, x, tainted, ck);
    AddSlotsFrame(ck.branchWrites, Outer(f, ck, {x}));
  }

  lemma {:induction false} PutAllBelow(f: Fn, targets: seq<Target>, parts: seq<Expr>, before: Slots, k: nat, ck: Ck, high: Slots)
    requires k <= |targets| && LocalsFrom(targets, k) <= high && ck.sure <= high
    ensures Below(high, ck, PutAll(f, targets, parts, before, k, ck))
    decreases |targets| - k
  {
    if k < |targets| {
      var rs := PartFlows(parts, |targets|, k);
      match targets[k]
      case Local(x) =>
        PutBelow(f, x, !(rs <= before), ck, high);
        PutAllBelow(f, targets, parts, before, k + 1, Put(f, x, !(rs <= before), ck), high);
      case Elsewhere => PutAllBelow(f, targets, parts, before, k + 1, ck.(diags := ck.diags + set x | x in rs - before :: Uninit(x)), high);
      case Hole => PutAllBelow(f, targets, parts, before, k + 1, ck, high);
    }
  }

  lemma WriteBelow(f: Fn, s: Stmt, ck: Ck, high: Slots)
    requires IsWrite(s) && Adds(s) <= high && ck.sure <= high
    ensures Below(high, ck, Walk(f, s, ck))
  {
    WriteFrame(f, s, ck);
    match s
    case Decl(x, init) => if init.Some? { TypeFrame(f, init.value, ck); }
    case DeclTuple(xs, parts) =>
      TypeAllFrame(f, parts, ck);
      DeclareAllFrame(xs, parts, ck.sure, 0, TypeAll(f, parts, ck));
    case Assign(x, e) =>
      TypeFrame(f, e, ck);
      PutBelow(f, x, !(e.flows <= ck.sure), TypeExpr(f, e, ck), high);
    case TupleAssign(targets, parts) =>
      TypeAllFrame(f, parts, ck);
      PutAllBelow(f, targets, parts, ck.sure, 0, TypeAll(f, parts, ck), high);
    case Compound(x, e) =>
      CompoundFrame(f, x, e, ck);
      AddSlotsFrame(ck.branchWrites, Outer(f, ck, {x}));
  }

  lemma PlainBelow(f: Fn, s: Stmt, ck: Ck, high: Slots)
    requires !IsWrite(s) && !IsFlow(s) && ck.sure <= high
    ensures Below(high, ck, Walk(f, s, ck))
  {
    PlainFrame(f, s, ck);
    if s.Break? || s.Continue? {
      JumpBelow(f, s, ck, high);
    } else {
      PlainJumps(f, s, ck);
    }
  }

  lemma JumpBelow(f: Fn, s: Stmt, ck: Ck, high: Slots)
    requires (s.Break? || s.Continue?) && ck.sure <= high
    ensures Below(high, ck, Walk(f, s, ck))
  {
    var r := Walk(f, s, ck);
    if s.Break? {
      AddStateFrame(ck.breaks, ck.sure);
      assert r.continues == ck.continues;
    } else {
      AddStateFrame(ck.continues, ck.sure);
      assert r.breaks == ck.breaks;
    }
  }

  /** A walk makes assigned, and logs, only what its statement mentions as a target. */
  lemma {:induction false} WalkBelow(f: Fn, s: Stmt, ck: Ck, high: Slots)
    requires Adds(s) <= high && ck.sure <= high
    ensures Below(high, ck, Walk(f, s, ck))
    decreases s, 2
  {
    if IsWrite(s) {
      WriteBelow(f, s, ck, high);
    } else if IsFlow(s) {
      FlowBelow(f, s, ck, high);
    } else {
      PlainBelow(f, s, ck, high);
    }
  }

  lemma {:induction false} FlowBelow(f: Fn, s: Stmt, ck: Ck, high: Slots)
    requires IsFlow(s) && Adds(s) <= high && ck.sure <= high
    ensures Below(high, ck, Walk(f, s, ck))
    decreases s, 1
  {
    match s
    case Block(b) => BlockBelow(f, b, ck, high);
    case If(c, _, _) =>
      TypeFrame(f, c, ck);
      IfBelow(f, s, Reject(TypeExpr(f, c, ck)), high);
    case EncryptedIf(c, _, _) =>
      CheckedFrame(f, c, ck);
      EncryptedBelow(f, s, TypeChecked(f, c, ck), high);
    case While(_, _) =>
      TypeFrame(f, s.c, Reject(ck));
      WhileBelow(f, s, TypeExpr(f, s.c, Reject(ck)), high);
    case DoWhile(_, _) => DoBelow(f, s, Reject(ck), high);
    case For(_, _, _, _) => WholeForBelow(f, s, ck, high);
    case Try(_, _) => TryBelow(f, s, ck, high);
  }

  lemma {:induction false} TryBelow(f: Fn, s: Stmt, ck: Ck, high: Slots)
    requires s.Try? && Adds(s) <= high && ck.sure <= high
    ensures Below(high, ck, Walk(f, s, ck))
    decreases s, 0, 0
  {
    var c := TypeExpr(f, s.e, Reject(ck));
    TypeFrame(f, s.e, Reject(ck));
    ClausesBelow(f, s.clauses, c.sure, c.terminated, c, high);
    var r := WalkClauses(f, s.clauses, c.sure, c.terminated, c);
    JoinBelow(r.outs, r.ck, high);
  }

  lemma {:induction false} WholeForBelow(f: Fn, s: Stmt, ck: Ck, high: Slots)
    requires s.For? && Adds(s) <= high && ck.sure <= high
    ensures Below(high, ck, Walk(f, s, ck)) && Below(high, ck, ForEntry(f, s, ck))
    decreases s, 0, 1
  {
    var c0 := Reject(ck);
    var c1 := if s.first.Some? then Walk(f, s.first.value, c0) else c0;
    if s.first.Some? { WalkBelow(f, s.first.value, c0, high); }
    if s.cond.Some? { TypeFrame(f, s.cond.value, c1); }
    ForBelow(f, s, ForEntry(f, s, ck), high);
    BelowTrans(high, ck, ForEntry(f, s, ck), Walk(f, s, ck));
  }

  lemma {:induction false} BlockBelow(f: Fn, ss: seq<Stmt>, ck: Ck, high: Slots)
    requires AddsAll(ss) <= high && ck.sure <= high
    ensures Below(high, ck, WalkBlock(f, ss, ck))
    decreases ss, 0
  {
    if ss != [] && !ck.terminated {
      WalkBelow(f, ss[0], ck, high);
      BlockBelow(f, ss[1..], Walk(f, ss[0], ck), high);
      BelowTrans(high, ck, Walk(f, ss[0], ck), WalkBlock(f, ss, ck));
    }
  }

  lemma {:induction false} IfBelow(f: Fn, s: Stmt, ck: Ck, high: Slots)
    requires s.If? && Adds(s) <= high && ck.sure <= high && Reject(ck) == ck
    ensures Below(high, ck, WalkIf(f, s, ck))
    decreases s, 0, 0
  {
    var t := Walk(f, s.thn, ck);
    WalkBelow(f, s.thn, ck, high);
    var c2 := t.(sure := ck.sure, terminated := ck.terminated);
    var e := if s.els.Some? then Walk(f, s.els.value, c2) else c2;
    if s.els.Some? { WalkBelow(f, s.els.value, c2, high); }
    BelowTrans(high, ck, c2, e);
    JoinBelow(FellState(t) + (if s.els.Some? && e.terminated then [] else [e.sure]), e, high);
  }

  lemma {:induction false} EncryptedBelow(f: Fn, s: Stmt, ck: Ck, high: Slots)
    requires s.EncryptedIf? && Adds(s) <= high && ck.sure <= high
    ensures Below(high, ck, WalkEncryptedIf(f, s, ck))
    decreases s, 0, 0
  {
    var t := Walk(f, s.thn, OpenBranch(ck));
    WalkBelow(f, s.thn, OpenBranch(ck), high);
    WalkFrame(f, s.thn, OpenBranch(ck));
    var c2 := NextArm(ck.sure, t);
    var e := if s.els.Some? then Walk(f, s.els.value, c2) else c2;
    if s.els.Some? {
      WalkBelow(f, s.els.value, c2, high);
      WalkFrame(f, s.els.value, c2);
    }
    CloseBelow(f, ck, t, e, s.els.None?, high);
  }

  lemma CloseBelow(f: Fn, ck: Ck, t: Ck, e: Ck, oneArm: bool, high: Slots)
    requires ck.sure <= high && Below(high, OpenBranch(ck), t) && Below(high, NextArm(ck.sure, t), e)
    requires Frame(OpenBranch(ck), t) && Frame(NextArm(ck.sure, t), e)
    ensures Below(high, ck, CloseBranch(f, ck.sure, ck.terminated, oneArm, t, e))
  {
    assert Pop(OpenBranch(ck).branchWrites) == ck.branchWrites;
    assert Pop(NextArm(ck.sure, t).branchWrites) == ck.branchWrites;
    AddSlotsFrame(ck.branchWrites, Outer(f, ck, TopSlots(t.branchWrites) + TopSlots(e.branchWrites)));
  }

  lemma {:induction false} WhileBelow(f: Fn, s: Stmt, ck: Ck, high: Slots)
    requires s.While? && Adds(s) <= high && ck.sure <= high
    ensures Below(high, ck, WalkWhile(f, s, ck))
    decreases s, 0, 0
  {
    WalkBelow(f, s.loop, OpenLoop(ck), high);
    WalkFrame(f, s.loop, OpenLoop(ck));
    LoopBelow(ck, Walk(f, s.loop, OpenLoop(ck)), high);
  }

  lemma LoopBelow(ck: Ck, b: Ck, high: Slots)
    requires ck.sure <= high && Below(high, OpenLoop(ck), b) && Frame(OpenLoop(ck), b)
    ensures Below(high, ck, JoinAll([ck.sure] + FellState(b) + TopStates(b.breaks) + TopStates(b.continues), CloseLoop(b)).(terminated := ck.terminated))
  {
    LoopFrame(ck, b);
    assert TopStates(OpenLoop(ck).breaks) == [] && TopStates(OpenLoop(ck).continues) == [];
    JoinBelow([ck.sure] + FellState(b) + TopStates(b.breaks) + TopStates(b.continues), CloseLoop(b), high);
  }

  lemma {:induction false} DoBelow(f: Fn, s: Stmt, ck: Ck, high: Slots)
    requires s.DoWhile? && Adds(s) <= high && ck.sure <= high
    ensures Below(high, ck, WalkDo(f, s, ck))
    decreases s, 0, 0
  {
    var b := Walk(f, s.loop, OpenLoop(ck));
    WalkBelow(f, s.loop, OpenLoop(ck), high);
    WalkFrame(f, s.loop, OpenLoop(ck));
    LoopFrame(ck, b);
    TypeFrame(f, s.c, CloseLoop(b));
    assert TopStates(OpenLoop(ck).breaks) == [] && TopStates(OpenLoop(ck).continues) == [];
    JoinBelow(FellState(b) + TopStates(b.breaks) + TopStates(b.continues), TypeExpr(f, s.c, CloseLoop(b)), high);
  }

  lemma {:induction false} ForBelow(f: Fn, s: Stmt, ck: Ck, high: Slots)
    requires s.For? && Adds(s) <= high && ck.sure <= high
    ensures Below(high, ck, WalkFor(f, s, ck))
    decreases s, 0, 0
  {
    var b := Walk(f, s.loop, OpenLoop(ck));
    WalkBelow(f, s.loop, OpenLoop(ck), high);
    WalkFrame(f, s.loop, OpenLoop(ck));
    NextFrame(f, s.next, b);
    FrameTrans(OpenLoop(ck), b, TypeNext(f, s.next, b));
    LoopBelow(ck, TypeNext(f, s.next, b), high);
  }

  lemma {:induction false} ClausesBelow(f: Fn, clauses: seq<Clause>, snap: Slots, terminated: bool, ck: Ck, high: Slots)
    requires AddsClauses(clauses) + snap + ck.sure <= high
    ensures var r := WalkClauses(f, clauses, snap, terminated, ck); Below(high, ck, r.ck) && forall st | st in r.outs :: st <= high
    decreases clauses, 0
  {
    if clauses != [] {
      var c1 := ck.(sure := snap + clauses[0].params, terminated := terminated);
      BlockBelow(f, clauses[0].body, c1, high);
      var r := WalkBlock(f, clauses[0].body, c1);
      ClausesBelow(f, clauses[1..], snap, terminated, r, high);
      BelowTrans(high, ck, r, WalkClauses(f, clauses, snap, terminated, ck).ck);
    }
  }

  // ---- tidy text keeps the walk disciplined --------------------------------------------

  /** A tidy loop body leaves nothing lower than it was. */
  lemma TidyLoop(f: Fn, b: Stmt, known: Slots, ck: Ck)
    requires LoopTidy(b, known) && ck.sure <= known
    ensures NotLower(ck.sure, Walk(f, b, OpenLoop(ck)))
  {
    assert TopStates(OpenLoop(ck).breaks) == [] && TopStates(OpenLoop(ck).continues) == [];
    WalkAbove(f, b, OpenLoop(ck), ck.sure, Declares(b));
  }

  /** Text that is tidy gives a walk that is disciplined, wherever it starts. */
  lemma {:induction false} TidyDisciplined(f: Fn, s: Stmt, known: Slots, ck: Ck)
    requires Tidy(s, known) && ck.sure <= known
    ensures Disciplined(f, s, ck)
    decreases s, 1
  {
    match s
    case Block(b) => TidyBlock(f, b, known, ck);
    case If(c, t, e) =>
      var c1 := Reject(TypeExpr(f, c, ck));
      TypeFrame(f, c, ck);
      TidyDisciplined(f, t, known, c1);
      if e.Some? { TidyDisciplined(f, e.value, known, Walk(f, t, c1).(sure := c1.sure, terminated := c1.terminated)); }
    case EncryptedIf(c, t, e) =>
      var c1 := TypeChecked(f, c, ck);
      CheckedFrame(f, c, ck);
      TidyDisciplined(f, t, known, OpenBranch(c1));
      if e.Some? { TidyDisciplined(f, e.value, known, NextArm(c1.sure, Walk(f, t, OpenBranch(c1)))); }
    case While(c, b) =>
      var c1 := TypeExpr(f, c, Reject(ck));
      TypeFrame(f, c, Reject(ck));
      TidyLoop(f, b, known, c1);
      TidyDisciplined(f, b, known, OpenLoop(c1));
    case DoWhile(b, _) =>
      TidyLoop(f, b, known, Reject(ck));
      TidyDisciplined(f, b, known, OpenLoop(Reject(ck)));
    case For(_, _, _, _) => TidyFor(f, s, known, ck);
    case Try(e, clauses) =>
      var c1 := TypeExpr(f, e, Reject(ck));
      TypeFrame(f, e, Reject(ck));
      TidyTry(f, clauses, known, c1.sure, c1.terminated, c1);
    case _ =>
  }

  lemma {:induction false} TidyBlock(f: Fn, ss: seq<Stmt>, known: Slots, ck: Ck)
    requires TidyAll(ss, known) && ck.sure <= known
    ensures DisciplinedBlock(f, ss, ck)
    decreases ss, 0
  {
    if ss != [] && !ck.terminated {
      TidyDisciplined(f, ss[0], known, ck);
      WalkBelow(f, ss[0], ck, known + Adds(ss[0]));
      TidyBlock(f, ss[1..], known + Adds(ss[0]), Walk(f, ss[0], ck));
    }
  }

  lemma {:induction false} TidyFor(f: Fn, s: Stmt, known: Slots, ck: Ck)
    requires s.For? && Tidy(s, known) && ck.sure <= known
    ensures Disciplined(f, s, ck)
    decreases s, 0
  {
    var c0 := Reject(ck);
    var known1 := known + if s.first.Some? then Adds(s.first.value) else {};
    var c1 := ForEntry(f, s, ck);
    if s.first.Some? {
      TidyDisciplined(f, s.first.value, known, c0);
      WalkBelow(f, s.first.value, c0, known1);
    }
    if s.cond.Some? { TypeFrame(f, s.cond.value, if s.first.Some? then Walk(f, s.first.value, c0) else c0); }
    TidyLoop(f, s.loop, known1, c1);
    TidyDisciplined(f, s.loop, known1, OpenLoop(c1));
  }

  lemma {:induction false} TidyTry(f: Fn, clauses: seq<Clause>, known: Slots, snap: Slots, terminated: bool, ck: Ck)
    requires TidyClauses(clauses, known) && snap <= known
    ensures DisciplinedClauses(f, clauses, snap, terminated, ck)
    decreases clauses, 0
  {
    if clauses != [] {
      var c1 := ck.(sure := snap + clauses[0].params, terminated := terminated);
      TidyBlock(f, clauses[0].body, known + clauses[0].params, c1);
      TidyTry(f, clauses[1..], known, snap, terminated, WalkBlock(f, clauses[0].body, c1));
    }
  }

  /**
   Soundness with hypotheses on the text alone: when the check of a tidy function
   reports nothing, no run lets a default handle out.
   */
  lemma TidyCheckSound(f: Fn, params: Slots, body: seq<Stmt>, riskyModifier: bool, o: Outcome, k: nat)
    requires TidyAll(body, params) && DepthsAllOk(f, body, 0)
    requires CheckFunction(f, params, body, riskyModifier) == {}
    requires FunctionRuns(f, params, body, o, k)
    ensures Clean(f, o)
  {
    TidyBlock(f, body, params, Start(params - f.named));
    CheckSound(f, params, body, riskyModifier, o, k);
  }
}
