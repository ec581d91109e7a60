/** What the definite-assignment walk leaves alone, and what it logs in encrypted branches. */
module DefiniteFrames {
  import opened Wrappers
  import opened DefiniteAssignment

  /** `b` comes after `a` inside the same branch and the same loop. */
  ghost predicate Frame(a: Ck, b: Ck) {
    && b.branchDepth == a.branchDepth
    && |b.branchWrites| == |a.branchWrites| && Pop(b.branchWrites) == Pop(a.branchWrites)
    && |b.branchReads| == |a.branchReads| && Pop(b.branchReads) == Pop(a.branchReads)
    && |b.breaks| == |a.breaks| && Pop(b.breaks) == Pop(a.breaks)
    && |b.continues| == |a.continues| && Pop(b.continues) == Pop(a.continues)
    && (forall st | st in TopStates(a.breaks) :: st in TopStates(b.breaks))
    && (forall st | st in TopStates(a.continues) :: st in TopStates(b.continues))
    && TopSlots(a.branchWrites) <= TopSlots(b.branchWrites) && TopSlots(a.branchReads) <= TopSlots(b.branchReads)
    && a.diags <= b.diags
  }

  lemma FrameTrans(a: Ck, b: Ck, c: Ck)
    requires Frame(a, b) && Frame(b, c)
    ensures Frame(a, c)
  {
  }

  lemma AddSlotsFrame(stack: seq<Slots>, xs: Slots)
    ensures |AddSlots(stack, xs)| == |stack| && Pop(AddSlots(stack, xs)) == Pop(stack)
    ensures TopSlots(AddSlots(stack, xs)) == if stack == [] then {} else TopSlots(stack) + xs
  {
  }

  lemma AddStateFrame(stack: seq<seq<Slots>>, st: Slots)
    ensures |AddState(stack, st)| == |stack| && Pop(AddState(stack, st)) == Pop(stack)
    ensures TopStates(AddState(stack, st)) == if stack == [] then [] else TopStates(stack) + [st]
  {
  }

  lemma TypeFrame(f: Fn, e: Expr, ck: Ck)
    ensures Frame(ck, TypeExpr(f, e, ck)) && TypeExpr(f, e, ck).sure == ck.sure && TypeExpr(f, e, ck).terminated == ck.terminated
    ensures TypeExpr(f, e, ck).branchWrites == ck.branchWrites
    ensures TypeExpr(f, e, ck).breaks == ck.breaks && TypeExpr(f, e, ck).continues == ck.continues
    ensures TypeExpr(f, e, ck).diags == {} ==> e.uses <= ck.sure
  {
    AddSlotsFrame(ck.branchReads, Outer(f, ck, e.flows + e.uses - ck.sure));
    FlagFrame(e.uses, NoteReads(f, e.flows + e.uses, ck));
  }

  lemma FlagFrame(xs: Slots, ck: Ck)
    ensures Frame(ck, Flag(xs, ck)) && Flag(xs, ck) == ck.(diags := Flag(xs, ck).diags)
    ensures Flag(xs, ck).diags == {} ==> xs <= ck.sure
  {
    forall x | x in xs
      ensures x in ck.sure || Uninit(x) in Flag(xs, ck).diags
    {
      assert x !in ck.sure ==> x in xs - ck.sure;
    }
  }

  lemma CheckedFrame(f: Fn, e: Expr, ck: Ck)
    ensures Frame(ck, TypeChecked(f, e, ck)) && TypeChecked(f, e, ck).sure == ck.sure && TypeChecked(f, e, ck).terminated == ck.terminated
    ensures TypeChecked(f, e, ck).branchWrites == ck.branchWrites
    ensures TypeChecked(f, e, ck).breaks == ck.breaks && TypeChecked(f, e, ck).continues == ck.continues
    ensures TypeChecked(f, e, ck).diags == {} ==> e.uses <= ck.sure && e.flows <= ck.sure
  {
    TypeFrame(f, e, ck);
    FlagFrame(e.flows, TypeExpr(f, e, ck));
  }

  function UnionUses(es: seq<Expr>): Slots {
    if es == [] then {} else es[0].uses + UnionUses(es[1..])
  }

  lemma {:induction false} TypeAllFrame(f: Fn, es: seq<Expr>, ck: Ck)
    ensures Frame(ck, TypeAll(f, es, ck)) && TypeAll(f, es, ck).sure == ck.sure && TypeAll(f, es, ck).terminated == ck.terminated
    ensures TypeAll(f, es, ck).branchWrites == ck.branchWrites
    ensures TypeAll(f, es, ck).breaks == ck.breaks && TypeAll(f, es, ck).continues == ck.continues
    ensures TypeAll(f, es, ck).diags == {} ==> UnionUses(es) <= ck.sure
    decreases es
  {
    if es != [] {
      TypeFrame(f, es[0], ck);
      TypeAllFrame(f, es[1..], TypeExpr(f, es[0], ck));
      FrameTrans(ck, TypeExpr(f, es[0], ck), TypeAll(f, es, ck));
    }
  }

  lemma PutFrame(f: Fn, x: Slot, tainted: bool, ck: Ck)
    ensures Frame(ck, Put(f, x, tainted, ck)) && Put(f, x, tainted, ck).terminated == ck.terminated
    ensures Put(f, x, tainted, ck).sure == if tainted then ck.sure - {x} else ck.sure + {x}
    ensures Put(f, x, tainted, ck).branchWrites == if InBranch(ck) then AddSlots(ck.branchWrites, Outer(f, ck, {x})) else ck.branchWrites
    ensures Put(f, x, tainted, ck).breaks == ck.breaks && Put(f, x, tainted, ck).continues == ck.continues
    ensures Put(f, x, tainted, ck).diags == ck.diags
  {
    AddSlotsFrame(ck.branchWrites, Outer(f, ck, {x}));
    assert ck.sure + {x} - {x} == ck.sure - {x};
  }

  /** The locals among the tuple targets from `k` on. */
  function LocalsFrom(targets: seq<Target>, k: nat): Slots
    requires k <= |targets|
    decreases |targets| - k
  {
    if k == |targets| then {} else (if targets[k].Local? then {targets[k].x} else {}) + LocalsFrom(targets, k + 1)
  }

  lemma {:induction false} PutAllFrame(f: Fn, targets: seq<Target>, parts: seq<Expr>, before: Slots, k: nat, ck: Ck)
    requires k <= |targets|
    ensures var r := PutAll(f, targets, parts, before, k, ck);
            && Frame(ck, r) && r.terminated == ck.terminated && r.breaks == ck.breaks && r.continues == ck.continues
            && (InBranch(ck) && ck.branchWrites != [] ==>
                  TopSlots(r.branchWrites) == TopSlots(ck.branchWrites) + Outer(f, ck, LocalsFrom(targets, k)))
            && r.sure <= ck.sure + LocalsFrom(targets, k)
    decreases |targets| - k
  {
    if k < |targets| {
      var next := PutAll(f, targets, parts, before, k, ck);
      match targets[k]
      case Local(x) =>
        var c := Put(f, x, !(PartFlows(parts, |targets|, k) <= before), ck);
        PutFrame(f, x, !(PartFlows(parts, |targets|, k) <= before), ck);
        AddSlotsFrame(ck.branchWrites, Outer(f, ck, {x}));
        PutAllFrame(f, targets, parts, before, k + 1, c);
        FrameTrans(ck, c, next);
        assert Outer(f, ck, LocalsFrom(targets, k)) == Outer(f, ck, {x}) + Outer(f, c, LocalsFrom(targets, k + 1));
      case Elsewhere =>
        var c := ck.(diags := ck.diags + set x | x in PartFlows(parts, |targets|, k) - before :: Uninit(x));
        PutAllFrame(f, targets, parts, before, k + 1, c);
        FrameTrans(ck, c, next);
        assert LocalsFrom(targets, k) == LocalsFrom(targets, k + 1);
      case Hole =>
        PutAllFrame(f, targets, parts, before, k + 1, ck);
        assert LocalsFrom(targets, k) == LocalsFrom(targets, k + 1);
    }
  }

  function DeclaredFrom(xs: seq<Option<Slot>>, k: nat): Slots
    requires k <= |xs|
    decreases |xs| - k
  {
    if k == |xs| then {} else (if xs[k].Some? then {xs[k].value} else {}) + DeclaredFrom(xs, k + 1)
  }

  lemma {:induction false} DeclareAllFrame(xs: seq<Option<Slot>>, parts: seq<Expr>, before: Slots, k: nat, ck: Ck)
    requires k <= |xs|
    ensures var r := DeclareAll(xs, parts, before, k, ck);
            && r == ck.(sure := r.sure) && r.sure <= ck.sure + DeclaredFrom(xs, k)
    decreases |xs| - k
  {
    if k < |xs| {
      var next := if xs[k].Some? then Declare(xs[k].value, |parts| != |xs| || parts[k].flows <= before, ck) else ck;
      DeclareAllFrame(xs, parts, before, k + 1, next);
    }
  }

  predicate IsWrite(s: Stmt) {
    s.Decl? || s.DeclTuple? || s.Assign? || s.TupleAssign? || s.Compound?
  }

  predicate IsFlow(s: Stmt) {
    s.Block? || s.If? || s.EncryptedIf? || s.While? || s.DoWhile? || s.For? || s.Try?
  }

  lemma WriteFrame(f: Fn, s: Stmt, ck: Ck)
    requires IsWrite(s)
    ensures Frame(ck, Walk(f, s, ck)) && Walk(f, s, ck).terminated == ck.terminated
    ensures Walk(f, s, ck).breaks == ck.breaks && Walk(f, s, ck).continues == ck.continues
  {
    match s
    case Decl(x, init) => if init.Some? { TypeFrame(f, init.value, ck); }
    case DeclTuple(xs, parts) =>
      TypeAllFrame(f, parts, ck);
      DeclareAllFrame(xs, parts, ck.sure, 0, TypeAll(f, parts, ck));
    case Assign(x, e) =>
      TypeFrame(f, e, ck);
      PutFrame(f, x, !(e.flows <= ck.sure), TypeExpr(f, e, ck));
      FrameTrans(ck, TypeExpr(f, e, ck), Walk(f, s, ck));
    case TupleAssign(targets, parts) =>
      TypeAllFrame(f, parts, ck);
      PutAllFrame(f, targets, parts, ck.sure, 0, TypeAll(f, parts, ck));
      FrameTrans(ck, TypeAll(f, parts, ck), Walk(f, s, ck));
    case Compound(x, e) => CompoundFrame(f, x, e, ck);
  }

  lemma CompoundFrame(f: Fn, x: Slot, e: Expr, ck: Ck)
    ensures var r := Walk(f, Compound(x, e), ck);
            && Frame(ck, r) && r.terminated == ck.terminated && r.breaks == ck.breaks && r.continues == ck.continues
            && r.sure == ck.sure + {x}
            && r.branchWrites == (if InBranch(ck) then AddSlots(ck.branchWrites, Outer(f, ck, {x})) else ck.branchWrites)
            && (r.diags == {} ==> e.uses <= ck.sure && e.flows <= ck.sure && x in ck.sure)
  {
    var c := TypeChecked(f, e, ck);
    CheckedFrame(f, e, ck);
    FlagFrame({x}, c);
    PutFrame(f, x, false, Flag({x}, c));
    FrameTrans(ck, c, Flag({x}, c));
    FrameTrans(ck, Flag({x}, c), NoteAssign(f, x, Flag({x}, c)));
  }

  lemma PlainFrame(f: Fn, s: Stmt, ck: Ck)
    requires !IsWrite(s) && !IsFlow(s)
    ensures Frame(ck, Walk(f, s, ck)) && Walk(f, s, ck).sure == ck.sure
  {
    match s
    case Store(e) => CheckedFrame(f, e, ck);
    case ExprStmt(e) => TypeFrame(f, e, ck);
    case Break => JumpFrame(f, s, ck);
    case Continue => JumpFrame(f, s, ck);
    case Return(v) => ReturnFrame(f, v, ck);
    case Revert(e) => TypeFrame(f, e, Reject(ck));
    case Halt(e) => TypeFrame(f, e, Reject(ck));
    case Emit(e) => TypeFrame(f, e, Reject(ck));
    case Assembly =>
  }

  lemma JumpFrame(f: Fn, s: Stmt, ck: Ck)
    requires s.Break? || s.Continue?
    ensures Frame(ck, Walk(f, s, ck)) && Walk(f, s, ck).sure == ck.sure
  {
    AddStateFrame(ck.breaks, ck.sure);
    AddStateFrame(ck.continues, ck.sure);
  }

  lemma ReturnFrame(f: Fn, v: Option<Expr>, ck: Ck)
    ensures Frame(ck, Walk(f, Return(v), ck)) && Walk(f, Return(v), ck).sure == ck.sure
  {
    if v.Some? { CheckedFrame(f, v.value, Reject(ck)); } else { FlagFrame(f.named, Reject(ck)); }
  }

  lemma {:induction false} WalkFrame(f: Fn, s: Stmt, ck: Ck)
    ensures Frame(ck, Walk(f, s, ck))
    decreases s, 3
  {
    if IsWrite(s) {
      WriteFrame(f, s, ck);
    } else if IsFlow(s) {
      FlowFrame(f, s, ck);
    } else {
      PlainFrame(f, s, ck);
    }
  }

  lemma {:induction false} FlowFrame(f: Fn, s: Stmt, ck: Ck)
    requires IsFlow(s)
    ensures Frame(ck, Walk(f, s, ck))
    decreases s, 2
  {
    match s
    case Block(b) => BlockFrame(f, b, ck);
    case If(_, _, _) => BranchingFrame(f, s, ck);
    case EncryptedIf(_, _, _) => BranchingFrame(f, s, ck);
    case While(_, _) => LoopingFrame(f, s, ck);
    case DoWhile(_, _) => LoopingFrame(f, s, ck);
    case For(_, _, _, _) => WholeForFrame(f, s, ck);
    case Try(_, _) => TryFrame(f, s, ck);
  }

  lemma {:induction false} BranchingFrame(f: Fn, s: Stmt, ck: Ck)
    requires s.If? || s.EncryptedIf?
    ensures Frame(ck, Walk(f, s, ck))
    decreases s, 1
  {
    if s.If? {
      TypeFrame(f, s.c, ck);
      IfFrame(f, s, TypeExpr(f, s.c, ck));
      FrameTrans(ck, TypeExpr(f, s.c, ck), Walk(f, s, ck));
    } else {
      CheckedFrame(f, s.c, ck);
      EncryptedFrame(f, s, TypeChecked(f, s.c, ck));
      FrameTrans(ck, TypeChecked(f, s.c, ck), Walk(f, s, ck));
    }
  }

  lemma {:induction false} LoopingFrame(f: Fn, s: Stmt, ck: Ck)
    requires s.While? || s.DoWhile?
    ensures Frame(ck, Walk(f, s, ck))
    decreases s, 1
  {
    if s.While? {
      TypeFrame(f, s.c, Reject(ck));
      WhileFrame(f, s, TypeExpr(f, s.c, Reject(ck)));
      FrameTrans(ck, TypeExpr(f, s.c, Reject(ck)), Walk(f, s, ck));
    } else {
      DoFrame(f, s, Reject(ck));
    }
  }

  lemma {:induction false} TryFrame(f: Fn, s: Stmt, ck: Ck)
    requires s.Try?
    ensures Frame(ck, Walk(f, s, ck))
    decreases s, 1
  {
    TypeFrame(f, s.e, Reject(ck));
    var c := TypeExpr(f, s.e, Reject(ck));
    ClausesFrame(f, s.clauses, c.sure, c.terminated, c);
    FrameTrans(ck, c, Walk(f, s, ck));
  }

  /** The checker's state when the loop itself begins. */
  function ForEntry(f: Fn, s: Stmt, ck: Ck): Ck
    requires s.For?
  {
    TypeOption(f, s.cond, if s.first.Some? then Walk(f, s.first.value, Reject(ck)) else Reject(ck))
  }

  lemma {:induction false} WholeForFrame(f: Fn, s: Stmt, ck: Ck)
    requires s.For?
    ensures Frame(ck, Walk(f, s, ck)) && Frame(ck, ForEntry(f, s, ck))
    decreases s, 1
  {
    var c0 := Reject(ck);
    if s.first.Some? { WalkFrame(f, s.first.value, c0); }
    var c1 := if s.first.Some? then Walk(f, s.first.value, c0) else c0;
    if s.cond.Some? { TypeFrame(f, s.cond.value, c1); }
    var c2 := ForEntry(f, s, ck);
    FrameTrans(ck, c0, c1);
    FrameTrans(ck, c1, c2);
    ForFrame(f, s, c2);
    FrameTrans(ck, c2, Walk(f, s, ck));
  }

  lemma {:induction false} BlockFrame(f: Fn, ss: seq<Stmt>, ck: Ck)
    ensures Frame(ck, WalkBlock(f, ss, ck))
    decreases ss, 0
  {
    if ss != [] && !ck.terminated {
      WalkFrame(f, ss[0], ck);
      BlockFrame(f, ss[1..], Walk(f, ss[0], ck));
      FrameTrans(ck, Walk(f, ss[0], ck), WalkBlock(f, ss, ck));
    }
  }

  lemma {:induction false} IfFrame(f: Fn, s: Stmt, c: Ck)
    requires s.If?
    ensures Frame(c, WalkIf(f, s, c))
    decreases s, 0
  {
    var ck := Reject(c);
    var t := Walk(f, s.thn, ck);
    WalkFrame(f, s.thn, ck);
    var c2 := t.(sure := ck.sure, terminated := ck.terminated);
    FrameTrans(c, ck, c2);
    if s.els.Some? {
      WalkFrame(f, s.els.value, c2);
      FrameTrans(c, c2, Walk(f, s.els.value, c2));
    }
  }

  lemma {:induction false} EncryptedFrame(f: Fn, s: Stmt, ck: Ck)
    requires s.EncryptedIf?
    ensures Frame(ck, WalkEncryptedIf(f, s, ck))
    decreases s, 0
  {
    var t := Walk(f, s.thn, OpenBranch(ck));
    WalkFrame(f, s.thn, OpenBranch(ck));
    var c2 := NextArm(ck.sure, t);
    var e := if s.els.Some? then Walk(f, s.els.value, c2) else c2;
    if s.els.Some? { WalkFrame(f, s.els.value, c2); }
    ClosedFrame(f, ck, t, e, s.els.None?);
  }

  lemma ClosedFrame(f: Fn, ck: Ck, t: Ck, e: Ck, oneArm: bool)
    requires Frame(OpenBranch(ck), t) && Frame(NextArm(ck.sure, t), e)
    ensures Frame(ck, CloseBranch(f, ck.sure, ck.terminated, oneArm, t, e))
  {
    assert Pop(OpenBranch(ck).branchWrites) == ck.branchWrites && Pop(OpenBranch(ck).branchReads) == ck.branchReads;
    assert Pop(NextArm(ck.sure, t).branchWrites) == ck.branchWrites && Pop(NextArm(ck.sure, t).branchReads) == ck.branchReads;
    AddSlotsFrame(ck.branchWrites, Outer(f, ck, TopSlots(t.branchWrites) + TopSlots(e.branchWrites)));
  }

  /** Closing a loop gives back the stacks it opened. */
  lemma LoopFrame(ck: Ck, b: Ck)
    requires Frame(OpenLoop(ck), b)
    ensures Frame(ck, CloseLoop(b)) && CloseLoop(b).breaks == ck.breaks && CloseLoop(b).continues == ck.continues
  {
    assert Pop(OpenLoop(ck).breaks) == ck.breaks && Pop(OpenLoop(ck).continues) == ck.continues;
  }

  lemma {:induction false} WhileFrame(f: Fn, s: Stmt, ck: Ck)
    requires s.While?
    ensures Frame(ck, WalkWhile(f, s, ck))
    decreases s, 0
  {
    WalkFrame(f, s.loop, OpenLoop(ck));
    LoopFrame(ck, Walk(f, s.loop, OpenLoop(ck)));
  }

  lemma {:induction false} DoFrame(f: Fn, s: Stmt, ck: Ck)
    requires s.DoWhile?
    ensures Frame(ck, WalkDo(f, s, ck))
    decreases s, 0
  {
    var b := Walk(f, s.loop, OpenLoop(ck));
    WalkFrame(f, s.loop, OpenLoop(ck));
    LoopFrame(ck, b);
    TypeFrame(f, s.c, CloseLoop(b));
    FrameTrans(ck, CloseLoop(b), TypeExpr(f, s.c, CloseLoop(b)));
  }

  lemma NextFrame(f: Fn, next: Option<Expr>, b: Ck)
    ensures Frame(b, TypeNext(f, next, b)) && TypeNext(f, next, b).sure == b.sure && TypeNext(f, next, b).terminated == b.terminated
    ensures TypeNext(f, next, b).breaks == b.breaks && TypeNext(f, next, b).continues == b.continues
    ensures TypeNext(f, next, b).branchWrites == b.branchWrites
  {
    if next.Some? {
      TypeFrame(f, next.value, b);
      TypeFrame(f, next.value, JoinAll(TopStates(b.continues), b));
    }
  }

  lemma {:induction false} ForFrame(f: Fn, s: Stmt, ck: Ck)
    requires s.For?
    ensures Frame(ck, WalkFor(f, s, ck))
    decreases s, 0
  {
    var b0 := Walk(f, s.loop, OpenLoop(ck));
    WalkFrame(f, s.loop, OpenLoop(ck));
    NextFrame(f, s.next, b0);
    FrameTrans(OpenLoop(ck), b0, TypeNext(f, s.next, b0));
    LoopFrame(ck, TypeNext(f, s.next, b0));
  }

  lemma {:induction false} ClausesFrame(f: Fn, clauses: seq<Clause>, snap: Slots, terminated: bool, ck: Ck)
    ensures Frame(ck, WalkClauses(f, clauses, snap, terminated, ck).ck)
    decreases clauses, 0
  {
    if clauses != [] {
      var c1 := ck.(sure := snap + clauses[0].params, terminated := terminated);
      BlockFrame(f, clauses[0].body, c1);
      var r := WalkBlock(f, clauses[0].body, c1);
      ClausesFrame(f, clauses[1..], snap, terminated, r);
      FrameTrans(ck, r, WalkClauses(f, clauses, snap, terminated, ck).ck);
    }
  }
}
