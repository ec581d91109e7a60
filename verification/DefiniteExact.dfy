/**
 The definite-assignment walk reports nothing but real faults: over a large part of
 the language every report has a run in which a default handle gets out.

 The walk is followed by a family of runs, given by the sets of initialised slots
 they reach a point with.  The family covers the checker's state when every slot
 the checker has not got as assigned is missing in some member.  Loops turn at most
 once.
 */
module DefiniteExact {
  import opened Wrappers
  import opened DefiniteAssignment
  import opened DefiniteFrames
  import opened DefiniteBranches
  import opened DefiniteRuns
  import opened DefiniteSound
  import opened DefiniteSyntax

  type Family = iset<Slots>

  ghost predicate Covers(r: Family, sure: Slots) {
    (exists i :: i in r) && forall x :: x !in sure ==> exists i :: i in r && x !in i
  }

  ghost function Fells(f: Fn, s: Stmt, d: nat, r: Family): Family {
    iset j: Slots | exists i :: i in r && Runs(f, s, d, i, Fell(j), 1)
  }

  ghost function Brokes(f: Fn, s: Stmt, d: nat, r: Family): Family {
    iset j: Slots | exists i :: i in r && Runs(f, s, d, i, Broke(j), 1)
  }

  ghost function Conts(f: Fn, s: Stmt, d: nat, r: Family): Family {
    iset j: Slots | exists i :: i in r && Runs(f, s, d, i, Continued(j), 1)
  }

  /** Some run of the family goes wrong in the statement. */
  ghost predicate Goes(f: Fn, s: Stmt, d: nat, r: Family) {
    exists i :: i in r && Runs(f, s, d, i, Bad, 1)
  }

  // ---- the part of the language --------------------------------------------------------

  /** An arm of an encrypted `if`: assignments and declarations of computed values,
      stores, and encrypted `if`s. */
  predicate ArmForm(s: Stmt)
    decreases s
  {
    match s
    case Decl(_, init) => init.Some? ==> init.value.flows == {}
    case DeclTuple(_, parts) => UnionFlows(parts) == {}
    case Assign(_, e) => e.flows == {}
    case TupleAssign(_, parts) => UnionFlows(parts) == {}
    case Compound(_, _) => true
    case Store(_) => true
    case ExprStmt(e) => e.flows == {}
    case Block(b) => forall x | x in b :: ArmForm(x)
    case EncryptedIf(_, t, e) => ArmForm(t) && (e.Some? ==> ArmForm(e.value))
    case _ => false
  }

  /** Control may leave the statement at its end, whatever it does. */
  predicate FallsThrough(s: Stmt)
    decreases s
  {
    match s
    case Break => false
    case Continue => false
    case Return(_) => false
    case Revert(_) => false
    case Halt(_) => false
    case Block(b) => forall x | x in b :: FallsThrough(x)
    case If(_, t, e) => FallsThrough(t) || e.None? || FallsThrough(e.value)
    case DoWhile(b, _) => FallsThrough(b)
    case For(first, _, _, _) => first.None? || FallsThrough(first.value)
    case Try(_, cs) => cs != [] && forall x | x in cs[0].body :: FallsThrough(x)
    case _ => true
  }

  /** What is written where a `for` starts. */
  predicate Simple(s: Stmt) {
    s.Decl? || s.DeclTuple? || s.Assign? || s.TupleAssign? || s.Compound? || s.Store? || s.ExprStmt?
  }

  /** Every statement, with three restrictions: on the arms of encrypted `if`s,
      on how a `for` starts, and on a `do` condition behind a body that never ends. */
  predicate Traceable(s: Stmt)
    decreases s
  {
    match s
    case Block(b) => forall x | x in b :: Traceable(x)
    case If(_, t, e) => Traceable(t) && (e.Some? ==> Traceable(e.value))
    case EncryptedIf(_, _, _) => ArmForm(s)
    case While(_, b) => Traceable(b)
    case DoWhile(b, c) => Traceable(b) && (c.uses == {} || FallsThrough(b))
    case For(first, _, _, b) => (first.Some? ==> Simple(first.value)) && Traceable(b)
    case Try(_, cs) => forall c | c in cs :: forall x | x in c.body :: Traceable(x)
    case _ => true
  }

  /** A declaration without a value names a slot nothing has assigned: `known` holds all
      that may be assigned before. */
  predicate Placed(s: Stmt, known: Slots)
    decreases s
  {
    match s
    case Decl(x, init) => init.Some? || x !in known
    case Block(b) => PlacedAll(b, known)
    case If(_, t, e) => Placed(t, known) && (e.Some? ==> Placed(e.value, known))
    case EncryptedIf(_, t, e) => Placed(t, known) && (e.Some? ==> Placed(e.value, known))
    case While(_, b) => Placed(b, known)
    case DoWhile(b, _) => Placed(b, known)
    case For(i, _, _, b) => (i.Some? ==> Placed(i.value, known)) && Placed(b, known + (if i.Some? then Adds(i.value) else {}))
    case Try(_, cs) => forall c | c in cs :: PlacedAll(c.body, known + c.params)
    case _ => true
  }

  predicate PlacedAll(ss: seq<Stmt>, known: Slots)
    decreases ss
  {
    ss == [] || (Placed(ss[0], known) && PlacedAll(ss[1..], known + Adds(ss[0])))
  }

  lemma {:induction false} PlacedLess(s: Stmt, less: Slots, known: Slots)
    requires Placed(s, known) && less <= known
    ensures Placed(s, less)
    decreases s
  {
    match s
    case Block(b) => PlacedAllLess(b, less, known);
    case If(_, t, e) =>
      PlacedLess(t, less, known);
      if e.Some? { PlacedLess(e.value, less, known); }
    case EncryptedIf(_, t, e) =>
      PlacedLess(t, less, known);
      if e.Some? { PlacedLess(e.value, less, known); }
    case While(_, b) => PlacedLess(b, less, known);
    case DoWhile(b, _) => PlacedLess(b, less, known);
    case For(i, _, _, b) =>
      if i.Some? { PlacedLess(i.value, less, known); }
      PlacedLess(b, less + (if i.Some? then Adds(i.value) else {}), known + (if i.Some? then Adds(i.value) else {}));
    case Try(_, cs) =>
      forall c | c in cs
        ensures PlacedAll(c.body, less + c.params)
      {
        PlacedAllLess(c.body, less + c.params, known + c.params);
      }
    case _ =>
  }

  lemma {:induction false} PlacedAllLess(ss: seq<Stmt>, less: Slots, known: Slots)
    requires PlacedAll(ss, known) && less <= known
    ensures PlacedAll(ss, less)
    decreases ss
  {
    if ss != [] {
      PlacedLess(ss[0], less, known);
      PlacedAllLess(ss[1..], less + Adds(ss[0]), known + Adds(ss[0]));
    }
  }

  /** What follows a statement is placed where the walk leaves it. */
  lemma PlacedAfter(f: Fn, ss: seq<Stmt>, ck: Ck)
    requires ss != [] && PlacedAll(ss, ck.sure)
    ensures PlacedAll(ss[1..], Walk(f, ss[0], ck).sure)
  {
    WalkBelow(f, ss[0], ck, ck.sure + Adds(ss[0]));
    PlacedAllLess(ss[1..], Walk(f, ss[0], ck).sure, ck.sure + Adds(ss[0]));
  }

  ghost predicate Ready(s: Stmt, ck: Ck) {
    !ck.terminated && ck.diags == {} && Placed(s, ck.sure) && if InBranch(ck) then ArmForm(s) && ck.branchWrites != [] && ck.branchReads != [] else Traceable(s)
  }

  /** The states recorded at jumps since `a` are covered by runs that jump. */
  ghost predicate Jumped(a: Ck, b: Ck, brokes: Family, conts: Family) {
    && (forall st | st in TopStates(b.breaks) :: st in TopStates(a.breaks) || Covers(brokes, st))
    && (forall st | st in TopStates(b.continues) :: st in TopStates(a.continues) || Covers(conts, st))
  }

  /** From `a` to `b` nothing was reported, and the runs cover the states left behind. */
  ghost predicate Leaves(a: Ck, b: Ck, fells: Family, brokes: Family, conts: Family) {
    && b.diags == a.diags && b.branchReads == a.branchReads
    && (!b.terminated ==> Covers(fells, b.sure))
    && Jumped(a, b, brokes, conts)
  }

  /** The walk over the statement reports nothing, and the runs that leave it cover the
      states it leaves behind. */
  ghost predicate Kept(f: Fn, s: Stmt, ck: Ck, r: Family) {
    var d := ck.branchDepth;
    Leaves(ck, Walk(f, s, ck), Fells(f, s, d, r), Brokes(f, s, d, r), Conts(f, s, d, r))
  }

  // ---- families ------------------------------------------------------------------------

  lemma CoversMore(r: Family, q: Family, sure: Slots)
    requires Covers(r, sure) && r <= q
    ensures Covers(q, sure)
  {
    var i :| i in r;
    assert i in q;
    forall x | x !in sure
      ensures exists i :: i in q && x !in i
    {
      var j :| j in r && x !in j;
      assert j in q;
    }
  }

  /** What all members have is assigned. */
  lemma AllHave(r: Family, sure: Slots, xs: Slots)
    requires Covers(r, sure) && forall i | i in r :: xs <= i
    ensures xs <= sure
  {
  }

  lemma {:induction false} MeetMissing(states: seq<Slots>, x: Slot) returns (st: Slots)
    requires states != [] && x !in Meet(states)
    ensures st in states && x !in st
    decreases states
  {
    if |states| == 1 || x !in states[0] {
      st := states[0];
    } else {
      st := MeetMissing(states[1..], x);
    }
  }

  /** A join of covered states is covered. */
  lemma CoversMeet(r: Family, states: seq<Slots>)
    requires states != [] && forall st | st in states :: Covers(r, st)
    ensures Covers(r, Meet(states))
  {
    assert Covers(r, states[0]);
    forall x | x !in Meet(states)
      ensures exists i :: i in r && x !in i
    {
      var st := MeetMissing(states, x);
    }
  }

  // ---- expressions ---------------------------------------------------------------------

  lemma AddNone(stack: seq<Slots>)
    ensures AddSlots(stack, {}) == stack
  {
    if stack != [] {
      assert Top(stack) + {} == Top(stack);
      assert stack[..|stack| - 1] + [Top(stack)] == stack;
    }
  }

  lemma FlagKeeps(xs: Slots, ck: Ck)
    requires xs <= ck.sure
    ensures Flag(xs, ck) == ck
  {
    assert (set x | x in xs - ck.sure :: Uninit(x)) == {};
    assert ck.diags + {} == ck.diags;
  }

  lemma TypeKeeps(f: Fn, e: Expr, ck: Ck)
    requires e.uses <= ck.sure && (InBranch(ck) ==> e.flows <= ck.sure)
    ensures TypeExpr(f, e, ck) == ck
  {
    if InBranch(ck) {
      assert Outer(f, ck, e.flows + e.uses - ck.sure) == {};
      AddNone(ck.branchReads);
    }
    FlagKeeps(e.uses, ck);
  }

  lemma CheckedKeeps(f: Fn, e: Expr, ck: Ck)
    requires e.uses <= ck.sure && e.flows <= ck.sure
    ensures TypeChecked(f, e, ck) == ck
  {
    TypeKeeps(f, e, ck);
    FlagKeeps(e.flows, ck);
  }

  lemma {:induction false} TypeAllKeeps(f: Fn, es: seq<Expr>, ck: Ck)
    requires UnionUses(es) <= ck.sure && (InBranch(ck) ==> UnionFlows(es) <= ck.sure)
    ensures TypeAll(f, es, ck) == ck
    decreases es
  {
    if es != [] {
      TypeKeeps(f, es[0], ck);
      TypeAllKeeps(f, es[1..], ck);
    }
  }

  lemma RejectKeeps(ck: Ck)
    requires !InBranch(ck)
    ensures Reject(ck) == ck
  {
  }

  // ---- simple statements ---------------------------------------------------------------

  /** Slots that every run checks are assigned when no run of the family goes wrong. */
  lemma Checked(f: Fn, s: Stmt, d: nat, r: Family, sure: Slots, xs: Slots)
    requires Covers(r, sure) && !Goes(f, s, d, r)
    requires forall i: Slots | !(xs <= i) :: Runs(f, s, d, i, Bad, 1)
    ensures xs <= sure && forall i | i in r :: xs <= i
  {
    AllHave(r, sure, xs);
  }

  /** A statement that records no jump. */
  lemma StraightKept(f: Fn, s: Stmt, ck: Ck, w: Ck, r: Family)
    requires w == Walk(f, s, ck) && w.diags == ck.diags && w.branchReads == ck.branchReads
    requires w.breaks == ck.breaks && w.continues == ck.continues
    requires w.terminated || Covers(Fells(f, s, ck.branchDepth, r), w.sure)
    ensures Kept(f, s, ck, r)
  {
  }

  /** Members without some slots cover the state without them. */
  lemma LoweredCovers(r: Family, q: Family, sure: Slots, xs: Slots)
    requires Covers(r, sure) && forall i | i in r :: i - xs in q
    ensures Covers(q, sure - xs)
  {
    var i0 :| i0 in r;
    assert i0 - xs in q;
    forall x | x !in sure - xs
      ensures exists j :: j in q && x !in j
    {
      if x in xs {
        assert x !in i0 - xs;
      } else {
        var i :| i in r && x !in i;
        assert i - xs in q && x !in i - xs;
      }
    }
  }

  lemma WrittenCovers(r: Family, q: Family, sure: Slots, x: Slot, flows: Slots)
    requires Covers(r, sure) && forall i | i in r :: i + {x} in q && (!(flows <= i) ==> i - {x} in q)
    ensures Covers(q, if flows <= sure then sure + {x} else sure - {x})
  {
    var i0 :| i0 in r;
    assert i0 + {x} in q;
    if !(flows <= sure) {
      var z :| z in flows && z !in sure;
      var i :| i in r && z !in i;
      assert i - {x} in q && x !in i - {x};
    }
    forall y | y != x && y !in sure
      ensures exists j :: j in q && y !in j
    {
      var i :| i in r && y !in i;
      assert i + {x} in q && y !in i + {x};
    }
  }

  lemma DeclNoneKept(f: Fn, s: Stmt, ck: Ck, r: Family)
    requires s.Decl? && s.init.None? && Covers(r, ck.sure)
    ensures Kept(f, s, ck, r)
  {
    var d, q := ck.branchDepth, Fells(f, s, ck.branchDepth, r);
    forall i | i in r
      ensures i - {s.x} in q
    {
      assert Runs(f, s, d, i, Fell(i - {s.x}), 1);
    }
    LoweredCovers(r, q, ck.sure, {s.x});
    StraightKept(f, s, ck, ck.(sure := ck.sure - {s.x}), r);
  }

  /** The walk over a declaration with a value, or an assignment. */
  lemma WalkWrite(f: Fn, s: Stmt, x: Slot, e: Expr, ck: Ck)
    requires (s == Assign(x, e) || s == Decl(x, Some(e))) && e.uses <= ck.sure && (InBranch(ck) ==> e.flows <= ck.sure)
    ensures Walk(f, s, ck) == ck.(sure := if e.flows <= ck.sure then ck.sure + {x} else ck.sure - {x},
                                  branchWrites := Walk(f, s, ck).branchWrites)
  {
    TypeKeeps(f, e, ck);
    assert ck.sure + {x} - {x} == ck.sure - {x};
  }

  lemma WriteFells(f: Fn, s: Stmt, x: Slot, e: Expr, d: nat, r: Family)
    requires (s == Assign(x, e) || s == Decl(x, Some(e))) && forall i | i in r :: e.uses <= i
    ensures forall i | i in r :: i + {x} in Fells(f, s, d, r) && (!(e.flows <= i) ==> i - {x} in Fells(f, s, d, r))
  {
    forall i | i in r
      ensures i + {x} in Fells(f, s, d, r) && (!(e.flows <= i) ==> i - {x} in Fells(f, s, d, r))
    {
      assert Runs(f, s, d, i, Fell(i + {x}), 1);
      if !(e.flows <= i) { assert Runs(f, s, d, i, Fell(i - {x}), 1); }
    }
  }

  lemma WrittenKept(f: Fn, s: Stmt, x: Slot, flows: Slots, ck: Ck, w: Ck, r: Family)
    requires w == Walk(f, s, ck) && Covers(r, ck.sure)
    requires w == ck.(sure := if flows <= ck.sure then ck.sure + {x} else ck.sure - {x}, branchWrites := w.branchWrites)
    requires forall i | i in r :: i + {x} in Fells(f, s, ck.branchDepth, r) && (!(flows <= i) ==> i - {x} in Fells(f, s, ck.branchDepth, r))
    ensures Kept(f, s, ck, r)
  {
    WrittenCovers(r, Fells(f, s, ck.branchDepth, r), ck.sure, x, flows);
    StraightKept(f, s, ck, w, r);
  }

  lemma WriteKept(f: Fn, s: Stmt, x: Slot, e: Expr, ck: Ck, r: Family)
    requires s == Assign(x, e) || s == Decl(x, Some(e))
    requires Ready(s, ck) && Covers(r, ck.sure) && !Goes(f, s, ck.branchDepth, r)
    ensures Kept(f, s, ck, r)
  {
    Checked(f, s, ck.branchDepth, r, ck.sure, e.uses);
    WalkWrite(f, s, x, e, ck);
    WriteFells(f, s, x, e, ck.branchDepth, r);
    WrittenKept(f, s, x, e.flows, ck, Walk(f, s, ck), r);
  }

  /** Every member falls through as it is. */
  lemma SameFells(f: Fn, s: Stmt, d: nat, r: Family, sure: Slots)
    requires Covers(r, sure) && forall i | i in r :: Runs(f, s, d, i, Fell(i), 1)
    ensures Covers(Fells(f, s, d, r), sure)
  {
    CoversMore(r, Fells(f, s, d, r), sure);
  }

  lemma StoreKept(f: Fn, s: Stmt, ck: Ck, r: Family)
    requires s.Store? && Covers(r, ck.sure) && !Goes(f, s, ck.branchDepth, r)
    ensures Kept(f, s, ck, r)
  {
    Checked(f, s, ck.branchDepth, r, ck.sure, s.e.uses + s.e.flows);
    CheckedKeeps(f, s.e, ck);
    SameFells(f, s, ck.branchDepth, r, ck.sure);
    StraightKept(f, s, ck, ck, r);
  }

  lemma WalkCompound(f: Fn, s: Stmt, ck: Ck)
    requires s.Compound? && s.e.uses + s.e.flows + {s.x} <= ck.sure
    ensures Walk(f, s, ck) == ck.(branchWrites := Walk(f, s, ck).branchWrites)
  {
    CheckedKeeps(f, s.e, ck);
    FlagKeeps({s.x}, ck);
    assert ck.sure + {s.x} == ck.sure;
  }

  lemma CompoundKept(f: Fn, s: Stmt, ck: Ck, r: Family)
    requires s.Compound? && Covers(r, ck.sure) && !Goes(f, s, ck.branchDepth, r)
    ensures Kept(f, s, ck, r)
  {
    Checked(f, s, ck.branchDepth, r, ck.sure, s.e.uses + s.e.flows + {s.x});
    WalkCompound(f, s, ck);
    SameFells(f, s, ck.branchDepth, r, ck.sure);
    StraightKept(f, s, ck, Walk(f, s, ck), r);
  }

  /** Statements that only type an expression. */
  lemma TypedKept(f: Fn, s: Stmt, ck: Ck, r: Family)
    requires s.ExprStmt? || ((s.Emit? || s.Revert? || s.Halt?) && !InBranch(ck))
    requires Ready(s, ck) && Covers(r, ck.sure) && !Goes(f, s, ck.branchDepth, r)
    ensures Kept(f, s, ck, r)
  {
    Checked(f, s, ck.branchDepth, r, ck.sure, s.e.uses);
    TypeKeeps(f, s.e, ck);
    if s.ExprStmt? || s.Emit? {
      SameFells(f, s, ck.branchDepth, r, ck.sure);
      StraightKept(f, s, ck, ck, r);
    } else {
      StraightKept(f, s, ck, ck.(terminated := true), r);
    }
  }

  lemma ReturnKept(f: Fn, s: Stmt, ck: Ck, r: Family)
    requires s.Return? && !InBranch(ck) && Covers(r, ck.sure) && !Goes(f, s, ck.branchDepth, r)
    ensures Kept(f, s, ck, r)
  {
    if s.value.Some? {
      Checked(f, s, ck.branchDepth, r, ck.sure, s.value.value.uses + s.value.value.flows);
      CheckedKeeps(f, s.value.value, ck);
    } else {
      Checked(f, s, ck.branchDepth, r, ck.sure, f.named);
      FlagKeeps(f.named, ck);
    }
    StraightKept(f, s, ck, ck.(terminated := true), r);
  }

  lemma BreakCovers(f: Fn, d: nat, r: Family, sure: Slots)
    requires Covers(r, sure)
    ensures Covers(Brokes(f, Break, d, r), sure)
  {
    assert forall i | i in r :: Runs(f, Break, d, i, Broke(i), 1);
    CoversMore(r, Brokes(f, Break, d, r), sure);
  }

  lemma ContinueCovers(f: Fn, d: nat, r: Family, sure: Slots)
    requires Covers(r, sure)
    ensures Covers(Conts(f, Continue, d, r), sure)
  {
    assert forall i | i in r :: Runs(f, Continue, d, i, Continued(i), 1);
    CoversMore(r, Conts(f, Continue, d, r), sure);
  }

  lemma WalkJump(f: Fn, s: Stmt, ck: Ck)
    requires !InBranch(ck)
    ensures s.Break? ==> Walk(f, s, ck) == ck.(breaks := AddState(ck.breaks, ck.sure), terminated := true)
    ensures s.Continue? ==> Walk(f, s, ck) == ck.(continues := AddState(ck.continues, ck.sure), terminated := true)
  {
  }

  lemma BreakKept(f: Fn, ck: Ck, r: Family)
    requires !InBranch(ck) && Covers(Brokes(f, Break, ck.branchDepth, r), ck.sure)
    ensures Kept(f, Break, ck, r)
  {
    WalkJump(f, Break, ck);
    AddStateFrame(ck.breaks, ck.sure);
  }

  lemma ContinueKept(f: Fn, ck: Ck, r: Family)
    requires !InBranch(ck) && Covers(Conts(f, Continue, ck.branchDepth, r), ck.sure)
    ensures Kept(f, Continue, ck, r)
  {
    WalkJump(f, Continue, ck);
    AddStateFrame(ck.continues, ck.sure);
  }

  lemma AssemblyKept(f: Fn, ck: Ck, r: Family)
    requires !InBranch(ck) && Covers(r, ck.sure)
    ensures Kept(f, Assembly, ck, r)
  {
    SameFells(f, Assembly, ck.branchDepth, r, ck.sure);
    StraightKept(f, Assembly, ck, ck, r);
  }

  lemma {:induction false} SimpleKept(f: Fn, s: Stmt, ck: Ck, r: Family)
    requires Simple(s) || s.Emit? || s.Revert? || s.Halt? || s.Return? || s.Break? || s.Continue? || s.Assembly?
    requires Ready(s, ck) && Covers(r, ck.sure) && !Goes(f, s, ck.branchDepth, r)
    ensures Kept(f, s, ck, r)
  {
    match s
    case Decl(x, init) => if init.Some? { WriteKept(f, s, x, init.value, ck, r); } else { DeclNoneKept(f, s, ck, r); }
    case Assign(x, e) => WriteKept(f, s, x, e, ck, r);
    case DeclTuple(_, _) => DeclTupleKept(f, s, ck, r);
    case TupleAssign(_, _) => TupleKept(f, s, ck, r);
    case Compound(_, _) => CompoundKept(f, s, ck, r);
    case Store(_) => StoreKept(f, s, ck, r);
    case Return(_) => ReturnKept(f, s, ck, r);
    case Assembly => AssemblyKept(f, ck, r);
    case Break =>
      BreakCovers(f, ck.branchDepth, r, ck.sure);
      BreakKept(f, ck, r);
    case Continue =>
      ContinueCovers(f, ck.branchDepth, r, ck.sure);
      ContinueKept(f, ck, r);
    case _ => TypedKept(f, s, ck, r);
  }

  // ---- tuples --------------------------------------------------------------------------

  /** The component gives the local a value that may be the default handle. */
  predicate Taints(targets: seq<Target>, parts: seq<Expr>, before: Slots, k: nat, x: Slot)
    requires k < |targets|
  {
    targets[k] == Local(x) && !(PartFlows(parts, |targets|, k) <= before)
  }

  /** What is missing after the components from `k` on was missing before and is not
      written, or is tainted by one of them; storing is reported as it is wrong. */
  lemma {:induction false} PutAllLeaves(f: Fn, targets: seq<Target>, parts: seq<Expr>, before: Slots, k: nat, ck: Ck)
    requires k <= |targets|
    ensures var w := PutAll(f, targets, parts, before, k, ck);
            && w == ck.(sure := w.sure, branchWrites := w.branchWrites, diags := w.diags)
            && (forall x | x !in w.sure :: (x !in ck.sure && x !in LocalsFrom(targets, k)) || exists n | k <= n < |targets| :: Taints(targets, parts, before, n, x))
            && ((forall n | k <= n < |targets| && targets[n].Elsewhere? :: PartFlows(parts, |targets|, n) <= before) ==> w.diags == ck.diags)
    decreases |targets| - k
  {
    if k < |targets| {
      var rs := PartFlows(parts, |targets|, k);
      match targets[k]
      case Local(x) =>
        PutFrame(f, x, !(rs <= before), ck);
        PutAllLeaves(f, targets, parts, before, k + 1, Put(f, x, !(rs <= before), ck));
        if !(rs <= before) { assert Taints(targets, parts, before, k, x); }
      case Elsewhere =>
        if rs <= before {
          assert (set x | x in rs - before :: Uninit(x)) == {};
          assert ck.diags + {} == ck.diags;
        }
        PutAllLeaves(f, targets, parts, before, k + 1, ck.(diags := ck.diags + set x | x in rs - before :: Uninit(x)));
      case Hole => PutAllLeaves(f, targets, parts, before, k + 1, ck);
    }
  }

  lemma {:induction false} DeclareAllLeaves(xs: seq<Option<Slot>>, parts: seq<Expr>, before: Slots, k: nat, ck: Ck)
    requires k <= |xs|
    ensures var w := DeclareAll(xs, parts, before, k, ck);
            && w == ck.(sure := w.sure)
            && (forall x | x !in w.sure :: (x !in ck.sure && x !in DeclaredFrom(xs, k))
                                           || exists n | k <= n < |xs| :: xs[n] == Some(x) && |parts| == |xs| && !(parts[n].flows <= before))
    decreases |xs| - k
  {
    if k < |xs| {
      var next := if xs[k].Some? then Declare(xs[k].value, |parts| != |xs| || parts[k].flows <= before, ck) else ck;
      DeclareAllLeaves(xs, parts, before, k + 1, next);
    }
  }

  lemma {:induction false} AsTargetsAt(xs: seq<Option<Slot>>, n: nat)
    requires n < |xs|
    ensures AsTargets(xs)[n] == if xs[n].Some? then Local(xs[n].value) else Hole
    decreases xs
  {
    if n > 0 { AsTargetsAt(xs[1..], n - 1); }
  }

  lemma {:induction false} AsTargetsLocals(xs: seq<Option<Slot>>, k: nat)
    requires k <= |xs|
    ensures LocalsFrom(AsTargets(xs), k) == DeclaredFrom(xs, k)
    decreases |xs| - k
  {
    if k < |xs| {
      AsTargetsAt(xs, k);
      AsTargetsLocals(xs, k + 1);
    }
  }

  /** All targets get a value, or all but one that may get the default. */
  lemma TupleFells(targets: seq<Target>, parts: seq<Expr>, i: Slots)
    ensures TupleWrites(targets, parts, i, i + LocalsFrom(targets, 0))
    ensures forall n, x | 0 <= n < |targets| && Taints(targets, parts, i, n, x) ::
              TupleWrites(targets, parts, i, (i + LocalsFrom(targets, 0)) - {x})
  {
    var all := LocalsFrom(targets, 0);
    forall n, x | 0 <= n < |targets| && Taints(targets, parts, i, n, x)
      ensures TupleWrites(targets, parts, i, (i + all) - {x})
    {
      LocalListed(targets, 0, n);
      assert MayDefault(targets, parts, i, x);
    }
  }

  lemma {:induction false} LocalListed(targets: seq<Target>, k: nat, n: nat)
    requires k <= n < |targets| && targets[n].Local?
    ensures targets[n].x in LocalsFrom(targets, k)
    decreases n - k
  {
    if k < n { LocalListed(targets, k + 1, n); }
  }

  /** The members after a tuple write cover what the components leave. */
  lemma TupleCovers(r: Family, q: Family, targets: seq<Target>, parts: seq<Expr>, before: Slots, sure: Slots)
    requires Covers(r, before)
    requires forall i, j | i in r && TupleWrites(targets, parts, i, j) :: j in q
    requires forall x | x !in sure :: (x !in before && x !in LocalsFrom(targets, 0)) || exists n | 0 <= n < |targets| :: Taints(targets, parts, before, n, x)
    ensures Covers(q, sure)
  {
    var all := LocalsFrom(targets, 0);
    forall i | i in r
      ensures i + all in q
    {
      TupleFells(targets, parts, i);
    }
    var i0 :| i0 in r;
    assert i0 + all in q;
    forall x | x !in sure
      ensures exists j :: j in q && x !in j
    {
      if x !in before && x !in all {
        var i :| i in r && x !in i;
        assert i + all in q && x !in i + all;
      } else {
        var n :| 0 <= n < |targets| && Taints(targets, parts, before, n, x);
        var z :| z in PartFlows(parts, |targets|, n) && z !in before;
        var i :| i in r && z !in i;
        assert Taints(targets, parts, i, n, x);
        TupleFells(targets, parts, i);
        assert (i + all) - {x} in q && x !in (i + all) - {x};
      }
    }
  }

  lemma TupleKept(f: Fn, s: Stmt, ck: Ck, r: Family)
    requires s.TupleAssign? && Ready(s, ck) && Covers(r, ck.sure) && !Goes(f, s, ck.branchDepth, r)
    ensures Kept(f, s, ck, r)
  {
    var d := ck.branchDepth;
    Checked(f, s, d, r, ck.sure, UnionUses(s.parts));
    TypeAllKeeps(f, s.parts, ck);
    forall n | 0 <= n < |s.targets| && s.targets[n].Elsewhere?
      ensures PartFlows(s.parts, |s.targets|, n) <= ck.sure
    {
      StoredChecked(f, s, d, r, ck.sure, n);
    }
    PutAllLeaves(f, s.targets, s.parts, ck.sure, 0, ck);
    forall i, j | i in r && TupleWrites(s.targets, s.parts, i, j)
      ensures j in Fells(f, s, d, r)
    {
      assert Runs(f, s, d, i, Fell(j), 1);
    }
    TupleCovers(r, Fells(f, s, d, r), s.targets, s.parts, ck.sure, Walk(f, s, ck).sure);
    StraightKept(f, s, ck, Walk(f, s, ck), r);
  }

  lemma StoredChecked(f: Fn, s: Stmt, d: nat, r: Family, sure: Slots, n: nat)
    requires s.TupleAssign? && Covers(r, sure) && !Goes(f, s, d, r) && n < |s.targets| && s.targets[n].Elsewhere?
    ensures PartFlows(s.parts, |s.targets|, n) <= sure
  {
    forall i: Slots | !(PartFlows(s.parts, |s.targets|, n) <= i)
      ensures Runs(f, s, d, i, Bad, 1)
    {
      assert StoresDefault(s.targets, s.parts, i);
    }
    Checked(f, s, d, r, sure, PartFlows(s.parts, |s.targets|, n));
  }

  lemma DeclTupleKept(f: Fn, s: Stmt, ck: Ck, r: Family)
    requires s.DeclTuple? && Ready(s, ck) && Covers(r, ck.sure) && !Goes(f, s, ck.branchDepth, r)
    ensures Kept(f, s, ck, r)
  {
    var d, targets := ck.branchDepth, AsTargets(s.xs);
    Checked(f, s, d, r, ck.sure, UnionUses(s.parts));
    TypeAllKeeps(f, s.parts, ck);
    DeclareAllLeaves(s.xs, s.parts, ck.sure, 0, ck);
    AsTargetsLocals(s.xs, 0);
    var w := Walk(f, s, ck);
    forall x | x !in w.sure
      ensures (x !in ck.sure && x !in LocalsFrom(targets, 0)) || exists n | 0 <= n < |targets| :: Taints(targets, s.parts, ck.sure, n, x)
    {
      if !(x !in ck.sure && x !in DeclaredFrom(s.xs, 0)) {
        var n :| 0 <= n < |s.xs| && s.xs[n] == Some(x) && |s.parts| == |s.xs| && !(s.parts[n].flows <= ck.sure);
        AsTargetsAt(s.xs, n);
        assert Taints(targets, s.parts, ck.sure, n, x);
      }
    }
    forall i, j | i in r && TupleWrites(targets, s.parts, i, j)
      ensures j in Fells(f, s, d, r)
    {
      assert Runs(f, s, d, i, Fell(j), 1);
    }
    TupleCovers(r, Fells(f, s, d, r), targets, s.parts, ck.sure, w.sure);
    StraightKept(f, s, ck, w, r);
  }
}
