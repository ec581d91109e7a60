/**
 Arms of encrypted `if`s, of the form `DefiniteExact.ArmForm`: they always have a run,
 and what they write and outlives them is assigned at their end.
 */
module DefiniteArms {
  import opened Wrappers
  import opened DefiniteAssignment
  import opened DefiniteFrames
  import opened DefiniteRuns
  import opened DefiniteSound
  import opened DefiniteExact

  // ---- runs ----------------------------------------------------------------------------

  /** An arm ends, or goes wrong, from every state. */
  lemma {:induction false} ArmTotal(f: Fn, s: Stmt, d: nat, i: Slots) returns (o: Outcome)
    requires ArmForm(s)
    ensures (o == Bad || o.Fell?) && Runs(f, s, d, i, o, 1)
    decreases s, 1
  {
    match s
    case Decl(x, init) => o := if init.None? then Fell(i - {x}) else if init.value.uses <= i then Fell(i + {x}) else Bad;
    case Assign(x, e) => o := if e.uses <= i then Fell(i + {x}) else Bad;
    case DeclTuple(xs, parts) =>
      TupleFells(AsTargets(xs), parts, i);
      o := if UnionUses(parts) <= i then Fell(i + LocalsFrom(AsTargets(xs), 0)) else Bad;
    case TupleAssign(targets, parts) =>
      TupleFells(targets, parts, i);
      o := if UnionUses(parts) <= i then Fell(i + LocalsFrom(targets, 0)) else Bad;
    case Compound(x, e) => o := if e.uses <= i && x in i then Fell(i) else Bad;
    case Store(e) => o := if e.uses <= i then Fell(i) else Bad;
    case ExprStmt(e) => o := if e.uses <= i then Fell(i) else Bad;
    case Block(b) => o := BlockTotal(f, b, d, i);
    case EncryptedIf(_, _, _) => o := EncryptedTotal(f, s, d, i);
  }

  lemma {:induction false} BlockTotal(f: Fn, ss: seq<Stmt>, d: nat, i: Slots) returns (o: Outcome)
    requires forall x | x in ss :: ArmForm(x)
    ensures (o == Bad || o.Fell?) && RunsBlock(f, ss, d, i, o, 1)
    decreases ss, 0
  {
    if ss == [] {
      o := Fell(i);
    } else {
      var o1 := ArmTotal(f, ss[0], d, i);
      if o1.Fell? {
        o := BlockTotal(f, ss[1..], d, o1.init);
      } else {
        o := Bad;
      }
    }
  }

  lemma {:induction false} EncryptedTotal(f: Fn, s: Stmt, d: nat, i: Slots) returns (o: Outcome)
    requires s.EncryptedIf? && ArmForm(s)
    ensures (o == Bad || o.Fell?) && Runs(f, s, d, i, o, 1)
    decreases s, 0
  {
    if s.c.uses + s.c.flows <= i {
      var o1 := ArmTotal(f, s.thn, d + 1, i);
      var o2 := Fell(i);
      if s.els.Some? { o2 := ArmTotal(f, s.els.value, d + 1, i); }
      o := Select(f, s, d, i, o1, o2);
      assert RunsBoth(f, s, d, i, o, 1);
    } else {
      o := Bad;
    }
  }

  // ---- the walk ------------------------------------------------------------------------

  /** Nothing assigned is lost, what outlives the branch is assigned, and nothing jumps. */
  ghost predicate Settles(f: Fn, s: Stmt, a: Ck, b: Ck) {
    a.sure <= b.sure && MergedTargets(f, s, a.branchDepth) <= b.sure && b.breaks == a.breaks && b.continues == a.continues
  }

  lemma {:induction false} PartInUnion(parts: seq<Expr>, n: nat)
    requires n < |parts|
    ensures parts[n].flows <= UnionFlows(parts)
    decreases parts
  {
    if n > 0 { PartInUnion(parts[1..], n - 1); }
  }

  lemma TupleSettles(f: Fn, s: Stmt, ck: Ck)
    requires s.TupleAssign? && ArmForm(s)
    ensures Settles(f, s, ck, Walk(f, s, ck))
  {
    TypeAllFrame(f, s.parts, ck);
    PutAllLeaves(f, s.targets, s.parts, ck.sure, 0, TypeAll(f, s.parts, ck));
    forall n, x | 0 <= n < |s.targets|
      ensures !Taints(s.targets, s.parts, ck.sure, n, x)
    {
      if |s.parts| == |s.targets| { PartInUnion(s.parts, n); }
    }
  }

  lemma DeclareSettles(f: Fn, s: Stmt, ck: Ck)
    requires s.DeclTuple? && ArmForm(s)
    ensures Settles(f, s, ck, Walk(f, s, ck))
  {
    TypeAllFrame(f, s.parts, ck);
    DeclareAllLeaves(s.xs, s.parts, ck.sure, 0, TypeAll(f, s.parts, ck));
    forall n | 0 <= n < |s.xs| && |s.parts| == |s.xs|
      ensures s.parts[n].flows <= ck.sure
    {
      PartInUnion(s.parts, n);
    }
  }

  lemma PlainSettles(f: Fn, s: Stmt, ck: Ck)
    requires ArmForm(s) && Placed(s, ck.sure) && (s.Decl? || s.Assign? || s.Compound? || s.Store? || s.ExprStmt?)
    ensures Settles(f, s, ck, Walk(f, s, ck))
  {
    match s
    case Decl(x, init) => if init.Some? { TypeFrame(f, init.value, ck); }
    case Assign(x, e) => TypeFrame(f, e, ck);
    case Compound(x, e) => CheckedFrame(f, e, ck);
    case Store(e) => CheckedFrame(f, e, ck);
    case ExprStmt(e) => TypeFrame(f, e, ck);
  }

  lemma {:induction false} ArmSettles(f: Fn, s: Stmt, ck: Ck)
    requires ArmForm(s) && Placed(s, ck.sure) && InBranch(ck) && ck.branchWrites != [] && !ck.terminated && Walk(f, s, ck).diags == {}
    ensures Settles(f, s, ck, Walk(f, s, ck))
    decreases s, 1
  {
    match s
    case Block(b) =>
      BlockSettles(f, b, ck);
      assert MergedTargets(f, s, ck.branchDepth) == set x | x in TargetsAll(b) && DepthOf(f, x) < ck.branchDepth;
    case EncryptedIf(c, _, _) =>
      CheckedFrame(f, c, ck);
      EncryptedSettles(f, s, TypeChecked(f, c, ck));
    case DeclTuple(_, _) => DeclareSettles(f, s, ck);
    case TupleAssign(_, _) => TupleSettles(f, s, ck);
    case _ => PlainSettles(f, s, ck);
  }

  lemma {:induction false} BlockSettles(f: Fn, ss: seq<Stmt>, ck: Ck)
    requires (forall x | x in ss :: ArmForm(x)) && InBranch(ck) && ck.branchWrites != [] && !ck.terminated
    requires PlacedAll(ss, ck.sure) && WalkBlock(f, ss, ck).diags == {}
    ensures var w := WalkBlock(f, ss, ck); ck.sure <= w.sure && w.breaks == ck.breaks && w.continues == ck.continues
    ensures forall x | x in TargetsAll(ss) && DepthOf(f, x) < ck.branchDepth :: x in WalkBlock(f, ss, ck).sure
    decreases ss, 0
  {
    if ss != [] {
      var w := Walk(f, ss[0], ck);
      WalkFrame(f, ss[0], ck);
      BlockFrame(f, ss[1..], w);
      BranchLog(f, ss[0], ck);
      ArmSettles(f, ss[0], ck);
      PlacedAfter(f, ss, ck);
      BlockSettles(f, ss[1..], w);
    }
  }

  /** The two arms of an encrypted `if`, as walked. */
  function ThenArm(f: Fn, s: Stmt, ck: Ck): Ck
    requires s.EncryptedIf?
  {
    Walk(f, s.thn, OpenBranch(ck))
  }

  function ElseArm(f: Fn, s: Stmt, ck: Ck): Ck
    requires s.EncryptedIf?
  {
    var c2 := NextArm(ck.sure, ThenArm(f, s, ck));
    if s.els.Some? then Walk(f, s.els.value, c2) else c2
  }

  function ThenWrites(f: Fn, s: Stmt, d: nat): Slots
    requires s.EncryptedIf?
  {
    MergedTargets(f, s.thn, d + 1)
  }

  function ElseWrites(f: Fn, s: Stmt, d: nat): Slots
    requires s.EncryptedIf?
  {
    if s.els.Some? then MergedTargets(f, s.els.value, d + 1) else {}
  }

  /** The slots only one arm writes. */
  function OneSided(f: Fn, s: Stmt, d: nat): Slots
    requires s.EncryptedIf?
  {
    (ThenWrites(f, s, d) + ElseWrites(f, s, d)) - (ThenWrites(f, s, d) * ElseWrites(f, s, d))
  }

  /** Both arms end; nothing is lost in them, and what they write is assigned. */
  ghost predicate ArmsSettled(f: Fn, s: Stmt, ck: Ck)
    requires s.EncryptedIf?
  {
    var t, e, d := ThenArm(f, s, ck), ElseArm(f, s, ck), ck.branchDepth;
    && Frame(OpenBranch(ck), t) && Frame(NextArm(ck.sure, t), e) && !t.terminated && !e.terminated
    && ck.sure <= t.sure && ck.sure <= e.sure
    && TopSlots(t.branchWrites) == ThenWrites(f, s, d) <= t.sure
    && TopSlots(e.branchWrites) == ElseWrites(f, s, d) <= e.sure
    && e.breaks == ck.breaks && e.continues == ck.continues
  }

  lemma MergeSettles(snap: Slots, t: Ck, e: Ck)
    requires snap <= t.sure && snap <= e.sure
    requires TopSlots(t.branchWrites) <= t.sure && TopSlots(e.branchWrites) <= e.sure
    ensures Merged(snap, t, e) == snap + TopSlots(t.branchWrites) + TopSlots(e.branchWrites)
  {
  }

  lemma {:induction false} EncryptedSettles(f: Fn, s: Stmt, ck: Ck)
    requires s.EncryptedIf? && ArmForm(s) && Placed(s, ck.sure) && !ck.terminated && WalkEncryptedIf(f, s, ck).diags == {}
    ensures Settles(f, s, ck, WalkEncryptedIf(f, s, ck))
    decreases s, 0, 2
  {
    ArmsLog(f, s, ck);
    ArmsSettle(f, s, ck);
    MergeSettles(ck.sure, ThenArm(f, s, ck), ElseArm(f, s, ck));
  }

  lemma {:induction false} ThenSettles(f: Fn, s: Stmt, ck: Ck)
    requires s.EncryptedIf? && ArmForm(s) && Placed(s, ck.sure) && !ck.terminated && ThenArm(f, s, ck).diags == {}
    ensures var t := ThenArm(f, s, ck);
            Frame(OpenBranch(ck), t) && Logged(f, s.thn, OpenBranch(ck), t) && Settles(f, s.thn, OpenBranch(ck), t)
    decreases s, 0, 0
  {
    WalkFrame(f, s.thn, OpenBranch(ck));
    BranchLog(f, s.thn, OpenBranch(ck));
    ArmSettles(f, s.thn, OpenBranch(ck));
  }

  lemma {:induction false} ElseSettles(f: Fn, s: Stmt, c2: Ck)
    requires s.EncryptedIf? && ArmForm(s) && s.els.Some? && Placed(s.els.value, c2.sure) && InBranch(c2) && c2.branchWrites != [] && !c2.terminated
    requires Walk(f, s.els.value, c2).diags == {}
    ensures var e := Walk(f, s.els.value, c2);
            Frame(c2, e) && Logged(f, s.els.value, c2, e) && Settles(f, s.els.value, c2, e)
    decreases s, 0, 0
  {
    WalkFrame(f, s.els.value, c2);
    BranchLog(f, s.els.value, c2);
    ArmSettles(f, s.els.value, c2);
  }

  lemma {:induction false} ArmsSettle(f: Fn, s: Stmt, ck: Ck)
    requires s.EncryptedIf? && ArmForm(s) && Placed(s, ck.sure) && !ck.terminated && ThenArm(f, s, ck).diags == {} && ElseArm(f, s, ck).diags == {}
    ensures ArmsSettled(f, s, ck)
    decreases s, 0, 1
  {
    ThenSettles(f, s, ck);
    if s.els.Some? { ElseSettles(f, s, NextArm(ck.sure, ThenArm(f, s, ck))); }
  }

  // ---- the merge -----------------------------------------------------------------------

  /** A slot that only one arm writes was assigned before, so the merge reports nothing. */
  lemma NoPreNeeded(snap: Slots, oneArm: bool, t: Ck, e: Ck)
    requires TopSlots(t.branchReads) == {} && TopSlots(e.branchReads) == {}
    requires snap <= t.sure && snap <= e.sure && TopSlots(t.branchWrites) <= t.sure && TopSlots(e.branchWrites) <= e.sure
    requires var tw, ew := TopSlots(t.branchWrites), TopSlots(e.branchWrites); (tw + ew) - (tw * ew) <= snap && (oneArm ==> ew == {})
    ensures NeedsPre(oneArm, t, e) - snap == {}
  {
  }

  lemma CloseQuiet(f: Fn, s: Stmt, ck: Ck)
    requires s.EncryptedIf? && ArmsSettled(f, s, ck)
    requires var t, e, d := ThenArm(f, s, ck), ElseArm(f, s, ck), ck.branchDepth;
             && t.diags == ck.diags && e.diags == ck.diags && TopSlots(t.branchReads) == {} && TopSlots(e.branchReads) == {}
             && OneSided(f, s, d) <= ck.sure
    ensures var w, d := WalkEncryptedIf(f, s, ck), ck.branchDepth;
            && w.diags == ck.diags && w.branchReads == ck.branchReads && w.breaks == ck.breaks && w.continues == ck.continues
            && w.terminated == ck.terminated && w.sure == ck.sure + (ThenWrites(f, s, d) + ElseWrites(f, s, d))
  {
    var t, e := ThenArm(f, s, ck), ElseArm(f, s, ck);
    NoPreNeeded(ck.sure, s.els.None?, t, e);
    MergeSettles(ck.sure, t, e);
    var missing := NeedsPre(s.els.None?, t, e) - ck.sure;
    assert (set x | x in missing :: Uninit(x)) == {};
    assert e.diags + {} == e.diags;
    assert Pop(NextArm(ck.sure, t).branchReads) == ck.branchReads;
  }

  // ---- runs through both arms ----------------------------------------------------------

  lemma BothRun(f: Fn, s: Stmt, d: nat, i: Slots, o1: Outcome, o2: Outcome)
    requires s.EncryptedIf? && s.c.uses <= i && Runs(f, s.thn, d + 1, i, o1, 1)
    requires if s.els.Some? then Runs(f, s.els.value, d + 1, i, o2, 1) else o2 == Fell(i)
    ensures Runs(f, s, d, i, Select(f, s, d, i, o1, o2), 1)
  {
    assert RunsBoth(f, s, d, i, Select(f, s, d, i, o1, o2), 1);
  }

  /** No arm goes wrong where the whole does not. */
  lemma ArmsClean(f: Fn, s: Stmt, d: nat, i: Slots)
    requires s.EncryptedIf? && ArmForm(s) && s.c.uses <= i && !Runs(f, s, d, i, Bad, 1)
    ensures !Runs(f, s.thn, d + 1, i, Bad, 1) && (s.els.Some? ==> !Runs(f, s.els.value, d + 1, i, Bad, 1))
  {
    var o1 := ArmTotal(f, s.thn, d + 1, i);
    var o2 := Fell(i);
    if s.els.Some? { o2 := ArmTotal(f, s.els.value, d + 1, i); }
    if Runs(f, s.thn, d + 1, i, Bad, 1) { BothRun(f, s, d, i, Bad, o2); }
    if s.els.Some? && Runs(f, s.els.value, d + 1, i, Bad, 1) { BothRun(f, s, d, i, o1, Bad); }
  }

  /** Where nothing goes wrong there is a run to the end; it adds no slot but written ones,
      and what one arm alone writes was initialised. */
  lemma ArmsEnd(f: Fn, s: Stmt, d: nat, i: Slots) returns (j: Slots)
    requires s.EncryptedIf? && ArmForm(s) && s.c.uses <= i && !Runs(f, s, d, i, Bad, 1)
    ensures Runs(f, s, d, i, Fell(j), 1) && j <= i + (ThenWrites(f, s, d) + ElseWrites(f, s, d)) && OneSided(f, s, d) <= i
  {
    ArmsClean(f, s, d, i);
    var o1 := ArmTotal(f, s.thn, d + 1, i);
    var o2 := Fell(i);
    if s.els.Some? { o2 := ArmTotal(f, s.els.value, d + 1, i); }
    BothRun(f, s, d, i, o1, o2);
    j := Select(f, s, d, i, o1, o2).init;
  }

  lemma ReachCovers(r: Family, q: Family, sure: Slots, ws: Slots)
    requires Covers(r, sure) && forall i | i in r :: exists j :: j in q && j <= i + ws
    ensures Covers(q, sure + ws)
  {
    var i0 :| i0 in r;
    var j0 :| j0 in q && j0 <= i0 + ws;
    forall x | x !in sure + ws
      ensures exists j :: j in q && x !in j
    {
      var i :| i in r && x !in i;
      var j :| j in q && j <= i + ws;
    }
  }

  /** The runs through an encrypted `if` cover its merge. */
  lemma MergeCovers(f: Fn, s: Stmt, d: nat, r: Family, sure: Slots)
    requires s.EncryptedIf? && ArmForm(s) && Covers(r, sure) && !Goes(f, s, d, r) && forall i | i in r :: s.c.uses <= i
    ensures Covers(Fells(f, s, d, r), sure + (ThenWrites(f, s, d) + ElseWrites(f, s, d))) && OneSided(f, s, d) <= sure
  {
    var ws, q := ThenWrites(f, s, d) + ElseWrites(f, s, d), Fells(f, s, d, r);
    forall i | i in r
      ensures (exists j :: j in q && j <= i + ws) && OneSided(f, s, d) <= i
    {
      var j := ArmsEnd(f, s, d, i);
      assert j in q;
    }
    AllHave(r, sure, OneSided(f, s, d));
    ReachCovers(r, q, sure, ws);
  }
}
