/**
 Completeness of the definite-assignment walk: the families of `DefiniteExact` followed
 through blocks, branches, loops and `try`, and what that says of the whole check.
 */
module DefiniteComplete {
  import opened Wrappers
  import opened DefiniteAssignment
  import opened DefiniteFrames
  import opened DefiniteBranches
  import opened DefiniteRuns
  import opened DefiniteSound
  import opened DefiniteSyntax
  import opened DefiniteExact
  import opened DefiniteArms

  // ---- states --------------------------------------------------------------------------

  lemma JumpedMore(a: Ck, b: Ck, brokes: Family, conts: Family, brokes2: Family, conts2: Family)
    requires Jumped(a, b, brokes, conts) && brokes <= brokes2 && conts <= conts2
    ensures Jumped(a, b, brokes2, conts2)
  {
    forall st | st in TopStates(b.breaks)
      ensures st in TopStates(a.breaks) || Covers(brokes2, st)
    {
      if st !in TopStates(a.breaks) { CoversMore(brokes, brokes2, st); }
    }
    forall st | st in TopStates(b.continues)
      ensures st in TopStates(a.continues) || Covers(conts2, st)
    {
      if st !in TopStates(a.continues) { CoversMore(conts, conts2, st); }
    }
  }

  lemma LeavesMore(a: Ck, b: Ck, fells: Family, brokes: Family, conts: Family, fells2: Family, brokes2: Family, conts2: Family)
    requires Leaves(a, b, fells, brokes, conts) && fells <= fells2 && brokes <= brokes2 && conts <= conts2
    ensures Leaves(a, b, fells2, brokes2, conts2)
  {
    JumpedMore(a, b, brokes, conts, brokes2, conts2);
    if !b.terminated { CoversMore(fells, fells2, b.sure); }
  }

  /** One step after the other. */
  lemma LeavesThen(a: Ck, b: Ck, c: Ck, fells: Family, fells2: Family, brokes: Family, conts: Family)
    requires Leaves(a, b, fells, brokes, conts) && Leaves(b, c, fells2, brokes, conts)
    ensures Leaves(a, c, fells2, brokes, conts)
  {
  }

  /** A state that records no jump of its own. */
  lemma LeavesStraight(a: Ck, b: Ck, fells: Family, brokes: Family, conts: Family)
    requires b.diags == a.diags && b.branchReads == a.branchReads && b.breaks == a.breaks && b.continues == a.continues
    requires b.terminated || Covers(fells, b.sure)
    ensures Leaves(a, b, fells, brokes, conts)
  {
  }

  // ---- blocks --------------------------------------------------------------------------

  lemma HeadRuns(f: Fn, ss: seq<Stmt>, d: nat, r: Family)
    requires ss != [] && !Goes(f, Block(ss), d, r)
    ensures !Goes(f, ss[0], d, r)
    ensures Brokes(f, ss[0], d, r) <= Brokes(f, Block(ss), d, r) && Conts(f, ss[0], d, r) <= Conts(f, Block(ss), d, r)
  {
    forall i, o | Runs(f, ss[0], d, i, o, 1) && !o.Fell?
      ensures Runs(f, Block(ss), d, i, o, 1)
    {
      assert RunsBlock(f, ss, d, i, o, 1);
    }
  }

  lemma TailRuns(f: Fn, ss: seq<Stmt>, d: nat, i: Slots, j: Slots, o: Outcome)
    requires ss != [] && Runs(f, ss[0], d, i, Fell(j), 1) && Runs(f, Block(ss[1..]), d, j, o, 1)
    ensures Runs(f, Block(ss), d, i, o, 1)
  {
    assert RunsBlock(f, ss[1..], d, j, o, 1);
    assert Fell(j).Fell? && RunsBlock(f, ss, d, i, o, 1);
  }

  lemma TailPasses(f: Fn, ss: seq<Stmt>, d: nat, r: Family, q: Family)
    requires ss != [] && !Goes(f, Block(ss), d, r) && q == Fells(f, ss[0], d, r)
    ensures !Goes(f, Block(ss[1..]), d, q)
    ensures Fells(f, Block(ss[1..]), d, q) <= Fells(f, Block(ss), d, r)
    ensures Brokes(f, Block(ss[1..]), d, q) <= Brokes(f, Block(ss), d, r)
    ensures Conts(f, Block(ss[1..]), d, q) <= Conts(f, Block(ss), d, r)
  {
    forall i, j, o | i in r && Runs(f, ss[0], d, i, Fell(j), 1) && Runs(f, Block(ss[1..]), d, j, o, 1)
      ensures Runs(f, Block(ss), d, i, o, 1)
    {
      TailRuns(f, ss, d, i, j, o);
    }
  }

  lemma EmptyBlock(f: Fn, ck: Ck, r: Family)
    requires Covers(r, ck.sure)
    ensures Kept(f, Block([]), ck, r)
  {
    var d := ck.branchDepth;
    assert forall i | i in r :: Runs(f, Block([]), d, i, Fell(i), 1);
    SameFells(f, Block([]), d, r, ck.sure);
    StraightKept(f, Block([]), ck, ck, r);
  }

  lemma HeadReady(ss: seq<Stmt>, ck: Ck)
    requires ss != [] && Ready(Block(ss), ck)
    ensures Ready(ss[0], ck) && PlacedAll(ss, ck.sure)
  {
    assert Placed(Block(ss), ck.sure) == PlacedAll(ss, ck.sure);
  }

  lemma {:induction false} BlockKept(f: Fn, ss: seq<Stmt>, ck: Ck, r: Family)
    requires Ready(Block(ss), ck) && Covers(r, ck.sure) && !Goes(f, Block(ss), ck.branchDepth, r)
    ensures Kept(f, Block(ss), ck, r)
    decreases ss, 0
  {
    if ss == [] {
      EmptyBlock(f, ck, r);
    } else {
      HeadRuns(f, ss, ck.branchDepth, r);
      HeadReady(ss, ck);
      StmtKept(f, ss[0], ck, r);
      var w := Walk(f, ss[0], ck);
      WalkFrame(f, ss[0], ck);
      if !w.terminated {
        TailPasses(f, ss, ck.branchDepth, r, Fells(f, ss[0], ck.branchDepth, r));
        PlacedAfter(f, ss, ck);
        BlockKept(f, ss[1..], w, Fells(f, ss[0], ck.branchDepth, r));
      }
      BlockJoined(f, ss, ck, w, r);
    }
  }

  lemma BlockJoined(f: Fn, ss: seq<Stmt>, ck: Ck, w: Ck, r: Family)
    requires ss != [] && !ck.terminated && w == Walk(f, ss[0], ck) && w.branchDepth == ck.branchDepth
    requires !Goes(f, Block(ss), ck.branchDepth, r) && Kept(f, ss[0], ck, r)
    requires !w.terminated ==> Kept(f, Block(ss[1..]), w, Fells(f, ss[0], ck.branchDepth, r))
    ensures Kept(f, Block(ss), ck, r)
  {
    var s, d := Block(ss), ck.branchDepth;
    var q, rest := Fells(f, ss[0], d, r), Block(ss[1..]);
    var fells, brokes, conts := Fells(f, s, d, r), Brokes(f, s, d, r), Conts(f, s, d, r);
    var v := WalkBlock(f, ss[1..], w);
    HeadRuns(f, ss, d, r);
    LeavesMore(ck, w, q, Brokes(f, ss[0], d, r), Conts(f, ss[0], d, r), q, brokes, conts);
    if w.terminated {
      assert v == w;
      assert Leaves(ck, w, fells, brokes, conts);
    } else {
      TailPasses(f, ss, d, r, q);
      LeavesMore(w, v, Fells(f, rest, d, q), Brokes(f, rest, d, q), Conts(f, rest, d, q), fells, brokes, conts);
      LeavesThen(ck, w, v, q, fells, brokes, conts);
    }
  }

  // ---- plain `if` ----------------------------------------------------------------------

  lemma IfRuns(f: Fn, s: Stmt, d: nat, i: Slots, o: Outcome)
    requires s.If? && s.c.uses <= i
    ensures Runs(f, s.thn, d, i, o, 1) ==> Runs(f, s, d, i, o, 1)
    ensures s.els.Some? && Runs(f, s.els.value, d, i, o, 1) ==> Runs(f, s, d, i, o, 1)
    ensures s.els.None? && o == Fell(i) ==> Runs(f, s, d, i, o, 1)
  {
  }

  lemma ThenPasses(f: Fn, s: Stmt, d: nat, r: Family)
    requires s.If? && (forall i | i in r :: s.c.uses <= i) && !Goes(f, s, d, r)
    ensures !Goes(f, s.thn, d, r) && Fells(f, s.thn, d, r) <= Fells(f, s, d, r)
    ensures Brokes(f, s.thn, d, r) <= Brokes(f, s, d, r) && Conts(f, s.thn, d, r) <= Conts(f, s, d, r)
  {
    forall i, o | i in r && Runs(f, s.thn, d, i, o, 1)
      ensures Runs(f, s, d, i, o, 1)
    {
      IfRuns(f, s, d, i, o);
    }
  }

  lemma ElsePasses(f: Fn, s: Stmt, d: nat, r: Family)
    requires s.If? && s.els.Some? && (forall i | i in r :: s.c.uses <= i) && !Goes(f, s, d, r)
    ensures !Goes(f, s.els.value, d, r) && Fells(f, s.els.value, d, r) <= Fells(f, s, d, r)
    ensures Brokes(f, s.els.value, d, r) <= Brokes(f, s, d, r) && Conts(f, s.els.value, d, r) <= Conts(f, s, d, r)
  {
    forall i, o | i in r && Runs(f, s.els.value, d, i, o, 1)
      ensures Runs(f, s, d, i, o, 1)
    {
      IfRuns(f, s, d, i, o);
    }
  }

  lemma NoElseCovers(f: Fn, s: Stmt, d: nat, r: Family, sure: Slots)
    requires s.If? && s.els.None? && Covers(r, sure) && forall i | i in r :: s.c.uses <= i
    ensures Covers(Fells(f, s, d, r), sure)
  {
    forall i | i in r
      ensures Runs(f, s, d, i, Fell(i), 1)
    {
      IfRuns(f, s, d, i, Fell(i));
    }
    CoversMore(r, Fells(f, s, d, r), sure);
  }

  /** Joining the arms that fall through is covered by the runs that take them. */
  lemma ArmsJoined(ck: Ck, t: Ck, e: Ck, elsTerminated: bool, fells: Family, brokes: Family, conts: Family)
    requires !ck.terminated && Leaves(ck, t, fells, brokes, conts)
    requires e.diags == t.diags && e.branchReads == t.branchReads && Jumped(t, e, brokes, conts)
    requires !elsTerminated ==> Covers(fells, e.sure)
    ensures var candidates := FellState(t) + (if elsTerminated then [] else [e.sure]);
            Leaves(ck, JoinAll(candidates, e).(terminated := ck.terminated || (t.terminated && elsTerminated)), fells, brokes, conts)
  {
    var candidates := FellState(t) + (if elsTerminated then [] else [e.sure]);
    if candidates != [] { CoversMeet(fells, candidates); }
  }

  lemma IfWalk(f: Fn, s: Stmt, ck: Ck)
    requires s.If? && !InBranch(ck) && s.c.uses <= ck.sure
    ensures Walk(f, s, ck) == WalkIf(f, s, ck) && Reject(ck) == ck && SecondArm(f, s, ck).branchDepth == ck.branchDepth
  {
    TypeKeeps(f, s.c, ck);
    WalkFrame(f, s.thn, ck);
  }

  lemma {:induction false} IfKept(f: Fn, s: Stmt, ck: Ck, r: Family)
    requires s.If? && !InBranch(ck) && Ready(s, ck) && Covers(r, ck.sure) && !Goes(f, s, ck.branchDepth, r)
    ensures Kept(f, s, ck, r)
    decreases s, 1
  {
    Checked(f, s, ck.branchDepth, r, ck.sure, s.c.uses);
    IfWalk(f, s, ck);
    ThenPasses(f, s, ck.branchDepth, r);
    StmtKept(f, s.thn, ck, r);
    if s.els.Some? {
      ElsePasses(f, s, ck.branchDepth, r);
      StmtKept(f, s.els.value, SecondArm(f, s, ck), r);
    }
    if s.els.Some? { IfElseKept(f, s, ck, r); } else { IfOnlyKept(f, s, ck, r); }
  }

  lemma ThenLeaves(f: Fn, s: Stmt, ck: Ck, r: Family)
    requires s.If? && (forall i | i in r :: s.c.uses <= i) && !Goes(f, s, ck.branchDepth, r) && Kept(f, s.thn, ck, r)
    ensures var d := ck.branchDepth; Leaves(ck, Walk(f, s.thn, ck), Fells(f, s, d, r), Brokes(f, s, d, r), Conts(f, s, d, r))
  {
    var d := ck.branchDepth;
    ThenPasses(f, s, d, r);
    LeavesMore(ck, Walk(f, s.thn, ck), Fells(f, s.thn, d, r), Brokes(f, s.thn, d, r), Conts(f, s.thn, d, r),
               Fells(f, s, d, r), Brokes(f, s, d, r), Conts(f, s, d, r));
  }

  lemma ElseLeaves(f: Fn, s: Stmt, c2: Ck, r: Family)
    requires s.If? && s.els.Some? && (forall i | i in r :: s.c.uses <= i) && !Goes(f, s, c2.branchDepth, r) && Kept(f, s.els.value, c2, r)
    ensures var d := c2.branchDepth; Leaves(c2, Walk(f, s.els.value, c2), Fells(f, s, d, r), Brokes(f, s, d, r), Conts(f, s, d, r))
  {
    var d := c2.branchDepth;
    ElsePasses(f, s, d, r);
    LeavesMore(c2, Walk(f, s.els.value, c2), Fells(f, s.els.value, d, r), Brokes(f, s.els.value, d, r), Conts(f, s.els.value, d, r),
               Fells(f, s, d, r), Brokes(f, s, d, r), Conts(f, s, d, r));
  }

  /** A state with other slots assigned leads to the same jumps and reports. */
  lemma LeavesFrom(a: Ck, a2: Ck, b: Ck, fells: Family, brokes: Family, conts: Family)
    requires Leaves(a2, b, fells, brokes, conts) && a2 == a.(sure := a2.sure, terminated := a2.terminated)
    ensures b.diags == a.diags && b.branchReads == a.branchReads && Jumped(a, b, brokes, conts)
  {
  }

  lemma KeptIs(f: Fn, s: Stmt, ck: Ck, w: Ck, r: Family)
    requires w == Walk(f, s, ck)
    requires var d := ck.branchDepth; Leaves(ck, w, Fells(f, s, d, r), Brokes(f, s, d, r), Conts(f, s, d, r))
    ensures Kept(f, s, ck, r)
  {
  }

  lemma IfElseJoined(f: Fn, s: Stmt, ck: Ck, t: Ck, e: Ck, fells: Family, brokes: Family, conts: Family)
    requires s.If? && s.els.Some? && !ck.terminated && Reject(ck) == ck && t == Walk(f, s.thn, ck) && e == Walk(f, s.els.value, SecondArm(f, s, ck))
    requires Leaves(ck, t, fells, brokes, conts) && Leaves(SecondArm(f, s, ck), e, fells, brokes, conts)
    ensures Leaves(ck, WalkIf(f, s, ck), fells, brokes, conts)
  {
    LeavesFrom(t, SecondArm(f, s, ck), e, fells, brokes, conts);
    ArmsJoined(ck, t, e, e.terminated, fells, brokes, conts);
  }

  lemma IfOnlyJoined(f: Fn, s: Stmt, ck: Ck, t: Ck, fells: Family, brokes: Family, conts: Family)
    requires s.If? && s.els.None? && !ck.terminated && Reject(ck) == ck && t == Walk(f, s.thn, ck)
    requires Leaves(ck, t, fells, brokes, conts) && Covers(fells, ck.sure)
    ensures Leaves(ck, WalkIf(f, s, ck), fells, brokes, conts)
  {
    ArmsJoined(ck, t, SecondArm(f, s, ck), false, fells, brokes, conts);
  }

  lemma IfElseKept(f: Fn, s: Stmt, ck: Ck, r: Family)
    requires s.If? && s.els.Some? && !ck.terminated && Walk(f, s, ck) == WalkIf(f, s, ck) && Reject(ck) == ck
    requires SecondArm(f, s, ck).branchDepth == ck.branchDepth && (forall i | i in r :: s.c.uses <= i) && !Goes(f, s, ck.branchDepth, r)
    requires Kept(f, s.thn, ck, r) && Kept(f, s.els.value, SecondArm(f, s, ck), r)
    ensures Kept(f, s, ck, r)
  {
    var d, c2 := ck.branchDepth, SecondArm(f, s, ck);
    ThenLeaves(f, s, ck, r);
    ElseLeaves(f, s, c2, r);
    IfElseJoined(f, s, ck, Walk(f, s.thn, ck), Walk(f, s.els.value, c2), Fells(f, s, d, r), Brokes(f, s, d, r), Conts(f, s, d, r));
    KeptIs(f, s, ck, WalkIf(f, s, ck), r);
  }

  lemma IfOnlyKept(f: Fn, s: Stmt, ck: Ck, r: Family)
    requires s.If? && s.els.None? && !ck.terminated && Walk(f, s, ck) == WalkIf(f, s, ck) && Reject(ck) == ck
    requires Covers(r, ck.sure) && (forall i | i in r :: s.c.uses <= i) && !Goes(f, s, ck.branchDepth, r) && Kept(f, s.thn, ck, r)
    ensures Kept(f, s, ck, r)
  {
    var d := ck.branchDepth;
    ThenLeaves(f, s, ck, r);
    NoElseCovers(f, s, d, r, ck.sure);
    IfOnlyJoined(f, s, ck, Walk(f, s.thn, ck), Fells(f, s, d, r), Brokes(f, s, d, r), Conts(f, s, d, r));
    KeptIs(f, s, ck, WalkIf(f, s, ck), r);
  }

  // ---- loops ---------------------------------------------------------------------------

  /** Where one turn of a loop body can leave it. */
  ghost function Turns(f: Fn, b: Stmt, d: nat, r: Family): Family {
    Fells(f, b, d, r) + Conts(f, b, d, r) + Brokes(f, b, d, r)
  }

  /** Every state a loop body leaves behind is covered. */
  ghost predicate Rounds(b: Ck, q: Family) {
    && (!b.terminated ==> Covers(q, b.sure))
    && (forall st | st in TopStates(b.breaks) :: Covers(q, st))
    && (forall st | st in TopStates(b.continues) :: Covers(q, st))
  }

  lemma BodyRounds(f: Fn, loop: Stmt, ck: Ck, r: Family)
    requires Kept(f, loop, OpenLoop(ck), r)
    ensures Rounds(Walk(f, loop, OpenLoop(ck)), Turns(f, loop, ck.branchDepth, r))
  {
    var d, b := ck.branchDepth, Walk(f, loop, OpenLoop(ck));
    var fells, brokes, conts := Fells(f, loop, d, r), Brokes(f, loop, d, r), Conts(f, loop, d, r);
    LeavesRound(ck, b, fells, brokes, conts);
  }

  lemma LeavesRound(ck: Ck, b: Ck, fells: Family, brokes: Family, conts: Family)
    requires Leaves(OpenLoop(ck), b, fells, brokes, conts)
    ensures Rounds(b, fells + conts + brokes)
  {
    var q := fells + conts + brokes;
    if !b.terminated { CoversMore(fells, q, b.sure); }
    forall st | st in TopStates(b.breaks)
      ensures Covers(q, st)
    {
      assert st !in TopStates(OpenLoop(ck).breaks);
      CoversMore(brokes, q, st);
    }
    forall st | st in TopStates(b.continues)
      ensures Covers(q, st)
    {
      assert st !in TopStates(OpenLoop(ck).continues);
      CoversMore(conts, q, st);
    }
  }

  lemma RoundsMore(b: Ck, q: Family, q2: Family)
    requires Rounds(b, q) && q <= q2
    ensures Rounds(b, q2)
  {
    if !b.terminated { CoversMore(q, q2, b.sure); }
    forall st | st in TopStates(b.breaks)
      ensures Covers(q2, st)
    {
      CoversMore(q, q2, st);
    }
    forall st | st in TopStates(b.continues)
      ensures Covers(q2, st)
    {
      CoversMore(q, q2, st);
    }
  }

  /** What follows a loop: the join of the states that reach it. */
  lemma LoopJoined(ck: Ck, b: Ck, zero: seq<Slots>, fells: Family, brokes: Family, conts: Family)
    requires Frame(OpenLoop(ck), b) && b.diags == ck.diags && b.branchReads == ck.branchReads
    requires Rounds(b, fells) && forall st | st in zero :: Covers(fells, st)
    ensures var candidates := zero + FellState(b) + TopStates(b.breaks) + TopStates(b.continues);
            Leaves(ck, JoinAll(candidates, CloseLoop(b)).(terminated := ck.terminated || candidates == []), fells, brokes, conts)
  {
    var candidates := zero + FellState(b) + TopStates(b.breaks) + TopStates(b.continues);
    var w := JoinAll(candidates, CloseLoop(b)).(terminated := ck.terminated || candidates == []);
    LoopFrame(ck, b);
    if candidates != [] {
      forall st | st in candidates
        ensures Covers(fells, st)
      {
      }
      CoversMeet(fells, candidates);
    }
    LeavesStraight(ck, w, fells, brokes, conts);
  }

  // ---- `while` -------------------------------------------------------------------------

  lemma WhileTurn(f: Fn, s: Stmt, d: nat, i: Slots, o1: Outcome)
    requires s.While? && s.c.uses <= i && Runs(f, s.loop, d, i, o1, 1)
    ensures o1.Broke? ==> Runs(f, s, d, i, Fell(o1.init), 1)
    ensures o1.Fell? || o1.Continued? ==> Runs(f, s, d, i, if s.c.uses <= o1.init then Fell(o1.init) else Bad, 1)
    ensures o1 == Bad ==> Runs(f, s, d, i, Bad, 1)
  {
    if o1.Fell? || o1.Continued? {
      assert RunsWhile(f, s, d, o1.init, if s.c.uses <= o1.init then Fell(o1.init) else Bad, 0);
    }
  }

  lemma WhilePasses(f: Fn, s: Stmt, d: nat, r: Family)
    requires s.While? && (forall i | i in r :: s.c.uses <= i) && !Goes(f, s, d, r)
    ensures !Goes(f, s.loop, d, r) && Turns(f, s.loop, d, r) <= Fells(f, s, d, r) && r <= Fells(f, s, d, r)
  {
    forall i, o1 | i in r && Runs(f, s.loop, d, i, o1, 1)
      ensures o1 != Bad && (o1.Fell? || o1.Continued? || o1.Broke? ==> o1.init in Fells(f, s, d, r))
    {
      WhileTurn(f, s, d, i, o1);
    }
    forall i | i in r
      ensures Runs(f, s, d, i, Fell(i), 1)
    {
      assert RunsWhile(f, s, d, i, Fell(i), 1);
    }
  }

  lemma {:induction false} WhileKept(f: Fn, s: Stmt, ck: Ck, r: Family)
    requires s.While? && !InBranch(ck) && Ready(s, ck) && Covers(r, ck.sure) && !Goes(f, s, ck.branchDepth, r)
    ensures Kept(f, s, ck, r)
    decreases s, 1
  {
    var d := ck.branchDepth;
    Checked(f, s, d, r, ck.sure, s.c.uses);
    TypeKeeps(f, s.c, ck);
    WhilePasses(f, s, d, r);
    StmtKept(f, s.loop, OpenLoop(ck), r);
    WhileJoined(f, s, ck, r);
    KeptIs(f, s, ck, WalkWhile(f, s, ck), r);
  }

  lemma WhileJoined(f: Fn, s: Stmt, ck: Ck, r: Family)
    requires s.While? && !ck.terminated && Covers(r, ck.sure) && Kept(f, s.loop, OpenLoop(ck), r)
    requires var d := ck.branchDepth; Turns(f, s.loop, d, r) <= Fells(f, s, d, r) && r <= Fells(f, s, d, r)
    ensures var d := ck.branchDepth; Leaves(ck, WalkWhile(f, s, ck), Fells(f, s, d, r), Brokes(f, s, d, r), Conts(f, s, d, r))
  {
    var d, b, fells := ck.branchDepth, Walk(f, s.loop, OpenLoop(ck)), Fells(f, s, ck.branchDepth, r);
    BodyRounds(f, s.loop, ck, r);
    RoundsMore(b, Turns(f, s.loop, d, r), fells);
    CoversMore(r, fells, ck.sure);
    WalkFrame(f, s.loop, OpenLoop(ck));
    LoopJoined(ck, b, [ck.sure], fells, Brokes(f, s, d, r), Conts(f, s, d, r));
  }

  // ---- `do` ----------------------------------------------------------------------------

  lemma DoTurn(f: Fn, s: Stmt, d: nat, i: Slots, o1: Outcome)
    requires s.DoWhile? && Runs(f, s.loop, d, i, o1, 1)
    ensures o1.Broke? ==> Runs(f, s, d, i, Fell(o1.init), 1)
    ensures o1.Fell? || o1.Continued? ==> Runs(f, s, d, i, if s.c.uses <= o1.init then Fell(o1.init) else Bad, 1)
    ensures o1 == Bad ==> Runs(f, s, d, i, Bad, 1)
  {
  }

  lemma DoPasses(f: Fn, s: Stmt, d: nat, r: Family)
    requires s.DoWhile? && !Goes(f, s, d, r)
    ensures !Goes(f, s.loop, d, r) && Turns(f, s.loop, d, r) <= Fells(f, s, d, r)
    ensures forall j | j in Fells(f, s.loop, d, r) :: s.c.uses <= j
  {
    forall i, o1 | i in r && Runs(f, s.loop, d, i, o1, 1)
      ensures o1 != Bad && (o1.Fell? || o1.Continued? || o1.Broke? ==> o1.init in Fells(f, s, d, r))
      ensures o1.Fell? ==> s.c.uses <= o1.init
    {
      DoTurn(f, s, d, i, o1);
    }
  }

  lemma {:induction false} DoKept(f: Fn, s: Stmt, ck: Ck, r: Family)
    requires s.DoWhile? && !InBranch(ck) && Ready(s, ck) && Covers(r, ck.sure) && !Goes(f, s, ck.branchDepth, r)
    ensures Kept(f, s, ck, r)
    decreases s, 1
  {
    var d, b := ck.branchDepth, Walk(f, s.loop, OpenLoop(ck));
    DoPasses(f, s, d, r);
    StmtKept(f, s.loop, OpenLoop(ck), r);
    if s.c.uses != {} {
      FallsWalk(f, s.loop, OpenLoop(ck));
      AllHave(Fells(f, s.loop, d, r), b.sure, s.c.uses);
    }
    DoJoined(f, s, ck, r);
    KeptIs(f, s, ck, WalkDo(f, s, ck), r);
  }

  lemma DoJoined(f: Fn, s: Stmt, ck: Ck, r: Family)
    requires s.DoWhile? && !InBranch(ck) && !ck.terminated && Kept(f, s.loop, OpenLoop(ck), r)
    requires s.c.uses <= Walk(f, s.loop, OpenLoop(ck)).sure
    requires var d := ck.branchDepth; Turns(f, s.loop, d, r) <= Fells(f, s, d, r)
    ensures var d := ck.branchDepth; Leaves(ck, WalkDo(f, s, ck), Fells(f, s, d, r), Brokes(f, s, d, r), Conts(f, s, d, r))
  {
    var d, b, fells := ck.branchDepth, Walk(f, s.loop, OpenLoop(ck)), Fells(f, s, ck.branchDepth, r);
    BodyRounds(f, s.loop, ck, r);
    RoundsMore(b, Turns(f, s.loop, d, r), fells);
    WalkFrame(f, s.loop, OpenLoop(ck));
    DoWalk(f, s, ck, b);
    LoopJoined(ck, b, [], fells, Brokes(f, s, d, r), Conts(f, s, d, r));
  }

  lemma DoWalk(f: Fn, s: Stmt, ck: Ck, b: Ck)
    requires s.DoWhile? && !InBranch(ck) && b == Walk(f, s.loop, OpenLoop(ck)) && Frame(OpenLoop(ck), b) && s.c.uses <= b.sure
    ensures var candidates := [] + FellState(b) + TopStates(b.breaks) + TopStates(b.continues);
            WalkDo(f, s, ck) == JoinAll(candidates, CloseLoop(b)).(terminated := ck.terminated || candidates == [])
  {
    TypeKeeps(f, s.c, CloseLoop(b));
    assert [] + FellState(b) == FellState(b);
  }

  /** What falls through in the text falls through in the walk. */
  lemma {:induction false} FallsWalk(f: Fn, s: Stmt, ck: Ck)
    requires FallsThrough(s) && !ck.terminated
    ensures !Walk(f, s, ck).terminated
    decreases s, 1
  {
    match s
    case Block(b) => FallsBlock(f, b, ck);
    case If(c, t, e) => FallsIf(f, s, TypeExpr(f, c, ck));
    case DoWhile(b, c) => FallsWalk(f, b, OpenLoop(Reject(ck)));
    case For(first, cond, _, _) =>
      var c := if first.Some? then Walk(f, first.value, Reject(ck)) else Reject(ck);
      if first.Some? { FallsWalk(f, first.value, Reject(ck)); }
    case Try(e, cs) =>
      var c := TypeExpr(f, e, Reject(ck));
      FallsBlock(f, cs[0].body, FirstClause(s, c));
      FirstOut(f, s, ck, c);
    case DeclTuple(xs, parts) =>
      TypeAllFrame(f, parts, ck);
      DeclareAllFrame(xs, parts, ck.sure, 0, TypeAll(f, parts, ck));
    case TupleAssign(targets, parts) =>
      TypeAllFrame(f, parts, ck);
      PutAllFrame(f, targets, parts, ck.sure, 0, TypeAll(f, parts, ck));
    case _ =>
  }

  function FirstClause(s: Stmt, c: Ck): Ck
    requires s.Try? && s.clauses != []
  {
    c.(sure := c.sure + s.clauses[0].params, terminated := c.terminated)
  }

  lemma FirstOut(f: Fn, s: Stmt, ck: Ck, c: Ck)
    requires s.Try? && s.clauses != [] && c == TypeExpr(f, s.e, Reject(ck)) && !c.terminated
    requires !WalkBlock(f, s.clauses[0].body, FirstClause(s, c)).terminated
    ensures !Walk(f, s, ck).terminated
  {
    var r := WalkClauses(f, s.clauses, c.sure, c.terminated, c);
    assert FellState(WalkBlock(f, s.clauses[0].body, FirstClause(s, c))) != [];
    assert r.outs != [];
  }

  lemma {:induction false} FallsBlock(f: Fn, ss: seq<Stmt>, ck: Ck)
    requires (forall x | x in ss :: FallsThrough(x)) && !ck.terminated
    ensures !WalkBlock(f, ss, ck).terminated
    decreases ss, 0
  {
    if ss != [] {
      FallsWalk(f, ss[0], ck);
      FallsBlock(f, ss[1..], Walk(f, ss[0], ck));
    }
  }

  lemma {:induction false} FallsIf(f: Fn, s: Stmt, c: Ck)
    requires s.If? && FallsThrough(s) && !c.terminated
    ensures !WalkIf(f, s, c).terminated
    decreases s, 0
  {
    var ck := Reject(c);
    var t := Walk(f, s.thn, ck);
    if FallsThrough(s.thn) {
      FallsWalk(f, s.thn, ck);
    } else if s.els.Some? {
      FallsWalk(f, s.els.value, t.(sure := ck.sure, terminated := ck.terminated));
    }
  }

  // ---- `for` ---------------------------------------------------------------------------

  ghost function ForFells(f: Fn, s: Stmt, d: nat, q: Family): Family
    requires s.For?
  {
    iset j: Slots | exists i :: i in q && RunsFor(f, s, d, i, Fell(j), 1)
  }

  ghost predicate ForGoes(f: Fn, s: Stmt, d: nat, q: Family)
    requires s.For?
  {
    exists i :: i in q && RunsFor(f, s, d, i, Bad, 1)
  }

  ghost function Entered(f: Fn, s: Stmt, d: nat, r: Family): Family
    requires s.For?
  {
    if s.first.Some? then Fells(f, s.first.value, d, r) else r
  }

  lemma FirstPasses(f: Fn, s: Stmt, d: nat, r: Family)
    requires s.For? && !Goes(f, s, d, r)
    ensures s.first.Some? ==> !Goes(f, s.first.value, d, r)
                              && Brokes(f, s.first.value, d, r) <= Brokes(f, s, d, r) && Conts(f, s.first.value, d, r) <= Conts(f, s, d, r)
  {
    if s.first.Some? {
      forall i, o | Runs(f, s.first.value, d, i, o, 1) && !o.Fell?
        ensures Runs(f, s, d, i, o, 1)
      {
      }
    }
  }

  lemma EnteredRuns(f: Fn, s: Stmt, d: nat, r: Family)
    requires s.For? && !Goes(f, s, d, r)
    ensures !ForGoes(f, s, d, Entered(f, s, d, r)) && ForFells(f, s, d, Entered(f, s, d, r)) <= Fells(f, s, d, r)
  {
    forall j, o | j in Entered(f, s, d, r) && RunsFor(f, s, d, j, o, 1)
      ensures exists i :: i in r && Runs(f, s, d, i, o, 1)
    {
      if s.first.Some? {
        var i :| i in r && Runs(f, s.first.value, d, i, Fell(j), 1);
        assert Fell(j).Fell? && Runs(f, s, d, i, o, 1);
      } else {
        assert Runs(f, s, d, j, o, 1);
      }
    }
  }

  lemma ForRound(f: Fn, s: Stmt, d: nat, i: Slots, o1: Outcome)
    requires s.For? && UsesOf(s.cond) <= i && Runs(f, s.loop, d, i, o1, 1)
    ensures o1.Broke? ==> RunsFor(f, s, d, i, Fell(o1.init), 1)
    ensures o1.Fell? || o1.Continued? ==> RunsFor(f, s, d, i, if UsesOf(s.next) + UsesOf(s.cond) <= o1.init then Fell(o1.init) else Bad, 1)
    ensures o1 == Bad ==> RunsFor(f, s, d, i, Bad, 1)
  {
    if o1.Fell? || o1.Continued? {
      assert UsesOf(s.next) <= o1.init ==> RunsFor(f, s, d, o1.init, if UsesOf(s.cond) <= o1.init then Fell(o1.init) else Bad, 0);
    }
  }

  lemma ForCond(f: Fn, s: Stmt, d: nat, q: Family)
    requires s.For? && !ForGoes(f, s, d, q)
    ensures (forall i | i in q :: UsesOf(s.cond) <= i) && q <= ForFells(f, s, d, q)
  {
    forall i | i in q
      ensures UsesOf(s.cond) <= i && i in ForFells(f, s, d, q)
    {
      assert RunsFor(f, s, d, i, if UsesOf(s.cond) <= i then Fell(i) else Bad, 1);
    }
  }

  lemma ForPasses(f: Fn, s: Stmt, d: nat, q: Family)
    requires s.For? && !ForGoes(f, s, d, q) && forall i | i in q :: UsesOf(s.cond) <= i
    ensures !Goes(f, s.loop, d, q) && Turns(f, s.loop, d, q) <= ForFells(f, s, d, q)
    ensures forall j | j in Fells(f, s.loop, d, q) + Conts(f, s.loop, d, q) :: UsesOf(s.next) <= j
  {
    forall i, o1 | i in q && Runs(f, s.loop, d, i, o1, 1)
      ensures o1 != Bad && (o1.Fell? || o1.Continued? || o1.Broke? ==> o1.init in ForFells(f, s, d, q))
      ensures o1.Fell? || o1.Continued? ==> UsesOf(s.next) <= o1.init
    {
      ForRound(f, s, d, i, o1);
    }
  }

  /** The trailing expression adds nothing when every state it can be reached with has what it uses. */
  lemma NextKeeps(f: Fn, next: Option<Expr>, b: Ck)
    requires !InBranch(b) && (!b.terminated ==> UsesOf(next) <= b.sure)
    requires forall st | st in TopStates(b.continues) :: UsesOf(next) <= st
    ensures TypeNext(f, next, b) == b
  {
    if next.Some? {
      if !b.terminated {
        TypeKeeps(f, next.value, b);
      } else if TopStates(b.continues) != [] {
        MeetAbove(TopStates(b.continues), UsesOf(next));
        TypeKeeps(f, next.value, JoinAll(TopStates(b.continues), b));
      }
    }
  }

  lemma ForNext(f: Fn, s: Stmt, ck: Ck, q: Family)
    requires s.For? && !InBranch(ck) && !ck.terminated && Kept(f, s.loop, OpenLoop(ck), q)
    requires forall j | j in Fells(f, s.loop, ck.branchDepth, q) + Conts(f, s.loop, ck.branchDepth, q) :: UsesOf(s.next) <= j
    ensures TypeNext(f, s.next, Walk(f, s.loop, OpenLoop(ck))) == Walk(f, s.loop, OpenLoop(ck))
  {
    var d, b := ck.branchDepth, Walk(f, s.loop, OpenLoop(ck));
    var fells, conts := Fells(f, s.loop, d, q), Conts(f, s.loop, d, q);
    WalkFrame(f, s.loop, OpenLoop(ck));
    if !b.terminated { AllHave(fells, b.sure, UsesOf(s.next)); }
    forall st | st in TopStates(b.continues)
      ensures UsesOf(s.next) <= st
    {
      assert st !in TopStates(OpenLoop(ck).continues);
      AllHave(conts, st, UsesOf(s.next));
    }
    NextKeeps(f, s.next, b);
  }

  lemma ForJoined(f: Fn, s: Stmt, ck: Ck, q: Family, fells: Family, brokes: Family, conts: Family)
    requires s.For? && !ck.terminated && Covers(q, ck.sure) && Kept(f, s.loop, OpenLoop(ck), q)
    requires TypeNext(f, s.next, Walk(f, s.loop, OpenLoop(ck))) == Walk(f, s.loop, OpenLoop(ck))
    requires Turns(f, s.loop, ck.branchDepth, q) <= fells && q <= fells
    ensures Leaves(ck, WalkFor(f, s, ck), fells, brokes, conts)
  {
    var b := Walk(f, s.loop, OpenLoop(ck));
    BodyRounds(f, s.loop, ck, q);
    RoundsMore(b, Turns(f, s.loop, ck.branchDepth, q), fells);
    CoversMore(q, fells, ck.sure);
    WalkFrame(f, s.loop, OpenLoop(ck));
    LoopJoined(ck, b, [ck.sure], fells, brokes, conts);
  }

  /** The walk up to the loop. */
  lemma EntryKept(f: Fn, s: Stmt, ck: Ck, r: Family)
    requires s.For? && !InBranch(ck) && Ready(s, ck) && Covers(r, ck.sure) && !Goes(f, s, ck.branchDepth, r)
    ensures var d := ck.branchDepth;
            Leaves(ck, FirstOf(f, s, ck), Entered(f, s, d, r), Brokes(f, s, d, r), Conts(f, s, d, r))
    ensures !FirstOf(f, s, ck).terminated && Covers(Entered(f, s, ck.branchDepth, r), FirstOf(f, s, ck).sure)
    ensures FirstOf(f, s, ck).branchDepth == ck.branchDepth
  {
    var d := ck.branchDepth;
    var brokes, conts := Brokes(f, s, d, r), Conts(f, s, d, r);
    if s.first.Some? {
      var p := s.first.value;
      FirstPasses(f, s, d, r);
      SimpleKept(f, p, ck, r);
      FallsWalk(f, p, ck);
      WalkFrame(f, p, ck);
      LeavesMore(ck, Walk(f, p, ck), Fells(f, p, d, r), Brokes(f, p, d, r), Conts(f, p, d, r), Fells(f, p, d, r), brokes, conts);
    } else {
      LeavesStraight(ck, ck, r, brokes, conts);
    }
  }

  function FirstOf(f: Fn, s: Stmt, ck: Ck): Ck
    requires s.For?
  {
    if s.first.Some? then Walk(f, s.first.value, ck) else ck
  }

  lemma EntryPlaced(f: Fn, s: Stmt, ck: Ck)
    requires s.For? && Placed(s, ck.sure)
    ensures Placed(s.loop, FirstOf(f, s, ck).sure)
  {
    var adds := if s.first.Some? then Adds(s.first.value) else {};
    if s.first.Some? { WalkBelow(f, s.first.value, ck, ck.sure + adds); }
    PlacedLess(s.loop, FirstOf(f, s, ck).sure, ck.sure + adds);
  }

  lemma EntryWalk(f: Fn, s: Stmt, ck: Ck)
    requires s.For? && !InBranch(ck) && FirstOf(f, s, ck).branchDepth == ck.branchDepth && UsesOf(s.cond) <= FirstOf(f, s, ck).sure
    ensures Walk(f, s, ck) == WalkFor(f, s, FirstOf(f, s, ck))
  {
    if s.cond.Some? { TypeKeeps(f, s.cond.value, FirstOf(f, s, ck)); }
  }

  lemma {:induction false} ForKept(f: Fn, s: Stmt, ck: Ck, r: Family)
    requires s.For? && !InBranch(ck) && Ready(s, ck) && Covers(r, ck.sure) && !Goes(f, s, ck.branchDepth, r)
    ensures Kept(f, s, ck, r)
    decreases s, 1
  {
    var d, c, q := ck.branchDepth, FirstOf(f, s, ck), Entered(f, s, ck.branchDepth, r);
    EntryKept(f, s, ck, r);
    EnteredRuns(f, s, d, r);
    EntryPlaced(f, s, ck);
    ForBody(f, s, c, q);
    EntryWalk(f, s, ck);
    ForEnd(f, s, ck, c, q, r);
  }

  lemma ForEnd(f: Fn, s: Stmt, ck: Ck, c: Ck, q: Family, r: Family)
    requires s.For? && Walk(f, s, ck) == WalkFor(f, s, c) && c.branchDepth == ck.branchDepth
    requires var d := ck.branchDepth;
             && Leaves(ck, c, q, Brokes(f, s, d, r), Conts(f, s, d, r))
             && ForFells(f, s, d, q) <= Fells(f, s, d, r)
    requires forall brokes, conts :: ForLeaves(f, s, c, q, brokes, conts)
    ensures Kept(f, s, ck, r)
  {
    var d, w := ck.branchDepth, WalkFor(f, s, c);
    var fells, brokes, conts := Fells(f, s, d, r), Brokes(f, s, d, r), Conts(f, s, d, r);
    assert ForLeaves(f, s, c, q, brokes, conts);
    LeavesMore(c, w, ForFells(f, s, d, q), brokes, conts, fells, brokes, conts);
    LeavesThen(ck, c, w, q, fells, brokes, conts);
    KeptIs(f, s, ck, w, r);
  }

  ghost predicate ForLeaves(f: Fn, s: Stmt, c: Ck, q: Family, brokes: Family, conts: Family)
    requires s.For?
  {
    Leaves(c, WalkFor(f, s, c), ForFells(f, s, c.branchDepth, q), brokes, conts)
  }

  lemma {:induction false} ForBody(f: Fn, s: Stmt, c: Ck, q: Family)
    requires s.For? && !InBranch(c) && !c.terminated && c.diags == {} && Traceable(s.loop) && Placed(s.loop, c.sure) && Covers(q, c.sure) && !ForGoes(f, s, c.branchDepth, q)
    ensures UsesOf(s.cond) <= c.sure && forall brokes, conts :: ForLeaves(f, s, c, q, brokes, conts)
    decreases s, 0
  {
    var d := c.branchDepth;
    ForCond(f, s, d, q);
    AllHave(q, c.sure, UsesOf(s.cond));
    ForPasses(f, s, d, q);
    StmtKept(f, s.loop, OpenLoop(c), q);
    ForNext(f, s, c, q);
    ForAll(f, s, c, q);
  }

  lemma ForAll(f: Fn, s: Stmt, c: Ck, q: Family)
    requires s.For? && !c.terminated && Covers(q, c.sure) && Kept(f, s.loop, OpenLoop(c), q)
    requires TypeNext(f, s.next, Walk(f, s.loop, OpenLoop(c))) == Walk(f, s.loop, OpenLoop(c))
    requires var fells := ForFells(f, s, c.branchDepth, q); Turns(f, s.loop, c.branchDepth, q) <= fells && q <= fells
    ensures forall brokes, conts :: ForLeaves(f, s, c, q, brokes, conts)
  {
    forall brokes, conts
      ensures ForLeaves(f, s, c, q, brokes, conts)
    {
      ForJoined(f, s, c, q, ForFells(f, s, c.branchDepth, q), brokes, conts);
    }
  }

  // ---- `try` ---------------------------------------------------------------------------

  /** A clause starts from the state before the call, with its parameters assigned. */
  ghost function Entering(r: Family, params: Slots): Family {
    iset i: Slots | i in r :: i + params
  }

  lemma EnteringCovers(r: Family, params: Slots, sure: Slots)
    requires Covers(r, sure)
    ensures Covers(Entering(r, params), sure + params)
  {
    var i0 :| i0 in r;
    assert i0 + params in Entering(r, params);
    forall x | x !in sure + params
      ensures exists j :: j in Entering(r, params) && x !in j
    {
      var i :| i in r && x !in i;
      assert i + params in Entering(r, params) && x !in i + params;
    }
  }

  /** The runs through a clause are runs of the whole statement. */
  ghost predicate ClauseIn(f: Fn, c: Clause, d: nat, r: Family, fells: Family, brokes: Family, conts: Family) {
    var b, q := Block(c.body), Entering(r, c.params);
    !Goes(f, b, d, q) && Fells(f, b, d, q) <= fells && Brokes(f, b, d, q) <= brokes && Conts(f, b, d, q) <= conts
  }

  lemma ClausePasses(f: Fn, s: Stmt, d: nat, r: Family, n: nat)
    requires s.Try? && n < |s.clauses| && !Goes(f, s, d, r) && forall i | i in r :: s.e.uses <= i
    ensures ClauseIn(f, s.clauses[n], d, r, Fells(f, s, d, r), Brokes(f, s, d, r), Conts(f, s, d, r))
  {
    var c := s.clauses[n];
    forall i, o | i in r && Runs(f, Block(c.body), d, i + c.params, o, 1)
      ensures Runs(f, s, d, i, o, 1)
    {
      assert RunsBlock(f, c.body, d, i + c.params, o, 1);
    }
  }

  /** The state a clause is walked from. */
  function ClauseStart(c: Clause, snap: Slots, ck: Ck): Ck {
    ck.(sure := snap + c.params, terminated := false)
  }

  lemma ClauseLeaves(f: Fn, c: Clause, snap: Slots, ck: Ck, r: Family, fells: Family, brokes: Family, conts: Family)
    requires Kept(f, Block(c.body), ClauseStart(c, snap, ck), Entering(r, c.params)) && ClauseIn(f, c, ck.branchDepth, r, fells, brokes, conts)
    ensures var w := WalkBlock(f, c.body, ClauseStart(c, snap, ck));
            w.diags == ck.diags && w.branchReads == ck.branchReads && Jumped(ck, w, brokes, conts) && (!w.terminated ==> Covers(fells, w.sure))
  {
    var b, q, d, st := Block(c.body), Entering(r, c.params), ck.branchDepth, ClauseStart(c, snap, ck);
    LeavesMore(st, Walk(f, b, st), Fells(f, b, d, q), Brokes(f, b, d, q), Conts(f, b, d, q), fells, brokes, conts);
    LeavesFrom(ck, st, Walk(f, b, st), fells, brokes, conts);
  }

  /** Every clause passes, and what falls through them is covered. */
  lemma {:induction false} ClausesKept(f: Fn, cs: seq<Clause>, snap: Slots, ck: Ck, r: Family, fells: Family, brokes: Family, conts: Family)
    requires !InBranch(ck) && ck.diags == {} && Covers(r, snap)
    requires forall c | c in cs :: (forall x | x in c.body :: Traceable(x)) && PlacedAll(c.body, snap + c.params) && ClauseIn(f, c, ck.branchDepth, r, fells, brokes, conts)
    ensures var w := WalkClauses(f, cs, snap, false, ck);
            && w.ck.diags == ck.diags && w.ck.branchReads == ck.branchReads && Jumped(ck, w.ck, brokes, conts)
            && forall st | st in w.outs :: Covers(fells, st)
    decreases cs, 0
  {
    if cs != [] {
      var c := cs[0];
      var st := ClauseStart(c, snap, ck);
      EnteringCovers(r, c.params, snap);
      BlockKept(f, c.body, st, Entering(r, c.params));
      ClauseLeaves(f, c, snap, ck, r, fells, brokes, conts);
      var w := WalkBlock(f, c.body, st);
      BlockFrame(f, c.body, st);
      ClausesKept(f, cs[1..], snap, w, r, fells, brokes, conts);
    }
  }

  lemma {:induction false} TryKept(f: Fn, s: Stmt, ck: Ck, r: Family)
    requires s.Try? && !InBranch(ck) && Ready(s, ck) && Covers(r, ck.sure) && !Goes(f, s, ck.branchDepth, r)
    ensures Kept(f, s, ck, r)
    decreases s, 1
  {
    var d := ck.branchDepth;
    var fells, brokes, conts := Fells(f, s, d, r), Brokes(f, s, d, r), Conts(f, s, d, r);
    Checked(f, s, d, r, ck.sure, s.e.uses);
    TypeKeeps(f, s.e, ck);
    forall c | c in s.clauses
      ensures ClauseIn(f, c, d, r, fells, brokes, conts)
    {
      var n :| 0 <= n < |s.clauses| && s.clauses[n] == c;
      ClausePasses(f, s, d, r, n);
    }
    ClausesKept(f, s.clauses, ck.sure, ck, r, fells, brokes, conts);
    var w := WalkClauses(f, s.clauses, ck.sure, false, ck);
    TryJoined(ck, w, fells, brokes, conts);
    KeptIs(f, s, ck, JoinAll(w.outs, w.ck).(terminated := ck.terminated || w.outs == []), r);
  }

  lemma TryJoined(ck: Ck, w: Clauses, fells: Family, brokes: Family, conts: Family)
    requires !ck.terminated && w.ck.diags == ck.diags && w.ck.branchReads == ck.branchReads && Jumped(ck, w.ck, brokes, conts)
    requires forall st | st in w.outs :: Covers(fells, st)
    ensures Leaves(ck, JoinAll(w.outs, w.ck).(terminated := ck.terminated || w.outs == []), fells, brokes, conts)
  {
    if w.outs != [] { CoversMeet(fells, w.outs); }
  }

  // ---- encrypted `if` ------------------------------------------------------------------

  lemma ArmsPass(f: Fn, s: Stmt, d: nat, r: Family)
    requires s.EncryptedIf? && ArmForm(s) && !Goes(f, s, d, r) && forall i | i in r :: s.c.uses <= i
    ensures !Goes(f, s.thn, d + 1, r) && (s.els.Some? ==> !Goes(f, s.els.value, d + 1, r))
  {
    forall i | i in r
      ensures !Runs(f, s.thn, d + 1, i, Bad, 1) && (s.els.Some? ==> !Runs(f, s.els.value, d + 1, i, Bad, 1))
    {
      ArmsClean(f, s, d, i);
    }
  }

  lemma {:induction false} EncryptedKept(f: Fn, s: Stmt, ck: Ck, r: Family)
    requires s.EncryptedIf? && Ready(s, ck) && Covers(r, ck.sure) && !Goes(f, s, ck.branchDepth, r)
    ensures Kept(f, s, ck, r)
    decreases s, 1
  {
    var d := ck.branchDepth;
    Checked(f, s, d, r, ck.sure, s.c.uses + s.c.flows);
    CheckedKeeps(f, s.c, ck);
    ArmsPass(f, s, d, r);
    ThenKept(f, s, ck, r);
    if s.els.Some? { ElseKept(f, s, ck, r); }
    ArmsSettle(f, s, ck);
    MergeCovers(f, s, d, r, ck.sure);
    CloseQuiet(f, s, ck);
    StraightKept(f, s, ck, WalkEncryptedIf(f, s, ck), r);
  }

  lemma {:induction false} ThenKept(f: Fn, s: Stmt, ck: Ck, r: Family)
    requires s.EncryptedIf? && Ready(s, ck) && ArmForm(s) && Covers(r, ck.sure) && !Goes(f, s.thn, ck.branchDepth + 1, r)
    ensures var t := ThenArm(f, s, ck);
            && t.diags == {} && !t.terminated && TopSlots(t.branchReads) == {}
            && t.branchDepth == ck.branchDepth + 1
    decreases s, 0
  {
    StmtKept(f, s.thn, OpenBranch(ck), r);
    ThenSettles(f, s, ck);
  }

  lemma {:induction false} ElseKept(f: Fn, s: Stmt, ck: Ck, r: Family)
    requires s.EncryptedIf? && ArmForm(s) && s.els.Some? && Placed(s, ck.sure) && Covers(r, ck.sure) && !Goes(f, s.els.value, ck.branchDepth + 1, r)
    requires var t := ThenArm(f, s, ck); t.diags == {} && !t.terminated && t.branchDepth == ck.branchDepth + 1
    ensures var e := ElseArm(f, s, ck); e.diags == {} && TopSlots(e.branchReads) == {}
    decreases s, 0
  {
    StmtKept(f, s.els.value, NextArm(ck.sure, ThenArm(f, s, ck)), r);
  }

  lemma {:induction false} StmtKept(f: Fn, s: Stmt, ck: Ck, r: Family)
    requires Ready(s, ck) && Covers(r, ck.sure) && !Goes(f, s, ck.branchDepth, r)
    ensures Kept(f, s, ck, r)
    decreases s, 2
  {
    if s.Block? {
      BlockKept(f, s.body, ck, r);
    } else if s.If? {
      IfKept(f, s, ck, r);
    } else if s.While? {
      WhileKept(f, s, ck, r);
    } else if s.DoWhile? {
      DoKept(f, s, ck, r);
    } else if s.For? {
      ForKept(f, s, ck, r);
    } else if s.Try? {
      TryKept(f, s, ck, r);
    } else if s.EncryptedIf? {
      EncryptedKept(f, s, ck, r);
    } else {
      SimpleKept(f, s, ck, r);
    }
  }

  // ---- the whole check -----------------------------------------------------------------

  /** The named returns are not reported out of hand. */
  predicate Unflagged(f: Fn, body: seq<Stmt>, riskyModifier: bool) {
    f.named == {} || (!riskyModifier && !HasAssemblyIn(body))
  }

  ghost predicate AllClean(f: Fn, params: Slots, body: seq<Stmt>) {
    forall o, k :: FunctionRuns(f, params, body, o, k) ==> Clean(f, o)
  }

  /** When no run that turns its loops at most once lets a default handle out, the check is silent. */
  lemma CheckComplete(f: Fn, params: Slots, body: seq<Stmt>, riskyModifier: bool)
    requires Traceable(Block(body)) && PlacedAll(body, params) && Unflagged(f, body, riskyModifier)
    requires forall o :: FunctionRuns(f, params, body, o, 1) ==> Clean(f, o)
    ensures CheckFunction(f, params, body, riskyModifier) == {}
  {
    var s, ck := Block(body), Start(params - f.named);
    var r := iset{params - f.named};
    PlacedAllLess(body, params - f.named, params);
    assert params - f.named in r;
    assert forall o :: Runs(f, s, 0, params - f.named, o, 1) ==> FunctionRuns(f, params, body, o, 1);
    StmtKept(f, s, ck, r);
    var w := WalkBlock(f, body, ck);
    if !w.terminated {
      AllHave(Fells(f, s, 0, r), w.sure, f.named);
      FlagKeeps(f.named, w);
    }
  }

  /** Whatever the check reports, some run lets a default handle out. */
  lemma ReportedIsReal(f: Fn, params: Slots, body: seq<Stmt>, riskyModifier: bool) returns (o: Outcome)
    requires Traceable(Block(body)) && PlacedAll(body, params) && Unflagged(f, body, riskyModifier)
    requires CheckFunction(f, params, body, riskyModifier) != {}
    ensures FunctionRuns(f, params, body, o, 1) && !Clean(f, o)
  {
    if forall o1 :: FunctionRuns(f, params, body, o1, 1) ==> Clean(f, o1) {
      CheckComplete(f, params, body, riskyModifier);
    }
    o :| FunctionRuns(f, params, body, o, 1) && !Clean(f, o);
  }

  /** On tidy text the check is silent exactly when every run is clean. */
  lemma CheckExact(f: Fn, params: Slots, body: seq<Stmt>, riskyModifier: bool)
    requires Traceable(Block(body)) && PlacedAll(body, params) && TidyAll(body, params) && DepthsAllOk(f, body, 0) && Unflagged(f, body, riskyModifier)
    ensures CheckFunction(f, params, body, riskyModifier) == {} <==> AllClean(f, params, body)
  {
    if CheckFunction(f, params, body, riskyModifier) == {} {
      forall o, k | FunctionRuns(f, params, body, o, k)
        ensures Clean(f, o)
      {
        TidyCheckSound(f, params, body, riskyModifier, o, k);
      }
    }
    if AllClean(f, params, body) {
      CheckComplete(f, params, body, riskyModifier);
    }
  }
}
