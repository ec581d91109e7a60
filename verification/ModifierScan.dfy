/**
 The scan that asks whether a modifier may skip the body it guards: leave, by
 `return` or by falling off its end, on a path that has not run `_;`.
 */
module ModifierScan {
  import opened Wrappers

  datatype Clause = Clause(body: seq<Stmt>)

  datatype Stmt =
    | Placeholder
    | Return
    | Block(body: seq<Stmt>)
    | If(thn: Stmt, els: Option<Stmt>)
    | While(loop: Stmt)
    | DoWhile(loop: Stmt)
    | For(loop: Stmt)
    | Try(clauses: seq<Clause>)
    | Break
    | Continue
    | Revert
    | Assembly
    | Plain

  /** `definite`: `_;` has run after this; `risky`: a `return` may come before it. */
  datatype Scan = Scan(definite: bool, risky: bool)

  function ScanOf(s: Stmt, before: bool): Scan
    decreases s, 0
  {
    match s
    case Placeholder => Scan(true, false)
    case Return => Scan(before, !before)
    case Block(b) => ScanAll(b, before)
    case If(t, e) =>
      var x := ScanOf(t, before);
      var y := if e.Some? then ScanOf(e.value, before) else Scan(false, false);
      Scan(x.definite && y.definite, x.risky || y.risky)
    case While(b) => Scan(false, ScanOf(b, before).risky)
    case DoWhile(b) => Scan(false, ScanOf(b, before).risky)
    case For(b) => Scan(false, ScanOf(b, before).risky)
    case Try(cs) => Scan(false, AnyRisky(cs, before))
    case _ => Scan(false, false)
  }

  function ScanAll(ss: seq<Stmt>, before: bool): Scan
    decreases ss, 0
  {
    if ss == [] then Scan(before, false)
    else
      var x := ScanOf(ss[0], before);
      var rest := ScanAll(ss[1..], before || x.definite);
      Scan(rest.definite, x.risky || rest.risky)
  }

  predicate AnyRisky(cs: seq<Clause>, before: bool)
    decreases cs, 0
  {
    cs != [] && (ScanAll(cs[0].body, before).risky || AnyRisky(cs[1..], before))
  }

  predicate HasAssembly(s: Stmt)
    decreases s, 0
  {
    match s
    case Assembly => true
    case Block(b) => HasAssemblyIn(b)
    case If(t, e) => HasAssembly(t) || (e.Some? && HasAssembly(e.value))
    case While(b) => HasAssembly(b)
    case DoWhile(b) => HasAssembly(b)
    case For(b) => HasAssembly(b)
    case Try(cs) => HasAssemblyClauses(cs)
    case _ => false
  }

  predicate HasAssemblyIn(ss: seq<Stmt>)
    decreases ss, 0
  {
    ss != [] && (HasAssembly(ss[0]) || HasAssemblyIn(ss[1..]))
  }

  predicate HasAssemblyClauses(cs: seq<Clause>)
    decreases cs, 0
  {
    cs != [] && (HasAssemblyIn(cs[0].body) || HasAssemblyClauses(cs[1..]))
  }

  predicate MaySkip(body: seq<Stmt>) {
    ScanAll(body, false).risky || !ScanAll(body, false).definite || HasAssemblyIn(body)
  }

  // ---- runs ----------------------------------------------------------------------------

  datatype Outcome = Fell | Broke | Continued | Returned | Reverted

  /** A run from a point where `_;` has run (`ran`) or not, to one where it has (`now`)
      or not.  Conditions are left open; `k` bounds the loop iterations. */
  ghost predicate Runs(s: Stmt, ran: bool, o: Outcome, now: bool, k: nat)
    decreases k, s, 1
  {
    match s
    case Placeholder => now && (o == Fell || o == Reverted)
    case Return => o == Returned && now == ran
    case Block(b) => RunsBlock(b, ran, o, now, k)
    case If(t, e) => Runs(t, ran, o, now, k) || (if e.Some? then Runs(e.value, ran, o, now, k) else o == Fell && now == ran)
    case While(_) => RunsLoop(s, ran, o, now, k)
    case DoWhile(_) => RunsTurn(s, ran, o, now, k)
    case For(_) => RunsLoop(s, ran, o, now, k)
    case Try(cs) => (o == Reverted && now == ran) || exists i | 0 <= i < |cs| :: RunsBlock(cs[i].body, ran, o, now, k)
    case Break => o == Broke && now == ran
    case Continue => o == Continued && now == ran
    case Revert => o == Reverted && now == ran
    case Assembly => now == ran && (o == Fell || o == Returned || o == Reverted)
    case Plain => now == ran && (o == Fell || o == Reverted)
  }

  ghost predicate RunsBlock(ss: seq<Stmt>, ran: bool, o: Outcome, now: bool, k: nat)
    decreases k, ss, 0
  {
    if ss == [] then o == Fell && now == ran
    else
      exists o1, mid :: Runs(ss[0], ran, o1, mid, k) && if o1 == Fell then RunsBlock(ss[1..], mid, o, now, k) else o == o1 && now == mid
  }

  predicate IsLoop(s: Stmt) {
    s.While? || s.DoWhile? || s.For?
  }

  /** The condition may end the loop. */
  ghost predicate RunsLoop(s: Stmt, ran: bool, o: Outcome, now: bool, k: nat)
    requires IsLoop(s)
    decreases k, s, 0, 1
  {
    (o == Fell && now == ran) || RunsTurn(s, ran, o, now, k)
  }

  ghost predicate RunsTurn(s: Stmt, ran: bool, o: Outcome, now: bool, k: nat)
    requires IsLoop(s)
    decreases k, s, 0, 0
  {
    exists o1, mid :: Runs(s.loop, ran, o1, mid, k) &&
      match o1
      case Fell => k > 0 && RunsLoop(s, mid, o, now, k - 1)
      case Continued => k > 0 && RunsLoop(s, mid, o, now, k - 1)
      case Broke => o == Fell && now == mid
      case _ => o == o1 && now == mid
  }

  /** A run that leaves the modifier without having run the guarded body. */
  ghost predicate Skips(body: seq<Stmt>, o: Outcome, k: nat) {
    (o == Fell || o == Returned) && RunsBlock(body, false, o, false, k)
  }

  // ---- soundness -----------------------------------------------------------------------

  /** What an unrisky scan says of a run. */
  ghost predicate Told(x: Scan, before: bool, ran: bool, o: Outcome, now: bool) {
    && (ran ==> now)
    && (o == Fell && (before || x.definite) ==> now)
    && (o == Returned ==> now)
  }

  lemma {:induction false} StmtTold(s: Stmt, before: bool, ran: bool, o: Outcome, now: bool, k: nat)
    requires !ScanOf(s, before).risky && !HasAssembly(s) && (before ==> ran) && Runs(s, ran, o, now, k)
    ensures Told(ScanOf(s, before), before, ran, o, now)
    decreases k, s, 1
  {
    match s
    case Block(b) => BlockTold(b, before, ran, o, now, k);
    case If(t, e) =>
      if Runs(t, ran, o, now, k) {
        StmtTold(t, before, ran, o, now, k);
      } else if e.Some? {
        StmtTold(e.value, before, ran, o, now, k);
      }
    case While(_) => LoopTold(s, before, ran, o, now, k);
    case DoWhile(_) => TurnTold(s, before, ran, o, now, k);
    case For(_) => LoopTold(s, before, ran, o, now, k);
    case Try(cs) =>
      if !(o == Reverted && now == ran) {
        var i :| 0 <= i < |cs| && RunsBlock(cs[i].body, ran, o, now, k);
        ClauseAt(cs, before, i);
        BlockTold(cs[i].body, before, ran, o, now, k);
      }
    case _ =>
  }

  lemma {:induction false} ClauseAt(cs: seq<Clause>, before: bool, i: nat)
    requires i < |cs| && !AnyRisky(cs, before) && !HasAssemblyClauses(cs)
    ensures !ScanAll(cs[i].body, before).risky && !HasAssemblyIn(cs[i].body)
    decreases cs
  {
    if i > 0 { ClauseAt(cs[1..], before, i - 1); }
  }

  lemma {:induction false} BlockTold(ss: seq<Stmt>, before: bool, ran: bool, o: Outcome, now: bool, k: nat)
    requires !ScanAll(ss, before).risky && !HasAssemblyIn(ss) && (before ==> ran) && RunsBlock(ss, ran, o, now, k)
    ensures Told(ScanAll(ss, before), before, ran, o, now)
    decreases k, ss, 0
  {
    if ss != [] {
      var o1, mid :| Runs(ss[0], ran, o1, mid, k) && if o1 == Fell then RunsBlock(ss[1..], mid, o, now, k) else o == o1 && now == mid;
      StmtTold(ss[0], before, ran, o1, mid, k);
      if o1 == Fell { BlockTold(ss[1..], before || ScanOf(ss[0], before).definite, mid, o, now, k); }
    }
  }

  lemma {:induction false} LoopTold(s: Stmt, before: bool, ran: bool, o: Outcome, now: bool, k: nat)
    requires IsLoop(s) && !ScanOf(s, before).risky && !HasAssembly(s) && (before ==> ran) && RunsLoop(s, ran, o, now, k)
    ensures Told(ScanOf(s, before), before, ran, o, now)
    decreases k, s, 0, 1
  {
    if !(o == Fell && now == ran) { TurnTold(s, before, ran, o, now, k); }
  }

  lemma {:induction false} TurnTold(s: Stmt, before: bool, ran: bool, o: Outcome, now: bool, k: nat)
    requires IsLoop(s) && !ScanOf(s, before).risky && !HasAssembly(s) && (before ==> ran) && RunsTurn(s, ran, o, now, k)
    ensures Told(ScanOf(s, before), before, ran, o, now)
    decreases k, s, 0, 0
  {
    var o1, mid :| Runs(s.loop, ran, o1, mid, k) &&
      match o1
      case Fell => k > 0 && RunsLoop(s, mid, o, now, k - 1)
      case Continued => k > 0 && RunsLoop(s, mid, o, now, k - 1)
      case Broke => o == Fell && now == mid
      case _ => o == o1 && now == mid;
    StmtTold(s.loop, before, ran, o1, mid, k);
    if o1 == Fell || o1 == Continued { LoopTold(s, before, mid, o, now, k - 1); }
  }

  /** Soundness: a modifier the scan passes never skips the body it guards. */
  lemma ScanSound(body: seq<Stmt>, o: Outcome, k: nat)
    requires !MaySkip(body)
    ensures !Skips(body, o, k)
  {
    if Skips(body, o, k) { BlockTold(body, false, false, o, false, k); }
  }

  // ---- exactness -----------------------------------------------------------------------

  /** Statements that control may pass, or that return: neither jumps nor halts, no `do`,
      and a `try` has a clause that does nothing. */
  predicate Simple(s: Stmt)
    decreases s, 0
  {
    match s
    case Placeholder => true
    case Return => true
    case Plain => true
    case Block(b) => AllSimple(b)
    case If(t, e) => Simple(t) && (e.Some? ==> Simple(e.value))
    case While(b) => Simple(b)
    case For(b) => Simple(b)
    case Try(cs) => Clause([]) in cs && forall c | c in cs :: AllSimple(c.body)
    case _ => false
  }

  predicate AllSimple(ss: seq<Stmt>)
    decreases ss, 0
  {
    ss == [] || (Simple(ss[0]) && AllSimple(ss[1..]))
  }

  /** A risky statement can return early, one that is not definite can be passed. */
  ghost predicate Shown(s: Stmt) {
    && (ScanOf(s, false).risky ==> Runs(s, false, Returned, false, 0))
    && (!ScanOf(s, false).risky && !ScanOf(s, false).definite ==> Runs(s, false, Fell, false, 0))
  }

  lemma {:induction false} AfterIsSafe(s: Stmt)
    requires Simple(s)
    ensures !ScanOf(s, true).risky
    decreases s, 0
  {
    match s
    case Block(b) => AfterAllSafe(b);
    case If(t, e) =>
      AfterIsSafe(t);
      if e.Some? { AfterIsSafe(e.value); }
    case While(b) => AfterIsSafe(b);
    case For(b) => AfterIsSafe(b);
    case Try(cs) => AfterClausesSafe(cs);
    case _ =>
  }

  lemma {:induction false} AfterClausesSafe(cs: seq<Clause>)
    requires forall c | c in cs :: AllSimple(c.body)
    ensures !AnyRisky(cs, true)
    decreases cs, 0
  {
    if cs != [] {
      AfterAllSafe(cs[0].body);
      AfterClausesSafe(cs[1..]);
    }
  }

  lemma {:induction false} AfterAllSafe(ss: seq<Stmt>)
    requires AllSimple(ss)
    ensures !ScanAll(ss, true).risky && ScanAll(ss, true).definite
    decreases ss, 0
  {
    if ss != [] {
      AfterIsSafe(ss[0]);
      AfterAllSafe(ss[1..]);
    }
  }

  lemma {:induction false} SimpleShown(s: Stmt)
    requires Simple(s)
    ensures Shown(s)
    decreases s, 0
  {
    match s
    case Block(b) => BlockShown(b);
    case If(t, e) =>
      SimpleShown(t);
      if e.Some? { SimpleShown(e.value); }
    case While(b) => LoopShown(s);
    case For(b) => LoopShown(s);
    case Try(cs) => TryShown(cs);
    case _ =>
  }

  lemma {:induction false} LoopShown(s: Stmt)
    requires (s.While? || s.For?) && Simple(s)
    ensures Shown(s)
    decreases s, 0, 0
  {
    SimpleShown(s.loop);
    assert RunsLoop(s, false, Fell, false, 0);
    if ScanOf(s, false).risky { assert RunsTurn(s, false, Returned, false, 0); }
  }

  lemma {:induction false} TryShown(cs: seq<Clause>)
    requires Simple(Try(cs))
    ensures Shown(Try(cs))
    decreases cs, 1
  {
    var i :| 0 <= i < |cs| && cs[i] == Clause([]);
    assert RunsBlock(cs[i].body, false, Fell, false, 0);
    if AnyRisky(cs, false) {
      var j := RiskyClause(cs);
      BlockShown(cs[j].body);
    }
  }

  lemma {:induction false} RiskyClause(cs: seq<Clause>) returns (j: nat)
    requires AnyRisky(cs, false)
    ensures j < |cs| && ScanAll(cs[j].body, false).risky
    decreases cs, 0
  {
    if ScanAll(cs[0].body, false).risky {
      j := 0;
    } else {
      j := RiskyClause(cs[1..]);
      j := j + 1;
    }
  }

  lemma {:induction false} BlockShown(ss: seq<Stmt>)
    requires AllSimple(ss)
    ensures ScanAll(ss, false).risky ==> RunsBlock(ss, false, Returned, false, 0)
    ensures !ScanAll(ss, false).risky && !ScanAll(ss, false).definite ==> RunsBlock(ss, false, Fell, false, 0)
    decreases ss, 0
  {
    if ss != [] {
      SimpleShown(ss[0]);
      var x := ScanOf(ss[0], false);
      if x.definite {
        AfterAllSafe(ss[1..]);
      } else {
        BlockShown(ss[1..]);
      }
    }
  }

  /** Where control may pass every statement that does not return, the scan is exact. */
  lemma ScanExact(body: seq<Stmt>)
    requires AllSimple(body)
    ensures MaySkip(body) <==> exists o, k :: Skips(body, o, k)
  {
    NoAssembly(body);
    if MaySkip(body) {
      BlockShown(body);
      if ScanAll(body, false).risky {
        assert Skips(body, Returned, 0);
      } else {
        assert Skips(body, Fell, 0);
      }
    } else {
      forall o, k
        ensures !Skips(body, o, k)
      {
        ScanSound(body, o, k);
      }
    }
  }

  lemma {:induction false} NoAssembly(ss: seq<Stmt>)
    requires AllSimple(ss)
    ensures !HasAssemblyIn(ss)
    decreases ss, 1
  {
    if ss != [] {
      NoAssemblyIn(ss[0]);
      NoAssembly(ss[1..]);
    }
  }

  lemma {:induction false} NoAssemblyIn(s: Stmt)
    requires Simple(s)
    ensures !HasAssembly(s)
    decreases s, 0
  {
    match s
    case Block(b) => NoAssembly(b);
    case If(t, e) =>
      NoAssemblyIn(t);
      if e.Some? { NoAssemblyIn(e.value); }
    case While(b) => NoAssemblyIn(b);
    case For(b) => NoAssemblyIn(b);
    case Try(cs) => NoAssemblyClauses(cs);
    case _ =>
  }

  lemma {:induction false} NoAssemblyClauses(cs: seq<Clause>)
    requires forall c | c in cs :: AllSimple(c.body)
    ensures !HasAssemblyClauses(cs)
    decreases cs, 0
  {
    if cs != [] {
      NoAssembly(cs[0].body);
      NoAssemblyClauses(cs[1..]);
    }
  }

  // ---- how much the scan overstates ----------------------------------------------------

  /** The text in which control may pass every jump and halt, leave every `do` before its
      first turn, and pass every `try`. */
  function Loose(s: Stmt): Stmt
    decreases s, 0
  {
    match s
    case Block(b) => Block(LooseAll(b))
    case If(t, e) => If(Loose(t), if e.Some? then Some(Loose(e.value)) else None)
    case While(b) => While(Loose(b))
    case DoWhile(b) => While(Loose(b))
    case For(b) => For(Loose(b))
    case Try(cs) => Try([Clause([])] + LooseClauses(cs))
    case Break => Plain
    case Continue => Plain
    case Revert => Plain
    case _ => s
  }

  function LooseAll(ss: seq<Stmt>): seq<Stmt>
    decreases ss, 0
  {
    if ss == [] then [] else [Loose(ss[0])] + LooseAll(ss[1..])
  }

  function LooseClauses(cs: seq<Clause>): seq<Clause>
    decreases cs, 0
  {
    if cs == [] then [] else [Clause(LooseAll(cs[0].body))] + LooseClauses(cs[1..])
  }

  lemma {:induction false} LooseSame(s: Stmt, before: bool)
    requires !HasAssembly(s)
    ensures ScanOf(Loose(s), before) == ScanOf(s, before) && Simple(Loose(s))
    decreases s, 1
  {
    match s
    case Block(b) => LooseAllSame(b, before);
    case If(t, e) =>
      LooseSame(t, before);
      if e.Some? { LooseSame(e.value, before); }
    case While(b) => LooseSame(b, before);
    case DoWhile(b) => LooseSame(b, before);
    case For(b) => LooseSame(b, before);
    case Try(cs) =>
      LooseClausesSame(cs, before);
      EmptyClause(LooseClauses(cs), before);
    case _ =>
  }

  lemma EmptyClause(cs: seq<Clause>, before: bool)
    requires forall c | c in cs :: AllSimple(c.body)
    ensures var all := [Clause([])] + cs; AnyRisky(all, before) == AnyRisky(cs, before) && Simple(Try(all))
  {
    var all := [Clause([])] + cs;
    assert all[0] == Clause([]) && all[1..] == cs;
    assert AllSimple(all[0].body);
  }

  lemma {:induction false} LooseAllSame(ss: seq<Stmt>, before: bool)
    requires !HasAssemblyIn(ss)
    ensures ScanAll(LooseAll(ss), before) == ScanAll(ss, before) && AllSimple(LooseAll(ss))
    decreases ss, 0
  {
    if ss != [] {
      var x := ScanOf(ss[0], before);
      LooseSame(ss[0], before);
      LooseAllSame(ss[1..], before || x.definite);
      assert LooseAll(ss)[1..] == LooseAll(ss[1..]);
    }
  }

  lemma {:induction false} LooseClausesSame(cs: seq<Clause>, before: bool)
    requires !HasAssemblyClauses(cs)
    ensures AnyRisky(LooseClauses(cs), before) == AnyRisky(cs, before)
    ensures forall c | c in LooseClauses(cs) :: AllSimple(c.body)
    decreases cs, 0
  {
    if cs != [] {
      LooseAllSame(cs[0].body, before);
      LooseClausesSame(cs[1..], before);
      assert LooseClauses(cs)[1..] == LooseClauses(cs[1..]);
    }
  }

  /** The scan refuses exactly the modifiers that hold assembly or whose loose text can
      leave without having run the guarded body. */
  lemma LooseExact(body: seq<Stmt>)
    ensures MaySkip(body) <==> HasAssemblyIn(body) || exists o, k :: Skips(LooseAll(body), o, k)
  {
    if !HasAssemblyIn(body) {
      LooseAllSame(body, false);
      NoAssembly(LooseAll(body));
      ScanExact(LooseAll(body));
    }
  }

  // ---- the scan as it runs -------------------------------------------------------------

  lemma {:induction false} ScanMore(ss: seq<Stmt>, before: bool, i: nat)
    requires i < |ss|
    ensures var x := ScanAll(ss[..i], before); var y := ScanOf(ss[i], x.definite);
            ScanAll(ss[..i + 1], before) == Scan(x.definite || y.definite, x.risky || y.risky)
    decreases i
  {
    if i > 0 {
      assert ss[..i + 1][1..] == ss[1..][..i] && ss[..i][1..] == ss[1..][..i - 1];
      ScanMore(ss[1..], before || ScanOf(ss[0], before).definite, i - 1);
    } else {
      assert ss[..1][1..] == [];
    }
  }

  lemma {:induction false} AnyMore(cs: seq<Clause>, before: bool, i: nat)
    requires i < |cs|
    ensures AnyRisky(cs[..i + 1], before) == (AnyRisky(cs[..i], before) || ScanAll(cs[i].body, before).risky)
    decreases i
  {
    if i > 0 {
      assert cs[..i + 1][1..] == cs[1..][..i] && cs[..i][1..] == cs[1..][..i - 1];
      AnyMore(cs[1..], before, i - 1);
    } else {
      assert cs[..1][1..] == [];
    }
  }

  method ScanStmt(s: Stmt, before: bool) returns (definite: bool, risky: bool)
    ensures Scan(definite, risky) == ScanOf(s, before)
    decreases s, 1
  {
    match s {
      case Placeholder => definite, risky := true, false;
      case Return => definite, risky := before, !before;
      case Block(b) => definite, risky := ScanBlock(b, before);
      case If(t, e) =>
        var dt, rt := ScanStmt(t, before);
        var de, re := false, false;
        if e.Some? { de, re := ScanStmt(e.value, before); }
        definite, risky := dt && de, rt || re;
      case While(b) =>
        definite, risky := ScanStmt(b, before);
        definite := false;
      case DoWhile(b) =>
        definite, risky := ScanStmt(b, before);
        definite := false;
      case For(b) =>
        definite, risky := ScanStmt(b, before);
        definite := false;
      case Try(cs) =>
        definite := false;
        risky := ScanClauses(cs, before);
      case _ => definite, risky := false, false;
    }
  }

  method ScanClauses(cs: seq<Clause>, before: bool) returns (risky: bool)
    ensures risky == AnyRisky(cs, before)
    decreases cs, 0
  {
    risky := false;
    for i := 0 to |cs|
      invariant risky == AnyRisky(cs[..i], before)
    {
      var _, r := ScanBlock(cs[i].body, before);
      AnyMore(cs, before, i);
      risky := risky || r;
    }
    assert cs[..|cs|] == cs;
  }

  method ScanBlock(ss: seq<Stmt>, before: bool) returns (definite: bool, risky: bool)
    ensures Scan(definite, risky) == ScanAll(ss, before)
    decreases ss, 0
  {
    definite, risky := before, false;
    for i := 0 to |ss|
      invariant Scan(definite, risky) == ScanAll(ss[..i], before)
    {
      var d, r := ScanStmt(ss[i], definite);
      ScanMore(ss, before, i);
      risky := risky || r;
      definite := definite || d;
    }
    assert ss[..|ss|] == ss;
  }

  /** A modifier that is passed runs the guarded body on every path that leaves it. */
  method ModifierMaySkipBody(body: seq<Stmt>) returns (skip: bool)
    ensures skip == MaySkip(body)
    ensures !skip ==> forall o, k :: !Skips(body, o, k)
    ensures AllSimple(body) && skip ==> exists o, k :: Skips(body, o, k)
    ensures skip <==> HasAssemblyIn(body) || exists o, k :: Skips(LooseAll(body), o, k)
  {
    var definite, risky := ScanBlock(body, false);
    skip := risky || !definite || HasAssemblyIn(body);
    forall o, k | !MaySkip(body)
      ensures !Skips(body, o, k)
    {
      ScanSound(body, o, k);
    }
    if AllSimple(body) { ScanExact(body); }
    LooseExact(body);
  }
}
