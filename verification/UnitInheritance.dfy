/** The inheritance pass of crates/fhec-bind/src/binder.rs, and the search for a
    known ancestor's declaration in crates/fhec-bind/src/unit.rs. */
module UnitInheritance {
  import opened Wrappers
  import opened C3Merge
  import opened C3Linearize
  import opened KnownPrefix

  // ---- completeness -----------------------------------------------------------------

  /** `path[i + 1]` is a unit base of `path[i]`. */
  predicate UnitPath(u: Unit, path: seq<Id>) {
    forall i | 0 <= i < |path| - 1 :: path[i] < |u| && InUnit(path[i + 1]) in u[path[i]].bases
  }

  lemma {:induction false} PathDescends(u: Unit, ranks: map<Id, nat>, path: seq<Id>, i: nat)
    requires Ranks(u, ranks) && UnitPath(u, path) && i < |path| && path[0] in ranks
    ensures path[i] in ranks && ranks[path[i]] + i <= ranks[path[0]]
  {
    if i > 0 {
      PathDescends(u, ranks, path, i - 1);
      assert InUnit(path[i - 1 + 1]) in u[path[i - 1]].bases;
    }
  }

  /** A contract met again on the way down is on a cycle. */
  lemma CycleUngrounded(u: Unit, path: seq<Id>, c: Id)
    requires UnitPath(u, path + [c]) && c in path
    ensures !Grounded(u, c)
  {
    var i :| 0 <= i < |path| && path[i] == c;
    var cycle := path[i..] + [c];
    forall j | 0 <= j < |cycle| - 1
      ensures cycle[j] < |u| && InUnit(cycle[j + 1]) in u[cycle[j]].bases
    {
      assert (path + [c])[i + j] == cycle[j] && (path + [c])[i + j + 1] == cycle[j + 1];
    }
    forall ranks: map<Id, nat> | Ranks(u, ranks)
      ensures c !in ranks
    {
      if c in ranks { PathDescends(u, ranks, cycle, |cycle| - 1); }
    }
  }

  lemma GroundedBase(u: Unit, c: Id, b: BaseRef)
    requires c < |u| && b in u[c].bases && Grounded(u, c)
    ensures b.InUnit? && Grounded(u, b.id)
  {
    var ranks: map<Id, nat> :| Ranks(u, ranks) && c in ranks;
    assert b.InUnit? && b.id in ranks;
  }

  lemma {:induction false} Bound(ranks: map<Id, nat>, ids: set<Id>) returns (top: nat)
    requires ids <= ranks.Keys
    ensures forall i | i in ids :: ranks[i] < top
    decreases ids
  {
    if ids == {} {
      top := 0;
    } else {
      var x :| x in ids;
      var below := Bound(ranks, ids - {x});
      top := if ranks[x] < below then below else ranks[x] + 1;
    }
  }

  /** Above its grounded bases a contract is grounded too. */
  lemma BasesGround(u: Unit, ranks: map<Id, nat>, c: Id) returns (more: map<Id, nat>)
    requires Ranks(u, ranks) && c < |u| && c !in ranks
    requires forall b | b in u[c].bases :: b.InUnit? && b.id in ranks
    ensures Ranks(u, more) && more.Keys == ranks.Keys + {c}
  {
    var top := Bound(ranks, ranks.Keys);
    more := ranks[c := top];
    assert forall b | b in u[c].bases :: b.id in ranks.Keys;
  }

  /** What the memo says is right, and the contracts on the stack have no entry yet. */
  ghost predicate Settled(u: Unit, memo: map<Id, bool>, ranks: map<Id, nat>, stack: seq<Id>) {
    && Resolved(u) && Ranks(u, ranks)
    && (forall c | c in memo :: c < |u| && (memo[c] ==> c in ranks) && (!memo[c] ==> !Grounded(u, c)))
    && (forall c | c in ranks :: c in memo)
    && (forall c | c in stack :: c < |u| && c !in memo)
  }

  lemma Entered(u: Unit, memo: map<Id, bool>, ranks: map<Id, nat>, stack: seq<Id>, c: Id)
    requires Settled(u, memo, ranks, stack) && c < |u| && c !in memo
    ensures Settled(u, memo, ranks, stack + [c])
  {
  }

  predicate RankedTo(bases: seq<BaseRef>, n: nat, ranks: map<Id, nat>)
    requires n <= |bases|
  {
    forall k | 0 <= k < n :: bases[k].InUnit? && bases[k].id in ranks
  }

  lemma RankedMore(bases: seq<BaseRef>, n: nat, ranks: map<Id, nat>, more: map<Id, nat>)
    requires n < |bases| && RankedTo(bases, n, ranks) && (forall i | i in ranks :: i in more)
    requires bases[n].InUnit? && bases[n].id in more
    ensures RankedTo(bases, n + 1, more)
  {
  }

  lemma RankedAll(bases: seq<BaseRef>, ranks: map<Id, nat>)
    requires RankedTo(bases, |bases|, ranks)
    ensures forall b | b in bases :: b.InUnit? && b.id in ranks
  {
  }

  /** The verdict on a contract, once its bases are settled. */
  lemma Leaving(u: Unit, memo: map<Id, bool>, ranks: map<Id, nat>, stack: seq<Id>, c: Id, result: bool) returns (more: map<Id, nat>)
    requires Settled(u, memo, ranks, stack + [c]) && c < |u| && c !in stack
    requires result ==> RankedTo(u[c].bases, |u[c].bases|, ranks)
    requires !result ==> !Grounded(u, c)
    ensures Settled(u, memo[c := result], more, stack)
    ensures result ==> c in more && Grounded(u, c)
    ensures forall x | x in ranks :: x in more
  {
    assert c in stack + [c] && forall p | p in stack :: p in stack + [c];
    if result {
      RankedAll(u[c].bases, ranks);
      more := BasesGround(u, ranks, c);
    } else {
      more := ranks;
    }
  }

  /** The completeness check, with its memo and its stack. */
  class Completeness {
    const unit: Unit
    var memo: map<Id, bool>
    var stack: seq<Id>
    ghost var ranks: map<Id, nat>

    constructor (unit: Unit)
      requires Resolved(unit)
      ensures this.unit == unit && memo == map[] && stack == [] && Valid()
    {
      this.unit := unit;
      memo := map[];
      stack := [];
      ranks := map[];
    }

    ghost predicate Valid()
      reads this
    {
      Settled(unit, memo, ranks, stack)
    }

    /** Complete: every base in the unit, transitively, and no cycle. */
    method Check(c: Id, ghost room: nat) returns (result: bool)
      requires Valid() && c < |unit| && UnitPath(unit, stack + [c])
      requires |UnitBases(unit).Keys - Elements(stack)| <= room
      modifies this
      ensures Valid() && stack == old(stack)
      ensures result <==> Grounded(unit, c)
      ensures result ==> c in ranks
      ensures forall x | x in old(ranks) :: x in ranks
      decreases room
    {
      if c in memo {
        assert memo[c] ==> Ranks(unit, ranks) && c in ranks;
        return memo[c];
      }
      if c in stack {
        CycleUngrounded(unit, stack, c);
        return false;
      }
      ghost var before := stack;
      Smaller(UnitBases(unit).Keys, stack, c);
      Entered(unit, memo, ranks, stack, c);
      stack := stack + [c];
      result := true;
      var bases := unit[c].bases;
      for i := 0 to |bases|
        invariant Valid() && stack == before + [c]
        invariant result ==> RankedTo(bases, i, ranks)
        invariant !result ==> !Grounded(unit, c)
        invariant forall x | x in old(ranks) :: x in ranks
      {
        ghost var known := ranks;
        var below := false;
        if bases[i].InUnit? {
          PathGrows(unit, before, c, bases[i].id);
          below := Check(bases[i].id, room - 1);
        }
        if !below {
          result := false;
          BaseUngrounded(unit, c, bases[i]);
        } else if result {
          RankedMore(bases, i, known, ranks);
        }
      }
      ghost var more := Leaving(unit, memo, ranks, before, c, result);
      stack := stack[..|stack| - 1];
      ranks := more;
      memo := memo[c := result];
    }
  }

  lemma BaseUngrounded(u: Unit, c: Id, b: BaseRef)
    requires c < |u| && b in u[c].bases && (b.InUnit? ==> !Grounded(u, b.id))
    ensures !Grounded(u, c)
  {
    if Grounded(u, c) { GroundedBase(u, c, b); }
  }

  lemma PathGrows(u: Unit, path: seq<Id>, c: Id, b: Id)
    requires UnitPath(u, path + [c]) && c < |u| && InUnit(b) in u[c].bases
    ensures UnitPath(u, path + [c] + [b])
  {
  }

  /** Records every contract's linearization: complete exactly when the contract is
      grounded in the unit and has a C3 order there. */
  method ResolveInheritance(u: Unit) returns (lins: seq<Linearization>)
    requires Resolved(u)
    ensures AllRecorded(u, lins)
  {
    var complete := CompleteFlags(u);
    lins := [];
    for c := 0 to |u|
      invariant |lins| == c && RecordedTo(u, lins)
    {
      var lin := LinearizationFor(u, UnitBases(u), c, complete);
      RecordedMore(u, lins, lin);
      lins := lins + [lin];
    }
  }

  ghost predicate RecordedTo(u: Unit, lins: seq<Linearization>) {
    forall i | 0 <= i < |lins| :: Recorded(u, i, lins[i])
  }

  lemma RecordedMore(u: Unit, lins: seq<Linearization>, lin: Linearization)
    requires RecordedTo(u, lins) && Recorded(u, |lins|, lin)
    ensures RecordedTo(u, lins + [lin])
  {
  }

  method LinearizationFor(u: Unit, bases: Bases, c: Id, complete: seq<bool>) returns (lin: Linearization)
    requires c < |complete| && Decided(u, complete) && bases == UnitBases(u)
    ensures Recorded(u, c, lin)
  {
    lin := Linearization([c], false);
    var order := None;
    if complete[c] {
      order := Linearize(c, bases);
      if order.Some? {
        lin := Linearization(order.value, true);
      }
    }
    RecordedFrom(u, c, complete, order, lin);
  }

  method CompleteFlags(u: Unit) returns (complete: seq<bool>)
    requires Resolved(u)
    ensures |complete| == |u| && Decided(u, complete)
  {
    var check := new Completeness(u);
    complete := [];
    for c := 0 to |u|
      invariant check.Valid() && check.unit == u && check.stack == [] && fresh(check)
      invariant Decided(u, complete) && |complete| == c
    {
      assert UnitPath(u, [] + [c]);
      var ok := check.Check(c, |UnitBases(u).Keys - Elements([])|);
      DecidedMore(u, complete, ok);
      complete := complete + [ok];
    }
  }

  ghost predicate Decided(u: Unit, complete: seq<bool>) {
    forall i | 0 <= i < |complete| :: complete[i] == Grounded(u, i)
  }

  lemma DecidedMore(u: Unit, complete: seq<bool>, ok: bool)
    requires Decided(u, complete) && ok == Grounded(u, |complete|)
    ensures Decided(u, complete + [ok])
  {
  }

  lemma RecordedFrom(u: Unit, c: Id, complete: seq<bool>, order: Option<seq<Id>>, lin: Linearization)
    requires c < |complete| && Decided(u, complete) && (order.Some? ==> complete[c])
    requires order.Some? ==> HasOrder(UnitBases(u), c, order.value)
    requires complete[c] && order.None? ==> !HasSomeOrder(UnitBases(u), c)
    requires lin == if order.Some? then Linearization(order.value, true) else Linearization([c], false)
    ensures Recorded(u, c, lin)
  {
  }

  // ---- a declaration anywhere above ---------------------------------------------------

  ghost predicate Reaches(u: Unit, c: Id, x: Id) {
    exists path :: path != [] && UnitPath(u, path) && path[0] == c && path[|path| - 1] == x
  }

  lemma ReachesSelf(u: Unit, c: Id)
    ensures Reaches(u, c, c)
  {
    var path := [c];
    assert UnitPath(u, path) && path[0] == c && path[|path| - 1] == c;
  }

  lemma ReachesBase(u: Unit, c: Id, b: Id, x: Id)
    requires c < |u| && InUnit(b) in u[c].bases && Reaches(u, b, x)
    ensures Reaches(u, c, x)
  {
    var path :| path != [] && UnitPath(u, path) && path[0] == b && path[|path| - 1] == x;
    var longer := [c] + path;
    assert UnitPath(u, longer) && longer[0] == c && longer[|longer| - 1] == x;
  }

  /** The contract declares nothing of the name, and all its unit bases are in the set. */
  predicate Cleared(u: Unit, x: Id, name: string, seen: seq<Id>) {
    x < |u| && Inheritable(u[x].members, name).None? && forall b | b in u[x].bases && b.InUnit? :: b.id in seen
  }

  lemma {:induction false} ClearedPath(u: Unit, name: string, seen: seq<Id>, path: seq<Id>, i: nat)
    requires forall x | x in seen :: Cleared(u, x, name, seen)
    requires UnitPath(u, path) && i < |path| && path[0] in seen
    ensures path[i] in seen
  {
    if i > 0 {
      ClearedPath(u, name, seen, path, i - 1);
      assert InUnit(path[i - 1 + 1]) in u[path[i - 1]].bases;
    }
  }

  /** The search, with the contracts it has seen. */
  class AncestorSearch {
    const unit: Unit
    var seen: seq<Id>

    constructor (unit: Unit)
      ensures this.unit == unit && seen == []
    {
      this.unit := unit;
      seen := [];
    }

    method Find(c: Id, name: string, ghost room: nat) returns (r: Option<Member>)
      requires Resolved(unit) && c < |unit| && |UnitBases(unit).Keys - Elements(seen)| <= room
      modifies this
      ensures r.Some? ==> exists x | 0 <= x < |unit| :: Reaches(unit, c, x) && Inheritable(unit[x].members, name) == r
      ensures r.None? ==> c in seen && old(seen) <= seen
      ensures r.None? ==> ClearedFrom(unit, name, old(seen), seen)
      decreases room
    {
      if c in seen {
        return None;
      }
      Smaller(UnitBases(unit).Keys, seen, c);
      ghost var before := seen;
      seen := seen + [c];
      var own := Inheritable(unit[c].members, name);
      if own.Some? {
        ReachesSelf(unit, c);
        return own;
      }
      var bases := unit[c].bases;
      for i := 0 to |bases|
        invariant before + [c] <= seen
        invariant ClearedFrom(unit, name, before + [c], seen) && SeenTo(bases, i, seen)
      {
        if bases[i].InUnit? {
          ghost var known := seen;
          RoomKept(UnitBases(unit).Keys, before + [c], seen);
          r := Find(bases[i].id, name, room - 1);
          if r.Some? {
            ghost var x :| 0 <= x < |unit| && Reaches(unit, bases[i].id, x) && Inheritable(unit[x].members, name) == r;
            ReachesBase(unit, c, bases[i].id, x);
            return r;
          }
          StillCleared(unit, name, before + [c], known, seen);
          SeenMore(bases, i, known, seen);
        }
      }
      NowCleared(unit, name, before, c, seen);
      return None;
    }
  }

  lemma RoomKept(universe: set<Id>, less: seq<Id>, more: seq<Id>)
    requires less <= more
    ensures |universe - Elements(more)| <= |universe - Elements(less)|
  {
    assert universe - Elements(more) <= universe - Elements(less);
    FewerElements(universe - Elements(more), universe - Elements(less));
  }

  lemma FewerElements(a: set<Id>, b: set<Id>)
    requires a <= b
    ensures |a| <= |b|
  {
    assert b == a + (b - a);
  }

  /** Every contract seen since then has been cleared. */
  predicate ClearedFrom(u: Unit, name: string, since: seq<Id>, seen: seq<Id>) {
    since <= seen && forall x | x in seen :: x in since || Cleared(u, x, name, seen)
  }

  predicate SeenTo(bases: seq<BaseRef>, n: nat, seen: seq<Id>)
    requires n <= |bases|
  {
    forall k | 0 <= k < n && bases[k].InUnit? :: bases[k].id in seen
  }

  lemma SeenMore(bases: seq<BaseRef>, n: nat, known: seq<Id>, more: seq<Id>)
    requires n < |bases| && SeenTo(bases, n, known) && known <= more && bases[n].InUnit? && bases[n].id in more
    ensures SeenTo(bases, n + 1, more)
  {
    assert forall x | x in known :: x in more;
  }

  lemma StillCleared(u: Unit, name: string, since: seq<Id>, known: seq<Id>, more: seq<Id>)
    requires ClearedFrom(u, name, since, known) && ClearedFrom(u, name, known, more)
    ensures ClearedFrom(u, name, since, more)
  {
    assert forall x | x in known :: x in more;
  }

  lemma NowCleared(u: Unit, name: string, before: seq<Id>, c: Id, seen: seq<Id>)
    requires ClearedFrom(u, name, before + [c], seen) && c < |u| && Inheritable(u[c].members, name).None?
    requires SeenTo(u[c].bases, |u[c].bases|, seen)
    ensures ClearedFrom(u, name, before, seen) && c in seen
  {
    assert seen[|before|] == c;
    assert before <= before + [c];
    assert Cleared(u, c, name, seen);
    forall x | x in seen
      ensures x in before || Cleared(u, x, name, seen)
    {
      assert x in before + [c] ==> x in before || x == c;
    }
  }

  /** Some declaration is found exactly when a known ancestor, or the contract, has one. */
  method KnownAncestorMember(u: Unit, c: Id, name: string) returns (r: Option<Member>)
    requires Resolved(u) && c < |u|
    ensures r.Some? ==> exists x | 0 <= x < |u| :: Reaches(u, c, x) && Inheritable(u[x].members, name) == r
    ensures r.Some? ==> exists x | 0 <= x < |u| :: Reaches(u, c, x) && DeclaresVisibly(u[x].members, name) && Sees(u[x].members[name], r.value)
    ensures r.None? ==> forall x | 0 <= x < |u| && Reaches(u, c, x) :: Inheritable(u[x].members, name).None?
    ensures r.None? ==> forall x | 0 <= x < |u| && Reaches(u, c, x) :: !DeclaresVisibly(u[x].members, name)
  {
    var search := new AncestorSearch(u);
    r := search.Find(c, name, |UnitBases(u).Keys - Elements([])|);
    if r.Some? {
      ghost var x :| 0 <= x < |u| && Reaches(u, c, x) && Inheritable(u[x].members, name) == r;
      InheritableExact(u[x].members, name);
    } else {
      forall x | 0 <= x < |u| && Reaches(u, c, x)
        ensures Inheritable(u[x].members, name).None? && !DeclaresVisibly(u[x].members, name)
      {
        InheritableExact(u[x].members, name);
        var path :| path != [] && UnitPath(u, path) && path[0] == c && path[|path| - 1] == x;
        ClearedPath(u, name, search.seen, path, |path| - 1);
      }
    }
  }
}
