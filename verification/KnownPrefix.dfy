/**
 Member lookup through inheritance when some bases are outside the unit:
 crates/fhec-bind/src/unit.rs and the inheritance pass of
 crates/fhec-bind/src/binder.rs.
 */
module KnownPrefix {
  import opened Wrappers
  import opened C3Merge
  import opened C3Linearize

  datatype Fn = Fn(id: nat, isPrivate: bool)
  datatype Member = Functions(fs: seq<Fn>) | StateVar(id: nat, isPrivate: bool) | OtherDecl(id: nat)
  type Members = map<string, Member>

  /** An opaque base is outside the unit, or its name did not resolve. */
  datatype BaseRef = InUnit(id: Id) | Opaque(name: string)
  datatype Contract = Contract(bases: seq<BaseRef>, members: Members)
  type Unit = seq<Contract>

  /** `complete` says that every base is in the unit and C3 succeeded. */
  datatype Linearization = Linearization(order: seq<Id>, complete: bool)

  predicate Resolved(u: Unit) {
    forall i, k | 0 <= i < |u| && 0 <= k < |u[i].bases| && u[i].bases[k].InUnit? :: u[i].bases[k].id < |u|
  }

  function VisibleFns(fs: seq<Fn>): seq<Fn> {
    if fs == [] then [] else (if fs[0].isPrivate then [] else [fs[0]]) + VisibleFns(fs[1..])
  }

  /** What an heir sees of a contract's own declaration of the name. */
  function Inheritable(members: Members, name: string): Option<Member> {
    if name !in members then None
    else
      match members[name]
      case Functions(fs) => if VisibleFns(fs) == [] then None else Some(Functions(VisibleFns(fs)))
      case StateVar(_, isPrivate) => if isPrivate then None else Some(members[name])
      case OtherDecl(_) => Some(members[name])
  }

  /** A declaration of which an heir sees something. */
  ghost predicate Offers(m: Member) {
    match m
    case Functions(fs) => exists f | f in fs :: !f.isPrivate
    case StateVar(_, isPrivate) => !isPrivate
    case OtherDecl(_) => true
  }

  ghost predicate DeclaresVisibly(members: Members, name: string) {
    name in members && Offers(members[name])
  }

  predicate Follows(fs: seq<Fn>, f: Fn, g: Fn) {
    exists i, j | 0 <= i < j < |fs| :: fs[i] == f && fs[j] == g
  }

  /** What an heir sees of a declaration: a group without its private functions, in the
      order of the group, or all of it. */
  ghost predicate Sees(m: Member, seen: Member) {
    if m.Functions? then
      && seen.Functions? && (forall f :: f in seen.fs <==> f in m.fs && !f.isPrivate)
      && forall i, j | 0 <= i < j < |seen.fs| :: Follows(m.fs, seen.fs[i], seen.fs[j])
    else seen == m
  }

  /** The first contract along the order that declares the name visibly, and what it offers. */
  ghost predicate FirstVisible(members: map<Id, Members>, order: seq<Id>, name: string, seen: Member) {
    exists i | 0 <= i < |order| ::
      && order[i] in members && DeclaresVisibly(members[order[i]], name) && Sees(members[order[i]][name], seen)
      && forall j | 0 <= j < i :: order[j] in members ==> !DeclaresVisibly(members[order[j]], name)
  }

  ghost predicate NoneVisible(members: map<Id, Members>, order: seq<Id>, name: string) {
    forall x | x in order && x in members :: !DeclaresVisibly(members[x], name)
  }

  lemma {:induction false} VisibleOnly(fs: seq<Fn>)
    ensures forall f :: f in VisibleFns(fs) <==> f in fs && !f.isPrivate
  {
    if fs != [] {
      VisibleOnly(fs[1..]);
      assert fs == [fs[0]] + fs[1..];
    }
  }

  lemma FollowsLater(fs: seq<Fn>, f: Fn, g: Fn)
    requires fs != []
    ensures Follows(fs[1..], f, g) ==> Follows(fs, f, g)
    ensures f == fs[0] && g in fs[1..] ==> Follows(fs, f, g)
  {
    if Follows(fs[1..], f, g) {
      var i, j :| 0 <= i < j < |fs[1..]| && fs[1..][i] == f && fs[1..][j] == g;
      assert fs[i + 1] == f && fs[j + 1] == g;
    }
    if f == fs[0] && g in fs[1..] {
      var j :| 0 <= j < |fs[1..]| && fs[1..][j] == g;
      assert fs[0] == f && fs[j + 1] == g;
    }
  }

  lemma {:induction false} VisibleInOrder(fs: seq<Fn>)
    ensures forall i, j | 0 <= i < j < |VisibleFns(fs)| :: Follows(fs, VisibleFns(fs)[i], VisibleFns(fs)[j])
    decreases fs
  {
    if fs != [] {
      var vs, rest := VisibleFns(fs), VisibleFns(fs[1..]);
      VisibleInOrder(fs[1..]);
      VisibleOnly(fs[1..]);
      forall i, j | 0 <= i < j < |vs|
        ensures Follows(fs, vs[i], vs[j])
      {
        FollowsLater(fs, vs[i], vs[j]);
        if fs[0].isPrivate {
          assert Follows(fs[1..], rest[i], rest[j]);
        } else if i > 0 {
          assert Follows(fs[1..], rest[i - 1], rest[j - 1]);
        } else {
          assert vs[j] == rest[j - 1] && rest[j - 1] in rest;
        }
      }
    }
  }

  /** Private members are not inherited; everything else is. */
  lemma InheritableExact(members: Members, name: string)
    ensures Inheritable(members, name).Some? <==> DeclaresVisibly(members, name)
    ensures Inheritable(members, name).Some? ==> Sees(members[name], Inheritable(members, name).value)
  {
    if name in members && members[name].Functions? {
      VisibleOnly(members[name].fs);
      VisibleInOrder(members[name].fs);
      if VisibleFns(members[name].fs) != [] { assert VisibleFns(members[name].fs)[0] in VisibleFns(members[name].fs); }
    }
  }

  function InUnitIds(bases: seq<BaseRef>): seq<Id> {
    if bases == [] then [] else (if bases[0].InUnit? then [bases[0].id] else []) + InUnitIds(bases[1..])
  }

  function UnitBases(u: Unit): Bases {
    map i | 0 <= i < |u| :: InUnitIds(u[i].bases)
  }

  function UnitMembers(u: Unit): map<Id, Members> {
    map i | 0 <= i < |u| :: u[i].members
  }

  /** The first declaration along an order. */
  function FirstMember(members: map<Id, Members>, order: seq<Id>, name: string): Option<Member> {
    if order == [] then None
    else
      var own := if order[0] in members then Inheritable(members[order[0]], name) else None;
      if own.Some? then own else FirstMember(members, order[1..], name)
  }

  /** Lookup along an order gives what the first contract with a visible declaration
      offers, and nothing exactly when there is none. */
  lemma {:induction false} FirstMemberExact(members: map<Id, Members>, order: seq<Id>, name: string)
    ensures FirstMember(members, order, name).None? <==> NoneVisible(members, order, name)
    ensures FirstMember(members, order, name).Some? ==> FirstVisible(members, order, name, FirstMember(members, order, name).value)
    decreases order
  {
    if order != [] {
      assert order == [order[0]] + order[1..];
      if order[0] in members { InheritableExact(members[order[0]], name); }
      if !(order[0] in members && DeclaresVisibly(members[order[0]], name)) {
        FirstMemberExact(members, order[1..], name);
        if FirstMember(members, order, name).Some? { FirstLater(members, order, name, FirstMember(members, order, name).value); }
      } else {
        assert order[0] in order;
      }
    }
  }

  lemma FirstLater(members: map<Id, Members>, order: seq<Id>, name: string, seen: Member)
    requires order != [] && (order[0] in members ==> !DeclaresVisibly(members[order[0]], name))
    requires FirstVisible(members, order[1..], name, seen)
    ensures FirstVisible(members, order, name, seen)
  {
    var rest := order[1..];
    var i :| 0 <= i < |rest| && rest[i] in members && DeclaresVisibly(members[rest[i]], name) && Sees(members[rest[i]][name], seen)
             && forall j | 0 <= j < i :: rest[j] in members ==> !DeclaresVisibly(members[rest[j]], name);
    assert order[i + 1] == rest[i];
    forall j | 0 <= j < i + 1
      ensures order[j] in members ==> !DeclaresVisibly(members[order[j]], name)
    {
      if j > 0 { assert order[j] == rest[j - 1]; }
    }
  }

  /** Lookup in what certainly precedes every opaque base. */
  function MemberInKnownPrefix(u: Unit, lins: seq<Linearization>, c: Id, name: string, includeOwn: bool, seen: seq<Id>): Option<Member>
    requires Resolved(u) && |lins| == |u| && c < |u| && forall s | s in seen :: s < |u|
    decreases |UnitBases(u).Keys - Elements(seen)|
  {
    if c in seen then None
    else
      var own := if includeOwn then Inheritable(u[c].members, name) else None;
      if own.Some? then own
      else if lins[c].complete then
        FirstMember(UnitMembers(u), if lins[c].order == [] then [] else lins[c].order[1..], name)
      else
        var bases := u[c].bases;
        if |bases| == 1 && bases[0].InUnit? then
          Smaller(UnitBases(u).Keys, seen, c);
          MemberInKnownPrefix(u, lins, bases[0].id, name, true, seen + [c])
        else if |bases| > 1 && bases[|bases| - 1].InUnit? then
          Inheritable(u[bases[|bases| - 1].id].members, name)
        else None
  }

  function InheritedMemberInKnownPrefix(u: Unit, lins: seq<Linearization>, c: Id, name: string): Option<Member>
    requires Resolved(u) && |lins| == |u| && c < |u|
  {
    MemberInKnownPrefix(u, lins, c, name, false, [])
  }

  /** The contracts that come right after this one in every completion: all of them
      when nothing above is opaque, else as far as single known bases go, and the
      last written base where there are several. */
  function CertainAfter(u: Unit, lins: seq<Linearization>, c: Id, seen: seq<Id>): (r: seq<Id>)
    requires Resolved(u) && |lins| == |u| && c < |u| && forall s | s in seen :: s < |u|
    decreases |UnitBases(u).Keys - Elements(seen)|
  {
    var bases := u[c].bases;
    if c in seen then []
    else if lins[c].complete then (if lins[c].order == [] then [] else lins[c].order[1..])
    else if |bases| == 1 && bases[0].InUnit? then
      Smaller(UnitBases(u).Keys, seen, c);
      if bases[0].id in seen + [c] then [] else [bases[0].id] + CertainAfter(u, lins, bases[0].id, seen + [c])
    else if |bases| > 1 && bases[|bases| - 1].InUnit? then [bases[|bases| - 1].id]
    else []
  }

  /** Known-prefix lookup is lookup along those contracts, for every name. */
  lemma {:induction false} PrefixLookup(u: Unit, lins: seq<Linearization>, c: Id, name: string, includeOwn: bool, seen: seq<Id>)
    requires Resolved(u) && |lins| == |u| && c < |u| && c !in seen && forall s | s in seen :: s < |u|
    ensures MemberInKnownPrefix(u, lins, c, name, includeOwn, seen)
            == FirstMember(UnitMembers(u), (if includeOwn then [c] else []) + CertainAfter(u, lins, c, seen), name)
    decreases |UnitBases(u).Keys - Elements(seen)|
  {
    var after, bases := CertainAfter(u, lins, c, seen), u[c].bases;
    Uncons([c] + after);
    assert ([c] + after)[1..] == after && [] + after == after;
    assert UnitMembers(u)[c] == u[c].members;
    if lins[c].complete {
    } else if |bases| == 1 && bases[0].InUnit? {
      Smaller(UnitBases(u).Keys, seen, c);
      if bases[0].id in seen + [c] {
        assert MemberInKnownPrefix(u, lins, bases[0].id, name, true, seen + [c]) == None;
        assert after == [];
      } else {
        PrefixLookup(u, lins, bases[0].id, name, true, seen + [c]);
      }
    } else if |bases| > 1 && bases[|bases| - 1].InUnit? {
      var last := bases[|bases| - 1].id;
      assert UnitMembers(u)[last] == u[last].members;
      assert [last][1..] == [] && FirstMember(UnitMembers(u), [last], name) == Inheritable(u[last].members, name);
    }
  }

  // ---- every completion ---------------------------------------------------------

  /** The unit with its opaque bases filled in, and whatever those inherit from. */
  datatype World = World(bases: Bases, members: map<Id, Members>)

  /** Any contract at all may stand for an opaque base. */
  predicate Completes(u: Unit, w: World) {
    && (forall i | 0 <= i < |u| :: i in w.members && w.members[i] == u[i].members)
    && (forall i | 0 <= i < |u| :: |Declared(w.bases, i)| == |u[i].bases|)
    && (forall i, k | 0 <= i < |u| && 0 <= k < |u[i].bases| && u[i].bases[k].InUnit? :: Declared(w.bases, i)[k] == u[i].bases[k].id)
  }

  /** Ranks witness that a contract reaches only contracts of the unit, and no cycle. */
  predicate Ranks(u: Unit, ranks: map<Id, nat>) {
    forall i | i in ranks :: i < |u| && forall b | b in u[i].bases :: b.InUnit? && b.id in ranks && ranks[b.id] < ranks[i]
  }

  ghost predicate Grounded(u: Unit, c: Id) {
    exists ranks: map<Id, nat> :: Ranks(u, ranks) && c in ranks
  }

  /** What the inheritance pass records for a contract. */
  ghost predicate Recorded(u: Unit, c: Id, lin: Linearization) {
    && (lin.complete ==> Grounded(u, c) && HasOrder(UnitBases(u), c, lin.order))
    && (!lin.complete ==> lin.order == [c] && (Grounded(u, c) ==> !HasSomeOrder(UnitBases(u), c)))
  }

  ghost predicate AllRecorded(u: Unit, lins: seq<Linearization>) {
    |lins| == |u| && forall c | 0 <= c < |u| :: Recorded(u, c, lins[c])
  }

  lemma {:induction false} AllInUnit(bases: seq<BaseRef>, declared: seq<Id>)
    requires |declared| == |bases| && forall k | 0 <= k < |bases| :: bases[k].InUnit? && declared[k] == bases[k].id
    ensures InUnitIds(bases) == declared
  {
    if bases != [] { AllInUnit(bases[1..], declared[1..]); }
  }

  /** Where only unit contracts are reached, every completion has the same order. */
  lemma {:induction false} GroundedOrder(u: Unit, w: World, ranks: map<Id, nat>, s: map<Id, seq<Id>>, t: map<Id, seq<Id>>, c: Id)
    requires Ranks(u, ranks) && Completes(u, w) && c in ranks
    requires Ordered(UnitBases(u), s) && Ordered(w.bases, t) && c in s && c in t
    ensures s[c] == t[c]
    decreases ranks[c]
  {
    var declared := Declared(w.bases, c);
    forall k | 0 <= k < |u[c].bases|
      ensures u[c].bases[k].InUnit? && declared[k] == u[c].bases[k].id && declared[k] in ranks && ranks[declared[k]] < ranks[c]
    {
      assert u[c].bases[k] in u[c].bases;
    }
    AllInUnit(u[c].bases, declared);
    assert Declared(UnitBases(u), c) == declared;
    assert OrderedAt(UnitBases(u), s, c) && OrderedAt(w.bases, t, c);
    forall b | b in declared
      ensures s[b] == t[b]
    {
      GroundedOrder(u, w, ranks, s, t, b);
    }
    ReverseElements(declared);
    SameOrders(Reverse(declared), s, t);
  }

  lemma {:induction false} SubCover(a: seq<Id>, b: seq<Id>)
    requires Sub(a, b) && NoDup(b) && forall x | x in b :: x in a
    ensures a == b
    decreases b
  {
    if b != [] {
      assert b[0] in b && b == [b[0]] + b[1..];
      assert b[0] !in b[1..];
      assert a != [] && a == [a[0]] + a[1..];
      if a[0] == b[0] {
        forall x | x in b[1..]
          ensures x in a[1..]
        {
          assert x in b && x in a;
        }
        SubCover(a[1..], b[1..]);
      } else {
        SubElements(a, b[1..]);
      }
    }
  }

  /** With a single base the order goes on as the base's does. */
  lemma OneBase(w: World, table: map<Id, seq<Id>>, c: Id, b: Id)
    requires Ordered(w.bases, table) && c in table && Declared(w.bases, c) == [b]
    ensures b in table && table[c] == [c] + table[b]
  {
    assert OrderedAt(w.bases, table, c);
    assert b in Declared(w.bases, c);
    var input := MergeInput(w.bases, c, table);
    var order := Merged(input).value;
    assert [b][1..] == [] && Reverse([]) == [] && [] + [b] == [b];
    assert Reverse([b]) == [b];
    assert OrdersOf([b], table) == [table[b]];
    assert input == [table[b], [b]];
    MergeSound(input);
    OrderKeeps(w.bases, table, b);
    forall x | x in order
      ensures x in table[b]
    {
      var q :| q in input && x in q;
    }
    SubCover(table[b], order);
  }

  lemma {:induction false} ReverseFirst(s: seq<Id>)
    requires s != []
    ensures Reverse(s) != [] && Reverse(s)[0] == s[|s| - 1]
  {
    if |s| > 1 { ReverseFirst(s[1..]); }
  }

  /** The last written base comes first after the contract itself. */
  lemma RightmostFirst(w: World, table: map<Id, seq<Id>>, c: Id)
    requires Ordered(w.bases, table) && c in table && Declared(w.bases, c) != []
    ensures |table[c]| > 1 && table[c][1] == Declared(w.bases, c)[|Declared(w.bases, c)| - 1]
  {
    var declared := Declared(w.bases, c);
    var ids, input := Reverse(declared), MergeInput(w.bases, c, table);
    assert OrderedAt(w.bases, table, c);
    ReverseFirst(declared);
    ReverseElements(declared);
    OrdersHold(ids, table);
    var live := NonEmpty(input);
    NonEmptyIs(input);
    assert input[|input| - 1] == ids;
    assert ids in live;
    CandidateIs(live, live);
    var h := Candidate(live, live).value;
    var q :| q in live && q != [] && q[0] == h;
    if q != ids {
      var b :| b in ids && q == table[b];
      OrderKeeps(w.bases, table, b);
    }
    assert h in ids;
    Uncons(ids);
  }

  lemma Member0(members: map<Id, Members>, order: seq<Id>, name: string)
    requires order != [] && order[0] in members
    ensures FirstMember(members, order, name) ==
            if Inheritable(members[order[0]], name).Some? then Inheritable(members[order[0]], name) else FirstMember(members, order[1..], name)
  {
  }

  lemma {:induction false} SameMembers(u: Unit, w: World, order: seq<Id>, name: string)
    requires Completes(u, w) && forall x | x in order :: x < |u|
    ensures FirstMember(UnitMembers(u), order, name) == FirstMember(w.members, order, name)
  {
    if order != [] {
      Uncons(order);
      assert order[0] in order;
      assert order[0] in UnitMembers(u) && UnitMembers(u)[order[0]] == u[order[0]].members == w.members[order[0]];
      SameMembers(u, w, order[1..], name);
    }
  }

  /** An order of grounded contracts names contracts of the unit only. */
  lemma {:induction false} OrderInUnit(u: Unit, ranks: map<Id, nat>, table: map<Id, seq<Id>>, c: Id)
    requires Ranks(u, ranks) && c in ranks && Ordered(UnitBases(u), table) && c in table
    ensures forall x | x in table[c] :: x < |u|
    decreases ranks[c]
  {
    forall x | x in table[c]
      ensures x < |u|
    {
      if x != c {
        var b := MemberOfBase(UnitBases(u), table, c, x);
        InUnitIdsFrom(u[c].bases, b);
        OrderInUnit(u, ranks, table, b);
      }
    }
  }

  lemma {:induction false} InUnitIdsFrom(bases: seq<BaseRef>, b: Id)
    requires b in InUnitIds(bases)
    ensures InUnit(b) in bases
  {
    if !(bases[0].InUnit? && bases[0].id == b) { InUnitIdsFrom(bases[1..], b); }
  }

  lemma CompleteCertain(u: Unit, lin: Linearization, c: Id, name: string, w: World, table: map<Id, seq<Id>>)
    requires c < |u| && Recorded(u, c, lin) && lin.complete
    requires Completes(u, w) && Ordered(w.bases, table) && c in table
    ensures lin.order == table[c] && table[c] != [] && table[c][0] == c
    ensures FirstMember(UnitMembers(u), lin.order[1..], name) == FirstMember(w.members, table[c][1..], name)
  {
    var ranks: map<Id, nat> :| Ranks(u, ranks) && c in ranks;
    var s: map<Id, seq<Id>> :| Ordered(UnitBases(u), s) && c in s && s[c] == lin.order;
    GroundedOrder(u, w, ranks, s, table, c);
    OrderKeeps(w.bases, table, c);
    OrderInUnit(u, ranks, s, c);
    Uncons(lin.order);
    SameMembers(u, w, lin.order[1..], name);
  }

  lemma CompleteOrder(u: Unit, lin: Linearization, c: Id, w: World, table: map<Id, seq<Id>>)
    requires c < |u| && Recorded(u, c, lin) && lin.complete
    requires Completes(u, w) && Ordered(w.bases, table) && c in table
    ensures lin.order == table[c] && table[c] != []
  {
    CompleteCertain(u, lin, c, "", w, table);
  }

  /** The certain contracts are a prefix of every completion's order. */
  lemma {:induction false} CertainIsPrefix(u: Unit, lins: seq<Linearization>, c: Id, seen: seq<Id>, w: World, table: map<Id, seq<Id>>)
    requires Resolved(u) && AllRecorded(u, lins) && c < |u| && (forall s | s in seen :: s < |u|)
    requires Completes(u, w) && Ordered(w.bases, table) && c in table
    ensures table[c] != [] && CertainAfter(u, lins, c, seen) <= table[c][1..]
    decreases |table[c]|
  {
    OrderKeeps(w.bases, table, c);
    var bases := u[c].bases;
    if c in seen {
    } else if lins[c].complete {
      CompleteOrder(u, lins[c], c, w, table);
    } else if |bases| == 1 && bases[0].InUnit? {
      var b := bases[0].id;
      assert Declared(w.bases, c) == [b];
      OneBase(w, table, c, b);
      assert table[c][1..] == table[b];
      CertainIsPrefix(u, lins, b, seen + [c], w, table);
      OrderKeeps(w.bases, table, b);
      Uncons(table[b]);
    } else if |bases| > 1 && bases[|bases| - 1].InUnit? {
      RightmostFirst(w, table, c);
    }
  }

  /** A last written base inside the unit is always certain, and so is everything
      above a contract without opaque ancestors. */
  lemma CertainHolds(u: Unit, lins: seq<Linearization>, c: Id, w: World, table: map<Id, seq<Id>>)
    requires Resolved(u) && AllRecorded(u, lins) && c < |u|
    requires Completes(u, w) && Ordered(w.bases, table) && c in table
    ensures table[c] != []
    ensures lins[c].complete ==> CertainAfter(u, lins, c, []) == table[c][1..]
    ensures u[c].bases != [] && u[c].bases[|u[c].bases| - 1].InUnit? ==>
              CertainAfter(u, lins, c, []) != [] && CertainAfter(u, lins, c, [])[0] == u[c].bases[|u[c].bases| - 1].id
  {
    OrderKeeps(w.bases, table, c);
    var bases := u[c].bases;
    if lins[c].complete { CompleteOrder(u, lins[c], c, w, table); }
    if bases != [] && bases[|bases| - 1].InUnit? {
      RightmostFirst(w, table, c);
      if |bases| == 1 {
        assert Declared(w.bases, c) == [bases[0].id];
        OneBase(w, table, c, bases[0].id);
        assert |table[c]| == 1 + |table[bases[0].id]|;
      }
    }
  }

  lemma {:induction false} KnownFirst(u: Unit, lins: seq<Linearization>, c: Id, name: string, includeOwn: bool, seen: seq<Id>,
                                      w: World, table: map<Id, seq<Id>>)
    requires Resolved(u) && AllRecorded(u, lins) && c < |u| && (forall s | s in seen :: s < |u|)
    requires Completes(u, w) && Ordered(w.bases, table) && c in table
    requires MemberInKnownPrefix(u, lins, c, name, includeOwn, seen).Some?
    ensures table[c] != []
    ensures FirstMember(w.members, if includeOwn then table[c] else table[c][1..], name) == MemberInKnownPrefix(u, lins, c, name, includeOwn, seen)
    decreases |table[c]|
  {
    OrderKeeps(w.bases, table, c);
    Member0(w.members, table[c], name);
    var bases := u[c].bases;
    if includeOwn && Inheritable(u[c].members, name).Some? {
    } else if lins[c].complete {
      CompleteCertain(u, lins[c], c, name, w, table);
    } else if |bases| == 1 && bases[0].InUnit? {
      var b := bases[0].id;
      assert Declared(w.bases, c) == [b];
      OneBase(w, table, c, b);
      KnownFirst(u, lins, b, name, true, seen + [c], w, table);
      assert table[c][1..] == table[b];
    } else {
      RightmostFirst(w, table, c);
      Member0(w.members, table[c][1..], name);
    }
  }

  /**
   Known-prefix lookup is certain: what it returns is what lookup along the full
   order returns, whatever the opaque bases turn out to be.
   */
  lemma KnownPrefixCertain(u: Unit, lins: seq<Linearization>, c: Id, name: string, includeOwn: bool, seen: seq<Id>,
                           w: World, table: map<Id, seq<Id>>)
    requires Resolved(u) && AllRecorded(u, lins) && c < |u| && (forall s | s in seen :: s < |u|)
    requires Completes(u, w) && Ordered(w.bases, table) && c in table
    ensures table[c] != []
    ensures var found := MemberInKnownPrefix(u, lins, c, name, includeOwn, seen);
            found.Some? ==> FirstMember(w.members, if includeOwn then table[c] else table[c][1..], name) == found
                            && FirstVisible(w.members, if includeOwn then table[c] else table[c][1..], name, found.value)
  {
    OrderKeeps(w.bases, table, c);
    FirstMemberExact(w.members, if includeOwn then table[c] else table[c][1..], name);
    if MemberInKnownPrefix(u, lins, c, name, includeOwn, seen).Some? { KnownFirst(u, lins, c, name, includeOwn, seen, w, table); }
  }

  /** Every function of the name along an order: what a call can resolve to. */
  function Overloads(members: map<Id, Members>, order: seq<Id>, name: string): set<Fn> {
    if order == [] then {}
    else
      var own := if order[0] in members then Inheritable(members[order[0]], name) else None;
      (if own.Some? && own.value.Functions? then set f | f in own.value.fs else {}) + Overloads(members, order[1..], name)
  }

  lemma {:induction false} FirstIsOverload(members: map<Id, Members>, order: seq<Id>, name: string, fs: seq<Fn>)
    requires FirstMember(members, order, name) == Some(Functions(fs))
    ensures fs != [] && forall f | f in fs :: f in Overloads(members, order, name) && !f.isPrivate
  {
    var own := if order[0] in members then Inheritable(members[order[0]], name) else None;
    if own.Some? {
      VisibleOnly(members[order[0]][name].fs);
    } else {
      FirstIsOverload(members, order[1..], name, fs);
    }
  }

  /** A function group found in the known prefix is part of the true overload set. */
  lemma KnownOverloads(u: Unit, lins: seq<Linearization>, c: Id, name: string, w: World, table: map<Id, seq<Id>>, fs: seq<Fn>)
    requires Resolved(u) && AllRecorded(u, lins) && c < |u|
    requires Completes(u, w) && Ordered(w.bases, table) && c in table
    ensures table[c] != []
    ensures InheritedMemberInKnownPrefix(u, lins, c, name) == Some(Functions(fs)) ==>
              fs != [] && forall f | f in fs :: f in Overloads(w.members, table[c][1..], name)
  {
    KnownPrefixCertain(u, lins, c, name, false, [], w, table);
    if InheritedMemberInKnownPrefix(u, lins, c, name) == Some(Functions(fs)) {
      FirstIsOverload(w.members, table[c][1..], name, fs);
    }
  }
}
