/** Linearizing a contract: crates/fhec-bind/src/inherit.rs. */
module C3Linearize {
  import opened Wrappers
  import opened C3Merge

  type Bases = map<Id, seq<Id>>

  function Reverse(s: seq<Id>): seq<Id> {
    if s == [] then [] else Reverse(s[1..]) + [s[0]]
  }

  /** A contract that declares no bases has none. */
  function Declared(bases: Bases, id: Id): seq<Id> {
    if id in bases then bases[id] else []
  }

  function OrdersOf(ids: seq<Id>, table: map<Id, seq<Id>>): seq<seq<Id>>
    requires forall b | b in ids :: b in table
  {
    if ids == [] then [] else [table[ids[0]]] + OrdersOf(ids[1..], table)
  }

  lemma {:induction false} ReverseElements(s: seq<Id>)
    ensures |Reverse(s)| == |s| && forall x :: x in Reverse(s) <==> x in s
  {
    if s != [] {
      ReverseElements(s[1..]);
      assert s == [s[0]] + s[1..];
    }
  }

  /** The merge input for a contract, its bases' orders given. */
  function MergeInput(bases: Bases, id: Id, table: map<Id, seq<Id>>): seq<seq<Id>>
    requires forall b | b in Declared(bases, id) :: b in table
  {
    ReverseElements(Declared(bases, id));
    OrdersOf(Reverse(Declared(bases, id)), table) + [Reverse(Declared(bases, id))]
  }

  /** The table gives a C3 order to each of its contracts and to all their bases. */
  predicate Ordered(bases: Bases, table: map<Id, seq<Id>>) {
    forall id | id in table :: OrderedAt(bases, table, id)
  }

  predicate OrderedAt(bases: Bases, table: map<Id, seq<Id>>, id: Id)
    requires id in table
  {
    && (forall b | b in Declared(bases, id) :: b in table)
    && (var order := Merged(MergeInput(bases, id, table)); order.Some? && table[id] == [id] + order.value)
  }

  /** The contract has this C3 order. */
  ghost predicate HasOrder(bases: Bases, id: Id, order: seq<Id>) {
    exists table: map<Id, seq<Id>> :: Ordered(bases, table) && id in table && table[id] == order
  }

  ghost predicate HasSomeOrder(bases: Bases, id: Id) {
    exists order :: HasOrder(bases, id, order)
  }

  lemma {:induction false} OrdersHold(ids: seq<Id>, table: map<Id, seq<Id>>)
    requires forall b | b in ids :: b in table
    ensures forall b | b in ids :: table[b] in OrdersOf(ids, table)
    ensures forall q | q in OrdersOf(ids, table) :: exists b | b in ids :: q == table[b]
  {
    if ids != [] {
      OrdersHold(ids[1..], table);
      assert ids == [ids[0]] + ids[1..];
      forall q | q in OrdersOf(ids, table)
        ensures exists b | b in ids :: q == table[b]
      {
        if q == table[ids[0]] {
          assert ids[0] in ids;
        } else {
          assert q in OrdersOf(ids[1..], table);
          var b :| b in ids[1..] && q == table[b];
          assert b in ids;
        }
      }
    }
  }

  /** The order keeps the declared bases, last written first, and each base's own order. */
  lemma OrderKeeps(bases: Bases, table: map<Id, seq<Id>>, id: Id)
    requires Ordered(bases, table) && id in table
    ensures table[id] != [] && table[id][0] == id
    ensures Sub(Reverse(Declared(bases, id)), table[id])
    ensures forall b | b in Declared(bases, id) :: b in table && Sub(table[b], table[id]) && |table[b]| < |table[id]|
  {
    assert OrderedAt(bases, table, id);
    var input := MergeInput(bases, id, table);
    var order := Merged(input).value;
    var ids := Reverse(Declared(bases, id));
    MergeSound(input);
    ReverseElements(Declared(bases, id));
    OrdersHold(ids, table);
    assert input[|input| - 1] == ids;
    SubCons(ids, order, id);
    forall b | b in Declared(bases, id)
      ensures Sub(table[b], table[id]) && |table[b]| < |table[id]|
    {
      assert table[b] in input;
      SubCons(table[b], order, id);
      SubLength(table[b], order);
    }
  }

  lemma {:induction false} SameOrders(ids: seq<Id>, s: map<Id, seq<Id>>, t: map<Id, seq<Id>>)
    requires forall b | b in ids :: b in s && b in t && s[b] == t[b]
    ensures OrdersOf(ids, s) == OrdersOf(ids, t)
  {
    if ids != [] { SameOrders(ids[1..], s, t); }
  }

  lemma SameInput(bases: Bases, id: Id, s: map<Id, seq<Id>>, t: map<Id, seq<Id>>)
    requires forall b | b in Declared(bases, id) :: b in s && b in t && s[b] == t[b]
    ensures MergeInput(bases, id, s) == MergeInput(bases, id, t)
  {
    ReverseElements(Declared(bases, id));
    SameOrders(Reverse(Declared(bases, id)), s, t);
  }

  /** A contract has at most one C3 order. */
  lemma {:induction false} OrderUnique(bases: Bases, s: map<Id, seq<Id>>, t: map<Id, seq<Id>>, id: Id)
    requires Ordered(bases, s) && Ordered(bases, t) && id in s && id in t
    ensures s[id] == t[id]
    decreases |s[id]|
  {
    OrderKeeps(bases, s, id);
    OrderKeeps(bases, t, id);
    forall b | b in Declared(bases, id)
      ensures b in s && b in t && s[b] == t[b]
    {
      OrderUnique(bases, s, t, b);
    }
    SameInput(bases, id, s, t);
    assert OrderedAt(bases, s, id) && OrderedAt(bases, t, id);
  }

  /** `chain[i + 1]` is a declared base of `chain[i]`. */
  predicate Chain(bases: Bases, chain: seq<Id>) {
    forall i | 0 <= i < |chain| - 1 :: chain[i + 1] in Declared(bases, chain[i])
  }

  lemma {:induction false} ChainDescends(bases: Bases, table: map<Id, seq<Id>>, chain: seq<Id>, i: nat)
    requires Ordered(bases, table) && Chain(bases, chain) && i < |chain| && chain[0] in table
    ensures chain[i] in table && |table[chain[i]]| <= |table[chain[0]]| - i
  {
    if i > 0 {
      ChainDescends(bases, table, chain, i - 1);
      OrderKeeps(bases, table, chain[i - 1]);
      assert chain[i] in Declared(bases, chain[i - 1]);
    }
  }

  /** A contract that inherits from itself has no order, and neither has any heir of one. */
  lemma CycleHasNoOrder(bases: Bases, table: map<Id, seq<Id>>, chain: seq<Id>, i: nat)
    requires Ordered(bases, table) && Chain(bases, chain) && i + 1 < |chain| && chain[i] == chain[|chain| - 1]
    ensures chain[0] !in table
  {
    if chain[0] in table {
      ChainDescends(bases, table, chain, i);
      var cycle := chain[i..];
      forall j | 0 <= j < |cycle| - 1
        ensures cycle[j + 1] in Declared(bases, cycle[j])
      {
        assert chain[i + j + 1] in Declared(bases, chain[i + j]);
      }
      ChainDescends(bases, table, cycle, |cycle| - 1);
    }
  }

  /** The contracts reached from `id`, through its bases. */
  ghost predicate Inherits(bases: Bases, id: Id, e: Id) {
    exists chain :: chain != [] && Chain(bases, chain) && chain[0] == id && chain[|chain| - 1] == e
  }

  lemma InheritsSelf(bases: Bases, id: Id)
    ensures Inherits(bases, id, id)
  {
    assert Chain(bases, [id]) && [id][0] == id && [id][|[id]| - 1] == id;
  }

  lemma InheritsBase(bases: Bases, id: Id, b: Id, e: Id)
    requires b in Declared(bases, id) && Inherits(bases, b, e)
    ensures Inherits(bases, id, e)
  {
    var chain :| chain != [] && Chain(bases, chain) && chain[0] == b && chain[|chain| - 1] == e;
    var longer := [id] + chain;
    forall j | 0 <= j < |longer| - 1
      ensures longer[j + 1] in Declared(bases, longer[j])
    {
      if j > 0 { assert chain[j - 1 + 1] in Declared(bases, chain[j - 1]); }
    }
    assert longer[0] == id && longer[|longer| - 1] == e;
  }

  lemma InheritsInv(bases: Bases, id: Id, e: Id)
    requires Inherits(bases, id, e)
    ensures e == id || exists b | b in Declared(bases, id) :: Inherits(bases, b, e)
  {
    var chain :| chain != [] && Chain(bases, chain) && chain[0] == id && chain[|chain| - 1] == e;
    if |chain| > 1 {
      var rest := chain[1..];
      assert chain[0 + 1] in Declared(bases, chain[0]);
      forall j | 0 <= j < |rest| - 1
        ensures rest[j + 1] in Declared(bases, rest[j])
      {
        assert chain[j + 1 + 1] in Declared(bases, chain[j + 1]);
      }
      assert rest[0] == chain[1] && rest[|rest| - 1] == e;
      assert Inherits(bases, chain[1], e);
    }
  }

  /** A member other than the contract itself comes from one of its bases. */
  lemma MemberOfBase(bases: Bases, table: map<Id, seq<Id>>, id: Id, e: Id) returns (b: Id)
    requires Ordered(bases, table) && id in table && e in table[id] && e != id
    ensures b in Declared(bases, id) && b in table && e in table[b] && |table[b]| < |table[id]| && Sub(table[b], table[id])
  {
    OrderKeeps(bases, table, id);
    assert OrderedAt(bases, table, id);
    var input := MergeInput(bases, id, table);
    var ids := Reverse(Declared(bases, id));
    MergeSound(input);
    ReverseElements(Declared(bases, id));
    OrdersHold(ids, table);
    var q :| q in input && e in q;
    if q == ids {
      b := e;
      OrderKeeps(bases, table, b);
    } else {
      b :| b in ids && q == table[b];
    }
  }

  /** The order holds exactly the contract and everything it inherits from. */
  lemma {:induction false} OrderElements(bases: Bases, table: map<Id, seq<Id>>, id: Id, e: Id)
    requires Ordered(bases, table) && id in table
    ensures e in table[id] <==> Inherits(bases, id, e)
    decreases |table[id]|
  {
    OrderKeeps(bases, table, id);
    if e == id {
      InheritsSelf(bases, id);
    } else {
      if e in table[id] {
        var b := MemberOfBase(bases, table, id, e);
        OrderElements(bases, table, b, e);
        InheritsBase(bases, id, b, e);
      }
      if Inherits(bases, id, e) {
        InheritsInv(bases, id, e);
        var b :| b in Declared(bases, id) && Inherits(bases, b, e);
        OrderElements(bases, table, b, e);
        SubElements(table[b], table[id]);
      }
    }
  }

  /** Every member of an order has an order of its own, and it is kept too. */
  lemma {:induction false} OrderHereditary(bases: Bases, table: map<Id, seq<Id>>, id: Id, e: Id)
    requires Ordered(bases, table) && id in table && e in table[id]
    ensures e in table && Sub(table[e], table[id])
    decreases |table[id]|
  {
    if e == id {
      SubSelf(table[id]);
    } else {
      var b := MemberOfBase(bases, table, id, e);
      OrderHereditary(bases, table, b, e);
      SubTrans(table[e], table[b], table[id]);
    }
  }

  /** An order names no contract twice. */
  lemma OrderNoDup(bases: Bases, table: map<Id, seq<Id>>, id: Id)
    requires Ordered(bases, table) && id in table
    ensures NoDup(table[id])
  {
    assert OrderedAt(bases, table, id);
    var input, ids := MergeInput(bases, id, table), Reverse(Declared(bases, id));
    var order := Merged(input).value;
    MergeSound(input);
    OrderKeeps(bases, table, id);
    ReverseElements(Declared(bases, id));
    OrdersHold(ids, table);
    forall q | q in input
      ensures id !in q
    {
      if id in q {
        var b: Id := id;
        if q != ids { b :| b in ids && q == table[b]; }
        OrderKeeps(bases, table, b);
        OrderHereditary(bases, table, b, id);
        SubLength(table[id], table[b]);
      }
    }
    assert id !in order;
  }

  // ---- the code --------------------------------------------------------------

  lemma Appending<T>(a: seq<T>, b: seq<T>, c: seq<T>)
    ensures a + (b + c) == a + b + c
  {
  }

  lemma Dropping<T>(s: seq<T>, i: nat)
    requires i < |s|
    ensures s[i..] != [] && s[i..][0] == s[i] && s[i..][1..] == s[i + 1..]
  {
  }

  method RetainNonEmpty(seqs: seq<seq<Id>>) returns (r: seq<seq<Id>>)
    ensures r == NonEmpty(seqs)
  {
    r := [];
    for i := 0 to |seqs|
      invariant NonEmpty(seqs) == r + NonEmpty(seqs[i..])
    {
      Dropping(seqs, i);
      Appending(r, if seqs[i] == [] then [] else [seqs[i]], NonEmpty(seqs[i + 1..]));
      if seqs[i] != [] { r := r + [seqs[i]]; }
    }
    assert seqs[|seqs|..] == [];
  }

  method RetainOthers(s: seq<Id>, h: Id) returns (r: seq<Id>)
    ensures r == Without(s, h)
  {
    r := [];
    for i := 0 to |s|
      invariant Without(s, h) == r + Without(s[i..], h)
    {
      Dropping(s, i);
      Appending(r, if s[i] == h then [] else [s[i]], Without(s[i + 1..], h));
      if s[i] != h { r := r + [s[i]]; }
    }
    assert s[|s|..] == [];
  }

  method DropHead(seqs: seq<seq<Id>>, h: Id) returns (r: seq<seq<Id>>)
    ensures r == WithoutAll(seqs, h)
  {
    r := [];
    for i := 0 to |seqs|
      invariant WithoutAll(seqs, h) == r + WithoutAll(seqs[i..], h)
    {
      Dropping(seqs, i);
      Appending(r, [Without(seqs[i], h)], WithoutAll(seqs[i + 1..], h));
      var kept := RetainOthers(seqs[i], h);
      r := r + [kept];
    }
    assert seqs[|seqs|..] == [];
  }

  /** The first head that is in no tail. */
  method PickHead(seqs: seq<seq<Id>>) returns (candidate: Option<Id>)
    requires forall i | 0 <= i < |seqs| :: seqs[i] != []
    ensures candidate == Candidate(seqs, seqs)
  {
    for i := 0 to |seqs|
      invariant Candidate(seqs, seqs) == Candidate(seqs[i..], seqs)
    {
      Dropping(seqs, i);
      var head, blocked := seqs[i][0], false;
      for j := 0 to |seqs|
        invariant blocked <==> exists k :: 0 <= k < j && seqs[k] != [] && head in seqs[k][1..]
      {
        if head in seqs[j][1..] { blocked := true; }
      }
      if !blocked {
        return Some(head);
      }
      assert InTail(seqs, head);
    }
    assert seqs[|seqs|..] == [];
    return None;
  }

  function After(result: seq<Id>, rest: Option<seq<Id>>): Option<seq<Id>> {
    if rest.None? then None else Some(result + rest.value)
  }

  lemma AfterAll(result: seq<Id>, h: Id, rest: Option<seq<Id>>)
    ensures After([], rest) == rest
    ensures After(result + [h], rest) == After(result, After([h], rest))
    ensures After(result, Some([])) == Some(result)
  {
    if rest.Some? {
      assert [] + rest.value == rest.value;
      assert result + [h] + rest.value == result + ([h] + rest.value);
    }
    assert result + [] == result;
  }

  /** C3 merge: some order if and only if a common order of the inputs exists. */
  method Merge(input: seq<seq<Id>>) returns (r: Option<seq<Id>>)
    ensures r == Merged(input)
    ensures r.Some? <==> exists order :: Common(input, order)
    ensures r.Some? ==> Common(input, r.value) && forall x :: x in r.value <==> exists q | q in input :: x in q
  {
    MergeExact(input);
    if Merged(input).Some? { MergeSound(input); }
    var sequences, result := input, [];
    AfterAll([], 0, Merged(input));
    while true
      invariant Merged(input) == After(result, Merged(sequences))
      decreases Total(sequences)
    {
      ghost var before := sequences;
      NonEmptyIs(sequences);
      sequences := RetainNonEmpty(sequences);
      if sequences == [] {
        AfterAll(result, 0, None);
        return Some(result);
      }
      assert forall i | 0 <= i < |sequences| :: sequences[i] in NonEmpty(before);
      var candidate := PickHead(sequences);
      if candidate.None? {
        return None;
      }
      PickShrinks(before);
      sequences := DropHead(sequences, candidate.value);
      AfterAll(result, candidate.value, Merged(sequences));
      assert Merged(before) == After([candidate.value], Merged(sequences));
      result := result + [candidate.value];
    }
  }

  method ReverseOf(s: seq<Id>) returns (r: seq<Id>)
    ensures r == Reverse(s)
  {
    r := [];
    var i := |s|;
    assert s[..|s|] == s && r + Reverse(s) == Reverse(s);
    while i > 0
      invariant 0 <= i <= |s|
      invariant Reverse(s) == r + Reverse(s[..i])
    {
      i := i - 1;
      ReverseSnoc(s[..i], s[i]);
      assert s[..i + 1] == s[..i] + [s[i]];
      r := r + [s[i]];
    }
  }

  lemma {:induction false} ReverseSnoc(s: seq<Id>, x: Id)
    ensures Reverse(s + [x]) == [x] + Reverse(s)
  {
    if s == [] {
      assert [] + [x] == [x] && [x][1..] == [];
    } else {
      ReverseSnoc(s[1..], x);
      assert (s + [x])[1..] == s[1..] + [x];
    }
  }

  /** No table orders `id` below everything in progress. */
  ghost predicate Hopeless(bases: Bases, id: Id, stack: seq<Id>) {
    forall table: map<Id, seq<Id>> | Ordered(bases, table) && id in table :: TooSmall(table, id, stack)
  }

  ghost predicate TooSmall(table: map<Id, seq<Id>>, id: Id, stack: seq<Id>)
    requires id in table
  {
    exists p | p in stack :: p in table && |table[p]| <= |table[id]|
  }

  lemma BaseHopeless(bases: Bases, id: Id, b: Id, stack: seq<Id>)
    requires b in Declared(bases, id) && Hopeless(bases, b, stack + [id])
    ensures Hopeless(bases, id, stack)
  {
    forall table: map<Id, seq<Id>> | Ordered(bases, table) && id in table
      ensures TooSmall(table, id, stack)
    {
      OrderKeeps(bases, table, id);
      assert TooSmall(table, b, stack + [id]);
    }
  }

  lemma CycleHopeless(bases: Bases, id: Id, stack: seq<Id>)
    requires id in stack
    ensures Hopeless(bases, id, stack)
  {
    forall table: map<Id, seq<Id>> | id in table
      ensures TooSmall(table, id, stack)
    {
      assert |table[id]| <= |table[id]|;
    }
  }

  /** The contract's merge input does not depend on the table. */
  lemma MergeSame(bases: Bases, id: Id, known: map<Id, seq<Id>>, table: map<Id, seq<Id>>)
    requires Ordered(bases, known) && Ordered(bases, table) && id in table && (forall b | b in Declared(bases, id) :: b in known)
    ensures Merged(MergeInput(bases, id, known)).Some?
  {
    OrderKeeps(bases, table, id);
    forall b | b in Declared(bases, id)
      ensures table[b] == known[b]
    {
      OrderUnique(bases, table, known, b);
    }
    SameInput(bases, id, table, known);
    assert OrderedAt(bases, table, id);
  }

  lemma MergeHopeless(bases: Bases, id: Id, known: map<Id, seq<Id>>, stack: seq<Id>)
    requires Ordered(bases, known) && (forall b | b in Declared(bases, id) :: b in known)
    requires Merged(MergeInput(bases, id, known)).None?
    ensures Hopeless(bases, id, stack)
  {
    forall table: map<Id, seq<Id>> | Ordered(bases, table)
      ensures id !in table
    {
      if id in table { MergeSame(bases, id, known, table); }
    }
  }

  lemma Extended(bases: Bases, known: map<Id, seq<Id>>, id: Id, order: seq<Id>)
    requires Ordered(bases, known) && id !in known && (forall b | b in Declared(bases, id) :: b in known)
    requires Merged(MergeInput(bases, id, known)) == Some(order)
    ensures Ordered(bases, known[id := [id] + order])
  {
    var more := known[id := [id] + order];
    forall x | x in more
      ensures OrderedAt(bases, more, x)
    {
      if x != id { assert OrderedAt(bases, known, x); }
      SameInput(bases, x, known, more);
    }
  }

  lemma Smaller(universe: set<Id>, stack: seq<Id>, id: Id)
    requires id in universe && id !in stack
    ensures |universe - Elements(stack + [id])| < |universe - Elements(stack)|
  {
    assert Elements(stack + [id]) == Elements(stack) + {id};
    assert universe - Elements(stack) == (universe - Elements(stack + [id])) + {id};
  }

  function Elements(s: seq<Id>): set<Id> {
    set x | x in s
  }

  /** These are the recorded orders of these contracts. */
  ghost predicate Holds(ids: seq<Id>, known: map<Id, seq<Id>>, orders: seq<seq<Id>>) {
    (forall b | b in ids :: b in known) && orders == OrdersOf(ids, known)
  }

  /** One more base has its order. */
  lemma OrdersGrow(ids: seq<Id>, b: Id, known: map<Id, seq<Id>>, more: map<Id, seq<Id>>, orders: seq<seq<Id>>)
    requires Holds(ids, known, orders) && Grows(known, more) && b in more
    ensures Holds(ids + [b], more, orders + [more[b]])
  {
    SameOrders(ids, known, more);
    OrdersSnoc(ids, b, more);
  }

  /** The recorded orders are right, and nothing in progress has one. */
  ghost predicate Sane(bases: Bases, known: map<Id, seq<Id>>, stack: seq<Id>) {
    Ordered(bases, known) && forall p | p in stack :: p !in known
  }

  lemma Pushed(bases: Bases, known: map<Id, seq<Id>>, stack: seq<Id>, id: Id)
    requires Sane(bases, known, stack) && id !in known
    ensures Sane(bases, known, stack + [id])
  {
  }

  /** The merge of the bases' orders settles the contract either way. */
  lemma MergeDecides(bases: Bases, id: Id, known: map<Id, seq<Id>>, stack: seq<Id>, input: seq<seq<Id>>)
    requires Sane(bases, known, stack + [id]) && id !in stack
    requires (forall b | b in Declared(bases, id) :: b in known) && input == MergeInput(bases, id, known)
    ensures Merged(input).None? ==> Hopeless(bases, id, stack)
    ensures Merged(input).Some? ==> Sane(bases, known[id := [id] + Merged(input).value], stack)
  {
    if Merged(input).None? {
      MergeHopeless(bases, id, known, stack);
    } else {
      assert id in stack + [id];
      assert forall p | p in stack :: p in stack + [id];
      Extended(bases, known, id, Merged(input).value);
    }
  }

  lemma TakeMore(s: seq<Id>, i: nat)
    requires i < |s|
    ensures s[..i + 1] == s[..i] + [s[i]]
  {
  }

  /** The two tables the recursion threads through. */
  class Linearizer {
    const bases: Bases
    var memo: map<Id, seq<Id>>
    var inProgress: seq<Id>

    constructor (bases: Bases)
      ensures this.bases == bases && memo == map[] && inProgress == []
    {
      this.bases := bases;
      memo := map[];
      inProgress := [];
    }

    ghost predicate Valid()
      reads this
    {
      Sane(bases, memo, inProgress)
    }

    /**
     One contract's order.  On success it is recorded with those of all its bases.
     On failure no table of orders holds the contract below what is in progress.
     */
    method Lin(id: Id, ghost root: Id, ghost room: nat) returns (r: Option<seq<Id>>)
      requires Valid() && id in Named(bases, root) && |Named(bases, root) - Elements(inProgress)| <= room
      modifies this
      ensures r.Some? ==> Valid() && inProgress == old(inProgress) && id in memo && memo[id] == r.value
      ensures r.Some? ==> Grows(old(memo), memo)
      ensures r.None? ==> Hopeless(bases, id, old(inProgress))
      decreases room, 0
    {
      if id in memo {
        return Some(memo[id]);
      }
      if id in inProgress {
        CycleHopeless(bases, id, inProgress);
        return None;
      }
      ghost var stack := inProgress;
      Smaller(Named(bases, root), stack, id);
      Pushed(bases, memo, inProgress, id);
      inProgress := inProgress + [id];
      var reversed := ReverseOf(if id in bases then bases[id] else []);
      ReverseElements(Declared(bases, id));
      var orders := LinBases(id, reversed, stack, root, room - 1);
      if orders.None? {
        return None;
      }
      var merged := Merge(orders.value + [reversed]);
      MergeDecides(bases, id, memo, stack, orders.value + [reversed]);
      if merged.None? {
        return None;
      }
      inProgress := inProgress[..|inProgress| - 1];
      memo := memo[id := [id] + merged.value];
      return Some([id] + merged.value);
    }

    /** The orders of a contract's bases; the first that has none ends the loop. */
    method LinBases(id: Id, reversed: seq<Id>, ghost stack: seq<Id>, ghost root: Id, ghost room: nat) returns (r: Option<seq<seq<Id>>>)
      requires Valid() && inProgress == stack + [id] && forall b | b in reversed :: b in Declared(bases, id)
      requires |Named(bases, root) - Elements(inProgress)| <= room
      modifies this
      ensures r.Some? ==> Valid() && inProgress == old(inProgress) && Grows(old(memo), memo)
      ensures r.Some? ==> (forall b | b in reversed :: b in memo) && r.value == OrdersOf(reversed, memo)
      ensures r.None? ==> Hopeless(bases, id, stack)
      decreases room, 1
    {
      var sequences: seq<seq<Id>> := [];
      ghost var before := memo;
      for i := 0 to |reversed|
        invariant Valid() && inProgress == stack + [id] && Grows(before, memo)
        invariant Holds(reversed[..i], memo, sequences)
      {
        ghost var known := memo;
        NamedBase(bases, id, reversed[i], root);
        var order := Lin(reversed[i], root, room);
        if order.None? {
          BaseHopeless(bases, id, reversed[i], stack);
          return None;
        }
        TakeMore(reversed, i);
        OrdersGrow(reversed[..i], reversed[i], known, memo, sequences);
        sequences := sequences + [order.value];
      }
      assert reversed[..|reversed|] == reversed;
      return Some(sequences);
    }
  }

  /** The table keeps its orders as it grows. */
  ghost predicate Grows(known: map<Id, seq<Id>>, more: map<Id, seq<Id>>) {
    forall x | x in known :: x in more && more[x] == known[x]
  }

  /** The contracts that can come up: everything named, and the root. */
  ghost function Named(bases: Bases, root: Id): set<Id> {
    {root} + bases.Keys + set k, b | k in bases && b in bases[k] :: b
  }

  lemma NamedBase(bases: Bases, id: Id, b: Id, root: Id)
    requires b in Declared(bases, id)
    ensures b in Named(bases, root)
  {
  }

  lemma {:induction false} OrdersSnoc(ids: seq<Id>, b: Id, table: map<Id, seq<Id>>)
    requires b in table && forall x | x in ids :: x in table
    ensures OrdersOf(ids + [b], table) == OrdersOf(ids, table) + [table[b]]
  {
    if ids == [] {
      assert [] + [b] == [b] && [b][1..] == [];
    } else {
      OrdersSnoc(ids[1..], b, table);
      assert (ids + [b])[1..] == ids[1..] + [b];
    }
  }

  lemma NothingBelow(table: map<Id, seq<Id>>, id: Id)
    requires id in table
    ensures !TooSmall(table, id, [])
  {
  }

  /** The contract's C3 order, or none exactly when it has none. */
  method Linearize(id: Id, bases: Bases) returns (r: Option<seq<Id>>)
    ensures r.Some? ==> HasOrder(bases, id, r.value)
    ensures r.None? ==> !HasSomeOrder(bases, id)
  {
    var l := new Linearizer(bases);
    r := l.Lin(id, id, |Named(bases, id) - Elements([])|);
    if r.None? {
      HopelessHasNone(bases, id);
    } else {
      assert Ordered(bases, l.memo) && id in l.memo && l.memo[id] == r.value;
    }
  }

  lemma HopelessHasNone(bases: Bases, id: Id)
    requires Hopeless(bases, id, [])
    ensures !HasSomeOrder(bases, id)
  {
    forall table: map<Id, seq<Id>> | Ordered(bases, table)
      ensures id !in table
    {
      if id in table { NothingBelow(table, id); }
    }
  }
}
