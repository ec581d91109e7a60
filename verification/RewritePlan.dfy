/** Byte patches and their canonical order: crates/fhec-ir/src/plan.rs. */
module RewritePlan {
  newtype Byte = x: int | 0 <= x < 256
  type Bytes = seq<Byte>

  datatype Range = Range(start: nat, end: nat)

  /** Relative order of insertions at one offset, first to last. */
  datatype InsertOrder = BlockOpen | Declaration | Normal | BlockClose

  datatype Patch = Patch(range: Range, replacement: Bytes, rule: string, order: InsertOrder) {
    predicate IsInsertion() { range.start == range.end }
  }

  function Replace(range: Range, text: Bytes, rule: string): Patch {
    Patch(range, text, rule, Normal)
  }

  function Insert(at: nat, text: Bytes, rule: string): Patch {
    Patch(Range(at, at), text, rule, Normal)
  }

  function Rank(o: InsertOrder): nat {
    match o
    case BlockOpen => 0
    case Declaration => 1
    case Normal => 2
    case BlockClose => 3
  }

  /** The sort key, as one number within a start offset. */
  datatype Key = Key(start: nat, rank: nat)

  function KeyOf(p: Patch): Key {
    Key(p.range.start, (if p.IsInsertion() then 0 else 4) + Rank(p.order))
  }

  predicate Before(a: Key, b: Key) {
    a.start < b.start || (a.start == b.start && a.rank < b.rank)
  }

  /** No later patch has a smaller key. */
  predicate Sorted(ps: seq<Patch>) {
    forall i, j | 0 <= i < j < |ps| :: !Before(KeyOf(ps[j]), KeyOf(ps[i]))
  }

  /** Puts a patch behind every patch with the same or a smaller key. */
  function Place(ps: seq<Patch>, p: Patch): seq<Patch> {
    if ps == [] then [p]
    else if Before(KeyOf(p), KeyOf(ps[|ps| - 1])) then Place(ps[..|ps| - 1], p) + [ps[|ps| - 1]]
    else ps + [p]
  }

  /** The stable sort by key. */
  function Canonical(ps: seq<Patch>): seq<Patch> {
    if ps == [] then [] else Place(Canonical(ps[..|ps| - 1]), ps[|ps| - 1])
  }

  /** Where a patch is placed. */
  lemma {:induction false} PlaceAt(ps: seq<Patch>, p: Patch, k: nat)
    requires k <= |ps|
    requires forall i | 0 <= i < k :: !Before(KeyOf(p), KeyOf(ps[i]))
    requires forall i | k <= i < |ps| :: Before(KeyOf(p), KeyOf(ps[i]))
    ensures Place(ps, p) == ps[..k] + [p] + ps[k..]
    decreases ps
  {
    if k < |ps| {
      var front, last := ps[..|ps| - 1], ps[|ps| - 1];
      PlaceAt(front, p, k);
      assert front[..k] == ps[..k] && front[k..] + [last] == ps[k..];
    } else if ps != [] {
      assert ps[..k] == ps;
    }
  }

  lemma {:induction false} PlaceWhere(ps: seq<Patch>, p: Patch) returns (k: nat)
    requires Sorted(ps)
    ensures k <= |ps|
    ensures forall i | 0 <= i < k :: !Before(KeyOf(p), KeyOf(ps[i]))
    ensures forall i | k <= i < |ps| :: Before(KeyOf(p), KeyOf(ps[i]))
  {
    k := |ps|;
    while k > 0 && Before(KeyOf(p), KeyOf(ps[k - 1]))
      invariant k <= |ps| && forall i | k <= i < |ps| :: Before(KeyOf(p), KeyOf(ps[i]))
    {
      k := k - 1;
    }
  }

  lemma AroundSorted(ps: seq<Patch>, p: Patch, k: nat)
    requires Sorted(ps) && k <= |ps|
    requires forall i | 0 <= i < k :: !Before(KeyOf(p), KeyOf(ps[i]))
    requires forall i | k <= i < |ps| :: Before(KeyOf(p), KeyOf(ps[i]))
    ensures Sorted(ps[..k] + [p] + ps[k..])
  {
    var r := ps[..k] + [p] + ps[k..];
    forall i, j | 0 <= i < j < |r|
      ensures !Before(KeyOf(r[j]), KeyOf(r[i]))
    {
      var x := if i < k then ps[i] else if i == k then p else ps[i - 1];
      var y := if j < k then ps[j] else if j == k then p else ps[j - 1];
      assert r[i] == x && r[j] == y;
    }
  }

  lemma PlaceSorted(ps: seq<Patch>, p: Patch)
    requires Sorted(ps)
    ensures Sorted(Place(ps, p))
  {
    var k := PlaceWhere(ps, p);
    PlaceAt(ps, p, k);
    AroundSorted(ps, p, k);
  }

  lemma {:induction false} PlaceKeeps(ps: seq<Patch>, p: Patch)
    ensures multiset(Place(ps, p)) == multiset(ps) + multiset{p}
  {
    if ps != [] && Before(KeyOf(p), KeyOf(ps[|ps| - 1])) {
      PlaceKeeps(ps[..|ps| - 1], p);
      assert ps == ps[..|ps| - 1] + [ps[|ps| - 1]];
    }
  }

  lemma {:induction false} CanonicalSorted(ps: seq<Patch>)
    ensures Sorted(Canonical(ps)) && multiset(Canonical(ps)) == multiset(ps)
    ensures |Canonical(ps)| == |ps|
  {
    if ps != [] {
      CanonicalSorted(ps[..|ps| - 1]);
      PlaceSorted(Canonical(ps[..|ps| - 1]), ps[|ps| - 1]);
      PlaceKeeps(Canonical(ps[..|ps| - 1]), ps[|ps| - 1]);
      assert ps == ps[..|ps| - 1] + [ps[|ps| - 1]];
    }
    assert |multiset(Canonical(ps))| == |multiset(ps)|;
  }

  /** Openings first, then declarations, then everything else, closings last. */
  predicate Earlier(a: InsertOrder, b: InsertOrder) {
    || (a.BlockOpen? && !b.BlockOpen?)
    || (a.Declaration? && (b.Normal? || b.BlockClose?))
    || (a.Normal? && b.BlockClose?)
  }

  /** In canonical order patches start from left to right; at one offset insertions come
      before replacements, in the order of what they insert. */
  lemma CanonicalAtOffset(ps: seq<Patch>, i: nat, j: nat)
    requires i < j < |Canonical(ps)|
    ensures var a, b := Canonical(ps)[i], Canonical(ps)[j];
            && a.range.start <= b.range.start
            && (a.range.start == b.range.start && b.IsInsertion() ==> a.IsInsertion())
            && (a.range.start == b.range.start && a.IsInsertion() == b.IsInsertion() ==> !Earlier(b.order, a.order))
  {
    CanonicalSorted(ps);
    assert !Before(KeyOf(Canonical(ps)[j]), KeyOf(Canonical(ps)[i]));
  }

  lemma {:induction false} CanonicalOfSorted(ps: seq<Patch>)
    requires Sorted(ps)
    ensures Canonical(ps) == ps
  {
    if ps != [] {
      var front := ps[..|ps| - 1];
      CanonicalOfSorted(front);
      PlaceAt(front, ps[|ps| - 1], |front|);
      assert front + [ps[|ps| - 1]] == ps;
    }
  }

  /** The patches with one key, in their order. */
  function Tied(ps: seq<Patch>, key: Key): seq<Patch> {
    if ps == [] then []
    else Tied(ps[..|ps| - 1], key) + (if KeyOf(ps[|ps| - 1]) == key then [ps[|ps| - 1]] else [])
  }

  lemma {:induction false} PlaceTied(ps: seq<Patch>, p: Patch, key: Key)
    ensures Tied(Place(ps, p), key) == Tied(ps, key) + (if KeyOf(p) == key then [p] else [])
  {
    if ps == [] {
      assert [p][..0] == [];
    } else {
      var front, last := ps[..|ps| - 1], ps[|ps| - 1];
      if Before(KeyOf(p), KeyOf(last)) {
        PlaceTied(front, p, key);
        assert (Place(front, p) + [last])[..|Place(front, p)|] == Place(front, p);
      } else {
        assert (ps + [p])[..|ps|] == ps;
      }
    }
  }

  /** The sort is stable. */
  lemma {:induction false} CanonicalTied(ps: seq<Patch>, key: Key)
    ensures Tied(Canonical(ps), key) == Tied(ps, key)
  {
    if ps != [] {
      CanonicalTied(ps[..|ps| - 1], key);
      PlaceTied(Canonical(ps[..|ps| - 1]), ps[|ps| - 1], key);
    }
  }

  lemma {:induction false} TiedMember(ps: seq<Patch>, p: Patch)
    ensures p in ps ==> Tied(ps, KeyOf(p)) != []
    ensures forall q | q in Tied(ps, KeyOf(p)) :: q in ps && KeyOf(q) == KeyOf(p)
  {
    if ps != [] {
      TiedMember(ps[..|ps| - 1], p);
      assert ps == ps[..|ps| - 1] + [ps[|ps| - 1]];
    }
  }

  /** Sorted lists that agree on every key are equal. */
  lemma {:induction false} SortedUnique(a: seq<Patch>, b: seq<Patch>)
    requires Sorted(a) && Sorted(b) && forall key :: Tied(a, key) == Tied(b, key)
    ensures a == b
    decreases |a|
  {
    if a == [] {
      if b != [] { TiedMember(b, b[|b| - 1]); TiedMember(a, b[|b| - 1]); }
    } else {
      LastTied(a, b);
      var x, fa, fb := a[|a| - 1], a[..|a| - 1], b[..|b| - 1];
      assert a == fa + [x] && b == fb + [x];
      forall key
        ensures Tied(fa, key) == Tied(fb, key)
      {
        TiedSnoc(fa, x, key);
        TiedSnoc(fb, x, key);
        var one := if KeyOf(x) == key then [x] else [];
        assert Tied(fa, key) == (Tied(fa, key) + one)[..|Tied(fa, key)|];
        assert Tied(fb, key) == (Tied(fb, key) + one)[..|Tied(fb, key)|];
      }
      SortedUnique(fa, fb);
    }
  }

  lemma TiedSnoc(ps: seq<Patch>, p: Patch, key: Key)
    ensures Tied(ps + [p], key) == Tied(ps, key) + (if KeyOf(p) == key then [p] else [])
  {
    assert (ps + [p])[..|ps|] == ps;
  }

  /** No patch of one list has a larger key than the last patch of the other. */
  lemma LastLargest(a: seq<Patch>, b: seq<Patch>, x: Patch)
    requires Sorted(b) && x in a && forall key :: Tied(a, key) == Tied(b, key)
    ensures b != [] && !Before(KeyOf(b[|b| - 1]), KeyOf(x))
  {
    TiedMember(a, x);
    TiedMember(b, x);
    var y := Tied(b, KeyOf(x))[0];
    assert y in Tied(b, KeyOf(x)) && y in b && KeyOf(y) == KeyOf(x);
  }

  lemma LastOfTied(a: seq<Patch>)
    requires a != []
    ensures var ts := Tied(a, KeyOf(a[|a| - 1])); ts != [] && ts[|ts| - 1] == a[|a| - 1]
  {
  }

  lemma LastTied(a: seq<Patch>, b: seq<Patch>)
    requires Sorted(a) && Sorted(b) && a != [] && forall key :: Tied(a, key) == Tied(b, key)
    ensures b != [] && b[|b| - 1] == a[|a| - 1]
  {
    LastLargest(a, b, a[|a| - 1]);
    LastLargest(b, a, b[|b| - 1]);
    SameKey(KeyOf(a[|a| - 1]), KeyOf(b[|b| - 1]));
    LastOfTied(a);
    LastOfTied(b);
  }

  lemma SameKey(a: Key, b: Key)
    requires !Before(a, b) && !Before(b, a)
    ensures a == b
  {
  }

  /** Two plans with the same patches, in the same order among equal keys, have one
      canonical order. */
  lemma CanonicalDepends(a: seq<Patch>, b: seq<Patch>)
    requires forall key :: Tied(a, key) == Tied(b, key)
    ensures Canonical(a) == Canonical(b)
  {
    CanonicalSorted(a);
    CanonicalSorted(b);
    forall key
      ensures Tied(Canonical(a), key) == Tied(Canonical(b), key)
    {
      CanonicalTied(a, key);
      CanonicalTied(b, key);
    }
    SortedUnique(Canonical(a), Canonical(b));
  }

  /** All patches of one source file, in production order. */
  class FilePlan {
    var patches: seq<Patch>

    constructor ()
      ensures patches == []
    {
      patches := [];
    }

    method Push(p: Patch)
      modifies this
      ensures patches == old(patches) + [p]
    {
      patches := patches + [p];
    }
  }
}
