/** The C3 merge of crates/fhec-bind/src/inherit.rs. */
module C3Merge {
  import opened Wrappers

  type Id = nat

  predicate NoDup(s: seq<Id>) {
    forall i, j | 0 <= i < j < |s| :: s[i] != s[j]
  }

  /** `a` can be obtained from `b` by leaving elements out. */
  predicate Sub(a: seq<Id>, b: seq<Id>)
    decreases b
  {
    if a == [] then true
    else if b == [] then false
    else if a[0] == b[0] then Sub(a[1..], b[1..])
    else Sub(a, b[1..])
  }

  function Without(s: seq<Id>, h: Id): seq<Id> {
    if s == [] then [] else (if s[0] == h then [] else [s[0]]) + Without(s[1..], h)
  }

  function WithoutAll(seqs: seq<seq<Id>>, h: Id): seq<seq<Id>> {
    if seqs == [] then [] else [Without(seqs[0], h)] + WithoutAll(seqs[1..], h)
  }

  function NonEmpty(seqs: seq<seq<Id>>): seq<seq<Id>> {
    if seqs == [] then [] else (if seqs[0] == [] then [] else [seqs[0]]) + NonEmpty(seqs[1..])
  }

  predicate InTail(seqs: seq<seq<Id>>, h: Id) {
    exists o | o in seqs :: o != [] && h in o[1..]
  }

  /** The first head of `from` that is in no tail of `seqs`. */
  function Candidate(from: seq<seq<Id>>, seqs: seq<seq<Id>>): Option<Id> {
    if from == [] then None
    else if from[0] != [] && !InTail(seqs, from[0][0]) then Some(from[0][0])
    else Candidate(from[1..], seqs)
  }

  function Total(seqs: seq<seq<Id>>): nat {
    if seqs == [] then 0 else |seqs[0]| + Total(seqs[1..])
  }

  lemma {:induction false} CandidateIs(from: seq<seq<Id>>, seqs: seq<seq<Id>>)
    ensures Candidate(from, seqs).Some? ==>
              var h := Candidate(from, seqs).value; !InTail(seqs, h) && exists q | q in from :: q != [] && q[0] == h
    ensures Candidate(from, seqs).None? ==> forall q | q in from && q != [] :: InTail(seqs, q[0])
  {
    if from != [] {
      CandidateIs(from[1..], seqs);
      if from[0] != [] && !InTail(seqs, from[0][0]) {
        assert from[0] in from;
      } else if Candidate(from, seqs).Some? {
        var q :| q in from[1..] && q != [] && q[0] == Candidate(from, seqs).value;
        assert q in from;
      } else {
        forall q | q in from && q != []
          ensures InTail(seqs, q[0])
        {
          if q != from[0] { assert q in from[1..]; }
        }
      }
    }
  }

  lemma {:induction false} WithoutIs(s: seq<Id>, h: Id)
    ensures |Without(s, h)| <= |s| && (h in s ==> |Without(s, h)| < |s|)
    ensures h !in Without(s, h) && forall x | x != h :: x in Without(s, h) <==> x in s
    ensures h !in s ==> Without(s, h) == s
  {
    if s != [] {
      WithoutIs(s[1..], h);
      assert s == [s[0]] + s[1..];
    }
  }

  lemma {:induction false} TotalWithout(seqs: seq<seq<Id>>, h: Id)
    ensures Total(WithoutAll(seqs, h)) <= Total(seqs)
    ensures (exists q | q in seqs :: h in q) ==> Total(WithoutAll(seqs, h)) < Total(seqs)
  {
    if seqs != [] {
      WithoutIs(seqs[0], h);
      TotalWithout(seqs[1..], h);
      if exists q | q in seqs :: h in q {
        var q :| q in seqs && h in q;
        if q != seqs[0] { assert q in seqs[1..]; }
      }
    }
  }

  lemma {:induction false} NonEmptyIs(seqs: seq<seq<Id>>)
    ensures Total(NonEmpty(seqs)) == Total(seqs)
    ensures forall q :: q in NonEmpty(seqs) <==> q in seqs && q != []
  {
    if seqs != [] {
      NonEmptyIs(seqs[1..]);
      assert seqs == [seqs[0]] + seqs[1..];
      if seqs[0] == [] {
        assert NonEmpty(seqs) == NonEmpty(seqs[1..]);
      } else {
        assert NonEmpty(seqs) == [seqs[0]] + NonEmpty(seqs[1..]);
        assert NonEmpty(seqs)[1..] == NonEmpty(seqs[1..]);
      }
    }
  }

  lemma {:induction false} WithoutAllIs(seqs: seq<seq<Id>>, h: Id)
    ensures forall q | q in seqs :: Without(q, h) in WithoutAll(seqs, h)
    ensures forall q | q in WithoutAll(seqs, h) :: exists o | o in seqs :: q == Without(o, h)
  {
    if seqs != [] {
      WithoutAllIs(seqs[1..], h);
      assert seqs == [seqs[0]] + seqs[1..];
      forall q | q in WithoutAll(seqs, h)
        ensures exists o | o in seqs :: q == Without(o, h)
      {
        if q == Without(seqs[0], h) {
          assert seqs[0] in seqs;
        } else {
          assert q in WithoutAll(seqs[1..], h);
          var o :| o in seqs[1..] && q == Without(o, h);
          assert o in seqs;
        }
      }
    }
  }

  /** A picked head leaves less to merge. */
  lemma PickShrinks(seqs: seq<seq<Id>>)
    requires Candidate(NonEmpty(seqs), NonEmpty(seqs)).Some?
    ensures Total(WithoutAll(NonEmpty(seqs), Candidate(NonEmpty(seqs), NonEmpty(seqs)).value)) < Total(seqs)
  {
    var live := NonEmpty(seqs);
    var h := Candidate(live, live).value;
    CandidateIs(live, live);
    var q :| q in live && q != [] && q[0] == h;
    assert h in q;
    TotalWithout(live, h);
    NonEmptyIs(seqs);
  }

  /** What the merge loop computes. */
  function Merged(seqs: seq<seq<Id>>): Option<seq<Id>>
    decreases Total(seqs)
  {
    var live := NonEmpty(seqs);
    if live == [] then Some([])
    else
      var h :- Candidate(live, live);
      PickShrinks(seqs);
      var rest :- Merged(WithoutAll(live, h));
      Some([h] + rest)
  }

  /** The head is taken from the first sequence whose head is in no tail. */
  ghost predicate FirstFree(seqs: seq<seq<Id>>, h: Id) {
    exists i | 0 <= i < |seqs| ::
      seqs[i] != [] && seqs[i][0] == h && !InTail(seqs, h) && forall j | 0 <= j < i && seqs[j] != [] :: InTail(seqs, seqs[j][0])
  }

  lemma {:induction false} CandidateFirst(seqs: seq<seq<Id>>, k: nat)
    requires k <= |seqs| && Candidate(seqs[k..], seqs).Some?
    requires forall j | 0 <= j < k && seqs[j] != [] :: InTail(seqs, seqs[j][0])
    ensures FirstFree(seqs, Candidate(seqs[k..], seqs).value)
    decreases |seqs| - k
  {
    assert seqs[k..][0] == seqs[k] && seqs[k..][1..] == seqs[k + 1..];
    if seqs[k] == [] || InTail(seqs, seqs[k][0]) { CandidateFirst(seqs, k + 1); }
  }

  /** Precedence: the merge begins with the head of the first sequence whose head is in
      no tail, and goes on in the same way without it. */
  lemma MergePrecedence(seqs: seq<seq<Id>>)
    requires Merged(seqs).Some? && NonEmpty(seqs) != []
    ensures var order := Merged(seqs).value;
            order != [] && FirstFree(NonEmpty(seqs), order[0]) && Merged(WithoutAll(NonEmpty(seqs), order[0])) == Some(order[1..])
  {
    var live := NonEmpty(seqs);
    assert live[0..] == live;
    CandidateFirst(live, 0);
  }

  lemma Uncons(s: seq<Id>)
    requires s != []
    ensures s == [s[0]] + s[1..] && forall x :: x in s <==> x == s[0] || x in s[1..]
  {
    assert s == [s[0]] + s[1..];
  }

  /** A duplicate-free order that keeps the order of every input. */
  predicate Common(seqs: seq<seq<Id>>, order: seq<Id>) {
    NoDup(order) && forall q | q in seqs :: Sub(q, order)
  }

  lemma {:induction false} SubElements(a: seq<Id>, b: seq<Id>)
    requires Sub(a, b)
    ensures forall x | x in a :: x in b
    decreases b
  {
    if a != [] {
      assert a == [a[0]] + a[1..];
      if a[0] == b[0] { SubElements(a[1..], b[1..]); } else { SubElements(a, b[1..]); }
    }
  }

  lemma {:induction false} SubLength(a: seq<Id>, b: seq<Id>)
    requires Sub(a, b)
    ensures |a| <= |b|
    decreases b
  {
    if a != [] {
      if a[0] == b[0] { SubLength(a[1..], b[1..]); } else { SubLength(a, b[1..]); }
    }
  }

  lemma {:induction false} SubSelf(a: seq<Id>)
    ensures Sub(a, a)
  {
    if a != [] { SubSelf(a[1..]); }
  }

  lemma {:induction false} SubCons(a: seq<Id>, b: seq<Id>, x: Id)
    requires Sub(a, b)
    ensures Sub(a, [x] + b)
    decreases b, 1
  {
    assert ([x] + b)[1..] == b;
    if a != [] && a[0] == x {
      if a[0] == b[0] {
        SubCons(a[1..], b[1..], b[0]);
        assert b == [b[0]] + b[1..];
      } else {
        SubTail(a, b);
      }
    }
  }

  lemma {:induction false} SubTail(a: seq<Id>, b: seq<Id>)
    requires a != [] && Sub(a, b)
    ensures Sub(a[1..], b)
    decreases b, 0
  {
    assert b == [b[0]] + b[1..];
    if a[0] == b[0] {
      SubCons(a[1..], b[1..], b[0]);
    } else {
      SubTail(a, b[1..]);
      SubCons(a[1..], b[1..], b[0]);
    }
  }

  lemma {:induction false} SubTrans(a: seq<Id>, b: seq<Id>, c: seq<Id>)
    requires Sub(a, b) && Sub(b, c)
    ensures Sub(a, c)
    decreases c
  {
    if a != [] {
      SubLength(a, b);
      if b[0] == c[0] {
        if a[0] == b[0] { SubTrans(a[1..], b[1..], c[1..]); } else { SubTrans(a, b[1..], c[1..]); }
      } else {
        SubTrans(a, b, c[1..]);
        if a[0] == c[0] { SubTail(a, c[1..]); }
      }
    }
  }

  lemma {:induction false} SubWithout(a: seq<Id>, b: seq<Id>, h: Id)
    requires Sub(a, b)
    ensures Sub(Without(a, h), Without(b, h))
    decreases b
  {
    if a != [] {
      if a[0] == b[0] {
        SubWithout(a[1..], b[1..], h);
        if a[0] == h {
          assert Without(a, h) == Without(a[1..], h) && Without(b, h) == Without(b[1..], h);
        } else {
          assert Without(a, h)[1..] == Without(a[1..], h) && Without(b, h)[1..] == Without(b[1..], h);
        }
      } else {
        SubWithout(a, b[1..], h);
        if b[0] != h {
          SubCons(Without(a, h), Without(b[1..], h), b[0]);
          assert Without(b, h) == [b[0]] + Without(b[1..], h);
        } else {
          assert Without(b, h) == Without(b[1..], h);
        }
      }
    }
  }

  lemma {:induction false} NoDupWithout(s: seq<Id>, h: Id)
    requires NoDup(s)
    ensures NoDup(Without(s, h))
  {
    if s != [] {
      NoDupWithout(s[1..], h);
      WithoutIs(s[1..], h);
      assert forall i | 0 < i < |s| :: s[i] == s[1..][i - 1];
      assert s[0] !in s[1..];
    }
  }

  /** Some head is in no tail, if the inputs have a common order. */
  lemma {:induction false} HeadExists(seqs: seq<seq<Id>>, order: seq<Id>)
    requires seqs != [] && (forall q | q in seqs :: q != []) && Common(seqs, order)
    ensures exists q | q in seqs :: !InTail(seqs, q[0])
    decreases order
  {
    assert seqs[0] in seqs;
    var x := order[0];
    assert NoDup(order[1..]) && x !in order[1..];
    if exists q | q in seqs :: q[0] == x {
      var q :| q in seqs && q[0] == x;
      forall o | o in seqs
        ensures x !in o[1..]
      {
        if o[0] == x {
          if x in o[1..] { SubElements(o[1..], order[1..]); }
        } else {
          SubElements(o, order[1..]);
          assert forall y | y in o[1..] :: y in o;
        }
      }
    } else {
      HeadExists(seqs, order[1..]);
    }
  }

  /** The merge gives an order whenever there is one. */
  lemma {:induction false} MergeComplete(seqs: seq<seq<Id>>, order: seq<Id>)
    requires Common(seqs, order)
    ensures Merged(seqs).Some?
    decreases Total(seqs)
  {
    var live := NonEmpty(seqs);
    NonEmptyIs(seqs);
    if live != [] {
      HeadExists(live, order);
      CandidateIs(live, live);
      var h := Candidate(live, live).value;
      PickShrinks(seqs);
      WithoutAllIs(live, h);
      NoDupWithout(order, h);
      forall q | q in WithoutAll(live, h)
        ensures Sub(q, Without(order, h))
      {
        var o :| o in live && q == Without(o, h);
        SubWithout(o, order, h);
      }
      MergeComplete(WithoutAll(live, h), Without(order, h));
    }
  }

  /** What the merge gives is such an order, and holds the inputs' elements only. */
  lemma {:induction false} MergeSound(seqs: seq<seq<Id>>)
    requires Merged(seqs).Some?
    ensures Common(seqs, Merged(seqs).value)
    ensures forall x :: x in Merged(seqs).value <==> exists q | q in seqs :: x in q
    decreases Total(seqs)
  {
    var live, r := NonEmpty(seqs), Merged(seqs).value;
    NonEmptyIs(seqs);
    if live != [] {
      var h := Candidate(live, live).value;
      var less := WithoutAll(live, h);
      CandidateIs(live, live);
      PickShrinks(seqs);
      MergeSound(less);
      WithoutAllIs(live, h);
      assert r == [h] + Merged(less).value && r[1..] == Merged(less).value;
      HeadFresh(live, h, r[1..]);
      forall q | q in seqs
        ensures Sub(q, r)
      {
        if q != [] { MergedKeeps(live, h, q, r[1..]); }
      }
      forall x
        ensures x in r <==> exists q | q in seqs :: x in q
      {
        MergedElements(seqs, live, h, r[1..], x);
      }
    } else {
      forall q | q in seqs
        ensures q == []
      {
      }
    }
  }

  lemma HeadFresh(live: seq<seq<Id>>, h: Id, rest: seq<Id>)
    requires NoDup(rest) && forall x :: x in rest <==> exists q | q in WithoutAll(live, h) :: x in q
    ensures h !in rest && NoDup([h] + rest)
  {
    WithoutAllIs(live, h);
    if h in rest {
      var q :| q in WithoutAll(live, h) && h in q;
      var o :| o in live && q == Without(o, h);
      WithoutIs(o, h);
    }
  }

  lemma MergedKeeps(live: seq<seq<Id>>, h: Id, q: seq<Id>, rest: seq<Id>)
    requires q in live && q != [] && !InTail(live, h)
    requires forall o | o in WithoutAll(live, h) :: Sub(o, rest)
    ensures Sub(q, [h] + rest)
  {
    WithoutAllIs(live, h);
    assert Sub(Without(q, h), rest);
    assert h !in q[1..];
    WithoutIs(q[1..], h);
    if q[0] == h {
      assert ([h] + rest)[1..] == rest;
      assert Without(q, h) == Without(q[1..], h) == q[1..];
    } else {
      assert q == [q[0]] + q[1..];
      WithoutIs(q, h);
      SubCons(q, rest, h);
    }
  }

  lemma MergedElements(seqs: seq<seq<Id>>, live: seq<seq<Id>>, h: Id, rest: seq<Id>, x: Id)
    requires forall q :: q in live <==> q in seqs && q != []
    requires exists q | q in live :: q != [] && q[0] == h
    requires forall y :: y in rest <==> exists q | q in WithoutAll(live, h) :: y in q
    ensures x in [h] + rest <==> exists q | q in seqs :: x in q
  {
    WithoutAllIs(live, h);
    if x == h {
      var q :| q in live && q != [] && q[0] == h;
      assert q in seqs && h in q;
    } else {
      if x in rest {
        var q :| q in WithoutAll(live, h) && x in q;
        var o :| o in live && q == Without(o, h);
        WithoutIs(o, h);
      }
      forall q | q in seqs && x in q
        ensures x in rest
      {
        WithoutIs(q, h);
        assert Without(q, h) in WithoutAll(live, h) && x in Without(q, h);
      }
    }
  }

  /** The merge succeeds exactly when a common order exists. */
  lemma MergeExact(seqs: seq<seq<Id>>)
    ensures Merged(seqs).Some? <==> exists order :: Common(seqs, order)
  {
    if Merged(seqs).Some? {
      MergeSound(seqs);
    }
    forall order | Common(seqs, order)
      ensures Merged(seqs).Some?
    {
      MergeComplete(seqs, order);
    }
  }
}
