/** Wrapping a returned expression: `expand_shared_returns` of crates/fhec-lower/src/pass_ops.rs. */
module SharedReturns {
  import opened Wrappers
  import opened RewritePlan
  import opened Splice

  const SHARE_RULE := "shared-return-share"

  /** The two insertions around each returned expression. */
  function Wraps(exprs: seq<Range>, open: Bytes, close: Bytes): seq<Patch> {
    if exprs == [] then []
    else [Insert(exprs[0].start, open, SHARE_RULE), Insert(exprs[0].end, close, SHARE_RULE)] + Wraps(exprs[1..], open, close)
  }

  /** Two patches for each expression: the open text at its start, then the close text
      at its end, neither replacing anything. */
  lemma {:induction false} WrapsExactly(exprs: seq<Range>, open: Bytes, close: Bytes, k: nat)
    requires k < |exprs|
    ensures |Wraps(exprs, open, close)| == 2 * |exprs|
    ensures var o, c := Wraps(exprs, open, close)[2 * k], Wraps(exprs, open, close)[2 * k + 1];
            && o.range == Range(exprs[k].start, exprs[k].start) && o.replacement == open
            && c.range == Range(exprs[k].end, exprs[k].end) && c.replacement == close
    decreases exprs
  {
    var rest := Wraps(exprs[1..], open, close);
    assert Wraps(exprs, open, close)[2..] == rest;
    if k > 0 {
      WrapsExactly(exprs[1..], open, close, k - 1);
      assert Wraps(exprs, open, close)[2 * k] == rest[2 * (k - 1)] && Wraps(exprs, open, close)[2 * k + 1] == rest[2 * (k - 1) + 1];
    } else if |exprs| > 1 {
      WrapsExactly(exprs[1..], open, close, 0);
    }
  }

  method ExpandSharedReturn(plan: FilePlan, exprs: seq<Range>, open: Bytes, close: Bytes)
    modifies plan
    ensures plan.patches == old(plan.patches) + Wraps(exprs, open, close)
  {
    ghost var before := plan.patches;
    assert before + Wraps(exprs[0..], open, close) == before + Wraps(exprs, open, close) by { assert exprs[0..] == exprs; }
    for i := 0 to |exprs|
      invariant plan.patches + Wraps(exprs[i..], open, close) == before + Wraps(exprs, open, close)
    {
      ghost var now := plan.patches;
      assert exprs[i..][0] == exprs[i] && exprs[i..][1..] == exprs[i + 1..];
      plan.Push(Insert(exprs[i].start, open, SHARE_RULE));
      plan.Push(Insert(exprs[i].end, close, SHARE_RULE));
      Regroup(now, Insert(exprs[i].start, open, SHARE_RULE), Insert(exprs[i].end, close, SHARE_RULE), Wraps(exprs[i + 1..], open, close));
    }
    assert exprs[|exprs|..] == [];
    assert plan.patches + [] == plan.patches;
  }

  lemma Regroup(a: seq<Patch>, x: Patch, y: Patch, b: seq<Patch>)
    ensures a + [x] + [y] + b == a + ([x, y] + b)
  {
  }

  /** Every patch ends by this offset. */
  predicate EndBy(ps: seq<Patch>, to: nat) {
    ps == [] || (ps[0].range.end <= to && EndBy(ps[1..], to))
  }

  /** The text the patches make of the source between two offsets. */
  function Between(original: Bytes, ps: seq<Patch>, cursor: nat, to: nat): Bytes
    requires cursor <= to <= |original| && Chained(original, ps, cursor) && EndBy(ps, to)
    decreases ps
  {
    if ps == [] then original[cursor..to]
    else original[cursor..ps[0].range.start] + ps[0].replacement + Between(original, ps[1..], ps[0].range.end, to)
  }

  lemma {:induction false} RestIsBetween(original: Bytes, ps: seq<Patch>, cursor: nat, prev: Range, outLen: nat)
    requires cursor <= |original| && Chained(original, ps, cursor)
    ensures Rest(original, ps, cursor, prev, outLen).Success? && EndBy(ps, |original|)
    ensures Rest(original, ps, cursor, prev, outLen).value.text == Between(original, ps, cursor, |original|)
    decreases ps
  {
    if ps != [] {
      var p := ps[0];
      RestIsBetween(original, ps[1..], p.range.end, p.range, outLen + (p.range.start - cursor) + |p.replacement|);
    }
  }

  lemma Cutting(text: Bytes, i: nat, j: nat, k: nat)
    requires i <= j <= k <= |text|
    ensures text[i..k] == text[i..j] + text[j..k]
  {
  }

  lemma Assoc(a: Bytes, b: Bytes, c: Bytes)
    ensures a + (b + c) == a + b + c
  {
  }

  lemma {:induction false} BetweenSplits(original: Bytes, xs: seq<Patch>, ys: seq<Patch>, cursor: nat, mid: nat, to: nat)
    requires cursor <= mid <= to <= |original| && Chained(original, xs, cursor) && Chained(original, ys, mid)
    requires EndBy(xs, mid) && EndBy(ys, to)
    ensures Chained(original, xs + ys, cursor) && EndBy(xs + ys, to)
    ensures Between(original, xs + ys, cursor, to) == Between(original, xs, cursor, mid) + Between(original, ys, mid, to)
    decreases xs
  {
    if xs == [] {
      assert xs + ys == ys;
      if ys != [] {
        Cutting(original, cursor, mid, ys[0].range.start);
        Assoc(original[cursor..mid], original[mid..ys[0].range.start], ys[0].replacement);
        Assoc(original[cursor..mid], original[mid..ys[0].range.start] + ys[0].replacement, Between(original, ys[1..], ys[0].range.end, to));
      } else {
        Cutting(original, cursor, mid, to);
      }
    } else {
      var x := xs[0];
      assert (xs + ys)[0] == x && (xs + ys)[1..] == xs[1..] + ys;
      BetweenSplits(original, xs[1..], ys, x.range.end, mid, to);
      Assoc(original[cursor..x.range.start] + x.replacement, Between(original, xs[1..], x.range.end, mid), Between(original, ys, mid, to));
    }
  }

  /** A zero-width insertion at the seam. */
  lemma BetweenInserts(original: Bytes, at: nat, text: Bytes)
    requires at <= |original| && IsCharBoundary(original, at)
    ensures Chained(original, [Insert(at, text, SHARE_RULE)], at) && EndBy([Insert(at, text, SHARE_RULE)], at)
    ensures Between(original, [Insert(at, text, SHARE_RULE)], at, at) == text
  {
    var one := [Insert(at, text, SHARE_RULE)];
    assert one[1..] == [];
    assert original[at..at] + text + original[at..at] == text;
  }

  /** The patches lie between the two offsets. */
  predicate Inside(ps: seq<Patch>, a: nat, b: nat) {
    ps == [] || (a <= ps[0].range.start <= ps[0].range.end <= b && Inside(ps[1..], a, b))
  }

  function Moved(p: Patch, off: nat): Patch
    requires off <= p.range.start <= p.range.end
  {
    p.(range := Range(p.range.start - off, p.range.end - off))
  }

  function AllMoved(ps: seq<Patch>, a: nat, b: nat): seq<Patch>
    requires Inside(ps, a, b)
  {
    if ps == [] then [] else [Moved(ps[0], a)] + AllMoved(ps[1..], a, b)
  }

  /** The source text of the expression. */
  predicate Part(original: Bytes, a: nat, b: nat, part: Bytes) {
    a <= b <= |original| && |part| == b - a && forall k | 0 <= k < b - a :: part[k] == original[a + k]
  }

  lemma PartOf(original: Bytes, a: nat, b: nat, part: Bytes, i: nat, j: nat)
    requires Part(original, a, b, part) && a <= i <= j <= b
    ensures part[i - a..j - a] == original[i..j]
    ensures IsCharBoundary(original, i) && IsCharBoundary(original, j) && IsCharBoundary(original, b) ==>
              IsCharBoundary(part, i - a) && IsCharBoundary(part, j - a)
  {
    forall k | 0 <= k < j - i
      ensures part[i - a..j - a][k] == original[i..j][k]
    {
      assert part[i - a + k] == original[a + (i - a + k)];
    }
  }

  lemma MovedTail(ps: seq<Patch>, a: nat, b: nat)
    requires Inside(ps, a, b) && ps != []
    ensures AllMoved(ps, a, b) != [] && AllMoved(ps, a, b)[0] == Moved(ps[0], a) && AllMoved(ps, a, b)[1..] == AllMoved(ps[1..], a, b)
  {
  }

  lemma {:induction false} AloneChained(original: Bytes, ps: seq<Patch>, a: nat, b: nat, part: Bytes, cursor: nat)
    requires a <= cursor <= b && Part(original, a, b, part) && Chained(original, ps, cursor) && IsCharBoundary(original, b)
    requires Inside(ps, a, b)
    ensures EndBy(ps, b) && Chained(part, AllMoved(ps, a, b), cursor - a) && EndBy(AllMoved(ps, a, b), b - a)
    decreases ps
  {
    if ps != [] {
      AloneChained(original, ps[1..], a, b, part, ps[0].range.end);
      MovedTail(ps, a, b);
      PartOf(original, a, b, part, ps[0].range.start, ps[0].range.end);
    }
  }

  /** What the patches make of the expression's own text. */
  lemma {:induction false} BetweenAlone(original: Bytes, ps: seq<Patch>, a: nat, b: nat, part: Bytes, cursor: nat)
    requires a <= cursor <= b && Part(original, a, b, part) && Chained(original, ps, cursor) && IsCharBoundary(original, b)
    requires Inside(ps, a, b)
    ensures EndBy(ps, b) && Chained(part, AllMoved(ps, a, b), cursor - a) && EndBy(AllMoved(ps, a, b), b - a)
    ensures Between(part, AllMoved(ps, a, b), cursor - a, b - a) == Between(original, ps, cursor, b)
    decreases ps
  {
    AloneChained(original, ps, a, b, part, cursor);
    if ps == [] {
      PartOf(original, a, b, part, cursor, b);
    } else {
      var p := ps[0];
      BetweenAlone(original, ps[1..], a, b, part, p.range.end);
      MovedTail(ps, a, b);
      PartOf(original, a, b, part, cursor, p.range.start);
      var qs := AllMoved(ps, a, b);
      assert qs[0].range.start == p.range.start - a && qs[0].range.end == p.range.end - a;
      BetweenStep(original, ps, cursor, b, part, qs, cursor - a, b - a);
    }
  }

  /** One patch further, over two texts that agree so far and from there on. */
  lemma BetweenStep(s: Bytes, ps: seq<Patch>, i: nat, to: nat, t: Bytes, qs: seq<Patch>, j: nat, end: nat)
    requires i <= to <= |s| && Chained(s, ps, i) && EndBy(ps, to) && ps != []
    requires j <= end <= |t| && Chained(t, qs, j) && EndBy(qs, end) && qs != []
    requires t[j..qs[0].range.start] == s[i..ps[0].range.start] && qs[0].replacement == ps[0].replacement
    requires Between(t, qs[1..], qs[0].range.end, end) == Between(s, ps[1..], ps[0].range.end, to)
    ensures Between(t, qs, j, end) == Between(s, ps, i, to)
  {
    BetweenUnfolds(s, ps, i, to);
    BetweenUnfolds(t, qs, j, end);
  }

  lemma BetweenUnfolds(original: Bytes, ps: seq<Patch>, cursor: nat, to: nat)
    requires cursor <= to <= |original| && Chained(original, ps, cursor) && EndBy(ps, to) && ps != []
    ensures Between(original, ps, cursor, to)
            == original[cursor..ps[0].range.start] + ps[0].replacement + Between(original, ps[1..], ps[0].range.end, to)
  {
  }

  /** Inside the expression; an insertion not at its ends. */
  predicate Within(p: Patch, r: Range) {
    || (r.start <= p.range.start < p.range.end <= r.end)
    || (r.start < p.range.start == p.range.end < r.end)
  }

  /** Strictly before the expression, or behind its end. */
  predicate Clear(p: Patch, r: Range) {
    || (p.range.start < r.start && p.range.end <= r.start)
    || r.end < p.range.start
    || (r.end == p.range.start && !p.IsInsertion())
  }

  predicate Ahead(ps: seq<Patch>, r: Range) {
    forall i | 0 <= i < |ps| :: ps[i].range.start < r.start && ps[i].range.end <= r.start
  }

  predicate AllWithin(ps: seq<Patch>, r: Range) {
    forall i | 0 <= i < |ps| :: Within(ps[i], r)
  }

  predicate Behind(ps: seq<Patch>, r: Range) {
    forall i | 0 <= i < |ps| :: r.end < ps[i].range.start || (r.end == ps[i].range.start && !ps[i].IsInsertion())
  }

  predicate WithinOrClear(ps: seq<Patch>, r: Range) {
    forall i | 0 <= i < |ps| :: Within(ps[i], r) || Clear(ps[i], r)
  }

  lemma FirstSeam(ps: seq<Patch>, r: Range) returns (i: nat)
    requires Sorted(ps) && WithinOrClear(ps, r) && r.start < r.end
    ensures i <= |ps| && Ahead(ps[..i], r)
    ensures forall k | i <= k < |ps| :: r.start <= ps[k].range.start
  {
    i := 0;
    while i < |ps| && ps[i].range.start < r.start
      invariant i <= |ps| && Ahead(ps[..i], r)
    {
      assert ps[..i + 1] == ps[..i] + [ps[i]];
      i := i + 1;
    }
    forall k | i <= k < |ps|
      ensures r.start <= ps[k].range.start
    {
      if k > i { assert !Before(KeyOf(ps[k]), KeyOf(ps[i])); }
    }
  }

  lemma SecondSeam(ps: seq<Patch>, r: Range, i: nat) returns (j: nat)
    requires Sorted(ps) && WithinOrClear(ps, r) && r.start < r.end && i <= |ps|
    requires forall k | i <= k < |ps| :: r.start <= ps[k].range.start
    ensures i <= j <= |ps| && AllWithin(ps[i..j], r) && Behind(ps[j..], r)
  {
    j := i;
    while j < |ps| && ps[j].range.start < r.end
      invariant i <= j <= |ps| && AllWithin(ps[i..j], r)
    {
      assert ps[i..j + 1] == ps[i..j] + [ps[j]];
      j := j + 1;
    }
    forall k | j <= k < |ps|
      ensures r.end < ps[k].range.start || (r.end == ps[k].range.start && !ps[k].IsInsertion())
    {
      if k > j { assert !Before(KeyOf(ps[k]), KeyOf(ps[j])); }
    }
  }

  /** Where the expression's patches lie in the canonical order. */
  lemma Seams(ps: seq<Patch>, r: Range) returns (xs: seq<Patch>, ys: seq<Patch>, zs: seq<Patch>)
    requires Sorted(ps) && r.start < r.end && WithinOrClear(ps, r)
    ensures ps == xs + ys + zs && Ahead(xs, r) && AllWithin(ys, r) && Behind(zs, r)
  {
    var i := FirstSeam(ps, r);
    var j := SecondSeam(ps, r, i);
    xs, ys, zs := ps[..i], ps[i..j], ps[j..];
    InThree(ps, i, j);
  }

  lemma InThree(ps: seq<Patch>, i: nat, j: nat)
    requires i <= j <= |ps|
    ensures ps == ps[..i] + ps[i..j] + ps[j..]
  {
  }

  lemma PlaceBetween(xs: seq<Patch>, p: Patch, ys: seq<Patch>)
    requires forall i | 0 <= i < |xs| :: !Before(KeyOf(p), KeyOf(xs[i]))
    requires forall i | 0 <= i < |ys| :: Before(KeyOf(p), KeyOf(ys[i]))
    ensures Place(xs + ys, p) == xs + [p] + ys
  {
    var all := xs + ys;
    forall i | |xs| <= i < |all|
      ensures Before(KeyOf(p), KeyOf(all[i]))
    {
      assert all[i] == ys[i - |xs|];
    }
    PlaceAt(all, p, |xs|);
    assert all[..|xs|] == xs && all[|xs|..] == ys;
  }

  lemma WrappedOrder(plan: seq<Patch>, xs: seq<Patch>, ys: seq<Patch>, zs: seq<Patch>, r: Range, open: Bytes, close: Bytes)
    requires r.start < r.end && Canonical(plan) == xs + ys + zs && Ahead(xs, r) && AllWithin(ys, r) && Behind(zs, r)
    ensures Canonical(plan + [Insert(r.start, open, SHARE_RULE), Insert(r.end, close, SHARE_RULE)])
            == xs + [Insert(r.start, open, SHARE_RULE)] + ys + [Insert(r.end, close, SHARE_RULE)] + zs
  {
    var o, c := Insert(r.start, open, SHARE_RULE), Insert(r.end, close, SHARE_RULE);
    TwoMore(plan, o, c);
    Joins(xs, ys, zs);
    Joins(xs + [o], ys, zs);
    forall i | 0 <= i < |ys + zs|
      ensures Before(KeyOf(o), KeyOf((ys + zs)[i]))
    {
      assert (ys + zs)[i] == if i < |ys| then ys[i] else zs[i - |ys|];
    }
    PlaceBetween(xs, o, ys + zs);
    ClosePlaced(xs, o, ys, c, zs, r);
  }

  lemma Joins(a: seq<Patch>, b: seq<Patch>, c: seq<Patch>)
    ensures a + b + c == a + (b + c)
  {
  }

  lemma TwoMore(plan: seq<Patch>, o: Patch, c: Patch)
    ensures Canonical(plan + [o, c]) == Place(Place(Canonical(plan), o), c)
  {
    assert plan + [o, c] == plan + [o] + [c];
    assert (plan + [o])[..|plan|] == plan && (plan + [o] + [c])[..|plan| + 1] == plan + [o];
  }

  lemma ClosePlaced(xs: seq<Patch>, o: Patch, ys: seq<Patch>, c: Patch, zs: seq<Patch>, r: Range)
    requires r.start < r.end && Ahead(xs, r) && AllWithin(ys, r) && Behind(zs, r)
    requires o.range.start == r.start && c.range == Range(r.end, r.end) && c.order == Normal
    ensures Place(xs + [o] + ys + zs, c) == xs + [o] + ys + [c] + zs
  {
    var front := xs + [o] + ys;
    forall i | 0 <= i < |front|
      ensures !Before(KeyOf(c), KeyOf(front[i]))
    {
      assert front[i] == if i < |xs| then xs[i] else if i == |xs| then o else ys[i - |xs| - 1];
    }
    PlaceBetween(front, c, zs);
  }

  lemma {:induction false} ChainedSplit(original: Bytes, xs: seq<Patch>, ys: seq<Patch>, cursor: nat, from: nat)
    requires Chained(original, xs + ys, cursor) && (ys != [] ==> from <= ys[0].range.start)
    ensures Chained(original, xs, cursor) && Chained(original, ys, from)
    decreases xs
  {
    if xs == [] {
      assert xs + ys == ys;
    } else {
      assert (xs + ys)[0] == xs[0] && (xs + ys)[1..] == xs[1..] + ys;
      ChainedSplit(original, xs[1..], ys, xs[0].range.end, from);
    }
  }

  lemma {:induction false} AheadEnds(ps: seq<Patch>, r: Range)
    requires Ahead(ps, r)
    ensures EndBy(ps, r.start)
  {
    if ps != [] { AheadEnds(ps[1..], r); }
  }

  lemma {:induction false} WithinInside(ps: seq<Patch>, r: Range)
    requires AllWithin(ps, r)
    ensures Inside(ps, r.start, r.end) && EndBy(ps, r.end)
  {
    if ps != [] { WithinInside(ps[1..], r); }
  }

  /**
   Wrapping composes with splicing.  The two zero-width insertions around a
   non-empty expression put the open text before, and the close text behind,
   exactly what the expression's own replacements make of it.
   */
  lemma WrapComposes(original: Bytes, plan: seq<Patch>, r: Range, open: Bytes, close: Bytes)
    returns (left: Bytes, inner: seq<Patch>, mid: Bytes, right: Bytes)
    requires SpliceOf(original, plan).Success?
    requires r.start < r.end <= |original| && IsCharBoundary(original, r.start) && IsCharBoundary(original, r.end)
    requires forall p | p in plan :: Within(p, r) || Clear(p, r)
    ensures SpliceOf(original, plan).value.text == left + mid + right
    ensures Inside(inner, r.start, r.end) && forall p :: p in inner <==> p in plan && Within(p, r)
    ensures SpliceOf(original[r.start..r.end], AllMoved(inner, r.start, r.end)).Success?
    ensures SpliceOf(original[r.start..r.end], AllMoved(inner, r.start, r.end)).value.text == mid
    ensures var wrapped := SpliceOf(original, plan + [Insert(r.start, open, SHARE_RULE), Insert(r.end, close, SHARE_RULE)]);
            wrapped.Success? && wrapped.value.text == left + open + mid + close + right
  {
    CanonicalSorted(plan);
    CanonicalMembers(plan);
    assert forall i | 0 <= i < |Canonical(plan)| :: Canonical(plan)[i] in plan;
    var xs, ys, zs := Seams(Canonical(plan), r);
    WrappedOrder(plan, xs, ys, zs, r, open, close);
    RestAccepts(original, Canonical(plan), 0, Range(0, 0), 0);
    left, mid, right := Wrapped(original, xs, ys, zs, r, open, close);
    inner := ys;
    WithinInside(ys, r);
    SortedMiddle(xs, ys, zs);
    InnerAlone(original, ys, r);
    InnerMembers(plan, xs, ys, zs, r);
  }

  lemma InnerMembers(plan: seq<Patch>, xs: seq<Patch>, ys: seq<Patch>, zs: seq<Patch>, r: Range)
    requires (forall p :: p in xs + ys + zs <==> p in plan) && Ahead(xs, r) && AllWithin(ys, r) && Behind(zs, r)
    ensures forall p :: p in ys <==> p in plan && Within(p, r)
  {
    forall p | p in plan && Within(p, r)
      ensures p in ys
    {
      assert p in xs + ys + zs;
    }
    forall p | p in ys
      ensures p in plan && Within(p, r)
    {
      assert p in xs + ys + zs;
    }
  }

  lemma SortedMiddle(xs: seq<Patch>, ys: seq<Patch>, zs: seq<Patch>)
    requires Sorted(xs + ys + zs)
    ensures Sorted(ys)
  {
    var all := xs + ys + zs;
    forall i, j | 0 <= i < j < |ys|
      ensures !Before(KeyOf(ys[j]), KeyOf(ys[i]))
    {
      assert all[|xs| + i] == ys[i] && all[|xs| + j] == ys[j];
    }
  }

  lemma Wrapped(original: Bytes, xs: seq<Patch>, ys: seq<Patch>, zs: seq<Patch>, r: Range, open: Bytes, close: Bytes)
    returns (left: Bytes, mid: Bytes, right: Bytes)
    requires r.start < r.end <= |original| && Chained(original, xs + ys + zs, 0) && Ahead(xs, r) && AllWithin(ys, r) && Behind(zs, r)
    requires IsCharBoundary(original, r.start) && IsCharBoundary(original, r.end)
    ensures var plain := Rest(original, xs + ys + zs, 0, Range(0, 0), 0);
            plain.Success? && plain.value.text == left + mid + right
    ensures Chained(original, ys, r.start) && EndBy(ys, r.end) && mid == Between(original, ys, r.start, r.end)
    ensures var wrapped := Rest(original, xs + [Insert(r.start, open, SHARE_RULE)] + ys + [Insert(r.end, close, SHARE_RULE)] + zs, 0, Range(0, 0), 0);
            wrapped.Success? && wrapped.value.text == left + open + mid + close + right
  {
    var a, b := r.start, r.end;
    assert xs + ys + zs == xs + (ys + zs);
    ChainedSplit(original, xs + ys, zs, 0, b);
    ChainedSplit(original, xs, ys, 0, a);
    AheadEnds(xs, r);
    WithinInside(ys, r);
    RestIsBetween(original, zs, b, Range(0, 0), 0);
    left, mid, right := Between(original, xs, 0, a), Between(original, ys, a, b), Between(original, zs, b, |original|);
    Plain(original, xs, ys, zs, a, b);
    WithInserts(original, xs, ys, zs, a, b, open, close);
  }

  lemma Plain(original: Bytes, xs: seq<Patch>, ys: seq<Patch>, zs: seq<Patch>, a: nat, b: nat)
    requires a <= b <= |original| && Chained(original, xs, 0) && Chained(original, ys, a) && Chained(original, zs, b)
    requires EndBy(xs, a) && EndBy(ys, b) && EndBy(zs, |original|)
    ensures var plain := Rest(original, xs + ys + zs, 0, Range(0, 0), 0);
            && plain.Success?
            && plain.value.text == Between(original, xs, 0, a) + Between(original, ys, a, b) + Between(original, zs, b, |original|)
  {
    BetweenSplits(original, xs, ys, 0, a, b);
    BetweenSplits(original, xs + ys, zs, 0, b, |original|);
    RestIsBetween(original, xs + ys + zs, 0, Range(0, 0), 0);
  }

  lemma WithInserts(original: Bytes, xs: seq<Patch>, ys: seq<Patch>, zs: seq<Patch>, a: nat, b: nat, open: Bytes, close: Bytes)
    requires a <= b <= |original| && Chained(original, xs, 0) && Chained(original, ys, a) && Chained(original, zs, b)
    requires IsCharBoundary(original, a) && IsCharBoundary(original, b)
    requires EndBy(xs, a) && EndBy(ys, b) && EndBy(zs, |original|)
    ensures var wrapped := Rest(original, xs + [Insert(a, open, SHARE_RULE)] + ys + [Insert(b, close, SHARE_RULE)] + zs, 0, Range(0, 0), 0);
            && wrapped.Success?
            && wrapped.value.text
               == Between(original, xs, 0, a) + open + Between(original, ys, a, b) + close + Between(original, zs, b, |original|)
  {
    var o, c := [Insert(a, open, SHARE_RULE)], [Insert(b, close, SHARE_RULE)];
    BetweenInserts(original, a, open);
    BetweenInserts(original, b, close);
    BetweenSplits(original, xs, o, 0, a, a);
    BetweenSplits(original, xs + o, ys, 0, a, b);
    BetweenSplits(original, xs + o + ys, c, 0, b, b);
    BetweenSplits(original, xs + o + ys + c, zs, 0, b, |original|);
    RestIsBetween(original, xs + o + ys + c + zs, 0, Range(0, 0), 0);
  }

  /** The expression's patches, applied to its own text alone. */
  lemma InnerAlone(original: Bytes, ys: seq<Patch>, r: Range)
    requires Sorted(ys) && Chained(original, ys, r.start) && AllWithin(ys, r) && Inside(ys, r.start, r.end) && EndBy(ys, r.end)
    requires r.start < r.end <= |original| && IsCharBoundary(original, r.end)
    ensures SpliceOf(original[r.start..r.end], AllMoved(ys, r.start, r.end)).Success?
    ensures SpliceOf(original[r.start..r.end], AllMoved(ys, r.start, r.end)).value.text == Between(original, ys, r.start, r.end)
  {
    PartAlone(original, ys, r, original[r.start..r.end]);
  }

  lemma PartAlone(original: Bytes, ys: seq<Patch>, r: Range, part: Bytes)
    requires Sorted(ys) && Chained(original, ys, r.start) && Inside(ys, r.start, r.end) && EndBy(ys, r.end)
    requires r.start < r.end <= |original| && IsCharBoundary(original, r.end) && Part(original, r.start, r.end, part)
    ensures SpliceOf(part, AllMoved(ys, r.start, r.end)).Success?
    ensures SpliceOf(part, AllMoved(ys, r.start, r.end)).value.text == Between(original, ys, r.start, r.end)
  {
    BetweenAlone(original, ys, r.start, r.end, part, r.start);
    MovedSorted(ys, r.start, r.end);
    CanonicalOfSorted(AllMoved(ys, r.start, r.end));
    RestIsBetween(part, AllMoved(ys, r.start, r.end), 0, Range(0, 0), 0);
  }

  lemma {:induction false} MovedSorted(ps: seq<Patch>, a: nat, b: nat)
    requires Sorted(ps) && Inside(ps, a, b)
    ensures Sorted(AllMoved(ps, a, b))
  {
    var moved := AllMoved(ps, a, b);
    forall x, y | 0 <= x < y < |moved|
      ensures !Before(KeyOf(moved[y]), KeyOf(moved[x]))
    {
      MovedAt(ps, a, b, x);
      MovedAt(ps, a, b, y);
      assert !Before(KeyOf(ps[y]), KeyOf(ps[x]));
    }
  }

  lemma {:induction false} MovedAt(ps: seq<Patch>, a: nat, b: nat, k: nat)
    requires Inside(ps, a, b) && k < |AllMoved(ps, a, b)|
    ensures k < |ps| && a <= ps[k].range.start <= ps[k].range.end && AllMoved(ps, a, b)[k] == Moved(ps[k], a)
    decreases k
  {
    if k > 0 { MovedAt(ps[1..], a, b, k - 1); }
  }
}
