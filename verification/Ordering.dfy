/** The order a sorted queue keeps: the comparator contract, the place its insertion
    walk chooses, and what a stable sort is. Nothing here mentions nodes or threads. */
module Ordering {

  /** A `void *`, compared by address only. */
  type Ptr = nat

  const NULL: Ptr := 0

  /** A comparison callback. It depends on the two pointers alone, so the keys of queued
      elements do not change while they are queued. */
  type Comparator = (Ptr, Ptr) -> int

  /** The contract of the comparison callback: negative when the first is smaller, positive
      when the second is, 0 when they are the same, and transitive. */
  ghost predicate TotalPreorder(cmp: Comparator) {
    && (forall a, b :: cmp(a, b) < 0 <==> cmp(b, a) > 0)
    && (forall a, b, c :: cmp(a, b) <= 0 && cmp(b, c) <= 0 ==> cmp(a, c) <= 0)
  }

  datatype Order = Order(asc: bool, cmp: Comparator) {

    /** a has to be popped before b. */
    predicate Before(a: Ptr, b: Ptr) {
      if asc then cmp(a, b) < 0 else cmp(a, b) > 0
    }

    predicate Same(a: Ptr, b: Ptr) {
      cmp(a, b) == 0
    }

    /** The test that puts a new element in front of the head. */
    predicate GoesFirst(head: Ptr, e: Ptr) {
      (asc && cmp(head, e) >= 0) || (!asc && cmp(head, e) <= 0)
    }

    /** The test that ends the walk: e belongs between the neighbours s and t. */
    predicate FitsBetween(s: Ptr, e: Ptr, t: Ptr) {
      (asc && cmp(s, e) <= 0 && cmp(e, t) <= 0) || (!asc && cmp(s, e) >= 0 && cmp(e, t) >= 0)
    }
  }

  /** The order laws in the direction of o. */
  lemma OrderLaws(o: Order, a: Ptr, b: Ptr, c: Ptr)
    requires TotalPreorder(o.cmp)
    ensures o.Same(a, a) && !o.Before(a, a)
    ensures o.Same(a, b) <==> o.Same(b, a)
    ensures o.Same(a, b) <==> !o.Before(a, b) && !o.Before(b, a)
    ensures o.Before(a, b) ==> !o.Before(b, a)
    ensures !o.Before(b, a) && !o.Before(c, b) ==> !o.Before(c, a)
    ensures o.Same(a, b) && o.Same(b, c) ==> o.Same(a, c)
    ensures o.Before(a, b) && !o.Before(c, b) ==> o.Before(a, c)
  {
  }

  ghost predicate Sorted(o: Order, xs: seq<Ptr>) {
    forall i, j :: 0 <= i < j < |xs| ==> !o.Before(xs[j], xs[i])
  }

  // ---- the insertion walk ----

  /** Where the two-pointer walk that stands at index i stops. */
  function WalkFrom(o: Order, xs: seq<Ptr>, e: Ptr, i: nat): (s: nat)
    requires i < |xs|
    ensures i <= s < |xs|
    decreases |xs| - i
  {
    if i + 1 < |xs| && !o.FitsBetween(xs[i], e, xs[i + 1]) then WalkFrom(o, xs, e, i + 1) else i
  }

  /** The index at which the sorted push links its new node. */
  function InsertIndex(o: Order, xs: seq<Ptr>, e: Ptr): (p: nat)
    ensures p <= |xs|
  {
    if xs == [] || o.GoesFirst(xs[0], e) then 0 else WalkFrom(o, xs, e, 0) + 1
  }

  function InsertSorted(o: Order, xs: seq<Ptr>, e: Ptr): seq<Ptr> {
    var p := InsertIndex(o, xs, e);
    xs[..p] + [e] + xs[p..]
  }

  /** p comes after exactly the elements strictly before e: ahead of every equal one. */
  ghost predicate IsLowerBound(o: Order, xs: seq<Ptr>, e: Ptr, p: nat) {
    && p <= |xs|
    && (forall k :: 0 <= k < p ==> o.Before(xs[k], e))
    && (forall k :: p <= k < |xs| ==> !o.Before(xs[k], e))
  }

  lemma NoneEarlierFrom(o: Order, xs: seq<Ptr>, e: Ptr, i: nat)
    requires TotalPreorder(o.cmp) && Sorted(o, xs)
    requires i < |xs| ==> !o.Before(xs[i], e)
    ensures forall k :: i <= k < |xs| ==> !o.Before(xs[k], e)
  {
    forall k | i <= k < |xs| ensures !o.Before(xs[k], e) {
      OrderLaws(o, e, xs[i], xs[k]);
    }
  }

  lemma {:induction false} WalkFindsLowerBound(o: Order, xs: seq<Ptr>, e: Ptr, i: nat)
    requires TotalPreorder(o.cmp) && Sorted(o, xs)
    requires i < |xs| && forall k :: 0 <= k <= i ==> o.Before(xs[k], e)
    ensures IsLowerBound(o, xs, e, WalkFrom(o, xs, e, i) + 1)
    decreases |xs| - i
  {
    if i + 1 < |xs| && !o.FitsBetween(xs[i], e, xs[i + 1]) {
      WalkFindsLowerBound(o, xs, e, i + 1);
    } else {
      NoneEarlierFrom(o, xs, e, i + 1);
    }
  }

  /** The head test and the walk together find the lower bound, in either direction, and the
      lower bound is one place only. */
  lemma InsertIndexIsLowerBound(o: Order, xs: seq<Ptr>, e: Ptr, p: nat)
    requires TotalPreorder(o.cmp) && Sorted(o, xs)
    ensures IsLowerBound(o, xs, e, p) <==> p == InsertIndex(o, xs, e)
  {
    var q := InsertIndex(o, xs, e);
    if xs == [] {
    } else if o.GoesFirst(xs[0], e) {
      NoneEarlierFrom(o, xs, e, 0);
    } else {
      WalkFindsLowerBound(o, xs, e, 0);
    }
    assert IsLowerBound(o, xs, e, q);
    if IsLowerBound(o, xs, e, p) {
      assert q < |xs| ==> (o.Before(xs[q], e) <==> q < p);
      assert p < |xs| ==> (o.Before(xs[p], e) <==> p < q);
    }
  }

  lemma PutBetween(o: Order, xs: seq<Ptr>, e: Ptr, p: nat)
    requires Sorted(o, xs) && p <= |xs|
    requires forall k :: 0 <= k < p ==> !o.Before(e, xs[k])
    requires forall k :: p <= k < |xs| ==> !o.Before(xs[k], e)
    ensures Sorted(o, xs[..p] + [e] + xs[p..])
  {
  }

  lemma InsertKeepsSorted(o: Order, xs: seq<Ptr>, e: Ptr)
    requires TotalPreorder(o.cmp) && Sorted(o, xs)
    ensures Sorted(o, InsertSorted(o, xs, e))
  {
    var p := InsertIndex(o, xs, e);
    InsertIndexIsLowerBound(o, xs, e, p);
    forall k | 0 <= k < p ensures !o.Before(e, xs[k]) {
      OrderLaws(o, xs[k], e, e);
    }
    PutBetween(o, xs, e, p);
  }

  // ---- stable sorting ----

  /** The elements of xs the order cannot tell from k, in the order they have in xs. */
  ghost function Class(o: Order, xs: seq<Ptr>, k: Ptr): seq<Ptr> {
    if xs == [] then []
    else (if o.Same(xs[0], k) then [xs[0]] else []) + Class(o, xs[1..], k)
  }

  ghost predicate SameClasses(o: Order, xs: seq<Ptr>, ys: seq<Ptr>) {
    forall k :: Class(o, xs, k) == Class(o, ys, k)
  }

  /** r is the stable sort of input: it is in order, and elements that compare the same keep
      the order they have in input. */
  ghost predicate IsStableSort(o: Order, r: seq<Ptr>, input: seq<Ptr>) {
    Sorted(o, r) && SameClasses(o, r, input)
  }

  lemma {:induction false} ClassConcat(o: Order, xs: seq<Ptr>, ys: seq<Ptr>, k: Ptr)
    ensures Class(o, xs + ys, k) == Class(o, xs, k) + Class(o, ys, k)
  {
    if xs == [] {
      assert xs + ys == ys;
    } else {
      assert (xs + ys)[1..] == xs[1..] + ys;
      ClassConcat(o, xs[1..], ys, k);
    }
  }

  lemma {:induction false} ClassEmpty(o: Order, xs: seq<Ptr>, k: Ptr)
    ensures Class(o, xs, k) == [] <==> forall i :: 0 <= i < |xs| ==> !o.Same(xs[i], k)
  {
    if xs != [] {
      ClassEmpty(o, xs[1..], k);
      assert forall i :: 0 < i < |xs| ==> xs[i] == xs[1..][i - 1];
    }
  }

  /** Every occurrence of x is in x's class, so equal classes mean equal contents. */
  lemma {:induction false} ClassCount(o: Order, xs: seq<Ptr>, x: Ptr)
    requires TotalPreorder(o.cmp)
    ensures multiset(xs)[x] == multiset(Class(o, xs, x))[x]
  {
    if xs != [] {
      OrderLaws(o, x, x, x);
      ClassCount(o, xs[1..], x);
      assert xs == [xs[0]] + xs[1..];
    }
  }

  /** A stable sort is a permutation of its input. */
  lemma StableSortPermutes(o: Order, r: seq<Ptr>, input: seq<Ptr>)
    requires TotalPreorder(o.cmp) && SameClasses(o, r, input)
    ensures multiset(r) == multiset(input)
  {
    forall x: Ptr ensures multiset(r)[x] == multiset(input)[x] {
      ClassCount(o, r, x);
      ClassCount(o, input, x);
      assert Class(o, r, x) == Class(o, input, x);
    }
  }

  lemma TailClass(o: Order, xs: seq<Ptr>, k: Ptr)
    requires xs != []
    ensures Class(o, xs[1..], k) == if o.Same(xs[0], k) then Class(o, xs, k)[1..] else Class(o, xs, k)
  {
  }

  /** The head of a sorted sequence is never after an element of a sequence with the same classes. */
  lemma HeadNotAfter(o: Order, xs: seq<Ptr>, ys: seq<Ptr>)
    requires TotalPreorder(o.cmp) && Sorted(o, xs) && SameClasses(o, xs, ys)
    requires ys != []
    ensures xs != [] && !o.Before(ys[0], xs[0])
  {
    OrderLaws(o, ys[0], ys[0], ys[0]);
    ClassEmpty(o, ys, ys[0]);
    assert Class(o, xs, ys[0]) == Class(o, ys, ys[0]);
    ClassEmpty(o, xs, ys[0]);
    var i :| 0 <= i < |xs| && o.Same(xs[i], ys[0]);
    OrderLaws(o, xs[0], xs[i], ys[0]);
    OrderLaws(o, ys[0], xs[i], xs[0]);
  }

  /** Two sorted sequences with the same classes are equal. */
  lemma {:induction false} SortedSameClassesEqual(o: Order, xs: seq<Ptr>, ys: seq<Ptr>)
    requires TotalPreorder(o.cmp) && Sorted(o, xs) && Sorted(o, ys) && SameClasses(o, xs, ys)
    ensures xs == ys
  {
    if xs == [] || ys == [] {
      if xs != [] { HeadNotAfter(o, ys, xs); }
      if ys != [] { HeadNotAfter(o, xs, ys); }
    } else {
      var h := xs[0];
      HeadNotAfter(o, xs, ys);
      HeadNotAfter(o, ys, xs);
      OrderLaws(o, h, ys[0], h);
      OrderLaws(o, h, h, h);
      assert Class(o, xs, h)[0] == xs[0] && Class(o, ys, h)[0] == ys[0];
      forall k ensures Class(o, xs[1..], k) == Class(o, ys[1..], k) {
        assert Class(o, xs, k) == Class(o, ys, k);
        OrderLaws(o, ys[0], h, k);
        OrderLaws(o, h, ys[0], k);
        TailClass(o, xs, k);
        TailClass(o, ys, k);
      }
      SortedSameClassesEqual(o, xs[1..], ys[1..]);
      assert xs == [h] + xs[1..] && ys == [h] + ys[1..];
    }
  }

  /** An input has one stable sort. */
  lemma StableSortUnique(o: Order, r1: seq<Ptr>, r2: seq<Ptr>, input: seq<Ptr>)
    requires TotalPreorder(o.cmp)
    requires IsStableSort(o, r1, input) && IsStableSort(o, r2, input)
    ensures r1 == r2
  {
    forall k ensures Class(o, r1, k) == Class(o, r2, k) {
      assert Class(o, r1, k) == Class(o, input, k) == Class(o, r2, k);
    }
    SortedSameClassesEqual(o, r1, r2);
  }

  lemma EarlierNotInClass(o: Order, xs: seq<Ptr>, e: Ptr, k: Ptr)
    requires TotalPreorder(o.cmp) && o.Same(e, k)
    requires forall i :: 0 <= i < |xs| ==> o.Before(xs[i], e)
    ensures Class(o, xs, k) == []
  {
    forall i | 0 <= i < |xs| ensures !o.Same(xs[i], k) {
      OrderLaws(o, xs[i], k, e);
      OrderLaws(o, e, k, xs[i]);
    }
    ClassEmpty(o, xs, k);
  }

  lemma Regroup(a: seq<Ptr>, b: seq<Ptr>, c: seq<Ptr>)
    requires a == [] || b == []
    ensures (a + b) + c == b + (a + c)
  {
  }

  /** A new element linked behind strictly earlier ones comes first in its own class. */
  lemma InsertClass(o: Order, xs: seq<Ptr>, ys: seq<Ptr>, e: Ptr, k: Ptr)
    requires TotalPreorder(o.cmp)
    requires forall i :: 0 <= i < |xs| ==> o.Before(xs[i], e)
    ensures Class(o, xs + [e] + ys, k) == Class(o, [e], k) + Class(o, xs + ys, k)
  {
    ClassConcat(o, xs + [e], ys, k);
    ClassConcat(o, xs, [e], k);
    ClassConcat(o, xs, ys, k);
    if o.Same(e, k) {
      EarlierNotInClass(o, xs, e, k);
    } else {
      ClassEmpty(o, [e], k);
    }
    Regroup(Class(o, xs, k), Class(o, [e], k), Class(o, ys, k));
  }

  /** Inserting e into a stable sort gives the stable sort of the input with e put in front. */
  lemma InsertKeepsStableSort(o: Order, r: seq<Ptr>, input: seq<Ptr>, e: Ptr)
    requires TotalPreorder(o.cmp) && IsStableSort(o, r, input)
    ensures IsStableSort(o, InsertSorted(o, r, e), [e] + input)
  {
    InsertKeepsSorted(o, r, e);
    var p := InsertIndex(o, r, e);
    InsertIndexIsLowerBound(o, r, e, p);
    forall k ensures Class(o, InsertSorted(o, r, e), k) == Class(o, [e] + input, k) {
      InsertClass(o, r[..p], r[p..], e, k);
      assert r[..p] + r[p..] == r;
      ClassConcat(o, [e], input, k);
      assert Class(o, r, k) == Class(o, input, k);
    }
  }

  /** xs without its first occurrence of x. */
  function RemoveFirst(xs: seq<Ptr>, x: Ptr): (r: seq<Ptr>)
    ensures multiset(r) == multiset(xs) - multiset{x}
  {
    if xs == [] then []
    else
      assert xs == [xs[0]] + xs[1..];
      if xs[0] == x then xs[1..] else [xs[0]] + RemoveFirst(xs[1..], x)
  }

  lemma {:induction false} RemoveFirstClass(o: Order, xs: seq<Ptr>, x: Ptr, k: Ptr)
    requires o.Same(x, k) ==> Class(o, xs, k) != [] && Class(o, xs, k)[0] == x
    ensures Class(o, RemoveFirst(xs, x), k) == if o.Same(x, k) then Class(o, xs, k)[1..] else Class(o, xs, k)
  {
    if xs != [] && xs[0] != x {
      assert !(o.Same(x, k) && o.Same(xs[0], k));
      RemoveFirstClass(o, xs[1..], x, k);
      var r := RemoveFirst(xs, x);
      assert r[1..] == RemoveFirst(xs[1..], x);
    }
  }

  /** Removing the head of a stable sort gives the stable sort of the input without it. */
  lemma PopKeepsStableSort(o: Order, r: seq<Ptr>, input: seq<Ptr>)
    requires TotalPreorder(o.cmp) && IsStableSort(o, r, input) && r != []
    ensures IsStableSort(o, r[1..], RemoveFirst(input, r[0]))
  {
    forall k ensures Class(o, r[1..], k) == Class(o, RemoveFirst(input, r[0]), k) {
      assert Class(o, r, k) == Class(o, input, k);
      RemoveFirstClass(o, input, r[0], k);
    }
  }
}
