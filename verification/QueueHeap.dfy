/** The queue's linked list: head pointer, tail pointer, count, and the methods that relink
    its nodes. Every method is one section run under the mutex and is proved against the
    section functions of QueueSpec. */
module QueueHeap {
  import opened Ordering
  import opened QueueSpec

  /** A comparison callback as passed by the caller, which may be NULL. */
  datatype Callback = NullCmp | Cmp(f: Comparator)

  class Element {
    var data: Ptr
    var next: Element?

    constructor (data: Ptr)
      ensures this.data == data && next == null
    {
      this.data := data;
      next := null;
    }
  }

  ghost function NodeAt(ns: seq<Element>, i: nat): Element? {
    if i < |ns| then ns[i] else null
  }

  ghost predicate Distinct(ns: seq<Element>) {
    forall j, k :: 0 <= j < k < |ns| ==> ns[j] != ns[k]
  }

  /** Every node points to the next one, and the last one to NULL. */
  ghost predicate Chained(ns: seq<Element>)
    reads ns`next
  {
    forall k {:trigger ns[k].next} :: 0 <= k < |ns| ==> ns[k].next == NodeAt(ns, k + 1)
  }

  /** The nodes carry these elements. */
  ghost predicate Carries(ns: seq<Element>, xs: seq<Ptr>)
    reads ns`data
  {
    |xs| == |ns| && forall k {:trigger ns[k].data} {:trigger xs[k]} :: 0 <= k < |ns| ==> ns[k].data == xs[k]
  }

  /** s with x put at index p. */
  ghost function Spliced<T>(s: seq<T>, p: nat, x: T): seq<T>
    requires p <= |s|
  {
    s[..p] + [x] + s[p..]
  }

  /** r is ns with n put at index p, node by node. */
  ghost predicate Grown(r: seq<Element>, ns: seq<Element>, p: nat, n: Element) {
    && |r| == |ns| + 1 && p <= |ns| && r[p] == n
    && (forall k :: 0 <= k < p ==> r[k] == ns[k])
    && (forall k :: p < k < |r| ==> r[k] == ns[k - 1])
  }

  lemma Grow(ns: seq<Element>, xs: seq<Ptr>, p: nat, n: Element) returns (r: seq<Element>)
    requires Distinct(ns) && Carries(ns, xs) && p <= |ns| && n !in ns
    ensures Grown(r, ns, p, n) && Distinct(r) && Carries(r, Spliced(xs, p, n.data))
  {
    r := Spliced(ns, p, n);
  }

  /** Redirecting the node at i to n, and n to its old successor, puts n into the chain. */
  lemma SplicedIsChained(ns: seq<Element>, r: seq<Element>, i: nat, n: Element)
    requires i < |ns| && Grown(r, ns, i + 1, n)
    requires ns[i].next == n && n.next == NodeAt(ns, i + 1)
    requires forall k {:trigger ns[k].next} :: 0 <= k < |ns| && k != i ==> ns[k].next == NodeAt(ns, k + 1)
    ensures Chained(r)
  {
    forall k | 0 <= k < |r| ensures r[k].next == NodeAt(r, k + 1) {
      if k <= i {
        assert r[k] == ns[k];
      } else if i + 1 < k {
        assert r[k] == ns[k - 1];
      }
    }
  }

  lemma InsertSortedSplices(o: Order, xs: seq<Ptr>, e: Ptr)
    ensures InsertSorted(o, xs, e) == Spliced(xs, InsertIndex(o, xs, e), e)
  {
  }

  lemma GrownMembers(r: seq<Element>, ns: seq<Element>, p: nat, n: Element)
    requires Grown(r, ns, p, n)
    ensures forall x :: x in r ==> x == n || x in ns
  {
  }

  class Queue {
    var mUsedFirstElement: Element?
    var mUsedLastElement: Element?
    var mUsedElementCnts: uint32
    var mCapability: uint32
    var mAllowedNewData: bool
    var mSort: bool
    var mAscendingOrder: bool
    var cmpEleFun: Callback

    /** The chain of nodes from the head pointer. */
    ghost var nodes: seq<Element>
    /** The elements the chain carries. */
    ghost var Contents: seq<Ptr>

    /** The chain starts at the head pointer, ends at the tail pointer, and its length is the
        count, which is within the capability. */
    ghost predicate Valid()
      reads this, nodes
    {
      && Distinct(nodes) && Chained(nodes) && Carries(nodes, Contents)
      && 0 < mCapability
      && mUsedElementCnts == |nodes| <= mCapability
      && mUsedFirstElement == NodeAt(nodes, 0)
      && mUsedLastElement == (if nodes == [] then null else nodes[|nodes| - 1])
      && (mSort ==> cmpEleFun.Cmp?)
    }

    ghost function TheMode(): Mode
      reads this`mSort, this`mAscendingOrder, this`cmpEleFun
    {
      if mSort && cmpEleFun.Cmp? then Sorting(Order(mAscendingOrder, cmpEleFun.f)) else Fifo
    }

    /** The queue as QueueSpec sees it. */
    ghost function Abs(): QState
      reads this
    {
      QState(mCapability, TheMode(), Contents, mAllowedNewData)
    }

    // ---- the four constructors ----

    constructor ()
      ensures Valid() && nodes == []
      ensures Abs() == QState(INT32_MAX - 1, Fifo, [], true)
    {
      mUsedFirstElement, mUsedLastElement, mUsedElementCnts := null, null, 0;
      mCapability, mAllowedNewData := INT32_MAX - 1, true;
      mSort, mAscendingOrder, cmpEleFun := false, true, NullCmp;
      nodes, Contents := [], [];
    }

    constructor Bounded(maxElement: uint32)
      ensures Valid() && nodes == []
      ensures Abs() == QState(if maxElement > 0 then maxElement else INT32_MAX - 1, Fifo, [], true)
    {
      mUsedFirstElement, mUsedLastElement, mUsedElementCnts := null, null, 0;
      mCapability, mAllowedNewData := INT32_MAX - 1, true;
      mSort, mAscendingOrder, cmpEleFun := false, true, NullCmp;
      nodes, Contents := [], [];
      if maxElement > 0 {
        mCapability := maxElement;
      }
    }

    /** A NULL callback is no error here: it gives an unsorted queue. */
    constructor Sorted(ascendingOrder: bool, cmp: Callback)
      ensures Valid() && nodes == []
      ensures Abs() == QState(INT32_MAX - 1,
                              if cmp.Cmp? then Sorting(Order(ascendingOrder, cmp.f)) else Fifo, [], true)
    {
      mUsedFirstElement, mUsedLastElement, mUsedElementCnts := null, null, 0;
      mCapability, mAllowedNewData := INT32_MAX - 1, true;
      mSort, mAscendingOrder, cmpEleFun := false, true, NullCmp;
      nodes, Contents := [], [];
      if cmp.Cmp? {
        mSort, mAscendingOrder, cmpEleFun := true, ascendingOrder, cmp;
      }
    }

    constructor BoundedSorted(maxElement: uint32, ascendingOrder: bool, cmp: Callback)
      ensures Valid() && nodes == []
      ensures Abs() == QState(if maxElement > 0 then maxElement else INT32_MAX - 1,
                              if cmp.Cmp? then Sorting(Order(ascendingOrder, cmp.f)) else Fifo, [], true)
    {
      mUsedFirstElement, mUsedLastElement, mUsedElementCnts := null, null, 0;
      mCapability, mAllowedNewData := INT32_MAX - 1, true;
      mSort, mAscendingOrder, cmpEleFun := false, true, NullCmp;
      nodes, Contents := [], [];
      if maxElement > 0 {
        mCapability := maxElement;
      }
      if cmp.Cmp? {
        mSort, mAscendingOrder, cmpEleFun := true, ascendingOrder, cmp;
      }
    }

    // ---- push ----

    /** Counts one more node: the chain is r now and carries xs. */
    method Adopt(ghost r: seq<Element>, ghost xs: seq<Ptr>)
      requires 0 < |r| <= mCapability && mUsedElementCnts + 1 == |r|
      requires Distinct(r) && Chained(r) && Carries(r, xs)
      requires mUsedFirstElement == r[0] && mUsedLastElement == r[|r| - 1]
      requires mSort ==> cmpEleFun.Cmp?
      modifies this`mUsedElementCnts, this`nodes, this`Contents
      ensures Valid() && TheMode() == old(TheMode()) && nodes == r && Contents == xs
    {
      nodes, Contents := r, xs;
      mUsedElementCnts := mUsedElementCnts + 1;
    }

    /** Links a new node behind the last one. */
    method LinkLast(newEle: Element)
      requires Valid() && |nodes| < mCapability
      requires newEle !in nodes && newEle.next == null
      modifies this`mUsedFirstElement, this`mUsedLastElement, this`mUsedElementCnts, this`nodes, this`Contents, nodes
      ensures Valid() && TheMode() == old(TheMode()) && Grown(nodes, old(nodes), |old(nodes)|, newEle)
      ensures Contents == Spliced(old(Contents), |old(Contents)|, newEle.data)
    {
      ghost var r := Grow(nodes, Contents, |nodes|, newEle);
      if mUsedLastElement == null {
        mUsedFirstElement := newEle;
      } else {
        mUsedLastElement.next := newEle;
      }
      mUsedLastElement := newEle;
      Adopt(r, Spliced(Contents, |Contents|, newEle.data));
    }

    /** Links a new node in front of the first one. */
    method LinkFirst(newEle: Element)
      requires Valid() && 0 < |nodes| < mCapability
      requires newEle !in nodes
      modifies this`mUsedFirstElement, this`mUsedElementCnts, this`nodes, this`Contents, newEle`next
      ensures Valid() && TheMode() == old(TheMode()) && Grown(nodes, old(nodes), 0, newEle)
      ensures Contents == Spliced(old(Contents), 0, newEle.data)
    {
      ghost var r := Grow(nodes, Contents, 0, newEle);
      newEle.next := mUsedFirstElement;
      mUsedFirstElement := newEle;
      Adopt(r, Spliced(Contents, 0, newEle.data));
    }

    /** Links a new node between s and its successor t, which is NULL when s is the last. */
    method LinkAfter(s: Element, t: Element?, newEle: Element, ghost i: nat)
      requires Valid() && i < |nodes| < mCapability
      requires s == nodes[i] && t == NodeAt(nodes, i + 1)
      requires newEle !in nodes
      modifies this`mUsedLastElement, this`mUsedElementCnts, this`nodes, this`Contents, s`next, newEle`next
      ensures Valid() && TheMode() == old(TheMode()) && Grown(nodes, old(nodes), i + 1, newEle)
      ensures Contents == Spliced(old(Contents), i + 1, newEle.data)
    {
      ghost var r := Grow(nodes, Contents, i + 1, newEle);
      s.next := newEle;
      newEle.next := t;
      if t == null {
        mUsedLastElement := newEle;
      }
      SplicedIsChained(nodes, r, i, newEle);
      Adopt(r, Spliced(Contents, i + 1, newEle.data));
    }

    /** The walk of s and t: it stops where WalkFrom says. */
    method FindPlace(ele: Ptr) returns (s: Element, t: Element?, ghost i: nat)
      requires Valid() && nodes != [] && mSort
      ensures i < |nodes| && s == nodes[i] && t == NodeAt(nodes, i + 1)
      ensures i == WalkFrom(TheMode().order, Contents, ele, 0)
    {
      var cmp := cmpEleFun.f;
      s, i := mUsedFirstElement, 0;
      t := s.next;
      while t != null
        invariant i < |nodes| && s == nodes[i] && t == NodeAt(nodes, i + 1)
        invariant WalkFrom(TheMode().order, Contents, ele, 0) == WalkFrom(TheMode().order, Contents, ele, i)
        decreases |nodes| - i
      {
        if mAscendingOrder && cmp(s.data, ele) <= 0 && cmp(ele, t.data) <= 0 {
          break;
        } else if !mAscendingOrder && cmp(s.data, ele) >= 0 && cmp(ele, t.data) >= 0 {
          break;
        }
        s, t, i := t, t.next, i + 1;
      }
    }

    /** Links a new node where the walk stops. */
    method LinkByWalk(newEle: Element)
      requires Valid() && 0 < |nodes| < mCapability && mSort
      requires newEle !in nodes
      modifies this`mUsedLastElement, this`mUsedElementCnts, this`nodes, this`Contents, nodes, newEle`next
      ensures Valid() && TheMode() == old(TheMode()) && TheMode().Sorting?
      ensures var p := WalkFrom(TheMode().order, old(Contents), newEle.data, 0) + 1;
              Grown(nodes, old(nodes), p, newEle) && Contents == Spliced(old(Contents), p, newEle.data)
    {
      var s, t, i := FindPlace(newEle.data);
      LinkAfter(s, t, newEle, i);
    }

    /** The sorted insertion: the head test, then the walk. */
    method LinkSorted(newEle: Element)
      requires Valid() && 0 < |nodes| < mCapability && mSort
      requires newEle !in nodes
      modifies this`mUsedFirstElement, this`mUsedLastElement, this`mUsedElementCnts, this`nodes, this`Contents, nodes, newEle`next
      ensures Valid() && TheMode() == old(TheMode()) && TheMode().Sorting?
      ensures Grown(nodes, old(nodes), InsertIndex(TheMode().order, old(Contents), newEle.data), newEle)
      ensures Contents == InsertSorted(TheMode().order, old(Contents), newEle.data)
    {
      var cmp, ele := cmpEleFun.f, newEle.data;
      var ascFirst := mAscendingOrder && cmp(mUsedFirstElement.data, ele) >= 0;
      var descFirst := !mAscendingOrder && cmp(mUsedFirstElement.data, ele) <= 0;
      InsertSortedSplices(TheMode().order, Contents, ele);
      if !ascFirst && !descFirst {
        LinkByWalk(newEle);
      } else {
        LinkFirst(newEle);
      }
    }

    /** Links a new node where the queue's mode wants it. */
    method LinkNew(newEle: Element)
      requires Valid() && |nodes| < mCapability
      requires newEle !in nodes && newEle.next == null
      modifies this`mUsedFirstElement, this`mUsedLastElement, this`mUsedElementCnts, this`nodes, this`Contents, nodes, newEle`next
      ensures Valid() && forall n :: n in nodes ==> n == newEle || n in old(nodes)
      ensures Contents == Linked(TheMode(), old(Contents), newEle.data)
    {
      if !mSort || mUsedFirstElement == null {
        LinkLast(newEle);
        GrownMembers(nodes, old(nodes), |old(nodes)|, newEle);
      } else {
        LinkSorted(newEle);
        GrownMembers(nodes, old(nodes), InsertIndex(TheMode().order, old(Contents), newEle.data), newEle);
      }
    }

    /** Allocation and linking; memory tells whether calloc succeeds. */
    method PushCommit(ele: Ptr, memory: bool) returns (out: Outcome, wake: Wake)
      requires Valid() && |nodes| < mCapability
      modifies this, nodes
      ensures Valid()
      ensures Section(Abs(), out, NULL, wake) == QueueSpec.PushCommit(old(Abs()), ele, memory)
      ensures forall n :: n in nodes ==> n in old(nodes) || fresh(n)
    {
      if !memory {
        return Return(Q_ERR_MEM), NoWake;
      }
      var newEle := new Element(ele);
      LinkNew(newEle);
      return Return(Q_OK), WakeGet;
    }

    /** A waiting push from its loop's test up to its next sleep or its return. */
    method PushLoop(ele: Ptr, memory: bool) returns (out: Outcome, wake: Wake)
      requires Valid()
      modifies this, nodes
      ensures Valid()
      ensures Section(Abs(), out, NULL, wake) == QueueSpec.PushLoop(old(Abs()), ele, memory)
      ensures forall n :: n in nodes ==> n in old(nodes) || fresh(n)
    {
      if mUsedElementCnts == mCapability && mAllowedNewData {
        return Sleep, NoWake;
      }
      if !mAllowedNewData {
        return Return(Q_ERR_NONEWDATA), NoWake;
      }
      out, wake := PushCommit(ele, memory);
    }

    /** A push from its call up to its first sleep or its return. */
    method PushEnter(ele: Ptr, isWait: bool, memory: bool) returns (out: Outcome, wake: Wake)
      requires Valid()
      modifies this, nodes
      ensures Valid()
      ensures Section(Abs(), out, NULL, wake) == QueueSpec.PushEnter(old(Abs()), ele, isWait, memory)
      ensures forall n :: n in nodes ==> n in old(nodes) || fresh(n)
    {
      if !mAllowedNewData {
        return Return(Q_ERR_NONEWDATA), NoWake;
      }
      if mUsedElementCnts == mCapability {
        if !isWait {
          return Return(Q_ERR_NUM_ELEMENTS), NoWake;
        } else {
          out, wake := PushLoop(ele, memory);
          return;
        }
      }
      out, wake := PushCommit(ele, memory);
    }

    // ---- pop ----

    /** Unlinks the first node. The list's invariant makes the NULL case, which would be
        Q_ERR_INVALID_ELEMENT, impossible here. */
    method PopTake() returns (out: Outcome, e: Ptr, wake: Wake)
      requires Valid() && mUsedElementCnts != 0
      modifies this
      ensures Valid() && nodes == old(nodes)[1..]
      ensures Section(Abs(), out, e, wake) == QueueSpec.PopTake(old(Abs()))
    {
      var ele := mUsedFirstElement;
      assert ele != null;
      e := ele.data;
      mUsedFirstElement := mUsedFirstElement.next;
      mUsedElementCnts := mUsedElementCnts - 1;
      if mUsedFirstElement == null {
        mUsedLastElement := null;
      }
      nodes, Contents := nodes[1..], Contents[1..];
      out, wake := Return(Q_OK), WakePut;
    }

    /** A waiting pop from its loop's test up to its next sleep or its return. */
    method PopLoop() returns (out: Outcome, e: Ptr, wake: Wake)
      requires Valid()
      modifies this
      ensures Valid() && forall n :: n in nodes ==> n in old(nodes)
      ensures Section(Abs(), out, e, wake) == QueueSpec.PopLoop(old(Abs()))
    {
      if mUsedElementCnts == 0 && mAllowedNewData {
        return Sleep, NULL, NoWake;
      }
      if mUsedElementCnts == 0 && !mAllowedNewData {
        return Return(Q_ERR_NONEWDATA), NULL, NoWake;
      }
      out, e, wake := PopTake();
    }

    /** A pop from its call up to its first sleep or its return. */
    method PopEnter(isWait: bool) returns (out: Outcome, e: Ptr, wake: Wake)
      requires Valid()
      modifies this
      ensures Valid() && forall n :: n in nodes ==> n in old(nodes)
      ensures Section(Abs(), out, e, wake) == QueueSpec.PopEnter(old(Abs()), isWait)
    {
      if mUsedElementCnts == 0 {
        if !isWait {
          return Return(Q_ERR_NUM_ELEMENTS), NULL, NoWake;
        } else {
          out, e, wake := PopLoop();
          return;
        }
      }
      out, e, wake := PopTake();
    }

    // ---- the rest of the interface ----

    /** The walk to position pos; e stays NULL when there is no such element. */
    method Peek(pos: int32) returns (ret: int32, e: Ptr)
      requires Valid()
      ensures (ret, e) == PeekAt(Contents, pos)
    {
      e := NULL;
      if mUsedElementCnts == 0 {
        return Q_ERR_INVALID_ELEMENT, e;
      }
      var ele := mUsedFirstElement;
      var elePos := 0;
      while ele != null && elePos < pos
        invariant 0 <= elePos <= |nodes| && ele == NodeAt(nodes, elePos)
        invariant elePos == 0 || elePos <= pos
        decreases |nodes| - elePos
      {
        ele := ele.next;
        elePos := elePos + 1;
      }
      if ele == null {
        return Q_ERR_INVALID_ELEMENT, e;
      }
      return Q_OK, ele.data;
    }

    /** Removes everything; told is what the callback, if there is one, was called with. */
    method Flush(callback: bool) returns (ret: int32, told: seq<Ptr>)
      requires Valid()
      modifies this
      ensures Valid() && nodes == [] && ret == Q_OK
      ensures Abs() == Flushed(old(Abs()))
      ensures told == if callback then old(Contents) else []
    {
      told := [];
      ghost var i := 0;
      while mUsedFirstElement != null
        invariant 0 <= i <= |nodes| && mUsedFirstElement == NodeAt(nodes, i)
        invariant nodes == old(nodes) && Contents == old(Contents)
        invariant told == if callback then Contents[..i] else []
        decreases |nodes| - i
        modifies this`mUsedFirstElement
      {
        var ele := mUsedFirstElement;
        mUsedFirstElement := mUsedFirstElement.next;
        if callback {
          assert Contents[..i + 1] == Contents[..i] + [ele.data];
          told := told + [ele.data];
        }
        i := i + 1;
      }
      assert callback ==> told == old(Contents);
      mUsedFirstElement, mUsedLastElement, mUsedElementCnts := null, null, 0;
      nodes, Contents := [], [];
      ret := Q_OK;
    }

    /** The count, converted to a signed 32-bit integer on return. */
    method GetCnt() returns (cnt: int32)
      requires Valid()
      ensures cnt == |Contents| <==> |Contents| <= INT32_MAX
      ensures (|Contents| - cnt) % (UINT32_MAX + 1) == 0
      ensures cnt == 0 <==> Contents == []
    {
      cnt := if mUsedElementCnts <= INT32_MAX then mUsedElementCnts else mUsedElementCnts - UINT32_MAX - 1;
    }

    method IsEmpty() returns (empty: bool)
      requires Valid()
      ensures empty <==> Contents == []
    {
      if mUsedFirstElement == null || mUsedLastElement == null {
        empty := true;
      } else {
        empty := false;
      }
    }

    /** The locked part of setAllowedNewData; its unlocked broadcasts are steps of QueueMonitor. */
    method SetAllowed(allowed: bool)
      requires Valid()
      modifies this
      ensures Valid() && Abs() == old(Abs()).(allowed := allowed)
    {
      mAllowedNewData := allowed;
    }
  }
}
