/** What one locked section of the queue does to the queue's contents, as functions.

    The linked list of QueueHeap refines these functions, and the threads of QueueMonitor
    take their steps by them. A waiting push or pop holds the mutex for several sections:
    one from its call up to pthread_cond_wait or return, and one after each wake-up. */
module QueueSpec {
  import opened Ordering

  const UINT32_MAX := 0xFFFF_FFFF
  const INT32_MAX := 0x7FFF_FFFF

  type uint32 = x: int | 0 <= x <= UINT32_MAX
  type int32 = x: int | -0x8000_0000 <= x <= INT32_MAX

  const Q_OK: int32 := 0
  const Q_ERR_MEM: int32 := -3
  const Q_ERR_NONEWDATA: int32 := -4
  const Q_ERR_INVALID_ELEMENT: int32 := -5
  const Q_ERR_NUM_ELEMENTS: int32 := -7

  /** How a queue arranges its elements. */
  datatype Mode = Fifo | Sorting(order: Order)

  datatype QState = QState(cap: nat, mode: Mode, items: seq<Ptr>, allowed: bool) {

    predicate Valid() {
      0 < cap <= UINT32_MAX && |items| <= cap
    }

    /** The queue is full and still open: the condition of the producer's wait loop. */
    predicate MustWaitPut() {
      |items| == cap && allowed
    }

    /** The queue is empty and still open: the condition of the consumer's wait loop. */
    predicate MustWaitGet() {
      |items| == 0 && allowed
    }
  }

  /** The contents after ele has been linked in. */
  function Linked(mode: Mode, items: seq<Ptr>, ele: Ptr): (r: seq<Ptr>)
    ensures |r| == |items| + 1
  {
    match mode
    case Fifo => items + [ele]
    case Sorting(o) => InsertSorted(o, items, ele)
  }

  /** How a section ends: asleep on its condition variable, or returning a code. */
  datatype Outcome = Sleep | Return(code: int32)

  /** The condition variable a section signals before it releases the mutex. */
  datatype Wake = NoWake | WakeGet | WakePut

  datatype Section = Section(q: QState, out: Outcome, e: Ptr, wake: Wake)

  // ---- push ----

  /** Allocation and linking; memory tells whether calloc succeeds. */
  function PushCommit(q: QState, ele: Ptr, memory: bool): Section {
    if !memory then Section(q, Return(Q_ERR_MEM), NULL, NoWake)
    else Section(q.(items := Linked(q.mode, q.items, ele)), Return(Q_OK), NULL, WakeGet)
  }

  /** From the wait loop's test on. */
  function PushLoop(q: QState, ele: Ptr, memory: bool): Section {
    if q.MustWaitPut() then Section(q, Sleep, NULL, NoWake)
    else if !q.allowed then Section(q, Return(Q_ERR_NONEWDATA), NULL, NoWake)
    else PushCommit(q, ele, memory)
  }

  function PushEnter(q: QState, ele: Ptr, isWait: bool, memory: bool): Section {
    if !q.allowed then Section(q, Return(Q_ERR_NONEWDATA), NULL, NoWake)
    else if |q.items| == q.cap && !isWait then Section(q, Return(Q_ERR_NUM_ELEMENTS), NULL, NoWake)
    else PushLoop(q, ele, memory)
  }

  // ---- pop ----

  function PopTake(q: QState): Section
    requires q.items != []
  {
    Section(q.(items := q.items[1..]), Return(Q_OK), q.items[0], WakePut)
  }

  /** From the wait loop's test on. */
  function PopLoop(q: QState): Section {
    if q.MustWaitGet() then Section(q, Sleep, NULL, NoWake)
    else if |q.items| == 0 then Section(q, Return(Q_ERR_NONEWDATA), NULL, NoWake)
    else PopTake(q)
  }

  function PopEnter(q: QState, isWait: bool): Section {
    if |q.items| == 0 && !isWait then Section(q, Return(Q_ERR_NUM_ELEMENTS), NULL, NoWake)
    else PopLoop(q)
  }

  // ---- peek and flush ----

  function PeekAt(items: seq<Ptr>, pos: int): (int32, Ptr) {
    var i := if pos < 0 then 0 else pos;
    if i < |items| then (Q_OK, items[i]) else (Q_ERR_INVALID_ELEMENT, NULL)
  }

  function Flushed(q: QState): QState {
    q.(items := [])
  }

  // ---- what the sections promise ----

  /** The queue after n non-waiting pops. */
  function PopMany(q: QState, n: nat): QState
    decreases n
  {
    if n == 0 then q else PopMany(PopEnter(q, false).q, n - 1)
  }

  lemma {:induction false} PopManyDrops(q: QState, n: nat)
    ensures PopMany(q, n) == q.(items := if n <= |q.items| then q.items[n..] else [])
    decreases n
  {
    if n != 0 {
      var r := PopEnter(q, false).q;
      PopManyDrops(r, n - 1);
      if n <= |q.items| {
        assert q.items[1..][n - 1..] == q.items[n..];
      }
    }
  }

  /** peek(k) is what the (k+1)-th of successive pops returns: the same element, and failure
      for exactly the same k. A negative position peeks at the next element to be popped. */
  lemma PeekPredictsPop(q: QState, pos: int)
    ensures var k := if pos < 0 then 0 else pos;
            var pop := PopEnter(PopMany(q, k), false);
            && PeekAt(q.items, pos).1 == pop.e
            && (PeekAt(q.items, pos).0 == Q_OK <==> pop.out == Return(Q_OK))
            && (PeekAt(q.items, pos).0 == Q_ERR_INVALID_ELEMENT <==> pop.out == Return(Q_ERR_NUM_ELEMENTS))
  {
    PopManyDrops(q, if pos < 0 then 0 else pos);
  }

  /** What successive popAndWait calls return on a closed queue, up to the first failure. */
  function DrainClosed(q: QState): (seq<Ptr>, int32)
    requires !q.allowed
    decreases |q.items|
  {
    var s := PopEnter(q, true);
    if s.out == Return(Q_OK) then
      var (es, code) := DrainClosed(s.q);
      ([s.e] + es, code)
    else
      ([], s.out.code)
  }

  /** A closed queue hands out everything it holds, in order, before it reports that no new
      data will come. */
  lemma {:induction false} DrainClosedIsComplete(q: QState)
    requires !q.allowed
    ensures DrainClosed(q) == (q.items, Q_ERR_NONEWDATA)
    decreases |q.items|
  {
    if q.items != [] {
      DrainClosedIsComplete(PopEnter(q, true).q);
      assert q.items == [q.items[0]] + q.items[1..];
    }
  }

  /** A push succeeds exactly when the queue is open, has room and memory, and then signals a
      consumer; otherwise the contents stay, nobody is signalled, and the code tells which of
      the three was missing. It sleeps only when asked to. */
  lemma PushOutcome(q: QState, ele: Ptr, isWait: bool, memory: bool)
    requires q.Valid()
    ensures var s := PushEnter(q, ele, isWait, memory);
            && s.q.Valid() && s.q.(items := q.items) == q && s.e == NULL
            && (s.out == Return(Q_OK) <==> q.allowed && |q.items| < q.cap && memory)
            && (s.out == Return(Q_OK) ==> multiset(s.q.items) == multiset(q.items) + multiset{ele} && s.wake == WakeGet)
            && (s.out != Return(Q_OK) ==> s.q == q && s.wake == NoWake)
            && (s.out == Return(Q_ERR_NONEWDATA) <==> !q.allowed)
            && (s.out == Return(Q_ERR_NUM_ELEMENTS) <==> q.allowed && |q.items| == q.cap && !isWait)
            && (s.out == Return(Q_ERR_MEM) <==> q.allowed && |q.items| < q.cap && !memory)
            && (s.out == Sleep <==> isWait && q.MustWaitPut())
  {
    if q.mode.Sorting? {
      var p := InsertIndex(q.mode.order, q.items, ele);
      assert q.items == q.items[..p] + q.items[p..];
      assert multiset(InsertSorted(q.mode.order, q.items, ele)) == multiset(q.items) + multiset{ele};
    }
  }

  /** A pop succeeds exactly when there is an element: it hands out the head and signals a
      producer. Otherwise it hands out NULL, the contents stay, nobody is signalled, and the code
      tells why. It sleeps only when asked to. */
  lemma PopOutcome(q: QState, isWait: bool)
    ensures var s := PopEnter(q, isWait);
            && (s.out == Return(Q_OK) <==> q.items != [])
            && (s.out == Return(Q_OK) ==> [s.e] + s.q.items == q.items && s.q.(items := q.items) == q && s.wake == WakePut)
            && (s.out != Return(Q_OK) ==> s.q == q && s.e == NULL && s.wake == NoWake)
            && (s.out == Return(Q_ERR_NUM_ELEMENTS) <==> q.items == [] && !isWait)
            && (s.out == Return(Q_ERR_NONEWDATA) <==> q.items == [] && isWait && !q.allowed)
            && (s.out == Sleep <==> isWait && q.MustWaitGet())
            && s.out in {Return(Q_OK), Return(Q_ERR_NUM_ELEMENTS), Return(Q_ERR_NONEWDATA), Sleep}
  {
  }

  /** A push or pop that resumes from its wait does what a fresh call with the same arguments
      would do: a barging thread and a woken one are served alike. */
  lemma ResumeIsReentry(q: QState, ele: Ptr, memory: bool)
    ensures PushLoop(q, ele, memory) == PushEnter(q, ele, true, memory)
    ensures PopLoop(q) == PopEnter(q, true)
  {
  }
}
