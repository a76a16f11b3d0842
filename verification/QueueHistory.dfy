/** What the contents of the queue are, in terms of everything that was ever accepted and
    removed, in the order in which the mutex was held. */
module QueueHistory {
  import opened Ordering
  import opened QueueSpec
  import opened QueueMonitor

  ghost function AcceptedOf(log: seq<Event>): seq<Ptr> {
    if log == [] then []
    else
      var last := log[|log| - 1];
      AcceptedOf(log[..|log| - 1]) + (if last.Accepted? then [last.p] else [])
  }

  ghost function RemovedOf(log: seq<Event>): seq<Ptr> {
    if log == [] then []
    else
      var last := log[|log| - 1];
      RemovedOf(log[..|log| - 1]) + (if last.Removed? then [last.p] else [])
  }

  /** The accepted elements that have not been removed, latest push first. A removal takes away
      the latest surviving push of that very pointer. */
  ghost function Survivors(log: seq<Event>): seq<Ptr> {
    if log == [] then []
    else
      var last, before := log[|log| - 1], Survivors(log[..|log| - 1]);
      if last.Accepted? then [last.p] + before else RemoveFirst(before, last.p)
  }

  lemma LogSnoc(log: seq<Event>, e: Event)
    ensures AcceptedOf(log + [e]) == AcceptedOf(log) + (if e.Accepted? then [e.p] else [])
    ensures RemovedOf(log + [e]) == RemovedOf(log) + (if e.Removed? then [e.p] else [])
    ensures Survivors(log + [e]) == if e.Accepted? then [e.p] + Survivors(log) else RemoveFirst(Survivors(log), e.p)
  {
    assert (log + [e])[..|log|] == log;
  }

  /** An unsorted queue holds what was accepted and not yet removed, first in first out. */
  ghost predicate FifoHistory(items: seq<Ptr>, log: seq<Event>) {
    AcceptedOf(log) == RemovedOf(log) + items
  }

  /** Nothing is lost, duplicated or made up, whatever the mode. */
  ghost predicate Conserved(items: seq<Ptr>, log: seq<Event>) {
    multiset(AcceptedOf(log)) == multiset(RemovedOf(log)) + multiset(items)
  }

  /** A sorted queue holds the stable sort of the surviving pushes, latest first. */
  ghost predicate SortedHistory(o: Order, items: seq<Ptr>, log: seq<Event>) {
    IsStableSort(o, items, Survivors(log))
  }

  ghost predicate HistoryHolds(mode: Mode, items: seq<Ptr>, log: seq<Event>) {
    && Conserved(items, log)
    && (mode.Fifo? ==> FifoHistory(items, log))
    && (mode.Sorting? && TotalPreorder(mode.order.cmp) ==> SortedHistory(mode.order, items, log))
  }

  lemma LinkedAddsOne(mode: Mode, items: seq<Ptr>, e: Ptr)
    ensures multiset(Linked(mode, items, e)) == multiset(items) + multiset{e}
  {
    if mode.Sorting? {
      var p := InsertIndex(mode.order, items, e);
      assert items == items[..p] + items[p..];
      assert multiset(items) == multiset(items[..p]) + multiset(items[p..]);
    }
  }

  lemma HeadIsOne(items: seq<Ptr>, rem: seq<Ptr>)
    requires items != []
    ensures multiset(rem + [items[0]]) + multiset(items[1..]) == multiset(rem) + multiset(items)
    ensures rem + [items[0]] + items[1..] == rem + items
  {
    assert items == [items[0]] + items[1..];
  }

  lemma PushKeepsConserved(mode: Mode, items: seq<Ptr>, log: seq<Event>, e: Ptr)
    requires Conserved(items, log)
    ensures Conserved(Linked(mode, items, e), log + [Accepted(e)])
  {
    LogSnoc(log, Accepted(e));
    LinkedAddsOne(mode, items, e);
  }

  lemma PushKeepsFifo(items: seq<Ptr>, log: seq<Event>, e: Ptr)
    requires FifoHistory(items, log)
    ensures FifoHistory(items + [e], log + [Accepted(e)])
  {
    LogSnoc(log, Accepted(e));
    assert RemovedOf(log) + (items + [e]) == RemovedOf(log) + items + [e];
  }

  lemma PushKeepsSorted(o: Order, items: seq<Ptr>, log: seq<Event>, e: Ptr)
    requires SortedHistory(o, items, log) && TotalPreorder(o.cmp)
    ensures SortedHistory(o, InsertSorted(o, items, e), log + [Accepted(e)])
  {
    LogSnoc(log, Accepted(e));
    InsertKeepsStableSort(o, items, Survivors(log), e);
  }

  lemma PushKeepsHistory(mode: Mode, items: seq<Ptr>, log: seq<Event>, e: Ptr)
    requires HistoryHolds(mode, items, log)
    ensures HistoryHolds(mode, Linked(mode, items, e), log + [Accepted(e)])
  {
    PushKeepsConserved(mode, items, log, e);
    if mode.Fifo? {
      PushKeepsFifo(items, log, e);
    } else if TotalPreorder(mode.order.cmp) {
      PushKeepsSorted(mode.order, items, log, e);
    }
  }

  lemma PopKeepsConserved(items: seq<Ptr>, log: seq<Event>)
    requires Conserved(items, log) && items != []
    ensures Conserved(items[1..], log + [Removed(items[0])])
  {
    LogSnoc(log, Removed(items[0]));
    HeadIsOne(items, RemovedOf(log));
  }

  lemma PopKeepsFifo(items: seq<Ptr>, log: seq<Event>)
    requires FifoHistory(items, log) && items != []
    ensures FifoHistory(items[1..], log + [Removed(items[0])])
  {
    LogSnoc(log, Removed(items[0]));
    HeadIsOne(items, RemovedOf(log));
  }

  lemma PopKeepsSorted(o: Order, items: seq<Ptr>, log: seq<Event>)
    requires SortedHistory(o, items, log) && TotalPreorder(o.cmp) && items != []
    ensures SortedHistory(o, items[1..], log + [Removed(items[0])])
  {
    LogSnoc(log, Removed(items[0]));
    PopKeepsStableSort(o, items, Survivors(log));
  }

  lemma PopKeepsHistory(mode: Mode, items: seq<Ptr>, log: seq<Event>)
    requires HistoryHolds(mode, items, log) && items != []
    ensures HistoryHolds(mode, items[1..], log + [Removed(items[0])])
  {
    PopKeepsConserved(items, log);
    if mode.Fifo? {
      PopKeepsFifo(items, log);
    } else if TotalPreorder(mode.order.cmp) {
      PopKeepsSorted(mode.order, items, log);
    }
  }

  lemma AllRemovedHead(log: seq<Event>, items: seq<Ptr>)
    ensures items == [] ==> log + AllRemoved(items) == log
    ensures items != [] ==> log + AllRemoved(items) == log + [Removed(items[0])] + AllRemoved(items[1..])
  {
    if items != [] {
      assert AllRemoved(items) == [Removed(items[0])] + AllRemoved(items[1..]);
    }
  }

  /** Flushing is popping until nothing is left. */
  lemma {:induction false} FlushKeepsHistory(mode: Mode, items: seq<Ptr>, log: seq<Event>)
    requires HistoryHolds(mode, items, log)
    ensures HistoryHolds(mode, [], log + AllRemoved(items))
    decreases |items|
  {
    AllRemovedHead(log, items);
    if items != [] {
      PopKeepsHistory(mode, items, log);
      FlushKeepsHistory(mode, items[1..], log + [Removed(items[0])]);
    }
  }

  /** A section adds an element and logs it, takes the head and logs it, or does neither. */
  lemma SectionEffect(s: State, step: Step)
    requires Enabled(s, step)
    requires step.Push? || step.PushResume? || step.Pop? || step.PopResume?
    ensures var sec, logged := SectionOf(s, step), Logged(s, step, SectionOf(s, step));
            var e := if step.Push? then step.ele else if step.PushResume? then s.At(step.t).ele else NULL;
            if sec.out != Return(Q_OK) then sec.q == s.q && logged == []
            else if step.Push? || step.PushResume?
              then sec.q == s.q.(items := Linked(s.q.mode, s.q.items, e)) && logged == [Accepted(e)]
            else s.q.items != [] && sec.q == s.q.(items := s.q.items[1..]) && logged == [Removed(s.q.items[0])]
  {
  }

  lemma SectionKeepsHistory(s: State, step: Step)
    requires HistoryHolds(s.q.mode, s.q.items, s.log) && Enabled(s, step)
    requires step.Push? || step.PushResume? || step.Pop? || step.PopResume?
    ensures HistoryHolds(s.q.mode, SectionOf(s, step).q.items, s.log + Logged(s, step, SectionOf(s, step)))
  {
    SectionEffect(s, step);
    if SectionOf(s, step).out != Return(Q_OK) {
      assert s.log + [] == s.log;
    } else if step.Push? {
      PushKeepsHistory(s.q.mode, s.q.items, s.log, step.ele);
    } else if step.PushResume? {
      PushKeepsHistory(s.q.mode, s.q.items, s.log, s.At(step.t).ele);
    } else {
      PopKeepsHistory(s.q.mode, s.q.items, s.log);
    }
  }

  lemma StepKeepsHistory(s: State, step: Step)
    requires HistoryHolds(s.q.mode, s.q.items, s.log) && Enabled(s, step)
    ensures var r := Apply(s, step); r.q.mode == s.q.mode && HistoryHolds(s.q.mode, r.q.items, r.log)
  {
    if step.Flush? {
      FlushKeepsHistory(s.q.mode, s.q.items, s.log);
    } else if step.Push? || step.PushResume? || step.Pop? || step.PopResume? {
      SectionKeepsHistory(s, step);
    } else {
      assert Apply(s, step).q.items == s.q.items && Apply(s, step).log == s.log;
    }
  }

  lemma InitHistory(s: State)
    requires Init(s)
    ensures HistoryHolds(s.q.mode, s.q.items, s.log)
  {
  }

  lemma {:induction false} RunHistory(states: seq<State>, steps: seq<Step>, i: nat)
    requires IsRun(states, steps) && i < |states|
    ensures states[i].q.mode == states[0].q.mode
    ensures HistoryHolds(states[0].q.mode, states[i].q.items, states[i].log)
  {
    if i == 0 {
      InitHistory(states[0]);
    } else {
      RunHistory(states, steps, i - 1);
      StepKeepsHistory(states[i - 1], steps[i - 1]);
    }
  }

  /** First in, first out: over every run of an unsorted queue, the accepted pushes are the
      removed elements, in removal order, followed by the contents. */
  lemma FifoConservation(states: seq<State>, steps: seq<Step>, i: nat)
    requires IsRun(states, steps) && i < |states| && states[0].q.mode.Fifo?
    ensures AcceptedOf(states[i].log) == RemovedOf(states[i].log) + states[i].q.items
  {
    RunHistory(states, steps, i);
  }

  /** Over every run of every queue, whatever its comparator does, the accepted pushes are the
      removed elements and the contents, each as often as it was pushed. */
  lemma Conservation(states: seq<State>, steps: seq<Step>, i: nat)
    requires IsRun(states, steps) && i < |states|
    ensures multiset(AcceptedOf(states[i].log)) == multiset(RemovedOf(states[i].log)) + multiset(states[i].q.items)
  {
    RunHistory(states, steps, i);
  }

  /** Over every run of a sorted queue with a lawful comparator, the contents are the one
      stable sort of the surviving pushes taken latest first: in order, a permutation of the
      survivors, and equal keys last in first out. */
  lemma SortedRun(states: seq<State>, steps: seq<Step>, i: nat, r: seq<Ptr>)
    requires IsRun(states, steps) && i < |states|
    requires states[0].q.mode.Sorting? && TotalPreorder(states[0].q.mode.order.cmp)
    ensures IsStableSort(states[0].q.mode.order, r, Survivors(states[i].log)) <==> r == states[i].q.items
    ensures multiset(states[i].q.items) == multiset(Survivors(states[i].log))
  {
    RunHistory(states, steps, i);
    var o, items, input := states[0].q.mode.order, states[i].q.items, Survivors(states[i].log);
    StableSortPermutes(o, items, input);
    if IsStableSort(o, r, input) {
      StableSortUnique(o, r, items, input);
    }
  }
}
