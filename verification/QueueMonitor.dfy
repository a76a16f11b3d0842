/** Any number of threads sharing one queue through its mutex and its two condition variables.

    A section run under the mutex touches a condition variable once, at its end, so it is one
    atomic step. pthread_cond_wait releases the mutex and sleeps in that same step; a signal
    wakes at least one sleeper if there is one; sleepers may also wake for no reason; a woken
    thread competes for the mutex with every other thread. setAllowedNewData goes on after it
    has released the mutex: it reads the flag again and broadcasts twice, in separate steps. */
module QueueMonitor {
  import opened Ordering
  import opened QueueSpec

  type Tid = nat

  /** Where a thread is; a thread the map does not mention is Outside. */
  datatype Loc =
    | Outside
    | GetAsleep
    | GetWoken
    | PutAsleep(ele: Ptr)
    | PutWoken(ele: Ptr)
    | MayNotify     // setAllowedNewData: about to read the flag without the mutex
    | NotifyingGet  // about to broadcast mCondGet
    | NotifyingPut  // about to broadcast mCondPut

  /** What happened to the contents, in the order in which the mutex was held. */
  datatype Event = Accepted(p: Ptr) | Removed(p: Ptr)

  datatype State = State(q: QState, threads: map<Tid, Loc>, log: seq<Event>) {

    function At(t: Tid): Loc {
      if t in threads then threads[t] else Outside
    }
  }

  /** The choices a step leaves open are its fields: who takes it, whether calloc succeeds, and
      which sleepers a signal wakes. */
  datatype Step =
    | Push(t: Tid, ele: Ptr, isWait: bool, memory: bool, roused: set<Tid>)
    | PushResume(t: Tid, memory: bool, roused: set<Tid>)
    | Pop(t: Tid, isWait: bool, roused: set<Tid>)
    | PopResume(t: Tid, roused: set<Tid>)
    | Flush(t: Tid)
    | SetAllowed(t: Tid, allowed: bool)
    | ReadFlag(t: Tid)
    | BroadcastGet(t: Tid)
    | BroadcastPut(t: Tid)
    | Spurious(t: Tid)

  // ---- counting threads ----

  function GetSleepers(s: State): set<Tid> {
    set t | t in s.threads && s.threads[t].GetAsleep?
  }

  function GetWakers(s: State): set<Tid> {
    set t | t in s.threads && s.threads[t].GetWoken?
  }

  function PutSleepers(s: State): set<Tid> {
    set t | t in s.threads && s.threads[t].PutAsleep?
  }

  function PutWakers(s: State): set<Tid> {
    set t | t in s.threads && s.threads[t].PutWoken?
  }

  // ---- steps ----

  function Roused(l: Loc): Loc {
    match l
    case GetAsleep => GetWoken
    case PutAsleep(e) => PutWoken(e)
    case _ => l
  }

  function Rouse(threads: map<Tid, Loc>, ts: set<Tid>): map<Tid, Loc> {
    map t | t in threads :: if t in ts then Roused(threads[t]) else threads[t]
  }

  function Sleepers(s: State, wake: Wake): set<Tid> {
    match wake
    case NoWake => {}
    case WakeGet => GetSleepers(s)
    case WakePut => PutSleepers(s)
  }

  /** A signal wakes some of the sleepers, and at least one if there are any. */
  predicate LegalSignal(s: State, wake: Wake, roused: set<Tid>) {
    roused <= Sleepers(s, wake) && (Sleepers(s, wake) != {} ==> roused != {})
  }

  /** The section a step runs under the mutex, if it runs one that can push or pop. */
  function SectionOf(s: State, step: Step): Section
    requires step.Push? || step.PushResume? || step.Pop? || step.PopResume?
    requires step.PushResume? ==> s.At(step.t).PutWoken?
  {
    match step
    case Push(t, ele, isWait, memory, _) => PushEnter(s.q, ele, isWait, memory)
    case PushResume(t, memory, _) => PushLoop(s.q, s.At(t).ele, memory)
    case Pop(t, isWait, _) => PopEnter(s.q, isWait)
    case PopResume(t, _) => PopLoop(s.q)
  }

  /** Where the thread is after its section: asleep, or out with a return code. */
  function After(s: State, step: Step, sec: Section): Loc
    requires step.PushResume? ==> s.At(step.t).PutWoken?
  {
    if sec.out.Return? then Outside
    else if step.Push? then PutAsleep(step.ele)
    else if step.PushResume? then PutAsleep(s.At(step.t).ele)
    else GetAsleep
  }

  /** What a section adds to the log. */
  function Logged(s: State, step: Step, sec: Section): seq<Event>
    requires step.PushResume? ==> s.At(step.t).PutWoken?
  {
    if sec.out != Return(Q_OK) then []
    else if step.Push? then [Accepted(step.ele)]
    else if step.PushResume? then [Accepted(s.At(step.t).ele)]
    else [Removed(sec.e)]
  }

  function AllRemoved(items: seq<Ptr>): seq<Event> {
    seq(|items|, i requires 0 <= i < |items| => Removed(items[i]))
  }

  predicate Enabled(s: State, step: Step) {
    match step
    case Push(t, _, _, _, roused) => s.At(t).Outside? && LegalSignal(s, SectionOf(s, step).wake, roused)
    case PushResume(t, _, roused) => s.At(t).PutWoken? && LegalSignal(s, SectionOf(s, step).wake, roused)
    case Pop(t, _, roused) => s.At(t).Outside? && LegalSignal(s, SectionOf(s, step).wake, roused)
    case PopResume(t, roused) => s.At(t).GetWoken? && LegalSignal(s, SectionOf(s, step).wake, roused)
    case Flush(t) => s.At(t).Outside?
    case SetAllowed(t, _) => s.At(t).Outside?
    case ReadFlag(t) => s.At(t).MayNotify?
    case BroadcastGet(t) => s.At(t).NotifyingGet?
    case BroadcastPut(t) => s.At(t).NotifyingPut?
    case Spurious(t) => s.At(t).GetAsleep? || s.At(t).PutAsleep?
  }

  function Apply(s: State, step: Step): State
    requires Enabled(s, step)
  {
    match step
    case Flush(t) => s.(q := Flushed(s.q), log := s.log + AllRemoved(s.q.items))
    case SetAllowed(t, allowed) => s.(q := s.q.(allowed := allowed), threads := s.threads[t := MayNotify])
    case ReadFlag(t) => s.(threads := s.threads[t := if s.q.allowed then Outside else NotifyingGet])
    case BroadcastGet(t) => s.(threads := Rouse(s.threads, GetSleepers(s))[t := NotifyingPut])
    case BroadcastPut(t) => s.(threads := Rouse(s.threads, PutSleepers(s))[t := Outside])
    case Spurious(t) => s.(threads := Rouse(s.threads, {t}))
    case _ =>
      var sec := SectionOf(s, step);
      State(sec.q, Rouse(s.threads, step.roused)[step.t := After(s, step, sec)], s.log + Logged(s, step, sec))
  }

  // ---- runs ----

  predicate Init(s: State) {
    s.q.Valid() && s.q.items == [] && s.q.allowed && s.threads == map[] && s.log == []
  }

  /** states[i + 1] is the state after steps[i]. */
  ghost predicate IsPath(states: seq<State>, steps: seq<Step>) {
    && |states| == |steps| + 1
    && forall i :: 0 <= i < |steps| ==> Enabled(states[i], steps[i]) && states[i + 1] == Apply(states[i], steps[i])
  }

  ghost predicate IsRun(states: seq<State>, steps: seq<Step>) {
    IsPath(states, steps) && Init(states[0])
  }

  // ---- how a step that rouses the sleepers ts and moves t to l changes the counts ----

  lemma UnionLess(a: set<Tid>, b: set<Tid>, t: Tid, c: set<Tid>)
    requires a !! b && t !in b && c == a + b - {t}
    ensures |c| == |a| + |b| - (if t in a then 1 else 0)
  {
    assert |a + b| == |a| + |b|;
  }

  lemma ConsumersRousedSet(s: State, ts: set<Tid>, t: Tid, l: Loc, r: State)
    requires r.threads == Rouse(s.threads, ts)[t := l] && !l.GetWoken? && ts <= GetSleepers(s)
    ensures GetWakers(s) !! ts && GetWakers(r) == GetWakers(s) + ts - {t}
  {
  }

  lemma ConsumersRoused(s: State, ts: set<Tid>, t: Tid, l: Loc, r: State)
    requires r.threads == Rouse(s.threads, ts)[t := l] && t !in ts && !l.GetWoken? && ts <= GetSleepers(s)
    ensures |GetWakers(r)| == |GetWakers(s)| + |ts| - (if s.At(t).GetWoken? then 1 else 0)
  {
    ConsumersRousedSet(s, ts, t, l, r);
    UnionLess(GetWakers(s), ts, t, GetWakers(r));
  }

  lemma ConsumersKept(s: State, ts: set<Tid>, t: Tid, l: Loc, r: State)
    requires r.threads == Rouse(s.threads, ts)[t := l] && t !in ts && !l.GetWoken? && ts <= PutSleepers(s)
    ensures |GetWakers(r)| == |GetWakers(s)| - (if s.At(t).GetWoken? then 1 else 0)
  {
    assert GetWakers(r) == GetWakers(s) - {t};
  }

  lemma ConsumersAsleep(s: State, ts: set<Tid>, t: Tid, l: Loc, r: State)
    requires r.threads == Rouse(s.threads, ts)[t := l]
    ensures GetSleepers(r) != {} ==> GetSleepers(s) != {} || l.GetAsleep?
    ensures ts == GetSleepers(s) && !l.GetAsleep? ==> GetSleepers(r) == {}
  {
    assert GetSleepers(r) <= GetSleepers(s) - ts + {t};
  }

  lemma ProducersRousedSet(s: State, ts: set<Tid>, t: Tid, l: Loc, r: State)
    requires r.threads == Rouse(s.threads, ts)[t := l] && !l.PutWoken? && ts <= PutSleepers(s)
    ensures PutWakers(s) !! ts && PutWakers(r) == PutWakers(s) + ts - {t}
  {
  }

  lemma ProducersRoused(s: State, ts: set<Tid>, t: Tid, l: Loc, r: State)
    requires r.threads == Rouse(s.threads, ts)[t := l] && t !in ts && !l.PutWoken? && ts <= PutSleepers(s)
    ensures |PutWakers(r)| == |PutWakers(s)| + |ts| - (if s.At(t).PutWoken? then 1 else 0)
  {
    ProducersRousedSet(s, ts, t, l, r);
    UnionLess(PutWakers(s), ts, t, PutWakers(r));
  }

  lemma ProducersKept(s: State, ts: set<Tid>, t: Tid, l: Loc, r: State)
    requires r.threads == Rouse(s.threads, ts)[t := l] && t !in ts && !l.PutWoken? && ts <= GetSleepers(s)
    ensures |PutWakers(r)| == |PutWakers(s)| - (if s.At(t).PutWoken? then 1 else 0)
  {
    assert PutWakers(r) == PutWakers(s) - {t};
  }

  lemma ProducersAsleep(s: State, ts: set<Tid>, t: Tid, l: Loc, r: State)
    requires r.threads == Rouse(s.threads, ts)[t := l]
    ensures PutSleepers(r) != {} ==> PutSleepers(s) != {} || l.PutAsleep?
    ensures ts == PutSleepers(s) && !l.PutAsleep? ==> PutSleepers(r) == {}
  {
    assert PutSleepers(r) <= PutSleepers(s) - ts + {t};
  }

  lemma SpuriousMoves(s: State, t: Tid)
    requires Enabled(s, Spurious(t))
    ensures var r := Apply(s, Spurious(t));
            && (GetSleepers(r) != {} ==> GetSleepers(s) != {}) && |GetWakers(s)| <= |GetWakers(r)|
            && (PutSleepers(r) != {} ==> PutSleepers(s) != {}) && |PutWakers(s)| <= |PutWakers(r)|
  {
    var r := Apply(s, Spurious(t));
    assert GetWakers(r) == if s.At(t).GetAsleep? then GetWakers(s) + {t} else GetWakers(s);
    assert PutWakers(r) == if s.At(t).PutAsleep? then PutWakers(s) + {t} else PutWakers(s);
    assert GetSleepers(r) <= GetSleepers(s) && PutSleepers(r) <= PutSleepers(s);
  }

  lemma SectionIsValid(s: State, step: Step)
    requires s.q.Valid() && Enabled(s, step)
    requires step.Push? || step.PushResume? || step.Pop? || step.PopResume?
    ensures SectionOf(s, step).q.Valid() && SectionOf(s, step).q.cap == s.q.cap
    ensures SectionOf(s, step).q.mode == s.q.mode && SectionOf(s, step).q.allowed == s.q.allowed
  {
    match step
    case Push(_, ele, isWait, memory, _) => PushOutcome(s.q, ele, isWait, memory);
    case PushResume(t, memory, _) => PushOutcome(s.q, s.At(t).ele, true, memory);
    case _ =>
  }

  /** No step overfills the queue. */
  lemma StepKeepsValid(s: State, step: Step)
    requires s.q.Valid() && Enabled(s, step)
    ensures Apply(s, step).q.Valid() && Apply(s, step).q.cap == s.q.cap
  {
    if step.Push? || step.PushResume? || step.Pop? || step.PopResume? {
      SectionIsValid(s, step);
    }
  }

  // ---- no lost wakeup for consumers ----

  /** If a consumer sleeps, the elements are no more than the consumers woken but not yet
      served, so each of the elements has a thread on its way to it. */
  ghost predicate ConsumersServed(s: State) {
    GetSleepers(s) != {} ==> |s.q.items| <= |GetWakers(s)|
  }

  /** A push adds one element and, if any consumer sleeps, at least one woken consumer. */
  lemma PushServesConsumers(s: State, step: Step)
    requires s.q.Valid() && ConsumersServed(s) && Enabled(s, step)
    requires step.Push? || step.PushResume?
    ensures ConsumersServed(Apply(s, step))
  {
    var l, r := After(s, step, SectionOf(s, step)), Apply(s, step);
    ConsumersAsleep(s, step.roused, step.t, l, r);
    ConsumersRoused(s, step.roused, step.t, l, r);
  }

  /** A pop takes at most one woken consumer out of the count, and then takes an element or
      has found none. */
  lemma PopServesConsumers(s: State, step: Step)
    requires s.q.Valid() && ConsumersServed(s) && Enabled(s, step)
    requires step.Pop? || step.PopResume?
    ensures ConsumersServed(Apply(s, step))
  {
    var l, r := After(s, step, SectionOf(s, step)), Apply(s, step);
    ConsumersAsleep(s, step.roused, step.t, l, r);
    ConsumersKept(s, step.roused, step.t, l, r);
  }

  lemma NotifyServesConsumers(s: State, step: Step)
    requires ConsumersServed(s) && Enabled(s, step)
    requires step.BroadcastGet? || step.BroadcastPut? || step.Spurious?
    ensures ConsumersServed(Apply(s, step))
  {
    var r := Apply(s, step);
    match step
    case BroadcastGet(t) =>
      ConsumersAsleep(s, GetSleepers(s), t, NotifyingPut, r);
    case BroadcastPut(t) =>
      ConsumersAsleep(s, PutSleepers(s), t, Outside, r);
      ConsumersKept(s, PutSleepers(s), t, Outside, r);
    case Spurious(t) =>
      SpuriousMoves(s, t);
  }

  lemma StepServesConsumers(s: State, step: Step)
    requires s.q.Valid() && ConsumersServed(s) && Enabled(s, step)
    ensures ConsumersServed(Apply(s, step))
  {
    var r := Apply(s, step);
    match step
    case Flush(_) =>
    case SetAllowed(t, _) =>
      assert GetSleepers(r) == GetSleepers(s) && GetWakers(r) == GetWakers(s);
    case ReadFlag(t) =>
      assert GetSleepers(r) == GetSleepers(s) && GetWakers(r) == GetWakers(s);
    case Push(_, _, _, _, _) => PushServesConsumers(s, step);
    case PushResume(_, _, _) => PushServesConsumers(s, step);
    case Pop(_, _, _) => PopServesConsumers(s, step);
    case PopResume(_, _) => PopServesConsumers(s, step);
    case _ => NotifyServesConsumers(s, step);
  }

  /** In every state of every run. */
  lemma {:induction false} NoLostConsumerWakeup(states: seq<State>, steps: seq<Step>, i: nat)
    requires IsRun(states, steps) && i < |states|
    ensures states[i].q.Valid() && ConsumersServed(states[i])
    ensures states[i].q.items != [] && GetSleepers(states[i]) != {} ==> GetWakers(states[i]) != {}
  {
    if i > 0 {
      NoLostConsumerWakeup(states, steps, i - 1);
      StepKeepsValid(states[i - 1], steps[i - 1]);
      StepServesConsumers(states[i - 1], steps[i - 1]);
    }
  }
}
