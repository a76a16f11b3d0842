/** What each call of the concurrent queue does for the thread that makes it, told from the calls:
    a thread that has slept and been woken finishes the very call it began. */
module QueueCalls {
  import opened Ordering
  import opened QueueSpec
  import opened QueueMonitor

  datatype Call = NoCall | Pushing(ele: Ptr, isWait: bool) | Popping(isWait: bool) | Flushing | Allowing(allowed: bool)

  /** The call a step begins, if it begins one. */
  function Begun(step: Step): Call {
    match step
    case Push(_, ele, isWait, _, _) => Pushing(ele, isWait)
    case Pop(_, isWait, _) => Popping(isWait)
    case Flush(_) => Flushing
    case SetAllowed(_, allowed) => Allowing(allowed)
    case _ => NoCall
  }

  /** The last call thread t has begun before step n. */
  function LastCall(steps: seq<Step>, t: Tid, n: nat): Call
    requires n <= |steps|
  {
    if n == 0 then NoCall
    else if steps[n - 1].t == t && Begun(steps[n - 1]) != NoCall then Begun(steps[n - 1])
    else LastCall(steps, t, n - 1)
  }

  /** Where t can be inside its last call. */
  predicate IsInside(l: Loc, call: Call) {
    match l
    case Outside => true
    case GetAsleep => call == Popping(true)
    case GetWoken => call == Popping(true)
    case PutAsleep(e) => call == Pushing(e, true)
    case PutWoken(e) => call == Pushing(e, true)
    case _ => call.Allowing?
  }

  /** The thread that takes a step moves as its call says. */
  lemma MoverIsInside(s: State, step: Step, call: Call)
    requires Enabled(s, step) && IsInside(s.At(step.t), call)
    ensures IsInside(Apply(s, step).At(step.t), if Begun(step) == NoCall then call else Begun(step))
  {
  }

  /** The others stay where they are, or are woken where they sleep: consumers by a push or the
      first broadcast, producers by a pop or the second, and all of them by a broadcast. */
  lemma OthersStay(s: State, step: Step, u: Tid)
    requires Enabled(s, step) && u != step.t
    ensures var l, m := s.At(u), Apply(s, step).At(u);
            && (m != l ==> l.GetAsleep? || l.PutAsleep?)
            && (m != l && l.GetAsleep? ==> m.GetWoken? && (step.Push? || step.PushResume? || step.BroadcastGet?))
            && (m != l && l.PutAsleep? ==> m == PutWoken(l.ele) && (step.Pop? || step.PopResume? || step.BroadcastPut?))
            && (step.BroadcastGet? ==> !m.GetAsleep?)
            && (step.BroadcastPut? ==> !m.PutAsleep?)
  {
  }

  /** In every run a thread that sleeps, or has been woken, is inside the waiting call it began
      last, with the element it wants to push; nobody else sleeps. */
  lemma {:induction false} SleepersKeepTheirCall(states: seq<State>, steps: seq<Step>, t: Tid, i: nat)
    requires IsRun(states, steps) && i < |states|
    ensures IsInside(states[i].At(t), LastCall(steps, t, i))
  {
    if i > 0 {
      SleepersKeepTheirCall(states, steps, t, i - 1);
      if steps[i - 1].t == t {
        MoverIsInside(states[i - 1], steps[i - 1], LastCall(steps, t, i - 1));
      } else {
        OthersStay(states[i - 1], steps[i - 1], t);
      }
    }
  }

  /** What a step of a push of e does, whether it is the call or the resumption after a wait. */
  ghost predicate PushAnswers(s: State, step: Step, r: State, e: Ptr, isWait: bool)
    requires step.Push? || step.PushResume?
  {
    var room := s.q.allowed && |s.q.items| < s.q.cap;
    && (if room && step.memory
        then r.q == s.q.(items := Linked(s.q.mode, s.q.items, e)) && r.log == s.log + [Accepted(e)]
        else r.q == s.q && r.log == s.log)
    && (r.At(step.t) == if isWait && s.q.MustWaitPut() then PutAsleep(e) else Outside)
    && (room && step.memory && GetSleepers(s) != {} ==> |GetWakers(r)| > |GetWakers(s)|)
  }

  /** What a step of a pop does. */
  ghost predicate PopAnswers(s: State, step: Step, r: State, isWait: bool)
    requires step.Pop? || step.PopResume?
  {
    && (if s.q.items != []
        then r.q == s.q.(items := s.q.items[1..]) && r.log == s.log + [Removed(s.q.items[0])]
        else r.q == s.q && r.log == s.log)
    && (r.At(step.t) == if isWait && s.q.MustWaitGet() then GetAsleep else Outside)
    && (s.q.items != [] && PutSleepers(s) != {} ==> |PutWakers(r)| > |PutWakers(s)|)
  }

  lemma PushStepAnswers(s: State, step: Step)
    requires s.q.Valid() && Enabled(s, step) && (step.Push? || step.PushResume?)
    ensures PushAnswers(s, step, Apply(s, step), if step.Push? then step.ele else s.At(step.t).ele, step.Push? ==> step.isWait)
  {
    var r, l := Apply(s, step), After(s, step, SectionOf(s, step));
    assert s.log + [] == s.log;
    ConsumersRoused(s, step.roused, step.t, l, r);
  }

  lemma PopStepAnswers(s: State, step: Step)
    requires s.q.Valid() && Enabled(s, step) && (step.Pop? || step.PopResume?)
    ensures PopAnswers(s, step, Apply(s, step), step.Pop? ==> step.isWait)
  {
    var r, l := Apply(s, step), After(s, step, SectionOf(s, step));
    assert s.log + [] == s.log;
    ProducersRoused(s, step.roused, step.t, l, r);
  }

  /** In every run: each step of a push, the first as well as every later one after a wait, links
      the element of the call if the queue is open, has room and there is memory, and else leaves
      the queue alone; the thread sleeps exactly when the call waits and the queue is full and
      open, and has returned otherwise. */
  lemma PushesAnswer(states: seq<State>, steps: seq<Step>, i: nat)
    requires IsRun(states, steps) && i < |steps| && (steps[i].Push? || steps[i].PushResume?)
    ensures var call := LastCall(steps, steps[i].t, i + 1);
            && call.Pushing? && PushAnswers(states[i], steps[i], states[i + 1], call.ele, call.isWait)
            && SectionOf(states[i], steps[i]).out == PushEnter(states[i].q, call.ele, call.isWait, steps[i].memory).out
  {
    NoLostConsumerWakeup(states, steps, i);
    SleepersKeepTheirCall(states, steps, steps[i].t, i);
    PushStepAnswers(states[i], steps[i]);
  }

  /** And each step of a pop takes the head if there is one; the thread sleeps exactly when the
      call waits and the queue is empty and open. */
  lemma PopsAnswer(states: seq<State>, steps: seq<Step>, i: nat)
    requires IsRun(states, steps) && i < |steps| && (steps[i].Pop? || steps[i].PopResume?)
    ensures var call := LastCall(steps, steps[i].t, i + 1);
            && call.Popping? && PopAnswers(states[i], steps[i], states[i + 1], call.isWait)
            && SectionOf(states[i], steps[i]).out == PopEnter(states[i].q, call.isWait).out
  {
    NoLostConsumerWakeup(states, steps, i);
    SleepersKeepTheirCall(states, steps, steps[i].t, i);
    PopStepAnswers(states[i], steps[i]);
  }

  /** What was stored last in mAllowedNewData before step n. */
  function LastAllowed(steps: seq<Step>, n: nat): bool
    requires n <= |steps|
  {
    if n == 0 then true
    else if steps[n - 1].SetAllowed? then steps[n - 1].allowed
    else LastAllowed(steps, n - 1)
  }

  /** Only setAllowedNewData opens and closes the queue, and nothing changes its capability. */
  lemma {:induction false} FlagIsLastAllowed(states: seq<State>, steps: seq<Step>, i: nat)
    requires IsRun(states, steps) && i < |states|
    ensures states[i].q.allowed == LastAllowed(steps, i) && states[i].q.cap == states[0].q.cap
  {
    if i > 0 {
      FlagIsLastAllowed(states, steps, i - 1);
      NoLostConsumerWakeup(states, steps, i - 1);
      StepKeepsValid(states[i - 1], steps[i - 1]);
      StepKeepsFlag(states[i - 1], steps[i - 1]);
    }
  }

  lemma StepKeepsFlag(s: State, step: Step)
    requires s.q.Valid() && Enabled(s, step)
    ensures Apply(s, step).q.allowed == if step.SetAllowed? then step.allowed else s.q.allowed
  {
    if step.Push? || step.PushResume? || step.Pop? || step.PopResume? {
      SectionIsValid(s, step);
    }
  }

  // ---- nobody is held up but by sleeping ----

  /** A signal may wake all the sleepers, or any one of them. */
  lemma SignalsAreLegal(s: State, wake: Wake, u: Tid)
    ensures LegalSignal(s, wake, Sleepers(s, wake))
    ensures u in Sleepers(s, wake) ==> LegalSignal(s, wake, {u})
  {
  }

  /** Whatever the others do, a thread that is outside can begin any call, a woken one can go on,
      a sleeping one can wake for no reason, and one that notifies can notify. */
  lemma EverybodyCanGoOn(s: State, t: Tid, ele: Ptr, isWait: bool, memory: bool, allowed: bool)
    ensures s.At(t).Outside? ==>
              && Enabled(s, Flush(t)) && Enabled(s, SetAllowed(t, allowed))
              && (exists roused :: Enabled(s, Push(t, ele, isWait, memory, roused)))
              && (exists roused :: Enabled(s, Pop(t, isWait, roused)))
    ensures s.At(t).PutWoken? ==> exists roused :: Enabled(s, PushResume(t, memory, roused))
    ensures s.At(t).GetWoken? ==> exists roused :: Enabled(s, PopResume(t, roused))
    ensures s.At(t).GetAsleep? || s.At(t).PutAsleep? ==> Enabled(s, Spurious(t)) && !Apply(s, Spurious(t)).At(t).GetAsleep?
                                                           && !Apply(s, Spurious(t)).At(t).PutAsleep?
    ensures s.At(t).MayNotify? ==> Enabled(s, ReadFlag(t))
    ensures s.At(t).NotifyingGet? ==> Enabled(s, BroadcastGet(t))
    ensures s.At(t).NotifyingPut? ==> Enabled(s, BroadcastPut(t))
  {
    if s.At(t).Outside? {
      assert Enabled(s, Push(t, ele, isWait, memory, Sleepers(s, PushEnter(s.q, ele, isWait, memory).wake)));
      assert Enabled(s, Pop(t, isWait, Sleepers(s, PopEnter(s.q, isWait).wake)));
    } else if s.At(t).PutWoken? {
      assert Enabled(s, PushResume(t, memory, Sleepers(s, PushLoop(s.q, s.At(t).ele, memory).wake)));
    } else if s.At(t).GetWoken? {
      assert Enabled(s, PopResume(t, Sleepers(s, PopLoop(s.q).wake)));
    }
  }
}
