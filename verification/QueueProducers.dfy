/** Lost wakeups for producers. Unlike consumers, producers are not served in every run: a flush,
    a woken producer that finds no memory, and a reopening can each leave a producer asleep beside
    free room, as concrete runs show. The steps that do are told apart exactly. */
module QueueProducers {
  import opened Ordering
  import opened QueueSpec
  import opened QueueMonitor

  /** While the queue is open, if a producer sleeps, the free places are no more than the
      producers woken but not yet served. */
  ghost predicate ProducersServed(s: State) {
    s.q.allowed && PutSleepers(s) != {} ==> s.q.cap - |s.q.items| <= |PutWakers(s)|
  }

  /** An open queue has room, a producer sleeps, and nobody is on the way to use the room. */
  ghost predicate ProducerStranded(s: State) {
    s.q.allowed && |s.q.items| < s.q.cap && PutSleepers(s) != {} && PutWakers(s) == {}
  }

  /** The steps that keep producers served: all but a flush, a woken producer's push that
      finds no memory, and a setAllowedNewData(true) on a closed queue. */
  predicate Harmless(s: State, step: Step) {
    match step
    case PushResume(_, memory, _) => memory
    case Flush(_) => false
    case SetAllowed(_, allowed) => allowed ==> s.q.allowed
    case _ => true
  }

  lemma PushServesProducers(s: State, step: Step)
    requires s.q.Valid() && ProducersServed(s) && Enabled(s, step) && Harmless(s, step)
    requires step.Push? || step.PushResume?
    ensures ProducersServed(Apply(s, step))
  {
    var l, r := After(s, step, SectionOf(s, step)), Apply(s, step);
    ProducersAsleep(s, step.roused, step.t, l, r);
    ProducersKept(s, step.roused, step.t, l, r);
  }

  lemma PopServesProducers(s: State, step: Step)
    requires s.q.Valid() && ProducersServed(s) && Enabled(s, step)
    requires step.Pop? || step.PopResume?
    ensures ProducersServed(Apply(s, step))
  {
    var l, r := After(s, step, SectionOf(s, step)), Apply(s, step);
    ProducersAsleep(s, step.roused, step.t, l, r);
    ProducersRoused(s, step.roused, step.t, l, r);
  }

  lemma NotifyServesProducers(s: State, step: Step)
    requires ProducersServed(s) && Enabled(s, step)
    requires step.BroadcastGet? || step.BroadcastPut? || step.Spurious?
    ensures ProducersServed(Apply(s, step))
  {
    var r := Apply(s, step);
    match step
    case BroadcastGet(t) =>
      ProducersAsleep(s, GetSleepers(s), t, NotifyingPut, r);
      ProducersKept(s, GetSleepers(s), t, NotifyingPut, r);
    case BroadcastPut(t) =>
      ProducersAsleep(s, PutSleepers(s), t, Outside, r);
    case Spurious(t) =>
      SpuriousMoves(s, t);
  }

  lemma StepServesProducers(s: State, step: Step)
    requires s.q.Valid() && ProducersServed(s) && Enabled(s, step) && Harmless(s, step)
    ensures ProducersServed(Apply(s, step))
  {
    var r := Apply(s, step);
    match step
    case SetAllowed(t, _) =>
      assert PutSleepers(r) == PutSleepers(s) && PutWakers(r) == PutWakers(s);
    case ReadFlag(t) =>
      assert PutSleepers(r) == PutSleepers(s) && PutWakers(r) == PutWakers(s);
    case Push(_, _, _, _, _) => PushServesProducers(s, step);
    case PushResume(_, _, _) => PushServesProducers(s, step);
    case Pop(_, _, _) => PopServesProducers(s, step);
    case PopResume(_, _) => PopServesProducers(s, step);
    case _ => NotifyServesProducers(s, step);
  }

  // ---- exactly when the other steps keep producers served ----

  /** A flush of an open queue keeps producers served exactly when none sleeps, or enough of
      them are awake already to fill the whole queue. */
  lemma FlushServesProducersIff(s: State, t: Tid)
    requires s.q.Valid() && ProducersServed(s) && s.q.allowed && Enabled(s, Flush(t))
    ensures ProducersServed(Apply(s, Flush(t))) <==> PutSleepers(s) == {} || s.q.cap <= |PutWakers(s)|
  {
    var r := Apply(s, Flush(t));
    assert PutSleepers(r) == PutSleepers(s) && PutWakers(r) == PutWakers(s);
  }

  /** A woken producer whose allocation fails keeps the others served exactly when there is no
      room for it anyway, nobody else sleeps, or more producers are awake than there are places. */
  lemma FailedPushServesProducersIff(s: State, t: Tid)
    requires s.q.Valid() && ProducersServed(s) && s.q.allowed && Enabled(s, PushResume(t, false, {}))
    ensures ProducersServed(Apply(s, PushResume(t, false, {})))
       <==> PutSleepers(s) == {} || |s.q.items| == s.q.cap || s.q.cap - |s.q.items| < |PutWakers(s)|
  {
    var step := PushResume(t, false, {});
    var l, r := After(s, step, SectionOf(s, step)), Apply(s, step);
    ProducersKept(s, {}, t, l, r);
    assert |s.q.items| < s.q.cap ==> PutSleepers(r) == PutSleepers(s);
  }

  /** Reopening keeps producers served exactly when the closed queue had nobody sleeping on
      mCondPut, or a producer awake for each free place. */
  lemma ReopenServesProducersIff(s: State, t: Tid)
    requires s.q.Valid() && !s.q.allowed && Enabled(s, SetAllowed(t, true))
    ensures ProducersServed(Apply(s, SetAllowed(t, true)))
       <==> PutSleepers(s) == {} || s.q.cap - |s.q.items| <= |PutWakers(s)|
  {
    var r := Apply(s, SetAllowed(t, true));
    assert PutSleepers(r) == PutSleepers(s) && PutWakers(r) == PutWakers(s);
  }

  /** What a thread could check before it takes the step: the step is harmless, or nobody sleeps
      on mCondPut, or enough producers are awake for the room there will be. */
  predicate Guarded(s: State, step: Step) {
    || Harmless(s, step)
    || PutSleepers(s) == {}
    || (step.Flush? && (s.q.allowed ==> s.q.cap <= |PutWakers(s)|))
    || (step.PushResume? && (s.q.allowed ==> |s.q.items| == s.q.cap || s.q.cap - |s.q.items| < |PutWakers(s)|))
    || (step.SetAllowed? && s.q.cap - |s.q.items| <= |PutWakers(s)|)
  }

  /** On a closed queue a step that does not reopen it cannot break the promise. */
  lemma ClosedIsServed(s: State, step: Step)
    requires !s.q.allowed && Enabled(s, step) && !(step.SetAllowed? && step.allowed)
    ensures ProducersServed(Apply(s, step))
  {
  }

  /** One step of any kind keeps producers served exactly when it is guarded. */
  lemma StepServesProducersIff(s: State, step: Step)
    requires s.q.Valid() && ProducersServed(s) && Enabled(s, step)
    ensures ProducersServed(Apply(s, step)) <==> Guarded(s, step)
  {
    if Harmless(s, step) {
      StepServesProducers(s, step);
    } else if step.SetAllowed? {
      ReopenServesProducersIff(s, step.t);
    } else if !s.q.allowed {
      ClosedIsServed(s, step);
    } else if step.Flush? {
      FlushServesProducersIff(s, step.t);
    } else {
      assert step == PushResume(step.t, false, {});
      FailedPushServesProducersIff(s, step.t);
    }
  }

  // ---- no lost wakeup for producers ----

  /** Producers are served up to the first step that is not guarded. */
  lemma {:induction false} NoLostProducerWakeup(states: seq<State>, steps: seq<Step>, i: nat)
    requires IsRun(states, steps) && i < |states|
    requires forall k :: 0 <= k < i ==> Guarded(states[k], steps[k])
    ensures ProducersServed(states[i]) && !ProducerStranded(states[i])
  {
    if i == 0 {
      assert PutSleepers(states[0]) == {};
    } else {
      NoLostProducerWakeup(states, steps, i - 1);
      NoLostConsumerWakeup(states, steps, i - 1);
      StepServesProducersIff(states[i - 1], steps[i - 1]);
    }
  }

  /** A run keeps producers served in all its states exactly when all its steps are guarded. */
  lemma RunServesProducersIff(states: seq<State>, steps: seq<Step>)
    requires IsRun(states, steps)
    ensures (forall i :: 0 <= i < |states| ==> ProducersServed(states[i]))
       <==> (forall k :: 0 <= k < |steps| ==> Guarded(states[k], steps[k]))
  {
    if forall k :: 0 <= k < |steps| ==> Guarded(states[k], steps[k]) {
      forall i | 0 <= i < |states| ensures ProducersServed(states[i]) {
        NoLostProducerWakeup(states, steps, i);
      }
    } else if forall i :: 0 <= i < |states| ==> ProducersServed(states[i]) {
      forall k | 0 <= k < |steps| ensures Guarded(states[k], steps[k]) {
        NoLostConsumerWakeup(states, steps, k);
        assert ProducersServed(states[k + 1]);
        StepServesProducersIff(states[k], steps[k]);
      }
    }
  }

  // ---- served is what keeps producers from being stranded ----

  ghost predicate AllHarmless(states: seq<State>, steps: seq<Step>)
    requires |states| == |steps| + 1
  {
    forall k :: 0 <= k < |steps| ==> Harmless(states[k], steps[k])
  }

  /** No continuation of s by harmless steps leaves a producer asleep beside free room with nobody
      on the way to it. */
  ghost predicate NeverStranded(s: State) {
    forall states: seq<State>, steps: seq<Step>, i: nat ::
      IsPath(states, steps) && states[0] == s && AllHarmless(states, steps) && i < |states|
      ==> !ProducerStranded(states[i])
  }

  lemma {:induction false} ServedPath(states: seq<State>, steps: seq<Step>, i: nat)
    requires IsPath(states, steps) && AllHarmless(states, steps) && i < |states|
    requires states[0].q.Valid() && ProducersServed(states[0])
    ensures states[i].q.Valid() && ProducersServed(states[i])
  {
    if i > 0 {
      ServedPath(states, steps, i - 1);
      StepKeepsValid(states[i - 1], steps[i - 1]);
      StepServesProducers(states[i - 1], steps[i - 1]);
    }
  }

  /** A woken producer takes a free place and leaves one woken producer less. */
  lemma WokenProducerPushes(s: State, t: Tid)
    requires s.q.Valid() && s.q.allowed && |s.q.items| < s.q.cap && s.At(t).PutWoken?
    ensures var step := PushResume(t, true, GetSleepers(s));
            && Enabled(s, step)
            && var r := Apply(s, step);
               && r.q.allowed && r.q.cap == s.q.cap && |r.q.items| == |s.q.items| + 1
               && PutSleepers(r) == PutSleepers(s) && |PutWakers(r)| == |PutWakers(s)| - 1
  {
    var step := PushResume(t, true, GetSleepers(s));
    ProducersKept(s, GetSleepers(s), t, Outside, Apply(s, step));
  }

  /** From a state that is not served the woken producers can use themselves up. */
  lemma {:induction false} UnservedIsStranded(states0: seq<State>, steps0: seq<Step>)
    returns (states: seq<State>, steps: seq<Step>)
    requires IsPath(states0, steps0) && AllHarmless(states0, steps0)
    requires states0[|steps0|].q.Valid() && !ProducersServed(states0[|steps0|])
    ensures IsPath(states, steps) && AllHarmless(states, steps) && states0 <= states
    ensures ProducerStranded(states[|steps|])
    decreases |PutWakers(states0[|steps0|])|
  {
    states, steps := states0, steps0;
    var s := states0[|steps0|];
    if PutWakers(s) != {} {
      var t :| t in PutWakers(s);
      var step := PushResume(t, true, GetSleepers(s));
      WokenProducerPushes(s, t);
      StepKeepsValid(s, step);
      states, steps := UnservedIsStranded(states0 + [Apply(s, step)], steps0 + [step]);
    }
  }

  /** So the count in ProducersServed is no stronger than the promise needs. */
  lemma ServedIffNeverStranded(s: State)
    requires s.q.Valid()
    ensures ProducersServed(s) <==> NeverStranded(s)
  {
    if ProducersServed(s) {
      forall states: seq<State>, steps: seq<Step>, i: nat
        | IsPath(states, steps) && states[0] == s && AllHarmless(states, steps) && i < |states|
        ensures !ProducerStranded(states[i])
      {
        ServedPath(states, steps, i);
      }
    } else {
      var states, steps := UnservedIsStranded([s], []);
      assert ProducerStranded(states[|steps|]);
    }
  }

  // ---- the runs that strand a producer ----

  /** A harmless step, or one of the kinds that are let in. */
  predicate Permitted(s: State, step: Step, flush: bool, memoryFails: bool, reopen: bool) {
    || Harmless(s, step)
    || (flush && step.Flush?)
    || (memoryFails && step.PushResume?)
    || (reopen && step.SetAllowed?)
  }

  /** One more step at the end of a run. */
  lemma Extend(states: seq<State>, steps: seq<Step>, step: Step) returns (states': seq<State>, steps': seq<Step>)
    requires IsRun(states, steps) && Enabled(states[|steps|], step)
    ensures steps' == steps + [step] && IsRun(states', steps') && states <= states'
    ensures states'[|steps'|] == Apply(states[|steps|], step)
  {
    states', steps' := states + [Apply(states[|steps|], step)], steps + [step];
  }

  /** A queue for one element, which holds the given ones. */
  function OnePlace(items: seq<Ptr>, allowed: bool): QState {
    QState(1, Fifo, items, allowed)
  }

  /** The queue is empty, thread 0 is outside, and whoever waits is a producer asleep. */
  predicate OnlyProducersSleep(s: State) {
    s.q.items == [] && s.At(0).Outside? && forall t :: t in s.threads ==> s.At(t).Outside? || s.At(t).PutAsleep?
  }

  lemma FullWithOneSleeper() returns (states: seq<State>, steps: seq<Step>)
    ensures IsRun(states, steps) && |steps| == 2
    ensures states[2] == State(OnePlace([7], true), map[0 := Outside, 1 := PutAsleep(8)], [Accepted(7)])
    ensures forall i :: 0 <= i < |steps| ==> Harmless(states[i], steps[i])
  {
    states, steps := [State(OnePlace([], true), map[], [])], [];
    states, steps := Extend(states, steps, Push(0, 7, false, true, {}));
    assert states[1] == State(OnePlace([7], true), map[0 := Outside], [Accepted(7)]);
    states, steps := Extend(states, steps, Push(1, 8, true, true, {}));
  }

  lemma FullWithTwoSleepers() returns (states: seq<State>, steps: seq<Step>)
    ensures IsRun(states, steps) && |steps| == 3
    ensures states[3] == State(OnePlace([7], true), map[0 := Outside, 1 := PutAsleep(8), 2 := PutAsleep(9)], [Accepted(7)])
    ensures forall i :: 0 <= i < |steps| ==> Harmless(states[i], steps[i])
  {
    states, steps := FullWithOneSleeper();
    states, steps := Extend(states, steps, Push(2, 9, true, true, {}));
  }

  /** flush removes the elements without signalling mCondPut. */
  lemma FlushStrandsProducer() returns (states: seq<State>, steps: seq<Step>)
    ensures IsRun(states, steps) && ProducerStranded(states[|steps|])
    ensures OnlyProducersSleep(states[|steps|])
    ensures forall i :: 0 <= i < |steps| ==> Permitted(states[i], steps[i], true, false, false)
  {
    states, steps := FullWithOneSleeper();
    states, steps := Extend(states, steps, Flush(0));
    assert 1 in PutSleepers(states[3]);
  }

  /** A woken producer that finds no memory leaves without passing its wakeup on. */
  lemma FailedPushStrandsProducer() returns (states: seq<State>, steps: seq<Step>)
    ensures IsRun(states, steps) && ProducerStranded(states[|steps|])
    ensures OnlyProducersSleep(states[|steps|])
    ensures forall i :: 0 <= i < |steps| ==> Permitted(states[i], steps[i], false, true, false)
  {
    states, steps := FullWithTwoSleepers();
    assert PutSleepers(states[3]) == {1, 2};
    states, steps := Extend(states, steps, Pop(0, false, {1}));
    assert states[4] == State(OnePlace([], true), map[0 := Outside, 1 := PutWoken(8), 2 := PutAsleep(9)],
                              [Accepted(7), Removed(7)]);
    states, steps := Extend(states, steps, PushResume(1, false, {}));
    assert 2 in PutSleepers(states[5]);
  }

  /** setAllowedNewData(false) by thread 3 has stored the flag. */
  lemma ClosedWithTwoSleepers() returns (states: seq<State>, steps: seq<Step>)
    ensures IsRun(states, steps) && |steps| == 4
    ensures states[4].q == OnePlace([7], false)
    ensures states[4].threads == map[0 := Outside, 1 := PutAsleep(8), 2 := PutAsleep(9), 3 := MayNotify]
    ensures PutSleepers(states[4]) == {1, 2}
    ensures forall i :: 0 <= i < |steps| ==> Harmless(states[i], steps[i])
  {
    states, steps := FullWithTwoSleepers();
    states, steps := Extend(states, steps, SetAllowed(3, false));
  }

  /** Thread 1 has been woken by a pop and has given up its push. */
  lemma ClosedWithOneSleeper() returns (states: seq<State>, steps: seq<Step>)
    ensures IsRun(states, steps) && |steps| == 6
    ensures states[6].q == OnePlace([], false)
    ensures states[6].threads == map[0 := Outside, 1 := Outside, 2 := PutAsleep(9), 3 := MayNotify]
    ensures forall i :: 0 <= i < |steps| ==> Harmless(states[i], steps[i])
  {
    states, steps := ClosedWithTwoSleepers();
    states, steps := Extend(states, steps, Pop(0, false, {1}));
    assert states[5].q == OnePlace([], false);
    assert states[5].threads == map[0 := Outside, 1 := PutWoken(8), 2 := PutAsleep(9), 3 := MayNotify];
    states, steps := Extend(states, steps, PushResume(1, true, {}));
  }

  /** A producer woken while the queue is closed gives up; if the queue is reopened before
      setAllowedNewData(false) has read the flag again, nobody broadcasts. */
  lemma ReopenStrandsProducer() returns (states: seq<State>, steps: seq<Step>)
    ensures IsRun(states, steps) && ProducerStranded(states[|steps|])
    ensures OnlyProducersSleep(states[|steps|])
    ensures forall i :: 0 <= i < |steps| ==> Permitted(states[i], steps[i], false, false, true)
  {
    states, steps := ClosedWithOneSleeper();
    states, steps := Extend(states, steps, SetAllowed(4, true));
    states, steps := Extend(states, steps, ReadFlag(3));
    states, steps := Extend(states, steps, ReadFlag(4));
    assert 2 in PutSleepers(states[9]);
  }

  /** No producer is ever stranded in a run of permitted steps. */
  ghost predicate ProducersAlwaysServed(flush: bool, memoryFails: bool, reopen: bool) {
    forall states: seq<State>, steps: seq<Step>, i: nat ::
      && IsRun(states, steps) && i < |states|
      && (forall k :: 0 <= k < |steps| ==> Permitted(states[k], steps[k], flush, memoryFails, reopen))
      ==> !ProducerStranded(states[i])
  }

  /** Exactly the programs that use none of the three have no lost producer wakeup. */
  lemma ProducersServedIff(flush: bool, memoryFails: bool, reopen: bool)
    ensures ProducersAlwaysServed(flush, memoryFails, reopen) <==> !flush && !memoryFails && !reopen
  {
    if flush {
      var states, steps := FlushStrandsProducer();
      assert ProducerStranded(states[|steps|]);
    } else if memoryFails {
      var states, steps := FailedPushStrandsProducer();
      assert ProducerStranded(states[|steps|]);
    } else if reopen {
      var states, steps := ReopenStrandsProducer();
      assert ProducerStranded(states[|steps|]);
    } else {
      forall states: seq<State>, steps: seq<Step>, i: nat
        | && IsRun(states, steps) && i < |states|
          && forall k :: 0 <= k < |steps| ==> Permitted(states[k], steps[k], false, false, false)
        ensures !ProducerStranded(states[i])
      {
        assert forall k :: 0 <= k < i ==> Permitted(states[k], steps[k], false, false, false);
        NoLostProducerWakeup(states, steps, i);
      }
    }
  }
}
