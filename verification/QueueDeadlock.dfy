/** Deadlock: consumers and producers of an open queue all asleep, and nobody on the way to wake
    them. It takes a lost wakeup on the producers' side, and each of those can bring it about. */
module QueueDeadlock {
  import opened QueueSpec
  import opened QueueMonitor
  import opened QueueProducers

  ghost predicate Deadlocked(s: State) {
    && s.q.allowed
    && GetSleepers(s) != {} && PutSleepers(s) != {}
    && GetWakers(s) == {} && PutWakers(s) == {}
  }

  /** Up to the first step that is not guarded: when threads of both kinds sleep on an open queue,
      at least as many are awake as the queue has places. */
  lemma BothKindsAsleep(states: seq<State>, steps: seq<Step>, i: nat)
    requires IsRun(states, steps) && i < |states|
    requires forall k :: 0 <= k < i ==> Guarded(states[k], steps[k])
    ensures var s := states[i];
            s.q.allowed && GetSleepers(s) != {} && PutSleepers(s) != {} ==> s.q.cap <= |GetWakers(s)| + |PutWakers(s)|
    ensures !Deadlocked(states[i])
  {
    NoLostConsumerWakeup(states, steps, i);
    NoLostProducerWakeup(states, steps, i);
  }

  /** A consumer that finds the queue empty goes to sleep beside the producer. */
  lemma ConsumerJoins(states0: seq<State>, steps0: seq<Step>) returns (states: seq<State>, steps: seq<Step>)
    requires IsRun(states0, steps0) && ProducerStranded(states0[|steps0|]) && OnlyProducersSleep(states0[|steps0|])
    ensures IsRun(states, steps) && states0 <= states && steps == steps0 + [Pop(0, true, {})]
    ensures Deadlocked(states[|steps|])
    ensures forall t :: t in states[|steps|].threads ==>
              var l := states[|steps|].At(t); l.Outside? || l.GetAsleep? || l.PutAsleep?
  {
    var s := states0[|steps0|];
    states, steps := Extend(states0, steps0, Pop(0, true, {}));
    var r := states[|steps|];
    assert r.threads == Rouse(s.threads, {})[0 := GetAsleep];
    assert 0 in GetSleepers(r);
    var t :| t in PutSleepers(s);
    assert t in PutSleepers(r);
  }

  /** No run of permitted steps deadlocks. */
  ghost predicate DeadlockFree(flush: bool, memoryFails: bool, reopen: bool) {
    forall states: seq<State>, steps: seq<Step>, i: nat ::
      && IsRun(states, steps) && i < |states|
      && (forall k :: 0 <= k < |steps| ==> Permitted(states[k], steps[k], flush, memoryFails, reopen))
      ==> !Deadlocked(states[i])
  }

  lemma DeadlockingRun(flush: bool, memoryFails: bool, reopen: bool) returns (states: seq<State>, steps: seq<Step>)
    requires flush || memoryFails || reopen
    ensures IsRun(states, steps) && Deadlocked(states[|steps|])
    ensures forall k :: 0 <= k < |steps| ==> Permitted(states[k], steps[k], flush, memoryFails, reopen)
  {
    if flush {
      states, steps := FlushStrandsProducer();
    } else if memoryFails {
      states, steps := FailedPushStrandsProducer();
    } else {
      states, steps := ReopenStrandsProducer();
    }
    states, steps := ConsumerJoins(states, steps);
  }

  /** Exactly the programs that use none of the three are free of deadlock. */
  lemma DeadlockFreeIff(flush: bool, memoryFails: bool, reopen: bool)
    ensures DeadlockFree(flush, memoryFails, reopen) <==> !flush && !memoryFails && !reopen
  {
    if flush || memoryFails || reopen {
      var states, steps := DeadlockingRun(flush, memoryFails, reopen);
      assert Deadlocked(states[|steps|]);
    } else {
      forall states: seq<State>, steps: seq<Step>, i: nat
        | && IsRun(states, steps) && i < |states|
          && forall k :: 0 <= k < |steps| ==> Permitted(states[k], steps[k], false, false, false)
        ensures !Deadlocked(states[i])
      {
        assert forall k :: 0 <= k < i ==> Permitted(states[k], steps[k], false, false, false);
        BothKindsAsleep(states, steps, i);
      }
    }
  }
}
