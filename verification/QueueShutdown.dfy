/** Closing the queue: what holds after setAllowedNewData(false) has returned, as long as
    nobody reopens it. */
module QueueShutdown {
  import opened Ordering
  import opened QueueSpec
  import opened QueueMonitor

  /** How far the closing call of thread t has got; 3 means that it has returned. */
  ghost predicate Closing(s: State, t: Tid, stage: nat) {
    && !s.q.allowed
    && (stage == 0 ==> s.At(t) == MayNotify)
    && (stage == 1 ==> s.At(t) == NotifyingGet)
    && (stage == 2 ==> s.At(t) == NotifyingPut)
    && (stage >= 2 ==> GetSleepers(s) == {})
    && (stage >= 3 ==> PutSleepers(s) == {})
  }

  predicate Reopens(step: Step) {
    step.SetAllowed? && step.allowed
  }

  /** The stage after a step: only t's own steps move it on. */
  function NextStage(t: Tid, stage: nat, step: Step): nat {
    if stage == 0 && step == ReadFlag(t) then 1
    else if stage == 1 && step == BroadcastGet(t) then 2
    else if stage == 2 && step == BroadcastPut(t) then 3
    else stage
  }

  /** Nobody falls asleep on a closed queue: sleepers only ever leave. */
  lemma ClosedSleepersShrink(s: State, step: Step)
    requires !s.q.allowed && Enabled(s, step)
    ensures GetSleepers(Apply(s, step)) <= GetSleepers(s)
    ensures PutSleepers(Apply(s, step)) <= PutSleepers(s)
  {
  }

  lemma BroadcastsEmpty(s: State, t: Tid)
    ensures s.At(t) == NotifyingGet ==> GetSleepers(Apply(s, BroadcastGet(t))) == {}
    ensures s.At(t) == NotifyingPut ==> PutSleepers(Apply(s, BroadcastPut(t))) == {}
  {
  }

  /** Sleeping or not, t is where it was: the step of another thread can only wake it. */
  lemma OthersLeaveAt(s: State, step: Step, t: Tid)
    requires Enabled(s, step) && !(step.Spurious? && step.t == t) && step.t != t
    requires s.At(t) in {MayNotify, NotifyingGet, NotifyingPut}
    ensures Apply(s, step).At(t) == s.At(t)
  {
  }

  lemma ClosingStep(s: State, step: Step, t: Tid, stage: nat)
    requires Closing(s, t, stage) && Enabled(s, step) && !Reopens(step)
    ensures Closing(Apply(s, step), t, NextStage(t, stage, step))
  {
    ClosedSleepersShrink(s, step);
    BroadcastsEmpty(s, t);
    if stage < 3 && step.t != t {
      OthersLeaveAt(s, step, t);
    }
  }

  /** The stage reached at state j, when the flag was stored by step a. */
  ghost function StageAt(steps: seq<Step>, t: Tid, a: nat, j: nat): (stage: nat)
    requires a < j <= |steps|
    ensures stage <= 3
  {
    if j == a + 1 then 0 else NextStage(t, StageAt(steps, t, a, j - 1), steps[j - 1])
  }

  ghost predicate ClosesForGood(states: seq<State>, steps: seq<Step>, t: Tid, a: nat) {
    && IsRun(states, steps)
    && a < |steps| && steps[a] == SetAllowed(t, false)
    && forall k :: a < k < |steps| ==> !Reopens(steps[k])
  }

  lemma {:induction false} ClosingRun(states: seq<State>, steps: seq<Step>, t: Tid, a: nat, j: nat)
    requires ClosesForGood(states, steps, t, a) && a < j < |states|
    ensures Closing(states[j], t, StageAt(steps, t, a, j))
  {
    if j > a + 1 {
      ClosingRun(states, steps, t, a, j - 1);
      ClosingStep(states[j - 1], steps[j - 1], t, StageAt(steps, t, a, j - 1));
    }
  }

  /** Once t's closing call has reached its last broadcast it has gone through both. */
  lemma {:induction false} LastBroadcastIsReached(states: seq<State>, steps: seq<Step>, t: Tid, a: nat, b: nat)
    requires ClosesForGood(states, steps, t, a) && a < b < |steps|
    requires steps[b] == BroadcastPut(t)
    ensures StageAt(steps, t, a, b + 1) == 3
  {
    ClosingRun(states, steps, t, a, b);
  }

  lemma {:induction false} StageStays(steps: seq<Step>, t: Tid, a: nat, j: nat, k: nat)
    requires a < j <= k <= |steps| && StageAt(steps, t, a, j) == 3
    ensures StageAt(steps, t, a, k) == 3
  {
    if j < k {
      StageStays(steps, t, a, j, k - 1);
    }
  }

  /** After setAllowedNewData(false) has stored the flag (step a) and returned (its last
      broadcast is step b), and while nobody reopens the queue: nobody sleeps on either
      condition variable, ever; every push fails and leaves the contents alone; and a pop takes
      the head as long as there is one and only then reports that no new data will come. */
  lemma Shutdown(states: seq<State>, steps: seq<Step>, t: Tid, a: nat, b: nat, j: nat)
    requires ClosesForGood(states, steps, t, a) && a < b < |steps| && steps[b] == BroadcastPut(t)
    requires b < j < |states|
    ensures GetSleepers(states[j]) == {} && PutSleepers(states[j]) == {}
    ensures !states[j].q.allowed
    ensures j < |steps| && (steps[j].Push? || steps[j].PushResume?) ==>
              && SectionOf(states[j], steps[j]).out == Return(Q_ERR_NONEWDATA)
              && states[j + 1].q == states[j].q
    ensures j < |steps| && (steps[j].PopResume? || (steps[j].Pop? && steps[j].isWait)) ==>
              var sec := SectionOf(states[j], steps[j]);
              if states[j].q.items == [] then sec.out == Return(Q_ERR_NONEWDATA)
              else sec.out == Return(Q_OK) && sec.e == states[j].q.items[0]
  {
    ClosingRun(states, steps, t, a, j);
    LastBroadcastIsReached(states, steps, t, a, b);
    StageStays(steps, t, a, b + 1, j);
  }

  /** xs is what is left of ys after some removals from the front. */
  ghost predicate IsTail(xs: seq<Ptr>, ys: seq<Ptr>) {
    |xs| <= |ys| && xs == ys[|ys| - |xs|..]
  }

  lemma TailOfTail(xs: seq<Ptr>, ys: seq<Ptr>, zs: seq<Ptr>)
    requires IsTail(xs, ys) && IsTail(ys, zs)
    ensures IsTail(xs, zs)
  {
  }

  /** A step on a closed queue adds nothing: it leaves the contents, takes the head, or flushes. */
  lemma ClosedStep(s: State, step: Step)
    requires !s.q.allowed && Enabled(s, step)
    ensures IsTail(Apply(s, step).q.items, s.q.items)
  {
  }

  /** From the store of the flag on the contents only shrink, from the front: what is held at
      a later time is a tail of what was held before. */
  lemma {:induction false} ClosedContentsDrain(states: seq<State>, steps: seq<Step>, t: Tid, a: nat, i: nat, j: nat)
    requires ClosesForGood(states, steps, t, a) && a < i <= j < |states|
    ensures IsTail(states[j].q.items, states[i].q.items)
  {
    if i < j {
      ClosedContentsDrain(states, steps, t, a, i, j - 1);
      ClosingRun(states, steps, t, a, j - 1);
      ClosedStep(states[j - 1], steps[j - 1]);
      TailOfTail(states[j].q.items, states[j - 1].q.items, states[i].q.items);
    }
  }
}
