/** What Poll::wait answers and when Poll::setFlushing raises the wakeup, told from the steps the
    thread has taken and the states it took them in. */
module PollAnswers {
  import PollToken
  import opened PollFlush

  /** When this very step was taken last before step n; -1 if never. */
  function Last(steps: seq<Step>, step: Step, n: nat): (k: int)
    requires n <= |steps|
    ensures -1 <= k < n && (k >= 0 ==> steps[k] == step)
  {
    if n == 0 then -1 else if steps[n - 1] == step then n - 1 else Last(steps, step, n - 1)
  }

  /** What the poll() call of t that returned last before step n has returned. */
  function LastCount(steps: seq<Step>, t: Tid, n: nat): int
    requires n <= |steps|
  {
    if n == 0 then 0
    else if steps[n - 1].PollReturns? && steps[n - 1].t == t then steps[n - 1].count
    else LastCount(steps, t, n - 1)
  }

  /** In every run only t's own steps move t. */
  lemma OthersStay(s: State, step: Step, t: Tid)
    requires Enabled(s, step) && step.t != t
    ensures Apply(s, step).At(t) == s.At(t)
  {
  }

  // ---- wait ----

  /** When t loaded mWaiting for its present wait, somebody was between the increment and the
      decrement. */
  ghost predicate FoundWaiter(states: seq<State>, steps: seq<Step>, t: Tid, i: nat)
    requires |states| == |steps| + 1 && i <= |steps|
  {
    var a := Last(steps, LoadWaiting(t), i);
    a >= 0 && CountedThreads(states[a]) != {}
  }

  /** The flag was set when t tested it before poll(). */
  ghost predicate FlagBefore(states: seq<State>, steps: seq<Step>, t: Tid, i: nat)
    requires |states| == |steps| + 1 && i <= |steps|
  {
    var b := Last(steps, LoadBeforePoll(t), i);
    b >= 0 && states[b].flushing
  }

  /** t has tested the flag after poll() as well, in its present wait. */
  predicate TestedAfter(steps: seq<Step>, t: Tid, i: nat)
    requires i <= |steps|
  {
    Last(steps, LoadAfterPoll(t), i) > Last(steps, LoadBeforePoll(t), i)
  }

  ghost predicate FlagAfter(states: seq<State>, steps: seq<Step>, t: Tid, i: nat)
    requires |states| == |steps| + 1 && i <= |steps|
  {
    TestedAfter(steps, t, i) && states[Last(steps, LoadAfterPoll(t), i)].flushing
  }

  /** The answer the source gives: EPERM if another thread was waiting, else EBUSY if the flag
      was set before or after poll(), else what poll() returned. */
  ghost function Answer(states: seq<State>, steps: seq<Step>, t: Tid, i: nat): WaitResult
    requires |states| == |steps| + 1 && i <= |steps|
  {
    if FoundWaiter(states, steps, t, i) then AlreadyWaiting
    else if FlagBefore(states, steps, t, i) || FlagAfter(states, steps, t, i) then Busy
    else Active(LastCount(steps, t, i))
  }

  /** What is known of t at its place in wait. */
  ghost predicate WaitHistory(states: seq<State>, steps: seq<Step>, t: Tid, i: nat)
    requires |states| == |steps| + 1 && i <= |steps|
  {
    var a := Last(steps, LoadWaiting(t), i);
    match states[i].At(t)
    case Loaded(seen) => a >= 0 && seen == |CountedThreads(states[a])|
    case Counted(seen) => a >= 0 && seen == |CountedThreads(states[a])|
    case Polling => !FoundWaiter(states, steps, t, i) && !FlagBefore(states, steps, t, i) && !TestedAfter(steps, t, i)
    case Polled(count) =>
      && !FoundWaiter(states, steps, t, i) && !FlagBefore(states, steps, t, i)
      && count == LastCount(steps, t, i)
    case Leaving(result) =>
      && result == Answer(states, steps, t, i)
      && (TestedAfter(steps, t, i) <==> !FoundWaiter(states, steps, t, i) && !FlagBefore(states, steps, t, i))
    case _ => true
  }

  lemma OthersKeepHistory(states: seq<State>, steps: seq<Step>, t: Tid, i: nat)
    requires IsRun(states, steps) && i < |steps| && WaitHistory(states, steps, t, i) && steps[i].t != t
    ensures WaitHistory(states, steps, t, i + 1)
  {
    OthersStay(states[i], steps[i], t);
    assert LastCount(steps, t, i + 1) == LastCount(steps, t, i);
  }

  lemma OwnStepsAreTold(states: seq<State>, steps: seq<Step>, t: Tid, i: nat)
    requires IsRun(states, steps) && i < |steps| && WaitHistory(states, steps, t, i) && steps[i].t == t
    requires states[i].waiting == |CountedThreads(states[i])|
    ensures WaitHistory(states, steps, t, i + 1)
  {
    var step, l := steps[i], states[i + 1].At(t);
    assert l == Apply(states[i], step).threads[t];
    if step.LoadBeforePoll? || step.LoadAfterPoll? {
      assert LastCount(steps, t, i + 1) == LastCount(steps, t, i);
    }
  }

  /** In every run, with any number of waiting and flushing threads: whoever is inside poll()
      found nobody waiting and the flag clear, and whoever is about to return from wait returns
      what the source says it should. */
  lemma {:induction false} WaitAnswers(states: seq<State>, steps: seq<Step>, t: Tid, i: nat)
    requires IsRun(states, steps) && i < |states|
    ensures WaitHistory(states, steps, t, i)
    ensures states[i].At(t).Polling? ==> !FoundWaiter(states, steps, t, i) && !FlagBefore(states, steps, t, i)
    ensures states[i].At(t).Leaving? ==> states[i].At(t).result == Answer(states, steps, t, i)
  {
    if i > 0 {
      WaitAnswers(states, steps, t, i - 1);
      WaitingIsCount(states, steps, i - 1);
      if steps[i - 1].t == t {
        OwnStepsAreTold(states, steps, t, i - 1);
      } else {
        OthersKeepHistory(states, steps, t, i - 1);
      }
    }
  }

  // ---- setFlushing ----

  /** When t last stored the flag before step n; -1 if never. */
  function LastSet(steps: seq<Step>, t: Tid, n: nat): (k: int)
    requires n <= |steps|
    ensures -1 <= k < n && (k >= 0 ==> steps[k].StoreFlushing? && steps[k].t == t)
  {
    if n == 0 then -1
    else if steps[n - 1].StoreFlushing? && steps[n - 1].t == t then n - 1
    else LastSet(steps, t, n - 1)
  }

  /** In its last setFlushing t has found the flag set and the poll controllable. */
  ghost predicate FoundFlag(states: seq<State>, steps: seq<Step>, t: Tid, i: nat)
    requires |states| == |steps| + 1 && i <= |steps|
  {
    var b := Last(steps, LoadFlushing(t), i);
    b >= 0 && states[b].flushing && states[b].controllable
  }

  /** And after that it has looked for waiting threads, and found one. */
  ghost predicate FoundSomebody(states: seq<State>, steps: seq<Step>, t: Tid, i: nat)
    requires |states| == |steps| + 1 && i <= |steps|
  {
    var c := Last(steps, LoadWaiters(t), i);
    c > Last(steps, LoadFlushing(t), i) && CountedThreads(states[c]) != {}
  }

  /** What is known of t at its place in setFlushing, and after it. */
  ghost predicate FlushHistory(states: seq<State>, steps: seq<Step>, t: Tid, i: nat)
    requires |states| == |steps| + 1 && i <= |steps|
  {
    var a, b := LastSet(steps, t, i), Last(steps, LoadFlushing(t), i);
    var c, d := Last(steps, LoadWaiters(t), i), Last(steps, EnterRaise(t), i);
    match states[i].At(t)
    case Stored => a > b && a >= 0
    case Checked => a < b && c < b && d < b && FoundFlag(states, steps, t, i)
    case MustRaise => a < b && d < b && FoundFlag(states, steps, t, i) && FoundSomebody(states, steps, t, i)
    case Raising => a < b < d && FoundFlag(states, steps, t, i) && FoundSomebody(states, steps, t, i)
    case _ =>
      && (a >= 0 ==> a < b)
      && (b >= 0 ==> (d > b <==> FoundFlag(states, steps, t, i) && FoundSomebody(states, steps, t, i)))
      && (b >= 0 && FoundFlag(states, steps, t, i) ==> c > b)
  }

  lemma OthersKeepFlushHistory(states: seq<State>, steps: seq<Step>, t: Tid, i: nat)
    requires IsRun(states, steps) && i < |steps| && FlushHistory(states, steps, t, i) && steps[i].t != t
    ensures FlushHistory(states, steps, t, i + 1)
  {
    OthersStay(states[i], steps[i], t);
    assert Last(steps, LoadFlushing(t), i + 1) == Last(steps, LoadFlushing(t), i);
    assert Last(steps, LoadWaiters(t), i + 1) == Last(steps, LoadWaiters(t), i);
    assert Last(steps, EnterRaise(t), i + 1) == Last(steps, EnterRaise(t), i);
    assert LastSet(steps, t, i + 1) == LastSet(steps, t, i);
    assert FoundFlag(states, steps, t, i + 1) == FoundFlag(states, steps, t, i);
    assert FoundSomebody(states, steps, t, i + 1) == FoundSomebody(states, steps, t, i);
  }

  /** The steps of a wait tell nothing about setFlushing. */
  lemma WaitKeepsFlushHistory(states: seq<State>, steps: seq<Step>, t: Tid, i: nat)
    requires IsRun(states, steps) && i < |steps| && FlushHistory(states, steps, t, i) && steps[i].t == t
    requires !InSetFlushing(states[i].At(t)) && !steps[i].StoreFlushing?
    ensures FlushHistory(states, steps, t, i + 1)
  {
    assert states[i + 1].At(t) == Apply(states[i], steps[i]).threads[t];
    assert FoundFlag(states, steps, t, i + 1) == FoundFlag(states, steps, t, i);
    assert FoundSomebody(states, steps, t, i + 1) == FoundSomebody(states, steps, t, i);
  }

  lemma OwnFlushStepsAreTold(states: seq<State>, steps: seq<Step>, t: Tid, i: nat)
    requires IsRun(states, steps) && i < |steps| && FlushHistory(states, steps, t, i) && steps[i].t == t
    requires InSetFlushing(states[i].At(t)) || steps[i].StoreFlushing?
    requires states[i].waiting == |CountedThreads(states[i])|
    ensures FlushHistory(states, steps, t, i + 1)
  {
    assert states[i + 1].At(t) == Apply(states[i], steps[i]).threads[t];
  }

  lemma FlushHistoryGrows(states: seq<State>, steps: seq<Step>, t: Tid, i: nat)
    requires IsRun(states, steps) && i < |steps| && FlushHistory(states, steps, t, i)
    ensures FlushHistory(states, steps, t, i + 1)
  {
    if steps[i].t == t && (InSetFlushing(states[i].At(t)) || steps[i].StoreFlushing?) {
      WaitingIsCount(states, steps, i);
      OwnFlushStepsAreTold(states, steps, t, i);
    } else if steps[i].t == t {
      WaitKeepsFlushHistory(states, steps, t, i);
    } else {
      OthersKeepFlushHistory(states, steps, t, i);
    }
  }

  /** In every run: every setFlushing tests the flag after it has stored it; and it goes on to
      raise the wakeup exactly if it finds the flag set and the poll controllable, and then
      somebody waiting. */
  lemma {:induction false} FlushAnswers(states: seq<State>, steps: seq<Step>, t: Tid, i: nat)
    requires IsRun(states, steps) && i < |states|
    ensures FlushHistory(states, steps, t, i)
  {
    if i == 0 {
      assert states[0].At(t).Out?;
    } else {
      FlushAnswers(states, steps, t, i - 1);
      FlushHistoryGrows(states, steps, t, i - 1);
    }
  }

  /** Up to state i nobody stores the flag as set, or nobody waits, or the poll has no control. */
  ghost predicate NoCause(states: seq<State>, steps: seq<Step>, i: nat)
    requires |states| == |steps| + 1 && i <= |steps|
  {
    || !states[0].controllable
    || (forall k :: 0 <= k < i && steps[k].StoreFlushing? ==> !steps[k].flushing)
    || (forall k :: 0 <= k < i ==> !steps[k].AddWaiting?)
  }

  lemma {:induction false} NobodyCounts(states: seq<State>, steps: seq<Step>, t: Tid, i: nat)
    requires IsRun(states, steps) && i < |states|
    requires forall k :: 0 <= k < i ==> !steps[k].AddWaiting?
    ensures !Counts(states[i].At(t))
  {
    if i > 0 {
      NobodyCounts(states, steps, t, i - 1);
      if steps[i - 1].t != t {
        OthersStay(states[i - 1], steps[i - 1], t);
      }
    }
  }

  lemma NobodyCounted(states: seq<State>, steps: seq<Step>, i: nat)
    requires IsRun(states, steps) && i < |states|
    requires forall k :: 0 <= k < i ==> !steps[k].AddWaiting?
    ensures CountedThreads(states[i]) == {}
  {
    forall t | t in states[i].threads ensures !Counts(states[i].threads[t]) {
      NobodyCounts(states, steps, t, i);
    }
  }

  /** Nobody gets as far as raising the wakeup. */
  lemma NoCauseNoRaise(states: seq<State>, steps: seq<Step>, i: nat)
    requires IsRun(states, steps) && i < |steps| && NoCause(states, steps, i)
    ensures !steps[i].EnterRaise?
  {
    if steps[i].EnterRaise? {
      var t := steps[i].t;
      FlushAnswers(states, steps, t, i);
      var b, c := Last(steps, LoadFlushing(t), i), Last(steps, LoadWaiters(t), i);
      FlushRun(states, steps, b);
      if forall k :: 0 <= k < i && steps[k].StoreFlushing? ==> !steps[k].flushing {
        var _, _ := LastStore(states, steps, b);
      } else if forall k :: 0 <= k < i ==> !steps[k].AddWaiting? {
        NobodyCounted(states, steps, c);
      }
    }
  }

  /** The control socket of such a run is never touched. */
  lemma {:induction false} NoCauseNoWakeup(states: seq<State>, steps: seq<Step>, i: nat)
    requires IsRun(states, steps) && i < |states| && NoCause(states, steps, i)
    ensures states[i].token == PollToken.INITIAL
  {
    if i > 0 {
      NoCauseNoWakeup(states, steps, i - 1);
      NoCauseNoRaise(states, steps, i - 1);
    }
  }

  // ---- nobody is held up but by poll() and the mutex ----

  /** At most one thread is inside raiseWakeup, and then the mutex is taken for it. */
  ghost predicate MutexHeld(s: State) {
    && (forall t, u :: s.At(t).Raising? && s.At(u).Raising? ==> t == u)
    && (s.token.op.Free? <==> forall t :: !s.At(t).Raising?)
  }

  lemma StepKeepsMutex(s: State, step: Step)
    requires MutexHeld(s) && Enabled(s, step)
    ensures MutexHeld(Apply(s, step))
  {
    var r := Apply(s, step);
    assert r.At(step.t) == r.threads[step.t];
    forall t | t != step.t ensures r.At(t) == s.At(t) {
      OthersStay(s, step, t);
    }
  }

  lemma {:induction false} MutexIsExclusive(states: seq<State>, steps: seq<Step>, i: nat)
    requires IsRun(states, steps) && i < |states|
    ensures MutexHeld(states[i])
  {
    if i > 0 {
      MutexIsExclusive(states, steps, i - 1);
      StepKeepsMutex(states[i - 1], steps[i - 1]);
    }
  }

  /** In every run: a thread that is outside can call wait or setFlushing, and one inside can go
      on, unless it wants the mutex and another has it; then that one can go on. */
  lemma EverybodyCanGoOn(states: seq<State>, steps: seq<Step>, i: nat, t: Tid, flushing: bool, count: int)
    requires IsRun(states, steps) && i < |states|
    ensures var s := states[i];
            && (s.At(t).Out? ==> Enabled(s, LoadWaiting(t)) && Enabled(s, StoreFlushing(t, flushing)))
            && (s.At(t).Polling? ==> Enabled(s, PollReturns(t, count)))
            && (s.At(t).MustRaise? && s.token.op.Free? ==> Enabled(s, EnterRaise(t)))
            && (s.At(t).MustRaise? && !s.token.op.Free? ==> exists u :: s.At(u).Raising?)
            && (!s.At(t).MustRaise? ==> exists step :: Enabled(s, step) && step.t == t)
  {
    MutexIsExclusive(states, steps, i);
    FlushRun(states, steps, i);
    var s := states[i];
    if !s.At(t).MustRaise? {
      var step := NextOf(s, t, count);
      assert Enabled(s, step) && step.t == t;
    }
  }

  /** A step t can take next. */
  function NextOf(s: State, t: Tid, count: int): Step {
    match s.At(t)
    case Out => LoadWaiting(t)
    case Loaded(_) => AddWaiting(t)
    case Counted(_) => LoadBeforePoll(t)
    case Polling => PollReturns(t, count)
    case Polled(_) => LoadAfterPoll(t)
    case Leaving(_) => SubWaiting(t)
    case Stored => LoadFlushing(t)
    case Checked => LoadWaiters(t)
    case MustRaise => EnterRaise(t)
    case Raising =>
      InRaise(t, if s.token.op.RaiseTest? then PollToken.Test
                 else if s.token.op.RaiseWrite? then PollToken.WriteOk
                 else PollToken.Update)
  }
}
