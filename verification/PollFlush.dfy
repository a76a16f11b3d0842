/** The handshake between Poll::wait and Poll::setFlushing. Every load, store and
    read-modify-write of the atomics mWaiting and mFlushing is one step, and the steps of all
    threads interleave. */
module PollFlush {
  import opened PollToken

  type Tid = nat

  /** What wait returns: the number of active descriptors, or -1 with errno. */
  datatype WaitResult = Active(count: int) | AlreadyWaiting | Busy

  datatype Pc =
    | Out
    // wait
    | Loaded(seen: int)           // has loaded mWaiting, is about to add 1
    | Counted(seen: int)          // has added 1
    | Polling                     // is inside poll()
    | Polled(count: int)          // poll() has returned
    | Leaving(result: WaitResult) // is about to subtract 1 and return
    // setFlushing
    | Stored                      // has stored mFlushing
    | Checked                     // has found mFlushing set and the poll controllable
    | MustRaise                   // has found somebody waiting
    | Raising                     // is inside raiseWakeup, with the mutex

  datatype State = State(controllable: bool, waiting: int, flushing: bool, token: Token, threads: map<Tid, Pc>) {
    function At(t: Tid): Pc {
      if t in threads then threads[t] else Out
    }
  }

  datatype Step =
    | LoadWaiting(t: Tid)
    | AddWaiting(t: Tid)
    | LoadBeforePoll(t: Tid)
    | PollReturns(t: Tid, count: int)
    | LoadAfterPoll(t: Tid)
    | SubWaiting(t: Tid)
    | StoreFlushing(t: Tid, flushing: bool)
    | LoadFlushing(t: Tid)
    | LoadWaiters(t: Tid)
    | EnterRaise(t: Tid)
    | InRaise(t: Tid, action: PollToken.Step)

  predicate Enabled(s: State, step: Step) {
    match step
    case LoadWaiting(t) => s.At(t).Out?
    case AddWaiting(t) => s.At(t).Loaded?
    case LoadBeforePoll(t) => s.At(t).Counted?
    case PollReturns(t, _) => s.At(t).Polling?
    case LoadAfterPoll(t) => s.At(t).Polled?
    case SubWaiting(t) => s.At(t).Leaving?
    case StoreFlushing(t, _) => s.At(t).Out?
    case LoadFlushing(t) => s.At(t).Stored?
    case LoadWaiters(t) => s.At(t).Checked?
    case EnterRaise(t) => s.At(t).MustRaise? && s.token.op.Free?
    case InRaise(t, action) => s.At(t).Raising? && !s.token.op.Free? && PollToken.Enabled(s.token, action)
  }

  function Go(s: State, t: Tid, pc: Pc): State {
    s.(threads := s.threads[t := pc])
  }

  function Apply(s: State, step: Step): State
    requires Enabled(s, step)
  {
    match step
    case LoadWaiting(t) => Go(s, t, Loaded(s.waiting))
    case AddWaiting(t) => Go(s, t, Counted(s.At(t).seen)).(waiting := s.waiting + 1)
    case LoadBeforePoll(t) =>
      Go(s, t, if s.At(t).seen > 0 then Leaving(AlreadyWaiting) else if s.flushing then Leaving(Busy) else Polling)
    case PollReturns(t, count) => Go(s, t, Polled(count))
    case LoadAfterPoll(t) => Go(s, t, if s.flushing then Leaving(Busy) else Leaving(Active(s.At(t).count)))
    case SubWaiting(t) => Go(s, t, Out).(waiting := s.waiting - 1)
    case StoreFlushing(t, flushing) => Go(s, t, Stored).(flushing := flushing)
    case LoadFlushing(t) => Go(s, t, if s.flushing && s.controllable then Checked else Out)
    case LoadWaiters(t) => Go(s, t, if s.waiting > 0 then MustRaise else Out)
    case EnterRaise(t) => Go(s, t, Raising).(token := PollToken.Apply(s.token, BeginRaise))
    case InRaise(t, action) =>
      var token := PollToken.Apply(s.token, action);
      Go(s, t, if token.op.Free? then Out else Raising).(token := token)
  }

  ghost predicate IsRun(states: seq<State>, steps: seq<Step>) {
    && |states| == |steps| + 1
    && states[0] == State(states[0].controllable, 0, false, INITIAL, map[])
    && forall i :: 0 <= i < |steps| ==> Enabled(states[i], steps[i]) && states[i + 1] == Apply(states[i], steps[i])
  }

  // ---- mWaiting counts the threads between its increment and its decrement ----

  predicate Counts(pc: Pc) {
    pc.Counted? || pc.Polling? || pc.Polled? || pc.Leaving?
  }

  function CountedThreads(s: State): set<Tid> {
    set t | t in s.threads && Counts(s.threads[t])
  }

  lemma MoveCounts(s: State, t: Tid, pc: Pc, r: State)
    requires r.threads == s.threads[t := pc]
    ensures |CountedThreads(r)| == |CountedThreads(s)| - (if Counts(s.At(t)) then 1 else 0) + (if Counts(pc) then 1 else 0)
  {
    var others := CountedThreads(s) - {t};
    assert CountedThreads(r) == if Counts(pc) then others + {t} else others;
  }

  lemma StepKeepsCount(s: State, step: Step)
    requires s.waiting == |CountedThreads(s)| && Enabled(s, step)
    ensures Apply(s, step).waiting == |CountedThreads(Apply(s, step))|
  {
    MoveCounts(s, step.t, Apply(s, step).At(step.t), Apply(s, step));
  }

  /** In every state of every run, with any number of waiters and of flushing threads. */
  lemma {:induction false} WaitingIsCount(states: seq<State>, steps: seq<Step>, i: nat)
    requires IsRun(states, steps) && i < |states|
    ensures states[i].waiting == |CountedThreads(states[i])|
  {
    if i == 0 {
      assert CountedThreads(states[0]) == {};
    } else {
      WaitingIsCount(states, steps, i - 1);
      StepKeepsCount(states[i - 1], steps[i - 1]);
    }
  }

  // ---- the handshake ----

  predicate InSetFlushing(pc: Pc) {
    pc.Stored? || pc.Checked? || pc.MustRaise? || pc.Raising?
  }

  /** Whoever is inside poll() finds the control byte readable. */
  ghost predicate PollersWoken(s: State) {
    s.token.bytes > 0 || forall t :: !s.At(t).Polling?
  }

  /** Control writes are retried, but none of them fails. */
  ghost predicate WritesSucceed(steps: seq<Step>) {
    forall i :: 0 <= i < |steps| ==> !WriteFailed(steps[i])
  }

  predicate WriteFailed(step: Step) {
    step.InRaise? && step.action.WriteFails?
  }

  /** Whatever the threads do, and whichever of them call setFlushing. */
  ghost predicate FlushInv(s: State) {
    && s.waiting == |CountedThreads(s)|
    && TokenInv(s.token)
    && s.token.op in {Free, RaiseTest, RaiseWrite, RaiseAdd}
  }

  lemma StepKeepsToken(s: State, step: Step)
    requires TokenInv(s.token) && s.token.op in {Free, RaiseTest, RaiseWrite, RaiseAdd} && Enabled(s, step)
    ensures TokenInv(Apply(s, step).token) && Apply(s, step).token.op in {Free, RaiseTest, RaiseWrite, RaiseAdd}
    ensures Apply(s, step).controllable == s.controllable
  {
  }

  lemma {:induction false} FlushRun(states: seq<State>, steps: seq<Step>, i: nat)
    requires IsRun(states, steps) && i < |states|
    ensures FlushInv(states[i]) && states[i].controllable == states[0].controllable
  {
    WaitingIsCount(states, steps, i);
    if i > 0 {
      FlushRun(states, steps, i - 1);
      StepKeepsToken(states[i - 1], steps[i - 1]);
    }
  }

  /** While the flag is set nobody goes into poll(), and the byte stays where it is. */
  lemma WokenStays(s: State, step: Step)
    requires s.flushing && s.token.op in {Free, RaiseTest, RaiseWrite, RaiseAdd} && Enabled(s, step)
    ensures forall t :: Apply(s, step).At(t).Polling? ==> s.At(t).Polling?
    ensures PollersWoken(s) ==> PollersWoken(Apply(s, step))
  {
    assert forall t :: t != step.t ==> Apply(s, step).At(t) == s.At(t);
  }

  /** A call of setFlushing that returns while the flag is set has seen that nobody waits, or
      has made sure that the byte is there. */
  lemma CallServesPollers(s: State, step: Step, c: Tid)
    requires FlushInv(s) && s.controllable && s.flushing && Enabled(s, step) && !WriteFailed(step)
    requires InSetFlushing(s.At(c)) && !InSetFlushing(Apply(s, step).At(c))
    ensures PollersWoken(Apply(s, step))
  {
    assert step.t == c;
    if step.LoadWaiters? {
      assert s.waiting <= 0;
      assert forall t :: s.At(t).Polling? ==> t in CountedThreads(s);
      WokenStays(s, step);
    }
  }

  /** Thread c stores the flag in step a, as the first step of setFlushing(true), and nobody
      clears it before state i. */
  ghost predicate FlagKept(steps: seq<Step>, c: Tid, a: nat, i: nat) {
    && a < i <= |steps| && steps[a] == StoreFlushing(c, true)
    && forall k :: a < k < i && steps[k].StoreFlushing? ==> steps[k].flushing
  }

  lemma {:induction false} FlagIsSet(states: seq<State>, steps: seq<Step>, c: Tid, a: nat, i: nat)
    requires IsRun(states, steps) && FlagKept(steps, c, a, i)
    ensures states[i].flushing
  {
    if a + 1 < i {
      FlagIsSet(states, steps, c, a, i - 1);
    }
  }

  lemma {:induction false} CallRun(states: seq<State>, steps: seq<Step>, c: Tid, a: nat, i: nat)
    requires IsRun(states, steps) && WritesSucceed(steps) && states[0].controllable && FlagKept(steps, c, a, i)
    ensures InSetFlushing(states[i].At(c)) || PollersWoken(states[i])
  {
    if a + 1 < i {
      CallRun(states, steps, c, a, i - 1);
      FlagIsSet(states, steps, c, a, i - 1);
      FlushRun(states, steps, i - 1);
      if PollersWoken(states[i - 1]) {
        WokenStays(states[i - 1], steps[i - 1]);
      } else if !InSetFlushing(states[i].At(c)) {
        CallServesPollers(states[i - 1], steps[i - 1], c);
      }
    }
  }

  /** The setFlushing(true) that c began in step a has returned by state k, and up to state i
      nobody has cleared the flag. */
  ghost predicate Returned(states: seq<State>, steps: seq<Step>, c: Tid, a: nat, k: nat, i: nat) {
    && IsRun(states, steps) && FlagKept(steps, c, a, i)
    && a < k <= i && !InSetFlushing(states[k].At(c))
  }

  lemma {:induction false} WokenRun(states: seq<State>, steps: seq<Step>, c: Tid, a: nat, k: nat, i: nat)
    requires Returned(states, steps, c, a, k, i) && WritesSucceed(steps) && states[0].controllable
    ensures PollersWoken(states[i])
    decreases i
  {
    if k == i {
      CallRun(states, steps, c, a, i);
    } else {
      WokenRun(states, steps, c, a, k, i - 1);
      FlagIsSet(states, steps, c, a, i - 1);
      FlushRun(states, steps, i - 1);
      WokenStays(states[i - 1], steps[i - 1]);
    }
  }

  /** Once any one call of setFlushing(true) has returned, and until the flag is cleared: every
      thread inside poll() finds the control byte readable, and nobody goes into poll() any
      more; with any number of threads that wait and that call setFlushing. */
  lemma FlushHandshake(states: seq<State>, steps: seq<Step>, c: Tid, a: nat, k: nat, i: nat)
    requires Returned(states, steps, c, a, k, i) && WritesSucceed(steps) && states[0].controllable
    ensures PollersWoken(states[i])
    ensures i < |steps| ==> forall t :: states[i + 1].At(t).Polling? ==> states[i].At(t).Polling?
  {
    WokenRun(states, steps, c, a, k, i);
    FlagIsSet(states, steps, c, a, i);
    FlushRun(states, steps, i);
    if i < |steps| {
      WokenStays(states[i], steps[i]);
    }
  }

  /** The store that set the flag last. */
  lemma {:induction false} LastStore(states: seq<State>, steps: seq<Step>, i: nat) returns (c: Tid, a: nat)
    requires IsRun(states, steps) && i < |states| && states[i].flushing
    ensures FlagKept(steps, c, a, i)
  {
    if steps[i - 1].StoreFlushing? {
      c, a := steps[i - 1].t, i - 1;
    } else {
      c, a := LastStore(states, steps, i - 1);
    }
  }

  /** In particular whenever the flag is set and no thread is inside setFlushing. */
  lemma QuietHandshake(states: seq<State>, steps: seq<Step>, i: nat)
    requires IsRun(states, steps) && WritesSucceed(steps) && states[0].controllable && i < |states|
    requires states[i].flushing && forall t :: !InSetFlushing(states[i].At(t))
    ensures PollersWoken(states[i])
  {
    var c, a := LastStore(states, steps, i);
    FlushHandshake(states, steps, c, a, i, i);
  }

  /** A thread that is inside poll() while the flag is set, and stays set, can return from that
      wait with -1 and EBUSY only. */
  lemma {:induction false} LeavesBusy(states: seq<State>, steps: seq<Step>, t: Tid, i: nat, j: nat)
    requires IsRun(states, steps) && i <= j < |states|
    requires states[i].At(t).Polling?
    requires forall k :: i <= k <= j ==> states[k].flushing
    requires forall k :: i <= k < j ==> steps[k] != LoadWaiting(t) && !(steps[k].StoreFlushing? && steps[k].t == t)
    ensures var pc := states[j].At(t); pc.Polling? || pc.Polled? || pc == Leaving(Busy) || pc == Out
  {
    if i < j {
      LeavesBusy(states, steps, t, i, j - 1);
    }
  }

  // ---- exactly when the handshake holds ----

  /** The handshake, over all runs of a poll built with this flag; writes may fail or not. */
  ghost predicate HandshakeAlways(controllable: bool, writesMayFail: bool) {
    forall states: seq<State>, steps: seq<Step>, c: Tid, a: nat, k: nat, i: nat ::
      && Returned(states, steps, c, a, k, i)
      && states[0].controllable == controllable && (writesMayFail || WritesSucceed(steps))
      ==> PollersWoken(states[i])
  }

  lemma Extend(states: seq<State>, steps: seq<Step>, step: Step) returns (states': seq<State>, steps': seq<Step>)
    requires IsRun(states, steps) && Enabled(states[|steps|], step)
    ensures steps' == steps + [step] && IsRun(states', steps') && states <= states'
    ensures states'[|steps'|] == Apply(states[|steps|], step)
  {
    states', steps' := states + [Apply(states[|steps|], step)], steps + [step];
  }

  /** Thread 1 is inside poll(), and thread 0 has stored the flag. */
  lemma FlushBegun(controllable: bool) returns (states: seq<State>, steps: seq<Step>)
    ensures IsRun(states, steps) && |steps| == 4 && states[0].controllable == controllable
    ensures states[4] == State(controllable, 1, true, INITIAL, map[0 := Stored, 1 := Polling])
    ensures steps[3] == StoreFlushing(0, true) && WritesSucceed(steps)
  {
    states, steps := [State(controllable, 0, false, INITIAL, map[])], [];
    states, steps := Extend(states, steps, LoadWaiting(1));
    states, steps := Extend(states, steps, AddWaiting(1));
    assert states[2] == State(controllable, 1, false, INITIAL, map[1 := Counted(0)]);
    states, steps := Extend(states, steps, LoadBeforePoll(1));
    assert states[3] == State(controllable, 1, false, INITIAL, map[1 := Polling]);
    states, steps := Extend(states, steps, StoreFlushing(0, true));
  }

  /** Without control nobody raises the byte. */
  lemma UncontrolledPollerSleepsOn() returns (states: seq<State>, steps: seq<Step>)
    ensures states != [] && !states[0].controllable && WritesSucceed(steps)
    ensures |steps| == 5 && Returned(states, steps, 0, 3, 5, 5) && !PollersWoken(states[5])
  {
    states, steps := FlushBegun(false);
    states, steps := Extend(states, steps, LoadFlushing(0));
    assert states[5].At(1).Polling?;
  }

  /** Thread 0 has found the flag set and somebody waiting. */
  lemma FlushMustRaise() returns (states: seq<State>, steps: seq<Step>)
    ensures IsRun(states, steps) && |steps| == 6 && states[0].controllable
    ensures steps[3] == StoreFlushing(0, true) && !steps[4].StoreFlushing? && !steps[5].StoreFlushing?
    ensures states[6] == State(true, 1, true, INITIAL, map[0 := MustRaise, 1 := Polling])
  {
    states, steps := FlushBegun(true);
    states, steps := Extend(states, steps, LoadFlushing(0));
    assert states[5] == State(true, 1, true, INITIAL, map[0 := Checked, 1 := Polling]);
    states, steps := Extend(states, steps, LoadWaiters(0));
  }

  /** Thread 0 is inside raiseWakeup, about to write the byte. */
  lemma FlushAboutToWrite() returns (states: seq<State>, steps: seq<Step>)
    ensures IsRun(states, steps) && |steps| == 8 && states[0].controllable
    ensures steps[3] == StoreFlushing(0, true) && forall k :: 3 < k < 8 ==> !steps[k].StoreFlushing?
    ensures states[8] == State(true, 1, true, Token(0, 0, RaiseWrite), map[0 := Raising, 1 := Polling])
  {
    states, steps := FlushMustRaise();
    states, steps := Extend(states, steps, EnterRaise(0));
    assert states[7] == State(true, 1, true, Token(0, 0, RaiseTest), map[0 := Raising, 1 := Polling]);
    states, steps := Extend(states, steps, InRaise(0, Test));
  }

  /** setFlushing ignores that its wakeup could not be written. */
  lemma FailedWritePollerSleepsOn() returns (states: seq<State>, steps: seq<Step>)
    ensures states != [] && states[0].controllable
    ensures |steps| == 9 && Returned(states, steps, 0, 3, 9, 9) && !PollersWoken(states[9])
  {
    states, steps := FlushAboutToWrite();
    states, steps := Extend(states, steps, InRaise(0, WriteFails));
    assert states[9].At(1).Polling?;
  }

  /** setFlushing(true) always wakes whoever is inside poll() exactly when the poll was built
      controllable and its control writes do not fail. */
  lemma HandshakeIff(controllable: bool, writesMayFail: bool)
    ensures HandshakeAlways(controllable, writesMayFail) <==> controllable && !writesMayFail
  {
    if controllable && !writesMayFail {
      forall states: seq<State>, steps: seq<Step>, c: Tid, a: nat, k: nat, i: nat
        | Returned(states, steps, c, a, k, i) && states[0].controllable && WritesSucceed(steps)
        ensures PollersWoken(states[i])
      {
        FlushHandshake(states, steps, c, a, k, i);
      }
    } else if !controllable {
      var states, steps := UncontrolledPollerSleepsOn();
      assert Returned(states, steps, 0, 3, 5, 5);
    } else {
      var states, steps := FailedWritePollerSleepsOn();
      assert Returned(states, steps, 0, 3, 9, 9);
    }
  }
}
