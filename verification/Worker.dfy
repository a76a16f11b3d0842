/** The life of one Thread object through one run: its worker, and any number of threads that
    ask it to exit or wait for it. A section under mLock is one step; the worker's accesses
    without the lock and the beginning and end of every hook call are steps of their own. */
module Worker {
  type Tid = nat

  /** The next action of the worker. */
  datatype Pc =
    | NotCreated
    | Starting             // created by run(), about to set mRunning
    | CallReady | InReady  // readyToRun
    | FirstLook            // the isExitPending() whose answer is not used
    | AtCheck(result: bool) // about to take mLock and decide
    | AtTest               // about to evaluate while(mRunning)
    | AtLoop | InLoop      // threadLoop
    | Leaving              // about to clear mRunning again
    | CallExit | InExit    // readyToExit
    | Done

  datatype Wait = ExitWait | JoinWait

  /** Where a thread is that has called requestExitAndWait or join. */
  datatype Loc = Free | Asleep(wait: Wait) | Woken(wait: Wait)

  datatype Event = ReadyBegin | LoopBegin | LoopEnd(result: bool) | ExitBegin

  /** worker is the thread id that createThread hands out; mThread is None for pthread_t(-1). */
  datatype Owner = None | Some(tid: Tid)

  datatype State = State(worker: Tid, running: bool, exitPending: bool, mThread: Owner,
                         pc: Pc, callers: map<Tid, Loc>, trace: seq<Event>) {
    function At(t: Tid): Loc {
      if t in callers then callers[t] else Free
    }
  }

  datatype Step =
    | Run(t: Tid, created: bool)
    | Start | BeginReady | EndReady | Look | Check | Test | BeginLoop | EndLoop(result: bool)
    | ClearRunning | BeginExit | EndExit
    | RequestExit(t: Tid)
    | Call(t: Tid, wait: Wait)   // requestExitAndWait or join
    | Resume(t: Tid)
    | Spurious(t: Tid)

  predicate InHook(pc: Pc) {
    pc.InReady? || pc.InLoop? || pc.InExit?
  }

  /** Threads call when they are not waiting; the worker itself calls from its hooks. */
  predicate MayCall(s: State, t: Tid) {
    s.At(t).Free? && (t == s.worker ==> InHook(s.pc))
  }

  predicate Enabled(s: State, step: Step) {
    match step
    case Run(t, _) => s.pc.NotCreated? && MayCall(s, t)
    case Start => s.pc.Starting?
    case BeginReady => s.pc.CallReady?
    case EndReady => s.pc.InReady? && s.At(s.worker).Free?
    case Look => s.pc.FirstLook?
    case Check => s.pc.AtCheck?
    case Test => s.pc.AtTest?
    case BeginLoop => s.pc.AtLoop?
    case EndLoop(_) => s.pc.InLoop? && s.At(s.worker).Free?
    case ClearRunning => s.pc.Leaving?
    case BeginExit => s.pc.CallExit?
    case EndExit => s.pc.InExit? && s.At(s.worker).Free?
    case RequestExit(t) => MayCall(s, t)
    case Call(t, _) => MayCall(s, t)
    case Resume(t) => s.At(t).Woken?
    case Spurious(t) => s.At(t).Asleep?
  }

  function Awake(l: Loc): Loc {
    if l.Asleep? then Woken(l.wait) else l
  }

  function WakeAll(callers: map<Tid, Loc>): map<Tid, Loc> {
    map t | t in callers :: Awake(callers[t])
  }

  /** The wait loop's test, and what follows it when mRunning is false. */
  function WaitLoop(s: State, t: Tid, wait: Wait): State {
    if s.running then s.(callers := s.callers[t := Asleep(wait)])
    else s.(callers := s.callers[t := Free], exitPending := if wait.ExitWait? then false else s.exitPending)
  }

  function Apply(s: State, step: Step): State
    requires Enabled(s, step)
  {
    match step
    case Run(_, created) =>
      if created then s.(exitPending := false, mThread := Some(s.worker), pc := Starting)
      else s.(exitPending := false, mThread := None, running := false)
    case Start => s.(running := true, pc := CallReady)
    case BeginReady => s.(pc := InReady, trace := s.trace + [ReadyBegin])
    case EndReady => s.(pc := FirstLook)
    case Look => s.(pc := AtCheck(true))
    case Check =>
      if !s.pc.result || s.exitPending then
        s.(exitPending := true, running := false, mThread := None, callers := WakeAll(s.callers), pc := Leaving)
      else s.(pc := AtTest)
    case Test => s.(pc := if s.running then AtLoop else Leaving)
    case BeginLoop => s.(pc := InLoop, trace := s.trace + [LoopBegin])
    case EndLoop(result) => s.(pc := AtCheck(result), trace := s.trace + [LoopEnd(result)])
    case ClearRunning => s.(running := false, pc := CallExit)
    case BeginExit => s.(pc := InExit, trace := s.trace + [ExitBegin])
    case EndExit => s.(pc := Done)
    case RequestExit(_) => s.(exitPending := true)
    case Call(t, wait) =>
      if s.mThread == Some(t) then s  // WOULD_BLOCK
      else WaitLoop(if wait.ExitWait? then s.(exitPending := true) else s, t, wait)
    case Resume(t) => WaitLoop(s, t, s.At(t).wait)
    case Spurious(t) => s.(callers := s.callers[t := Awake(s.At(t))])
  }

  /** A newly constructed Thread. */
  predicate Init(s: State) {
    s == State(s.worker, false, false, None, NotCreated, map[], [])
  }

  ghost predicate IsPath(states: seq<State>, steps: seq<Step>) {
    && |states| == |steps| + 1
    && forall i :: 0 <= i < |steps| ==> Enabled(states[i], steps[i]) && states[i + 1] == Apply(states[i], steps[i])
  }

  // ---- the invariant ----

  /** The worker has set mRunning. */
  predicate Started(pc: Pc) {
    !pc.NotCreated? && !pc.Starting?
  }

  /** The worker has decided to exit: no threadLoop call is in progress or will start. */
  predicate Exiting(pc: Pc) {
    pc.Leaving? || pc.CallExit? || pc.InExit? || pc.Done?
  }

  /** The hook calls so far, read by the automaton of
      readyToRun, (threadLoop true)*, (threadLoop false)?, readyToExit?. */
  datatype Phase = Fresh | Between | Inside | Refused | Ended | Bad

  function Advance(p: Phase, e: Event): Phase {
    match (p, e)
    case (Fresh, ReadyBegin) => Between
    case (Between, LoopBegin) => Inside
    case (Inside, LoopEnd(true)) => Between
    case (Inside, LoopEnd(false)) => Refused
    case (Between, ExitBegin) => Ended
    case (Refused, ExitBegin) => Ended
    case _ => Bad
  }

  function PhaseOf(trace: seq<Event>): Phase {
    if trace == [] then Fresh else Advance(PhaseOf(trace[..|trace| - 1]), trace[|trace| - 1])
  }

  lemma PhaseSnoc(trace: seq<Event>, e: Event)
    ensures PhaseOf(trace + [e]) == Advance(PhaseOf(trace), e)
  {
    assert (trace + [e])[..|trace|] == trace;
  }

  predicate PhaseFits(p: Phase, pc: Pc) {
    match pc
    case NotCreated => p.Fresh?
    case Starting => p.Fresh?
    case CallReady => p.Fresh?
    case InLoop => p.Inside?
    case AtCheck(result) => p == if result then Between else Refused
    case Leaving => p.Between? || p.Refused?
    case CallExit => p.Between? || p.Refused?
    case InExit => p.Ended?
    case Done => p.Ended?
    case _ => p.Between?
  }

  ghost predicate Inv(s: State) {
    && (s.running <==> Started(s.pc) && !Exiting(s.pc))
    && (s.mThread == if s.pc.Starting? || s.running then Some(s.worker) else None)
    && (forall t :: s.At(t).Asleep? ==> s.running)
    && (forall t :: !s.At(t).Free? ==> Started(s.pc) && t != s.worker)
    && PhaseFits(PhaseOf(s.trace), s.pc)
  }

  lemma CheckKeepsInv(s: State)
    requires Inv(s) && Enabled(s, Check)
    ensures Inv(Apply(s, Check))
  {
    var r := Apply(s, Check);
    assert forall t :: r.At(t) == s.At(t) || (r.pc.Leaving? && r.At(t) == Awake(s.At(t)));
    assert r.pc.Leaving? ==> forall t :: !r.At(t).Asleep?;
  }

  /** A step that only moves the worker on, without a hook call beginning or ending. */
  lemma MoveKeepsInv(s: State, step: Step)
    requires Inv(s) && Enabled(s, step)
    requires step.Run? || step.Start? || step.EndReady? || step.Look? || step.Test? || step.ClearRunning?
          || step.EndExit? || step.RequestExit?
    ensures Inv(Apply(s, step))
  {
    var r := Apply(s, step);
    assert r.callers == s.callers && r.trace == s.trace;
    assert forall t :: r.At(t) == s.At(t);
  }

  /** A step that adds e to the trace and does nothing else but move the worker on. */
  lemma HookKeepsInv(s: State, step: Step, e: Event)
    requires Inv(s) && Enabled(s, step)
    requires step.BeginReady? || step.BeginLoop? || step.EndLoop? || step.BeginExit?
    requires Apply(s, step).trace == s.trace + [e]
    ensures Inv(Apply(s, step))
  {
    var r := Apply(s, step);
    PhaseSnoc(s.trace, e);
    assert (s.trace + [e])[|s.trace|] == e;
    assert forall t :: r.At(t) == s.At(t);
  }

  lemma CallerKeepsInv(s: State, step: Step)
    requires Inv(s) && Enabled(s, step)
    requires step.Call? || step.Resume? || step.Spurious?
    ensures Inv(Apply(s, step))
  {
    var r := Apply(s, step);
    assert forall t :: t != step.t ==> r.At(t) == s.At(t);
  }

  lemma StepKeepsInv(s: State, step: Step)
    requires Inv(s) && Enabled(s, step)
    ensures Inv(Apply(s, step))
  {
    if step.Check? {
      CheckKeepsInv(s);
    } else if step.Call? || step.Resume? || step.Spurious? {
      CallerKeepsInv(s, step);
    } else if step.BeginReady? {
      HookKeepsInv(s, step, ReadyBegin);
    } else if step.BeginLoop? {
      HookKeepsInv(s, step, LoopBegin);
    } else if step.EndLoop? {
      HookKeepsInv(s, step, LoopEnd(step.result));
    } else if step.BeginExit? {
      HookKeepsInv(s, step, ExitBegin);
    } else {
      MoveKeepsInv(s, step);
    }
  }

  lemma {:induction false} PathKeepsInv(states: seq<State>, steps: seq<Step>, i: nat)
    requires IsPath(states, steps) && i < |states| && Inv(states[0])
    ensures Inv(states[i])
  {
    if i > 0 {
      PathKeepsInv(states, steps, i - 1);
      StepKeepsInv(states[i - 1], steps[i - 1]);
    }
  }

  // ---- what holds over every run ----

  /** The hook calls are readyToRun, then threadLoop any number of times of which only the last
      can have returned false, then at most one readyToExit, and that one before the worker ends. */
  lemma HookTrace(states: seq<State>, steps: seq<Step>, i: nat)
    requires IsPath(states, steps) && Init(states[0]) && i < |states|
    ensures PhaseOf(states[i].trace) != Bad
    ensures states[i].pc.InLoop? <==> PhaseOf(states[i].trace).Inside?
    ensures states[i].pc.Done? ==> PhaseOf(states[i].trace).Ended?
  {
    PathKeepsInv(states, steps, i);
  }

  /** From the worker's broadcast on nobody sleeps, and the worker itself never does: a call from
      one of its own hooks returns at once. */
  lemma NobodySleepsOn(states: seq<State>, steps: seq<Step>, i: nat)
    requires IsPath(states, steps) && Init(states[0]) && i < |states|
    ensures Exiting(states[i].pc) ==> forall t :: !states[i].At(t).Asleep?
    ensures states[i].At(states[i].worker).Free?
  {
    PathKeepsInv(states, steps, i);
  }

  // ---- waiting for the worker to exit ----

  /** In this step requestExitAndWait or join returns to t, other than with WOULD_BLOCK. */
  predicate WaitReturns(s: State, step: Step, t: Tid) {
    && Enabled(s, step)
    && (step.Call? || step.Resume?) && step.t == t
    && (step.Call? ==> s.mThread != Some(t))
    && Apply(s, step).At(t).Free?
  }

  lemma {:induction false} StartedStays(states: seq<State>, steps: seq<Step>, i: nat, j: nat)
    requires IsPath(states, steps) && i <= j < |states| && Started(states[i].pc)
    ensures Started(states[j].pc)
  {
    if i < j {
      StartedStays(states, steps, i, j - 1);
    }
  }

  /** How many threadLoop calls have begun. */
  function LoopsOf(trace: seq<Event>): nat {
    if trace == [] then 0
    else LoopsOf(trace[..|trace| - 1]) + (if trace[|trace| - 1].LoopBegin? then 1 else 0)
  }

  lemma LoopsSnoc(trace: seq<Event>, e: Event)
    ensures LoopsOf(trace + [e]) == LoopsOf(trace) + (if e.LoopBegin? then 1 else 0)
  {
    assert (trace + [e])[..|trace|] == trace;
  }

  /** Only a step that begins a threadLoop adds to the count. */
  lemma LoopsStep(s: State, step: Step)
    requires Enabled(s, step)
    ensures LoopsOf(Apply(s, step).trace) == LoopsOf(s.trace) + (if step.BeginLoop? then 1 else 0)
  {
    if step.BeginReady? {
      LoopsSnoc(s.trace, ReadyBegin);
    } else if step.BeginLoop? {
      LoopsSnoc(s.trace, LoopBegin);
    } else if step.EndLoop? {
      LoopsSnoc(s.trace, LoopEnd(step.result));
    } else if step.BeginExit? {
      LoopsSnoc(s.trace, ExitBegin);
    }
  }

  lemma ExitingStep(s: State, step: Step)
    requires Exiting(s.pc) && Enabled(s, step)
    ensures Exiting(Apply(s, step).pc) && LoopsOf(Apply(s, step).trace) == LoopsOf(s.trace)
  {
    LoopsStep(s, step);
  }

  lemma {:induction false} ExitingStays(states: seq<State>, steps: seq<Step>, i: nat, j: nat)
    requires IsPath(states, steps) && i <= j < |states| && Exiting(states[i].pc)
    ensures Exiting(states[j].pc) && LoopsOf(states[j].trace) == LoopsOf(states[i].trace)
    decreases j - i
  {
    if i < j {
      ExitingStep(states[i], steps[i]);
      ExitingStays(states, steps, i + 1, j);
    }
  }

  /** From state j + 1 on no threadLoop call is in progress, and none starts. */
  ghost predicate LoopIsOver(states: seq<State>, j: nat) {
    forall k :: j < k < |states| ==> !states[k].pc.InLoop? && LoopsOf(states[k].trace) == LoopsOf(states[j].trace)
  }

  /** A call of requestExitAndWait or join that t makes in the first state of the path keeps its
      promise: from the step in which it returns on, the loop is over. */
  ghost predicate WaitKeepsPromise(states: seq<State>, steps: seq<Step>, t: Tid, j: nat) {
    j < |steps| < |states| && WaitReturns(states[j], steps[j], t) ==> LoopIsOver(states, j)
  }

  /** Calls made once the worker has set mRunning keep their promise. */
  lemma ExitWaitIsSafe(states: seq<State>, steps: seq<Step>, t: Tid, j: nat)
    requires IsPath(states, steps) && Inv(states[0]) && Started(states[0].pc)
    ensures WaitKeepsPromise(states, steps, t, j)
    ensures j < |steps| && WaitReturns(states[j], steps[j], t) ==> forall k :: j < k < |states| ==> Exiting(states[k].pc)
  {
    if j < |steps| && WaitReturns(states[j], steps[j], t) {
      PathKeepsInv(states, steps, j);
      StartedStays(states, steps, 0, j);
      forall k | j < k < |states|
        ensures Exiting(states[k].pc) && !states[k].pc.InLoop? && LoopsOf(states[k].trace) == LoopsOf(states[j].trace)
      {
        ExitingStays(states, steps, j, k);
      }
    }
  }

  /** One more step at the end of a path. */
  lemma Extend(states: seq<State>, steps: seq<Step>, step: Step) returns (states': seq<State>, steps': seq<Step>)
    requires IsPath(states, steps) && Enabled(states[|steps|], step)
    ensures steps' == steps + [step] && IsPath(states', steps') && states <= states' && steps <= steps'
    ensures states'[|steps'|] == Apply(states[|steps|], step)
  {
    states', steps' := states + [Apply(states[|steps|], step)], steps + [step];
  }

  /** The worker has passed its check, and nobody has asked it to exit. */
  predicate ReadyToLoop(s: State) {
    s.pc.AtTest? && s.running && !s.exitPending && s.At(s.worker).Free?
  }

  /** A created worker that nobody has asked to exit gets past its first check. */
  lemma UnaskedWorkerIsReady(states0: seq<State>, steps0: seq<Step>) returns (states: seq<State>, steps: seq<Step>)
    requires IsPath(states0, steps0)
    requires var s := states0[|steps0|]; s.pc.Starting? && !s.exitPending && s.At(s.worker).Free?
    ensures IsPath(states, steps) && states0 <= states && steps0 <= steps
    ensures var s := states0[|steps0|];
            states[|steps|] == s.(running := true, pc := AtTest, trace := s.trace + [ReadyBegin])
  {
    var s := states0[|steps0|];
    var trace := s.trace + [ReadyBegin];
    states, steps := Extend(states0, steps0, Start);
    assert states[|steps|] == s.(running := true, pc := CallReady);
    states, steps := Extend(states, steps, BeginReady);
    assert states[|steps|] == s.(running := true, pc := InReady, trace := trace);
    states, steps := Extend(states, steps, EndReady);
    assert states[|steps|] == s.(running := true, pc := FirstLook, trace := trace);
    states, steps := Extend(states, steps, Look);
    assert states[|steps|] == s.(running := true, pc := AtCheck(true), trace := trace);
    states, steps := Extend(states, steps, Check);
  }

  /** A worker past its check that nobody has asked to exit calls threadLoop once more. */
  lemma UnaskedWorkerLoops(states0: seq<State>, steps0: seq<Step>) returns (states: seq<State>, steps: seq<Step>)
    requires IsPath(states0, steps0)
    requires var s := states0[|steps0|]; s.pc.AtTest? && s.running
    ensures IsPath(states, steps) && states0 <= states && steps0 <= steps
    ensures var s := states0[|steps0|]; states[|steps|] == s.(pc := InLoop, trace := s.trace + [LoopBegin])
  {
    var s := states0[|steps0|];
    states, steps := Extend(states0, steps0, Test);
    assert states[|steps|] == s.(pc := AtLoop);
    states, steps := Extend(states, steps, BeginLoop);
  }

  /** A threadLoop that returns true brings such a worker back to where it was. */
  lemma UnaskedWorkerComesBack(states0: seq<State>, steps0: seq<Step>) returns (states: seq<State>, steps: seq<Step>)
    requires IsPath(states0, steps0)
    requires var s := states0[|steps0|]; s.pc.InLoop? && !s.exitPending && s.At(s.worker).Free?
    ensures IsPath(states, steps) && states0 <= states && steps0 <= steps
    ensures var s := states0[|steps0|]; states[|steps|] == s.(pc := AtTest, trace := s.trace + [LoopEnd(true)])
  {
    var s := states0[|steps0|];
    states, steps := Extend(states0, steps0, EndLoop(true));
    assert states[|steps|] == s.(pc := AtCheck(true), trace := s.trace + [LoopEnd(true)]);
    states, steps := Extend(states, steps, Check);
  }

  lemma OneLoopMore(trace: seq<Event>)
    ensures LoopsOf(trace + [LoopBegin] + [LoopEnd(true)]) == LoopsOf(trace) + 1
  {
    LoopsSnoc(trace, LoopBegin);
    LoopsSnoc(trace + [LoopBegin], LoopEnd(true));
  }

  lemma UnaskedWorkerLoopsOnce(states0: seq<State>, steps0: seq<Step>) returns (states: seq<State>, steps: seq<Step>)
    requires IsPath(states0, steps0) && ReadyToLoop(states0[|steps0|])
    ensures IsPath(states, steps) && states0 <= states && steps0 <= steps
    ensures ReadyToLoop(states[|steps|]) && LoopsOf(states[|steps|].trace) == LoopsOf(states0[|steps0|].trace) + 1
  {
    OneLoopMore(states0[|steps0|].trace);
    states, steps := UnaskedWorkerLoops(states0, steps0);
    states, steps := UnaskedWorkerComesBack(states, steps);
  }

  /** It can go on like that without bound. */
  lemma {:induction false} UnaskedWorkerLoopsOn(states0: seq<State>, steps0: seq<Step>, n: nat)
    returns (states: seq<State>, steps: seq<Step>)
    requires IsPath(states0, steps0) && ReadyToLoop(states0[|steps0|])
    ensures IsPath(states, steps) && states0 <= states && steps0 <= steps
    ensures ReadyToLoop(states[|steps|]) && LoopsOf(states[|steps|].trace) == LoopsOf(states0[|steps0|].trace) + n
  {
    states, steps := states0, steps0;
    if n > 0 {
      states, steps := UnaskedWorkerLoopsOn(states0, steps0, n - 1);
      states, steps := UnaskedWorkerLoopsOnce(states, steps);
    }
  }

  /** A requestExitAndWait made after run() has returned and before the worker has set mRunning
      returns at once and takes away every request there is. */
  lemma EarlyExitWait(states0: seq<State>, steps0: seq<Step>, t: Tid) returns (states: seq<State>, steps: seq<Step>)
    requires IsPath(states0, steps0) && Inv(states0[|steps0|]) && states0[|steps0|].pc.Starting?
    requires MayCall(states0[|steps0|], t)
    ensures IsPath(states, steps) && states0 <= states && steps == steps0 + [Call(t, ExitWait)]
    ensures WaitReturns(states[|steps0|], Call(t, ExitWait), t)
    ensures var s := states0[|steps0|]; states[|steps|] == s.(exitPending := false, callers := s.callers[t := Free])
  {
    states, steps := Extend(states0, steps0, Call(t, ExitWait));
  }

  /** Whatever has been asked of a worker that has not set mRunning, it can be that nothing of it
      is left when the worker starts: run() itself and an early requestExitAndWait take it away. */
  lemma EarlyRequestsGo(states0: seq<State>, steps0: seq<Step>, t: Tid) returns (states: seq<State>, steps: seq<Step>)
    requires IsPath(states0, steps0) && Inv(states0[|steps0|]) && !Started(states0[|steps0|].pc)
    requires MayCall(states0[|steps0|], t)
    ensures IsPath(states, steps) && states0 <= states && steps0 <= steps
    ensures var s := states0[|steps0|];
            && (s.pc.NotCreated? ==> steps == steps0 + [Run(t, true)])
            && (s.pc.Starting? && s.exitPending ==> steps == steps0 + [Call(t, ExitWait)])
    ensures var s, r := states0[|steps0|], states[|steps|];
            r.pc.Starting? && !r.exitPending && r.At(r.worker).Free? && r.trace == s.trace
  {
    states, steps := states0, steps0;
    var s := states0[|steps0|];
    assert s.At(s.worker).Free?;
    if s.pc.NotCreated? {
      states, steps := Extend(states0, steps0, Run(t, true));
    } else if s.exitPending {
      states, steps := EarlyExitWait(states0, steps0, t);
    }
  }

  /** A call of either wait before mRunning is set returns at once, be it before run() or after. */
  lemma EarlyCallReturns(s: State, t: Tid, wait: Wait)
    requires Inv(s) && !Started(s.pc) && MayCall(s, t)
    ensures WaitReturns(s, Call(t, wait), t)
    ensures var r := Apply(s, Call(t, wait)); Inv(r) && r.pc == s.pc && r.trace == s.trace && MayCall(r, t)
  {
    CallerKeepsInv(s, Call(t, wait));
  }

  /** And there is a run in which the worker then goes on to its loop. */
  lemma EarlyWaitMissesWorker(s: State, t: Tid, wait: Wait) returns (states: seq<State>, steps: seq<Step>)
    requires Inv(s) && !Started(s.pc) && MayCall(s, t)
    ensures IsPath(states, steps) && steps != [] && states[0] == s && steps[0] == Call(t, wait)
    ensures WaitReturns(states[0], steps[0], t) && states[|steps|].pc.InLoop?
  {
    EarlyCallReturns(s, t, wait);
    states, steps := Extend([s], [], Call(t, wait));
    states, steps := EarlyRequestsGo(states, steps, t);
    states, steps := UnaskedWorkerIsReady(states, steps);
    states, steps := UnaskedWorkerLoops(states, steps);
  }

  /** Whatever follows, the wait that t begins in state s keeps its promise. */
  ghost predicate WaitIsSafe(s: State, t: Tid, wait: Wait) {
    forall states: seq<State>, steps: seq<Step>, j: nat ::
      IsPath(states, steps) && states[0] == s && steps != [] && steps[0] == Call(t, wait)
      ==> WaitKeepsPromise(states, steps, t, j)
  }

  /** For requestExitAndWait and join alike that is the exact condition: mRunning has been set. */
  lemma WaitIsSafeIff(s: State, t: Tid, wait: Wait)
    requires Inv(s) && MayCall(s, t)
    ensures WaitIsSafe(s, t, wait) <==> Started(s.pc)
  {
    if Started(s.pc) {
      forall states: seq<State>, steps: seq<Step>, j: nat
        | IsPath(states, steps) && states[0] == s && steps != [] && steps[0] == Call(t, wait)
        ensures WaitKeepsPromise(states, steps, t, j)
      {
        ExitWaitIsSafe(states, steps, t, j);
      }
    } else {
      var states, steps := EarlyWaitMissesWorker(s, t, wait);
      assert states[|steps|].pc.InLoop?;
      assert !WaitKeepsPromise(states, steps, t, 0);
    }
  }

  // ---- requestExit ----

  /** threadLoop calls that can still begin although an exit has been requested. */
  function Budget(pc: Pc): nat {
    if pc.AtTest? || pc.AtLoop? then 1 else 0
  }

  /** The request stands: it has not been taken back. */
  predicate Requested(s: State) {
    s.exitPending || Exiting(s.pc)
  }

  lemma RequestStays(s: State, step: Step)
    requires Inv(s) && Requested(s) && Enabled(s, step) && !s.pc.NotCreated?
    requires step.Call? && step.wait.ExitWait? ==> Started(s.pc)
    ensures Requested(Apply(s, step)) && !Apply(s, step).pc.NotCreated?
  {
  }

  /** Every threadLoop that begins is paid for. */
  lemma BudgetStep(s: State, step: Step)
    requires Requested(s) && Enabled(s, step) && !s.pc.NotCreated?
    ensures var r := Apply(s, step);
            LoopsOf(r.trace) + Budget(r.pc) <= LoopsOf(s.trace) + Budget(s.pc)
  {
    LoopsStep(s, step);
  }

  /** In this step an exit is asked for: by requestExit, or by a requestExitAndWait that does not
      return WOULD_BLOCK. */
  predicate Asks(s: State, step: Step) {
    step.RequestExit? || (step.Call? && step.wait.ExitWait? && s.mThread != Some(step.t))
  }

  /** After an exit has been asked for at most one more threadLoop call begins, and none at all
      unless the worker was already past its check; as long as nobody calls requestExitAndWait
      before the worker has set mRunning. */
  lemma {:induction false} AtMostOneMoreLoop(states: seq<State>, steps: seq<Step>, i: nat)
    requires IsPath(states, steps) && Inv(states[0]) && !states[0].pc.NotCreated?
    requires steps != [] && Asks(states[0], steps[0])
    requires forall k :: 0 <= k < |steps| && steps[k].Call? && steps[k].wait.ExitWait? ==> Started(states[k].pc)
    requires 1 <= i < |states|
    ensures Requested(states[i]) && !states[i].pc.NotCreated?
    ensures LoopsOf(states[i].trace) + Budget(states[i].pc) <= LoopsOf(states[0].trace) + Budget(states[0].pc)
    ensures LoopsOf(states[i].trace) <= LoopsOf(states[0].trace) + 1
  {
    if i > 1 {
      AtMostOneMoreLoop(states, steps, i - 1);
      PathKeepsInv(states, steps, i - 1);
      RequestStays(states[i - 1], steps[i - 1]);
      BudgetStep(states[i - 1], steps[i - 1]);
    }
  }

  /** Whatever follows the step that asks for an exit in state s, at most n more threadLoop calls
      begin. */
  ghost predicate RequestStands(s: State, ask: Step, n: nat) {
    forall states: seq<State>, steps: seq<Step>, i: nat ::
      IsPath(states, steps) && states[0] == s && steps != [] && steps[0] == ask && 1 <= i < |states|
      ==> LoopsOf(states[i].trace) <= LoopsOf(s.trace) + n
  }

  lemma EarlyAskIsTakenIn(s: State, ask: Step)
    requires Inv(s) && !Started(s.pc) && Enabled(s, ask) && Asks(s, ask)
    ensures MayCall(s, ask.t)
    ensures var r := Apply(s, ask); Inv(r) && r.pc == s.pc && r.trace == s.trace && MayCall(r, ask.t)
    ensures ask.RequestExit? ==> Apply(s, ask).exitPending
  {
    StepKeepsInv(s, ask);
  }

  /** What is asked for before the worker has set mRunning can be lost, and the worker then loops
      without bound: run() takes it away, and so does a requestExitAndWait that is early as well,
      even one of the same thread. */
  lemma EarlyRequestIsLost(s: State, ask: Step, n: nat) returns (states: seq<State>, steps: seq<Step>)
    requires Inv(s) && !Started(s.pc) && Enabled(s, ask) && Asks(s, ask)
    ensures IsPath(states, steps) && steps != [] && states[0] == s && steps[0] == ask
    ensures ask.RequestExit? ==>
              |steps| >= 2 && steps[1] == if s.pc.NotCreated? then Run(ask.t, true) else Call(ask.t, ExitWait)
    ensures LoopsOf(states[|steps|].trace) == LoopsOf(s.trace) + n
  {
    EarlyAskIsTakenIn(s, ask);
    states, steps := Extend([s], [], ask);
    states, steps := EarlyRequestsGo(states, steps, ask.t);
    states, steps := UnaskedWorkerIsReady(states, steps);
    LoopsSnoc(s.trace, ReadyBegin);
    states, steps := UnaskedWorkerLoopsOn(states, steps, n);
  }

  /** A worker that has passed its check begins one more threadLoop. */
  lemma LateRequestCostsOne(s: State, ask: Step) returns (states: seq<State>, steps: seq<Step>)
    requires Inv(s) && Budget(s.pc) == 1 && Enabled(s, ask) && Asks(s, ask)
    ensures IsPath(states, steps) && steps != [] && states[0] == s && steps[0] == ask
    ensures LoopsOf(states[|steps|].trace) == LoopsOf(s.trace) + 1
  {
    states, steps := Extend([s], [], ask);
    assert states[1].pc == s.pc && states[1].running && states[1].trace == s.trace;
    LoopsSnoc(s.trace, LoopBegin);
    if s.pc.AtTest? {
      states, steps := UnaskedWorkerLoops(states, steps);
    } else {
      states, steps := Extend(states, steps, BeginLoop);
    }
  }

  /** For requestExit and requestExitAndWait, before run() and after, and for every bound n: the
      further threadLoop calls stay within n exactly when mRunning has been set and the worker's
      place allows no more than n. So at most one more begins exactly when mRunning has been set. */
  lemma RequestStandsIff(s: State, ask: Step, n: nat)
    requires Inv(s) && Enabled(s, ask) && Asks(s, ask)
    ensures RequestStands(s, ask, n) <==> Started(s.pc) && Budget(s.pc) <= n
    ensures n >= 1 ==> (RequestStands(s, ask, n) <==> Started(s.pc))
  {
    if !Started(s.pc) {
      var states, steps := EarlyRequestIsLost(s, ask, n + 1);
      assert LoopsOf(states[|steps|].trace) > LoopsOf(s.trace) + n;
    } else if Budget(s.pc) > n {
      var states, steps := LateRequestCostsOne(s, ask);
      assert LoopsOf(states[|steps|].trace) > LoopsOf(s.trace) + n;
    } else {
      forall states: seq<State>, steps: seq<Step>, i: nat
        | IsPath(states, steps) && states[0] == s && steps != [] && steps[0] == ask && 1 <= i < |states|
        ensures LoopsOf(states[i].trace) <= LoopsOf(s.trace) + n
      {
        forall k | 0 <= k < |steps| ensures Started(states[k].pc) {
          StartedStays(states, steps, 0, k);
        }
        AtMostOneMoreLoop(states, steps, i);
      }
    }
  }

  // ---- what the calls do to the worker, and what they do not ----

  /** Nobody has asked the worker to exit, and it has no reason of its own. */
  predicate Unasked(s: State) {
    !s.exitPending && !Exiting(s.pc) && s.pc != AtCheck(false)
  }

  lemma UnaskedStays(s: State, step: Step)
    requires Inv(s) && Unasked(s) && Enabled(s, step) && !Asks(s, step) && step != EndLoop(false)
    ensures Unasked(Apply(s, step))
  {
  }

  /** The worker stops for a reason only: as long as nobody asks for an exit and no threadLoop
      returns false it does not leave its loop, however many threads join it. */
  lemma {:induction false} StopsForAReason(states: seq<State>, steps: seq<Step>, i: nat)
    requires IsPath(states, steps) && i < |states|
    requires Inv(states[0]) && Unasked(states[0])
    requires forall k :: 0 <= k < i ==> !Asks(states[k], steps[k]) && steps[k] != EndLoop(false)
    ensures Unasked(states[i])
  {
    if i > 0 {
      StopsForAReason(states, steps, i - 1);
      PathKeepsInv(states, steps, i - 1);
      UnaskedStays(states[i - 1], steps[i - 1]);
    }
  }

  /** join changes nothing but where its caller is. */
  lemma JoinOnlyWaits(s: State, step: Step)
    requires Enabled(s, step)
    requires (step.Call? && step.wait.JoinWait?) || (step.Resume? && s.At(step.t).wait.JoinWait?)
    ensures Apply(s, step).(callers := s.callers) == s
  {
  }

  /** Who is turned away with WOULD_BLOCK: the worker, until it has decided to exit. Once it has, a
      wait it calls from readyToExit returns at once, like everybody's. */
  lemma TurnedAwayIff(s: State, t: Tid)
    requires Inv(s) && MayCall(s, t)
    ensures s.mThread == Some(t) <==> t == s.worker && !Exiting(s.pc)
    ensures s.mThread == Some(t) ==> s.pc.InReady? || s.pc.InLoop?
    ensures t == s.worker && Exiting(s.pc) ==> forall wait :: WaitReturns(s, Call(t, wait), t)
  {
  }

  lemma OnlyRunCreates(s: State, step: Step)
    requires Enabled(s, step)
    ensures Apply(s, step).pc.NotCreated? <==> s.pc.NotCreated? && !(step.Run? && step.created)
    ensures s.pc.NotCreated? ==> Apply(s, step).trace == s.trace
  {
  }

  /** There is a worker, and hooks are called, only once run() has created the thread. */
  lemma {:induction false} CreatedByRun(states: seq<State>, steps: seq<Step>, i: nat)
    requires IsPath(states, steps) && Init(states[0]) && i < |states|
    ensures states[i].pc.NotCreated? <==> forall k :: 0 <= k < i ==> !(steps[k].Run? && steps[k].created)
    ensures states[i].pc.NotCreated? ==> states[i].trace == []
  {
    if i > 0 {
      CreatedByRun(states, steps, i - 1);
      OnlyRunCreates(states[i - 1], steps[i - 1]);
    }
  }

  /** A call of either wait, and each resumption of it, waits exactly while mRunning is set; the
      worker itself is turned away and leaves no trace. */
  lemma WaitReturnsIff(s: State, step: Step)
    requires Enabled(s, step) && (step.Call? || step.Resume?)
    ensures step.Call? && s.mThread == Some(step.t) ==> Apply(s, step) == s
    ensures (step.Call? && s.mThread == Some(step.t)) || s.running <==> !WaitReturns(s, step, step.t)
    ensures Apply(s, step).At(step.t) ==
              if WaitReturns(s, step, step.t) || (step.Call? && s.mThread == Some(step.t)) then Free
              else Asleep(if step.Call? then step.wait else s.At(step.t).wait)
  {
  }

  /** mExitPending is set by those who ask for an exit and by the worker that decides to leave; it
      is cleared by run() and by a requestExitAndWait that returns. */
  lemma PendingAfter(s: State, step: Step)
    requires Enabled(s, step)
    ensures var over := (step.Call? || step.Resume?) && WaitReturns(s, step, step.t)
                           && (if step.Call? then step.wait else s.At(step.t).wait).ExitWait?;
            var leaves := step.Check? && Apply(s, step).pc.Leaving?;
            Apply(s, step).exitPending <==> (s.exitPending || Asks(s, step) || leaves) && !step.Run? && !over
  {
  }

  /** The wait that t began last before step n. */
  function LastWait(steps: seq<Step>, t: Tid, n: nat): Wait
    requires n <= |steps|
  {
    if n == 0 then JoinWait
    else if steps[n - 1].Call? && steps[n - 1].t == t then steps[n - 1].wait
    else LastWait(steps, t, n - 1)
  }

  /** The others stay where they are; the worker's broadcast wakes them where they sleep. */
  lemma OthersStay(s: State, step: Step, u: Tid)
    requires Enabled(s, step)
    requires !((step.Call? || step.Resume? || step.Spurious?) && step.t == u)
    ensures Apply(s, step).At(u) == if step.Check? && Apply(s, step).pc.Leaving? then Awake(s.At(u)) else s.At(u)
  {
  }

  /** In every run a thread that sleeps, or has been woken, is in the wait it began last. */
  lemma {:induction false} SleepersKeepTheirCall(states: seq<State>, steps: seq<Step>, t: Tid, i: nat)
    requires IsPath(states, steps) && Init(states[0]) && i < |states|
    ensures !states[i].At(t).Free? ==> states[i].At(t).wait == LastWait(steps, t, i)
  {
    if i > 0 {
      SleepersKeepTheirCall(states, steps, t, i - 1);
      var step := steps[i - 1];
      if !((step.Call? || step.Resume? || step.Spurious?) && step.t == t) {
        OthersStay(states[i - 1], step, t);
      }
    }
  }

  /** Nothing but sleeping holds a thread up: until it is done the worker can always go on, a
      woken caller can resume, a sleeping one can wake for no reason, any other thread can call. */
  lemma EverybodyCanGoOn(s: State, t: Tid, wait: Wait, result: bool, created: bool)
    requires Inv(s)
    ensures !s.pc.NotCreated? && !s.pc.Done? ==>
              exists step :: Enabled(s, step) && Apply(s, step).pc != s.pc && !step.Run?
                             && (step.EndLoop? ==> step.result == result)
    ensures s.At(t).Woken? ==> Enabled(s, Resume(t))
    ensures s.At(t).Asleep? ==> Enabled(s, Spurious(t)) && Apply(s, Spurious(t)).At(t) == Woken(s.At(t).wait)
    ensures s.At(t).Free? && t != s.worker ==> Enabled(s, RequestExit(t)) && Enabled(s, Call(t, wait))
    ensures s.At(t).Free? && t != s.worker && s.pc.NotCreated? ==> Enabled(s, Run(t, created))
    ensures InHook(s.pc) ==> Enabled(s, RequestExit(s.worker)) && Enabled(s, Call(s.worker, wait))
  {
    if !s.pc.NotCreated? && !s.pc.Done? {
      var step := NextOfWorker(s.pc, result);
      assert Enabled(s, step) && Apply(s, step).pc != s.pc;
    }
  }

  /** The step the worker takes next. */
  function NextOfWorker(pc: Pc, result: bool): Step
    requires !pc.NotCreated? && !pc.Done?
  {
    match pc
    case Starting => Start
    case CallReady => BeginReady
    case InReady => EndReady
    case FirstLook => Look
    case AtCheck(_) => Check
    case AtTest => Test
    case AtLoop => BeginLoop
    case InLoop => EndLoop(result)
    case Leaving => ClearRunning
    case CallExit => BeginExit
    case InExit => EndExit
  }
}
