/** The methods that raise and release Poll's wakeup, each run under the mutex. Each is proved
    to be a run of the token machine of PollToken from one free state to the next. */
module PollControl {
  import opened PollToken

  /** What a write or read on the control socket comes back with: one byte transferred, nothing
      or EAGAIN or EINTR, or another error. */
  datatype Sys = Transferred | Again | Failed

  /** The call is not interrupted for ever. */
  ghost predicate Settles(outcomes: seq<Sys>) {
    exists i :: 0 <= i < |outcomes| && outcomes[i] != Again
  }

  /** What comes back when the call is not interrupted any more is the one byte. */
  ghost predicate GetsThrough(outcomes: seq<Sys>) {
    exists i :: 0 <= i < |outcomes| && outcomes[i] == Transferred && forall k :: 0 <= k < i ==> outcomes[k] == Again
  }

  /** The state after these steps, if each of them was enabled. */
  ghost function Ran(k: Token, steps: seq<Step>): (r: (bool, Token)) {
    if steps == [] then (true, k)
    else
      var (ok, m) := Ran(k, steps[..|steps| - 1]);
      if ok && Enabled(m, steps[|steps| - 1]) then (true, Apply(m, steps[|steps| - 1])) else (false, m)
  }

  lemma RanSnoc(k: Token, steps: seq<Step>, step: Step)
    requires Ran(k, steps).0 && Enabled(Ran(k, steps).1, step)
    ensures Ran(k, steps + [step]) == (true, Apply(Ran(k, steps).1, step))
  {
    assert (steps + [step])[..|steps|] == steps;
  }

  class Control {
    var mControlPending: int
    /** The bytes that wait in the control socket. */
    var bytes: nat

    /** The steps taken since the mutex was last taken, and the state they started from. */
    ghost var began: Token
    ghost var steps: seq<Step>

    ghost predicate Valid()
      reads this
    {
      Balanced(Token(mControlPending, bytes, Free))
    }

    /** The steps recorded so far lead to the present counts with op as the next action. */
    ghost predicate At(op: Op)
      reads this
    {
      Ran(began, steps) == (true, Token(mControlPending, bytes, op))
    }

    ghost method Begin(step: Step)
      requires step.BeginRaise? || step.BeginRelease? || step.BeginReleaseAll?
      modifies this`began, this`steps
      ensures began == old(Token(mControlPending, bytes, Free)) && At(Apply(began, step).op)
    {
      began, steps := Token(mControlPending, bytes, Free), [];
      Take(step, Apply(began, step).op);
    }

    ghost method Take(step: Step, op: Op)
      requires Ran(began, steps).0 && Enabled(Ran(began, steps).1, step)
      requires Apply(Ran(began, steps).1, step) == Token(mControlPending, bytes, op)
      modifies this`steps
      ensures At(op)
    {
      RanSnoc(began, steps, step);
      steps := steps + [step];
    }

    /** Writes the byte, again and again until it is written or an error comes back. */
    method WakeEvent(outcomes: seq<Sys>) returns (ok: bool)
      requires Settles(outcomes) && At(RaiseWrite)
      modifies this`bytes, this`steps
      ensures ok <==> GetsThrough(outcomes)
      ensures bytes == old(bytes) + (if ok then 1 else 0)
      ensures At(if ok then RaiseAdd else Free)
    {
      var i := 0;
      while outcomes[i] != Transferred
        invariant 0 <= i < |outcomes| && At(RaiseWrite) && bytes == old(bytes)
        invariant exists k :: i <= k < |outcomes| && outcomes[k] != Again
        invariant forall k :: 0 <= k < i ==> outcomes[k] == Again
        decreases |outcomes| - i
      {
        if outcomes[i] == Failed {
          Take(WriteFails, Free);
          return false;
        }
        Take(WriteAgain, RaiseWrite);
        i := i + 1;
      }
      bytes := bytes + 1;
      Take(WriteOk, RaiseAdd);
      return true;
    }

    /** Reads the byte; there is one, so the read cannot block. */
    method ReleaseEvent(outcomes: seq<Sys>, ghost op: Op) returns (ok: bool)
      requires Settles(outcomes) && At(op) && (op.ReleaseRead? || op.AllRead?)
      requires bytes > 0
      modifies this`bytes, this`steps
      ensures ok <==> GetsThrough(outcomes)
      ensures bytes == old(bytes) - (if ok then 1 else 0)
      ensures At(if !ok then Free else if op.ReleaseRead? then ReleaseSub else AllStore)
    {
      var i := 0;
      while outcomes[i] != Transferred
        invariant 0 <= i < |outcomes| && At(op) && bytes == old(bytes)
        invariant exists k :: i <= k < |outcomes| && outcomes[k] != Again
        invariant forall k :: 0 <= k < i ==> outcomes[k] == Again
        decreases |outcomes| - i
      {
        if outcomes[i] == Failed {
          Take(ReadFails, Free);
          return false;
        }
        Take(ReadAgain, op);
        i := i + 1;
      }
      bytes := bytes - 1;
      Take(ReadOk, if op.ReleaseRead? then ReleaseSub else AllStore);
      return true;
    }

    /** Raises: writes the byte when nothing is pending, and counts. */
    method RaiseWakeup(outcomes: seq<Sys>) returns (result: bool)
      requires Valid() && Settles(outcomes)
      modifies this
      ensures Valid() && began == old(Token(mControlPending, bytes, Free)) && At(Free)
      ensures mControlPending == old(mControlPending) + (if result then 1 else 0)
      ensures result <==> old(mControlPending) > 0 || GetsThrough(outcomes)
    {
      Begin(BeginRaise);
      result := true;
      Take(Test, if mControlPending == 0 then RaiseWrite else RaiseAdd);
      if mControlPending == 0 {
        result := WakeEvent(outcomes);
      }
      if result {
        mControlPending := mControlPending + 1;
        Take(Update, Free);
      }
    }

    /** Releases one raise, and reads the byte with the last one. */
    method ReleaseWakeup(outcomes: seq<Sys>) returns (result: bool)
      requires Valid() && Settles(outcomes)
      modifies this
      ensures Valid() && began == old(Token(mControlPending, bytes, Free)) && At(Free)
      ensures mControlPending == old(mControlPending) - (if result then 1 else 0)
      ensures result <==> old(mControlPending) > 1 || (old(mControlPending) == 1 && GetsThrough(outcomes))
    {
      Begin(BeginRelease);
      result := false;
      Take(Test, if mControlPending <= 0 then Free else if mControlPending == 1 then ReleaseRead else ReleaseSub);
      if mControlPending > 0 {
        if mControlPending == 1 {
          result := ReleaseEvent(outcomes, ReleaseRead);
        } else {
          result := true;
        }
        if result {
          mControlPending := mControlPending - 1;
          Take(Update, Free);
        }
      }
    }

    /** Releases all raises, and reads the byte. */
    method ReleaseAllWakeup(outcomes: seq<Sys>) returns (result: bool)
      requires Valid() && Settles(outcomes)
      modifies this
      ensures Valid() && began == old(Token(mControlPending, bytes, Free)) && At(Free)
      ensures mControlPending == if result then 0 else old(mControlPending)
      ensures result <==> old(mControlPending) > 0 && GetsThrough(outcomes)
    {
      Begin(BeginReleaseAll);
      result := false;
      Take(Test, if mControlPending <= 0 then Free else AllRead);
      if mControlPending > 0 {
        result := ReleaseEvent(outcomes, AllRead);
        if result {
          mControlPending := 0;
          Take(Update, Free);
        }
      }
    }
  }
}
