/** The wakeup token of Poll: a counter of pending raises that maps onto at most one byte in
    the control socket. All of it happens under one mutex, so one operation at a time is
    under way; its system calls may be retried or fail. */
module PollToken {

  /** The operation that holds the mutex, and its next action. */
  datatype Op =
    | Free
    | RaiseTest | RaiseWrite | RaiseAdd
    | ReleaseTest | ReleaseRead | ReleaseSub
    | AllTest | AllRead | AllStore

  datatype Token = Token(pending: int, bytes: nat, op: Op)

  datatype Step =
    | BeginRaise | BeginRelease | BeginReleaseAll
    | Test
    | WriteOk | WriteAgain | WriteFails
    | ReadOk | ReadAgain | ReadFails
    | Update

  predicate Reading(k: Token) {
    k.op.ReleaseRead? || k.op.AllRead?
  }

  /** The socket is a blocking one: a read gets a byte only if there is one. */
  predicate Enabled(k: Token, step: Step) {
    match step
    case BeginRaise => k.op.Free?
    case BeginRelease => k.op.Free?
    case BeginReleaseAll => k.op.Free?
    case Test => k.op.RaiseTest? || k.op.ReleaseTest? || k.op.AllTest?
    case WriteOk => k.op.RaiseWrite?
    case WriteAgain => k.op.RaiseWrite?
    case WriteFails => k.op.RaiseWrite?
    case ReadOk => Reading(k) && k.bytes > 0
    case ReadAgain => Reading(k)
    case ReadFails => Reading(k)
    case Update => k.op.RaiseAdd? || k.op.ReleaseSub? || k.op.AllStore?
  }

  function Apply(k: Token, step: Step): Token
    requires Enabled(k, step)
  {
    match step
    case BeginRaise => k.(op := RaiseTest)
    case BeginRelease => k.(op := ReleaseTest)
    case BeginReleaseAll => k.(op := AllTest)
    case Test =>
      if k.op.RaiseTest? then k.(op := if k.pending == 0 then RaiseWrite else RaiseAdd)
      else if k.op.ReleaseTest? then
        k.(op := if k.pending <= 0 then Free else if k.pending == 1 then ReleaseRead else ReleaseSub)
      else k.(op := if k.pending <= 0 then Free else AllRead)
    case WriteOk => k.(bytes := k.bytes + 1, op := RaiseAdd)
    case WriteAgain => k
    case WriteFails => k.(op := Free)
    case ReadOk => k.(bytes := k.bytes - 1, op := if k.op.ReleaseRead? then ReleaseSub else AllStore)
    case ReadAgain => k
    case ReadFails => k.(op := Free)
    case Update =>
      if k.op.RaiseAdd? then k.(pending := k.pending + 1, op := Free)
      else if k.op.ReleaseSub? then k.(pending := k.pending - 1, op := Free)
      else k.(pending := 0, op := Free)
  }

  const INITIAL := Token(0, 0, Free)

  /** The token while nobody holds the mutex. */
  ghost predicate Balanced(k: Token) {
    k.pending >= 0 && k.bytes == (if k.pending > 0 then 1 else 0)
  }

  ghost predicate TokenInv(k: Token) {
    match k.op
    case RaiseWrite => k.pending == 0 && k.bytes == 0
    case RaiseAdd => k.pending >= 0 && k.bytes == 1
    case ReleaseRead => k.pending == 1 && k.bytes == 1
    case ReleaseSub => k.pending >= 1 && k.bytes == (if k.pending == 1 then 0 else 1)
    case AllRead => k.pending >= 1 && k.bytes == 1
    case AllStore => k.pending >= 1 && k.bytes == 0
    case _ => Balanced(k)
  }

  lemma StepKeepsToken(k: Token, step: Step)
    requires TokenInv(k) && Enabled(k, step)
    ensures TokenInv(Apply(k, step))
  {
  }

  ghost predicate IsRun(ks: seq<Token>, steps: seq<Step>) {
    && |ks| == |steps| + 1
    && ks[0] == INITIAL
    && forall i :: 0 <= i < |steps| ==> Enabled(ks[i], steps[i]) && ks[i + 1] == Apply(ks[i], steps[i])
  }

  /** Over every run of raises, releases and release-alls, with writes and reads that are
      retried or fail: whenever the mutex is free there is exactly one byte if anything is
      pending and none otherwise, and whoever reads has a byte to read. */
  lemma {:induction false} TokenAccounting(ks: seq<Token>, steps: seq<Step>, i: nat)
    requires IsRun(ks, steps) && i < |ks|
    ensures TokenInv(ks[i])
    ensures ks[i].op.Free? ==> ks[i].pending >= 0 && ks[i].bytes == (if ks[i].pending > 0 then 1 else 0)
    ensures Reading(ks[i]) ==> Enabled(ks[i], ReadOk)
  {
    if i > 0 {
      TokenAccounting(ks, steps, i - 1);
      StepKeepsToken(ks[i - 1], steps[i - 1]);
    }
  }

  // ---- the counter, told from the calls alone ----

  datatype Call = Nobody | Raise | Release | ReleaseAll

  /** The call that took the mutex last before step n. */
  function CallAt(steps: seq<Step>, n: nat): Call
    requires n <= |steps|
  {
    if n == 0 then Nobody
    else match steps[n - 1]
      case BeginRaise => Raise
      case BeginRelease => Release
      case BeginReleaseAll => ReleaseAll
      case _ => CallAt(steps, n - 1)
  }

  /** In step i such a call succeeds: the update of the counter is the last thing it does. */
  predicate Succeeds(steps: seq<Step>, call: Call, i: nat)
    requires i < |steps|
  {
    steps[i].Update? && CallAt(steps, i) == call
  }

  /** How many such calls succeed in the steps from a up to n. */
  function Successes(steps: seq<Step>, call: Call, a: nat, n: nat): nat
    requires a <= n <= |steps|
  {
    if a == n then 0 else Successes(steps, call, a, n - 1) + (if Succeeds(steps, call, n - 1) then 1 else 0)
  }

  /** The call an operation belongs to. */
  function CallOf(op: Op): Call {
    match op
    case Free => Nobody
    case RaiseTest => Raise
    case RaiseWrite => Raise
    case RaiseAdd => Raise
    case ReleaseTest => Release
    case ReleaseRead => Release
    case ReleaseSub => Release
    case AllTest => ReleaseAll
    case AllRead => ReleaseAll
    case AllStore => ReleaseAll
  }

  /** Whoever is inside the mutex is the one who took it last. */
  lemma {:induction false} HolderTookIt(ks: seq<Token>, steps: seq<Step>, n: nat)
    requires IsRun(ks, steps) && n < |ks|
    ensures ks[n].op.Free? || CallOf(ks[n].op) == CallAt(steps, n)
  {
    if n > 0 {
      HolderTookIt(ks, steps, n - 1);
    }
  }

  /** What a step does to the counter, told from the calls. */
  lemma CounterMoves(ks: seq<Token>, steps: seq<Step>, n: nat)
    requires IsRun(ks, steps) && n < |steps|
    ensures Succeeds(steps, ReleaseAll, n) ==> ks[n + 1].pending == 0
    ensures !Succeeds(steps, ReleaseAll, n) ==>
              ks[n + 1].pending == ks[n].pending + (if Succeeds(steps, Raise, n) then 1 else 0)
                                                 - (if Succeeds(steps, Release, n) then 1 else 0)
  {
    HolderTookIt(ks, steps, n);
  }

  /** The pending count is the raises that have succeeded less the releases that have succeeded,
      since the last release-all that succeeded, or else since the start. */
  lemma {:induction false} PendingIsOutstanding(ks: seq<Token>, steps: seq<Step>, a: nat, n: nat)
    requires IsRun(ks, steps) && a <= n <= |steps|
    requires a == 0 || Succeeds(steps, ReleaseAll, a - 1)
    requires Successes(steps, ReleaseAll, a, n) == 0
    ensures ks[n].pending == Successes(steps, Raise, a, n) - Successes(steps, Release, a, n)
  {
    if n > 0 {
      CounterMoves(ks, steps, n - 1);
      if a < n {
        PendingIsOutstanding(ks, steps, a, n - 1);
      }
    }
  }
}
