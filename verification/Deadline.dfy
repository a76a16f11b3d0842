/** The absolute deadline that Condition::waitRelative and waitRelativeUs compute from the
    monotonic clock and a relative time, with 64-bit intermediate values and a `long` of either
    32 or 64 bits. */
module Deadline {
  const INT64_MAX := 0x7FFF_FFFF_FFFF_FFFF
  const LONG_MAX_32 := 0x7FFF_FFFF
  const NSEC_PER_SEC := 1_000_000_000

  type int64 = x: int | -INT64_MAX - 1 <= x <= INT64_MAX

  datatype Timespec = Timespec(tv_sec: int, tv_nsec: int)

  /** What the clock returns: normalised, not before its epoch, and a long. */
  predicate IsClock(now: Timespec, longMax: int) {
    0 <= now.tv_sec <= longMax && 0 <= now.tv_nsec < NSEC_PER_SEC
  }

  predicate IsLongMax(longMax: int) {
    longMax == LONG_MAX_32 || longMax == INT64_MAX
  }

  function Min(a: int, b: int): int {
    if a < b then a else b
  }

  function Nanos(ts: Timespec): int {
    ts.tv_sec * NSEC_PER_SEC + ts.tv_nsec
  }

  /** The seconds may be cut off at LONG_MAX, and nothing else. */
  ghost predicate IsDeadline(ts: Timespec, now: Timespec, relative: int, longMax: int) {
    var exact := Nanos(now) + relative;
    && ts.tv_nsec == exact % NSEC_PER_SEC
    && ts.tv_sec == Min(exact / NSEC_PER_SEC, longMax)
  }

  /** A sum of nanoseconds carries into the seconds at most once. */
  lemma Carry(sec: nat, nsec: nat, relSec: nat, relNsec: nat)
    requires nsec < NSEC_PER_SEC && relNsec < NSEC_PER_SEC
    ensures var exact := (sec + relSec) * NSEC_PER_SEC + (nsec + relNsec);
            var carry := if nsec + relNsec >= NSEC_PER_SEC then 1 else 0;
            && exact % NSEC_PER_SEC == nsec + relNsec - carry * NSEC_PER_SEC
            && exact / NSEC_PER_SEC == sec + relSec + carry
  {
  }

  /** A time in units of 1/perSec seconds, split the way the code splits it. */
  lemma Split(reltime: nat, perSec: int)
    requires perSec == 1000 || perSec == 1000000
    ensures var unit := NSEC_PER_SEC / perSec;
            reltime * unit == reltime / perSec * NSEC_PER_SEC + reltime * unit % NSEC_PER_SEC
  {
    var unit := NSEC_PER_SEC / perSec;
    var s, r := reltime / perSec, reltime % perSec;
    assert reltime == s * perSec + r;
    assert reltime * unit == s * NSEC_PER_SEC + r * unit;
    assert 0 <= r * unit < NSEC_PER_SEC;
    assert reltime * unit % NSEC_PER_SEC == r * unit;
  }

  /** The common tail of the two functions: ts.tv_nsec already holds the sum. */
  method AddSeconds(ts0: Timespec, relSec0: int64, longMax: int) returns (ts: Timespec)
    requires IsLongMax(longMax) && 0 <= ts0.tv_sec <= longMax
    requires 0 <= ts0.tv_nsec < 2 * NSEC_PER_SEC && 0 <= relSec0 < INT64_MAX
    ensures ts.tv_nsec == if ts0.tv_nsec >= NSEC_PER_SEC then ts0.tv_nsec - NSEC_PER_SEC else ts0.tv_nsec
    ensures ts.tv_sec == Min(ts0.tv_sec + relSec0 + (if ts0.tv_nsec >= NSEC_PER_SEC then 1 else 0), longMax)
  {
    ts := ts0;
    var relSec: int64 := relSec0;
    if relSec < INT64_MAX && ts.tv_nsec >= NSEC_PER_SEC {
      ts := ts.(tv_nsec := ts.tv_nsec - NSEC_PER_SEC);
      relSec := relSec + 1;
    }
    var timeSec: int64 := ts.tv_sec;
    var room: int64 := INT64_MAX - relSec;
    if timeSec > room {
      timeSec := INT64_MAX;
    } else {
      timeSec := timeSec + relSec;
    }
    ts := ts.(tv_sec := if timeSec > longMax then longMax else timeSec);
  }

  /** reltime in milliseconds; every intermediate value is checked against its C type. */
  method WaitRelative(now: Timespec, reltime: int64, longMax: int) returns (ts: Timespec)
    requires IsLongMax(longMax) && IsClock(now, longMax)
    requires 0 <= reltime && reltime * 1000 * 1000 <= INT64_MAX
    ensures IsDeadline(ts, now, reltime * 1000000, longMax)
  {
    ts := now;
    var relSec: int64 := reltime / 1000;
    var relNsec: int64 := reltime * 1000 * 1000 % 1000000000;
    Split(reltime, 1000);
    Carry(now.tv_sec, now.tv_nsec, relSec, relNsec);
    assert ts.tv_nsec + relNsec <= LONG_MAX_32;
    ts := ts.(tv_nsec := ts.tv_nsec + relNsec);
    ts := AddSeconds(ts, relSec, longMax);
  }

  /** reltime in microseconds. */
  method WaitRelativeUs(now: Timespec, reltime: int64, longMax: int) returns (ts: Timespec)
    requires IsLongMax(longMax) && IsClock(now, longMax)
    requires 0 <= reltime && reltime * 1000 <= INT64_MAX
    ensures IsDeadline(ts, now, reltime * 1000, longMax)
  {
    ts := now;
    var relSec: int64 := reltime / 1000000;
    var relNsec: int64 := reltime * 1000 % 1000000000;
    Split(reltime, 1000000);
    Carry(now.tv_sec, now.tv_nsec, relSec, relNsec);
    assert ts.tv_nsec + relNsec <= LONG_MAX_32;
    ts := ts.(tv_nsec := ts.tv_nsec + relNsec);
    ts := AddSeconds(ts, relSec, longMax);
  }

  /** A deadline is a normalised time. It is now plus the relative time exactly when the seconds
      of that sum fit in a long; otherwise it is earlier, by whole seconds. */
  lemma DeadlineIsExactIff(ts: Timespec, now: Timespec, relative: nat, longMax: int)
    requires IsLongMax(longMax) && IsClock(now, longMax) && IsDeadline(ts, now, relative, longMax)
    ensures 0 <= ts.tv_nsec < NSEC_PER_SEC && now.tv_sec <= ts.tv_sec <= longMax
    ensures Nanos(ts) == Nanos(now) + relative <==> (Nanos(now) + relative) / NSEC_PER_SEC <= longMax
    ensures Nanos(ts) <= Nanos(now) + relative
    ensures (Nanos(now) + relative - Nanos(ts)) % NSEC_PER_SEC == 0
  {
    var exact := Nanos(now) + relative;
    assert exact == exact / NSEC_PER_SEC * NSEC_PER_SEC + exact % NSEC_PER_SEC;
    var k := exact / NSEC_PER_SEC - ts.tv_sec;
    assert exact - Nanos(ts) == k * NSEC_PER_SEC;
  }

  /** Deadlines that are not cut off lie as far apart as their relative times. */
  lemma DeadlinesKeepDistance(t1: Timespec, t2: Timespec, now: Timespec, r1: nat, r2: nat, longMax: int)
    requires IsLongMax(longMax) && IsClock(now, longMax) && r1 <= r2
    requires IsDeadline(t1, now, r1, longMax) && IsDeadline(t2, now, r2, longMax)
    requires (Nanos(now) + r2) / NSEC_PER_SEC <= longMax
    ensures Nanos(t2) - Nanos(t1) == r2 - r1
  {
    DeadlineIsExactIff(t1, now, r1, longMax);
    DeadlineIsExactIff(t2, now, r2, longMax);
    assert (Nanos(now) + r1) / NSEC_PER_SEC <= (Nanos(now) + r2) / NSEC_PER_SEC;
  }

  /** A longer relative time never gives an earlier deadline exactly when the shorter one's
      deadline lies before the last second there is, or its nanoseconds are no later. */
  lemma DeadlinesInOrderIff(t1: Timespec, t2: Timespec, now: Timespec, r1: nat, r2: nat, longMax: int)
    requires IsLongMax(longMax) && IsClock(now, longMax) && r1 <= r2
    requires IsDeadline(t1, now, r1, longMax) && IsDeadline(t2, now, r2, longMax)
    ensures var e1, e2 := Nanos(now) + r1, Nanos(now) + r2;
            Nanos(t1) <= Nanos(t2) <==> e1 / NSEC_PER_SEC < longMax || e1 % NSEC_PER_SEC <= e2 % NSEC_PER_SEC
  {
  }

  /** Cut-off deadlines can be out of order: 2147483647.9 s and 2147483648 s, on a 32-bit long. */
  lemma CutOffDeadlinesSwap() returns (t1: Timespec, t2: Timespec)
    ensures IsDeadline(t1, Timespec(0, 0), 2147483647_900_000_000, LONG_MAX_32)
    ensures IsDeadline(t2, Timespec(0, 0), 2147483648_000_000_000, LONG_MAX_32)
    ensures Nanos(t2) < Nanos(t1)
  {
    t1, t2 := Timespec(LONG_MAX_32, 900_000_000), Timespec(LONG_MAX_32, 0);
  }

  /** Both functions give the same deadline for the same time. */
  method MillisAndMicrosAgree(now: Timespec, m: int64, longMax: int) returns (a: Timespec, b: Timespec)
    requires IsLongMax(longMax) && IsClock(now, longMax)
    requires 0 <= m && m * 1000 * 1000 <= INT64_MAX
    ensures a == b && IsDeadline(a, now, m * 1000000, longMax)
  {
    a := WaitRelative(now, m, longMax);
    b := WaitRelativeUs(now, 1000 * m, longMax);
  }
}
