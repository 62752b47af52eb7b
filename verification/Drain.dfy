/**
 The drain poller: sleep for as long as the queue should need, never less than 1 ms nor
 more than 50 ms, until the queue is empty.

 The queue empties at a constant rate and reports its level rounded up. Time and levels
 are reals; `rate` is in bytes per second.
*/
module Drain {
  const MIN_INTERVAL := 0.001
  const MAX_INTERVAL := 0.050

  /** `max(baudrate // 10, 1)`. */
  function BytesPerSecond(baudrate: int): (bps: int)
    requires 0 < baudrate
    ensures 1 <= bps
    ensures baudrate < 10 ==> bps == 1
    ensures baudrate >= 10 ==> 10 * bps <= baudrate < 10 * bps + 10
  {
    if baudrate / 10 > 1 then baudrate / 10 else 1
  }

  function Ceiling(x: real): (n: int)
    ensures n as real - 1.0 < x <= n as real
  {
    -((-x).Floor)
  }

  /** The clamp of `max(pending / bps, MIN)` at MAX. */
  function Interval(pending: int, bps: int): (s: real)
    requires 0 < pending && 1 <= bps
    ensures MIN_INTERVAL <= s <= MAX_INTERVAL
  {
    var wait := pending as real / bps as real;
    var longer := if wait > MIN_INTERVAL then wait else MIN_INTERVAL;
    if longer < MAX_INTERVAL then longer else MAX_INTERVAL
  }

  /** What is left of `level` after `s` seconds. */
  function After(level: real, rate: real, s: real): (left: real)
    requires 0.0 <= level && 0.0 <= rate && 0.0 <= s
    ensures 0.0 <= left <= level
  {
    if rate * s < level then level - rate * s else 0.0
  }

  lemma Scale(a: real, b: real, s: real)
    requires a <= b && 0.0 <= s
    ensures a * s <= b * s
  {
  }

  /** A sleep that was not cut off at MAX empties the queue. */
  lemma ShortSleepEmpties(level: real, rate: real, bps: int)
    requires 0.0 < level && 1 <= bps && bps as real <= rate
    requires Interval(Ceiling(level), bps) < MAX_INTERVAL
    ensures After(level, rate, Interval(Ceiling(level), bps)) == 0.0
  {
    var pending := Ceiling(level);
    var s := Interval(pending, bps);
    var wait := pending as real / bps as real;
    assert wait <= s;
    assert wait * bps as real == pending as real;
    Scale(wait, s, bps as real);
    Scale(bps as real, rate, s);
    assert rate * s >= bps as real * s >= pending as real >= level;
  }

  /** A sleep cut off at MAX takes at least its share off the level. */
  lemma LongSleepDrains(level: real, rate: real, bps: int)
    requires 0.0 <= level && 1 <= bps && bps as real <= rate
    ensures After(level, rate, MAX_INTERVAL) <= level - MAX_INTERVAL * bps as real
         || After(level, rate, MAX_INTERVAL) == 0.0
  {
    Scale(bps as real, rate, MAX_INTERVAL);
  }

  lemma QuotientMonotone(x: real, y: real, b: real)
    requires x <= y && 0.0 < b
    ensures x / b <= y / b
  {
  }

  lemma QuotientDifference(x: real, y: real, b: real)
    requires 0.0 < b
    ensures x / b - y / b == (x - y) / b
  {
  }

  /** The time `level` bytes need, and how far the estimate for the rounded-up level is off. */
  lemma EstimateError(level: real, b: real)
    requires 0.0 < level && 0.0 < b
    ensures 0.0 <= level / b
    ensures Ceiling(level) as real / b - level / b <= 1.0 / b
  {
    QuotientMonotone(0.0, level, b);
    QuotientDifference(Ceiling(level) as real, level, b);
    QuotientMonotone(Ceiling(level) as real - level, 1.0, b);
  }

  /** A sleep overshoots the time the queue needs by at most a byte's time, or is the least sleep. */
  lemma Overshoot(level: real, bps: int)
    requires 0.0 < level && 1 <= bps
    ensures var over := Interval(Ceiling(level), bps) - level / bps as real;
            over <= 1.0 / bps as real || over <= MIN_INTERVAL
  {
    var s := Interval(Ceiling(level), bps);
    EstimateError(level, bps as real);
    assert s <= Ceiling(level) as real / bps as real || s == MIN_INTERVAL;
  }

  /** The most sleeps a queue of `level` bytes can take: one per full share, and one more. */
  function SleepBound(level: real, bps: int): int
    requires 0.0 <= level && 1 <= bps
  {
    Ceiling(level / (0.050 * bps as real)) + 1
  }

  lemma CountBound(n: nat, level: real, bps: int)
    requires 0.0 <= level && 1 <= bps && n as real * (MAX_INTERVAL * bps as real) < level
    ensures n + 1 < SleepBound(level, bps)
  {
    var share := MAX_INTERVAL * bps as real;
    QuotientMonotone(n as real * share, level, share);
    assert n as real * share / share == n as real;
    assert level / share * share == level;
    assert level / share != n as real;
  }

  /** After `elapsed` seconds `left` bytes are left. */
  ghost predicate Timing(level: real, rate: real, left: real, elapsed: real) {
    && 0.0 <= left && 0.0 <= elapsed
    && (if left == 0.0 then rate * elapsed >= level else left == level - rate * elapsed)
  }

  /** While any bytes are left, each of `n` sleeps took its full share. */
  ghost predicate Shares(level: real, bps: int, left: real, n: nat) {
    left > 0.0 ==> n as real * (MAX_INTERVAL * bps as real) <= level - left
  }

  /** At rate `bps` the queue emptied at time `level / bps`; `elapsed` is later by at most a byte's time, or 1 ms. */
  ghost predicate InTime(level: real, bps: int, elapsed: real)
    requires 1 <= bps
  {
    var late := elapsed - level / bps as real;
    late <= 1.0 / bps as real || late <= 0.001
  }

  lemma SleepTiming(level: real, rate: real, left: real, elapsed: real, s: real)
    requires Timing(level, rate, left, elapsed) && 0.0 < left && 0.0 <= s && 0.0 <= rate
    ensures Timing(level, rate, After(left, rate, s), elapsed + s)
  {
    assert rate * (elapsed + s) == rate * elapsed + rate * s;
  }

  lemma SleepShares(level: real, rate: real, bps: int, left: real, n: nat)
    requires 1 <= bps && bps as real <= rate
    requires Shares(level, bps, left, n) && 0.0 < left
    ensures Shares(level, bps, After(left, rate, Interval(Ceiling(left), bps)), n + 1)
  {
    var share := MAX_INTERVAL * bps as real;
    if Interval(Ceiling(left), bps) < MAX_INTERVAL {
      ShortSleepEmpties(left, rate, bps);
    }
    LongSleepDrains(left, rate, bps);
    assert (n + 1) as real * share == n as real * share + share;
  }

  /** At exactly the estimated rate any sleep of a queue that is not empty yet ends in time. */
  lemma LastSleep(level: real, bps: int, left: real, elapsed: real)
    requires 1 <= bps && Timing(level, bps as real, left, elapsed) && 0.0 < left
    ensures InTime(level, bps, elapsed + Interval(Ceiling(left), bps))
  {
    var b := bps as real;
    QuotientDifference(level, b * elapsed, b);
    assert b * elapsed / b == elapsed;
    Overshoot(left, bps);
  }

  function Total(sleeps: seq<real>): real {
    if sleeps == [] then 0.0 else Total(sleeps[..|sleeps| - 1]) + sleeps[|sleeps| - 1]
  }

  // ---------------------------------------------------------------------
  // The run of sleeps
  // ---------------------------------------------------------------------

  /** What is left after `n` sleeps; an empty queue is slept on no more. */
  function Left(level: real, rate: real, bps: int, n: nat): (left: real)
    requires 0.0 <= level && 1 <= bps && bps as real <= rate
    ensures 0.0 <= left <= level
  {
    if n == 0 then level else
    var before := Left(level, rate, bps, n - 1);
    if before == 0.0 then 0.0 else After(before, rate, Interval(Ceiling(before), bps))
  }

  function Sleeps(level: real, rate: real, bps: int, n: nat): (sleeps: seq<real>)
    requires 0.0 <= level && 1 <= bps && bps as real <= rate
    ensures |sleeps| <= n && forall i | 0 <= i < |sleeps| :: MIN_INTERVAL <= sleeps[i] <= MAX_INTERVAL
  {
    if n == 0 then [] else
    var before := Left(level, rate, bps, n - 1);
    Sleeps(level, rate, bps, n - 1) + if before == 0.0 then [] else [Interval(Ceiling(before), bps)]
  }

  /** The first `n` sleeps, the queue not being empty before the last of them. */
  ghost predicate Needed(level: real, rate: real, bps: int, n: nat)
    requires 0.0 <= level && 1 <= bps && bps as real <= rate
  {
    n == 0 || 0.0 < Left(level, rate, bps, n - 1)
  }

  lemma TotalStep(sleeps: seq<real>, s: real)
    ensures Total(sleeps + [s]) == Total(sleeps) + s
  {
    assert (sleeps + [s])[..|sleeps|] == sleeps;
  }

  /** After `n` sleeps: nothing is left once `rate` times the time slept covers the level, and the rest of it before. */
  lemma {:induction false} EverySleepTimed(level: real, rate: real, bps: int, n: nat)
    requires 0.0 <= level && 1 <= bps && bps as real <= rate
    ensures Timing(level, rate, Left(level, rate, bps, n), Total(Sleeps(level, rate, bps, n)))
  {
    if n == 0 {
    } else {
      EverySleepTimed(level, rate, bps, n - 1);
      var before, sleeps := Left(level, rate, bps, n - 1), Sleeps(level, rate, bps, n - 1);
      if 0.0 < before {
        var s := Interval(Ceiling(before), bps);
        SleepTiming(level, rate, before, Total(sleeps), s);
        TotalStep(sleeps, s);
      } else {
        assert sleeps + [] == sleeps;
      }
    }
  }

  lemma {:induction false} EverySleepShares(level: real, rate: real, bps: int, n: nat)
    requires 0.0 <= level && 1 <= bps && bps as real <= rate
    ensures Shares(level, bps, Left(level, rate, bps, n), n)
  {
    if n == 0 {
    } else {
      EverySleepShares(level, rate, bps, n - 1);
      if 0.0 < Left(level, rate, bps, n - 1) {
        SleepShares(level, rate, bps, Left(level, rate, bps, n - 1), n - 1);
      }
    }
  }

  /** A queue that is not empty after `n` sleeps has sleeps left to go. */
  lemma SleepsBounded(level: real, rate: real, bps: int, n: nat)
    requires 0.0 <= level && 1 <= bps && bps as real <= rate && 0.0 < Left(level, rate, bps, n)
    ensures n + 1 < SleepBound(level, bps)
  {
    EverySleepShares(level, rate, bps, n);
    CountBound(n, level, bps);
  }

  lemma EndsInTime(level: real, bps: int, n: nat)
    requires 0.0 < level && 1 <= bps
    requires Needed(level, bps as real, bps, n) && Left(level, bps as real, bps, n) == 0.0
    ensures InTime(level, bps, Total(Sleeps(level, bps as real, bps, n)))
  {
    var before, sleeps := Left(level, bps as real, bps, n - 1), Sleeps(level, bps as real, bps, n - 1);
    EverySleepTimed(level, bps as real, bps, n - 1);
    LastSleep(level, bps, before, Total(sleeps));
    TotalStep(sleeps, Interval(Ceiling(before), bps));
  }

  lemma BoundHolds(level: real, rate: real, bps: int, n: nat)
    requires 0.0 <= level && 1 <= bps && bps as real <= rate && Needed(level, rate, bps, n)
    ensures n <= SleepBound(level, bps)
  {
    if n > 0 {
      SleepsBounded(level, rate, bps, n - 1);
    } else {
      QuotientMonotone(0.0, level, MAX_INTERVAL * bps as real);
    }
  }

  /** The loop, against a queue that starts with `level` bytes; returns the sleeps it took. */
  method SleepUntilEmpty(bps: int, level: real, rate: real) returns (sleeps: seq<real>)
    requires 0.0 <= level && 1 <= bps && bps as real <= rate
    ensures sleeps == Sleeps(level, rate, bps, |sleeps|)
    ensures Needed(level, rate, bps, |sleeps|) && Left(level, rate, bps, |sleeps|) == 0.0
  {
    sleeps := [];
    var left := level;
    while true
      invariant left == Left(level, rate, bps, |sleeps|) && sleeps == Sleeps(level, rate, bps, |sleeps|)
      invariant Needed(level, rate, bps, |sleeps|)
      decreases SleepBound(level, bps) - |sleeps|
    {
      var pending := Ceiling(left);
      if pending <= 0 {
        break;
      }
      SleepsBounded(level, rate, bps, |sleeps|);
      var s := Interval(pending, bps);
      left := After(left, rate, s);
      sleeps := sleeps + [s];
    }
  }

  /** `drain`: the time that passed is the sum of the sleeps; the queue emptied at time `level / rate`. */
  method DrainQueue(baudrate: int, level: real, rate: real) returns (sleeps: seq<real>)
    requires 0 < baudrate && 0.0 <= level
    requires BytesPerSecond(baudrate) as real <= rate
    ensures forall i | 0 <= i < |sleeps| :: 0.001 <= sleeps[i] <= 0.050
    // It returns only on an empty queue, and from an empty queue at once.
    ensures Left(level, rate, BytesPerSecond(baudrate), |sleeps|) == 0.0
    ensures sleeps == Sleeps(level, rate, BytesPerSecond(baudrate), |sleeps|)
    ensures level == 0.0 ==> sleeps == []
    ensures |sleeps| <= SleepBound(level, BytesPerSecond(baudrate))
    // At exactly the estimated rate it is late by at most a byte's time, or 1 ms.
    ensures rate == BytesPerSecond(baudrate) as real && 0.0 < level ==>
              InTime(level, BytesPerSecond(baudrate), Total(sleeps))
  {
    var bps := BytesPerSecond(baudrate);
    sleeps := SleepUntilEmpty(bps, level, rate);
    BoundHolds(level, rate, bps, |sleeps|);
    if rate == bps as real && 0.0 < level {
      EndsInTime(level, bps, |sleeps|);
    }
  }
}
