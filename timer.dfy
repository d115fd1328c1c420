/**
 * `myst.Timer` (src/myst.js): a counter that ticks on every interval-th run.
 */
module Timers {
  import opened Wrappers
  import opened Arith

  /** `interval || 1`, then at least 1: a missing, zero or negative interval becomes 1. */
  function NormalInterval(interval: Option<int>): (r: nat)
    ensures r >= 1
    ensures interval.Some? && interval.value >= 1 ==> r == interval.value
    ensures interval.None? || interval.value < 1 ==> r == 1
  {
    if interval.None? || interval.value == 0 then 1
    else if interval.value < 1 then 1
    else interval.value
  }

  /** How many of the runs 1, 2, ..., n tick. */
  function Ticks(interval: nat, n: nat): nat
    requires interval >= 1
  {
    if n == 0 then 0 else Ticks(interval, n - 1) + (if n % interval == 0 then 1 else 0)
  }

  /** n runs tick n / interval times. */
  lemma {:induction false} TicksCount(interval: nat, n: nat)
    requires interval >= 1
    ensures Ticks(interval, n) == n / interval
  {
    if n > 0 {
      TicksCount(interval, n - 1);
      ModNext(n - 1, interval);
    }
  }

  class Timer {
    const interval: nat
    var accumulator: nat
    var ticked: bool
    /** Runs since construction or the last reset. */
    ghost var runs: nat

    ghost predicate Valid()
      reads this
    {
      interval >= 1 && accumulator == runs % interval
    }

    /** `new Timer(interval)` */
    constructor (interval: Option<int>)
      ensures Valid() && this.interval == NormalInterval(interval)
      ensures accumulator == 0 && !ticked && runs == 0
    {
      this.interval := NormalInterval(interval);
      accumulator := 0;
      ticked := false;
      runs := 0;
    }

    /** `run()`: true exactly on every interval-th run; `ticked` keeps the answer. The
        accumulator stays below the interval. */
    method Run() returns (r: bool)
      requires Valid()
      modifies this
      ensures Valid() && runs == old(runs) + 1 && accumulator < interval
      ensures r <==> runs % interval == 0
      ensures ticked == r
    {
      ModNext(runs, interval);
      runs := runs + 1;
      accumulator := accumulator + 1;
      if accumulator >= interval {
        accumulator := accumulator - interval;
        ticked := true;
        return true;
      }
      ticked := false;
      return false;
    }

    /** `reset()` */
    method Reset()
      modifies this
      ensures Valid() == (interval >= 1) && accumulator == 0 && !ticked && runs == 0
    {
      accumulator := 0;
      ticked := false;
      runs := 0;
    }
  }
}
