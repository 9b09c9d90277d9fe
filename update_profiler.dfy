/** The update profiler: it adds up the time between ticks and counts the
    ticks; once a second has accumulated it reports the frame rate, takes
    one second off the total and restarts the count. Durations are whole
    nanoseconds; the printed average is not modelled. */
module UpdateProfiler {

  const SECOND: int := 1_000_000_000

  /** The profiler's two counters. */
  datatype Counters = Counters(total: int, ticks: nat)

  /** report(): below one second nothing changes; otherwise exactly one
      second is taken off (once, however large the total) and the count
      restarts. */
  function Reported(c: Counters): (r: Counters)
    ensures c.total < SECOND ==> r == c
    ensures c.total >= SECOND ==> r.ticks == 0 && r.total == c.total - SECOND && r.total >= 0
  {
    if c.total >= SECOND then Counters(c.total - SECOND, 0) else c
  }

  /** update(delta): add the delta, count the tick, then report. */
  function Updated(c: Counters, delta: int): (r: Counters)
  {
    Reported(Counters(c.total + delta, c.ticks + 1))
  }

  /** Whether the report that ends update(delta) fires. */
  predicate Fires(c: Counters, delta: int) {
    c.total + delta >= SECOND
  }

  class UpdateProfiler {
    var deltaTotal: int
    var tickCount: nat

    function Snapshot(): Counters
      reads this
    {
      Counters(deltaTotal, tickCount)
    }

    constructor ()
      ensures deltaTotal == 0 && tickCount == 0
    {
      deltaTotal := 0;
      tickCount := 0;
    }

    method Update(delta: int)
      modifies this
      ensures Snapshot() == Updated(old(Snapshot()), delta)
    {
      deltaTotal := deltaTotal + delta;
      tickCount := tickCount + 1;
      Report();
    }

    /** The report divides the total by the count to print the average, so
        a count of zero with a second accumulated is excluded. Through
        update the count is at least one; called directly after a report
        that left a second or more, it is zero. */
    method Report()
      requires deltaTotal >= SECOND ==> tickCount > 0
      modifies this
      ensures Snapshot() == Reported(old(Snapshot()))
    {
      if deltaTotal >= SECOND {
        deltaTotal := deltaTotal - SECOND;
        tickCount := 0;
      }
    }
  }

  /** With every delta between zero and one second, a total below one
      second stays below one second (and not negative). */
  lemma UpdateKeepsBelowSecond(c: Counters, delta: int)
    requires 0 <= c.total < SECOND && 0 <= delta <= SECOND
    ensures 0 <= Updated(c, delta).total < SECOND
  {
  }

  /** The count restarts exactly when the report fires, otherwise grows by
      one. */
  lemma UpdateCountsTicks(c: Counters, delta: int)
    ensures Fires(c, delta) <==> Updated(c, delta).ticks == 0
    ensures !Fires(c, delta) ==> Updated(c, delta).ticks == c.ticks + 1
  {
  }

  /** update over a run of deltas. */
  function UpdatedAll(c: Counters, deltas: seq<int>): Counters
    decreases |deltas|
  {
    if deltas == [] then c
    else Updated(UpdatedAll(c, deltas[..|deltas| - 1]), deltas[|deltas| - 1])
  }

  /** How many of those updates fire a report. */
  function Reports(c: Counters, deltas: seq<int>): nat
    decreases |deltas|
  {
    if deltas == [] then 0
    else
      var before := UpdatedAll(c, deltas[..|deltas| - 1]);
      Reports(c, deltas[..|deltas| - 1]) + (if Fires(before, deltas[|deltas| - 1]) then 1 else 0)
  }

  function Sum(deltas: seq<int>): int
    decreases |deltas|
  {
    if deltas == [] then 0 else Sum(deltas[..|deltas| - 1]) + deltas[|deltas| - 1]
  }

  /** No time is lost: what is left plus one second per report is the
      starting total plus all the deltas. */
  lemma {:induction false} TimeIsConserved(c: Counters, deltas: seq<int>)
    ensures UpdatedAll(c, deltas).total + SECOND * Reports(c, deltas) == c.total + Sum(deltas)
    decreases |deltas|
  {
    if deltas != [] {
      TimeIsConserved(c, deltas[..|deltas| - 1]);
    }
  }

  /** The count is the number of updates since the last report. */
  lemma {:induction false} TicksSinceLastReport(c: Counters, deltas: seq<int>)
    ensures UpdatedAll(c, deltas).ticks <= c.ticks + |deltas|
    ensures Reports(c, deltas) == 0 ==> UpdatedAll(c, deltas).ticks == c.ticks + |deltas|
    decreases |deltas|
  {
    if deltas != [] {
      TicksSinceLastReport(c, deltas[..|deltas| - 1]);
    }
  }

  /** A tick of three seconds from a fresh profiler reports once and leaves
      two seconds with a count of zero, where a direct report() would divide
      by zero. */
  lemma LongTickLeavesBacklog()
    ensures Updated(Counters(0, 0), 3 * SECOND) == Counters(2 * SECOND, 0)
    ensures var c := Updated(Counters(0, 0), 3 * SECOND); c.total >= SECOND && c.ticks == 0
  {
  }
}
