/**
 * The rate of a loop: sleep waits until the next multiple of the period.
 */
module Rate {

  // What one call of sleep decides: how long to sleep, if it does, and the new last interval.
  datatype Call = Call(sleeps: bool, duration: int, last: int)

  // More than a whole period late. With a negative period that is any call that does not come at
  // the very time of the last interval.
  predicate MissedACycle(period: int, last: int, now: int) {
    if period >= 0 then now > last + 2 * period else now != last
  }

  // For any period, one that is not positive included: no call asks to sleep for longer than the
  // period; it moves the last interval by exactly one period if and only if the loop is not more
  // than a whole period late, and sleeps if and only if it is not late at all, which with such a
  // period it always is.
  function Decide(period: int, last: int, now: int): (c: Call)
    ensures 0 <= c.duration <= (if period > 0 then period else 0)
    ensures c.sleeps <==> period > 0 && now < last + period
    ensures c.last == last + period <==> !MissedACycle(period, last, now)
    ensures c.sleeps && now >= last ==> now + c.duration == c.last
  {
    var next := if now < last then now + period else last + period;
    var duration := next - now;
    if duration <= 0 then Call(false, 0, if now > next + period then now + period else last + period)
    else Call(true, duration, last + period)
  }

  class GenericRate {
    const period: int
    var lastInterval: int

    constructor (period: int, now: int)
      ensures this.period == period && lastInterval == now
    {
      this.period := period;
      lastInterval := now;
    }

    // `asked` is what sleep_for is given, if it is called.
    method Sleep(now: int) returns (slept: bool, asked: int)
      modifies this`lastInterval
      ensures Call(slept, asked, lastInterval) == Decide(period, old(lastInterval), now)
    {
      var nextInterval := lastInterval + period;
      if now < lastInterval {
        nextInterval := now + period;
      }
      var timeToSleep := nextInterval - now;
      lastInterval := lastInterval + period;
      if timeToSleep <= 0 {
        if now > nextInterval + period {
          lastInterval := now + period;
        }
        return false, 0;
      }
      return true, timeToSleep;
    }

    method Reset(now: int)
      modifies this`lastInterval
      ensures lastInterval == now
    {
      lastInterval := now;
    }
  }

  // ---- loops ----

  // The last interval after calls at the given times.
  function After(period: int, start: int, nows: seq<int>): int {
    if nows == [] then start else Decide(period, After(period, start, nows[..|nows| - 1]), nows[|nows| - 1]).last
  }

  // The k-th place on the grid.
  function Grid(period: int, start: int, k: nat): int {
    if k == 0 then start else Grid(period, start, k - 1) + period
  }

  lemma {:induction false} GridIsAMultiple(period: int, start: int, k: nat)
    ensures Grid(period, start, k) == start + k * period
  {
    if k > 0 {
      GridIsAMultiple(period, start, k - 1);
      assert (k - 1) * period + period == k * period;
    }
  }

  ghost predicate OnTime(period: int, start: int, nows: seq<int>) {
    forall k :: 0 <= k < |nows| ==> !MissedACycle(period, Grid(period, start, k), nows[k])
  }

  ghost predicate OnGrid(period: int, start: int, nows: seq<int>) {
    forall k :: 0 <= k <= |nows| ==> After(period, start, nows[..k]) == Grid(period, start, k)
  }

  lemma OnGridBefore(period: int, start: int, nows: seq<int>)
    requires nows != []
    ensures OnGrid(period, start, nows) <==>
      OnGrid(period, start, nows[..|nows| - 1]) && After(period, start, nows) == Grid(period, start, |nows|)
  {
    var before := nows[..|nows| - 1];
    assert nows[..|nows|] == nows;
    if OnGrid(period, start, nows) {
      forall k | 0 <= k <= |before| ensures After(period, start, before[..k]) == Grid(period, start, k) {
        assert before[..k] == nows[..k];
      }
    }
    if OnGrid(period, start, before) && After(period, start, nows) == Grid(period, start, |nows|) {
      forall k | 0 <= k <= |nows| ensures After(period, start, nows[..k]) == Grid(period, start, k) {
        if k <= |before| { assert nows[..k] == before[..k]; }
      }
    }
  }

  // There is no drift: the last interval is on the grid after every call if and only if no call is
  // more than a whole period late for its own place on the grid, whichever way the clock goes.
  lemma {:induction false} OnGridMeansOnTime(period: int, start: int, nows: seq<int>)
    ensures OnGrid(period, start, nows) <==> OnTime(period, start, nows)
  {
    if nows == [] {
      assert nows[..0] == [];
    } else {
      var before, now := nows[..|nows| - 1], nows[|nows| - 1];
      OnGridMeansOnTime(period, start, before);
      OnGridBefore(period, start, nows);
      if OnGrid(period, start, before) { assert before[..|before|] == before; }
    }
  }

  lemma KeepsTheGrid(period: int, start: int, nows: seq<int>)
    requires OnTime(period, start, nows)
    ensures After(period, start, nows) == start + |nows| * period
  {
    OnGridMeansOnTime(period, start, nows);
    assert nows[..|nows|] == nows;
    GridIsAMultiple(period, start, |nows|);
  }

  // A loop whose work fits into the period wakes exactly on the grid: a call that sleeps to the full
  // ends at start + k * period.
  lemma WakesOnTheGrid(period: int, start: int, nows: seq<int>, now: int)
    requires OnTime(period, start, nows)
    requires start + |nows| * period <= now < start + |nows| * period + period
    ensures var c := Decide(period, After(period, start, nows), now);
      c.sleeps && now + c.duration == start + (|nows| + 1) * period
  {
    KeepsTheGrid(period, start, nows);
    assert (|nows| + 1) * period == |nows| * period + period;
  }
}
