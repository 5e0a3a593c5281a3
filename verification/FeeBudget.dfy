/**
  * The arithmetic of the fee budget: how many blocks an interval between two
  * maintenances is planned for, how many it can really have, and when the next
  * maintenance is due.
  */
module FeeBudget {
  import opened Arithmetic

  /** The number of blocks the budget is spread over. */
  function BlocksInInterval(next: int, last: int, interval: nat): int
    requires interval > 0
  {
    (next - last + interval - 1) / interval
  }

  /** That is as many block intervals as cover the time, the last one perhaps in part. */
  lemma IntervalsCover(next: int, last: int, interval: nat)
    requires interval > 0
    ensures var blocks := BlocksInInterval(next, last, interval); (blocks - 1) * interval < next - last <= blocks * interval
  {
    var blocks := BlocksInInterval(next, last, interval);
    Parts(next - last + interval - 1, interval);
    Distribute(blocks, -1, interval);
  }

  /** The multiples of `interval` after `from` and up to `to`. */
  function SlotsWithin(from: int, to: int, interval: nat): int
    requires interval > 0
  {
    to / interval - from / interval
  }

  /** The last budget stood on a slot, or is no farther from one than the second before the next maintenance. */
  predicate Fits(last: int, next: int, interval: nat)
    requires interval > 0
  {
    last % interval == 0 || (next - 1) % interval >= last % interval
  }

  /**
    * The blocks between two maintenances, with the second one, are at most the
    * slots from the last budget to just before the next, and one. They are within
    * the plan if and only if the two times fit.
    */
  lemma BlocksFit(last: int, next: int, interval: nat)
    requires interval > 0 && last < next
    ensures SlotsWithin(last, next - 1, interval) + 1 <= BlocksInInterval(next, last, interval)
       <==> Fits(last, next, interval)
  {
    var d := interval;
    var b, n := last / d, (next - 1) / d;
    Parts(last, d);
    Parts(next - 1, d);
    var gap := (next - 1) % d - last % d;
    Distribute(n, -b, d);
    Distribute(n - b, 1, d);
    assert (-b) * d == -(b * d);
    if gap >= 0 {
      DivUnique(next - last + d - 1, n - b + 1, gap, d);
    } else {
      DivUnique(next - last + d - 1, n - b, gap + d, d);
    }
  }

  /** A maintenance time on a slot is enough, wherever the last budget stood. */
  lemma OnSlotFits(last: int, next: int, interval: nat)
    requires interval > 0 && next % interval == 0
    ensures Fits(last, next, interval)
  {
    Parts(next, interval);
    Distribute(next / interval, -1, interval);
    DivUnique(next - 1, next / interval - 1, interval - 1, interval);
  }

  /**
    * When the block interval changes so that the next maintenance is off its
    * slots, there can be one block too many: from 6 to 16, every 5 seconds, two
    * blocks are planned, and those at 10, 15 and 20 are paid, so a budget of two
    * is overdrawn by one.
    */
  lemma OneBlockTooMany()
    ensures NextMaintenance(6, 6, 10, false) == 16 && 10 % 5 == 0
    ensures BlocksInInterval(16, 6, 5) == 2 && 2 - 3 * (2 / BlocksInInterval(16, 6, 5)) == -1
    ensures 6 % 2 == 0 && 16 % 2 == 0 && !Fits(6, 16, 5)
    ensures 6 < 10 < 15 < 16 <= 20 && SlotsWithin(6, 15, 5) + 1 == 3
  {
  }

  /** The slots of a run with as many blocks as there can be: all those before the maintenance, and the one it is due in. */
  lemma FullRun(last: int, next: int, interval: nat, k: int)
    requires interval > 0 && last < next && 1 <= k <= SlotsWithin(last, next - 1, interval) + 1
    ensures last < (last / interval + k) * interval
    ensures (last / interval + k) * interval < next <==> k <= SlotsWithin(last, next - 1, interval)
  {
    Parts(last, interval);
    Parts(next - 1, interval);
    Distribute(last / interval, k, interval);
    StepApart(last / interval + k, last / interval, interval);
    StepApart(last / interval + k, (next - 1) / interval, interval);
    StepApart((next - 1) / interval + 1, last / interval + k, interval);
    Distribute((next - 1) / interval, 1, interval);
  }

  /** When the times do not fit, such a run overdraws a budget of one for each planned block. */
  lemma Overdrawn(last: int, next: int, interval: nat)
    requires interval > 0 && last < next && !Fits(last, next, interval)
    ensures var blocks, paid := BlocksInInterval(next, last, interval), SlotsWithin(last, next - 1, interval) + 1;
            blocks > 0 && blocks - paid * (blocks / blocks) < 0
  {
    var blocks := BlocksInInterval(next, last, interval);
    BlocksFit(last, next, interval);
    DivOrder(interval, next - last + interval - 1, interval);
    DivUnique(interval, 1, 0, interval);
    DivUnique(blocks, 1, 0, blocks);
  }

  /** Paying the same part for at most the planned number of blocks never overdraws the budget. */
  lemma NeverOverdrawn(budget: nat, paid: nat, blocks: nat)
    requires blocks > 0 && paid <= blocks
    ensures 0 <= paid * (budget / blocks) <= budget
  {
    Parts(budget, blocks);
    MulOrder(paid, blocks, budget / blocks);
    MulOrder(0, paid, budget / blocks);
  }

  // ---- The next maintenance ----

  /** When maintenance is next due, once it is run by the block at `now`. */
  function NextMaintenance(due: int, now: int, period: nat, first: bool): int
    requires period > 0
  {
    if due > now then due
    else if first then (now / period + 1) * period
    else due + ((now - due) / period + 1) * period
  }

  /** The times the next maintenance may have: multiples of the period, counted from the start or from the time that was due. */
  function Candidate(due: int, period: nat, first: bool, k: int): int {
    if first then k * period else due + k * period
  }

  /** It is always in the future, and the first such time that is. */
  lemma NextIsLeast(due: int, now: int, period: nat, first: bool)
    requires period > 0 && due <= now
    ensures NextMaintenance(due, now, period, first) > now
    ensures exists k :: NextMaintenance(due, now, period, first) == Candidate(due, period, first, k)
    ensures forall k :: Candidate(due, period, first, k) > now ==> NextMaintenance(due, now, period, first) <= Candidate(due, period, first, k)
  {
    var base := if first then 0 else due;
    var q := (now - base) / period;
    Parts(now - base, period);
    Distribute(q, 1, period);
    assert NextMaintenance(due, now, period, first) == Candidate(due, period, first, q + 1);
    forall k | Candidate(due, period, first, k) > now
      ensures NextMaintenance(due, now, period, first) <= Candidate(due, period, first, k)
    {
      StepApart(q + 1, k, period);
      StepApart(q, k, period);
    }
  }

  /** It stays on a slot when the period is a whole number of block intervals. */
  lemma NextOnSlot(due: int, now: int, period: nat, first: bool, interval: nat)
    requires period > 0 && interval > 0 && due % interval == 0
    ensures period % interval == 0 ==> NextMaintenance(due, now, period, first) % interval == 0
  {
    if period % interval == 0 {
      var base := if first then 0 else due;
      var k := (now - base) / period + 1;
      MultipleKeeps(base, k, period, interval);
    }
  }

  lemma MultipleKeeps(base: int, k: int, period: nat, interval: nat)
    requires interval > 0 && base % interval == 0 && period % interval == 0
    ensures (base + k * period) % interval == 0
  {
    Parts(base, interval);
    Parts(period, interval);
    var n, m := base / interval, period / interval;
    assert k * (m * interval) == k * m * interval;
    Distribute(n, k * m, interval);
    DivUnique(base + k * period, n + k * m, 0, interval);
  }
}
