/**
  * The ledger over whole runs: operations, block pay and maintenance in any
  * order. The supply figures always agree with what exists, so the assert in the
  * budget never fires, and the fee budget is never overdrawn.
  */
module Treasuries {
  import opened Arithmetic
  import opened FeeBudget
  import opened Ledgers
  import opened Options
  import opened Payouts
  import opened Votes
  import Issuance
  import Vesting

  // ---- The budget ----

  /** The books after the supply is brought up to date and a new fee budget is set. */
  function Budgeted(b: Books): Books {
    var budget := b.accumulatedFees + b.unspentFeeBudget;
    b.(currentSupply := b.currentSupply + (b.minedRewards + b.feeBudget - b.unspentFeeBudget - b.accumulatedFees),
       accumulatedFees := 0, minedRewards := 0, feeBudget := budget, unspentFeeBudget := budget)
  }

  /** What the assert in the budget compares. */
  ghost predicate SupplyIsReal(b: Books) {
    b.currentSupply == SumHoldings(b.holdings) + SumVestings(b.vestings) + b.confidentialSupply
  }

  /** The assert holds exactly when the figures agreed before, and they agree afterwards too. */
  lemma BudgetKeepsSupply(b: Books)
    ensures SupplyIsReal(Budgeted(b)) <==> Gap(b) == 0
    ensures Gap(Budgeted(b)) == Gap(b)
  {
  }

  // ---- The plan ----

  /** What one block takes from the fee budget. */
  function Part(feeBudget: int, next: int, last: int, interval: nat): nat
    requires interval > 0 && last <= next
  {
    PayFromFees(feeBudget, BlocksInInterval(next, last, interval))
  }

  /**
    * The clock and the maintenance times, between blocks or with maintenance still
    * due. No time need be on a slot.
    */
  ghost predicate Timed(first: bool, now: int, last: int, next: int, due: bool, interval: nat) {
    && interval > 0 && 0 <= last <= now && last <= next && Fits(last, next, interval)
    && (first ==> last == 0 && next == 0 && !due)
    && (!first ==> if due then next <= now else now < next)
  }

  /** Never more blocks are paid than the plan allows for. */
  ghost predicate Planned(budget: int, unspent: int, paid: nat, now: int, last: int, next: int, due: bool, interval: nat)
    requires interval > 0 && last <= next
  {
    && budget >= 0 && unspent == budget - paid * Part(budget, next, last, interval)
    && (budget > 0 ==>
          if due then paid <= BlocksInInterval(next, last, interval)
          else paid <= SlotsWithin(last, now, interval) && now < next)
  }

  /** A block must come in a later slot than the head, at any time within it. */
  predicate LaterSlot(now: int, time: int, interval: nat)
    requires interval > 0
  {
    now / interval < time / interval
  }

  lemma LaterIsLater(now: int, time: int, interval: nat)
    requires interval > 0 && LaterSlot(now, time, interval)
    ensures now < time
  {
    if time <= now {
      DivOrder(time, now, interval);
    }
  }

  lemma PlanStep(first: bool, budget: int, unspent: int, paid: nat, now: int, time: int, last: int, next: int, interval: nat)
    requires Timed(first, now, last, next, false, interval) && Planned(budget, unspent, paid, now, last, next, false, interval)
    requires LaterSlot(now, time, interval)
    ensures Timed(false, time, last, next, next <= time, interval)
    ensures Planned(budget, unspent - Part(budget, next, last, interval), paid + 1, time, last, next, next <= time, interval)
  {
    Distribute(paid, 1, Part(budget, next, last, interval));
    LaterIsLater(now, time, interval);
    if budget > 0 && next <= time {
      DivOrder(now, next - 1, interval);
      BlocksFit(last, next, interval);
    }
  }

  /** The fee budget is never overdrawn. */
  lemma PlanSuffices(budget: int, unspent: int, paid: nat, now: int, last: int, next: int, due: bool, interval: nat)
    requires interval > 0 && 0 <= last <= next && Fits(last, next, interval)
    requires Planned(budget, unspent, paid, now, last, next, due, interval)
    ensures 0 <= unspent <= budget
  {
    var blocks := BlocksInInterval(next, last, interval);
    if budget > 0 {
      if !due && last < next {
        DivOrder(now, next - 1, interval);
        BlocksFit(last, next, interval);
      }
      if blocks > 0 {
        NeverOverdrawn(budget, paid, blocks);
      }
    }
  }

  // ---- Maintenance ----

  /** The books after the tally: every stake is recorded and every miner's votes are counted; all else is as before. */
  ghost predicate Counted(b: Books, c: Books) {
    && c == b.(holdings := c.holdings, miners := c.miners)
    && Countable(b) && RecordedBelow(b, c.holdings, |b.accounts|)
    && (forall a :: a in c.holdings && a < |b.accounts| ==> StakeRecorded(b, a, c.holdings[a]))
    && |c.miners| == |b.miners|
    && forall i :: 0 <= i < |b.miners| ==>
         && Tallied(b, |b.accounts|, b.miners[i].voteId) >= 0
         && c.miners[i] == b.miners[i].(totalVotes := Tallied(b, |b.accounts|, b.miners[i].voteId))
  }

  /** The books after maintenance: the tally, a supply that is real, and the collected fees as the new budget. */
  ghost predicate Maintained(b: Books, c: Books) {
    && SupplyIsReal(c)
    && c.feeBudget == c.unspentFeeBudget == b.accumulatedFees + b.unspentFeeBudget
    && c.accumulatedFees == c.minedRewards == 0
    && Counted(b, b.(holdings := c.holdings, miners := c.miners))
    && c.now == b.now && c.vestings == b.vestings && c.accounts == b.accounts && c.confidentialSupply == b.confidentialSupply
  }

  lemma Maintains(b: Books, c: Books, d: Books)
    requires Counted(b, c) && d == Budgeted(c) && SupplyIsReal(d)
    requires Sound(c) && Gap(c) == 0 && VotesCovered(c) && OnlyAccountsVote(c)
    ensures Maintained(b, d)
    ensures Sound(d) && Gap(d) == 0 && VotesCovered(d) && OnlyAccountsVote(d)
  {
  }

  // ---- Runs ----

  class Treasury {
    /** The block interval, which only maintenance changes. */
    var interval: nat
    const ledger: Ledger
    var headNum: nat
    var lastBudget: int
    var nextMaintenance: int
    var maintenanceDue: bool
    /** The blocks paid since the last budget. */
    ghost var paid: nat

    ghost predicate Honest()
      reads this, ledger
    {
      Sound(ledger.View()) && Gap(ledger.View()) == 0 && VotesCovered(ledger.View()) && OnlyAccountsVote(ledger.View())
    }

    ghost predicate Valid()
      reads this, ledger
    {
      && Timed(headNum == 0, ledger.now, lastBudget, nextMaintenance, maintenanceDue, interval)
      && Planned(ledger.feeBudget, ledger.unspentFeeBudget, paid, ledger.now, lastBudget, nextMaintenance, maintenanceDue, interval)
      && (headNum == 0 ==> ledger.feeBudget == 0)
      && ledger.accumulatedFees >= 0
      && Honest()
    }

    constructor (interval: nat, genesis: nat, supply: nat, owner: nat)
      requires interval > 0
      ensures Valid() && OnSlot() && fresh(ledger)
    {
      this.interval := interval;
      headNum, lastBudget, nextMaintenance, maintenanceDue, paid := 0, 0, 0, false, 0;
      ledger := new Ledger(supply, owner);
      new;
      ledger.now := genesis;
    }

    /** The fee budget is never overdrawn. */
    lemma NeverNegative()
      requires Valid()
      ensures 0 <= ledger.unspentFeeBudget <= ledger.feeBudget
    {
      PlanSuffices(ledger.feeBudget, ledger.unspentFeeBudget, paid, ledger.now, lastBudget, nextMaintenance, maintenanceDue, interval);
    }

    // ---- Operations ----

    /** An operation, alone or within a block; a failed one leaves no trace. */
    method ApplyOperation(op: Operation, accepted: bool) returns (ok: bool)
      requires Valid()
      modifies ledger
      ensures Valid()
      ensures ok == (accepted && Evaluated(old(ledger.View()), op).Some?)
      ensures ledger.View() == if ok then Evaluated(old(ledger.View()), op).value else old(ledger.View())
    {
      ghost var before := ledger.View();
      ok := ledger.Evaluate(op, accepted);
      if ok {
        OperationEffect(before, op);
        MoneyOnly(before, ledger.View());
      }
    }

    // ---- Blocks ----

    /** The time and pay part of a block: the clock moves on, and the signing miner is paid. */
    method PayBlock(time: int, m: nat, live: seq<nat>, cast: seq<nat>, seconds: nat)
      requires Valid() && !maintenanceDue
      requires LaterSlot(ledger.now, time, interval)
      requires m < |ledger.miners|
      requires LiveVoters(ledger.View(), live, ledger.miners[m].voteId)
      requires CastVoters(ledger.View(), cast, ledger.miners[m].voteId)
      modifies this`headNum, this`maintenanceDue, this`paid, ledger
      ensures Valid()
      ensures headNum == old(headNum) + 1 && ledger.now == time
      ensures maintenanceDue == (nextMaintenance <= time)
      ensures BlockPaid(old(ledger.View()).(now := time), ledger.View(), m, Sharers(headNum, live, cast),
                        old(Part(ledger.feeBudget, nextMaintenance, lastBudget, interval)), Issuance.AssetPerBlock(headNum))
      ensures PaidOut(old(ledger.View()).(now := time), ledger.View(), m, headNum,
                      BlocksInInterval(nextMaintenance, lastBudget, interval), Issuance.AssetPerBlock(headNum))
    {
      Advance(time);
      var blocks := BlocksInInterval(nextMaintenance, lastBudget, interval);
      var reward := Issuance.AssetPerBlock(headNum);
      Pay(m, blocks, reward, live, cast, seconds);
    }

    /** The pay of the block itself. */
    method Pay(m: nat, blocks: nat, reward: nat, live: seq<nat>, cast: seq<nat>, seconds: nat)
      requires Honest() && m < |ledger.miners|
      requires LiveVoters(ledger.View(), live, ledger.miners[m].voteId)
      requires CastVoters(ledger.View(), cast, ledger.miners[m].voteId)
      modifies ledger
      ensures Honest() && ledger.now == old(ledger.now) && ledger.accumulatedFees == old(ledger.accumulatedFees)
      ensures ledger.feeBudget == old(ledger.feeBudget)
      ensures ledger.unspentFeeBudget == old(ledger.unspentFeeBudget) - PayFromFees(old(ledger.feeBudget), blocks)
      ensures BlockPaid(old(ledger.View()), ledger.View(), m, Sharers(headNum, live, cast),
                        PayFromFees(old(ledger.feeBudget), blocks), reward)
      ensures PaidOut(old(ledger.View()), ledger.View(), m, headNum, blocks, reward)
    {
      var ok := UpdateSigningMiner(ledger, m, headNum, blocks, reward, live, cast, seconds);
    }

    /** The clock moves on by a block, whose part of the budget is still to be paid. */
    method Advance(time: int)
      requires Valid() && !maintenanceDue
      requires LaterSlot(ledger.now, time, interval)
      modifies this`headNum, this`maintenanceDue, this`paid, ledger`now
      ensures ledger.View() == old(ledger.View()).(now := time) && headNum == old(headNum) + 1
      ensures maintenanceDue == (nextMaintenance <= time)
      ensures Timed(false, time, lastBudget, nextMaintenance, maintenanceDue, interval)
      ensures Planned(ledger.feeBudget, ledger.unspentFeeBudget - Part(ledger.feeBudget, nextMaintenance, lastBudget, interval),
                      paid, time, lastBudget, nextMaintenance, maintenanceDue, interval)
      ensures ledger.accumulatedFees >= 0 && Honest()
    {
      ghost var before := ledger.View();
      LaterIsLater(ledger.now, time, interval);
      PlanStep(headNum == 0, ledger.feeBudget, ledger.unspentFeeBudget, paid, ledger.now, time, lastBudget, nextMaintenance, interval);
      ledger.now := time;
      TimePasses(before, ledger.View());
      headNum := headNum + 1;
      maintenanceDue := nextMaintenance <= time;
      paid := paid + 1;
    }

    // ---- Maintenance ----

    /** Brings the supply up to date and sets the budget of the next interval. */
    method ProcessBudget()
      requires Gap(ledger.View()) == 0
      modifies this`lastBudget, ledger`currentSupply, ledger`accumulatedFees, ledger`minedRewards, ledger`feeBudget, ledger`unspentFeeBudget
      ensures ledger.View() == Budgeted(old(ledger.View()))
      ensures SupplyIsReal(ledger.View())
      ensures lastBudget == ledger.now
    {
      var fromFees := ledger.accumulatedFees + ledger.unspentFeeBudget;
      var balances, vested := ledger.GetRealSupply();
      var generated := ledger.minedRewards + ledger.feeBudget - ledger.unspentFeeBudget;
      ledger.currentSupply := ledger.currentSupply + (generated - ledger.accumulatedFees);
      assert ledger.currentSupply == balances + vested + ledger.confidentialSupply;
      ledger.accumulatedFees := 0;
      ledger.feeBudget := fromFees;
      ledger.unspentFeeBudget := fromFees;
      ledger.minedRewards := 0;
      lastBudget := ledger.now;
    }

    /**
      * The maintenance a block runs when it is due: the tally, new parameters, the
      * next time, the budget. It throws exactly when an account's voting account
      * does not exist, and its undo session then puts everything back. A
      * maintenance interval is a multiple of the block interval, so maintenance
      * stays on a slot while the block interval stays; when that changes, the plan
      * holds exactly when the two times fit.
      */
    method PerformMaintenance(newInterval: nat, period: nat, size: nat) returns (ok: bool)
      requires Valid() && maintenanceDue
      requires newInterval > 0 && period > newInterval && period % newInterval == 0
      requires (OnSlot() && newInterval == interval)
               || Fits(ledger.now, NextMaintenance(nextMaintenance, ledger.now, period, headNum == 1), newInterval)
      requires size <= NO_VOTE && forall m :: m in ledger.miners ==> m.voteId < size
      modifies this`interval, this`lastBudget, this`nextMaintenance, this`maintenanceDue, this`paid, ledger
      ensures Valid()
      ensures ok <==> AllHaveOpinions(old(ledger.View()))
      ensures !ok ==> unchanged(this) && ledger.View() == old(ledger.View())
      ensures ok ==> !maintenanceDue && interval == newInterval
      ensures old(OnSlot()) && newInterval == old(interval) ==> OnSlot()
      ensures ok ==> nextMaintenance == NextMaintenance(old(nextMaintenance), old(ledger.now), period, headNum == 1)
      ensures ok ==> lastBudget == old(ledger.now)
      ensures ok ==> Maintained(old(ledger.View()), ledger.View())
    {
      ghost var session := ledger.View();
      NeverNegative();
      StaysOnSlot(period);
      ok := CountVotes(size);
      if ok {
        ghost var counted := ledger.View();
        Renew(newInterval, period);
        Maintains(session, counted, ledger.View());
      }
    }

    /** The tally, or nothing when it throws. */
    method CountVotes(size: nat) returns (ok: bool)
      requires Honest()
      requires size <= NO_VOTE && forall m :: m in ledger.miners ==> m.voteId < size
      modifies ledger
      ensures ok <==> AllHaveOpinions(old(ledger.View()))
      ensures ledger.now == old(ledger.now)
      ensures !ok ==> ledger.View() == old(ledger.View())
      ensures ok ==> Honest() && Counted(old(ledger.View()), ledger.View())
    {
      var session := ledger.View();
      SoundIsCountable(session);
      ok := Tally(ledger, size);
      if ok {
        TallyKeepsMoney(session, ledger.View());
      } else {
        ledger.Restore(session);
      }
    }

    /** The new block interval, when maintenance is due again, and the new budget. */
    method Renew(newInterval: nat, period: nat)
      requires newInterval > 0 && period > 0 && nextMaintenance <= ledger.now && Gap(ledger.View()) == 0
      modifies this`interval, this`lastBudget, this`nextMaintenance, this`maintenanceDue, this`paid
      modifies ledger`currentSupply, ledger`accumulatedFees, ledger`minedRewards, ledger`feeBudget, ledger`unspentFeeBudget
      ensures ledger.View() == Budgeted(old(ledger.View())) && SupplyIsReal(ledger.View())
      ensures interval == newInterval && lastBudget == ledger.now < nextMaintenance && !maintenanceDue && paid == 0
      ensures nextMaintenance == NextMaintenance(old(nextMaintenance), ledger.now, period, headNum == 1)
    {
      NextIsLeast(nextMaintenance, ledger.now, period, headNum == 1);
      interval := newInterval;
      nextMaintenance := NextMaintenance(nextMaintenance, ledger.now, period, headNum == 1);
      ProcessBudget();
      maintenanceDue := false;
      paid := 0;
    }

    /** Maintenance is due on a slot. */
    predicate OnSlot()
      requires interval > 0
      reads this
    {
      nextMaintenance % interval == 0
    }

    lemma StaysOnSlot(period: nat)
      requires interval > 0 && period > 0
      ensures OnSlot() && period % interval == 0 ==>
                var next := NextMaintenance(nextMaintenance, ledger.now, period, headNum == 1);
                next % interval == 0 && Fits(ledger.now, next, interval)
    {
      var next := NextMaintenance(nextMaintenance, ledger.now, period, headNum == 1);
      if OnSlot() && period % interval == 0 {
        NextOnSlot(nextMaintenance, ledger.now, period, headNum == 1, interval);
        OnSlotFits(ledger.now, next, interval);
      }
    }

    // ---- Accounts and miners ----

    method RegisterAccount(votingAccount: nat, votes: seq<Vote>)
      requires Valid()
      modifies ledger`accounts
      ensures Valid() && ledger.accounts == old(ledger.accounts) + [Account(0, votingAccount, votes, None)]
    {
      ledger.accounts := ledger.accounts + [Account(0, votingAccount, votes, None)];
    }

    /** A new opinion counts from the next tally on. */
    method ChangeOpinion(a: nat, votingAccount: nat, votes: seq<Vote>)
      requires Valid() && a < |ledger.accounts|
      modifies ledger`accounts
      ensures Valid()
      ensures ledger.accounts == old(ledger.accounts)[a := old(ledger.accounts)[a].(votingAccount := votingAccount, votes := votes)]
    {
      ledger.accounts := ledger.accounts[a := ledger.accounts[a].(votingAccount := votingAccount, votes := votes)];
    }

    method RegisterMiner(account: nat, voteId: nat)
      requires Valid() && account < |ledger.accounts|
      modifies ledger`miners
      ensures Valid() && ledger.miners == old(ledger.miners) + [Miner(account, None, voteId, 0)]
    {
      ledger.miners := ledger.miners + [Miner(account, None, voteId, 0)];
    }
  }

  /** The tally changes what is recorded beside the balances, not the balances. */
  lemma TallyKeepsMoney(b: Books, c: Books)
    requires Sound(b) && Countable(b) && RecordedBelow(b, c.holdings, |b.accounts|)
    requires |c.miners| == |b.miners| && forall i :: 0 <= i < |b.miners| ==> c.miners[i] == b.miners[i].(totalVotes := c.miners[i].totalVotes)
    requires c == b.(holdings := c.holdings, miners := c.miners)
    ensures Sound(c) && Gap(c) == Gap(b)
  {
    forall a | a in c.holdings ensures c.holdings[a].balance == b.holdings[a].balance { }
    SameBalances(b.holdings, c.holdings);
  }

  lemma {:induction false} SameBalances(hs: Holdings, after: Holdings)
    requires hs.Keys == after.Keys && forall a :: a in hs ==> hs[a].balance == after[a].balance
    ensures SumHoldings(hs) == SumHoldings(after)
    decreases |hs|
  {
    if a :| a in hs {
      SumHoldingsRemove(hs, a);
      SumHoldingsRemove(after, a);
      SameBalances(hs - {a}, after - {a});
    } else {
      assert hs == after;
    }
  }

  /** An operation moves money but neither votes nor accounts. */
  lemma MoneyOnly(b: Books, c: Books)
    requires VotesCovered(b) && OnlyAccountsVote(b) && OnlyMoney(b, c)
    ensures VotesCovered(c) && OnlyAccountsVote(c)
  {
    forall m | m in c.miners && m.totalVotes > 0 ensures PowerFor(c.holdings, m.voteId) <= m.totalVotes {
      PowerForSame(b.holdings, c.holdings, m.voteId);
    }
  }

  /** Later on, every vesting balance can still be asked. */
  lemma TimePasses(b: Books, c: Books)
    requires Sound(b) && c == b.(now := c.now) && b.now <= c.now
    ensures Sound(c) && Gap(c) == Gap(b)
  {
  }
}
