/**
  * Paying for a block: the signing miner's pay is split with the accounts that
  * voted for it, each share rounded down and the rest left to the miner, and
  * everything is held back in vesting balances.
  */
module Payouts {
  import opened Arithmetic
  import opened Ledgers
  import opened Options
  import opened Votes
  import Vesting

  const VOTE_REWARD_FORK: nat := 545000
  const VOTE_REWARD_CHECK: nat := 563500

  // ---- One deposit ----

  /** The books after `amount` goes to the pay balance of account `a`. */
  function AccountPaid(b: Books, a: nat, amount: int, seconds: nat): Books
    requires SoundReferences(b) && a < |b.accounts|
  {
    var id := b.accounts[a].cashback;
    var vs := LazyDeposit(b.vestings, id, amount, seconds, a, true, b.now);
    if amount == 0 || Reusable(b.vestings, id, a, seconds) then b.(vestings := vs)
    else b.(vestings := vs, accounts := b.accounts[a := b.accounts[a].(cashback := Some(|b.vestings|))])
  }

  /** The books after `amount` goes to the pay balance of miner `m`. */
  function MinerPaid(b: Books, m: nat, amount: int, seconds: nat): Books
    requires SoundReferences(b) && m < |b.miners|
  {
    var id, owner := b.miners[m].pay, b.miners[m].account;
    var vs := LazyDeposit(b.vestings, id, amount, seconds, owner, true, b.now);
    if amount == 0 || Reusable(b.vestings, id, owner, seconds) then b.(vestings := vs)
    else b.(vestings := vs, miners := b.miners[m := b.miners[m].(pay := Some(|b.vestings|))])
  }

  /** Accounts and miners differ at most in where their pay is kept. */
  ghost predicate SameParties(b: Books, c: Books) {
    && |c.accounts| == |b.accounts| && |c.miners| == |b.miners|
    && (forall i :: 0 <= i < |b.accounts| ==> c.accounts[i] == b.accounts[i].(cashback := c.accounts[i].cashback))
    && (forall i :: 0 <= i < |b.miners| ==> c.miners[i] == b.miners[i].(pay := c.miners[i].pay))
  }

  /** Only vesting balances changed; every owner's grew by its gain, and the total with them. */
  ghost predicate PaidInto(b: Books, c: Books, gain: nat -> int, total: int) {
    && Sound(c) && SameParties(b, c)
    && c == b.(vestings := c.vestings, accounts := c.accounts, miners := c.miners)
    && SumVestings(c.vestings) == SumVestings(b.vestings) + total
    && VestedShift(b, c, gain)
  }

  lemma AccountPaidEffect(b: Books, a: nat, amount: int, seconds: nat)
    requires Sound(b) && a < |b.accounts| && amount >= 0
    ensures PaidInto(b, AccountPaid(b, a, amount, seconds), Only(a, amount), amount)
  {
    AccountPaidSound(b, a, amount, seconds);
    LazyDepositEffect(b.vestings, b.accounts[a].cashback, amount, seconds, a, true, b.now);
    assert VestedShift(b, AccountPaid(b, a, amount, seconds), Only(a, amount));
  }

  lemma AccountPaidSound(b: Books, a: nat, amount: int, seconds: nat)
    requires Sound(b) && a < |b.accounts| && amount >= 0
    ensures Sound(AccountPaid(b, a, amount, seconds)) && SameParties(b, AccountPaid(b, a, amount, seconds))
  {
    LazyDepositEffect(b.vestings, b.accounts[a].cashback, amount, seconds, a, true, b.now);
  }

  lemma MinerPaidEffect(b: Books, m: nat, amount: int, seconds: nat)
    requires Sound(b) && m < |b.miners|
    ensures PaidInto(b, MinerPaid(b, m, amount, seconds), Only(b.miners[m].account, amount), amount)
  {
    LazyDepositEffect(b.vestings, b.miners[m].pay, amount, seconds, b.miners[m].account, true, b.now);
  }

  /**
    * What is paid to an account lies in a balance of its own that the next payment
    * is added to; a balance that could be added to before is kept.
    */
  lemma AccountKeepsPay(b: Books, a: nat, amount: nat, seconds: nat)
    requires Sound(b) && a < |b.accounts|
    ensures var c := AccountPaid(b, a, amount, seconds);
            && (amount > 0 ==> Reusable(c.vestings, c.accounts[a].cashback, a, seconds))
            && (Reusable(b.vestings, b.accounts[a].cashback, a, seconds) ==>
                  c.accounts == b.accounts && |c.vestings| == |b.vestings|)
  {
  }

  /** The payment itself is held back: it brings no coin-seconds with it. */
  lemma PayIsHeldBack(b: Books, a: nat, amount: nat, seconds: nat)
    requires Sound(b) && a < |b.accounts| && amount > 0
    ensures var c, id := AccountPaid(b, a, amount, seconds), b.accounts[a].cashback;
            if Reusable(b.vestings, id, a, seconds) then HeldBack(b.vestings[id.value], c.vestings[id.value], amount, b.now)
            else c.vestings == b.vestings + [Vesting.State(a, amount, Vesting.CoinSeconds(seconds, 0, 0, b.now))]
  {
    PaymentHeldBack(b, b.accounts[a].cashback, a, amount, seconds);
  }

  lemma MinerPayIsHeldBack(b: Books, m: nat, amount: nat, seconds: nat)
    requires Sound(b) && m < |b.miners| && amount > 0
    ensures var c, id, owner := MinerPaid(b, m, amount, seconds), b.miners[m].pay, b.miners[m].account;
            if Reusable(b.vestings, id, owner, seconds) then HeldBack(b.vestings[id.value], c.vestings[id.value], amount, b.now)
            else c.vestings == b.vestings + [Vesting.State(owner, amount, Vesting.CoinSeconds(seconds, 0, 0, b.now))]
  {
    PaymentHeldBack(b, b.miners[m].pay, b.miners[m].account, amount, seconds);
  }

  /** The balance `v` grows by `amount` to `w`, and its coin-seconds at `now` are what they were. */
  ghost predicate HeldBack(v: Vesting.State, w: Vesting.State, amount: nat, now: int) {
    && w.balance == v.balance + amount
    && (Vesting.Capped(v) && Vesting.Askable(v, now) ==>
          Vesting.Capped(w) && Vesting.Askable(w, now) && Vesting.Computed(w, now) == Vesting.Computed(v, now))
  }

  lemma PaymentHeldBack(b: Books, id: Option<nat>, owner: nat, amount: nat, seconds: nat)
    requires SoundReferences(b) && amount > 0
    ensures var vs := LazyDeposit(b.vestings, id, amount, seconds, owner, true, b.now);
            if Reusable(b.vestings, id, owner, seconds) then HeldBack(b.vestings[id.value], vs[id.value], amount, b.now)
            else vs == b.vestings + [Vesting.State(owner, amount, Vesting.CoinSeconds(seconds, 0, 0, b.now))]
  {
    LazyDepositExactly(b.vestings, id, amount, seconds, owner, true, b.now);
  }

  lemma MinerKeepsPay(b: Books, m: nat, amount: nat, seconds: nat)
    requires Sound(b) && m < |b.miners|
    ensures var c, owner := MinerPaid(b, m, amount, seconds), b.miners[m].account;
            && (amount > 0 ==> Reusable(c.vestings, c.miners[m].pay, owner, seconds))
            && (Reusable(b.vestings, b.miners[m].pay, owner, seconds) ==> c.miners == b.miners && |c.vestings| == |b.vestings|)
  {
  }

  lemma PaidTwice(b: Books, c: Books, d: Books, gain: nat -> int, more: nat -> int, sum: nat -> int, total: int, rest: int)
    requires PaidInto(b, c, gain, total) && PaidInto(c, d, more, rest)
    requires Adds(sum, gain, more)
    ensures PaidInto(b, d, sum, total + rest)
  {
  }

  method DepositLazyVesting(ledger: Ledger, id: Option<nat>, amount: int, seconds: nat, owner: nat, vest: bool)
    returns (created: Option<nat>)
    requires forall v :: v in ledger.vestings ==> Vesting.Askable(v, ledger.now)
    modifies ledger`vestings
    ensures ledger.vestings == LazyDeposit(old(ledger.vestings), id, amount, seconds, owner, vest, ledger.now)
    ensures created == if amount == 0 || Reusable(old(ledger.vestings), id, owner, seconds) then None
                       else Some(|old(ledger.vestings)|)
  {
    if amount == 0 {
      return None;
    }
    var now := ledger.now;
    if id.Some? && id.value < |ledger.vestings| {
      var v := ledger.vestings[id.value];
      if v.owner == owner && v.policy.CoinSeconds? && v.policy.seconds == seconds {
        if vest {
          v := Vesting.Deposited(v, now, amount);
        } else {
          v := Vesting.DepositedVested(v, now, amount).value;
        }
        ledger.vestings := ledger.vestings[id.value := v];
        return None;
      }
    }
    created := Some(|ledger.vestings|);
    var policy := Vesting.CoinSeconds(seconds, if vest then 0 else amount * seconds, 0, now);
    ledger.vestings := ledger.vestings + [Vesting.State(owner, amount, policy)];
  }

  method DepositAccountPay(ledger: Ledger, a: nat, amount: int, seconds: nat)
    requires SoundReferences(ledger.View()) && a < |ledger.accounts|
    modifies ledger`vestings, ledger`accounts
    ensures ledger.View() == AccountPaid(old(ledger.View()), a, amount, seconds)
  {
    if amount == 0 {
      return;
    }
    var account := ledger.accounts[a];
    var id := DepositLazyVesting(ledger, account.cashback, amount, seconds, a, true);
    if id.Some? {
      ledger.accounts := ledger.accounts[a := account.(cashback := id)];
    }
  }

  method DepositMinerPay(ledger: Ledger, m: nat, amount: int, seconds: nat)
    requires SoundReferences(ledger.View()) && m < |ledger.miners|
    modifies ledger`vestings, ledger`miners
    ensures ledger.View() == MinerPaid(old(ledger.View()), m, amount, seconds)
  {
    if amount == 0 {
      return;
    }
    var miner := ledger.miners[m];
    var id := DepositLazyVesting(ledger, miner.pay, amount, seconds, miner.account, true);
    if id.Some? {
      ledger.miners := ledger.miners[m := miner.(pay := id)];
    }
  }

  // ---- Shares ----

  function PowerOf(hs: Holdings, a: nat): nat {
    if a in hs then hs[a].votePower else 0
  }

  /** One voter's part of the reward, rounded down. */
  function Share(reward: nat, power: nat, votes: nat): nat
    requires votes > 0
  {
    reward * power / votes
  }

  /** What the listed voters get in all; nothing when the miner has no votes. */
  function SharesInAll(hs: Holdings, voters: seq<nat>, reward: nat, votes: nat): nat {
    if voters == [] || votes == 0 then 0
    else
      var last := voters[|voters| - 1];
      SharesInAll(hs, voters[..|voters| - 1], reward, votes) + Share(reward, PowerOf(hs, last), votes)
  }

  /** What one account gets as a voter. */
  function SharesOf(hs: Holdings, voters: seq<nat>, reward: nat, votes: nat, a: nat): nat {
    if voters == [] || votes == 0 then 0
    else
      var last := voters[|voters| - 1];
      SharesOf(hs, voters[..|voters| - 1], reward, votes, a) + if last == a then Share(reward, PowerOf(hs, last), votes) else 0
  }

  ghost function SharesFor(hs: Holdings, voters: seq<nat>, reward: nat, votes: nat): nat -> int {
    (a: nat) => SharesOf(hs, voters, reward, votes, a)
  }

  function SumPowers(hs: Holdings, voters: seq<nat>): nat {
    if voters == [] then 0 else SumPowers(hs, voters[..|voters| - 1]) + PowerOf(hs, voters[|voters| - 1])
  }

  lemma {:induction false} SharesBound(hs: Holdings, voters: seq<nat>, reward: nat, votes: nat)
    requires votes > 0
    ensures SharesInAll(hs, voters, reward, votes) * votes <= reward * SumPowers(hs, voters)
  {
    if voters == [] {
    } else {
      var rest, power := voters[..|voters| - 1], PowerOf(hs, voters[|voters| - 1]);
      SharesBound(hs, rest, reward, votes);
      Floor(reward * power, votes);
      Distribute(SharesInAll(hs, rest, reward, votes), Share(reward, power, votes), votes);
      Distribute(SumPowers(hs, rest), power, reward);
    }
  }

  lemma Floor(a: nat, b: nat)
    requires b > 0
    ensures a / b * b <= a
  {
  }

  /** Recorded power within the total keeps the shares within the reward. */
  lemma SharesWithin(hs: Holdings, voters: seq<nat>, reward: nat, votes: nat)
    requires votes > 0 ==> SumPowers(hs, voters) <= votes
    ensures SharesInAll(hs, voters, reward, votes) <= reward
  {
    if votes > 0 {
      SharesBound(hs, voters, reward, votes);
      WithinReward(SharesInAll(hs, voters, reward, votes), SumPowers(hs, voters), reward, votes);
    }
  }

  lemma WithinReward(shares: nat, powers: nat, reward: nat, votes: nat)
    requires votes > 0 && powers <= votes && shares * votes <= reward * powers
    ensures shares <= reward
  {
    MulOrder(powers, votes, reward);
    StepApart(shares, reward, votes);
  }

  /**
    * Shares stay within the reward, whatever the reward, if and only if the
    * powers add up to no more than the total votes.
    */
  lemma SharesWithinExactly(hs: Holdings, voters: seq<nat>, votes: nat)
    requires votes > 0
    ensures (forall reward: nat :: SharesInAll(hs, voters, reward, votes) <= reward) <==> SumPowers(hs, voters) <= votes
  {
    SharesOfTotal(hs, voters, votes);
    if SumPowers(hs, voters) <= votes {
      forall reward: nat ensures SharesInAll(hs, voters, reward, votes) <= reward {
        SharesWithin(hs, voters, reward, votes);
      }
    } else {
      assert SharesInAll(hs, voters, votes, votes) > votes;
    }
  }

  /** A reward as large as the total gives every voter its own power. */
  lemma {:induction false} SharesOfTotal(hs: Holdings, voters: seq<nat>, votes: nat)
    requires votes > 0
    ensures SharesInAll(hs, voters, votes, votes) == SumPowers(hs, voters)
  {
    if voters == [] {
    } else {
      SharesOfTotal(hs, voters[..|voters| - 1], votes);
      Whole(PowerOf(hs, voters[|voters| - 1]), votes);
    }
  }

  lemma Whole(power: nat, votes: nat)
    requires votes > 0
    ensures votes * power / votes == power
  {
    StepApart(votes * power / votes, power, votes);
    StepApart(power, votes * power / votes, votes);
  }

  // ---- Who is paid ----

  /** The voters are different accounts. */
  ghost predicate Voters(b: Books, voters: seq<nat>) {
    && (forall i :: 0 <= i < |voters| ==> voters[i] < |b.accounts|)
    && (forall i, j :: 0 <= i < j < |voters| ==> voters[i] != voters[j])
  }

  /** The account's balance was cast for `vote` at the last tally. */
  ghost predicate CastAtTally(b: Books, vote: nat, a: nat) {
    a < |b.accounts| && a in b.holdings && b.holdings[a].castedVote == vote
  }

  /** The account's first vote for a miner is now `vote`. */
  ghost predicate VotingNow(b: Books, vote: nat, a: nat) {
    a < |b.accounts| && FirstMiner(b.accounts[a].votes, vote)
  }

  ghost predicate CastVoters(b: Books, voters: seq<nat>, vote: nat) {
    Voters(b, voters) && forall a: nat :: a in voters <==> CastAtTally(b, vote, a)
  }

  ghost predicate LiveVoters(b: Books, voters: seq<nat>, vote: nat) {
    Voters(b, voters) && forall a: nat :: a in voters <==> VotingNow(b, vote, a)
  }

  /** The listed balances are cast for `vote`. */
  ghost predicate CastFor(hs: Holdings, voters: seq<nat>, vote: nat) {
    forall i :: 0 <= i < |voters| ==> voters[i] in hs && hs[voters[i]].castedVote == vote
  }

  lemma AllCast(b: Books, voters: seq<nat>, vote: nat)
    requires CastVoters(b, voters, vote)
    ensures CastFor(b.holdings, voters, vote)
  {
    forall i | 0 <= i < |voters| ensures CastAtTally(b, vote, voters[i]) {
      assert voters[i] in voters;
    }
  }

  /** The power of any different balances cast for a miner is part of what is recorded for it. */
  lemma {:induction false} CastPower(hs: Holdings, b: Books, voters: seq<nat>, vote: nat)
    requires Voters(b, voters) && CastFor(hs, voters, vote)
    ensures SumPowers(hs, voters) <= PowerFor(hs, vote)
  {
    if voters == [] {
    } else {
      var rest, last := voters[..|voters| - 1], voters[|voters| - 1];
      CastPower(hs - {last}, b, rest, vote);
      SumPowersSame(hs, hs - {last}, rest);
      PowerForRemove(hs, vote, last);
    }
  }

  lemma {:induction false} SumPowersSame(hs: Holdings, other: Holdings, voters: seq<nat>)
    requires forall i :: 0 <= i < |voters| ==> PowerOf(hs, voters[i]) == PowerOf(other, voters[i])
    ensures SumPowers(hs, voters) == SumPowers(other, voters)
  {
    if voters == [] {
    } else {
      SumPowersSame(hs, other, voters[..|voters| - 1]);
    }
  }

  /** Pays the listed voters their shares; the caller pays the miner the rest. */
  method PayVoters(ledger: Ledger, voters: seq<nat>, reward: nat, votes: nat, seconds: nat) returns (deposited: nat)
    requires Sound(ledger.View()) && Voters(ledger.View(), voters) && votes > 0
    modifies ledger`vestings, ledger`accounts
    ensures deposited == SharesInAll(ledger.holdings, voters, reward, votes)
    ensures PaidInto(old(ledger.View()), ledger.View(), SharesFor(ledger.holdings, voters, reward, votes), deposited)
  {
    ghost var start := ledger.View();
    deposited := 0;
    var i := 0;
    while i < |voters|
      invariant 0 <= i <= |voters|
      invariant deposited == SharesInAll(start.holdings, voters[..i], reward, votes)
      invariant PaidInto(start, ledger.View(), SharesFor(start.holdings, voters[..i], reward, votes), deposited)
    {
      ghost var before := ledger.View();
      var deposit := Share(reward, PowerOf(ledger.holdings, voters[i]), votes);
      DepositAccountPay(ledger, voters[i], deposit, seconds);
      AccountPaidEffect(before, voters[i], deposit, seconds);
      NextShare(start.holdings, voters, i, reward, votes);
      PaidTwice(start, before, ledger.View(), SharesFor(start.holdings, voters[..i], reward, votes),
                Only(voters[i], deposit), SharesFor(start.holdings, voters[..i + 1], reward, votes), deposited, deposit);
      deposited := deposited + deposit;
      i := i + 1;
    }
    assert voters[..i] == voters;
  }

  lemma NextShare(hs: Holdings, voters: seq<nat>, i: nat, reward: nat, votes: nat)
    requires i < |voters| && votes > 0
    ensures var share := Share(reward, PowerOf(hs, voters[i]), votes);
            && SharesInAll(hs, voters[..i + 1], reward, votes) == SharesInAll(hs, voters[..i], reward, votes) + share
            && Adds(SharesFor(hs, voters[..i + 1], reward, votes), SharesFor(hs, voters[..i], reward, votes), Only(voters[i], share))
  {
    assert voters[..i + 1][..i] == voters[..i];
  }

  // ---- The pay of a block ----

  /** The part of the fee budget one block pays out. */
  function PayFromFees(feeBudget: int, blocksInInterval: nat): nat {
    if blocksInInterval > 0 && feeBudget > 0 then feeBudget / blocksInInterval else 0
  }

  /** The voters' three fifths. */
  function VotersReward(pay: nat): nat {
    pay * 3 / 5
  }

  /** Whom a block with this number shares with: no one at first, then the accounts voting now, then those in the tally. */
  function Sharers(headNum: nat, live: seq<nat>, cast: seq<nat>): seq<nat> {
    if headNum < VOTE_REWARD_FORK then [] else if headNum < VOTE_REWARD_CHECK then live else cast
  }

  /** What each account gains from a block's pay: its shares, and the rest when it is the miner's. */
  ghost function PayGain(b: Books, m: nat, voters: seq<nat>, pay: nat): nat -> int
    requires m < |b.miners|
  {
    var votes, reward := b.miners[m].totalVotes, VotersReward(pay);
    (a: nat) => SharesOf(b.holdings, voters, reward, votes, a)
                + if a == b.miners[m].account then pay - SharesInAll(b.holdings, voters, reward, votes) else 0
  }

  /** Pays the voters their shares and the miner what is left. */
  method SplitPay(ledger: Ledger, m: nat, voters: seq<nat>, pay: nat, checked: bool, seconds: nat) returns (ok: bool)
    requires Sound(ledger.View()) && Voters(ledger.View(), voters) && m < |ledger.miners|
    modifies ledger`vestings, ledger`accounts, ledger`miners
    ensures ok == (checked ==> SharesInAll(ledger.holdings, voters, VotersReward(pay), old(ledger.miners[m].totalVotes))
                               <= VotersReward(pay))
    ensures ok ==> PaidInto(old(ledger.View()), ledger.View(), PayGain(old(ledger.View()), m, voters, pay), pay)
  {
    ghost var start := ledger.View();
    var votes, reward := ledger.miners[m].totalVotes, VotersReward(pay);
    var deposited := PayShares(ledger, voters, reward, votes, seconds);
    if votes > 0 && checked && deposited > reward {
      return false;
    }
    ghost var middle := ledger.View();
    DepositMinerPay(ledger, m, pay - deposited, seconds);
    SplitEffect(start, middle, m, voters, pay, deposited, seconds);
    return true;
  }

  lemma SplitEffect(b: Books, c: Books, m: nat, voters: seq<nat>, pay: nat, shares: int, seconds: nat)
    requires m < |b.miners| && shares == SharesInAll(b.holdings, voters, VotersReward(pay), b.miners[m].totalVotes)
    requires PaidInto(b, c, SharesFor(b.holdings, voters, VotersReward(pay), b.miners[m].totalVotes), shares)
    ensures PaidInto(b, MinerPaid(c, m, pay - shares, seconds), PayGain(b, m, voters, pay), pay)
  {
    var gain, sum := SharesFor(b.holdings, voters, VotersReward(pay), b.miners[m].totalVotes), PayGain(b, m, voters, pay);
    assert Adds(sum, gain, Only(b.miners[m].account, pay - shares)) by {
      SplitAdds(b, m, voters, pay);
    }
    MinerAfter(b, c, m, gain, sum, shares, pay - shares, pay, seconds);
  }

  lemma MinerAfter(b: Books, c: Books, m: nat, gain: nat -> int, sum: nat -> int, shares: int, rest: int, pay: int, seconds: nat)
    requires pay == shares + rest
    requires m < |b.miners| && PaidInto(b, c, gain, shares) && Adds(sum, gain, Only(b.miners[m].account, rest))
    ensures PaidInto(b, MinerPaid(c, m, rest, seconds), sum, pay)
  {
    assert c.miners[m].account == b.miners[m].account;
    MinerPaidEffect(c, m, rest, seconds);
    PaidTwice(b, c, MinerPaid(c, m, rest, seconds), gain, Only(b.miners[m].account, rest), sum, shares, rest);
  }

  /** The voters' part; a miner without votes shares with no one. */
  method PayShares(ledger: Ledger, voters: seq<nat>, reward: nat, votes: nat, seconds: nat) returns (deposited: nat)
    requires Sound(ledger.View()) && Voters(ledger.View(), voters)
    modifies ledger`vestings, ledger`accounts
    ensures deposited == SharesInAll(ledger.holdings, voters, reward, votes)
    ensures PaidInto(old(ledger.View()), ledger.View(), SharesFor(ledger.holdings, voters, reward, votes), deposited)
  {
    deposited := 0;
    if votes > 0 {
      deposited := PayVoters(ledger, voters, reward, votes, seconds);
    }
  }

  lemma SplitAdds(b: Books, m: nat, voters: seq<nat>, pay: nat)
    requires m < |b.miners|
    ensures var votes, reward := b.miners[m].totalVotes, VotersReward(pay);
            Adds(PayGain(b, m, voters, pay), SharesFor(b.holdings, voters, reward, votes),
                 Only(b.miners[m].account, pay - SharesInAll(b.holdings, voters, reward, votes)))
  {
  }

  /** The books with a block's reward mined and its part of the fee budget taken. */
  function Booked(b: Books, fees: int, reward: int): Books {
    b.(minedRewards := b.minedRewards + reward, unspentFeeBudget := b.unspentFeeBudget - fees)
  }

  /** The reward is mined, the fees are taken from the budget, and voters and miner gain their parts of both. */
  ghost predicate BlockPaid(b: Books, c: Books, m: nat, voters: seq<nat>, fees: nat, reward: nat)
    requires m < |b.miners|
  {
    PaidInto(Booked(b, fees, reward), c, PayGain(b, m, voters, fees + reward), fees + reward)
  }

  // ---- What everyone gets ----

  /** What the vesting balances of account `a` grew by. */
  function Gain(b: Books, c: Books, a: nat): int {
    SumVestingsOf(c.vestings, a) - SumVestingsOf(b.vestings, a)
  }

  /** A voter's part of three fifths of the pay, by its share of the miner's votes, rounded down. */
  function VoterPart(b: Books, m: nat, pay: nat, a: nat): nat
    requires m < |b.miners|
  {
    if a in b.holdings && b.miners[m].totalVotes > 0 then pay * 3 / 5 * b.holdings[a].votePower / b.miners[m].totalVotes else 0
  }

  /** Voters get their parts, other accounts nothing, and the miner's account the rest of the pay. */
  ghost predicate SharedOut(b: Books, c: Books, m: nat, voter: nat -> bool, pay: nat)
    requires m < |b.miners|
  {
    && SumVestings(c.vestings) == SumVestings(b.vestings) + pay
    && forall a: nat :: a != b.miners[m].account ==> Gain(b, c, a) == if voter(a) then VoterPart(b, m, pay, a) else 0
  }

  /**
    * The pay of block `headNum`: up to 544,999 all of it is the miner's; up to
    * 563,499 the accounts now voting for the miner have their parts; from then on
    * those that did at the last tally, and the miner keeps two fifths at least.
    */
  ghost predicate PaidAsOf(b: Books, c: Books, m: nat, headNum: nat, pay: nat)
    requires m < |b.miners|
  {
    var miner := b.miners[m];
    && (headNum < 545_000 ==> SharedOut(b, c, m, a => false, pay) && Gain(b, c, miner.account) == pay)
    && (545_000 <= headNum < 563_500 ==> SharedOut(b, c, m, (a: nat) => VotingNow(b, miner.voteId, a), pay))
    && (headNum >= 563_500 ==>
          SharedOut(b, c, m, (a: nat) => CastAtTally(b, miner.voteId, a), pay) && 5 * Gain(b, c, miner.account) >= 2 * pay)
  }

  /** The part of a budget that is spread over some blocks, rounded down; nothing of no budget and for no blocks. */
  ghost predicate IsPart(budget: int, blocks: nat, part: nat) {
    if budget > 0 && blocks > 0 then part * blocks <= budget < (part + 1) * blocks else part == 0
  }

  /** The reward is mined, the block's part of the fee budget is taken, and both together are the pay. */
  ghost predicate PaidOut(b: Books, c: Books, m: nat, headNum: nat, blocks: nat, reward: nat)
    requires m < |b.miners|
  {
    var fees := b.unspentFeeBudget - c.unspentFeeBudget;
    && c.minedRewards == b.minedRewards + reward
    && fees >= 0 && IsPart(b.feeBudget, blocks, fees) && PaidAsOf(b, c, m, headNum, fees + reward)
  }

  lemma FeesArePart(budget: int, blocks: nat)
    ensures IsPart(budget, blocks, PayFromFees(budget, blocks))
  {
    if budget > 0 && blocks > 0 {
      Parts(budget, blocks);
      Distribute(budget / blocks, 1, blocks);
    }
  }

  /** What one of different voters gets. */
  lemma {:induction false} OwnShare(hs: Holdings, voters: seq<nat>, reward: nat, votes: nat, a: nat)
    requires forall i, j :: 0 <= i < j < |voters| ==> voters[i] != voters[j]
    ensures SharesOf(hs, voters, reward, votes, a)
         == if a in voters && votes > 0 then Share(reward, PowerOf(hs, a), votes) else 0
  {
    if voters == [] || votes == 0 {
    } else {
      var last := |voters| - 1;
      OwnShare(hs, voters[..last], reward, votes, a);
      assert voters == voters[..last] + [voters[last]];
    }
  }

  lemma IsSharedOut(b: Books, c: Books, m: nat, voters: seq<nat>, voter: nat -> bool, pay: nat)
    requires m < |b.miners| && Voters(b, voters) && forall a: nat :: a in voters <==> voter(a)
    requires VestedShift(b, c, PayGain(b, m, voters, pay)) && SumVestings(c.vestings) == SumVestings(b.vestings) + pay
    ensures SharedOut(b, c, m, voter, pay)
  {
    var votes, reward := b.miners[m].totalVotes, VotersReward(pay);
    forall a: nat | a != b.miners[m].account
      ensures Gain(b, c, a) == if voter(a) then VoterPart(b, m, pay, a) else 0
    {
      assert Gain(b, c, a) == PayGain(b, m, voters, pay)(a);
      OwnShare(b.holdings, voters, reward, votes, a);
      NoPower(reward, votes);
    }
  }

  lemma NoPower(reward: nat, votes: nat)
    ensures votes > 0 ==> reward * 0 / votes == 0
  {
  }

  lemma PaidInTime(b: Books, c: Books, m: nat, headNum: nat, live: seq<nat>, cast: seq<nat>, pay: nat)
    requires VotesCovered(b) && m < |b.miners|
    requires LiveVoters(b, live, b.miners[m].voteId) && CastVoters(b, cast, b.miners[m].voteId)
    requires VestedShift(b, c, PayGain(b, m, Sharers(headNum, live, cast), pay))
    requires SumVestings(c.vestings) == SumVestings(b.vestings) + pay
    ensures PaidAsOf(b, c, m, headNum, pay)
  {
    var miner, voters := b.miners[m], Sharers(headNum, live, cast);
    assert Gain(b, c, miner.account) == PayGain(b, m, voters, pay)(miner.account);
    if headNum < 545_000 {
      IsSharedOut(b, c, m, [], a => false, pay);
    } else if headNum < 563_500 {
      IsSharedOut(b, c, m, live, (a: nat) => VotingNow(b, miner.voteId, a), pay);
    } else {
      IsSharedOut(b, c, m, cast, (a: nat) => CastAtTally(b, miner.voteId, a), pay);
      AllCast(b, cast, miner.voteId);
      MinerKeepsTwoFifths(b, m, cast, pay);
    }
  }

  /**
    * The money side of a block: the reward is mined, the fee budget drawn on, and
    * the pay split. With the tally's totals covering the recorded power, the
    * check on the shares passes, and voters and miner get exactly the whole pay.
    */
  method UpdateSigningMiner(ledger: Ledger, m: nat, headNum: nat, blocksInInterval: nat, reward: nat,
                            live: seq<nat>, cast: seq<nat>, seconds: nat) returns (ok: bool)
    requires Sound(ledger.View()) && VotesCovered(ledger.View()) && m < |ledger.miners|
    requires LiveVoters(ledger.View(), live, ledger.miners[m].voteId)
    requires CastVoters(ledger.View(), cast, ledger.miners[m].voteId)
    modifies ledger`vestings, ledger`accounts, ledger`miners, ledger`minedRewards, ledger`unspentFeeBudget
    ensures ok
    ensures BlockPaid(old(ledger.View()), ledger.View(), m, Sharers(headNum, live, cast),
                      PayFromFees(old(ledger.feeBudget), blocksInInterval), reward)
    ensures PaidOut(old(ledger.View()), ledger.View(), m, headNum, blocksInInterval, reward)
    ensures Sound(ledger.View()) && VotesCovered(ledger.View())
    ensures Gap(ledger.View()) == Gap(old(ledger.View()))
  {
    ghost var start := ledger.View();
    AllCast(start, cast, start.miners[m].voteId);
    var fees := PayFromFees(ledger.feeBudget, blocksInInterval);
    ok := BookAndSplit(ledger, m, headNum, fees, reward, live, cast, seconds);
    PaidInFull(start, ledger.View(), m, headNum, live, cast, fees, reward);
    FeesArePart(start.feeBudget, blocksInInterval);
  }

  method BookAndSplit(ledger: Ledger, m: nat, headNum: nat, fees: nat, reward: nat, live: seq<nat>, cast: seq<nat>, seconds: nat)
    returns (ok: bool)
    requires Sound(ledger.View()) && VotesCovered(ledger.View()) && m < |ledger.miners|
    requires Voters(ledger.View(), live)
    requires Voters(ledger.View(), cast) && CastFor(ledger.holdings, cast, ledger.miners[m].voteId)
    modifies ledger`vestings, ledger`accounts, ledger`miners, ledger`minedRewards, ledger`unspentFeeBudget
    ensures ok && BlockPaid(old(ledger.View()), ledger.View(), m, Sharers(headNum, live, cast), fees, reward)
  {
    ghost var start := ledger.View();
    Book(ledger, fees, reward);
    MinerKeepsTwoFifths(start, m, cast, fees + reward);
    ok := SplitPay(ledger, m, Sharers(headNum, live, cast), fees + reward, headNum >= VOTE_REWARD_CHECK, seconds);
  }

  lemma PaidInFull(b: Books, c: Books, m: nat, headNum: nat, live: seq<nat>, cast: seq<nat>, fees: nat, reward: nat)
    requires VotesCovered(b) && m < |b.miners|
    requires LiveVoters(b, live, b.miners[m].voteId) && CastVoters(b, cast, b.miners[m].voteId)
    requires BlockPaid(b, c, m, Sharers(headNum, live, cast), fees, reward)
    ensures PaidAsOf(b, c, m, headNum, fees + reward)
    ensures c.minedRewards == b.minedRewards + reward && c.unspentFeeBudget == b.unspentFeeBudget - fees
    ensures Sound(c) && VotesCovered(c) && Gap(c) == Gap(b)
  {
    PaidBooks(b, c, fees, reward, PayGain(b, m, Sharers(headNum, live, cast), fees + reward));
    PaidInTime(b, c, m, headNum, live, cast, fees + reward);
  }

  method Book(ledger: Ledger, fees: int, reward: int)
    modifies ledger`minedRewards, ledger`unspentFeeBudget
    ensures ledger.View() == Booked(old(ledger.View()), fees, reward)
  {
    ledger.minedRewards := ledger.minedRewards + reward;
    ledger.unspentFeeBudget := ledger.unspentFeeBudget - fees;
  }

  /** What is paid out was mined or taken from the budget, so the figures still agree. */
  lemma PaidBooks(b: Books, c: Books, fees: int, reward: int, gain: nat -> int)
    requires VotesCovered(b) && PaidInto(Booked(b, fees, reward), c, gain, fees + reward)
    ensures Gap(c) == Gap(b) && VotesCovered(c)
  {
    StillCovered(b, c);
  }

  lemma StillCovered(b: Books, c: Books)
    requires VotesCovered(b) && SameParties(b, c) && c.holdings == b.holdings
    ensures VotesCovered(c)
  {
    forall m | m in c.miners && m.totalVotes > 0 ensures PowerFor(c.holdings, m.voteId) <= m.totalVotes {
      var i :| 0 <= i < |c.miners| && c.miners[i] == m;
      assert b.miners[i] in b.miners;
    }
  }

  /** From the check on, the shares are at most three fifths, so the miner keeps at least two. */
  lemma MinerKeepsTwoFifths(b: Books, m: nat, cast: seq<nat>, pay: nat)
    requires VotesCovered(b) && m < |b.miners|
    requires Voters(b, cast) && CastFor(b.holdings, cast, b.miners[m].voteId)
    ensures SharesInAll(b.holdings, cast, VotersReward(pay), b.miners[m].totalVotes) <= VotersReward(pay)
    ensures 5 * PayGain(b, m, cast, pay)(b.miners[m].account) >= 2 * pay
  {
    CastPower(b.holdings, b, cast, b.miners[m].voteId);
    SharesWithin(b.holdings, cast, VotersReward(pay), b.miners[m].totalVotes);
  }

  /**
    * Before the check it could go wrong: an account that turns to a miner after
    * the tally is paid for power that the miner's total does not contain.
    */
  lemma LiveVotersOverpaid()
    ensures var hs := map[0 := Holding(100, 100, 7), 1 := Holding(900, 900, 8)];
            var b := Books(0, hs, [], [Account(0, PROXY_TO_SELF, [Vote(0, 7)], None), Account(0, PROXY_TO_SELF, [Vote(0, 7)], None)],
                           [Miner(0, None, 7, 100)], 1000, 0, 0, 0, 0, 0);
            && VotesCovered(b) && Voters(b, [0, 1])
            && VotersReward(1000) == 600
            && SharesInAll(hs, [0, 1], 600, 100) == 6000
  {
    var hs := map[0 := Holding(100, 100, 7), 1 := Holding(900, 900, 8)];
    PowerForRemove(hs, 7, 1);
    PowerForRemove(hs - {1}, 7, 0);
    PowerForNothing(hs - {1} - {0}, 7);
    assert [0, 1][..1] == [0] && [0][..0] == [];
    assert SharesInAll(hs, [0], 600, 100) == SharesInAll(hs, [], 600, 100) + Share(600, 100, 100);
    assert SharesInAll(hs, [0, 1], 600, 100) == SharesInAll(hs, [0], 600, 100) + Share(600, 900, 100);
  }
}
