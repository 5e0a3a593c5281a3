/**
  * The money of the chain: account balances, vesting balances, and the supply
  * figures that must agree with them, changed by every operation and every block.
  */
module Ledgers {
  import opened Arithmetic
  import opened Options
  import Vesting

  /** A vote: its kind (0 is a miner) and the number of the candidate. */
  datatype Vote = Vote(kind: nat, instance: nat)

  datatype Account = Account(coreInOrders: nat, votingAccount: nat, votes: seq<Vote>, cashback: Option<nat>)

  datatype Miner = Miner(account: nat, pay: Option<nat>, voteId: nat, totalVotes: nat)

  /** An account's balance object, with the vote recorded at the last tally. */
  datatype Holding = Holding(balance: int, votePower: nat, castedVote: nat)

  const MINER_VOTE: nat := 0
  const NO_VOTE: nat := 0xffffff
  const TEMP_ACCOUNT: nat := 2

  /** The balance objects, by the account that owns them; an account has one at most. */
  type Holdings = map<nat, Holding>

  /** Everything the ledger keeps; accounts, miners and vesting balances are known by their position. */
  datatype Books = Books(
    now: int,
    holdings: Holdings,
    vestings: seq<Vesting.State>,
    accounts: seq<Account>,
    miners: seq<Miner>,
    currentSupply: int,
    confidentialSupply: int,
    accumulatedFees: int,
    minedRewards: int,
    feeBudget: int,
    unspentFeeBudget: int)

  // ---- What must hold ----

  ghost function SumHoldings(hs: Holdings): int
    decreases |hs|
  {
    if a :| a in hs then hs[a].balance + SumHoldings(hs - {a}) else 0
  }

  function SumVestings(vs: seq<Vesting.State>): int {
    if vs == [] then 0 else SumVestings(vs[..|vs| - 1]) + vs[|vs| - 1].balance
  }

  /** What the supply figures say there should be, less what there is. */
  ghost function Gap(b: Books): int {
    b.currentSupply + b.minedRewards + (b.feeBudget - b.unspentFeeBudget) - b.accumulatedFees
    - (SumHoldings(b.holdings) + SumVestings(b.vestings) + b.confidentialSupply)
  }

  ghost predicate SoundHoldings(hs: Holdings) {
    forall a :: a in hs ==> hs[a].balance >= 0
  }

  ghost predicate SoundReferences(b: Books) {
    && (forall v :: v in b.vestings ==> Vesting.Askable(v, b.now))
    && (forall a :: a in b.accounts && a.cashback.Some? ==> a.cashback.value < |b.vestings|)
    && (forall m :: m in b.miners ==> m.account < |b.accounts| && (m.pay.Some? ==> m.pay.value < |b.vestings|))
  }

  /** A balance that keeps an account's pay: coin-seconds, and never below zero. */
  predicate KeepsPay(v: Vesting.State) {
    v.policy.CoinSeconds? && v.balance >= 0
  }

  /** The accounts' pay balances are of that kind, and none of them is a miner's as well. */
  ghost predicate SoundPay(b: Books) {
    forall a :: 0 <= a < |b.accounts| && b.accounts[a].cashback.Some? ==>
      && b.accounts[a].cashback.value < |b.vestings| && KeepsPay(b.vestings[b.accounts[a].cashback.value])
      && forall m :: 0 <= m < |b.miners| ==> b.miners[m].pay != b.accounts[a].cashback
  }

  /** No account has a negative balance, everything referred to exists, and pay is kept in balances of its own. */
  ghost predicate Sound(b: Books) {
    SoundHoldings(b.holdings) && SoundReferences(b) && SoundPay(b)
  }

  // ---- Balances ----

  function BalanceIn(hs: Holdings, owner: nat): int {
    if owner in hs then hs[owner].balance else 0
  }

  /** The balance objects after `delta` is added to the balance of `account`. */
  function Adjusted(hs: Holdings, account: nat, delta: int): Option<Holdings> {
    if delta == 0 then Some(hs)
    else if account !in hs then
      if delta > 0 then Some(hs[account := Holding(delta, 0, NO_VOTE)]) else None
    else if delta < 0 && hs[account].balance < -delta then None
    else Some(hs[account := hs[account].(balance := hs[account].balance + delta)])
  }

  lemma {:induction false} SumHoldingsRemove(hs: Holdings, a: nat)
    requires a in hs
    ensures SumHoldings(hs) == hs[a].balance + SumHoldings(hs - {a})
    decreases |hs|
  {
    var z :| z in hs && SumHoldings(hs) == hs[z].balance + SumHoldings(hs - {z});
    if z == a {
    } else {
      SumHoldingsRemove(hs - {z}, a);
      SumHoldingsRemove(hs - {a}, z);
      assert hs - {z} - {a} == hs - {a} - {z};
    }
  }

  lemma SumHoldingsUpdate(hs: Holdings, a: nat, h: Holding)
    ensures SumHoldings(hs[a := h]) == SumHoldings(hs) - BalanceIn(hs, a) + h.balance
  {
    SumHoldingsRemove(hs[a := h], a);
    assert hs[a := h] - {a} == hs - {a};
    if a in hs {
      SumHoldingsRemove(hs, a);
    } else {
      assert hs - {a} == hs;
    }
  }

  /** The recorded votes are as they were; new balance objects have none. */
  ghost predicate SameVotes(hs: Holdings, after: Holdings) {
    && hs.Keys <= after.Keys
    && forall a :: a in after ==>
         if a in hs then after[a].votePower == hs[a].votePower && after[a].castedVote == hs[a].castedVote
         else after[a].votePower == 0
  }

  /**
    * An adjustment fails exactly when it would leave the account below zero;
    * otherwise it changes that balance by `delta`, no other, and the sum with it.
    */
  lemma AdjustedEffect(hs: Holdings, account: nat, delta: int)
    requires SoundHoldings(hs)
    ensures Adjusted(hs, account, delta).Some? <==> delta >= 0 || BalanceIn(hs, account) + delta >= 0
    ensures Adjusted(hs, account, delta).Some? ==>
              var after := Adjusted(hs, account, delta).value;
              && SoundHoldings(after) && SameVotes(hs, after)
              && SumHoldings(after) == SumHoldings(hs) + delta
              && (forall a: nat :: BalanceIn(after, a) == BalanceIn(hs, a) + if a == account then delta else 0)
  {
    if Adjusted(hs, account, delta).Some? && delta != 0 {
      SumHoldingsUpdate(hs, account, Adjusted(hs, account, delta).value[account]);
    }
  }

  // ---- Vesting balances ----

  /** What the vesting balances of one owner add up to. */
  function SumVestingsOf(vs: seq<Vesting.State>, owner: nat): int {
    if vs == [] then 0
    else SumVestingsOf(vs[..|vs| - 1], owner) + if vs[|vs| - 1].owner == owner then vs[|vs| - 1].balance else 0
  }

  lemma {:induction false} SumVestingsUpdate(vs: seq<Vesting.State>, i: nat, v: Vesting.State, owner: nat)
    requires i < |vs| && v.owner == vs[i].owner
    ensures SumVestings(vs[i := v]) == SumVestings(vs) - vs[i].balance + v.balance
    ensures SumVestingsOf(vs[i := v], owner)
         == SumVestingsOf(vs, owner) + if v.owner == owner then v.balance - vs[i].balance else 0
  {
    var n := |vs| - 1;
    if i < n {
      SumVestingsUpdate(vs[..n], i, v, owner);
      assert vs[i := v][..n] == vs[..n][i := v];
    } else {
      assert vs[i := v][..n] == vs[..n];
    }
  }

  lemma SumVestingsAppend(vs: seq<Vesting.State>, v: Vesting.State, owner: nat)
    ensures SumVestings(vs + [v]) == SumVestings(vs) + v.balance
    ensures SumVestingsOf(vs + [v], owner) == SumVestingsOf(vs, owner) + if v.owner == owner then v.balance else 0
  {
    assert (vs + [v])[..|vs|] == vs;
  }

  /** A vesting balance that a lazy deposit may add to. */
  predicate MayTopUp(v: Vesting.State, owner: nat, seconds: nat) {
    v.owner == owner && v.policy.CoinSeconds? && v.policy.seconds == seconds
  }

  /** Whether the optional vesting balance exists and can be added to. */
  predicate Reusable(vs: seq<Vesting.State>, id: Option<nat>, owner: nat, seconds: nat) {
    id.Some? && id.value < |vs| && MayTopUp(vs[id.value], owner, seconds)
  }

  /** A coin-second balance for money that arrives now. */
  function FreshVesting(owner: nat, amount: int, seconds: nat, vest: bool, now: int): Vesting.State {
    Vesting.State(owner, amount, Vesting.CoinSeconds(seconds, if vest then 0 else amount * seconds, 0, now))
  }

  /** The vesting balances after a lazy deposit. */
  function LazyDeposit(vs: seq<Vesting.State>, id: Option<nat>, amount: int, seconds: nat, owner: nat, vest: bool, now: int):
    seq<Vesting.State>
    requires forall v :: v in vs ==> Vesting.Askable(v, now)
  {
    if amount == 0 then vs
    else if Reusable(vs, id, owner, seconds) then
      var v := vs[id.value];
      vs[id.value := if vest then Vesting.Deposited(v, now, amount) else Vesting.DepositedVested(v, now, amount).value]
    else vs + [FreshVesting(owner, amount, seconds, vest, now)]
  }

  /** The owner's vesting balances grow by the amount; no one else's change. */
  lemma LazyDepositEffect(vs: seq<Vesting.State>, id: Option<nat>, amount: int, seconds: nat, owner: nat, vest: bool, now: int)
    requires forall v :: v in vs ==> Vesting.Askable(v, now)
    ensures var after := LazyDeposit(vs, id, amount, seconds, owner, vest, now);
            && |vs| <= |after| && (forall v :: v in after ==> Vesting.Askable(v, now))
            && SumVestings(after) == SumVestings(vs) + amount
            && (forall o: nat :: SumVestingsOf(after, o) == SumVestingsOf(vs, o) + if o == owner then amount else 0)
  {
    if amount != 0 {
      var after := LazyDeposit(vs, id, amount, seconds, owner, vest, now);
      forall o: nat
        ensures SumVestings(after) == SumVestings(vs) + amount
        ensures SumVestingsOf(after, o) == SumVestingsOf(vs, o) + if o == owner then amount else 0
      {
        if Reusable(vs, id, owner, seconds) {
          SumVestingsUpdate(vs, id.value, after[id.value], o);
        } else {
          SumVestingsAppend(vs, after[|vs|], o);
        }
      }
      assert SumVestingsOf(after, 0) == SumVestingsOf(vs, 0) + if 0 == owner then amount else 0;
    }
  }

  /**
    * A lazy deposit adds to the balance that can be reused, or opens a new one.
    * What is to vest brings no coin-seconds with it, anything else all of them.
    */
  lemma LazyDepositExactly(vs: seq<Vesting.State>, id: Option<nat>, amount: nat, seconds: nat, owner: nat, vest: bool, now: int)
    requires forall i :: 0 <= i < |vs| ==> Vesting.Askable(vs[i], now)
    ensures var after, period := LazyDeposit(vs, id, amount, seconds, owner, vest, now), Vesting.Period(seconds);
            if amount == 0 then after == vs
            else if Reusable(vs, id, owner, seconds) then
              && |after| == |vs| && (forall i :: 0 <= i < |vs| && i != id.value ==> after[i] == vs[i])
              && after[id.value].balance == vs[id.value].balance + amount
              && (Vesting.Capped(vs[id.value]) ==>
                    && Vesting.Capped(after[id.value]) && Vesting.Askable(after[id.value], now)
                    && Vesting.Computed(after[id.value], now)
                       == Vesting.Computed(vs[id.value], now) + if vest then 0 else amount * period)
            else
              && |after| == |vs| + 1 && after[..|vs|] == vs
              && after[|vs|] == Vesting.State(owner, amount, Vesting.CoinSeconds(seconds, if vest then 0 else amount * seconds, 0, now))
  {
    if amount != 0 && Reusable(vs, id, owner, seconds) && Vesting.Capped(vs[id.value]) {
      if vest {
        Vesting.DepositAccounts(vs[id.value], now, amount);
      } else {
        Vesting.DepositVestedAccounts(vs[id.value], now, amount);
      }
    }
  }

  // ---- Operations ----

  datatype Operation =
    | Transfer(from: nat, to: nat, amount: int, fee: int)
    | TransferToBlind(from: nat, amount: int, fee: int)
    | TransferFromBlind(to: nat, amount: int, fee: int)
    | BlindTransfer(fee: int)
    | TransferToConfidential(from: nat, amount: int, fee: int)
    | TransferFromConfidential(outputs: seq<Output>, fee: int)
    | VestingCreate(creator: nat, owner: nat, amount: int, policy: Vesting.Policy, fee: int)
    | VestingWithdraw(owner: nat, vesting: nat, amount: int, fee: int)
    | Other(payer: nat, fee: int)

  /** An output of a confidential transfer: hidden again, or paid to an account in the open. */
  datatype Output = Hidden | Open(to: nat, amount: int)

  function FeePayer(op: Operation): nat {
    match op
    case Transfer(from, _, _, _) => from
    case TransferToBlind(from, _, _) => from
    case TransferFromBlind(_, _, _) => TEMP_ACCOUNT
    case BlindTransfer(_) => TEMP_ACCOUNT
    case TransferToConfidential(from, _, _) => from
    case TransferFromConfidential(_, _) => TEMP_ACCOUNT
    case VestingCreate(creator, _, _, _, _) => creator
    case VestingWithdraw(owner, _, _, _) => owner
    case Other(payer, _) => payer
  }

  /** The policy a new vesting balance starts with: only the initializer's fields are taken over. */
  function InitialPolicy(policy: Vesting.Policy, amount: int, now: int): Vesting.Policy {
    match policy
    case Linear(begin, cliff, duration, _) => Vesting.Linear(begin, cliff, duration, amount)
    case CoinSeconds(seconds, _, startClaim, _) => Vesting.CoinSeconds(seconds, 0, startClaim, now)
  }

  function Credit(b: Books, account: nat, delta: int): Option<Books> {
    var hs := Adjusted(b.holdings, account, delta);
    if hs.Some? then Some(b.(holdings := hs.value)) else None
  }

  function CreditTwice(b: Books, account: nat, delta: int, other: nat, more: int): Option<Books> {
    var c := Credit(b, account, delta);
    if c.Some? then Credit(c.value, other, more) else None
  }

  /** Moves `amount` into the confidential supply, which must not go below zero. */
  function Hide(b: Books, amount: int): Option<Books> {
    if b.confidentialSupply + amount >= 0 then Some(b.(confidentialSupply := b.confidentialSupply + amount)) else None
  }

  function CreditThenHide(b: Books, account: nat, delta: int, hidden: int): Option<Books> {
    var c := Credit(b, account, delta);
    if c.Some? then Hide(c.value, hidden) else None
  }

  /** The open outputs of a confidential transfer, in order. */
  function PayOutputs(b: Books, outputs: seq<Output>): Option<Books> {
    if outputs == [] then Some(b)
    else
      var before := PayOutputs(b, outputs[..|outputs| - 1]);
      if before.None? || outputs[|outputs| - 1].Hidden? then before
      else CreditThenHide(before.value, outputs[|outputs| - 1].to, outputs[|outputs| - 1].amount, -outputs[|outputs| - 1].amount)
  }

  /** The fee comes out of the hidden money by way of the temporary account. */
  function FromBlind(b: Books, to: nat, amount: int, fee: int): Option<Books> {
    var c := Credit(b, TEMP_ACCOUNT, fee);
    if c.Some? then CreditThenHide(c.value, to, amount, -(amount + fee)) else None
  }

  function FromConfidential(b: Books, outputs: seq<Output>, fee: int): Option<Books> {
    var c := CreditThenHide(b, TEMP_ACCOUNT, fee, -fee);
    if c.Some? then PayOutputs(c.value, outputs) else None
  }

  function NewVesting(b: Books, creator: nat, owner: nat, amount: int, policy: Vesting.Policy): Option<Books> {
    var c := Credit(b, creator, -amount);
    if amount <= 0 || c.None? then None
    else
      var v := Vesting.State(owner, amount, InitialPolicy(policy, amount, b.now));
      Some(c.value.(vestings := c.value.vestings + [v]))
  }

  function TakeVesting(b: Books, owner: nat, vesting: nat, amount: int): Option<Books>
    requires forall v :: v in b.vestings ==> Vesting.Askable(v, b.now)
  {
    if vesting >= |b.vestings| || b.vestings[vesting].owner != owner then None
    else if !Vesting.IsWithdrawAllowed(b.vestings[vesting], b.now, amount) then None
    else
      var v := Vesting.Withdrawn(b.vestings[vesting], b.now, amount);
      Credit(b.(vestings := b.vestings[vesting := v]), owner, amount)
  }

  /** The effect of an operation, its fee apart. */
  function Performed(b: Books, op: Operation): Option<Books>
    requires forall v :: v in b.vestings ==> Vesting.Askable(v, b.now)
  {
    match op
    case Transfer(from, to, amount, _) => CreditTwice(b, from, -amount, to, amount)
    case TransferToBlind(from, amount, _) => CreditThenHide(b, from, -amount, amount)
    case TransferFromBlind(to, amount, fee) => FromBlind(b, to, amount, fee)
    case BlindTransfer(fee) => CreditThenHide(b, TEMP_ACCOUNT, fee, -fee)
    case TransferToConfidential(from, amount, _) => CreditThenHide(b, from, -amount, amount)
    case TransferFromConfidential(outputs, fee) => FromConfidential(b, outputs, fee)
    case VestingCreate(creator, owner, amount, policy, _) => NewVesting(b, creator, owner, amount, policy)
    case VestingWithdraw(owner, vesting, amount, _) => TakeVesting(b, owner, vesting, amount)
    case Other(_, _) => Some(b)
  }

  /** The whole evaluation: the fee is booked, the operation performed, and the fee taken from its payer. */
  function Evaluated(b: Books, op: Operation): Option<Books>
    requires forall v :: v in b.vestings ==> Vesting.Askable(v, b.now)
  {
    if op.fee < 0 then None
    else
      var c := Performed(Charged(b, op.fee), op);
      if c.None? then None else Credit(c.value, FeePayer(op), -op.fee)
  }

  function Charged(b: Books, fee: int): Books {
    b.(accumulatedFees := b.accumulatedFees + fee)
  }

  // ---- What an operation does to each account and to the totals ----

  /** Only balances, vesting balances, the confidential supply and the collected fees differ. */
  ghost predicate OnlyMoney(b: Books, c: Books) {
    && c == b.(holdings := c.holdings, vestings := c.vestings, confidentialSupply := c.confidentialSupply, accumulatedFees := c.accumulatedFees)
    && SameVotes(b.holdings, c.holdings) && |b.vestings| <= |c.vestings|
  }

  /** Both books are sound, and every balance differs by what `delta` says. */
  ghost predicate Shifted(b: Books, c: Books, delta: nat -> int, gap: int) {
    && Sound(b) && Sound(c) && OnlyMoney(b, c)
    && Gap(c) == Gap(b) + gap
    && BalanceShift(b, c, delta)
  }

  ghost predicate BalanceShift(b: Books, c: Books, delta: nat -> int) {
    forall a: nat :: BalanceIn(c.holdings, a) == BalanceIn(b.holdings, a) + delta(a)
  }

  ghost function Only(account: nat, amount: int): nat -> int {
    (a: nat) => if a == account then amount else 0
  }

  ghost function Nothing(): nat -> int {
    (a: nat) => 0
  }

  lemma CreditEffect(b: Books, account: nat, delta: int)
    requires Sound(b) && Credit(b, account, delta).Some?
    ensures Shifted(b, Credit(b, account, delta).value, Only(account, delta), -delta)
  {
    AdjustedEffect(b.holdings, account, delta);
  }

  lemma HideEffect(b: Books, amount: int)
    requires Sound(b) && Hide(b, amount).Some?
    ensures Shifted(b, Hide(b, amount).value, Nothing(), -amount)
    ensures Hide(b, amount).value.confidentialSupply == b.confidentialSupply + amount >= 0
  {
  }

  /** Two changes in a row, put as one. */
  lemma Compose(b: Books, c: Books, d: Books, delta: nat -> int, epsilon: nat -> int, sum: nat -> int, gap: int, more: int,
                total: int)
    requires Shifted(b, c, delta, gap) && Shifted(c, d, epsilon, more)
    requires Adds(sum, delta, epsilon) && total == gap + more
    ensures Shifted(b, d, sum, total)
  {
  }

  ghost predicate Adds(sum: nat -> int, delta: nat -> int, epsilon: nat -> int) {
    forall a: nat :: sum(a) == delta(a) + epsilon(a)
  }

  lemma CreditTwiceEffect(b: Books, account: nat, delta: int, other: nat, more: int, sum: nat -> int)
    requires Sound(b) && CreditTwice(b, account, delta, other, more).Some?
    requires Adds(sum, Only(account, delta), Only(other, more)) && delta + more == 0
    ensures var d := CreditTwice(b, account, delta, other, more).value;
            && Shifted(b, d, sum, 0)
            && d.confidentialSupply == b.confidentialSupply && d.accumulatedFees == b.accumulatedFees
            && d.vestings == b.vestings
  {
    var c := Credit(b, account, delta).value;
    CreditEffect(b, account, delta);
    CreditEffect(c, other, more);
    Compose(b, c, Credit(c, other, more).value, Only(account, delta), Only(other, more), sum, -delta, -more, 0);
  }

  lemma CreditThenHideEffect(b: Books, account: nat, delta: int, hidden: int, gap: int)
    requires gap == -delta - hidden && Sound(b) && CreditThenHide(b, account, delta, hidden).Some?
    ensures var c := CreditThenHide(b, account, delta, hidden).value;
            && Shifted(b, c, Only(account, delta), gap)
            && c.confidentialSupply == b.confidentialSupply + hidden >= 0
            && c.accumulatedFees == b.accumulatedFees && c.vestings == b.vestings
  {
    CreditEffect(b, account, delta);
    HideEffect(Credit(b, account, delta).value, hidden);
  }

  /** What the open outputs pay to one account. */
  function PaidBy(outputs: seq<Output>, account: nat): int {
    if outputs == [] then 0
    else
      var o := outputs[|outputs| - 1];
      PaidBy(outputs[..|outputs| - 1], account) + if o.Open? && o.to == account then o.amount else 0
  }

  ghost function PaidOf(outputs: seq<Output>): nat -> int {
    (a: nat) => PaidBy(outputs, a)
  }

  function PaidInAll(outputs: seq<Output>): int {
    if outputs == [] then 0
    else
      var o := outputs[|outputs| - 1];
      PaidInAll(outputs[..|outputs| - 1]) + if o.Open? then o.amount else 0
  }

  lemma {:induction false} PayOutputsEffect(b: Books, outputs: seq<Output>)
    requires Sound(b) && PayOutputs(b, outputs).Some?
    ensures var c := PayOutputs(b, outputs).value;
            && Shifted(b, c, PaidOf(outputs), 0)
            && c.confidentialSupply == b.confidentialSupply - PaidInAll(outputs)
            && c.accumulatedFees == b.accumulatedFees && c.vestings == b.vestings
  {
    if outputs == [] {
    } else {
      var before, o := outputs[..|outputs| - 1], outputs[|outputs| - 1];
      var c, d := PayOutputs(b, before).value, PayOutputs(b, outputs).value;
      PayOutputsEffect(b, before);
      OutputAdds(outputs);
      if o.Open? {
        CreditThenHideEffect(c, o.to, o.amount, -o.amount, 0);
        Compose(b, c, d, PaidOf(before), Only(o.to, o.amount), PaidOf(outputs), 0, 0, 0);
      } else {
        SameChange(b, c, PaidOf(before), PaidOf(outputs), 0);
      }
    }
  }

  lemma OutputAdds(outputs: seq<Output>)
    requires outputs != []
    ensures var before, o := outputs[..|outputs| - 1], outputs[|outputs| - 1];
            if o.Open? then Adds(PaidOf(outputs), PaidOf(before), Only(o.to, o.amount))
            else forall a: nat :: PaidOf(before)(a) == PaidOf(outputs)(a)
  {
  }

  // ---- The operations' net effect ----

  /** What an operation is meant to do to one account, its fee apart. */
  function Change(op: Operation, account: nat): int {
    match op
    case Transfer(from, to, amount, _) =>
      (if account == to then amount else 0) - (if account == from then amount else 0)
    case TransferToBlind(from, amount, _) => if account == from then -amount else 0
    case TransferFromBlind(to, amount, fee) =>
      (if account == to then amount else 0) + (if account == TEMP_ACCOUNT then fee else 0)
    case BlindTransfer(fee) => if account == TEMP_ACCOUNT then fee else 0
    case TransferToConfidential(from, amount, _) => if account == from then -amount else 0
    case TransferFromConfidential(outputs, fee) =>
      PaidBy(outputs, account) + (if account == TEMP_ACCOUNT then fee else 0)
    case VestingCreate(creator, _, amount, _, _) => if account == creator then -amount else 0
    case VestingWithdraw(owner, _, amount, _) => if account == owner then amount else 0
    case Other(_, _) => 0
  }

  ghost function ChangeOf(op: Operation): nat -> int {
    (a: nat) => Change(op, a)
  }

  /** What an operation adds to the confidential supply. */
  function HiddenBy(op: Operation): int {
    match op
    case TransferToBlind(_, amount, _) => amount
    case TransferFromBlind(_, amount, fee) => -(amount + fee)
    case BlindTransfer(fee) => -fee
    case TransferToConfidential(_, amount, _) => amount
    case TransferFromConfidential(outputs, fee) => -fee - PaidInAll(outputs)
    case _ => 0
  }

  /** What an operation adds to the vesting balances of one owner. */
  function VestedBy(op: Operation, account: nat): int {
    match op
    case VestingCreate(_, owner, amount, _, _) => if account == owner then amount else 0
    case VestingWithdraw(owner, _, amount, _) => if account == owner then -amount else 0
    case _ => 0
  }

  ghost function VestedOf(op: Operation): nat -> int {
    (a: nat) => VestedBy(op, a)
  }

  /** The state `c` after an operation with these effects on `b`. */
  ghost predicate Effect(b: Books, c: Books, change: nat -> int, hidden: int, fees: int, vested: nat -> int, gap: int) {
    && Shifted(b, c, change, gap)
    && c.confidentialSupply == b.confidentialSupply + hidden
    && c.accumulatedFees == b.accumulatedFees + fees
    && VestedShift(b, c, vested)
  }

  ghost predicate VestedShift(b: Books, c: Books, vested: nat -> int) {
    forall a: nat :: SumVestingsOf(c.vestings, a) == SumVestingsOf(b.vestings, a) + vested(a)
  }

  lemma TransferEffect(b: Books, op: Operation)
    requires op.Transfer? && Sound(b) && Performed(b, op).Some?
    ensures Effect(b, Performed(b, op).value, ChangeOf(op), 0, 0, Nothing(), 0)
  {
    TransferAdds(op);
    CreditTwiceEffect(b, op.from, -op.amount, op.to, op.amount, ChangeOf(op));
    Settles(b, CreditTwice(b, op.from, -op.amount, op.to, op.amount).value, op, 0);
  }

  lemma TransferAdds(op: Operation)
    requires op.Transfer?
    ensures Adds(ChangeOf(op), Only(op.from, -op.amount), Only(op.to, op.amount))
  {
  }

  /** An operation that leaves vesting balances alone. */
  lemma Settles(b: Books, c: Books, op: Operation, hidden: int)
    requires Sound(b) && Performed(b, op) == Some(c) && Shifted(b, c, ChangeOf(op), 0)
    requires c.confidentialSupply == b.confidentialSupply + hidden && c.accumulatedFees == b.accumulatedFees && c.vestings == b.vestings
    ensures Effect(b, Performed(b, op).value, ChangeOf(op), hidden, 0, Nothing(), 0)
  {
  }

  lemma FromBlindEffect(b: Books, op: Operation)
    requires op.TransferFromBlind? && Sound(b) && Performed(b, op).Some?
    ensures Effect(b, Performed(b, op).value, ChangeOf(op), HiddenBy(op), 0, Nothing(), 0)
  {
    var c := Credit(b, TEMP_ACCOUNT, op.fee).value;
    assert Adds(ChangeOf(op), Only(TEMP_ACCOUNT, op.fee), Only(op.to, op.amount));
    CreditEffect(b, TEMP_ACCOUNT, op.fee);
    CreditThenHideEffect(c, op.to, op.amount, -(op.amount + op.fee), op.fee);
    var d := CreditThenHide(c, op.to, op.amount, -(op.amount + op.fee)).value;
    Compose(b, c, d, Only(TEMP_ACCOUNT, op.fee), Only(op.to, op.amount), ChangeOf(op), -op.fee, op.fee, 0);
    Settles(b, d, op, HiddenBy(op));
  }

  lemma FromConfidentialEffect(b: Books, op: Operation)
    requires op.TransferFromConfidential? && Sound(b) && Performed(b, op).Some?
    ensures Effect(b, Performed(b, op).value, ChangeOf(op), HiddenBy(op), 0, Nothing(), 0)
  {
    CreditThenHideEffect(b, TEMP_ACCOUNT, op.fee, -op.fee, 0);
    var c := CreditThenHide(b, TEMP_ACCOUNT, op.fee, -op.fee).value;
    PayOutputsEffect(c, op.outputs);
    assert Adds(ChangeOf(op), Only(TEMP_ACCOUNT, op.fee), PaidOf(op.outputs));
    var d := PayOutputs(c, op.outputs).value;
    Compose(b, c, d, Only(TEMP_ACCOUNT, op.fee), PaidOf(op.outputs), ChangeOf(op), 0, 0, 0);
    Settles(b, d, op, HiddenBy(op));
  }

  lemma CreateEffect(b: Books, op: Operation)
    requires op.VestingCreate? && Sound(b) && Performed(b, op).Some?
    ensures Effect(b, Performed(b, op).value, ChangeOf(op), 0, 0, VestedOf(op), 0)
  {
    CreditEffect(b, op.creator, -op.amount);
    var v := Vesting.State(op.owner, op.amount, InitialPolicy(op.policy, op.amount, b.now));
    forall a: nat ensures SumVestingsOf(b.vestings + [v], a) == SumVestingsOf(b.vestings, a) + VestedBy(op, a) {
      SumVestingsAppend(b.vestings, v, a);
    }
    SumVestingsAppend(b.vestings, v, 0);
  }

  /** A pay balance never falls below zero. */
  lemma WithdrawalCovered(v: Vesting.State, now: int, amount: int)
    requires Vesting.Askable(v, now) && Vesting.IsWithdrawAllowed(v, now, amount)
    ensures KeepsPay(v) ==> KeepsPay(Vesting.Withdrawn(v, now, amount))
  {
    if KeepsPay(v) {
      var period := Vesting.Period(v.policy.seconds);
      var earned := Vesting.Computed(v, now);
      Parts(earned, period);
      StepApart(earned / period, v.balance, period);
    }
  }

  lemma WithdrawEffect(b: Books, op: Operation)
    requires op.VestingWithdraw? && Sound(b) && Performed(b, op).Some?
    ensures Effect(b, Performed(b, op).value, ChangeOf(op), 0, 0, VestedOf(op), 0)
  {
    var v := Vesting.Withdrawn(b.vestings[op.vesting], b.now, op.amount);
    var c := b.(vestings := b.vestings[op.vesting := v]);
    forall a: nat ensures SumVestingsOf(c.vestings, a) == SumVestingsOf(b.vestings, a) + VestedBy(op, a) {
      SumVestingsUpdate(b.vestings, op.vesting, v, a);
    }
    SumVestingsUpdate(b.vestings, op.vesting, v, 0);
    WithdrawalCovered(b.vestings[op.vesting], b.now, op.amount);
    assert Sound(c);
    CreditEffect(c, op.owner, op.amount);
  }

  /** The two operations that only hide money. */
  lemma HidingEffect(b: Books, op: Operation)
    requires (op.TransferToBlind? || op.TransferToConfidential?) && Sound(b) && Performed(b, op).Some?
    ensures Effect(b, Performed(b, op).value, ChangeOf(op), HiddenBy(op), 0, Nothing(), 0)
  {
    CreditThenHideEffect(b, op.from, -op.amount, op.amount, 0);
    var c := CreditThenHide(b, op.from, -op.amount, op.amount).value;
    SameChange(b, c, Only(op.from, -op.amount), ChangeOf(op), 0);
    Settles(b, c, op, HiddenBy(op));
  }

  lemma BlindEffect(b: Books, op: Operation)
    requires op.BlindTransfer? && Sound(b) && Performed(b, op).Some?
    ensures Effect(b, Performed(b, op).value, ChangeOf(op), HiddenBy(op), 0, Nothing(), 0)
  {
    CreditThenHideEffect(b, TEMP_ACCOUNT, op.fee, -op.fee, 0);
    var c := CreditThenHide(b, TEMP_ACCOUNT, op.fee, -op.fee).value;
    SameChange(b, c, Only(TEMP_ACCOUNT, op.fee), ChangeOf(op), 0);
    Settles(b, c, op, HiddenBy(op));
  }

  lemma SameChange(b: Books, c: Books, delta: nat -> int, epsilon: nat -> int, gap: int)
    requires Shifted(b, c, delta, gap) && forall a: nat :: delta(a) == epsilon(a)
    ensures Shifted(b, c, epsilon, gap)
  {
  }

  lemma SameVested(b: Books, c: Books, vested: nat -> int, other: nat -> int)
    requires VestedShift(b, c, vested) && forall a: nat :: vested(a) == other(a)
    ensures VestedShift(b, c, other)
  {
  }

  lemma PerformedEffect(b: Books, op: Operation)
    requires Sound(b) && Performed(b, op).Some?
    ensures Effect(b, Performed(b, op).value, ChangeOf(op), HiddenBy(op), 0, VestedOf(op), 0)
  {
    if op.VestingCreate? {
      CreateEffect(b, op);
    } else if op.VestingWithdraw? {
      WithdrawEffect(b, op);
    } else if op.Other? {
      OtherEffect(b, op);
    } else {
      TransfersEffect(b, op);
      SameVested(b, Performed(b, op).value, Nothing(), VestedOf(op));
    }
  }

  lemma OtherEffect(b: Books, op: Operation)
    requires op.Other? && Sound(b)
    ensures Effect(b, Performed(b, op).value, ChangeOf(op), 0, 0, VestedOf(op), 0)
  {
  }

  lemma TransfersEffect(b: Books, op: Operation)
    requires !op.VestingCreate? && !op.VestingWithdraw? && !op.Other?
    requires Sound(b) && Performed(b, op).Some?
    ensures Effect(b, Performed(b, op).value, ChangeOf(op), HiddenBy(op), 0, Nothing(), 0)
  {
    if op.Transfer? {
      TransferEffect(b, op);
    } else if op.TransferFromBlind? {
      FromBlindEffect(b, op);
    } else if op.TransferFromConfidential? {
      FromConfidentialEffect(b, op);
    } else if op.BlindTransfer? {
      BlindEffect(b, op);
    } else {
      HidingEffect(b, op);
    }
  }

  /** An operation's change to one account, its fee included. */
  function NetChange(op: Operation, account: nat): int {
    Change(op, account) - if account == FeePayer(op) then op.fee else 0
  }

  ghost function NetChangeOf(op: Operation): nat -> int {
    (a: nat) => NetChange(op, a)
  }

  /**
    * Every operation that succeeds changes balances, vesting balances, the
    * confidential supply and the collected fees by exactly what it says, leaves
    * no balance negative, and leaves the supply figures as true as they were.
    */
  lemma OperationEffect(b: Books, op: Operation)
    requires Sound(b) && Evaluated(b, op).Some?
    ensures Effect(b, Evaluated(b, op).value, NetChangeOf(op), HiddenBy(op), op.fee, VestedOf(op), 0)
  {
    var charged := Charged(b, op.fee);
    assert Sound(charged);
    PerformedEffect(charged, op);
    NetIsChangeLessFee(op);
    TakeFee(b, op, op.fee, FeePayer(op), Performed(charged, op).value);
  }

  lemma TakeFee(b: Books, op: Operation, fee: int, payer: nat, c: Books)
    requires Sound(b) && Evaluated(b, op) == Credit(c, payer, -fee) && Evaluated(b, op).Some?
    requires Effect(Charged(b, fee), c, ChangeOf(op), HiddenBy(op), 0, VestedOf(op), 0)
    requires Adds(NetChangeOf(op), ChangeOf(op), Only(payer, -fee))
    ensures Effect(b, Evaluated(b, op).value, NetChangeOf(op), HiddenBy(op), fee, VestedOf(op), 0)
  {
    FeeTaken(b, fee, payer, c, Evaluated(b, op).value, ChangeOf(op), NetChangeOf(op), HiddenBy(op), VestedOf(op));
  }

  lemma NetIsChangeLessFee(op: Operation)
    ensures Adds(NetChangeOf(op), ChangeOf(op), Only(FeePayer(op), -op.fee))
  {
  }

  /** Taking the fee after the operation makes good what booking it before had changed. */
  lemma FeeTaken(b: Books, fee: int, payer: nat, c: Books, d: Books,
                 change: nat -> int, net: nat -> int, hidden: int, vested: nat -> int)
    requires Sound(b)
    requires Effect(Charged(b, fee), c, change, hidden, 0, vested, 0)
    requires Adds(net, change, Only(payer, -fee))
    requires Credit(c, payer, -fee) == Some(d)
    ensures Effect(b, d, net, hidden, fee, vested, 0)
  {
    var charged := Charged(b, fee);
    ChargeEffect(b, fee);
    CreditEffect(c, payer, -fee);
    Compose(charged, c, d, change, Only(payer, -fee), net, 0, fee, fee);
    assert Adds(net, Nothing(), net);
    Compose(b, charged, d, Nothing(), net, net, -fee, fee, 0);
  }

  lemma ChargeEffect(b: Books, fee: int)
    requires Sound(b)
    ensures Shifted(b, Charged(b, fee), Nothing(), -fee)
  {
  }

  // ---- The ledger the chain keeps ----

  class Ledger {
    var now: int
    var holdings: Holdings
    var vestings: seq<Vesting.State>
    var accounts: seq<Account>
    var miners: seq<Miner>
    var currentSupply: int
    var confidentialSupply: int
    var accumulatedFees: int
    var minedRewards: int
    var feeBudget: int
    var unspentFeeBudget: int

    function View(): Books
      reads this
    {
      Books(now, holdings, vestings, accounts, miners, currentSupply, confidentialSupply, accumulatedFees,
            minedRewards, feeBudget, unspentFeeBudget)
    }

    /** The genesis ledger: the whole initial supply in one account. */
    constructor (supply: nat, owner: nat)
      ensures Sound(View()) && Gap(View()) == 0
      ensures View() == Books(0, map[owner := Holding(supply, 0, NO_VOTE)], [], [], [], supply, 0, 0, 0, 0, 0)
    {
      now, vestings, accounts, miners := 0, [], [], [];
      holdings := map[owner := Holding(supply, 0, NO_VOTE)];
      currentSupply, confidentialSupply, accumulatedFees := supply, 0, 0;
      minedRewards, feeBudget, unspentFeeBudget := 0, 0, 0;
      new;
      SumHoldingsRemove(holdings, owner);
      assert holdings - {owner} == map[];
    }

    method AdjustBalance(account: nat, delta: int) returns (ok: bool)
      modifies this`holdings
      ensures ok == Credit(old(View()), account, delta).Some?
      ensures View() == if ok then Credit(old(View()), account, delta).value else old(View())
    {
      if delta == 0 {
        return true;
      }
      if account !in holdings {
        if delta <= 0 {
          return false;
        }
        holdings := holdings[account := Holding(delta, 0, NO_VOTE)];
      } else {
        var h := holdings[account];
        if delta < 0 && h.balance < -delta {
          return false;
        }
        holdings := holdings[account := h.(balance := h.balance + delta)];
      }
      return true;
    }

    /** Changes the confidential supply, and fails when that leaves it negative. */
    method AdjustConfidential(amount: int) returns (ok: bool)
      modifies this`confidentialSupply
      ensures ok == Hide(old(View()), amount).Some?
      ensures ok ==> View() == Hide(old(View()), amount).value
    {
      confidentialSupply := confidentialSupply + amount;
      return confidentialSupply >= 0;
    }

    method CreditAndHide(account: nat, delta: int, hidden: int) returns (ok: bool)
      modifies this`holdings, this`confidentialSupply
      ensures ok == CreditThenHide(old(View()), account, delta, hidden).Some?
      ensures ok ==> View() == CreditThenHide(old(View()), account, delta, hidden).value
    {
      ok := AdjustBalance(account, delta);
      if ok {
        ok := AdjustConfidential(hidden);
      }
    }

    method TransferFromBlind(to: nat, amount: int, fee: int) returns (ok: bool)
      modifies this`holdings, this`confidentialSupply
      ensures ok == FromBlind(old(View()), to, amount, fee).Some?
      ensures ok ==> View() == FromBlind(old(View()), to, amount, fee).value
    {
      ok := AdjustBalance(TEMP_ACCOUNT, fee);
      if ok {
        ok := CreditAndHide(to, amount, -(amount + fee));
      }
    }

    method TransferFromConfidential(outputs: seq<Output>, fee: int) returns (ok: bool)
      modifies this`holdings, this`confidentialSupply
      ensures ok == FromConfidential(old(View()), outputs, fee).Some?
      ensures ok ==> View() == FromConfidential(old(View()), outputs, fee).value
    {
      ok := CreditAndHide(TEMP_ACCOUNT, fee, -fee);
      if !ok {
        return;
      }
      ghost var start := View();
      var i := 0;
      while i < |outputs|
        invariant 0 <= i <= |outputs|
        invariant PayOutputs(start, outputs[..i]) == Some(View())
      {
        assert outputs[..i + 1][..i] == outputs[..i];
        if outputs[i].Open? {
          ok := CreditAndHide(outputs[i].to, outputs[i].amount, -outputs[i].amount);
          if !ok {
            PayOutputsFails(start, outputs, i + 1);
            return;
          }
        }
        i := i + 1;
      }
      assert outputs[..i] == outputs;
    }

    method CreateVesting(creator: nat, owner: nat, amount: int, policy: Vesting.Policy) returns (ok: bool)
      modifies this`holdings, this`vestings
      ensures ok == NewVesting(old(View()), creator, owner, amount, policy).Some?
      ensures ok ==> View() == NewVesting(old(View()), creator, owner, amount, policy).value
    {
      if amount <= 0 {
        return false;
      }
      ok := AdjustBalance(creator, -amount);
      if ok {
        vestings := vestings + [Vesting.State(owner, amount, InitialPolicy(policy, amount, now))];
      }
    }

    method WithdrawVesting(owner: nat, vesting: nat, amount: int) returns (ok: bool)
      requires forall v :: v in vestings ==> Vesting.Askable(v, now)
      modifies this`holdings, this`vestings
      ensures ok == TakeVesting(old(View()), owner, vesting, amount).Some?
      ensures ok ==> View() == TakeVesting(old(View()), owner, vesting, amount).value
    {
      if vesting >= |vestings| || vestings[vesting].owner != owner {
        return false;
      }
      if !Vesting.IsWithdrawAllowed(vestings[vesting], now, amount) {
        return false;
      }
      vestings := vestings[vesting := Vesting.Withdrawn(vestings[vesting], now, amount)];
      ok := AdjustBalance(owner, amount);
    }

    method Perform(op: Operation) returns (ok: bool)
      requires forall v :: v in vestings ==> Vesting.Askable(v, now)
      modifies this
      ensures ok == Performed(old(View()), op).Some?
      ensures ok ==> View() == Performed(old(View()), op).value
    {
      match op
      case Transfer(from, to, amount, _) =>
        ok := AdjustBalance(from, -amount);
        if ok {
          ok := AdjustBalance(to, amount);
        }
      case TransferToBlind(from, amount, _) => ok := CreditAndHide(from, -amount, amount);
      case TransferFromBlind(to, amount, fee) => ok := TransferFromBlind(to, amount, fee);
      case BlindTransfer(fee) => ok := CreditAndHide(TEMP_ACCOUNT, fee, -fee);
      case TransferToConfidential(from, amount, _) => ok := CreditAndHide(from, -amount, amount);
      case TransferFromConfidential(outputs, fee) => ok := TransferFromConfidential(outputs, fee);
      case VestingCreate(creator, owner, amount, policy, _) => ok := CreateVesting(creator, owner, amount, policy);
      case VestingWithdraw(owner, vesting, amount, _) => ok := WithdrawVesting(owner, vesting, amount);
      case Other(_, _) => ok := true;
    }

    method Restore(b: Books)
      modifies this
      ensures View() == b
    {
      now, holdings, vestings, accounts, miners := b.now, b.holdings, b.vestings, b.accounts, b.miners;
      currentSupply, confidentialSupply, accumulatedFees := b.currentSupply, b.confidentialSupply, b.accumulatedFees;
      minedRewards, feeBudget, unspentFeeBudget := b.minedRewards, b.feeBudget, b.unspentFeeBudget;
    }

    /** Books the fee, performs the operation, takes the fee from its payer. */
    method Apply(op: Operation) returns (ok: bool)
      requires forall v :: v in vestings ==> Vesting.Askable(v, now)
      modifies this
      ensures ok == Evaluated(old(View()), op).Some?
      ensures ok ==> View() == Evaluated(old(View()), op).value
    {
      if op.fee < 0 {
        return false;
      }
      PayFee(op.fee);
      ok := Perform(op);
      if ok {
        ok := AdjustBalance(FeePayer(op), -op.fee);
      }
    }

    method PayFee(fee: int)
      modifies this`accumulatedFees
      ensures View() == Charged(old(View()), fee)
    {
      accumulatedFees := accumulatedFees + fee;
    }

    /**
      * Evaluates one operation: books its fee, performs it, and takes the fee from
      * its payer. When any part fails, or a check outside the ledger does, the
      * undo session puts everything back.
      */
    method Evaluate(op: Operation, accepted: bool) returns (ok: bool)
      requires forall v :: v in vestings ==> Vesting.Askable(v, now)
      modifies this
      ensures ok == (accepted && Evaluated(old(View()), op).Some?)
      ensures View() == if ok then Evaluated(old(View()), op).value else old(View())
    {
      if !accepted {
        return false;
      }
      var session := View();
      ok := Apply(op);
      if !ok {
        Restore(session);
      }
    }

    /** Adds up what really exists, balance object by balance object. */
    method GetRealSupply() returns (balances: int, vested: int)
      ensures balances == SumHoldings(holdings) && vested == SumVestings(vestings)
    {
      balances, vested := 0, 0;
      var left := holdings;
      while left != map[]
        invariant left.Keys <= holdings.Keys && forall a :: a in left ==> left[a] == holdings[a]
        invariant balances + SumHoldings(left) == SumHoldings(holdings)
        decreases |left|
      {
        var a := First(left);
        SumHoldingsRemove(left, a);
        balances := balances + left[a].balance;
        left := left - {a};
      }
      var i := 0;
      while i < |vestings|
        invariant 0 <= i <= |vestings| && vested == SumVestings(vestings[..i])
      {
        assert vestings[..i + 1][..i] == vestings[..i];
        vested := vested + vestings[i].balance;
        i := i + 1;
      }
      assert vestings[..i] == vestings;
    }
  }

  /** Some balance object, as the index hands them out one by one. */
  method First<K(==), V>(m: map<K, V>) returns (k: K)
    requires m != map[]
    ensures k in m
  {
    k :| k in m;
  }

  lemma {:induction false} PayOutputsFails(b: Books, outputs: seq<Output>, n: nat)
    requires n <= |outputs| && PayOutputs(b, outputs[..n]).None?
    ensures PayOutputs(b, outputs).None?
    decreases |outputs| - n
  {
    if n == |outputs| {
      assert outputs[..n] == outputs;
    } else {
      assert outputs[..n + 1][..n] == outputs[..n];
      PayOutputsFails(b, outputs, n + 1);
    }
  }
}
