/**
  * Exactly when each operation on the ledger succeeds, and what it then does to
  * every account, said without the steps of its evaluation.
  */
module Operations {
  import opened Arithmetic
  import opened Ledgers
  import opened Options
  import Vesting

  // ---- Credits and fees ----

  lemma CreditWhen(b: Books, account: nat, delta: int)
    requires Sound(b)
    ensures Credit(b, account, delta).Some? <==> BalanceIn(b.holdings, account) + delta >= 0
    ensures Credit(b, account, delta).Some? ==>
              var c := Credit(b, account, delta).value;
              && Sound(c) && c == b.(holdings := c.holdings)
              && BalanceShift(b, c, Only(account, delta))
  {
    AdjustedEffect(b.holdings, account, delta);
    assert BalanceIn(b.holdings, account) >= 0;
    if Credit(b, account, delta).Some? {
      CreditEffect(b, account, delta);
    }
  }

  lemma ChargedPerformed(b: Books, op: Operation, c: Books)
    requires Sound(b) && Performed(Charged(b, op.fee), op) == Some(c)
    ensures Sound(c) && BalanceIn(c.holdings, FeePayer(op)) == BalanceIn(b.holdings, FeePayer(op)) + Change(op, FeePayer(op))
  {
    var x := Charged(b, op.fee);
    assert Sound(x);
    PerformedEffect(x, op);
    assert BalanceIn(c.holdings, FeePayer(op)) == BalanceIn(x.holdings, FeePayer(op)) + ChangeOf(op)(FeePayer(op));
  }

  /** The fee can be taken when the payer's balance after the operation covers it. */
  lemma FeeWhen(b: Books, op: Operation)
    requires Sound(b)
    ensures Evaluated(b, op).Some? <==>
              && op.fee >= 0 && Performed(Charged(b, op.fee), op).Some?
              && BalanceIn(b.holdings, FeePayer(op)) + Change(op, FeePayer(op)) >= op.fee
  {
    assert Sound(Charged(b, op.fee));
    if op.fee >= 0 && Performed(Charged(b, op.fee), op).Some? {
      var c := Performed(Charged(b, op.fee), op).value;
      ChargedPerformed(b, op, c);
      CreditWhen(c, FeePayer(op), -op.fee);
    }
  }

  /** The fee is booked, the confidential supply changed by `hidden`, and all but the balances is as before. */
  ghost predicate Booked(b: Books, c: Books, hidden: int, fee: int) {
    && c == b.(holdings := c.holdings, vestings := c.vestings, confidentialSupply := b.confidentialSupply + hidden,
               accumulatedFees := b.accumulatedFees + fee)
    && SameVotes(b.holdings, c.holdings)
  }

  lemma Moves(b: Books, op: Operation)
    requires Sound(b) && Evaluated(b, op).Some?
    ensures var c := Evaluated(b, op).value;
            && Booked(b, c, HiddenBy(op), op.fee)
            && forall a: nat :: BalanceIn(c.holdings, a) == BalanceIn(b.holdings, a) + NetChange(op, a)
  {
    OperationEffect(b, op);
    var c := Evaluated(b, op).value;
    forall a: nat ensures BalanceIn(c.holdings, a) == BalanceIn(b.holdings, a) + NetChange(op, a) {
      assert BalanceIn(c.holdings, a) == BalanceIn(b.holdings, a) + NetChangeOf(op)(a);
    }
  }

  // ---- Transfers ----

  lemma TransferPerformed(b: Books, op: Operation)
    requires op.Transfer? && Sound(b)
    ensures Performed(b, op).Some? <==>
              && BalanceIn(b.holdings, op.from) >= op.amount
              && (op.from == op.to || BalanceIn(b.holdings, op.to) + op.amount >= 0)
    ensures Performed(b, op).Some? ==> Performed(b, op).value.vestings == b.vestings
  {
    CreditWhen(b, op.from, -op.amount);
    var c := Credit(b, op.from, -op.amount);
    if c.Some? {
      CreditWhen(c.value, op.to, op.amount);
      assert BalanceIn(c.value.holdings, op.to) == BalanceIn(b.holdings, op.to) + Only(op.from, -op.amount)(op.to);
      assert BalanceIn(b.holdings, op.to) >= 0;
    }
  }

  /**
    * A transfer succeeds exactly when the sender can pay amount and fee; to
    * itself, each of the two. The amount moves, and the fee is the sender's.
    */
  lemma TransferExactly(b: Books, from: nat, to: nat, amount: int, fee: int)
    requires Sound(b)
    ensures var r, has := Evaluated(b, Transfer(from, to, amount, fee)), BalanceIn(b.holdings, from);
            && (r.Some? <==>
                  && fee >= 0
                  && if from == to then has >= amount && has >= fee
                     else has >= amount + fee && BalanceIn(b.holdings, to) + amount >= 0)
            && (r.Some? ==>
                  && Booked(b, r.value, 0, fee) && r.value.vestings == b.vestings
                  && forall a: nat :: BalanceIn(r.value.holdings, a)
                       == BalanceIn(b.holdings, a) + (if a == to then amount else 0) - (if a == from then amount + fee else 0))
  {
    var op := Transfer(from, to, amount, fee);
    assert Sound(Charged(b, fee));
    TransferPerformed(Charged(b, fee), op);
    FeeWhen(b, op);
    if Evaluated(b, op).Some? {
      Moves(b, op);
    }
  }

  // ---- Hidden money ----

  lemma CreditThenHideWhen(b: Books, account: nat, delta: int, hidden: int)
    requires Sound(b)
    ensures CreditThenHide(b, account, delta, hidden).Some?
       <==> BalanceIn(b.holdings, account) + delta >= 0 && b.confidentialSupply + hidden >= 0
    ensures CreditThenHide(b, account, delta, hidden).Some? ==>
              var c := CreditThenHide(b, account, delta, hidden).value;
              && Sound(c) && c == b.(holdings := c.holdings, confidentialSupply := b.confidentialSupply + hidden)
              && BalanceShift(b, c, Only(account, delta))
  {
    CreditWhen(b, account, delta);
    var c := Credit(b, account, delta);
    if c.Some? && b.confidentialSupply + hidden >= 0 {
      assert SoundPay(c.value.(confidentialSupply := b.confidentialSupply + hidden));
    }
  }

  /**
    * Money is hidden exactly when its owner can pay amount and fee, and the
    * confidential supply does not fall below zero. It leaves the account and
    * joins that supply.
    */
  lemma HideExactly(b: Books, op: Operation)
    requires Sound(b) && (op.TransferToBlind? || op.TransferToConfidential?)
    ensures var r := Evaluated(b, op);
            && (r.Some? <==>
                  && op.fee >= 0 && BalanceIn(b.holdings, op.from) >= op.amount + op.fee
                  && b.confidentialSupply + op.amount >= 0)
            && (r.Some? ==>
                  && Booked(b, r.value, op.amount, op.fee) && r.value.vestings == b.vestings
                  && forall a: nat :: BalanceIn(r.value.holdings, a)
                       == BalanceIn(b.holdings, a) - if a == op.from then op.amount + op.fee else 0)
  {
    assert Sound(Charged(b, op.fee));
    CreditThenHideWhen(Charged(b, op.fee), op.from, -op.amount, op.amount);
    FeeWhen(b, op);
    if Evaluated(b, op).Some? {
      Moves(b, op);
    }
  }

  lemma FromBlindPerformed(b: Books, to: nat, amount: int, fee: nat)
    requires Sound(b)
    ensures var has, kept := BalanceIn(b.holdings, to), if to == TEMP_ACCOUNT then fee else 0;
            FromBlind(b, to, amount, fee).Some? <==> has + kept + amount >= 0 && b.confidentialSupply >= amount + fee
    ensures FromBlind(b, to, amount, fee).Some? ==> FromBlind(b, to, amount, fee).value.vestings == b.vestings
  {
    CreditWhen(b, TEMP_ACCOUNT, fee);
    assert BalanceIn(b.holdings, TEMP_ACCOUNT) >= 0;
    var c := Credit(b, TEMP_ACCOUNT, fee).value;
    assert BalanceIn(c.holdings, to) == BalanceIn(b.holdings, to) + Only(TEMP_ACCOUNT, fee)(to);
    CreditThenHideWhen(c, to, amount, -(amount + fee));
  }

  /**
    * Hidden money comes out exactly when the confidential supply covers amount
    * and fee. The amount goes to the account, and the fee comes with it out of
    * the hidden money: no account pays it.
    */
  lemma FromBlindExactly(b: Books, to: nat, amount: int, fee: int)
    requires Sound(b)
    ensures var r := Evaluated(b, TransferFromBlind(to, amount, fee));
            && (r.Some? <==> fee >= 0 && b.confidentialSupply >= amount + fee && BalanceIn(b.holdings, to) + amount >= 0)
            && (r.Some? ==>
                  && Booked(b, r.value, -(amount + fee), fee) && r.value.vestings == b.vestings
                  && forall a: nat :: BalanceIn(r.value.holdings, a) == BalanceIn(b.holdings, a) + if a == to then amount else 0)
  {
    var op := TransferFromBlind(to, amount, fee);
    assert Sound(Charged(b, fee));
    if fee >= 0 {
      FromBlindPerformed(Charged(b, fee), to, amount, fee);
    }
    FeeWhen(b, op);
    assert BalanceIn(b.holdings, TEMP_ACCOUNT) >= 0;
    if Evaluated(b, op).Some? {
      Moves(b, op);
    }
  }

  /** A blind transfer succeeds exactly when the confidential supply covers its fee, and moves nothing else. */
  lemma BlindExactly(b: Books, fee: int)
    requires Sound(b)
    ensures var r := Evaluated(b, BlindTransfer(fee));
            && (r.Some? <==> fee >= 0 && b.confidentialSupply >= fee)
            && (r.Some? ==>
                  && Booked(b, r.value, -fee, fee) && r.value.vestings == b.vestings
                  && forall a: nat :: BalanceIn(r.value.holdings, a) == BalanceIn(b.holdings, a))
  {
    var op := BlindTransfer(fee);
    assert Sound(Charged(b, fee));
    assert BalanceIn(b.holdings, TEMP_ACCOUNT) >= 0;
    CreditThenHideWhen(Charged(b, fee), TEMP_ACCOUNT, fee, -fee);
    FeeWhen(b, op);
    if Evaluated(b, op).Some? {
      Moves(b, op);
    }
  }

  // ---- Several outputs ----

  /** While the first `n` outputs are paid one by one, neither the confidential supply nor any balance falls below zero. */
  ghost predicate Covered(b: Books, outputs: seq<Output>) {
    forall n :: 0 <= n <= |outputs| ==> CoveredAt(b, outputs[..n])
  }

  ghost predicate CoveredAt(b: Books, paid: seq<Output>) {
    && b.confidentialSupply >= PaidInAll(paid)
    && forall a: nat :: BalanceIn(b.holdings, a) + PaidBy(paid, a) >= 0
  }

  lemma CoveredOneMore(b: Books, outputs: seq<Output>)
    requires outputs != []
    ensures Covered(b, outputs) <==> Covered(b, outputs[..|outputs| - 1]) && CoveredAt(b, outputs)
  {
    var before := outputs[..|outputs| - 1];
    assert outputs[..|outputs|] == outputs;
    forall n | 0 <= n <= |before| ensures before[..n] == outputs[..n] { }
  }

  lemma {:induction false} PayOutputsWhen(b: Books, outputs: seq<Output>)
    requires Sound(b) && b.confidentialSupply >= 0
    ensures PayOutputs(b, outputs).Some? <==> Covered(b, outputs)
  {
    if outputs == [] {
      assert forall a: nat :: BalanceIn(b.holdings, a) >= 0;
    } else {
      var before, o := outputs[..|outputs| - 1], outputs[|outputs| - 1];
      PayOutputsWhen(b, before);
      CoveredOneMore(b, outputs);
      if PayOutputs(b, before).Some? {
        LastOutput(b, outputs, o);
      }
    }
  }

  lemma LastOutput(b: Books, outputs: seq<Output>, o: Output)
    requires Sound(b) && outputs != [] && o == outputs[|outputs| - 1]
    requires PayOutputs(b, outputs[..|outputs| - 1]).Some? && Covered(b, outputs[..|outputs| - 1])
    ensures PayOutputs(b, outputs).Some? <==> CoveredAt(b, outputs)
  {
    var before := outputs[..|outputs| - 1];
    var c := PayOutputs(b, before).value;
    PayOutputsEffect(b, before);
    assert before[..|before|] == before && CoveredAt(b, before);
    if o.Open? {
      assert BalanceIn(c.holdings, o.to) == BalanceIn(b.holdings, o.to) + PaidOf(before)(o.to);
      CreditThenHideWhen(c, o.to, o.amount, -o.amount);
    }
  }

  /** The same with the fee, which lies in the temporary account meanwhile. */
  ghost predicate CoveredWith(b: Books, fee: int, paid: seq<Output>) {
    && b.confidentialSupply >= fee + PaidInAll(paid)
    && forall a: nat :: BalanceIn(b.holdings, a) + (if a == TEMP_ACCOUNT then fee else 0) + PaidBy(paid, a) >= 0
  }

  lemma FeeCovered(b: Books, c: Books, fee: int, paid: seq<Output>)
    requires c.confidentialSupply == b.confidentialSupply - fee && BalanceShift(b, c, Only(TEMP_ACCOUNT, fee))
    ensures CoveredWith(b, fee, paid) <==> CoveredAt(c, paid)
  {
    assert forall a: nat :: BalanceIn(c.holdings, a) == BalanceIn(b.holdings, a) + Only(TEMP_ACCOUNT, fee)(a);
  }

  lemma FromConfidentialPerformed(b: Books, outputs: seq<Output>, fee: nat)
    requires Sound(b)
    ensures FromConfidential(b, outputs, fee).Some? <==> forall n :: 0 <= n <= |outputs| ==> CoveredWith(b, fee, outputs[..n])
    ensures FromConfidential(b, outputs, fee).Some? ==> FromConfidential(b, outputs, fee).value.vestings == b.vestings
  {
    CreditThenHideWhen(b, TEMP_ACCOUNT, fee, 0 - fee);
    assert BalanceIn(b.holdings, TEMP_ACCOUNT) >= 0;
    assert outputs[..0] == [];
    if b.confidentialSupply >= fee {
      var c := CreditThenHide(b, TEMP_ACCOUNT, fee, 0 - fee).value;
      forall n | 0 <= n <= |outputs| ensures CoveredWith(b, fee, outputs[..n]) <==> CoveredAt(c, outputs[..n]) {
        FeeCovered(b, c, fee, outputs[..n]);
      }
      PayOutputsWhen(c, outputs);
      if PayOutputs(c, outputs).Some? {
        PayOutputsEffect(c, outputs);
      }
    } else {
      assert !CoveredWith(b, fee, outputs[..0]);
    }
  }

  /**
    * A confidential transfer succeeds exactly when neither the confidential supply
    * nor any balance falls below zero while fee and outputs come out one by one.
    * Every open output goes to its account, and no account pays the fee.
    */
  lemma FromConfidentialExactly(b: Books, outputs: seq<Output>, fee: int)
    requires Sound(b)
    ensures var r := Evaluated(b, TransferFromConfidential(outputs, fee));
            && (r.Some? <==>
                  && fee >= 0 && (forall n :: 0 <= n <= |outputs| ==> CoveredWith(b, fee, outputs[..n]))
                  && BalanceIn(b.holdings, TEMP_ACCOUNT) + PaidBy(outputs, TEMP_ACCOUNT) >= 0)
            && (r.Some? ==>
                  && Booked(b, r.value, -fee - PaidInAll(outputs), fee) && r.value.vestings == b.vestings
                  && forall a: nat :: BalanceIn(r.value.holdings, a) == BalanceIn(b.holdings, a) + PaidBy(outputs, a))
  {
    var op := TransferFromConfidential(outputs, fee);
    assert Sound(Charged(b, fee));
    if fee >= 0 {
      FromConfidentialPerformed(Charged(b, fee), outputs, fee);
      forall n | 0 <= n <= |outputs| ensures CoveredWith(Charged(b, fee), fee, outputs[..n]) <==> CoveredWith(b, fee, outputs[..n]) { }
    }
    FeeWhen(b, op);
    if Evaluated(b, op).Some? {
      Moves(b, op);
    }
  }

  /** When no output is negative, that is when the confidential supply covers the fee and all outputs. */
  lemma OutputsExactly(b: Books, outputs: seq<Output>, fee: int)
    requires Sound(b) && forall i :: 0 <= i < |outputs| && outputs[i].Open? ==> outputs[i].amount >= 0
    ensures Evaluated(b, TransferFromConfidential(outputs, fee)).Some?
       <==> fee >= 0 && b.confidentialSupply >= fee + PaidInAll(outputs)
  {
    FromConfidentialExactly(b, outputs, fee);
    assert outputs[..|outputs|] == outputs;
    PaidNotNegative(outputs, |outputs|);
    if fee >= 0 {
      forall n | 0 <= n <= |outputs|
        ensures CoveredWith(b, fee, outputs[..n]) <==> b.confidentialSupply >= fee + PaidInAll(outputs[..n])
        ensures PaidInAll(outputs[..n]) <= PaidInAll(outputs)
      {
        PaidNotNegative(outputs, n);
        BalancesCovered(b, fee, outputs[..n]);
      }
    }
  }

  lemma BalancesCovered(b: Books, fee: nat, paid: seq<Output>)
    requires SoundHoldings(b.holdings) && forall a: nat :: PaidBy(paid, a) >= 0
    ensures CoveredWith(b, fee, paid) <==> b.confidentialSupply >= fee + PaidInAll(paid)
  {
  }

  lemma {:induction false} PaidNotNegative(outputs: seq<Output>, n: nat)
    requires n <= |outputs| && forall i :: 0 <= i < |outputs| && outputs[i].Open? ==> outputs[i].amount >= 0
    ensures forall a: nat :: PaidBy(outputs[..n], a) >= 0
    ensures PaidInAll(outputs[..n]) <= PaidInAll(outputs)
    decreases |outputs|, n
  {
    var last := |outputs| - 1;
    if n == 0 {
      assert outputs[..0] == [];
      if outputs != [] {
        PaidNotNegative(outputs[..last], 0);
        assert outputs[..last][..0] == [];
      }
    } else if n <= last {
      PaidNotNegative(outputs[..last], n);
      assert outputs[..last][..n] == outputs[..n];
    } else {
      PaidNotNegative(outputs[..last], last);
      assert outputs[..n] == outputs && outputs[..last][..last] == outputs[..last];
    }
  }

  // ---- Vesting balances ----

  /**
    * A vesting balance is created exactly when the amount is positive and its
    * creator can pay amount and fee. It starts with the whole amount, of which
    * nothing has been earned or taken yet.
    */
  lemma CreateExactly(b: Books, creator: nat, owner: nat, amount: int, policy: Vesting.Policy, fee: int)
    requires Sound(b)
    ensures var r := Evaluated(b, VestingCreate(creator, owner, amount, policy, fee));
            && (r.Some? <==> fee >= 0 && amount > 0 && BalanceIn(b.holdings, creator) >= amount + fee)
            && (r.Some? ==>
                  && Booked(b, r.value, 0, fee)
                  && (forall a: nat :: BalanceIn(r.value.holdings, a)
                       == BalanceIn(b.holdings, a) - if a == creator then amount + fee else 0)
                  && r.value.vestings == b.vestings + [Vesting.State(owner, amount, match policy
                       case Linear(begin, cliff, duration, _) => Vesting.Linear(begin, cliff, duration, amount)
                       case CoinSeconds(seconds, _, startClaim, _) => Vesting.CoinSeconds(seconds, 0, startClaim, b.now))])
  {
    var op := VestingCreate(creator, owner, amount, policy, fee);
    assert Sound(Charged(b, fee));
    CreditWhen(Charged(b, fee), creator, -amount);
    FeeWhen(b, op);
    if Evaluated(b, op).Some? {
      Moves(b, op);
    }
  }

  lemma WithdrawPerformed(b: Books, owner: nat, vesting: nat, amount: int)
    requires Sound(b)
    ensures TakeVesting(b, owner, vesting, amount).Some? <==>
              && vesting < |b.vestings| && b.vestings[vesting].owner == owner
              && amount <= Vesting.AllowedWithdraw(b.vestings[vesting], b.now)
              && BalanceIn(b.holdings, owner) + amount >= 0
    ensures TakeVesting(b, owner, vesting, amount).Some? ==>
              TakeVesting(b, owner, vesting, amount).value.vestings
              == b.vestings[vesting := Vesting.Withdrawn(b.vestings[vesting], b.now, amount)]
  {
    if vesting < |b.vestings| && Vesting.IsWithdrawAllowed(b.vestings[vesting], b.now, amount) {
      AdjustedEffect(b.holdings, owner, amount);
      assert BalanceIn(b.holdings, owner) >= 0;
    }
  }

  /**
    * A withdrawal succeeds exactly when the vesting balance exists, is the
    * owner's, and allows the amount, and the owner can then pay the fee. The
    * amount moves from that vesting balance to its owner.
    */
  lemma WithdrawExactly(b: Books, owner: nat, vesting: nat, amount: int, fee: int)
    requires Sound(b)
    ensures var r := Evaluated(b, VestingWithdraw(owner, vesting, amount, fee));
            && (r.Some? <==>
                  && fee >= 0 && vesting < |b.vestings| && b.vestings[vesting].owner == owner
                  && amount <= Vesting.AllowedWithdraw(b.vestings[vesting], b.now)
                  && BalanceIn(b.holdings, owner) + amount >= fee)
            && (r.Some? ==>
                  && Booked(b, r.value, 0, fee)
                  && (forall a: nat :: BalanceIn(r.value.holdings, a)
                       == BalanceIn(b.holdings, a) + if a == owner then amount - fee else 0)
                  && r.value.vestings == b.vestings[vesting := Vesting.Withdrawn(b.vestings[vesting], b.now, amount)]
                  && r.value.vestings[vesting].balance == b.vestings[vesting].balance - amount)
  {
    var op := VestingWithdraw(owner, vesting, amount, fee);
    assert Sound(Charged(b, fee));
    WithdrawPerformed(Charged(b, fee), owner, vesting, amount);
    FeeWhen(b, op);
    if Evaluated(b, op).Some? {
      Moves(b, op);
    }
  }

  /** Any other operation succeeds, as far as the ledger goes, exactly when its payer can pay the fee. */
  lemma OtherExactly(b: Books, payer: nat, fee: int)
    requires Sound(b)
    ensures var r := Evaluated(b, Other(payer, fee));
            && (r.Some? <==> fee >= 0 && BalanceIn(b.holdings, payer) >= fee)
            && (r.Some? ==>
                  && Booked(b, r.value, 0, fee) && r.value.vestings == b.vestings
                  && forall a: nat :: BalanceIn(r.value.holdings, a) == BalanceIn(b.holdings, a) - if a == payer then fee else 0)
  {
    var op := Other(payer, fee);
    FeeWhen(b, op);
    if Evaluated(b, op).Some? {
      Moves(b, op);
    }
  }
}
