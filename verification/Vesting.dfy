/**
  * Vesting balances: money held back and released either linearly over a fixed
  * period, or by coin-seconds, which accrue lazily while money is held, up to a
  * cap, and are spent when it is withdrawn.
  */
module Vesting {
  import opened Arithmetic
  import opened Options

  datatype Policy =
    | Linear(begin: int, cliff: nat, duration: nat, beginBalance: int)
    | CoinSeconds(seconds: nat, earned: int, startClaim: int, lastUpdate: int)

  datatype State = State(owner: nat, balance: int, policy: Policy)

  // ---- The coin-second policy ----

  /** A period lasts a second at least. */
  function Period(seconds: nat): (v: nat)
    ensures v >= 1 && v >= seconds
    ensures v == 1 || v == seconds
  {
    if seconds > 1 then seconds else 1
  }

  function Min(a: int, b: int): int {
    if a < b then a else b
  }

  /** The coin-seconds earned by time `now`, without recording them. */
  function Computed(v: State, now: int): int
    requires v.policy.CoinSeconds? && now >= v.policy.lastUpdate
  {
    Min(v.policy.earned + v.balance * (now - v.policy.lastUpdate), v.balance * Period(v.policy.seconds))
  }

  /** The state after the coin-seconds earned by `now` are recorded. */
  function Updated(v: State, now: int): State
    requires v.policy.CoinSeconds? && now >= v.policy.lastUpdate
  {
    v.(policy := v.policy.(earned := Computed(v, now), lastUpdate := now))
  }

  // ---- The linear policy ----

  /** How much of a linear balance has vested after `elapsed` seconds; nothing before the cliff. */
  function Vested(p: Policy, elapsed: int): int
    requires p.Linear?
  {
    if elapsed <= 0 || elapsed < p.cliff then 0
    else if elapsed < p.duration then p.beginBalance * elapsed / p.duration
    else p.beginBalance
  }

  // ---- Both ----

  /** A moment the state can be asked about: a coin-second balance never looks back. */
  predicate Askable(v: State, now: int) {
    v.policy.CoinSeconds? ==> now >= v.policy.lastUpdate
  }

  function AllowedWithdraw(v: State, now: int): int
    requires Askable(v, now)
  {
    match v.policy
    case Linear(begin, cliff, _, beginBalance) =>
      if now > begin && now - begin >= cliff then
        Vested(v.policy, now - begin) - (beginBalance - v.balance)
      else
        0
    case CoinSeconds(seconds, _, startClaim, _) =>
      if now <= startClaim then 0 else Computed(v, now) / Period(seconds)
  }

  predicate IsWithdrawAllowed(v: State, now: int, amount: int)
    requires Askable(v, now)
  {
    amount <= AllowedWithdraw(v, now)
  }

  function Deposited(v: State, now: int, amount: int): State
    requires Askable(v, now)
  {
    var u := if v.policy.CoinSeconds? then Updated(v, now) else v;
    u.(balance := u.balance + amount)
  }

  /** Nothing when the policy refuses deposits that vest at once. */
  function DepositedVested(v: State, now: int, amount: int): Option<State>
    requires Askable(v, now)
  {
    if v.policy.Linear? then None
    else
      var u := Updated(v, now);
      var more := u.policy.earned + amount * Period(u.policy.seconds);
      Some(u.(balance := u.balance + amount, policy := u.policy.(earned := more)))
  }

  function Withdrawn(v: State, now: int, amount: int): State
    requires Askable(v, now)
  {
    if v.policy.Linear? then v.(balance := v.balance - amount)
    else
      var u := Updated(v, now);
      var less := u.policy.earned - amount * Period(u.policy.seconds);
      u.(balance := u.balance - amount, policy := u.policy.(earned := less))
  }

  /** The vesting object as the chain keeps and changes it. */
  class VestingBalance {
    var owner: nat
    var balance: int
    var policy: Policy

    constructor (owner: nat, balance: int, policy: Policy)
      ensures Contents() == State(owner, balance, policy)
    {
      this.owner, this.balance, this.policy := owner, balance, policy;
    }

    function Contents(): State
      reads this
    {
      State(owner, balance, policy)
    }

    method UpdateCoinSeconds(now: int)
      requires policy.CoinSeconds? && Askable(Contents(), now)
      modifies this`policy
      ensures Contents() == Updated(old(Contents()), now)
    {
      var delta := now - policy.lastUpdate;
      var cap := balance * Period(policy.seconds);
      policy := policy.(earned := Min(policy.earned + balance * delta, cap));
      policy := policy.(lastUpdate := now);
    }

    method Deposit(now: int, amount: int)
      requires Askable(Contents(), now)
      modifies this`policy, this`balance
      ensures Contents() == Deposited(old(Contents()), now, amount)
    {
      if policy.CoinSeconds? {
        UpdateCoinSeconds(now);
      }
      balance := balance + amount;
    }

    method DepositVested(now: int, amount: int) returns (ok: bool)
      requires Askable(Contents(), now)
      modifies this`policy, this`balance
      ensures var after := DepositedVested(old(Contents()), now, amount);
              ok == after.Some? && Contents() == if ok then after.value else old(Contents())
    {
      if policy.Linear? {
        return false;
      }
      UpdateCoinSeconds(now);
      policy := policy.(earned := policy.earned + amount * Period(policy.seconds));
      balance := balance + amount;
      return true;
    }

    method Withdraw(now: int, amount: int)
      requires Askable(Contents(), now)
      modifies this`policy, this`balance
      ensures Contents() == Withdrawn(old(Contents()), now, amount)
    {
      if policy.CoinSeconds? {
        UpdateCoinSeconds(now);
        policy := policy.(earned := policy.earned - amount * Period(policy.seconds));
      }
      balance := balance - amount;
    }
  }

  // ---- Runs ----

  datatype Action = Update | Deposit(amount: nat) | DepositVested(amount: nat) | Withdraw(amount: nat)

  datatype Event = Event(time: int, action: Action)

  /** One event; a withdrawal that is not allowed is refused and changes nothing. */
  function Step(v: State, e: Event): State
    requires Askable(v, e.time)
  {
    match e.action
    case Update => if v.policy.CoinSeconds? then Updated(v, e.time) else v
    case Deposit(a) => Deposited(v, e.time, a)
    case DepositVested(a) => if v.policy.Linear? then v else DepositedVested(v, e.time, a).value
    case Withdraw(a) => if IsWithdrawAllowed(v, e.time, a) then Withdrawn(v, e.time, a) else v
  }

  /** The events come in time order, from `clock` on. */
  predicate Ordered(clock: int, events: seq<Event>)
    decreases |events|
  {
    events == [] || (clock <= events[0].time && Ordered(events[0].time, events[1..]))
  }

  function EndTime(clock: int, events: seq<Event>): int
    decreases |events|
  {
    if events == [] then clock else EndTime(events[0].time, events[1..])
  }

  predicate Timely(v: State, clock: int, events: seq<Event>) {
    Askable(v, clock) && Ordered(clock, events)
  }

  function Run(v: State, clock: int, events: seq<Event>): (w: State)
    requires Timely(v, clock, events)
    ensures Askable(w, EndTime(clock, events))
    ensures w.policy.Linear? == v.policy.Linear?
    decreases |events|
  {
    if events == [] then v else Run(Step(v, events[0]), events[0].time, events[1..])
  }

  /** The time-integral of the balance over a run. */
  function Held(v: State, clock: int, events: seq<Event>): int
    requires Timely(v, clock, events)
    decreases |events|
  {
    if events == [] then 0
    else v.balance * (events[0].time - clock) + Held(Step(v, events[0]), events[0].time, events[1..])
  }

  /** What one event pays out. */
  function TakenBy(v: State, e: Event): nat
    requires Askable(v, e.time)
  {
    if e.action.Withdraw? && IsWithdrawAllowed(v, e.time, e.action.amount) then e.action.amount else 0
  }

  /** Everything a run pays out. */
  function Taken(v: State, clock: int, events: seq<Event>): nat
    requires Timely(v, clock, events)
    decreases |events|
  {
    if events == [] then 0
    else TakenBy(v, events[0]) + Taken(Step(v, events[0]), events[0].time, events[1..])
  }

  /** Deposits that vest at once. */
  function GivenVested(events: seq<Event>): nat {
    if events == [] then 0
    else (if events[0].action.DepositVested? then events[0].action.amount else 0) + GivenVested(events[1..])
  }

  /** Ordinary deposits. */
  function Given(events: seq<Event>): nat {
    if events == [] then 0
    else (if events[0].action.Deposit? then events[0].action.amount else 0) + Given(events[1..])
  }

  // ---- Coin-seconds: the cap, and nothing from nothing ----

  predicate Capped(v: State) {
    v.policy.CoinSeconds? && v.balance >= 0 && 0 <= v.policy.earned <= v.balance * Period(v.policy.seconds)
  }

  lemma UpdatedCapped(v: State, now: int)
    requires Capped(v) && Askable(v, now)
    ensures Capped(Updated(v, now))
    ensures Computed(Updated(v, now), now) == Computed(v, now)
    ensures v.policy.earned <= Computed(v, now)
  {
    MulOrder(0, v.balance, now - v.policy.lastUpdate);
    MulOrder(0, v.balance, Period(v.policy.seconds));
  }

  /** A withdrawal that is allowed never asks for more than the balance, or for more coin-seconds than there are. */
  lemma AllowedIsCovered(v: State, now: int, amount: nat)
    requires Capped(v) && Askable(v, now) && IsWithdrawAllowed(v, now, amount)
    ensures amount <= v.balance
    ensures amount * Period(v.policy.seconds) <= Updated(v, now).policy.earned
  {
    var period, earned := Period(v.policy.seconds), Computed(v, now);
    UpdatedCapped(v, now);
    if now <= v.policy.startClaim {
      assert amount == 0;
    } else {
      Covers(amount, earned, v.balance, period);
    }
  }

  lemma Covers(amount: nat, earned: int, balance: int, period: nat)
    requires period > 0 && amount <= earned / period && earned <= balance * period
    ensures amount * period <= earned && amount <= balance
  {
    MulOrder(amount, earned / period, period);
    StepApart(amount, balance, period);
  }

  /** What one event does to the balance and to the recorded coin-seconds; nothing else changes. */
  lemma StepAccounts(v: State, e: Event)
    requires Capped(v) && Askable(v, e.time)
    ensures var w, period := Step(v, e), Period(v.policy.seconds);
            var given := if e.action.DepositVested? then e.action.amount else 0;
            var added := if e.action.Deposit? then e.action.amount else 0;
            && Capped(w) && Askable(w, e.time) && w.owner == v.owner
            && w.policy == v.policy.(earned := w.policy.earned, lastUpdate := w.policy.lastUpdate)
            && w.balance == v.balance + added + given - TakenBy(v, e)
            && TakenBy(v, e) * period + Computed(w, e.time) == Computed(v, e.time) + given * period
  {
    UpdatedCapped(v, e.time);
    match e.action
    case Update =>
    case Deposit(a) => DepositAccounts(v, e.time, a);
    case DepositVested(a) => DepositVestedAccounts(v, e.time, a);
    case Withdraw(a) =>
      if IsWithdrawAllowed(v, e.time, a) {
        WithdrawAccounts(v, e.time, a);
      }
  }

  lemma DepositAccounts(v: State, now: int, a: nat)
    requires Capped(v) && Askable(v, now)
    ensures var w := Deposited(v, now, a); Capped(w) && Computed(w, now) == Computed(v, now)
  {
    UpdatedCapped(v, now);
    MulOrder(v.balance, v.balance + a, Period(v.policy.seconds));
    UpdatedCapped(Deposited(v, now, a), now);
  }

  lemma DepositVestedAccounts(v: State, now: int, a: nat)
    requires Capped(v) && Askable(v, now)
    ensures var w := DepositedVested(v, now, a).value;
            Capped(w) && Computed(w, now) == Computed(v, now) + a * Period(v.policy.seconds)
  {
    var w, period := DepositedVested(v, now, a).value, Period(v.policy.seconds);
    UpdatedCapped(v, now);
    Distribute(v.balance, a, period);
    MulOrder(0, a, period);
    NothingMore(w, now);
  }

  lemma WithdrawAccounts(v: State, now: int, a: nat)
    requires Capped(v) && Askable(v, now) && IsWithdrawAllowed(v, now, a)
    ensures var w := Withdrawn(v, now, a);
            Capped(w) && a * Period(v.policy.seconds) + Computed(w, now) == Computed(v, now)
  {
    var w, period := Withdrawn(v, now, a), Period(v.policy.seconds);
    UpdatedCapped(v, now);
    AllowedIsCovered(v, now, a);
    Distribute(v.balance - a, a, period);
    NothingMore(w, now);
  }

  /** No time has passed since the last update: what is recorded is what there is. */
  lemma NothingMore(w: State, now: int)
    requires Capped(w) && w.policy.lastUpdate == now
    ensures Computed(w, now) == w.policy.earned
  {
  }

  /** What the cap cuts off between two times without an event. */
  function Spilled(v: State, clock: int, now: int): nat
    requires v.policy.CoinSeconds? && Askable(v, clock)
  {
    var over := Computed(v, clock) + v.balance * (now - clock) - v.balance * Period(v.policy.seconds);
    if over > 0 then over else 0
  }

  /** Between events exactly the balance times the elapsed time is earned, but for what the cap cuts off. */
  lemma Accrual(v: State, clock: int, now: int)
    requires Capped(v) && Askable(v, clock) && clock <= now
    ensures Computed(v, now) + Spilled(v, clock, now) == Computed(v, clock) + v.balance * (now - clock)
  {
    var b, before, after := v.balance, clock - v.policy.lastUpdate, now - clock;
    assert b * (before + after) == b * before + b * after;
    MulOrder(0, b, after);
  }

  /** What the cap cuts off over a run. */
  function Lost(v: State, clock: int, events: seq<Event>): nat
    requires v.policy.CoinSeconds? && Timely(v, clock, events)
    decreases |events|
  {
    if events == [] then 0
    else Spilled(v, clock, events[0].time) + Lost(Step(v, events[0]), events[0].time, events[1..])
  }

  /**
    * Over any run the cap holds, and no coin-second comes from nowhere or goes
    * nowhere: what was withdrawn, what is left and what the cap cut off are what
    * there was, the time-integral of the balance, and the deposits that vested at
    * once.
    */
  lemma {:induction false} CoinSecondsKept(v: State, clock: int, events: seq<Event>)
    requires Capped(v) && Timely(v, clock, events)
    ensures var w, period := Run(v, clock, events), Period(v.policy.seconds);
            && Capped(w) && w.policy.seconds == v.policy.seconds
            && Taken(v, clock, events) * period + Computed(w, EndTime(clock, events)) + Lost(v, clock, events)
               == Computed(v, clock) + Held(v, clock, events) + GivenVested(events) * period
    decreases |events|
  {
    if events == [] {
    } else {
      var e, period := events[0], Period(v.policy.seconds);
      var w := Step(v, e);
      Accrual(v, clock, e.time);
      StepAccounts(v, e);
      CoinSecondsKept(w, e.time, events[1..]);
      var taken, given := TakenBy(v, e), if e.action.DepositVested? then e.action.amount else 0;
      Distribute(taken, Taken(w, e.time, events[1..]), period);
      Distribute(given, GivenVested(events[1..]), period);
    }
  }

  /** So no run earns more than the time-integral of its balance, and it earns all of it exactly when the cap cuts nothing off. */
  lemma CoinSecondsBound(v: State, clock: int, events: seq<Event>)
    requires Capped(v) && Timely(v, clock, events)
    ensures var period := Period(v.policy.seconds);
            var out := Taken(v, clock, events) * period + Computed(Run(v, clock, events), EndTime(clock, events));
            var earned := Computed(v, clock) + Held(v, clock, events) + GivenVested(events) * period;
            out <= earned && (out == earned <==> Lost(v, clock, events) == 0)
  {
    CoinSecondsKept(v, clock, events);
  }

  // ---- What may be withdrawn ----

  /** A withdrawal is allowed exactly when claims have begun and it is covered by the balance and by coin-seconds. */
  lemma AllowedExactly(v: State, now: int, amount: nat)
    requires Capped(v) && Askable(v, now)
    ensures var earned, period := v.policy.earned + v.balance * (now - v.policy.lastUpdate), Period(v.policy.seconds);
            IsWithdrawAllowed(v, now, amount) <==>
              amount == 0 || (now > v.policy.startClaim && amount <= v.balance && amount * period <= earned)
  {
    var earned, period := Computed(v, now), Period(v.policy.seconds);
    UpdatedCapped(v, now);
    Quotient(earned, period);
    if IsWithdrawAllowed(v, now, amount) {
      AllowedIsCovered(v, now, amount);
    } else if now > v.policy.startClaim {
      StepApart(amount, earned / period, period);
      if amount <= v.balance {
        MulOrder(amount, v.balance, period);
      }
    }
  }

  /** Money that has lain for a whole period is free, all of it. */
  lemma HeldIsFree(v: State, now: int)
    requires Capped(v) && now >= v.policy.lastUpdate + Period(v.policy.seconds) && now > v.policy.startClaim
    ensures AllowedWithdraw(v, now) == v.balance
  {
    var period := Period(v.policy.seconds);
    MulOrder(period, now - v.policy.lastUpdate, v.balance);
    DivUnique(v.balance * period, v.balance, 0, period);
  }

  // ---- Coin-seconds: updates are invisible ----

  /** Recording the coin-seconds at `middle` changes nothing seen later. */
  lemma SplitIndependence(v: State, middle: int, now: int)
    requires Capped(v) && Askable(v, middle) && middle <= now
    ensures Updated(Updated(v, middle), now) == Updated(v, now)
  {
    var b, before, after := v.balance, middle - v.policy.lastUpdate, now - middle;
    assert b * (before + after) == b * before + b * after;
    MulOrder(0, b, after);
  }

  /** At time `now` the two states cannot be told apart. */
  predicate Alike(v: State, u: State, now: int) {
    && Capped(v) && Capped(u) && Askable(v, now) && Askable(u, now)
    && Updated(v, now) == Updated(u, now)
  }

  lemma AlikeLater(v: State, u: State, clock: int, now: int)
    requires Alike(v, u, clock) && clock <= now
    ensures Alike(v, u, now)
    ensures AllowedWithdraw(v, now) == AllowedWithdraw(u, now)
  {
    SplitIndependence(v, clock, now);
    SplitIndependence(u, clock, now);
  }

  function WithoutUpdates(events: seq<Event>): seq<Event> {
    if events == [] then []
    else if events[0].action.Update? then WithoutUpdates(events[1..])
    else [events[0]] + WithoutUpdates(events[1..])
  }

  lemma {:induction false} WithoutUpdatesOrdered(clock: int, events: seq<Event>)
    requires Ordered(clock, events)
    ensures Ordered(clock, WithoutUpdates(events))
    ensures clock <= EndTime(clock, WithoutUpdates(events)) <= EndTime(clock, events)
    decreases |events|
  {
    if events == [] {
    } else {
      WithoutUpdatesOrdered(events[0].time, events[1..]);
      var rest := WithoutUpdates(events[1..]);
      if events[0].action.Update? {
        assert Ordered(clock, rest);
        assert rest != [] ==> EndTime(clock, rest) == EndTime(events[0].time, rest);
      } else {
        assert ([events[0]] + rest)[1..] == rest;
      }
    }
  }

  /** Extra updates change neither the payouts of a run nor anything seen after it. */
  lemma {:induction false} UpdatesInvisible(v: State, u: State, clock: int, since: int, events: seq<Event>)
    requires Alike(v, u, clock) && Timely(v, clock, events)
    requires since <= clock && Askable(u, since) && Ordered(since, WithoutUpdates(events))
    ensures Taken(v, clock, events) == Taken(u, since, WithoutUpdates(events))
    ensures Alike(Run(v, clock, events), Run(u, since, WithoutUpdates(events)), EndTime(clock, events))
    decreases |events|
  {
    if events == [] {
    } else {
      var e, rest := events[0], WithoutUpdates(events[1..]);
      AlikeLater(v, u, clock, e.time);
      StepAccounts(v, e);
      if e.action.Update? {
        SplitIndependence(v, e.time, e.time);
        UpdatesInvisible(Step(v, e), u, e.time, since, events[1..]);
      } else {
        assert ([e] + rest)[1..] == rest;
        StepAccounts(u, e);
        StepAlike(v, u, e);
        UpdatesInvisible(Step(v, e), Step(u, e), e.time, e.time, events[1..]);
      }
    }
  }

  lemma StepAlike(v: State, u: State, e: Event)
    requires Alike(v, u, e.time) && Capped(Step(v, e)) && Capped(Step(u, e))
    ensures Alike(Step(v, e), Step(u, e), e.time)
    ensures TakenBy(v, e) == TakenBy(u, e)
  {
  }

  // ---- Linear balances: when the asserts hold ----

  /** Past the cliff the source asserts three things before it answers. */
  predicate AssertsHold(v: State, now: int)
    requires v.policy.Linear?
  {
    var p := v.policy;
    now > p.begin && now - p.begin >= p.cliff ==>
      && Vested(p, now - p.begin) >= 0
      && p.beginBalance - v.balance >= 0
      && Vested(p, now - p.begin) - (p.beginBalance - v.balance) >= 0
  }

  /**
    * Nothing of a linear balance has vested before its cliff, all of it when the
    * period is over, and in between its part of the period, rounded down.
    */
  lemma VestedExactly(p: Policy, elapsed: int)
    requires p.Linear?
    ensures elapsed <= 0 || elapsed < p.cliff ==> Vested(p, elapsed) == 0
    ensures elapsed > 0 && p.cliff <= elapsed < p.duration ==>
              Vested(p, elapsed) * p.duration <= p.beginBalance * elapsed < (Vested(p, elapsed) + 1) * p.duration
    ensures elapsed > 0 && elapsed >= p.cliff && elapsed >= p.duration ==> Vested(p, elapsed) == p.beginBalance
  {
    if elapsed > 0 && p.cliff <= elapsed < p.duration {
      Parts(p.beginBalance * elapsed, p.duration);
      Distribute(Vested(p, elapsed), 1, p.duration);
    }
  }

  /**
    * A withdrawal from a linear balance is allowed exactly when the cliff is behind
    * and it is covered, with what is out already, by what has vested.
    */
  lemma LinearAllowedExactly(v: State, now: int, amount: nat)
    requires v.policy.Linear?
    ensures var p, elapsed := v.policy, now - v.policy.begin;
            var out := amount + (p.beginBalance - v.balance);
            IsWithdrawAllowed(v, now, amount) <==>
              if elapsed <= 0 || elapsed < p.cliff then amount == 0
              else if elapsed < p.duration then out * p.duration <= p.beginBalance * elapsed
              else amount <= v.balance
  {
    var p, elapsed := v.policy, now - v.policy.begin;
    var out := amount + (p.beginBalance - v.balance);
    if elapsed > 0 && p.cliff <= elapsed < p.duration {
      VestedExactly(p, elapsed);
      Parts(p.beginBalance * elapsed, p.duration);
      if out <= Vested(p, elapsed) {
        MulOrder(out, Vested(p, elapsed), p.duration);
      } else {
        MulOrder(Vested(p, elapsed) + 1, out, p.duration);
      }
    }
  }

  lemma VestedBounds(p: Policy, elapsed: int, later: int)
    requires p.Linear? && p.beginBalance >= 0 && elapsed <= later
    ensures 0 <= Vested(p, elapsed) <= Vested(p, later) <= p.beginBalance
  {
    if 0 < elapsed && elapsed >= p.cliff && elapsed < p.duration {
      Portion(p.beginBalance, elapsed, p.duration);
    }
    if 0 < later && later >= p.cliff && later < p.duration {
      Portion(p.beginBalance, later, p.duration);
      MulOrder(elapsed, later, p.beginBalance);
      DivOrder(p.beginBalance * elapsed, p.beginBalance * later, p.duration);
    }
  }

  lemma Portion(total: nat, part: nat, whole: nat)
    requires part <= whole && whole > 0
    ensures 0 <= total * part
    ensures 0 <= total * part / whole <= total
  {
    MulOrder(part, whole, total);
    QuotientBound(total * part, total, whole);
  }

  /** What every run keeps of a linear balance: never more is out than has vested. */
  predicate Honest(v: State, now: int) {
    && v.policy.Linear? && v.policy.beginBalance >= 0
    && v.policy.beginBalance - v.balance <= Vested(v.policy, now - v.policy.begin)
  }

  lemma {:induction false} LinearRun(v: State, clock: int, events: seq<Event>)
    requires Honest(v, clock) && Timely(v, clock, events)
    ensures var w := Run(v, clock, events);
            && Honest(w, EndTime(clock, events)) && w.policy == v.policy
            && w.balance == v.balance + Given(events) - Taken(v, clock, events)
    decreases |events|
  {
    if events == [] {
    } else {
      var e := events[0];
      VestedBounds(v.policy, clock - v.policy.begin, e.time - v.policy.begin);
      LinearRun(Step(v, e), e.time, events[1..]);
    }
  }

  /**
    * From a fresh linear balance, after any run of deposits and withdrawals, the
    * asserts hold if and only if the cliff is still ahead or no more was
    * deposited than withdrawn.
    */
  lemma LinearAsserts(v: State, clock: int, events: seq<Event>, now: int)
    requires v.policy.Linear? && v.balance == v.policy.beginBalance >= 0
    requires Timely(v, clock, events) && EndTime(clock, events) <= now
    ensures AssertsHold(Run(v, clock, events), now) <==>
            || now <= v.policy.begin || now - v.policy.begin < v.policy.cliff
            || Given(events) <= Taken(v, clock, events)
  {
    VestedBounds(v.policy, clock - v.policy.begin, clock - v.policy.begin);
    LinearRun(v, clock, events);
    VestedBounds(v.policy, EndTime(clock, events) - v.policy.begin, now - v.policy.begin);
  }

  /** So with withdrawals alone they never fire, and an allowed withdrawal is covered by the balance. */
  lemma WithdrawOnlyAsserts(v: State, clock: int, events: seq<Event>, now: int, amount: nat)
    requires v.policy.Linear? && v.balance == v.policy.beginBalance >= 0
    requires Timely(v, clock, events) && EndTime(clock, events) <= now
    requires forall i :: 0 <= i < |events| ==> events[i].action.Withdraw?
    ensures var w := Run(v, clock, events);
            && AssertsHold(w, now)
            && (IsWithdrawAllowed(w, now, amount) ==> amount <= w.balance)
  {
    NothingGiven(events);
    LinearAsserts(v, clock, events, now);
    LinearRun(v, clock, events) by { VestedBounds(v.policy, clock - v.policy.begin, clock - v.policy.begin); }
    VestedBounds(v.policy, now - v.policy.begin, now - v.policy.begin);
  }

  lemma {:induction false} NothingGiven(events: seq<Event>)
    requires forall i :: 0 <= i < |events| ==> events[i].action.Withdraw?
    ensures Given(events) == 0
  {
    if events == [] {
    } else {
      NothingGiven(events[1..]);
    }
  }

  /** A deposit into a fresh linear balance makes the first question after the cliff fail. */
  lemma DepositTripsAssert()
    ensures var v := State(0, 100, Linear(0, 10, 20, 100));
            AssertsHold(v, 15) && !AssertsHold(Deposited(v, 5, 1), 15)
  {
  }
}
