/**
  * The vote tally of a maintenance block: every account's stake is added to the
  * candidates its opinion account votes for, and recorded beside the account's
  * own balance with the first miner among them.
  */
module Votes {
  import opened Ledgers
  import opened Options

  const PROXY_TO_SELF: nat := 3

  // ---- Recorded votes ----

  /** What one balance object adds to a candidate's votes. */
  function Backing(h: Holding, vote: nat): nat {
    if h.castedVote == vote then h.votePower else 0
  }

  /** The recorded power of all balances cast for `vote`. */
  ghost function PowerFor(hs: Holdings, vote: nat): nat
    decreases |hs|
  {
    if a :| a in hs then Backing(hs[a], vote) + PowerFor(hs - {a}, vote) else 0
  }

  lemma {:induction false} PowerForRemove(hs: Holdings, vote: nat, a: nat)
    requires a in hs
    ensures PowerFor(hs, vote) == Backing(hs[a], vote) + PowerFor(hs - {a}, vote)
    decreases |hs|
  {
    var z :| z in hs && PowerFor(hs, vote) == Backing(hs[z], vote) + PowerFor(hs - {z}, vote);
    if z == a {
    } else {
      PowerForRemove(hs - {z}, vote, a);
      PowerForRemove(hs - {a}, vote, z);
      assert hs - {z} - {a} == hs - {a} - {z};
    }
  }

  /** Moving money leaves the recorded power where it was. */
  lemma {:induction false} PowerForSame(hs: Holdings, after: Holdings, vote: nat)
    requires SameVotes(hs, after)
    ensures PowerFor(after, vote) == PowerFor(hs, vote)
    decreases |after|
  {
    if a :| a in after {
      PowerForRemove(after, vote, a);
      if a in hs {
        PowerForRemove(hs, vote, a);
        PowerForSame(hs - {a}, after - {a}, vote);
      } else {
        PowerForSame(hs, after - {a}, vote);
      }
    } else {
      assert after.Keys == {};
      assert hs == after;
    }
  }

  /** Balances that nobody is recorded to stand behind add nothing. */
  lemma {:induction false} PowerForNothing(hs: Holdings, vote: nat)
    requires forall a :: a in hs ==> Backing(hs[a], vote) == 0
    ensures PowerFor(hs, vote) == 0
    decreases |hs|
  {
    if a :| a in hs {
      PowerForRemove(hs, vote, a);
      PowerForNothing(hs - {a}, vote);
    }
  }

  /** The recorded power of the balances of the first `n` accounts. */
  ghost function PowerBelow(hs: Holdings, n: nat, vote: nat): nat {
    if n == 0 then 0
    else PowerBelow(hs, n - 1, vote) + if n - 1 in hs then Backing(hs[n - 1], vote) else 0
  }

  ghost function From(hs: Holdings, n: nat): Holdings {
    map a | a in hs && a >= n :: hs[a]
  }

  lemma {:induction false} PowerSplits(hs: Holdings, n: nat, vote: nat)
    ensures PowerFor(hs, vote) == PowerBelow(hs, n, vote) + PowerFor(From(hs, n), vote)
  {
    if n == 0 {
      assert From(hs, 0) == hs;
    } else {
      PowerSplits(hs, n - 1, vote);
      var above := From(hs, n - 1);
      if n - 1 in hs {
        PowerForRemove(above, vote, n - 1);
        assert above - {n - 1} == From(hs, n);
      } else {
        assert above == From(hs, n);
      }
    }
  }

  // ---- The tally ----

  /** The number of the first miner voted for. */
  function VotedMiner(votes: seq<Vote>): nat {
    if votes == [] then NO_VOTE
    else if votes[0].kind == MINER_VOTE then votes[0].instance
    else VotedMiner(votes[1..])
  }

  /** The first vote for a miner is that for `vote`, or there is none. */
  ghost predicate FirstMiner(votes: seq<Vote>, vote: nat) {
    || (exists i :: 0 <= i < |votes| && votes[i] == Vote(0, vote) && forall j :: 0 <= j < i ==> votes[j].kind != 0)
    || (vote == NO_VOTE && forall i :: 0 <= i < |votes| ==> votes[i].kind != 0)
  }

  lemma {:induction false} VotedFirst(votes: seq<Vote>, vote: nat)
    ensures VotedMiner(votes) == vote <==> FirstMiner(votes, vote)
  {
    if votes == [] {
    } else if votes[0].kind != MINER_VOTE {
      var rest := votes[1..];
      VotedFirst(rest, vote);
      if FirstMiner(rest, vote) && exists i :: 0 <= i < |rest| && rest[i] == Vote(0, vote) && forall j :: 0 <= j < i ==> rest[j].kind != 0 {
        var i :| 0 <= i < |rest| && rest[i] == Vote(0, vote) && forall j :: 0 <= j < i ==> rest[j].kind != 0;
        assert votes[i + 1] == Vote(0, vote);
      }
      if exists i :: 0 <= i < |votes| && votes[i] == Vote(0, vote) && forall j :: 0 <= j < i ==> votes[j].kind != 0 {
        var i :| 0 <= i < |votes| && votes[i] == Vote(0, vote) && forall j :: 0 <= j < i ==> votes[j].kind != 0;
        assert rest[i - 1] == Vote(0, vote);
      }
    }
  }

  /** An account's stake: what it holds, openly or in its pay balance, or has on offer. */
  function Stake(b: Books, a: nat): int
    requires a < |b.accounts|
  {
    var account := b.accounts[a];
    account.coreInOrders + BalanceIn(b.holdings, a)
    + if account.cashback.Some? && account.cashback.value < |b.vestings| then b.vestings[account.cashback.value].balance else 0
  }

  /** The account whose opinion counts for the stake of `a`. */
  function OpinionOf(b: Books, a: nat): nat
    requires a < |b.accounts|
  {
    var proxy := b.accounts[a].votingAccount;
    if proxy == PROXY_TO_SELF || proxy >= |b.accounts| then a else proxy
  }

  /** How often `vote` is among the votes. */
  function Mentions(votes: seq<Vote>, vote: nat): nat {
    if votes == [] then 0
    else Mentions(votes[..|votes| - 1], vote) + if votes[|votes| - 1].instance == vote then 1 else 0
  }

  /** What the first `n` accounts add to the votes of one candidate. */
  function Tallied(b: Books, n: nat, vote: nat): int
    requires n <= |b.accounts|
  {
    if n == 0 then 0
    else Tallied(b, n - 1, vote) + Stake(b, n - 1) * Mentions(b.accounts[OpinionOf(b, n - 1)].votes, vote)
  }

  /** The positions of the votes for candidate `vote`. */
  ghost function VotesFor(votes: seq<Vote>, vote: nat): set<nat> {
    set i: nat | i < |votes| && votes[i].instance == vote
  }

  lemma {:induction false} MentionsAre(votes: seq<Vote>, vote: nat)
    ensures Mentions(votes, vote) == |VotesFor(votes, vote)|
  {
    if votes == [] {
      assert VotesFor(votes, vote) == {};
    } else {
      var n := |votes| - 1;
      MentionsAre(votes[..n], vote);
      if votes[n].instance == vote {
        assert VotesFor(votes, vote) == VotesFor(votes[..n], vote) + {n};
      } else {
        assert VotesFor(votes, vote) == VotesFor(votes[..n], vote);
      }
    }
  }

  /** `stake` is all that account `a` holds: in orders, openly, and in its pay balance. */
  ghost predicate IsStake(b: Books, a: nat, stake: int)
    requires a < |b.accounts|
  {
    var account := b.accounts[a];
    stake == account.coreInOrders + (if a in b.holdings then b.holdings[a].balance else 0)
             + (if account.cashback.Some? && account.cashback.value < |b.vestings| then b.vestings[account.cashback.value].balance
                else 0)
  }

  /** `votes` are the votes of the account that account `a` leaves its opinion to, or its own. */
  ghost predicate IsOpinion(b: Books, a: nat, votes: seq<Vote>)
    requires a < |b.accounts|
  {
    var proxy := b.accounts[a].votingAccount;
    if proxy == 3 then votes == b.accounts[a].votes else proxy < |b.accounts| && votes == b.accounts[proxy].votes
  }

  /** Every account adds its stake to a candidate's votes, once for each vote its opinion has for it. */
  lemma TalliedStep(b: Books, a: nat, vote: nat, stake: int, votes: seq<Vote>)
    requires a < |b.accounts| && IsStake(b, a, stake) && IsOpinion(b, a, votes)
    ensures Tallied(b, 0, vote) == 0
    ensures Tallied(b, a + 1, vote) == Tallied(b, a, vote) + stake * |VotesFor(votes, vote)|
  {
    MentionsAre(votes, vote);
  }

  /** The account's stake and the first miner of its opinion are recorded. */
  ghost predicate StakeRecorded(b: Books, a: nat, h: Holding)
    requires a < |b.accounts|
  {
    IsStake(b, a, h.votePower) && exists votes :: IsOpinion(b, a, votes) && FirstMiner(votes, h.castedVote)
  }

  /** No stake is negative, whatever a pay balance goes through. */
  ghost predicate Countable(b: Books) {
    forall a :: 0 <= a < |b.accounts| ==> Stake(b, a) >= 0
  }

  lemma SoundIsCountable(b: Books)
    requires Sound(b)
    ensures Countable(b)
  {
  }

  /** The account whose opinion counts exists. */
  predicate HasOpinion(b: Books, a: nat)
    requires a < |b.accounts|
  {
    b.accounts[a].votingAccount == PROXY_TO_SELF || b.accounts[a].votingAccount < |b.accounts|
  }

  /** The tally does not throw. */
  ghost predicate AllHaveOpinions(b: Books) {
    forall a :: 0 <= a < |b.accounts| ==> b.accounts[a].votingAccount == 3 || b.accounts[a].votingAccount < |b.accounts|
  }

  /** What the tally records beside the balance of account `a`. */
  function Recorded(b: Books, a: nat): Holding
    requires a in b.holdings && a < |b.accounts| && Stake(b, a) >= 0
  {
    b.holdings[a].(votePower := Stake(b, a), castedVote := VotedMiner(b.accounts[OpinionOf(b, a)].votes))
  }

  /** The first `n` accounts have their stake and their miner recorded; the rest are as they were. */
  ghost predicate RecordedBelow(b: Books, after: Holdings, n: nat)
    requires Countable(b) && n <= |b.accounts|
  {
    && after.Keys == b.holdings.Keys
    && forall a :: a in after ==> after[a] == if a < n then Recorded(b, a) else b.holdings[a]
  }

  /**
    * Goes through the accounts, records each stake and adds it to the buffer of
    * votes, ignoring votes beyond the buffer; throws at an account whose voting
    * account does not exist.
    */
  method TallyVotes(ledger: Ledger, size: nat) returns (ok: bool, buffer: array<int>)
    requires Countable(ledger.View())
    modifies ledger`holdings
    ensures ok <==> AllHaveOpinions(old(ledger.View()))
    ensures fresh(buffer) && buffer.Length == size
    ensures ok ==> forall v :: 0 <= v < size ==> buffer[v] == Tallied(old(ledger.View()), |ledger.accounts|, v)
    ensures ok ==> RecordedBelow(old(ledger.View()), ledger.holdings, |ledger.accounts|)
  {
    ghost var start := ledger.View();
    buffer := new int[size](_ => 0);
    var a := 0;
    while a < |ledger.accounts|
      invariant 0 <= a <= |start.accounts|
      invariant ledger.View() == start.(holdings := ledger.holdings)
      invariant RecordedBelow(start, ledger.holdings, a)
      invariant forall v :: 0 <= v < size ==> buffer[v] == Tallied(start, a, v)
      invariant forall i :: 0 <= i < a ==> start.accounts[i].votingAccount == 3 || start.accounts[i].votingAccount < |start.accounts|
    {
      if !HasOpinion(ledger.View(), a) {
        assert start.accounts[a].votingAccount != 3 && start.accounts[a].votingAccount >= |start.accounts|;
        return false, buffer;
      }
      var stake, votes := RecordVote(ledger, start, a);
      AddStake(buffer, votes, stake);
      a := a + 1;
    }
    ok := true;
  }

  /** The balance object of account `a` takes its stake and its miner. */
  method RecordVote(ledger: Ledger, ghost start: Books, a: nat) returns (stake: int, votes: seq<Vote>)
    requires Countable(start) && a < |start.accounts|
    requires ledger.View() == start.(holdings := ledger.holdings) && RecordedBelow(start, ledger.holdings, a)
    modifies ledger`holdings
    ensures RecordedBelow(start, ledger.holdings, a + 1)
    ensures stake == Stake(start, a) && votes == start.accounts[OpinionOf(start, a)].votes
  {
    StakeUnrecorded(start, ledger.holdings, a);
    stake := Stake(ledger.View(), a);
    votes := ledger.accounts[OpinionOf(ledger.View(), a)].votes;
    RecordOne(start, ledger.holdings, a);
    if a in ledger.holdings {
      ledger.holdings := ledger.holdings[a := ledger.holdings[a].(votePower := stake, castedVote := VotedMiner(votes))];
    }
  }

  /** Until its own turn an account's stake is what it was. */
  lemma StakeUnrecorded(start: Books, hs: Holdings, a: nat)
    requires Countable(start) && a < |start.accounts| && RecordedBelow(start, hs, a)
    ensures Stake(start.(holdings := hs), a) == Stake(start, a)
    ensures OpinionOf(start.(holdings := hs), a) == OpinionOf(start, a)
  {
  }

  lemma RecordOne(start: Books, hs: Holdings, a: nat)
    requires Countable(start) && a < |start.accounts| && RecordedBelow(start, hs, a)
    ensures a !in hs ==> RecordedBelow(start, hs, a + 1)
    ensures a in hs ==>
              var votes := start.accounts[OpinionOf(start, a)].votes;
              RecordedBelow(start, hs[a := hs[a].(votePower := Stake(start, a), castedVote := VotedMiner(votes))], a + 1)
  {
  }

  method AddStake(buffer: array<int>, votes: seq<Vote>, stake: int)
    modifies buffer
    ensures forall v :: 0 <= v < buffer.Length ==> buffer[v] == old(buffer[v]) + stake * Mentions(votes, v)
  {
    var i := 0;
    while i < |votes|
      invariant 0 <= i <= |votes|
      invariant forall v :: 0 <= v < buffer.Length ==> buffer[v] == old(buffer[v]) + stake * Mentions(votes[..i], v)
    {
      var offset := votes[i].instance;
      assert votes[..i + 1][..i] == votes[..i];
      if offset < buffer.Length {
        OneMore(stake, Mentions(votes[..i], offset));
        buffer[offset] := buffer[offset] + stake;
      }
      i := i + 1;
    }
    assert votes[..i] == votes;
  }

  lemma OneMore(a: int, n: int)
    ensures a * (n + 1) == a * n + a
  {
  }

  /** The miners take over their part of the buffer. */
  method UpdateTotals(ledger: Ledger, buffer: array<int>)
    requires forall m :: m in ledger.miners ==> m.voteId < buffer.Length
    requires forall v :: 0 <= v < buffer.Length ==> buffer[v] >= 0
    modifies ledger`miners
    ensures |ledger.miners| == |old(ledger.miners)|
    ensures forall i :: 0 <= i < |ledger.miners| ==>
              ledger.miners[i] == old(ledger.miners)[i].(totalVotes := buffer[old(ledger.miners)[i].voteId])
  {
    ghost var start := ledger.miners;
    var i := 0;
    while i < |ledger.miners|
      invariant 0 <= i <= |ledger.miners| == |start|
      invariant forall j :: 0 <= j < |start| ==>
                  ledger.miners[j] == if j < i then start[j].(totalVotes := buffer[start[j].voteId]) else start[j]
    {
      var m := ledger.miners[i];
      assert m == start[i];
      ledger.miners := ledger.miners[i := m.(totalVotes := buffer[m.voteId])];
      i := i + 1;
    }
  }

  // ---- The recorded power never exceeds the total ----

  lemma {:induction false} VotedIsMentioned(votes: seq<Vote>, vote: nat)
    requires VotedMiner(votes) == vote && vote != NO_VOTE
    ensures exists i :: 0 <= i < |votes| && votes[i].instance == vote
  {
    if votes[0].kind == MINER_VOTE {
    } else {
      VotedIsMentioned(votes[1..], vote);
      var i :| 0 <= i < |votes[1..]| && votes[1..][i].instance == vote;
      assert votes[i + 1].instance == vote;
    }
  }

  lemma {:induction false} MentionedCounts(votes: seq<Vote>, i: nat, vote: nat)
    requires i < |votes| && votes[i].instance == vote
    ensures Mentions(votes, vote) >= 1
  {
    if i == |votes| - 1 {
    } else {
      MentionedCounts(votes[..|votes| - 1], i, vote);
    }
  }

  lemma {:induction false} PowerWithinTally(b: Books, after: Holdings, n: nat, vote: nat)
    requires Countable(b) && n <= |b.accounts| && vote != NO_VOTE
    requires RecordedBelow(b, after, |b.accounts|)
    ensures PowerBelow(after, n, vote) <= Tallied(b, n, vote)
  {
    if n == 0 {
    } else {
      var a, votes := n - 1, b.accounts[OpinionOf(b, n - 1)].votes;
      PowerWithinTally(b, after, n - 1, vote);
      AtLeastOnce(Stake(b, a), Mentions(votes, vote));
      if a in after && after[a].castedVote == vote {
        VotedIsMentioned(votes, vote);
        var i :| 0 <= i < |votes| && votes[i].instance == vote;
        MentionedCounts(votes, i, vote);
      }
    }
  }

  lemma AtLeastOnce(stake: nat, n: nat)
    ensures stake * n >= 0
    ensures n >= 1 ==> stake * n >= stake
  {
    if n >= 1 {
      OneMore(stake, n - 1);
      assert stake * (n - 1) >= 0;
    }
  }

  /** For every miner with votes, the recorded power cast for it is within its total. */
  ghost predicate VotesCovered(b: Books) {
    forall m :: m in b.miners && m.totalVotes > 0 ==> PowerFor(b.holdings, m.voteId) <= m.totalVotes
  }

  /** Balances whose owner is not an account carry no votes. */
  ghost predicate OnlyAccountsVote(b: Books) {
    forall a :: a in b.holdings && a >= |b.accounts| ==> b.holdings[a].votePower == 0
  }

  /** After a tally every miner's total covers the power recorded for it; it throws exactly when an opinion is missing. */
  method Tally(ledger: Ledger, size: nat) returns (ok: bool)
    requires Countable(ledger.View()) && OnlyAccountsVote(ledger.View())
    requires size <= NO_VOTE
    requires forall m :: m in ledger.miners ==> m.voteId < size
    modifies ledger`holdings, ledger`miners
    ensures ok <==> AllHaveOpinions(old(ledger.View()))
    ensures ok ==> VotesCovered(ledger.View()) && OnlyAccountsVote(ledger.View())
    ensures ok ==> RecordedBelow(old(ledger.View()), ledger.holdings, |ledger.accounts|)
    ensures ok ==> forall a :: a in ledger.holdings && a < |ledger.accounts| ==> StakeRecorded(old(ledger.View()), a, ledger.holdings[a])
    ensures ok ==> |ledger.miners| == |old(ledger.miners)|
    ensures ok ==> forall i :: 0 <= i < |ledger.miners| ==>
              && Tallied(old(ledger.View()), |ledger.accounts|, ledger.miners[i].voteId) >= 0
              && ledger.miners[i] == old(ledger.miners)[i].(
                   totalVotes := Tallied(old(ledger.View()), |ledger.accounts|, ledger.miners[i].voteId))
  {
    ghost var start := ledger.View();
    var buffer;
    ok, buffer := TallyVotes(ledger, size);
    if !ok {
      return;
    }
    ghost var n := |start.accounts|;
    forall v: nat | v < size
      ensures buffer[v] >= 0 && PowerFor(ledger.holdings, v) <= buffer[v]
    {
      PowerWithinTally(start, ledger.holdings, n, v);
      PowerSplits(ledger.holdings, n, v);
      PowerForNothing(From(ledger.holdings, n), v);
    }
    AllRecorded(start, ledger.holdings);
    UpdateTotals(ledger, buffer);
  }

  lemma AllRecorded(b: Books, after: Holdings)
    requires Countable(b) && AllHaveOpinions(b) && RecordedBelow(b, after, |b.accounts|)
    ensures forall a :: a in after && a < |b.accounts| ==> StakeRecorded(b, a, after[a])
  {
    forall a | a in after && a < |b.accounts| ensures StakeRecorded(b, a, after[a]) {
      var votes := b.accounts[OpinionOf(b, a)].votes;
      VotedFirst(votes, after[a].castedVote);
      assert HasOpinion(b, a) && IsOpinion(b, a, votes);
    }
  }
}
