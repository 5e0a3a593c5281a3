/**
  * Transactions are applied once: an index of the transactions seen, ordered by
  * expiration, turns copies away until they could not be applied any more.
  */
module Deduplication {
  import opened Blocks
  import opened Options

  /** The index in expiration order. */
  ghost predicate Sorted(entries: seq<Transaction>) {
    forall i, j :: 0 <= i < j < |entries| ==> entries[i].expiration <= entries[j].expiration
  }

  predicate Seen(entries: seq<Transaction>, id: nat) {
    exists i :: 0 <= i < |entries| && entries[i].id == id
  }

  /** What becomes of the index when the clock reaches `now`: everything goes when everything has expired, else nothing does. */
  function Cleared(entries: seq<Transaction>, now: int): seq<Transaction> {
    if entries == [] || now > entries[|entries| - 1].expiration then [] else entries
  }

  /** An expired entry stays as long as any entry has not expired. */
  lemma ExpiredEntryStays(entries: seq<Transaction>, now: int, i: nat)
    requires Sorted(entries) && i < |entries| && entries[i].expiration < now
    ensures entries[i] in Cleared(entries, now) <==> exists j :: 0 <= j < |entries| && entries[j].expiration >= now
  {
    if now > entries[|entries| - 1].expiration {
      forall j | 0 <= j < |entries| ensures entries[j].expiration < now {
        if j < |entries| - 1 { assert entries[j].expiration <= entries[|entries| - 1].expiration; }
      }
    }
  }

  /** The index is emptied exactly when everything in it has expired, and else stays as it is. */
  lemma ClearedExactly(entries: seq<Transaction>, now: int)
    requires Sorted(entries)
    ensures Cleared(entries, now) == if forall e :: e in entries ==> e.expiration < now then [] else entries
  {
    if now > 0 && entries != [] && entries[|entries| - 1].expiration < now {
      forall e | e in entries ensures e.expiration < now {
        var i :| 0 <= i < |entries| && entries[i] == e;
        assert i < |entries| - 1 ==> entries[i].expiration <= entries[|entries| - 1].expiration;
      }
    } else if entries != [] {
      assert entries[|entries| - 1] in entries;
    }
  }

  /** One entry that expires late keeps an expired one in the index. */
  lemma ExpiredStaysBehindLater()
    ensures var expired, later := Transaction(1, 10), Transaction(2, 30);
            Sorted([expired, later]) && expired.expiration < 20 && expired in Cleared([expired, later], 20)
  {
    ExpiredEntryStays([Transaction(1, 10), Transaction(2, 30)], 20, 0);
    assert [Transaction(1, 10), Transaction(2, 30)][1].expiration >= 20;
  }

  /** A transaction offered to the chain, with the verdict of all checks that are not about time or copies. */
  datatype Offer = Offer(tx: Transaction, accepted: bool)

  function Ids(offers: seq<Offer>): seq<nat> {
    seq(|offers|, i requires 0 <= i < |offers| => offers[i].tx.id)
  }

  /** No id occurs twice. */
  ghost predicate Distinct(applied: seq<nat>) {
    forall i, j :: 0 <= i < j < |applied| ==> applied[i] != applied[j]
  }

  /** Every transaction ever applied is still in the index or can never be applied again. */
  ghost predicate Remembered(applied: seq<nat>, entries: seq<Transaction>, now: int, headNum: nat, expiry: nat -> nat) {
    forall i :: 0 <= i < |applied| ==> Seen(entries, applied[i]) || (headNum > 0 && expiry(applied[i]) < now)
  }

  // ---- What a block does to the index ----

  /** The first position whose entry expires later than `expiration`. */
  function Upper(entries: seq<Transaction>, expiration: nat): (k: nat)
    ensures k <= |entries|
  {
    if entries == [] || entries[0].expiration > expiration then 0 else Upper(entries[1..], expiration) + 1
  }

  /** The index with one more transaction, behind those that expire no later. */
  function WithEntry(entries: seq<Transaction>, tx: Transaction): seq<Transaction> {
    var k := Upper(entries, tx.expiration);
    entries[..k] + [tx] + entries[k..]
  }

  /** What the transaction checks ask of time and copies; before the first block time is not asked about. */
  predicate Admitted(entries: seq<Transaction>, now: nat, headNum: nat, tx: Transaction, window: nat) {
    !Seen(entries, tx.id) && (headNum > 0 ==> now <= tx.expiration <= now + window)
  }

  /** The index after these transactions in turn; nothing when one of them is turned away. */
  function Taken(entries: seq<Transaction>, now: nat, headNum: nat, offers: seq<Offer>, window: nat): Option<seq<Transaction>> {
    if offers == [] then Some(entries)
    else
      var before := Taken(entries, now, headNum, offers[..|offers| - 1], window);
      var offer := offers[|offers| - 1];
      if before.None? || !offer.accepted || !Admitted(before.value, now, headNum, offer.tx, window) then None
      else Some(WithEntry(before.value, offer.tx))
  }

  /** The transaction is accepted, its time has come and not run out, and it is not in the index. */
  ghost predicate Fresh(entries: seq<Transaction>, now: nat, headNum: nat, offer: Offer, window: nat) {
    && offer.accepted
    && (headNum > 0 ==> now <= offer.tx.expiration && offer.tx.expiration <= now + window)
    && forall e :: e in entries ==> e.id != offer.tx.id
  }

  /** All are, and no two of them are the same. */
  ghost predicate AllFresh(entries: seq<Transaction>, now: nat, headNum: nat, offers: seq<Offer>, window: nat) {
    && (forall i :: 0 <= i < |offers| ==> Fresh(entries, now, headNum, offers[i], window))
    && forall i, j :: 0 <= i < j < |offers| ==> offers[i].tx.id != offers[j].tx.id
  }

  lemma AdmittedExactly(entries: seq<Transaction>, now: nat, headNum: nat, offer: Offer, window: nat)
    ensures offer.accepted && Admitted(entries, now, headNum, offer.tx, window) <==> Fresh(entries, now, headNum, offer, window)
  {
    if Seen(entries, offer.tx.id) {
      var i :| 0 <= i < |entries| && entries[i].id == offer.tx.id;
      assert entries[i] in entries;
    } else {
      forall e | e in entries ensures e.id != offer.tx.id {
        var i :| 0 <= i < |entries| && entries[i] == e;
      }
    }
  }

  predicate IdAmong(offers: seq<Offer>, id: nat) {
    exists i :: 0 <= i < |offers| && offers[i].tx.id == id
  }

  lemma AllFreshMore(entries: seq<Transaction>, now: nat, headNum: nat, offers: seq<Offer>, window: nat)
    requires offers != []
    ensures var rest, last := offers[..|offers| - 1], offers[|offers| - 1];
            AllFresh(entries, now, headNum, offers, window) <==>
              && AllFresh(entries, now, headNum, rest, window)
              && Fresh(entries, now, headNum, last, window) && !IdAmong(rest, last.tx.id)
  {
    var n := |offers| - 1;
    assert forall i :: 0 <= i < n ==> offers[..n][i] == offers[i];
  }

  /** What the index has to say about a transaction after the others of its block. */
  lemma AdmittedAfter(entries: seq<Transaction>, after: seq<Transaction>, now: nat, headNum: nat, rest: seq<Offer>, offer: Offer, window: nat)
    requires forall id: nat :: Seen(after, id) <==> Seen(entries, id) || IdAmong(rest, id)
    ensures offer.accepted && Admitted(after, now, headNum, offer.tx, window)
       <==> Fresh(entries, now, headNum, offer, window) && !IdAmong(rest, offer.tx.id)
  {
    AdmittedExactly(entries, now, headNum, offer, window);
  }

  /**
    * The transactions of a block all pass exactly when each is accepted and in
    * time, and none is in the index or twice in the block. The index then has
    * their ids as well, and is still in order.
    */
  lemma {:induction false} TakenExactly(entries: seq<Transaction>, now: nat, headNum: nat, offers: seq<Offer>, window: nat)
    requires Sorted(entries)
    ensures var r := Taken(entries, now, headNum, offers, window);
            && (r.Some? <==> AllFresh(entries, now, headNum, offers, window))
            && (r.Some? ==> Sorted(r.value) && forall id: nat :: Seen(r.value, id) <==> Seen(entries, id) || IdAmong(offers, id))
  {
    if offers == [] {
    } else {
      var n := |offers| - 1;
      var rest, offer := offers[..n], offers[n];
      TakenExactly(entries, now, headNum, rest, window);
      AllFreshMore(entries, now, headNum, offers, window);
      IdAmongMore(offers);
      var before := Taken(entries, now, headNum, rest, window);
      if before.Some? {
        AdmittedAfter(entries, before.value, now, headNum, rest, offer, window);
        WithEntrySorted(before.value, offer.tx);
      }
    }
  }

  lemma IdAmongMore(offers: seq<Offer>)
    requires offers != []
    ensures forall id: nat :: IdAmong(offers, id) <==> IdAmong(offers[..|offers| - 1], id) || offers[|offers| - 1].tx.id == id
  {
    var n := |offers| - 1;
    forall id: nat ensures IdAmong(offers, id) <==> IdAmong(offers[..n], id) || offers[n].tx.id == id {
      if IdAmong(offers[..n], id) {
        var i :| 0 <= i < n && offers[..n][i].tx.id == id;
        assert offers[i].tx.id == id;
      }
      if IdAmong(offers, id) {
        var i :| 0 <= i < |offers| && offers[i].tx.id == id;
        assert i < n ==> offers[..n][i].tx.id == id;
      }
    }
  }

  function Txs(offers: seq<Offer>): seq<Transaction> {
    if offers == [] then [] else Txs(offers[..|offers| - 1]) + [offers[|offers| - 1].tx]
  }

  /** Nothing is lost from the index, and nothing else is added. */
  lemma {:induction false} TakenEntries(entries: seq<Transaction>, now: nat, headNum: nat, offers: seq<Offer>, window: nat)
    requires Taken(entries, now, headNum, offers, window).Some?
    ensures multiset(Taken(entries, now, headNum, offers, window).value) == multiset(entries) + multiset(Txs(offers))
  {
    if offers == [] {
    } else {
      var n := |offers| - 1;
      TakenEntries(entries, now, headNum, offers[..n], window);
      OneMoreEntry(Taken(entries, now, headNum, offers[..n], window).value, offers[n].tx);
    }
  }

  lemma OneMoreEntry(entries: seq<Transaction>, tx: Transaction)
    ensures multiset(WithEntry(entries, tx)) == multiset(entries) + multiset{tx}
  {
    var k := Upper(entries, tx.expiration);
    assert entries == entries[..k] + entries[k..];
  }

  lemma {:induction false} TakenFails(entries: seq<Transaction>, now: nat, headNum: nat, offers: seq<Offer>, window: nat, n: nat)
    requires n <= |offers| && Taken(entries, now, headNum, offers[..n], window).None?
    ensures Taken(entries, now, headNum, offers, window).None?
    decreases |offers| - n
  {
    if n == |offers| {
      assert offers[..n] == offers;
    } else {
      assert offers[..n + 1][..n] == offers[..n];
      TakenFails(entries, now, headNum, offers, window, n + 1);
    }
  }

  method UpperBound(entries: seq<Transaction>, expiration: nat) returns (k: nat)
    ensures k == Upper(entries, expiration)
  {
    k := 0;
    while k < |entries| && entries[k].expiration <= expiration
      invariant 0 <= k <= |entries|
      invariant Upper(entries, expiration) == k + Upper(entries[k..], expiration)
    {
      assert entries[k..][1..] == entries[k + 1..];
      k := k + 1;
    }
  }

  lemma {:induction false} UpperSplits(entries: seq<Transaction>, expiration: nat)
    requires Sorted(entries)
    ensures forall i :: 0 <= i < Upper(entries, expiration) ==> entries[i].expiration <= expiration
    ensures forall i :: Upper(entries, expiration) <= i < |entries| ==> entries[i].expiration > expiration
  {
    if entries == [] {
    } else if entries[0].expiration <= expiration {
      var rest := entries[1..];
      assert forall i :: 0 <= i < |rest| ==> rest[i] == entries[i + 1];
      UpperSplits(rest, expiration);
    }
  }

  /** Adding a transaction keeps the order, and adds its id to those seen. */
  lemma WithEntrySorted(entries: seq<Transaction>, tx: Transaction)
    requires Sorted(entries)
    ensures Sorted(WithEntry(entries, tx))
    ensures forall id: nat :: Seen(WithEntry(entries, tx), id) <==> Seen(entries, id) || id == tx.id
  {
    UpperSplits(entries, tx.expiration);
    InsertedSeen(entries, tx, Upper(entries, tx.expiration));
  }

  class TransactionIndex {
    /** A transaction's id is a hash of all of it, so it fixes the expiration. */
    const expiry: nat -> nat
    var now: nat
    var headNum: nat
    var entries: seq<Transaction>
    /** The ids applied since the start of the chain, in order. */
    ghost var applied: seq<nat>

    ghost predicate Valid()
      reads this
    {
      && Sorted(entries) && Distinct(applied)
      && (forall e :: e in entries ==> e.expiration == expiry(e.id))
      && Remembered(applied, entries, now, headNum, expiry)
    }

    constructor (genesis: nat, expiry: nat -> nat)
      ensures Valid() && now == genesis && headNum == 0 && applied == []
    {
      this.expiry := expiry;
      now, headNum, entries, applied := genesis, 0, [], [];
    }

    predicate Admissible(tx: Transaction, window: nat)
      reads this
    {
      Admitted(entries, now, headNum, tx, window)
    }

    /** An admissible transaction was never applied before. */
    lemma NeverReplayed(tx: Transaction, window: nat)
      requires Valid() && tx.expiration == expiry(tx.id) && Admissible(tx, window)
      ensures tx.id !in applied
    {
      forall i | 0 <= i < |applied| ensures applied[i] != tx.id { }
    }

    method Insert(tx: Transaction)
      modifies this`entries
      ensures entries == WithEntry(old(entries), tx)
    {
      var k := UpperBound(entries, tx.expiration);
      entries := entries[..k] + [tx] + entries[k..];
    }

    method ApplyTransaction(offer: Offer, window: nat) returns (ok: bool)
      requires Valid() && offer.tx.expiration == expiry(offer.tx.id)
      modifies this`entries, this`applied
      ensures Valid()
      ensures ok <==> old(Fresh(entries, now, headNum, offer, window))
      ensures ok ==> offer.tx.id !in old(applied) && applied == old(applied) + [offer.tx.id]
      ensures ok ==> entries == WithEntry(old(entries), offer.tx)
      ensures !ok ==> entries == old(entries) && applied == old(applied)
    {
      var tx := offer.tx;
      AdmittedExactly(entries, now, headNum, offer, window);
      if Seen(entries, tx.id) {
        return false;
      }
      if headNum > 0 {
        if tx.expiration > now + window || now > tx.expiration {
          return false;
        }
      }
      if !offer.accepted {
        return false;
      }
      NeverReplayed(tx, window);
      WithEntrySorted(entries, tx);
      Insert(tx);
      applied := applied + [tx.id];
      return true;
    }

    /** Takes expired entries off the far end of the index. */
    method ClearExpired()
      requires Sorted(entries)
      modifies this`entries
      ensures entries == Cleared(old(entries), now)
    {
      while entries != [] && now > entries[|entries| - 1].expiration
        invariant entries <= old(entries)
        invariant entries != old(entries) ==> now > old(entries)[|old(entries)| - 1].expiration
        invariant Sorted(old(entries))
        decreases |entries|
      {
        entries := entries[..|entries| - 1];
      }
      ClearedPrefix(old(entries), entries, now);
    }

    /**
      * Applies a block: its transactions in order, then the clock, then the
      * clearing. A block is refused, and then changes nothing, exactly when it is
      * not later than the head or one of its transactions is not accepted, not in
      * time, in the index already or twice in the block.
      */
    method ApplyBlock(time: nat, offers: seq<Offer>, window: nat) returns (ok: bool)
      requires Valid()
      requires forall i :: 0 <= i < |offers| ==> offers[i].tx.expiration == expiry(offers[i].tx.id)
      modifies this
      ensures Valid()
      ensures ok <==> time > old(now) && old(AllFresh(entries, now, headNum, offers, window))
      ensures ok ==> now == time && headNum == old(headNum) + 1 && applied == old(applied) + Ids(offers)
      ensures ok ==> old(Taken(entries, now, headNum, offers, window)).Some?
                     && entries == Cleared(old(Taken(entries, now, headNum, offers, window)).value, time)
      ensures !ok ==> now == old(now) && headNum == old(headNum) && entries == old(entries) && applied == old(applied)
    {
      TakenExactly(entries, now, headNum, offers, window);
      if time <= now {
        return false;
      }
      ok := TakeOffers(offers, window);
      if ok {
        now := time;
        headNum := headNum + 1;
        ghost var before := entries;
        ClearExpired();
        StillRemembered(applied, before, now, headNum, expiry);
      }
    }

    /** The transactions of a block in one session: all of them, or none. */
    method TakeOffers(offers: seq<Offer>, window: nat) returns (ok: bool)
      requires Valid()
      requires forall i :: 0 <= i < |offers| ==> offers[i].tx.expiration == expiry(offers[i].tx.id)
      modifies this`entries, this`applied
      ensures Valid()
      ensures ok <==> Taken(old(entries), now, headNum, offers, window).Some?
      ensures ok ==> Taken(old(entries), now, headNum, offers, window) == Some(entries) && applied == old(applied) + Ids(offers)
      ensures !ok ==> entries == old(entries) && applied == old(applied)
    {
      var session := entries;
      ghost var sessionApplied := applied;
      var i := 0;
      while i < |offers|
        invariant 0 <= i <= |offers| && Valid()
        invariant applied == old(applied) + Ids(offers)[..i]
        invariant Taken(session, now, headNum, offers[..i], window) == Some(entries)
      {
        assert offers[..i + 1][..i] == offers[..i];
        AdmittedExactly(entries, now, headNum, offers[i], window);
        ok := ApplyTransaction(offers[i], window);
        if !ok {
          TakenFails(session, now, headNum, offers, window, i + 1);
          entries := session;
          applied := sessionApplied;
          return false;
        }
        i := i + 1;
      }
      assert Ids(offers)[..i] == Ids(offers) && offers[..i] == offers;
      ok := true;
    }
  }

  lemma InsertedSeen(before: seq<Transaction>, tx: Transaction, k: nat)
    requires k <= |before|
    ensures forall id: nat :: Seen(before[..k] + [tx] + before[k..], id) <==> Seen(before, id) || id == tx.id
  {
    var after := before[..k] + [tx] + before[k..];
    forall id: nat ensures Seen(after, id) <==> Seen(before, id) || id == tx.id {
      if Seen(before, id) {
        var i :| 0 <= i < |before| && before[i].id == id;
        assert after[if i < k then i else i + 1].id == id;
      }
      assert after[k].id == tx.id;
    }
  }

  lemma ClearedPrefix(before: seq<Transaction>, after: seq<Transaction>, now: int)
    requires Sorted(before) && after <= before
    requires after != before ==> now > before[|before| - 1].expiration
    requires after != [] ==> now <= after[|after| - 1].expiration
    ensures after == Cleared(before, now)
  {
    assert forall i :: 0 <= i < |after| ==> after[i] == before[i];
  }

  lemma StillRemembered(applied: seq<nat>, entries: seq<Transaction>, now: int, headNum: nat, expiry: nat -> nat)
    requires Sorted(entries) && headNum > 0
    requires forall e :: e in entries ==> e.expiration == expiry(e.id)
    requires forall i :: 0 <= i < |applied| ==> Seen(entries, applied[i]) || expiry(applied[i]) < now
    ensures Remembered(applied, Cleared(entries, now), now, headNum, expiry)
  {
    if Cleared(entries, now) != entries {
      forall i | 0 <= i < |applied| ensures expiry(applied[i]) < now {
        if Seen(entries, applied[i]) {
          var j :| 0 <= j < |entries| && entries[j].id == applied[i];
          assert entries[j] in entries;
        }
      }
    }
  }
}
