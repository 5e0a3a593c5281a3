/**
  * The last irreversible block: the highest block that all but three tenths of
  * the active miners have built on.
  */
module Irreversible {
  import opened Arithmetic

  const FULL: nat := 10000
  const THRESHOLD: nat := 7000

  /** How many of the numbers are `least` or more. */
  function CountFrom(s: seq<nat>, least: nat): (n: nat)
    ensures n <= |s|
  {
    if s == [] then 0 else CountFrom(s[..|s| - 1], least) + if s[|s| - 1] >= least then 1 else 0
  }

  lemma {:induction false} CountSplit(s: seq<nat>, t: seq<nat>, least: nat)
    ensures CountFrom(s + t, least) == CountFrom(s, least) + CountFrom(t, least)
  {
    if t == [] {
      assert s + t == s;
    } else {
      assert (s + t)[..|s + t| - 1] == s + t[..|t| - 1];
      CountSplit(s, t[..|t| - 1], least);
    }
  }

  lemma {:induction false} CountAll(s: seq<nat>, least: nat)
    requires forall i :: 0 <= i < |s| ==> s[i] >= least
    ensures CountFrom(s, least) == |s|
  {
    if s == [] {
    } else {
      CountAll(s[..|s| - 1], least);
    }
  }

  lemma {:induction false} CountNone(s: seq<nat>, least: nat)
    requires forall i :: 0 <= i < |s| ==> s[i] < least
    ensures CountFrom(s, least) == 0
  {
    if s == [] {
    } else {
      CountNone(s[..|s| - 1], least);
    }
  }

  /** Rearranging the numbers does not change the count. */
  lemma {:induction false} CountPermuted(s: seq<nat>, t: seq<nat>, least: nat)
    requires multiset(s) == multiset(t)
    ensures CountFrom(s, least) == CountFrom(t, least)
  {
    if s == [] {
      assert |multiset(t)| == 0;
    } else {
      var x, rest := s[|s| - 1], s[..|s| - 1];
      assert s == rest + [x];
      assert x in multiset(t);
      var j :| 0 <= j < |t| && t[j] == x;
      assert t == t[..j] + [x] + t[j + 1..];
      assert multiset(t[..j] + t[j + 1..]) == multiset(t) - multiset{x};
      CountPermuted(rest, t[..j] + t[j + 1..], least);
      CountSplit(t[..j], t[j + 1..], least);
      CountSplit(t[..j] + [x], t[j + 1..], least);
      CountSplit(t[..j], [x], least);
    }
  }

  /** Everything before position `n` is at most the number there, everything after it at least. */
  ghost predicate Selected(s: seq<nat>, n: nat)
    requires n < |s|
  {
    && (forall i :: 0 <= i < n ==> s[i] <= s[n])
    && (forall j :: n < j < |s| ==> s[n] <= s[j])
  }

  method SmallestFrom(a: array<nat>, from: nat) returns (k: nat)
    requires from < a.Length
    ensures from <= k < a.Length
    ensures forall j :: from <= j < a.Length ==> a[k] <= a[j]
  {
    k := from;
    var j := from + 1;
    while j < a.Length
      invariant from <= k < j <= a.Length
      invariant forall i :: from <= i < j ==> a[k] <= a[i]
    {
      if a[j] < a[k] {
        k := j;
      }
      j := j + 1;
    }
  }

  /** The first `i` numbers are in place: none of them exceeds any number after it. */
  ghost predicate Placed(s: seq<nat>, i: nat) {
    forall j, k :: 0 <= j < i && j < k < |s| ==> s[j] <= s[k]
  }

  method PlaceNext(a: array<nat>, i: nat)
    requires i < a.Length && Placed(a[..], i)
    modifies a
    ensures multiset(a[..]) == multiset(old(a[..])) && Placed(a[..], i + 1)
  {
    var k := SmallestFrom(a, i);
    PlacedSwap(a[..], i, k);
    a[i], a[k] := a[k], a[i];
    assert a[..] == old(a[..])[i := old(a[k])][k := old(a[i])];
  }

  lemma PlacedSwap(s: seq<nat>, i: nat, k: nat)
    requires i <= k < |s| && Placed(s, i) && forall j :: i <= j < |s| ==> s[k] <= s[j]
    ensures Placed(s[i := s[k]][k := s[i]], i + 1)
  {
  }

  /** Rearranges the array until the number at position `n` is the one that sorting would put there. */
  method NthElement(a: array<nat>, n: nat)
    requires n < a.Length
    modifies a
    ensures multiset(a[..]) == multiset(old(a[..]))
    ensures Selected(a[..], n)
  {
    var i := 0;
    while i <= n
      invariant 0 <= i <= n + 1
      invariant multiset(a[..]) == multiset(old(a[..]))
      invariant Placed(a[..], i)
    {
      PlaceNext(a, i);
      i := i + 1;
    }
  }

  /** The number at the chosen position is confirmed by enough miners, and no larger one is. */
  lemma SelectedQualifies(s: seq<nat>, n: nat, larger: nat)
    requires n < |s| && Selected(s, n)
    ensures CountFrom(s, s[n]) >= |s| - n
    ensures larger > s[n] ==> CountFrom(s, larger) < |s| - n
  {
    CountCut(s, n, s[n]);
    CountAll(s[n..], s[n]);
    if larger > s[n] {
      CountCut(s, n + 1, larger);
      CountNone(s[..n + 1], larger);
    }
  }

  lemma CountCut(s: seq<nat>, n: nat, least: nat)
    requires n <= |s|
    ensures CountFrom(s, least) == CountFrom(s[..n], least) + CountFrom(s[n..], least)
  {
    assert s == s[..n] + s[n..];
    CountSplit(s[..n], s[n..], least);
  }

  /** How many of `n` active miners may be behind. */
  function Lagging(n: nat): (k: nat)
    ensures n > 0 ==> k < n
    ensures 10 * k <= 3 * n < 10 * (k + 1)
  {
    (FULL - THRESHOLD) * n / FULL
  }

  /** What the active miners have confirmed. */
  function Votes(confirmed: seq<nat>, active: seq<nat>): seq<nat>
    requires forall i :: 0 <= i < |active| ==> active[i] < |confirmed|
  {
    seq(|active|, i requires 0 <= i < |active| => confirmed[active[i]])
  }

  /** The active miners that have confirmed block `n` or a later one, by their position. */
  ghost function Confirming(confirmed: seq<nat>, active: seq<nat>, n: nat): set<nat> {
    set i: nat | i < |active| && active[i] < |confirmed| && confirmed[active[i]] >= n
  }

  lemma {:induction false} CountIsConfirming(confirmed: seq<nat>, active: seq<nat>, n: nat)
    requires forall i :: 0 <= i < |active| ==> active[i] < |confirmed|
    ensures CountFrom(Votes(confirmed, active), n) == |Confirming(confirmed, active, n)|
  {
    if active == [] {
      assert Confirming(confirmed, active, n) == {};
    } else {
      var last := |active| - 1;
      CountIsConfirming(confirmed, active[..last], n);
      assert Votes(confirmed, active)[..last] == Votes(confirmed, active[..last]);
      if confirmed[active[last]] >= n {
        assert Confirming(confirmed, active, n) == Confirming(confirmed, active[..last], n) + {last};
      } else {
        assert Confirming(confirmed, active, n) == Confirming(confirmed, active[..last], n);
      }
    }
  }

  /** Seven tenths of the active miners. */
  ghost predicate Enough(confirmed: seq<nat>, active: seq<nat>, n: nat) {
    10 * |Confirming(confirmed, active, n)| >= 7 * |active|
  }

  lemma EnoughCount(confirmed: seq<nat>, active: seq<nat>, n: nat)
    requires forall i :: 0 <= i < |active| ==> active[i] < |confirmed|
    ensures Enough(confirmed, active, n) <==> CountFrom(Votes(confirmed, active), n) >= |active| - Lagging(|active|)
  {
    CountIsConfirming(confirmed, active, n);
  }

  class Confirmations {
    var head: nat
    var lastIrreversible: nat
    /** The last block each miner signed. */
    var confirmed: seq<nat>

    ghost predicate Valid()
      reads this
    {
      lastIrreversible <= head && forall m :: 0 <= m < |confirmed| ==> confirmed[m] <= head
    }

    constructor (miners: nat)
      ensures Valid() && head == 0 && lastIrreversible == 0 && |confirmed| == miners
    {
      head, lastIrreversible := 0, 0;
      confirmed := seq(miners, i => 0);
    }

    method RegisterMiner()
      requires Valid()
      modifies this`confirmed
      ensures Valid() && confirmed == old(confirmed) + [0]
    {
      confirmed := confirmed + [0];
    }

    /** A block arrives and its miner has confirmed it. */
    method SignBlock(miner: nat)
      requires Valid() && miner < |confirmed|
      modifies this`head, this`confirmed
      ensures Valid()
      ensures head == old(head) + 1 && confirmed == old(confirmed)[miner := head]
    {
      head := head + 1;
      confirmed := confirmed[miner := head];
    }

    /** Moves the last irreversible block up when enough active miners have confirmed a later one. */
    method UpdateLastIrreversible(active: seq<nat>)
      requires Valid()
      requires |active| > 0 && forall i :: 0 <= i < |active| ==> active[i] < |confirmed|
      modifies this`lastIrreversible
      ensures Valid()
      ensures lastIrreversible >= old(lastIrreversible)
      ensures lastIrreversible > old(lastIrreversible) ==> Enough(confirmed, active, lastIrreversible)
      ensures forall larger: nat :: larger > lastIrreversible ==> !Enough(confirmed, active, larger)
    {
      var a := CollectVotes(active);
      var offset := Lagging(|active|);
      NthElement(a, offset);
      SelectionStands(a[..], Votes(confirmed, active), offset);
      var newest := a[offset];
      VoteIsConfirmed(confirmed, active, newest, head);
      forall n: nat
        ensures Enough(confirmed, active, n) <==> CountFrom(Votes(confirmed, active), n) >= |active| - offset
      {
        EnoughCount(confirmed, active, n);
      }
      if newest > lastIrreversible {
        lastIrreversible := newest;
      }
    }

    method CollectVotes(active: seq<nat>) returns (a: array<nat>)
      requires forall i :: 0 <= i < |active| ==> active[i] < |confirmed|
      ensures fresh(a) && a[..] == Votes(confirmed, active)
    {
      a := new nat[|active|];
      var i := 0;
      while i < |active|
        invariant 0 <= i <= |active| && a[..i] == Votes(confirmed, active)[..i]
      {
        a[i] := confirmed[active[i]];
        i := i + 1;
      }
    }
  }

  lemma VoteIsConfirmed(confirmed: seq<nat>, active: seq<nat>, vote: nat, head: nat)
    requires forall i :: 0 <= i < |active| ==> active[i] < |confirmed|
    requires vote in Votes(confirmed, active)
    requires forall m :: 0 <= m < |confirmed| ==> confirmed[m] <= head
    ensures vote <= head
  {
    var i :| 0 <= i < |active| && Votes(confirmed, active)[i] == vote;
  }

  /** What holds of the rearranged numbers holds of the numbers. */
  lemma SelectionStands(s: seq<nat>, votes: seq<nat>, n: nat)
    requires n < |s| == |votes| && multiset(s) == multiset(votes) && Selected(s, n)
    ensures s[n] in votes
    ensures CountFrom(votes, s[n]) >= |votes| - n
    ensures forall larger: nat :: larger > s[n] ==> CountFrom(votes, larger) < |votes| - n
  {
    assert s[n] in multiset(s);
    SelectedQualifies(s, n, s[n]);
    CountPermuted(s, votes, s[n]);
    forall larger: nat | larger > s[n] ensures CountFrom(votes, larger) < |votes| - n {
      SelectedQualifies(s, n, larger);
      CountPermuted(s, votes, larger);
    }
  }
}
