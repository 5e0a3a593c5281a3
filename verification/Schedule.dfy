/**
  * Who signs when: slots of fixed length since the head block, a shuffled list
  * of miners taken in turn by absolute slot number, and a reshuffle each round.
  */
module Schedules {
  import opened Arithmetic

  // ---- Slots and times ----

  /** What slot numbers are counted from. */
  datatype Clock = Clock(headNum: nat, headTime: nat, interval: nat, maintenance: bool, skipSlots: nat)

  /** When slot 0 would be: the genesis time before the first block, else the head's own slot, later after a maintenance block. */
  function Base(c: Clock): nat
    requires c.interval > 0
  {
    if c.headNum == 0 then c.headTime
    else c.headTime / c.interval * c.interval + (if c.maintenance then c.skipSlots else 0) * c.interval
  }

  function SlotTime(c: Clock, slot: nat): nat
    requires c.interval > 0
  {
    if slot == 0 then 0
    else if c.headNum == 0 then c.headTime + slot * c.interval
    else
      var absSlot := c.headTime / c.interval;
      var counted := if c.maintenance then slot + c.skipSlots else slot;
      absSlot * c.interval + counted * c.interval
  }

  function SlotAtTime(c: Clock, when: nat): nat
    requires c.interval > 0
  {
    var first := SlotTime(c, 1);
    if when < first then 0 else (when - first) / c.interval + 1
  }

  lemma SlotTimeFromBase(c: Clock, slot: nat)
    requires c.interval > 0 && slot > 0
    ensures SlotTime(c, slot) == Base(c) + slot * c.interval
  {
    Distribute(slot, c.skipSlots, c.interval);
  }

  /**
    * Slots are an interval apart. The first one comes an interval after genesis,
    * or at the first multiple of the interval after the head, and the skipped
    * slots later when the head is a maintenance block.
    */
  lemma SlotsApart(c: Clock, slot: nat)
    requires c.interval > 0 && slot > 0
    ensures SlotTime(c, slot + 1) == SlotTime(c, slot) + c.interval
    ensures c.headNum == 0 ==> SlotTime(c, 1) == c.headTime + c.interval
    ensures c.headNum > 0 ==>
              var skipped := if c.maintenance then c.skipSlots * c.interval else 0;
              && (SlotTime(c, 1) - skipped) % c.interval == 0
              && c.headTime < SlotTime(c, 1) - skipped <= c.headTime + c.interval
  {
    SlotTimeFromBase(c, slot);
    SlotTimeFromBase(c, slot + 1);
    SlotTimeFromBase(c, 1);
    Distribute(slot, 1, c.interval);
    if c.headNum > 0 {
      var q := c.headTime / c.interval;
      Parts(c.headTime, c.interval);
      Distribute(q, 1, c.interval);
      DivUnique((q + 1) * c.interval, q + 1, 0, c.interval);
    }
  }

  /** The slot at a slot's own time is that slot. */
  lemma SlotInverse(c: Clock, slot: nat)
    requires c.interval > 0 && slot > 0
    ensures SlotAtTime(c, SlotTime(c, slot)) == slot
  {
    SlotTimeFromBase(c, slot);
    SlotTimeFromBase(c, 1);
    Distribute(slot - 1, 1, c.interval);
    MulOrder(0, slot - 1, c.interval);
    DivUnique((slot - 1) * c.interval, slot - 1, 0, c.interval);
  }

  /** Every time lies in its slot: at or after its start and before the next; slot 0 is all that is before slot 1. */
  lemma SlotBrackets(c: Clock, when: nat)
    requires c.interval > 0
    ensures SlotAtTime(c, when) == 0 <==> when < SlotTime(c, 1)
    ensures SlotAtTime(c, when) > 0 ==>
              SlotTime(c, SlotAtTime(c, when)) <= when < SlotTime(c, SlotAtTime(c, when) + 1)
  {
    var s := SlotAtTime(c, when);
    if s > 0 {
      var first := SlotTime(c, 1);
      SlotTimeFromBase(c, 1);
      SlotTimeFromBase(c, s);
      SlotTimeFromBase(c, s + 1);
      Parts(when - first, c.interval);
      Distribute(s - 1, 1, c.interval);
      Distribute(s, 1, c.interval);
    }
  }

  /** The head block's own time is before slot 1. */
  lemma HeadIsSlotZero(c: Clock)
    requires c.interval > 0
    ensures SlotAtTime(c, c.headTime) == 0
    ensures SlotTime(c, 1) > c.headTime
  {
    SlotTimeFromBase(c, 1);
    Parts(c.headTime, c.interval);
    MulOrder(0, c.skipSlots, c.interval);
  }

  /** The clock after a block. */
  function After(c: Clock, time: nat, maintenance: bool): Clock {
    c.(headNum := c.headNum + 1, headTime := time, maintenance := maintenance)
  }

  /**
    * A block stamped anywhere in a slot leaves the later slots where they were,
    * only counted from itself; after a maintenance block they come that much later.
    */
  lemma SlotsContinue(c: Clock, time: nat, maintenance: bool, k: nat)
    requires c.interval > 0 && SlotAtTime(c, time) > 0 && k > 0
    requires c.headNum == 0 ==> c.headTime % c.interval == 0
    ensures SlotTime(After(c, time, maintenance), k)
         == SlotTime(c, SlotAtTime(c, time) + k + if maintenance then c.skipSlots else 0)
  {
    var s, d, skip := SlotAtTime(c, time), c.interval, if maintenance then c.skipSlots else 0;
    SlotTimeFromBase(c, s + k + skip);
    SlotTimeFromBase(After(c, time, maintenance), k);
    SlotOfTime(c, time);
    Distribute(s, k + skip, d);
    Distribute(k, skip, d);
  }

  /** The absolute slot of a time within slot `s` is that of the base and `s`. */
  lemma SlotOfTime(c: Clock, time: nat)
    requires c.interval > 0 && SlotAtTime(c, time) > 0
    requires c.headNum == 0 ==> c.headTime % c.interval == 0
    ensures time / c.interval * c.interval == Base(c) + SlotAtTime(c, time) * c.interval
  {
    var s, d := SlotAtTime(c, time), c.interval;
    SlotBrackets(c, time);
    SlotTimeFromBase(c, s);
    SlotTimeFromBase(c, s + 1);
    BaseAligned(c);
    Distribute(s, 1, d);
    Distribute(Base(c) / d, s, d);
    DivUnique(time, Base(c) / d + s, time - SlotTime(c, s), d);
  }

  lemma BaseAligned(c: Clock)
    requires c.interval > 0
    requires c.headNum == 0 ==> c.headTime % c.interval == 0
    ensures Base(c) == Base(c) / c.interval * c.interval
  {
    var d := c.interval;
    if c.headNum == 0 {
      Parts(c.headTime, d);
    } else {
      var q, skip := c.headTime / d, if c.maintenance then c.skipSlots else 0;
      Distribute(q, skip, d);
      DivUnique(Base(c), q + skip, 0, d);
    }
  }

  // ---- Turns ----

  /** The miner whose turn an absolute slot is. */
  function MinerAt(shuffled: seq<nat>, absSlot: nat): nat
    requires |shuffled| > 0
  {
    shuffled[absSlot % |shuffled|]
  }

  function Turns(shuffled: seq<nat>, from: nat, n: nat): seq<nat>
    requires |shuffled| > 0
  {
    seq<nat>(n, k requires 0 <= k < n => MinerAt(shuffled, from + k))
  }

  lemma Wraps(from: nat, k: nat, n: nat)
    requires k < n
    ensures (from + k) % n == if from % n + k < n then from % n + k else from % n + k - n
  {
    Parts(from, n);
    if from % n + k < n {
      DivUnique(from + k, from / n, from % n + k, n);
    } else {
      Distribute(from / n, 1, n);
      DivUnique(from + k, from / n + 1, from % n + k - n, n);
    }
  }

  /** As many slots in a row as there are miners give each miner exactly one turn. */
  lemma FairRound(shuffled: seq<nat>, from: nat)
    requires |shuffled| > 0
    ensures multiset(Turns(shuffled, from, |shuffled|)) == multiset(shuffled)
  {
    var n := |shuffled|;
    var r := from % n;
    forall k | 0 <= k < n
      ensures Turns(shuffled, from, n)[k] == (shuffled[r..] + shuffled[..r])[k]
    {
      Wraps(from, k, n);
    }
    assert Turns(shuffled, from, n) == shuffled[r..] + shuffled[..r];
    assert shuffled == shuffled[..r] + shuffled[r..];
  }

  /** With different miners, each has its turn in exactly one of the slots. */
  lemma OneTurnEach(shuffled: seq<nat>, from: nat, i: nat)
    requires i < |shuffled|
    requires forall j, k :: 0 <= j < k < |shuffled| ==> shuffled[j] != shuffled[k]
    ensures multiset(Turns(shuffled, from, |shuffled|))[shuffled[i]] == 1
  {
    FairRound(shuffled, from);
    CountDistinct(shuffled, i);
  }

  lemma {:induction false} CountDistinct(s: seq<nat>, i: nat)
    requires i < |s| && forall j, k :: 0 <= j < k < |s| ==> s[j] != s[k]
    ensures multiset(s)[s[i]] == 1
  {
    var n := |s| - 1;
    assert s == s[..n] + [s[n]];
    if i < n {
      CountDistinct(s[..n], i);
    } else {
      assert s[i] !in s[..n];
    }
  }

  // ---- The shuffle ----

  const MULTIPLIER: bv64 := 2685821657736338717

  const WORD: nat := 0x1_0000_0000

  /** The number drawn for position `i` of the shuffle made at `time`; all of it wraps at 64 bits. */
  function Draw(time: nat, i: nat): nat {
    Scrambled(((time * WORD + i * 2685821657736338717) % (WORD * WORD)) as bv64) as nat
  }

  function Scrambled(k0: bv64): bv64 {
    var k1 := k0 ^ (k0 >> 12);
    var k2 := k1 ^ (k1 << 25);
    var k3 := k2 ^ (k2 >> 27);
    k3 * MULTIPLIER
  }

  /** How often each miner missed its slot: the scheduled miners of the first `n` slots after `absSlot`, the signer excepted. */
  function Missed(shuffled: seq<nat>, absSlot: nat, n: nat, signer: nat, m: nat): nat
    requires |shuffled| > 0
  {
    if n == 0 then 0
    else
      var turn := MinerAt(shuffled, absSlot + n);
      Missed(shuffled, absSlot, n - 1, signer, m) + if turn != signer && turn == m then 1 else 0
  }

  /** The slots that miner `m` missed: those of its turns, between `absSlot` and `n` slots later. */
  ghost function MissedTurns(shuffled: seq<nat>, absSlot: nat, n: nat, m: nat): set<nat>
    requires |shuffled| > 0
  {
    set k: nat | 1 <= k <= n && IsTurn(shuffled, absSlot, k, m)
  }

  ghost predicate IsTurn(shuffled: seq<nat>, absSlot: nat, k: nat, m: nat)
    requires |shuffled| > 0
  {
    shuffled[(absSlot + k) % |shuffled|] == m
  }

  lemma {:induction false} MissedAre(shuffled: seq<nat>, absSlot: nat, n: nat, signer: nat, m: nat)
    requires |shuffled| > 0
    ensures Missed(shuffled, absSlot, n, signer, m) == if m == signer then 0 else |MissedTurns(shuffled, absSlot, n, m)|
  {
    if n == 0 {
      assert MissedTurns(shuffled, absSlot, n, m) == {};
    } else {
      MissedAre(shuffled, absSlot, n - 1, signer, m);
      if shuffled[(absSlot + n) % |shuffled|] == m {
        assert MissedTurns(shuffled, absSlot, n, m) == MissedTurns(shuffled, absSlot, n - 1, m) + {n};
      } else {
        assert MissedTurns(shuffled, absSlot, n, m) == MissedTurns(shuffled, absSlot, n - 1, m);
      }
    }
  }

  class Schedule {
    const interval: nat
    const skipSlots: nat
    var headNum: nat
    var headTime: nat
    var currentAslot: nat
    var maintenance: bool
    var shuffled: seq<nat>
    var totalMissed: seq<nat>
    var lastAslot: seq<nat>

    function Now(): Clock
      reads this
    {
      Clock(headNum, headTime, interval, maintenance, skipSlots)
    }

    ghost predicate Valid()
      reads this
    {
      && interval > 0 && |shuffled| > 0 && |totalMissed| == |lastAslot|
      && forall i :: 0 <= i < |shuffled| ==> shuffled[i] < |totalMissed|
    }

    function ScheduledMiner(slot: nat): nat
      requires Valid()
      reads this
    {
      MinerAt(shuffled, currentAslot + slot)
    }

    constructor (interval: nat, skipSlots: nat, genesis: nat, miners: seq<nat>, known: nat)
      requires interval > 0 && |miners| > 0 && forall i :: 0 <= i < |miners| ==> miners[i] < known
      ensures Valid() && Now() == Clock(0, genesis, interval, false, skipSlots)
      ensures shuffled == miners && currentAslot == 0
    {
      this.interval, this.skipSlots := interval, skipSlots;
      headNum, headTime, currentAslot, maintenance := 0, genesis, 0, false;
      shuffled := miners;
      totalMissed, lastAslot := seq(known, i => 0), seq(known, i => 0);
    }

    /** The header check: the block is later than the head and signed by the miner of its slot. */
    predicate MaySign(time: nat, miner: nat)
      requires Valid()
      reads this
    {
      var slot := SlotAtTime(Now(), time);
      headTime < time && slot > 0 && miner == ScheduledMiner(slot)
    }

    /** Books the missed slots before the block's own against the miners whose turn they were. */
    method RecordMissed(missed: nat, signer: nat)
      requires Valid()
      modifies this`totalMissed
      ensures Valid() && |totalMissed| == |old(totalMissed)|
      ensures forall m :: 0 <= m < |totalMissed| ==>
                totalMissed[m] == old(totalMissed)[m] + Missed(shuffled, currentAslot, missed, signer, m)
    {
      var i := 0;
      while i < missed
        invariant 0 <= i <= missed && Valid() && |totalMissed| == |old(totalMissed)|
        invariant forall m :: 0 <= m < |totalMissed| ==>
                    totalMissed[m] == old(totalMissed)[m] + Missed(shuffled, currentAslot, i, signer, m)
      {
        var turn := ScheduledMiner(i + 1);
        if turn != signer {
          totalMissed := totalMissed[turn := totalMissed[turn] + 1];
        }
        i := i + 1;
      }
    }

    /**
      * A block moves the head and the absolute slot. The maintenance flag of the
      * block before it is still in force.
      */
    method UpdateGlobalDynamicData(time: nat, miner: nat)
      requires Valid() && MaySign(time, miner)
      modifies this`headNum, this`headTime, this`currentAslot, this`totalMissed
      ensures Valid()
      ensures Now() == After(old(Now()), time, old(maintenance))
      ensures currentAslot == old(currentAslot) + SlotAtTime(old(Now()), time)
      ensures shuffled[currentAslot % |shuffled|] == miner
      ensures |totalMissed| == |old(totalMissed)|
      ensures forall m :: 0 <= m < |totalMissed| ==>
                totalMissed[m] == old(totalMissed)[m]
                                  + if m == miner then 0
                                    else |MissedTurns(shuffled, old(currentAslot), SlotAtTime(old(Now()), time) - 1, m)|
    {
      var missed := SlotAtTime(Now(), time);
      missed := missed - 1;
      RecordMissed(missed, miner);
      forall m | 0 <= m < |totalMissed|
        ensures Missed(shuffled, currentAslot, missed, miner, m)
                == if m == miner then 0 else |MissedTurns(shuffled, currentAslot, missed, m)|
      {
        MissedAre(shuffled, currentAslot, missed, miner, m);
      }
      headNum := headNum + 1;
      headTime := time;
      currentAslot := currentAslot + missed + 1;
    }

    /** The signing miner's last slot is the absolute slot of its block: by now the block's time is slot 0. */
    method UpdateSigningMiner(time: nat, miner: nat)
      requires Valid() && miner < |lastAslot| && headTime == time
      modifies this`lastAslot
      ensures Valid() && lastAslot == old(lastAslot)[miner := currentAslot]
    {
      HeadIsSlotZero(Now());
      lastAslot := lastAslot[miner := currentAslot + SlotAtTime(Now(), time)];
    }

    method UpdateMaintenanceFlag(flag: bool)
      requires Valid()
      modifies this`maintenance
      ensures Valid() && maintenance == flag
    {
      maintenance := flag;
    }

    /** At the start of a round the active miners are shuffled; otherwise nothing happens. */
    method UpdateMinerSchedule(active: seq<nat>)
      requires Valid() && |active| > 0
      requires forall i :: 0 <= i < |active| ==> active[i] < |totalMissed|
      modifies this`shuffled
      ensures Valid()
      ensures headNum % |active| == 0 ==> shuffled == Shuffled(active, headTime, 0, Draw)
      ensures headNum % |active| == 0 ==> multiset(shuffled) == multiset(active)
      ensures headNum % |active| != 0 ==> shuffled == old(shuffled)
    {
      if headNum % |active| != 0 {
        return;
      }
      var a := new nat[|active|](i requires 0 <= i < |active| => active[i]);
      assert a[..] == active;
      Shuffle(a, headTime, Draw);
      shuffled := a[..];
      ShuffledPermutes(active, headTime, 0, Draw);
      SameMembers(active, shuffled);
    }
  }

  /** The position that is swapped with position `i` of `n`. */
  function Partner(n: nat, time: nat, i: nat, draw: (nat, nat) -> nat): (j: nat)
    requires i < n
    ensures i <= j < n
  {
    i + draw(time, i) % (n - i)
  }

  /** The list after the swaps from position `i` on. */
  function Shuffled(s: seq<nat>, time: nat, i: nat, draw: (nat, nat) -> nat): seq<nat>
    decreases |s| - i
  {
    if i >= |s| then s
    else
      var j := Partner(|s|, time, i, draw);
      Shuffled(s[i := s[j]][j := s[i]], time, i + 1, draw)
  }

  /** Whatever is drawn, the shuffle only rearranges. */
  lemma {:induction false} ShuffledPermutes(s: seq<nat>, time: nat, i: nat, draw: (nat, nat) -> nat)
    ensures multiset(Shuffled(s, time, i, draw)) == multiset(s)
    decreases |s| - i
  {
    if i < |s| {
      var j := Partner(|s|, time, i, draw);
      ShuffledPermutes(s[i := s[j]][j := s[i]], time, i + 1, draw);
    }
  }

  /** Position `i` takes what the draw picks from there on, and what lies before stays. */
  lemma {:induction false} ShuffledHead(s: seq<nat>, time: nat, i: nat, draw: (nat, nat) -> nat)
    requires i < |s|
    ensures var r := Shuffled(s, time, i, draw);
            |r| == |s| && r[..i] == s[..i] && r[i] == s[i + draw(time, i) % (|s| - i)]
    decreases |s| - i
  {
    var j := Partner(|s|, time, i, draw);
    var t := s[i := s[j]][j := s[i]];
    if i + 1 < |s| {
      ShuffledHead(t, time, i + 1, draw);
      var r := Shuffled(t, time, i + 1, draw);
      assert r[..i] == r[..i + 1][..i] && r[i] == r[..i + 1][i];
      assert t[..i] == s[..i] && t[..i + 1][..i] == t[..i];
    } else {
      assert Shuffled(t, time, i + 1, draw) == t;
    }
  }

  /** Only the draws from position `i` on matter. */
  lemma {:induction false} ShuffledAgrees(s: seq<nat>, time: nat, i: nat, draw: (nat, nat) -> nat, other: (nat, nat) -> nat)
    requires forall k: nat :: i <= k < |s| ==> draw(time, k) == other(time, k)
    ensures Shuffled(s, time, i, draw) == Shuffled(s, time, i, other)
    decreases |s| - i
  {
    if i < |s| {
      var j := Partner(|s|, time, i, draw);
      ShuffledAgrees(s[i := s[j]][j := s[i]], time, i + 1, draw, other);
    }
  }

  ghost function Listed(draws: seq<nat>): (nat, nat) -> nat {
    (time: nat, k: nat) => if k < |draws| then draws[k] else 0
  }

  /** No order is left out: whatever the rearrangement, some draws lead to it. */
  lemma {:induction false} EveryOrder(s: seq<nat>, t: seq<nat>, time: nat, i: nat) returns (draws: seq<nat>)
    requires multiset(s) == multiset(t) && i <= |s| && |s| == |t| && s[..i] == t[..i]
    ensures |draws| == |s| && Shuffled(s, time, i, Listed(draws)) == t
    decreases |s| - i
  {
    if i == |s| {
      draws := seq(|s|, k => 0);
      assert s == s[..i] && t == t[..i];
    } else {
      var j := FoundBehind(s, t, i);
      var u := Swapped(s, t, i, j);
      var later := EveryOrder(u, t, time, i + 1);
      draws := later[i := j - i];
      OneDraw(s, u, time, i, j, draws, later);
    }
  }

  lemma Swapped(s: seq<nat>, t: seq<nat>, i: nat, j: nat) returns (u: seq<nat>)
    requires i <= j < |s| == |t| && s[..i] == t[..i] && s[j] == t[i]
    ensures u == s[i := s[j]][j := s[i]] && multiset(u) == multiset(s) && |u| == |s| && u[..i + 1] == t[..i + 1]
  {
    u := s[i := s[j]][j := s[i]];
    assert u[..i + 1] == s[..i] + [t[i]] && t[..i + 1] == t[..i] + [t[i]];
  }

  lemma OneDraw(s: seq<nat>, u: seq<nat>, time: nat, i: nat, j: nat, draws: seq<nat>, later: seq<nat>)
    requires i <= j < |s| == |later| && draws == later[i := j - i] && u == s[i := s[j]][j := s[i]]
    ensures Shuffled(s, time, i, Listed(draws)) == Shuffled(u, time, i + 1, Listed(later))
  {
    Offset(j - i, |s| - i);
    ShuffledAgrees(u, time, i + 1, Listed(draws), Listed(later));
  }

  lemma Offset(d: nat, n: nat)
    requires d < n
    ensures d % n == d
  {
  }

  lemma FoundBehind(s: seq<nat>, t: seq<nat>, i: nat) returns (j: nat)
    requires multiset(s) == multiset(t) && i < |s| == |t| && s[..i] == t[..i]
    ensures i <= j < |s| && s[j] == t[i]
  {
    assert s == s[..i] + s[i..] && t == t[..i] + t[i..];
    assert multiset(s) == multiset(s[..i]) + multiset(s[i..]) && multiset(t) == multiset(t[..i]) + multiset(t[i..]);
    assert multiset(s[i..]) == multiset(s) - multiset(s[..i]) && multiset(t[i..]) == multiset(t) - multiset(t[..i]);
    assert t[i..][0] == t[i] && t[i] in multiset(t[i..]) && t[i] in multiset(s[i..]);
    var k :| 0 <= k < |s[i..]| && s[i..][k] == t[i];
    j := i + k;
  }

  /** One draw worked out: the words, shifts and products are those of the source. */
  lemma DrawKnown()
    ensures Scrambled(0x1_0000_0000) == 4396774442519208864
    ensures Scrambled(MULTIPLIER) == 12492341101037700564
    ensures Scrambled(6581710109644819403) == 15710834402893620840
  {
  }

  /** What is scrambled is the time above, the multiplied position added, wrapped at 64 bits. */
  lemma DrawIs(time: nat, i: nat, k: bv64)
    requires k as nat == (time * 4294967296 + i * 2685821657736338717) % 18446744073709551616
    ensures Draw(time, i) == Scrambled(k) as nat
  {
  }

  method Shuffle(a: array<nat>, time: nat, draw: (nat, nat) -> nat)
    modifies a
    ensures a[..] == Shuffled(old(a[..]), time, 0, draw)
  {
    var i := 0;
    while i < a.Length
      invariant 0 <= i <= a.Length
      invariant Shuffled(a[..], time, i, draw) == Shuffled(old(a[..]), time, 0, draw)
    {
      ghost var before := a[..];
      var k := draw(time, i);
      var jmax := a.Length - i;
      var j := i + k % jmax;
      a[i], a[j] := a[j], a[i];
      assert a[..] == before[i := before[j]][j := before[i]];
      i := i + 1;
    }
  }

  lemma SameMembers(s: seq<nat>, t: seq<nat>)
    requires multiset(s) == multiset(t)
    ensures |s| == |t|
    ensures forall i :: 0 <= i < |t| ==> t[i] in s
  {
    assert |multiset(s)| == |multiset(t)|;
    forall i | 0 <= i < |t| ensures t[i] in s {
      assert t[i] in multiset(t);
    }
  }
}
