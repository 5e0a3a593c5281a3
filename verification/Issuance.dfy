/**
  * Issuance: how many new tokens each block mines. The reward falls at fixed
  * block numbers, and everything ever mined is fixed with it.
  */
module Issuance {

  /** The size of both tables. */
  const STEPS: nat := 96
  const TOTAL_ISSUE: nat := 20_000_000_000_000_000
  const LAST_REWARDED: nat := 4_081_173_368

  /** The block number from which the reward after entry `i` applies: 94 equal steps, a last long one, and an end. */
  function Split(i: nat): nat
    requires i < STEPS
  {
    if i < 94 then 1_052_000 * (i + 1) else if i == 94 then 4_081_173_369 else 4_100_000_000
  }

  /** The reward of the blocks before split `i`: eight rows of twelve. */
  function BlockReward(i: nat): nat {
    if i < 48 then
      if i < 24 then if i < 12 then FirstRow(i) else SecondRow(i - 12)
      else if i < 36 then ThirdRow(i - 24) else FourthRow(i - 36)
    else
      if i < 72 then if i < 60 then FifthRow(i - 48) else SixthRow(i - 60)
      else if i < 84 then SeventhRow(i - 72) else EighthRow(i - 84)
  }

  function FirstRow(i: nat): nat {
    match i
    case 0 => 3802281369 case 1 => 3041825095 case 2 => 2433460076 case 3 => 1946768061
    case 4 => 1557414449 case 5 => 1245931559 case 6 => 996745247 case 7 => 797396198
    case 8 => 637916956 case 9 => 510333564 case 10 => 408266851 case _ => 326613480
  }

  function SecondRow(i: nat): nat {
    match i
    case 0 => 261290784 case 1 => 209032627 case 2 => 167226101 case 3 => 133780880
    case 4 => 107024704 case 5 => 85619763 case 6 => 68495810 case 7 => 54796648
    case 8 => 43837318 case 9 => 35069854 case 10 => 28055883 case _ => 22444706
  }

  function ThirdRow(i: nat): nat {
    match i
    case 0 => 17955764 case 1 => 14364611 case 2 => 11491688 case 3 => 9193350
    case 4 => 7354680 case 5 => 5883744 case 6 => 4706995 case 7 => 3765596
    case 8 => 3012476 case 9 => 2409980 case 10 => 1927984 case _ => 1542387
  }

  function FourthRow(i: nat): nat {
    match i
    case 0 => 1233909 case 1 => 987127 case 2 => 789701 case 3 => 631760
    case 4 => 505408 case 5 => 404326 case 6 => 323460 case 7 => 258768
    case 8 => 207014 case 9 => 165611 case 10 => 132488 case _ => 105990
  }

  function FifthRow(i: nat): nat {
    match i
    case 0 => 84792 case 1 => 67833 case 2 => 54266 case 3 => 43412
    case 4 => 34729 case 5 => 27783 case 6 => 22226 case 7 => 17780
    case 8 => 14224 case 9 => 11379 case 10 => 9103 case _ => 7282
  }

  function SixthRow(i: nat): nat {
    match i
    case 0 => 5825 case 1 => 4660 case 2 => 3728 case 3 => 2982
    case 4 => 2385 case 5 => 1908 case 6 => 1526 case 7 => 1220
    case 8 => 976 case 9 => 780 case 10 => 624 case _ => 499
  }

  function SeventhRow(i: nat): nat {
    match i
    case 0 => 399 case 1 => 319 case 2 => 255 case 3 => 204
    case 4 => 163 case 5 => 130 case 6 => 104 case 7 => 83
    case 8 => 66 case 9 => 52 case 10 => 41 case _ => 32
  }

  function EighthRow(i: nat): nat {
    match i
    case 0 => 25 case 1 => 20 case 2 => 16 case 3 => 12
    case 4 => 9 case 5 => 7 case 6 => 5 case 7 => 4
    case 8 => 3 case 9 => 2 case 10 => 1 case _ => 0
  }

  /** The first split after `block`, from entry `i` on; the table's size when there is none. */
  function UpperBound(block: nat, i: nat): (r: nat)
    requires i <= STEPS
    ensures i <= r <= STEPS
    ensures forall j :: i <= j < r ==> Split(j) <= block
    ensures r < STEPS ==> block < Split(r)
    decreases STEPS - i
  {
    if i < STEPS && Split(i) <= block then UpperBound(block, i + 1) else i
  }

  function AssetPerBlock(block: nat): nat {
    var i := UpperBound(block, 0);
    BlockReward(if i < STEPS then i else STEPS - 1)
  }

  /** Everything that blocks 1 to `h` mine when block `n` mines `reward(n)`. */
  function Mined(h: nat, reward: nat -> nat): nat {
    if h == 0 then 0 else Mined(h - 1, reward) + reward(h)
  }

  /** Everything mined by blocks 1 to `h`. */
  function Issued(h: nat): nat {
    Mined(h, AssetPerBlock)
  }

  // ---- Which entry applies ----

  /** The first block of stretch `i`, the one that pays entry `i`. */
  function FirstOf(i: nat): nat
    requires i < STEPS
  {
    if i == 0 then 1 else Split(i - 1)
  }

  /** Every block of every stretch mines what `table` has for it, and the blocks after the last one mine nothing. */
  ghost predicate Follows(reward: nat -> nat, table: nat -> nat) {
    && (forall h: nat, i: nat :: i < STEPS && FirstOf(i) <= h < Split(i) ==> reward(h) == table(i))
    && (forall h: nat :: h >= Split(94) ==> reward(h) == 0)
  }

  lemma InStretch(h: nat, i: nat)
    requires i < STEPS && FirstOf(i) <= h < Split(i)
    ensures UpperBound(h, 0) == i
  {
    var r := UpperBound(h, 0);
    StretchesApart(r, i);
    StretchesApart(i, r);
  }

  lemma StretchesApart(r: nat, i: nat)
    requires r <= STEPS && i < STEPS
    ensures r < i ==> Split(r) <= FirstOf(i)
  {
  }

  lemma PastTheEnd(h: nat)
    requires h >= Split(94)
    ensures UpperBound(h, 0) >= 95
  {
    var r := UpperBound(h, 0);
    if r < 95 { StretchesApart(r, 95); }
  }

  lemma LastIsNothing()
    ensures BlockReward(95) == 0
  {
  }

  lemma TableFollowed()
    ensures Follows(AssetPerBlock, BlockReward)
  {
    forall h: nat, i: nat | i < STEPS && FirstOf(i) <= h < Split(i)
      ensures AssetPerBlock(h) == BlockReward(i)
    {
      InStretch(h, i);
    }
    forall h: nat | h >= Split(94) ensures AssetPerBlock(h) == 0 {
      PastTheEnd(h);
      LastIsNothing();
    }
  }

  // ---- The reward never rises ----

  /** Every entry is four fifths of the one before, but for a rounding of at most twelve fifths. */
  lemma RewardFalls(i: nat)
    requires i < STEPS - 1
    ensures BlockReward(i) > BlockReward(i + 1)
    ensures -12 <= 5 * BlockReward(i + 1) - 4 * BlockReward(i) <= 4
  {
  }

  ghost predicate Falling(table: nat -> nat) {
    forall i: nat :: i < STEPS - 1 ==> table(i) > table(i + 1)
  }

  lemma TableFalls()
    ensures Falling(BlockReward)
  {
    forall i: nat | i < STEPS - 1 ensures BlockReward(i) > BlockReward(i + 1) {
      RewardFalls(i);
    }
  }

  lemma {:induction false} TableOrder(table: nat -> nat, i: nat, j: nat)
    requires Falling(table) && i <= j < STEPS
    ensures table(i) >= table(j)
    decreases j
  {
    if i < j {
      TableOrder(table, i, j - 1);
      assert table(j - 1) > table(j - 1 + 1);
    }
  }

  lemma LaterEntry(h: nat, k: nat)
    requires h <= k
    ensures UpperBound(h, 0) <= UpperBound(k, 0)
  {
  }

  /** The reward of a block never increases with its number. */
  lemma NeverIncreases(h: nat, k: nat)
    requires h <= k
    ensures AssetPerBlock(k) <= AssetPerBlock(h)
  {
    LaterEntry(h, k);
    TableFalls();
    var i, j := UpperBound(h, 0), UpperBound(k, 0);
    TableOrder(BlockReward, if i < STEPS then i else STEPS - 1, if j < STEPS then j else STEPS - 1);
  }

  // ---- What has been mined ----

  /** What stretch `i` mines at `each` per block. */
  function Stretch(each: nat, i: nat): int
    requires i < STEPS
  {
    each * (Split(i) - FirstOf(i))
  }

  /** Everything mined in the stretches before `i`. */
  function Before(i: nat, table: nat -> nat): int
    requires i < STEPS
    decreases i
  {
    if i == 0 then 0 else Before(i - 1, table) + Stretch(table(i - 1), i - 1)
  }

  /** Blocks that mine the same add up by multiplication. */
  lemma {:induction false} MinedEvenly(a: nat, n: nat, each: nat, reward: nat -> nat)
    requires forall h: nat :: a < h <= a + n ==> reward(h) == each
    ensures Mined(a + n, reward) == Mined(a, reward) + each * n
  {
    if n == 0 {
    } else {
      MinedEvenly(a, n - 1, each, reward);
      assert each * n == each * (n - 1) + each;
    }
  }

  lemma {:induction false} MinedBefore(i: nat, reward: nat -> nat, table: nat -> nat)
    requires i < STEPS && Follows(reward, table)
    ensures Mined(FirstOf(i) - 1, reward) == Before(i, table)
  {
    if i == 0 {
    } else {
      var a, n := FirstOf(i - 1) - 1, Split(i - 1) - FirstOf(i - 1);
      MinedBefore(i - 1, reward, table);
      MinedEvenly(a, n, table(i - 1), reward);
      assert a + n == FirstOf(i) - 1;
    }
  }

  /** The same, for the real table. */
  function Planned(i: nat): int
    requires i < STEPS
  {
    if i == 0 then 0 else Planned(i - 1) + Stretch(BlockReward(i - 1), i - 1)
  }

  lemma {:induction false} PlannedIsBefore(i: nat)
    requires i < STEPS
    ensures Planned(i) == Before(i, BlockReward)
  {
    if i == 0 {
    } else {
      PlannedIsBefore(i - 1);
    }
  }

  lemma FirstQuarter()
    ensures Planned(24) == 19905548835834631
  {
    assert Planned(8) == 16644552998526631;
    assert Planned(16) == 19437046226162631;
  }

  lemma SecondQuarter()
    requires Planned(24) == 19905548835834631
    ensures Planned(48) == 19999550103318631
  {
    assert Planned(32) == 19984150518090631;
    assert Planned(40) == 19997337678938631;
  }

  lemma ThirdQuarter()
    requires Planned(48) == 19999550103318631
    ensures Planned(72) == 19999993965262631
  {
    assert Planned(56) == 19999921271010631;
    assert Planned(64) == 19999983531526631;
  }

  lemma LastQuarter()
    requires Planned(72) == 19999993965262631
    ensures Planned(95) == 20000000000000000
  {
    assert Planned(80) == 19999995708426631;
    assert Planned(88) == 19999995986154631;
  }

  lemma Totals()
    ensures Before(95, BlockReward) == TOTAL_ISSUE
  {
    FirstQuarter();
    SecondQuarter();
    ThirdQuarter();
    LastQuarter();
    PlannedIsBefore(95);
  }

  lemma {:induction false} MinedGrows(h: nat, k: nat, reward: nat -> nat)
    requires h <= k
    ensures Mined(h, reward) <= Mined(k, reward)
  {
    if h == k {
    } else {
      MinedGrows(h, k - 1, reward);
    }
  }

  /** When no block after `last` is rewarded, but that one is, the total is reached with it and not earlier. */
  lemma MinedTotal(h: nat, last: nat, total: int, reward: nat -> nat)
    requires 0 < last && reward(last) > 0 && Mined(last, reward) == total
    requires forall k: nat :: k > last ==> reward(k) == 0
    ensures Mined(h, reward) <= total && (Mined(h, reward) == total <==> h >= last)
  {
    if h >= last {
      MinedEvenly(last, h - last, 0, reward);
    } else {
      MinedGrows(h, last - 1, reward);
    }
  }

  lemma LastReward()
    ensures BlockReward(94) == 1
  {
  }

  /**
    * However long the chain, no more than the total issue is ever mined, and it
    * is reached exactly with block 4,081,173,368.
    */
  lemma IssuanceBound(h: nat)
    ensures Issued(h) <= TOTAL_ISSUE
    ensures Issued(h) == TOTAL_ISSUE <==> h >= LAST_REWARDED
  {
    LastStretch();
    MinedTotal(h, LAST_REWARDED, TOTAL_ISSUE, AssetPerBlock);
  }

  lemma LastStretch()
    ensures Mined(LAST_REWARDED, AssetPerBlock) == TOTAL_ISSUE && AssetPerBlock(LAST_REWARDED) > 0
    ensures forall k: nat :: k > LAST_REWARDED ==> AssetPerBlock(k) == 0
  {
    TableFollowed();
    Totals();
    LastReward();
    MinedAll(LAST_REWARDED, TOTAL_ISSUE, AssetPerBlock, BlockReward);
  }

  lemma MinedAll(last: nat, total: int, reward: nat -> nat, table: nat -> nat)
    requires Follows(reward, table) && table(94) > 0 && last == FirstOf(95) - 1 && total == Before(95, table)
    ensures Mined(last, reward) == total && reward(last) > 0
    ensures forall k: nat :: k > last ==> reward(k) == 0
  {
    MinedBefore(95, reward, table);
    assert reward(last) == table(94);
  }
}
