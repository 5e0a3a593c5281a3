/**
  * The summary of a chain that one node sends to another to find their last
  * common block. The application summarizes the blocks it has and leaves room
  * for the ids the peer has offered; the network code fills those in.
  */
module Synopsis {
  import opened Blocks
  import opened Options

  // ---- The simple summary ----

  /** The next number summarized: half of what is left further on. */
  function Next(low: nat, high: nat): (next: nat)
    requires low <= high
    ensures low < next <= high + 1
    ensures high + 1 - next == (high + 1 - low) / 2
  {
    low + (high - low + 2) / 2
  }

  /** The summarized block numbers: from `low` on, always half of what is left further. */
  function Summary(low: nat, high: nat): (s: seq<nat>)
    ensures low <= high ==> s != [] && s[0] == low
    ensures low > high ==> s == []
    decreases high + 1 - low
  {
    if low > high then [] else [low] + Summary(Next(low, high), high)
  }

  /** The number of binary digits of `m`. */
  function BitLength(m: nat): nat {
    if m == 0 then 0 else 1 + BitLength(m / 2)
  }

  /** Block numbers rise, stay in range, and end at the top. */
  lemma {:induction false} SummaryShape(low: nat, high: nat)
    ensures forall i, j :: 0 <= i < j < |Summary(low, high)| ==> Summary(low, high)[i] < Summary(low, high)[j]
    ensures forall i :: 0 <= i < |Summary(low, high)| ==> low <= Summary(low, high)[i] <= high
    ensures low <= high ==> Summary(low, high)[|Summary(low, high)| - 1] == high
    decreases high + 1 - low
  {
    if low > high {
    } else {
      SummaryShape(Next(low, high), high);
    }
  }

  /** It is exactly as long as the number of blocks is in binary. */
  lemma {:induction false} SummaryLength(low: nat, high: nat)
    requires low <= high + 1
    ensures |Summary(low, high)| == BitLength(high + 1 - low)
    decreases high + 1 - low
  {
    if low > high {
    } else {
      SummaryLength(Next(low, high), high);
    }
  }

  // ---- The joined chain ----

  /** The chain a synopsis is about: blocks of our chain up to `nonFork`, blocks of a fork, and offered ids. */
  datatype Joined = Joined(main: seq<BlockId>, nonFork: nat, fork: seq<BlockId>, offered: seq<BlockId>)
  {
    function High(): nat { nonFork + |fork| }

    function Top(): nat { High() + |offered| }

    ghost predicate Numbered() {
      && nonFork <= |main|
      && (forall i :: 0 <= i < |main| ==> main[i].num == i + 1)
      && (forall i :: 0 <= i < |fork| ==> fork[i].num == nonFork + i + 1)
      && (forall i :: 0 <= i < |offered| ==> offered[i].num == High() + i + 1)
    }

    function IdAt(num: nat): BlockId
      requires nonFork <= |main| && 0 < num <= Top()
    {
      if num <= nonFork then main[num - 1]
      else if num <= High() then fork[num - nonFork - 1]
      else offered[num - High() - 1]
    }

    /** The ids of some of its blocks. */
    function Ids(nums: seq<nat>): (ids: seq<BlockId>)
      requires nonFork <= |main| && forall i :: 0 <= i < |nums| ==> 0 < nums[i] <= Top()
      ensures |ids| == |nums|
    {
      if nums == [] then [] else [IdAt(nums[0])] + Ids(nums[1..])
    }
  }

  /** The summary of the joined chain, from `low` to its top, as ids. */
  function JoinedSummary(j: Joined, low: nat): seq<BlockId>
    requires j.nonFork <= |j.main| && low > 0
  {
    InRange(low, j.Top());
    j.Ids(Summary(low, j.Top()))
  }

  lemma InRange(low: nat, high: nat)
    ensures forall i :: 0 <= i < |Summary(low, high)| ==> low <= Summary(low, high)[i] <= high
  {
    SummaryShape(low, high);
  }

  /** The part of the summary with numbers up to the joined chain's own blocks. */
  function OwnPart(j: Joined, low: nat): seq<BlockId>
    requires j.nonFork <= |j.main| && low > 0
    decreases j.Top() + 1 - low
  {
    if low > j.High() then [] else [j.IdAt(low)] + OwnPart(j, Next(low, j.Top()))
  }

  /** The part of the summary with offered ids only. */
  function OfferedPart(j: Joined, low: nat): seq<BlockId>
    requires j.nonFork <= |j.main| && low > 0
    decreases j.Top() + 1 - low
  {
    if low > j.Top() then []
    else (if low > j.High() then [j.IdAt(low)] else []) + OfferedPart(j, Next(low, j.Top()))
  }

  lemma JoinedStep(j: Joined, low: nat)
    requires j.nonFork <= |j.main| && 0 < low <= j.Top()
    ensures JoinedSummary(j, low) == [j.IdAt(low)] + JoinedSummary(j, Next(low, j.Top()))
  {
    var next := Next(low, j.Top());
    InRange(low, j.Top());
    InRange(next, j.Top());
    assert Summary(low, j.Top())[1..] == Summary(next, j.Top());
  }

  /** The two parts join without a seam. */
  lemma {:induction false} PartsJoin(j: Joined, low: nat)
    requires j.nonFork <= |j.main| && low > 0
    ensures JoinedSummary(j, low) == OwnPart(j, low) + OfferedPart(j, low)
    decreases j.Top() + 1 - low
  {
    if low > j.Top() {
    } else {
      var next := Next(low, j.Top());
      PartsJoin(j, next);
      JoinedStep(j, low);
      Associative([j.IdAt(low)], OwnPart(j, next), OfferedPart(j, next));
      if low > j.High() {
        assert OwnPart(j, low) == [] && OwnPart(j, next) == [];
      } else {
        assert OfferedPart(j, low) == OfferedPart(j, next);
      }
    }
  }

  // ---- The application's part ----

  /** The block is on our main chain. */
  predicate Included(main: seq<BlockId>, id: BlockId) {
    0 < id.num <= |main| && main[id.num - 1] == id
  }

  function Reversed(ids: seq<BlockId>): (r: seq<BlockId>)
    ensures |r| == |ids| && forall i :: 0 <= i < |ids| ==> r[i] == ids[|ids| - 1 - i]
  {
    if ids == [] then [] else Reversed(ids[1..]) + [ids[0]]
  }

  /** A path from the reference point down to the block it shares with the main chain, which may be before the first. */
  ghost predicate ForkPath(main: seq<BlockId>, reference: BlockId, path: seq<BlockId>) {
    && |path| >= 2 && path[0] == reference && path[|path| - 1].num <= |main|
    && forall i :: 0 <= i < |path| - 1 ==> path[i].num == path[i + 1].num + 1
  }

  /** There is no block 0. */
  function AtLeastOne(low: nat): (r: nat)
    ensures r > 0
  {
    if low == 0 then 1 else low
  }

  /** What the application knows: its main chain, how far back it can undo, and the fork the reference point is on. */
  datatype Knowledge = Knowledge(main: seq<BlockId>, lastNonUndoable: nat, reference: Option<BlockId>, path: seq<BlockId>)
  {
    ghost predicate Sensible() {
      && (forall i :: 0 <= i < |main| ==> main[i].num == i + 1)
      && lastNonUndoable <= |main|
      && (reference.Some? && !Included(main, reference.value) ==> ForkPath(main, reference.value, path))
    }

    /** The chain the synopsis is to be about, once the offered ids are joined on. */
    function About(offered: seq<BlockId>): Joined {
      if reference.None? then Joined(main, |main|, [], offered)
      else if Included(main, reference.value) then Joined(main, reference.value.num, [], offered)
      else if path == [] then Joined(main, 0, [], offered)
      else Joined(main, path[|path| - 1].num, Reversed(path[..|path| - 1]), offered)
    }

    /** The first block summarized: the last that cannot be undone, but not before block 1 and not past the reference point. */
    function From(): nat {
      var low := if reference.Some? && Included(main, reference.value) && reference.value.num < lastNonUndoable
                 then reference.value.num else lastNonUndoable;
      AtLeastOne(low)
    }

    /** The fork left the main chain before anything that could still be undone. */
    predicate Unreachable() {
      && reference.Some? && !Included(main, reference.value) && path != []
      && path[|path| - 1].num < lastNonUndoable
    }
  }

  // ---- What a synopsis is to hold ----

  /** The last block that our main chain and the chain of the synopsis share; 0 when they share none. */
  ghost function LastShared(k: Knowledge): nat
    requires k.Sensible()
  {
    if k.reference.None? then |k.main|
    else if k.reference.value in k.main then k.reference.value.num
    else
      OnMain(k.main, k.reference.value);
      k.path[|k.path| - 1].num
  }

  /** The last block of it that we have. */
  ghost function LastOwn(k: Knowledge): nat {
    if k.reference.None? then |k.main| else k.reference.value.num
  }

  /** Up to the last shared block an entry is our block of that number, then one of the path, then one that was offered. */
  ghost predicate ComesFrom(k: Knowledge, offered: seq<BlockId>, id: BlockId)
    requires k.Sensible()
  {
    && id.num > 0
    && if id.num <= LastShared(k) then id.num <= |k.main| && id == k.main[id.num - 1]
       else if id.num <= LastOwn(k) then id in k.path
       else id in offered
  }

  /** The peer's chain left ours before what can still be undone. */
  ghost predicate ForkedTooEarly(k: Knowledge)
    requires k.Sensible()
  {
    k.reference.Some? && k.reference.value !in k.main && LastShared(k) < k.lastNonUndoable
  }

  /** The first entry is the last block that cannot be undone, but not before block 1, or the reference point when that is earlier. */
  ghost predicate IsFirst(k: Knowledge, id: BlockId) {
    if k.reference.Some? && k.reference.value in k.main && k.reference.value.num < k.lastNonUndoable
    then id == k.reference.value
    else id.num == if k.lastNonUndoable == 0 then 1 else k.lastNonUndoable
  }

  /** The last entry is the last id offered, or else the reference point, or else our last block. */
  ghost predicate IsLast(k: Knowledge, offered: seq<BlockId>, id: BlockId)
    requires offered != [] || k.reference.Some? || k.main != []
  {
    id == if offered != [] then offered[|offered| - 1]
          else if k.reference.Some? then k.reference.value else k.main[|k.main| - 1]
  }

  ghost predicate HasNumbers(s: seq<BlockId>, nums: seq<nat>) {
    |s| == |nums| && forall i :: 0 <= i < |s| ==> s[i].num == nums[i]
  }

  /** The entries come from where they should, and have the numbers of the simple summary from the first to the last. */
  ghost predicate IsSynopsis(k: Knowledge, offered: seq<BlockId>, s: seq<BlockId>)
    requires k.Sensible()
  {
    var top := LastOwn(k) + |offered|;
    && (s == [] <==> offered == [] && k.reference.None? && k.main == [])
    && (forall i :: 0 <= i < |s| ==> ComesFrom(k, offered, s[i]))
    && (s != [] ==> IsFirst(k, s[0]) && IsLast(k, offered, s[|s| - 1]) && HasNumbers(s, Summary(s[0].num, top)))
  }

  lemma OnMain(main: seq<BlockId>, id: BlockId)
    ensures Included(main, id) ==> id in main
    ensures (forall i :: 0 <= i < |main| ==> main[i].num == i + 1) && id in main ==> Included(main, id)
  {
  }

  lemma {:induction false} PathNumbers(main: seq<BlockId>, reference: BlockId, path: seq<BlockId>, i: nat)
    requires ForkPath(main, reference, path) && i < |path|
    ensures path[i].num == path[|path| - 1].num + (|path| - 1 - i)
    decreases |path| - i
  {
    if i < |path| - 1 {
      PathNumbers(main, reference, path, i + 1);
    }
  }

  /** The joined chain is numbered without gaps when the offered ids follow on. */
  lemma AboutIsNumbered(k: Knowledge, offered: seq<BlockId>)
    requires k.Sensible()
    requires forall i :: 0 <= i < |offered| ==> offered[i].num == k.About([]).High() + i + 1
    ensures k.About(offered).Numbered()
    ensures k.main != [] || k.reference.Some? ==> k.Unreachable() || k.From() <= k.About(offered).High()
  {
    var j := k.About(offered);
    if k.reference.Some? && !Included(k.main, k.reference.value) {
      var path := k.path;
      forall i | 0 <= i < |j.fork| ensures j.fork[i].num == j.nonFork + i + 1 {
        PathNumbers(k.main, k.reference.value, path, |path| - 2 - i);
      }
    }
  }

  /** Where the ids of the joined chain come from. */
  lemma AboutComesFrom(k: Knowledge, offered: seq<BlockId>, num: nat)
    requires k.Sensible() && k.About(offered).Numbered() && 0 < num <= k.About(offered).Top()
    ensures k.About(offered).High() == LastOwn(k)
    ensures k.About(offered).IdAt(num).num == num && ComesFrom(k, offered, k.About(offered).IdAt(num))
  {
    var j := k.About(offered);
    if k.reference.Some? {
      OnMain(k.main, k.reference.value);
      if k.reference.value !in k.main {
        PathNumbers(k.main, k.reference.value, k.path, 0);
        if j.nonFork < num <= j.High() {
          assert j.IdAt(num) == k.path[..|k.path| - 1][|k.path| - 2 - (num - j.nonFork - 1)];
        }
      }
    }
  }

  /** The summary of the joined chain is what a synopsis is to hold. */
  lemma JoinedIsSynopsis(k: Knowledge, offered: seq<BlockId>)
    requires k.Sensible() && !k.Unreachable() && k.About(offered).Numbered()
    requires k.main != [] || k.reference.Some? ==> k.From() <= k.About(offered).High()
    ensures IsSynopsis(k, offered, JoinedSummary(k.About(offered), k.From()))
  {
    HighIsOwn(k, offered);
    if k.About(offered).Top() > 0 {
      JoinedEnds(k, offered);
      JoinedEntries(k, offered);
    } else {
      NothingJoined(k, offered);
    }
  }

  lemma NothingJoined(k: Knowledge, offered: seq<BlockId>)
    requires k.Sensible() && k.About(offered).Numbered() && k.About(offered).Top() == 0
    ensures offered == [] && k.reference.None? && k.main == [] && JoinedSummary(k.About(offered), k.From()) == []
  {
  }

  lemma JoinedEntries(k: Knowledge, offered: seq<BlockId>)
    requires k.Sensible() && k.About(offered).Numbered()
    ensures var j, low := k.About(offered), k.From();
            && (forall i :: 0 <= i < |JoinedSummary(j, low)| ==> ComesFrom(k, offered, JoinedSummary(j, low)[i]))
            && HasNumbers(JoinedSummary(j, low), Summary(low, j.Top()))
  {
    var j, low := k.About(offered), k.From();
    InRange(low, j.Top());
    IdsShape(j, Summary(low, j.Top()));
    EntriesComeFrom(k, offered, JoinedSummary(j, low), Summary(low, j.Top()));
  }

  lemma JoinedEnds(k: Knowledge, offered: seq<BlockId>)
    requires k.Sensible() && k.About(offered).Numbered() && 0 < k.From() <= k.About(offered).Top()
    ensures var s := JoinedSummary(k.About(offered), k.From());
            && s != [] && s[0].num == k.From() && IsFirst(k, s[0])
            && (offered != [] || k.reference.Some? || k.main != []) && IsLast(k, offered, s[|s| - 1])
  {
    SynopsisShape(k.About(offered), k.From());
    AboutComesFrom(k, offered, k.From());
    StartsFrom(k, offered);
    LastOfAll(k, offered);
  }

  lemma HighIsOwn(k: Knowledge, offered: seq<BlockId>)
    requires k.Sensible()
    ensures k.About(offered).High() == LastOwn(k)
  {
    if k.reference.Some? && !Included(k.main, k.reference.value) {
      PathNumbers(k.main, k.reference.value, k.path, 0);
    }
  }

  lemma EntriesComeFrom(k: Knowledge, offered: seq<BlockId>, s: seq<BlockId>, nums: seq<nat>)
    requires k.Sensible() && k.About(offered).Numbered() && |s| == |nums|
    requires forall i :: 0 <= i < |s| ==> 0 < nums[i] <= k.About(offered).Top() && s[i] == k.About(offered).IdAt(nums[i])
    ensures forall i :: 0 <= i < |s| ==> ComesFrom(k, offered, s[i])
  {
    forall i | 0 <= i < |s| ensures ComesFrom(k, offered, s[i]) {
      AboutComesFrom(k, offered, nums[i]);
    }
  }

  /** The first entry. */
  lemma StartsFrom(k: Knowledge, offered: seq<BlockId>)
    requires k.Sensible() && k.About(offered).Numbered() && 0 < k.From() <= k.About(offered).Top()
    ensures var first := k.About(offered).IdAt(k.From());
            IsFirst(k, first)
  {
    if k.reference.Some? {
      OnMain(k.main, k.reference.value);
    }
    AboutComesFrom(k, offered, k.From());
  }

  lemma LastOfAll(k: Knowledge, offered: seq<BlockId>)
    requires k.Sensible() && k.About(offered).Numbered() && k.About(offered).Top() > 0
    ensures offered != [] || k.reference.Some? || k.main != []
    ensures IsLast(k, offered, k.About(offered).IdAt(k.About(offered).Top()))
  {
  }

  lemma TooEarly(k: Knowledge)
    requires k.Sensible()
    ensures k.Unreachable() <==> ForkedTooEarly(k)
  {
    if k.reference.Some? {
      OnMain(k.main, k.reference.value);
    }
  }

  /** An entry of the application's part. */
  ghost predicate OwnEntry(k: Knowledge, offered: seq<BlockId>, id: BlockId)
    requires k.Sensible()
  {
    id.num <= LastOwn(k) && ComesFrom(k, offered, id)
  }

  lemma {:induction false} OwnComesFrom(k: Knowledge, offered: seq<BlockId>, low: nat)
    requires k.Sensible() && k.About(offered).Numbered() && low > 0
    ensures forall id :: id in OwnPart(k.About(offered), low) ==> OwnEntry(k, offered, id)
    decreases k.About(offered).Top() + 1 - low
  {
    var j := k.About(offered);
    if low > j.High() {
    } else {
      OwnComesFrom(k, offered, Next(low, j.Top()));
      HighIsOwn(k, offered);
      AboutComesFrom(k, offered, low);
      assert OwnEntry(k, offered, j.IdAt(low));
      assert OwnPart(j, low) == [j.IdAt(low)] + OwnPart(j, Next(low, j.Top()));
    }
  }

  lemma {:induction false} OfferedComesAfter(k: Knowledge, offered: seq<BlockId>, low: nat)
    requires k.Sensible() && k.About(offered).Numbered() && low > 0
    ensures forall id :: id in OfferedPart(k.About(offered), low) ==> id.num > LastOwn(k) && id in offered
    decreases k.About(offered).Top() + 1 - low
  {
    var j := k.About(offered);
    if low > j.Top() {
    } else {
      OfferedComesAfter(k, offered, Next(low, j.Top()));
      HighIsOwn(k, offered);
    }
  }

  /** Summarizes what we have of the joined chain, leaving room for `count` offered ids. */
  method GetBlockchainSynopsis(k: Knowledge, count: nat, ghost offered: seq<BlockId>) returns (r: Option<seq<BlockId>>)
    requires k.Sensible() && count == |offered|
    requires forall i :: 0 <= i < |offered| ==> offered[i].num == k.About([]).High() + i + 1
    ensures r.None? <==> ForkedTooEarly(k)
    ensures r.Some? ==> r.value == OwnPart(k.About(offered), k.From())
    ensures r.Some? ==> forall id :: id in r.value ==> OwnEntry(k, offered, id)
  {
    TooEarly(k);
    var low := k.lastNonUndoable;
    var high, nonForkHigh := 0, 0;
    var forkHistory := [];
    if k.reference.Some? {
      var reference := k.reference.value;
      if Included(k.main, reference) {
        high, nonForkHigh := reference.num, reference.num;
        if reference.num < low {
          low := reference.num;
        }
      } else {
        forkHistory := Reversed(k.path[..|k.path| - 1]);
        nonForkHigh := k.path[|k.path| - 1].num;
        high := nonForkHigh + |forkHistory|;
        if nonForkHigh < low {
          return None;
        }
      }
    } else {
      high, nonForkHigh := |k.main|, |k.main|;
      if high == 0 {
        return Some([]);
      }
    }
    AboutIsNumbered(k, offered);
    OwnComesFrom(k, offered, k.From());
    var synopsis := Summarize(k.main, forkHistory, nonForkHigh, low, high, count, k.About(offered));
    return Some(synopsis);
  }

  /** Where the id of a block comes from: the main chain, or the fork beyond it. */
  method IdFor(main: seq<BlockId>, forkHistory: seq<BlockId>, nonForkHigh: nat, low: nat, ghost j: Joined) returns (id: BlockId)
    requires j == Joined(main, nonForkHigh, forkHistory, j.offered) && nonForkHigh <= |main|
    requires 0 < low <= j.High()
    ensures id == j.IdAt(low)
  {
    if low <= nonForkHigh {
      id := main[low - 1];
    } else {
      id := forkHistory[low - nonForkHigh - 1];
    }
  }

  /** The application's loop. */
  method Summarize(main: seq<BlockId>, forkHistory: seq<BlockId>, nonForkHigh: nat, from: nat, high: nat, count: nat, ghost j: Joined)
    returns (synopsis: seq<BlockId>)
    requires j == Joined(main, nonForkHigh, forkHistory, j.offered) && nonForkHigh <= |main|
    requires high == j.High() && high + count == j.Top()
    requires from <= high && high > 0
    ensures synopsis == OwnPart(j, AtLeastOne(from))
  {
    synopsis := [];
    var low := from;
    var trueHigh := high + count;
    ghost var whole := OwnPart(j, AtLeastOne(from));
    while true
      invariant low <= high
      invariant synopsis + OwnPart(j, AtLeastOne(low)) == whole
      decreases high - low
    {
      if low == 0 {
        low := low + 1;
      }
      var id := IdFor(main, forkHistory, nonForkHigh, low, j);
      NextOwn(j, synopsis, id, low, Next(low, trueHigh), whole);
      synopsis := synopsis + [id];
      low := Next(low, trueHigh);
      if low > high {
        break;
      }
    }
  }

  /** One step of the application's loop. */
  lemma NextOwn(j: Joined, before: seq<BlockId>, id: BlockId, low: nat, next: nat, whole: seq<BlockId>)
    requires j.nonFork <= |j.main| && 0 < low <= j.High() && id == j.IdAt(low) && next == Next(low, j.Top())
    requires before + OwnPart(j, low) == whole
    ensures before + [id] + OwnPart(j, AtLeastOne(next)) == whole
  {
    Associative(before, [j.IdAt(low)], OwnPart(j, Next(low, j.Top())));
  }

  lemma Associative<T>(a: seq<T>, b: seq<T>, c: seq<T>)
    ensures a + (b + c) == a + b + c
  {
  }

  // ---- The network's part ----

  /** Asks for the synopsis and adds the offered ids at the same steps. */
  method CreateSynopsisForPeer(k: Knowledge, offered: seq<BlockId>) returns (r: Option<seq<BlockId>>)
    requires k.Sensible()
    requires forall i :: 0 <= i < |offered| ==> offered[i].num == k.About([]).High() + i + 1
    ensures r.None? <==> ForkedTooEarly(k)
    ensures r.Some? ==> r.value == JoinedSummary(k.About(offered), k.From()) && IsSynopsis(k, offered, r.value)
  {
    ghost var j := k.About(offered);
    TooEarly(k);
    AboutIsNumbered(k, offered);
    if !k.Unreachable() {
      JoinedIsSynopsis(k, offered);
    }
    r := GetBlockchainSynopsis(k, |offered|, offered);
    if r.None? {
      return;
    }
    PartsJoin(j, k.From());
    if |offered| == 0 {
      NothingOffered(j, k.From());
      return;
    }
    StartsAt(k, offered);
    var low := if r.value == [] then 1 else r.value[0].num;
    var synopsis := AppendOffered(r.value, offered, low, j);
    return Some(synopsis);
  }

  /** The network's loop. */
  method AppendOffered(own: seq<BlockId>, offered: seq<BlockId>, from: nat, ghost j: Joined) returns (synopsis: seq<BlockId>)
    requires j.Numbered() && j.offered == offered && offered != []
    requires 0 < from <= j.Top()
    ensures synopsis == own + OfferedPart(j, from)
  {
    synopsis := own;
    var low := from;
    var first := offered[0].num;
    var trueHigh := first + |offered| - 1;
    while true
      invariant 0 < low <= trueHigh
      invariant synopsis + OfferedPart(j, low) == own + OfferedPart(j, from)
      decreases trueHigh - low
    {
      ghost var before, here := synopsis, low;
      if low >= first {
        synopsis := synopsis + [offered[low - first]];
      }
      low := Next(low, trueHigh);
      NextOffered(j, before, here, own + OfferedPart(j, from));
      if low > trueHigh {
        break;
      }
    }
  }

  /** The network finds the application's starting point in the first id. */
  lemma StartsAt(k: Knowledge, offered: seq<BlockId>)
    requires k.Sensible() && !k.Unreachable() && k.About(offered).Numbered()
    requires k.main != [] || k.reference.Some? ==> k.From() <= k.About(offered).High()
    ensures var own := OwnPart(k.About(offered), k.From());
            (if own == [] then 1 else own[0].num) == k.From()
  {
  }

  lemma {:induction false} NothingOffered(j: Joined, low: nat)
    requires j.nonFork <= |j.main| && low > 0 && j.offered == []
    ensures OfferedPart(j, low) == []
    decreases j.Top() + 1 - low
  {
    if low > j.Top() {
    } else {
      NothingOffered(j, Next(low, j.Top()));
    }
  }

  /** One step of the network's loop. */
  lemma NextOffered(j: Joined, before: seq<BlockId>, low: nat, whole: seq<BlockId>)
    requires j.nonFork <= |j.main| && 0 < low <= j.Top()
    requires before + OfferedPart(j, low) == whole
    ensures before + (if low > j.High() then [j.IdAt(low)] else []) + OfferedPart(j, Next(low, j.Top())) == whole
  {
    Associative(before, if low > j.High() then [j.IdAt(low)] else [], OfferedPart(j, Next(low, j.Top())));
  }

  // ---- What the joined summary is ----

  lemma {:induction false} IdsIndex(j: Joined, nums: seq<nat>, i: nat)
    requires j.nonFork <= |j.main| && i < |nums| && forall i :: 0 <= i < |nums| ==> 0 < nums[i] <= j.Top()
    ensures j.Ids(nums)[i] == j.IdAt(nums[i])
  {
    if i == 0 {
    } else {
      IdsIndex(j, nums[1..], i - 1);
    }
  }

  /**
    * The synopsis a peer gets rises strictly, ends at the last id it offered (or
    * at our last block), and has as many entries as the number of summarized
    * blocks has binary digits.
    */
  lemma SynopsisShape(j: Joined, low: nat)
    requires j.Numbered() && 0 < low <= j.Top()
    ensures var s := JoinedSummary(j, low);
            && |s| == BitLength(j.Top() + 1 - low)
            && s != [] && s[0] == j.IdAt(low) && s[|s| - 1] == j.IdAt(j.Top())
            && (j.offered != [] ==> s[|s| - 1] == j.offered[|j.offered| - 1])
            && (forall i, k :: 0 <= i < k < |s| ==> s[i].num < s[k].num)
  {
    var nums := Summary(low, j.Top());
    SummaryLength(low, j.Top());
    SummaryShape(low, j.Top());
    IdsShape(j, nums);
  }

  lemma IdsShape(j: Joined, nums: seq<nat>)
    requires j.Numbered() && forall i :: 0 <= i < |nums| ==> 0 < nums[i] <= j.Top()
    ensures forall i :: 0 <= i < |nums| ==> j.Ids(nums)[i] == j.IdAt(nums[i]) && j.Ids(nums)[i].num == nums[i]
  {
    forall i | 0 <= i < |nums| ensures j.Ids(nums)[i] == j.IdAt(nums[i]) && j.Ids(nums)[i].num == nums[i] {
      IdsIndex(j, nums, i);
    }
  }
}
