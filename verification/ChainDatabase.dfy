/** Pushing, popping and switching blocks (libraries/chain/db_block.cpp).

    `PushOne` is the session that applies one block, `PopBlock` takes the newest one back, and
    `SwitchTo` rewinds to the branching point, replays the longer branch, and restores the old
    branch when a block of the new one fails. */
module ChainDatabases {
  import opened Options
  import opened Blocks
  import opened UndoDatabase
  import opened ObjectDatabases
  import opened ForkDatabases
  import opened ChainHistory

  /** One entry of the block file, which is indexed by block number. */
  datatype Slot = Slot(id: BlockId, block: Option<Block>)

  datatype Outcome =
    | Applied            // the block extended the head
    | Ignored            // the block went to a fork that is not longer
    | Switched           // the longer branch was applied
    | Refused            // an exception; the chain is as before
    | Restored           // an exception while switching; the old branch was applied again
    | Broken             // an exception while rewinding or restoring

  /** The blocks of a branch, oldest first. */
  function OldestFirst(items: seq<ForkItem>): (bs: seq<Block>)
    ensures |bs| == |items|
    ensures forall i :: 0 <= i < |items| ==> bs[i] == items[|items| - 1 - i].block
  {
    if items == [] then [] else OldestFirst(items[1..]) + [items[0].block]
  }

  lemma OldestFirstStep(items: seq<ForkItem>, k: nat)
    requires k < |items|
    ensures OldestFirst(items[k..]) == OldestFirst(items[k + 1..]) + [items[k].block]
  {
    assert items[k..][1..] == items[k + 1..];
  }

  lemma {:induction false} OldestFirstSplit(items: seq<ForkItem>, k: nat)
    requires k <= |items|
    ensures OldestFirst(items) == OldestFirst(items[k..]) + OldestFirst(items[..k])
  {
    if k == 0 {
    } else {
      OldestFirstSplit(items[1..], k - 1);
      assert items[1..][k - 1..] == items[k..];
      assert items[..k][1..] == items[1..][..k - 1];
    }
  }

  lemma OldestFirstHead(items: seq<ForkItem>, k: nat)
    requires 0 < k <= |items|
    ensures OldestFirst(items[..k]) == [items[k - 1].block] + OldestFirst(items[..k - 1])
  {
  }

  /** `after` is `before` without some items whose number is below `floor`. */
  ghost predicate Shrunk(before: map<BlockId, ForkItem>, after: map<BlockId, ForkItem>, floor: int) {
    && (forall id :: id in after ==> id in before && after[id] == before[id])
    && (forall id :: id in before && before[id].Num() >= floor ==> id in after)
  }

  lemma ShrunkMore(a: map<BlockId, ForkItem>, b: map<BlockId, ForkItem>, c: map<BlockId, ForkItem>, floor: int, low: int)
    requires Shrunk(a, b, floor) && Shrunk(b, c, low)
    ensures Shrunk(a, c, Max(floor, low))
  {
  }

  /** The blocks `p[rest..]` are in the block file. */
  ghost predicate Stored(slots: map<nat, Slot>, p: seq<ForkItem>, rest: nat) {
    forall t {:trigger p[t]} :: rest <= t < |p| ==>
      p[t].Num() in slots && slots[p[t].Num()] == Slot(p[t].block.Id(), Some(p[t].block))
  }

  ghost predicate Descending(p: seq<ForkItem>) {
    p != [] && forall i :: 0 <= i < |p| ==> p[i].Num() == p[0].Num() - i
  }

  /** The block with `id` is in the fork database or in the block file. */
  predicate Fetchable(index: map<BlockId, ForkItem>, slots: map<nat, Slot>, id: BlockId) {
    id in index || (id.num in slots && slots[id.num].id == id
                    && slots[id.num].block.Some? && slots[id.num].block.value.Id() == id)
  }

  /** That block: the fork database's, or else the block file's. */
  function Fetched(index: map<BlockId, ForkItem>, slots: map<nat, Slot>, id: BlockId): (b: Option<Block>)
    ensures b.Some? <==> Fetchable(index, slots, id)
  {
    if id in index then Some(index[id].block)
    else if Fetchable(index, slots, id) then slots[id.num].block
    else None
  }

  /** The block file without the block with `id`; its entry stays, and so does an entry for another block. */
  function Emptied(slots: map<nat, Slot>, id: BlockId): (r: map<nat, Slot>)
    ensures forall n :: n != id.num ==> (n in r <==> n in slots) && (n in r ==> r[n] == slots[n])
    ensures id.num in slots && slots[id.num].id == id ==> id.num in r && r[id.num] == Slot(id, None)
    ensures id.num in slots && slots[id.num].id != id ==> id.num in r && r[id.num] == slots[id.num]
  {
    if id.num in slots && slots[id.num].id == id then slots[id.num := Slot(id, None)] else slots
  }

  /** The block file after these blocks are taken out of it, the last one first. */
  function SlotsWithout(slots: map<nat, Slot>, bs: seq<Block>): map<nat, Slot> {
    if bs == [] then slots else Emptied(SlotsWithout(slots, bs[1..]), bs[0].Id())
  }

  /** The block file after these blocks are put into it, the first one first. */
  function SlotsWith(slots: map<nat, Slot>, bs: seq<Block>): map<nat, Slot> {
    if bs == [] then slots
    else
      var b := bs[|bs| - 1];
      SlotsWith(slots, bs[..|bs| - 1])[b.Num() := Slot(b.Id(), Some(b))]
  }

  /** The transactions of these blocks, in order. */
  function TransactionsOf(bs: seq<Block>): seq<Transaction> {
    if bs == [] then [] else bs[0].transactions + TransactionsOf(bs[1..])
  }

  /** The transactions of the blocks with the ids of these, as they are fetched; without those that cannot be. */
  function FetchedTransactions(index: map<BlockId, ForkItem>, slots: map<nat, Slot>, bs: seq<Block>): seq<Transaction> {
    if bs == [] then []
    else
      var b := Fetched(index, slots, bs[0].Id());
      (if b.Some? then b.value.transactions else []) + FetchedTransactions(index, slots, bs[1..])
  }

  /** From `o` to `v` the last `n` blocks were popped: they are gone from the block file, and their
      transactions, oldest block first, were put before those popped earlier. */
  ghost predicate Undone(o: Way, v: Way, n: nat) {
    && v.slots == SlotsWithout(o.slots, Newest(o.chain, n))
    && v.poppedTx == FetchedTransactions(o.index, o.slots, Newest(o.chain, n)) + o.poppedTx
  }

  function Newest<T>(s: seq<T>, n: nat): seq<T> {
    if n <= |s| then s[|s| - n..] else s
  }

  /** Where the fork database has one of these blocks, it has it as it is. */
  ghost predicate Known(index: map<BlockId, ForkItem>, p: seq<ForkItem>) {
    forall i :: 0 <= i < |p| && p[i].block.Id() in index ==> index[p[i].block.Id()].block == p[i].block
  }

  /** These blocks are fetched as they are. */
  ghost predicate FetchedAsIs(index: map<BlockId, ForkItem>, slots: map<nat, Slot>, bs: seq<Block>) {
    forall i :: 0 <= i < |bs| ==> Fetched(index, slots, bs[i].Id()) == Some(bs[i])
  }

  lemma {:induction false} OwnTransactions(index: map<BlockId, ForkItem>, slots: map<nat, Slot>, bs: seq<Block>)
    requires FetchedAsIs(index, slots, bs)
    ensures FetchedTransactions(index, slots, bs) == TransactionsOf(bs)
  {
    if bs == [] {
    } else {
      OwnTransactions(index, slots, bs[1..]);
    }
  }

  lemma {:induction false} OthersKept(slots: map<nat, Slot>, bs: seq<Block>, n: nat)
    requires forall i :: 0 <= i < |bs| ==> bs[i].Num() != n
    ensures n in SlotsWithout(slots, bs) <==> n in slots
    ensures n in slots ==> SlotsWithout(slots, bs)[n] == slots[n]
  {
    if bs == [] {
    } else {
      OthersKept(slots, bs[1..], n);
    }
  }

  /** One more block is popped. */
  lemma UndoneMore(o: Way, v: Way, v': Way, n: nat)
    requires Undone(o, v, n) && n < |o.chain| && v.index == o.index
    requires forall i :: |o.chain| - n <= i < |o.chain| ==> o.chain[i].Num() != o.chain[|o.chain| - n - 1].Num()
    requires var b := o.chain[|o.chain| - n - 1];
             && Fetchable(v.index, v.slots, b.Id()) && v'.slots == Emptied(v.slots, b.Id())
             && v'.poppedTx == Fetched(v.index, v.slots, b.Id()).value.transactions + v.poppedTx
    ensures Undone(o, v', n + 1)
  {
    var b, top, more := o.chain[|o.chain| - n - 1], Newest(o.chain, n), Newest(o.chain, n + 1);
    assert more == [b] + top && more[1..] == top;
    OthersKept(o.slots, top, b.Num());
    assert Fetched(v.index, v.slots, b.Id()) == Fetched(o.index, o.slots, b.Id());
    var txs, rest := Fetched(o.index, o.slots, b.Id()).value.transactions, FetchedTransactions(o.index, o.slots, top);
    assert txs + (rest + o.poppedTx) == txs + rest + o.poppedTx;
  }

  /** A fork head at `x` can be stepped back `k` times, through items that stay owned. */
  ghost predicate CanClimb(index: map<BlockId, ForkItem>, pinned: set<ForkItem>, x: ForkItem, k: nat) {
    k == 0 || (
      && x.prev != null && x.Linked()
      && (x.prev in pinned || (x.prev.block.Id() in index && index[x.prev.block.Id()] == x.prev))
      && CanClimb(index, pinned, x.prev, k - 1))
  }

  lemma {:induction false} ClimbLess(index: map<BlockId, ForkItem>, pinned: set<ForkItem>, x: ForkItem, k: nat, less: nat)
    requires CanClimb(index, pinned, x, k) && less <= k
    ensures CanClimb(index, pinned, x, less)
    decreases k
  {
    if less == 0 {
    } else {
      ClimbLess(index, pinned, x.prev, k - 1, less - 1);
    }
  }

  /** A climb stays possible while the items on the way stay owned. */
  lemma {:induction false} ClimbKeeps(index: map<BlockId, ForkItem>, index': map<BlockId, ForkItem>,
                                      pinned: set<ForkItem>, pinned': set<ForkItem>, x: ForkItem, k: nat)
    requires CanClimb(index, pinned, x, k) && pinned <= pinned'
    requires forall id :: id in index && x.Num() - k <= id.num < x.Num() ==> id in index' && index'[id] == index[id]
    ensures CanClimb(index', pinned', x, k)
    decreases k
  {
    if k == 0 {
    } else {
      ClimbKeeps(index, index', pinned, pinned', x.prev, k - 1);
    }
  }

  /** Consecutive items of a branch. */
  ghost predicate LinkedBranch(p: seq<ForkItem>) {
    && Descending(p)
    && (forall i :: 0 <= i < |p| ==> p[i].Linked())
    && (forall i :: 1 <= i < |p| ==> p[i] == p[i - 1].prev)
  }

  /** The branches found by the fork database: `p` ends in the new head, `q` in the current one. */
  ghost predicate Branches(p: seq<ForkItem>, q: seq<ForkItem>, ancestor: BlockId) {
    && LinkedBranch(p) && LinkedBranch(q) && |p| > |q|
    && p[|p| - 1].block.previous == ancestor && q[|q| - 1].block.previous == ancestor
  }

  function Ids(p: seq<ForkItem>): set<BlockId> {
    set x | x in p :: x.block.Id()
  }

  function Items(p: seq<ForkItem>): set<ForkItem> {
    set x | x in p
  }

  ghost predicate AllIn(p: seq<ForkItem>, pinned: set<ForkItem>) {
    Items(p) <= pinned
  }

  /** Down a pinned branch, and on from its last item. */
  lemma {:induction false} ClimbBranch(index: map<BlockId, ForkItem>, pinned: set<ForkItem>, p: seq<ForkItem>, r: nat)
    requires LinkedBranch(p) && AllIn(p, pinned)
    requires CanClimb(index, pinned, p[|p| - 1], r)
    ensures CanClimb(index, pinned, p[0], |p| - 1 + r)
    decreases |p|
  {
    if |p| == 1 {
    } else {
      var rest := p[1..];
      assert p[1] in Items(p) && Items(rest) <= Items(p);
      assert forall i :: 1 <= i < |rest| ==> rest[i] == p[i + 1];
      ClimbBranch(index, pinned, rest, r);
      assert p[1] == p[0].prev;
    }
  }

  /** What the popping loop looks at. */
  datatype Way = Way(index: map<BlockId, ForkItem>, pinned: set<ForkItem>, head: ForkItem?, forkSize: nat,
                     slots: map<nat, Slot>, slotCount: nat, chain: seq<Block>, headId: BlockId, poppedTx: seq<Transaction>)
  {
    function Forks(): Tree {
      Tree(index, pinned, head)
    }
  }

  /** The last `k` blocks can be popped, which leads to the block `target`. */
  ghost predicate CanPopTo(v: Way, target: BlockId, k: nat) {
    && k <= |v.chain|
    && (if k == 0 then v.headId == target else v.chain[|v.chain| - k].previous == target)
    && (forall i :: |v.chain| - k <= i < |v.chain| ==> Fetchable(v.index, v.slots, v.chain[i].Id()))
    && v.head != null && CanClimb(v.index, v.pinned, v.head, k)
    && v.headId.num < v.slotCount
  }

  /** The item `k` links below `x`. */
  function Back(x: ForkItem?, k: nat): ForkItem? {
    if k == 0 || x == null then x else Back(x.prev, k - 1)
  }

  lemma {:induction false} BackMore(x: ForkItem?, k: nat)
    requires Back(x, k) != null
    ensures Back(x, k + 1) == Back(x, k).prev
    decreases k
  {
    if k == 0 {
    } else {
      BackMore(x.prev, k - 1);
    }
  }

  /** How far the popping has come from `o` and `m`: `popped` blocks are gone and, when the history holds, the rest of `k` can be popped. */
  ghost predicate Popping<V>(o: Way, v: Way, m: Model<V>, now: Model<V>, target: BlockId, reach: bool, k: nat, popped: nat) {
    && PoppedBy(m, now, popped) && v.chain == DropLast(o.chain, popped) && v.head == Back(o.head, popped) && v.index == o.index
    && (reach ==> popped <= k && CanPopTo(v, target, k - popped) && o.head != null && v.head.Num() == o.head.Num() - popped
                  && Undone(o, v, popped))
  }

  lemma PoppingStarts<V>(v: Way, m: Model<V>, target: BlockId, reach: bool, k: nat)
    requires reach ==> CanPopTo(v, target, k)
    ensures Popping(v, v, m, m, target, reach, k, 0)
  {
    assert v.chain[|v.chain|..] == [];
  }

  lemma PoppingOn<V>(o: Way, v: Way, v': Way, m: Model<V>, before: Model<V>, now: Model<V>, target: BlockId, reach: bool,
                     k: nat, popped: nat)
    requires Popping(o, v, m, before, target, reach, k, popped)
    requires ModelStep(before, Op<V>.PopCommit) == Some(now) && v'.chain == DropLast(v.chain, 1) && v'.index == v.index
    requires v.head != null && v'.head == v.head.prev
    requires reach ==> popped < k && CanPopTo(v', target, k - popped - 1) && v'.head.Num() == v.head.Num() - 1
    requires reach ==> popped < |o.chain| && Undone(o, v', popped + 1)
    ensures Popping(o, v', m, now, target, reach, k, popped + 1)
    ensures |now.saved| < |before.saved|
  {
    PoppedOnceMore(m, before, now, popped);
    DropOnceMore(o.chain, popped);
    BackMore(o.head, popped);
  }

  /** The block popped is the newest one left. */
  lemma PopUndoes<V>(o: Way, v: Way, v': Way, m: Model<V>, now: Model<V>, target: BlockId, k: nat, popped: nat)
    requires Popping(o, v, m, now, target, true, k, popped) && popped < k && LinkedChain(o) && LinkedChain(v)
    requires Fetchable(v.index, v.slots, v.headId) && v'.slots == Emptied(v.slots, v.headId)
    requires v'.poppedTx == Fetched(v.index, v.slots, v.headId).value.transactions + v.poppedTx
    ensures popped < |o.chain| && Undone(o, v', popped + 1)
  {
    var b := o.chain[|o.chain| - popped - 1];
    assert v.chain != [] && Last(v.chain) == b;
    UndoneMore(o, v, v', popped);
  }

  ghost predicate LinkedChain(v: Way) {
    && (v.chain != [] ==> v.headId == Last(v.chain).Id())
    && (forall i :: 0 <= i < |v.chain| ==> v.chain[i].Num() == Last(v.chain).Num() - (|v.chain| - 1 - i))
  }

  lemma ReadyToPop(v: Way, target: BlockId, k: nat)
    requires CanPopTo(v, target, k) && LinkedChain(v) && v.headId != target
    ensures k > 0 && v.chain != [] && Fetchable(v.index, v.slots, v.headId)
    ensures v.head.prev != null
    ensures v.head.prev in v.pinned
            || (v.head.prev.block.Id() in v.index && v.index[v.head.prev.block.Id()] == v.head.prev)
  {
    assert Fetchable(v.index, v.slots, v.chain[|v.chain| - 1].Id());
  }

  lemma Arrived(v: Way, target: BlockId, k: nat)
    requires CanPopTo(v, target, k) && LinkedChain(v) && v.headId == target
    ensures k == 0
  {
    if k > 0 {
      assert v.chain[|v.chain| - k].Num() <= Last(v.chain).Num();
    }
  }

  /** Popping the newest block leads one step further. */
  lemma PopWay(v: Way, v': Way, target: BlockId, k: nat)
    requires CanPopTo(v, target, k) && LinkedChain(v) && k > 0
    requires v' == v.(head := v.head.prev, slots := v'.slots, chain := Front(v.chain), headId := Last(v.chain).previous,
                      poppedTx := v'.poppedTx)
    requires forall n :: n != v.headId.num ==>
      (n in v'.slots <==> n in v.slots) && (n in v'.slots ==> v'.slots[n] == v.slots[n])
    ensures CanPopTo(v', target, k - 1) && v'.head.Num() == v.head.Num() - 1
  {
    forall i | |v'.chain| - (k - 1) <= i < |v'.chain| ensures Fetchable(v'.index, v'.slots, v'.chain[i].Id()) {
      assert v'.chain[i] == v.chain[i] && Fetchable(v.index, v.slots, v.chain[i].Id());
      assert v.chain[i].Id().num != v.headId.num;
    }
  }

  /** How far the replay of the branch `p` from `s0` has come: all but `rest` blocks are applied. */
  ghost predicate ReplayedTo<V(!new)>(rules: Rules<V>, current: Snapshot<V>, chain: seq<Block>,
                                      slots: map<nat, Slot>, slotCount: nat,
                                      p: seq<ForkItem>, rest: nat, s0: Snapshot<V>, chain0: seq<Block>)
    requires rest <= |p|
  {
    && Replay(rules, s0, OldestFirst(p[rest..])) == Some(current)
    && IsSuffix(chain, chain0 + OldestFirst(p[rest..]))
    && Stored(slots, p, rest)
    && (rest < |p| ==> slotCount > p[rest].Num())
  }

  /** From `v0` on, all but `rest` blocks of `p` were put into the block file, and no transactions were popped. */
  ghost predicate Filed(v0: Way, v: Way, p: seq<ForkItem>, rest: nat) {
    && rest <= |p| && v.slots == SlotsWith(v0.slots, OldestFirst(p[rest..])) && v.poppedTx == v0.poppedTx
  }

  lemma FiledMore(v0: Way, v: Way, v': Way, p: seq<ForkItem>, rest: nat)
    requires Filed(v0, v, p, rest) && 0 < rest && v'.poppedTx == v.poppedTx
    requires var b := p[rest - 1].block; v'.slots == v.slots[b.Num() := Slot(b.Id(), Some(b))]
    ensures Filed(v0, v', p, rest - 1)
  {
    var before, b := OldestFirst(p[rest..]), p[rest - 1].block;
    OldestFirstStep(p, rest - 1);
    assert (before + [b])[..|before + [b]| - 1] == before;
  }

  /** How far the old branch has been applied again. */
  ghost predicate Reapplied<V(!new)>(rules: Rules<V>, current: Snapshot<V>, chain: seq<Block>,
                                     q: seq<ForkItem>, rest: nat, s0: Snapshot<V>, chain0: seq<Block>)
    requires rest <= |q|
  {
    && Replay(rules, s0, OldestFirst(q[rest..])) == Some(current)
    && IsSuffix(chain, chain0 + OldestFirst(q[rest..]))
  }

  lemma ReapplyGoesOn<V(!new)>(rules: Rules<V>, s: Snapshot<V>, chain: seq<Block>, q: seq<ForkItem>, rest: nat,
                               s0: Snapshot<V>, chain0: seq<Block>, was: Snapshot<V>)
    requires 0 < rest <= |q| && Reapplied(rules, s, chain, q, rest, s0, chain0)
    requires Replay(rules, s0, OldestFirst(q)) == Some(was)
    ensures Apply(rules, s, q[rest - 1].block).Some?
  {
    OldestFirstSplit(q, rest);
    OldestFirstHead(q, rest);
    ReplayGoesOn(rules, s0, OldestFirst(q[rest..]), q[rest - 1].block, OldestFirst(q[..rest - 1]));
  }

  lemma ReappliedMore<V(!new)>(rules: Rules<V>, s: Snapshot<V>, s': Snapshot<V>, chain: seq<Block>,
                               q: seq<ForkItem>, rest: nat, s0: Snapshot<V>, chain0: seq<Block>, size: nat)
    requires 0 < rest <= |q| && Reapplied(rules, s, chain, q, rest, s0, chain0)
    requires Apply(rules, s, q[rest - 1].block) == Some(s')
    ensures Reapplied(rules, s', Trim(chain, size) + [q[rest - 1].block], q, rest - 1, s0, chain0)
  {
    var b := q[rest - 1].block;
    OldestFirstStep(q, rest - 1);
    ReplayOneMore(rules, s0, OldestFirst(q[rest..]), b);
    SuffixAfterPush(chain, size, chain0 + OldestFirst(q[rest..]), b);
    assert chain0 + OldestFirst(q[rest..]) + [b] == chain0 + OldestFirst(q[rest - 1..]);
  }

  /** All records of `q` are there exactly when its blocks, each in turn, keep the depth for them. */
  ghost predicate RecordsKept<V(!new)>(rules: Rules<V>, s0: Snapshot<V>, q: seq<ForkItem>, blocks: nat) {
    blocks >= |q| <==> RoomInTurn(rules, s0, OldestFirst(q), 1)
  }

  /** The same while `rest` of its blocks are still to be applied: none is lost so far, and none will be. */
  ghost predicate Deepening<V(!new)>(rules: Rules<V>, s: Snapshot<V>, size: nat, blocks: nat, q: seq<ForkItem>, rest: nat,
                                     s0: Snapshot<V>)
    requires rest <= |q|
  {
    RoomInTurn(rules, s0, OldestFirst(q), 1) <==>
      && blocks >= |q| - rest && (0 < rest < |q| ==> size >= |q| - rest)
      && RoomInTurn(rules, s, OldestFirst(q[..rest]), |q| - rest + 1)
  }

  lemma DeeperByOne<V(!new)>(rules: Rules<V>, s: Snapshot<V>, size: nat, blocks: nat, s': Snapshot<V>, size': nat,
                             q: seq<ForkItem>, rest: nat, s0: Snapshot<V>)
    requires 0 < rest <= |q| && Deepening(rules, s, size, blocks, q, rest, s0)
    requires Apply(rules, s, q[rest - 1].block) == Some(s') && rules.plan(s, q[rest - 1].block).depth == Some(size')
    ensures Deepening(rules, s', size', (if blocks > size then size else blocks) + 1, q, rest - 1, s0)
  {
    OldestFirstHead(q, rest);
    RoomInTurnStep(rules, s, q[rest - 1].block, OldestFirst(q[..rest - 1]), |q| - rest + 1, size');
  }

  /** The depth that the newest block applied has set. */
  ghost predicate LastDepth<V(!new)>(rules: Rules<V>, s0: Snapshot<V>, q: seq<ForkItem>, rest: nat, size: nat)
    requires rest < |q|
  {
    var before := Replay(rules, s0, OldestFirst(q[rest + 1..]));
    before.Some? && rules.plan(before.value, q[rest].block).depth == Some(size)
  }

  /** The lowest block number that `depth` keeps under this head. */
  function LowestAt(head: ForkItem?, depth: Option<nat>): int {
    if head == null || depth.None? then 0 else head.Num() - depth.value
  }

  function Max(a: int, b: int): int {
    if a < b then b else a
  }

  /** The lowest block number kept under this head by all of `bs`, up to the first that fails. */
  function Lowest<V(!new)>(rules: Rules<V>, s: Snapshot<V>, bs: seq<Block>, head: ForkItem?): (n: int)
    ensures n >= 0
    decreases |bs|
  {
    if bs == [] then 0
    else Max(LowestAt(head, rules.plan(s, bs[0]).depth),
             match Apply(rules, s, bs[0])
             case None => 0
             case Some(s') => Lowest(rules, s', bs[1..], head))
  }

  lemma {:induction false} LowestMore<V(!new)>(rules: Rules<V>, s: Snapshot<V>, xs: seq<Block>, b: Block, ys: seq<Block>,
                                               head: ForkItem?)
    requires Replay(rules, s, xs).Some?
    ensures var t := Replay(rules, s, xs).value;
            && Lowest(rules, s, xs + [b], head) == Max(Lowest(rules, s, xs, head), LowestAt(head, rules.plan(t, b).depth))
            && (Apply(rules, t, b).None? ==> Lowest(rules, s, xs + ([b] + ys), head) == Lowest(rules, s, xs + [b], head))
    decreases |xs|
  {
    if xs == [] {
      assert [] + [b] == [b] && [b][1..] == [] && xs + ([b] + ys) == [b] + ys;
    } else {
      LowestMore(rules, Apply(rules, s, xs[0]).value, xs[1..], b, ys, head);
      assert (xs + [b])[1..] == xs[1..] + [b] && (xs + ([b] + ys))[1..] == xs[1..] + ([b] + ys);
    }
  }

  lemma {:induction false} LowestBound<V(!new)>(rules: Rules<V>, s: Snapshot<V>, bs: seq<Block>, head: ForkItem, room: nat)
    requires RoomFor(rules, s, bs, room)
    ensures Lowest(rules, s, bs, head) <= Max(0, head.Num() - room)
    decreases |bs|
  {
    if bs == [] {
    } else if Apply(rules, s, bs[0]).Some? {
      LowestBound(rules, Apply(rules, s, bs[0]).value, bs[1..], head, room);
    }
  }

  /** What one session of `PushOne`, which stores the block under `id`, leaves behind. */
  ghost predicate PushedOne<V(!new)>(rules: Rules<V>, ok: bool, b: Block, id: BlockId, v: Way, m: Model<V>, v': Way, m': Model<V>) {
    && (ok <==> Apply(rules, m.current, b).Some?)
    && (ok ==> CommittedModel(rules, m, m', b) && v'.chain == Trim(v.chain, m.maxSize) + [b] && v'.slotCount > id.num
               && v'.slots == v.slots[id.num := Slot(id, Some(b))] && Some(m'.maxSize) == rules.plan(m.current, b).depth
               && v'.forkSize == m'.maxSize)
    && (!ok ==> CancelledModel(m, m') && v'.chain == Trim(v.chain, m.maxSize) && v'.slots == v.slots)
    && v'.slotCount >= v.slotCount && v'.head == v.head && v'.poppedTx == v.poppedTx
    && Shrunk(v.index, v'.index, LowestAt(v.head, rules.plan(m.current, b).depth))
  }

  /** What is known of records, depths and fork items while `rest` blocks of `q` are still to be applied on `s0`. */
  ghost predicate Tracked<V(!new)>(rules: Rules<V>, v: Way, m: Model<V>, q: seq<ForkItem>, rest: nat, s0: Snapshot<V>,
                                   index0: map<BlockId, ForkItem>) {
    && rest <= |q| && Deepening(rules, m.current, m.maxSize, |v.chain|, q, rest, s0)
    && (rest < |q| ==> v.forkSize == m.maxSize && LastDepth(rules, s0, q, rest, m.maxSize))
    && Shrunk(index0, v.index, Lowest(rules, s0, OldestFirst(q[rest..]), v.head))
  }

  lemma TrackedStarts<V(!new)>(rules: Rules<V>, v: Way, m: Model<V>, q: seq<ForkItem>)
    ensures Tracked(rules, v, m, q, |q|, m.current, v.index)
  {
    assert q[..|q|] == q && q[|q|..] == [];
  }

  lemma TrackedMore<V(!new)>(rules: Rules<V>, id: BlockId, v: Way, m: Model<V>, v': Way, m': Model<V>, q: seq<ForkItem>,
                             rest: nat, s0: Snapshot<V>, index0: map<BlockId, ForkItem>)
    requires 0 < rest && Tracked(rules, v, m, q, rest, s0, index0)
    requires Replay(rules, s0, OldestFirst(q[rest..])) == Some(m.current)
    requires PushedOne(rules, true, q[rest - 1].block, id, v, m, v', m')
    ensures Tracked(rules, v', m', q, rest - 1, s0, index0)
  {
    var b := q[rest - 1].block;
    TrimIsSuffix(v.chain, m.maxSize);
    DeeperByOne(rules, m.current, m.maxSize, |v.chain|, m'.current, m'.maxSize, q, rest, s0);
    OldestFirstStep(q, rest - 1);
    LowestMore(rules, s0, OldestFirst(q[rest..]), b, [], v.head);
    ShrunkMore(index0, v.index, v'.index, Lowest(rules, s0, OldestFirst(q[rest..]), v.head),
               LowestAt(v.head, rules.plan(m.current, b).depth));
  }

  /** What is left when a block of the branch fails. */
  ghost predicate Failed<V(!new)>(rules: Rules<V>, v: Way, m: Model<V>, p: seq<ForkItem>, rest: nat, s0: Snapshot<V>,
                                  index0: map<BlockId, ForkItem>) {
    && 0 < rest <= |p| && Apply(rules, m.current, p[rest - 1].block).None?
    && (RoomInTurn(rules, s0, OldestFirst(p), 1) ==> |v.chain| >= |p| - rest)
    && Shrunk(index0, v.index, Lowest(rules, s0, OldestFirst(p), v.head))
  }

  lemma TrackedFails<V(!new)>(rules: Rules<V>, id: BlockId, v: Way, m: Model<V>, v': Way, m': Model<V>, p: seq<ForkItem>,
                              rest: nat, s0: Snapshot<V>, index0: map<BlockId, ForkItem>)
    requires 0 < rest && Tracked(rules, v, m, p, rest, s0, index0)
    requires Replay(rules, s0, OldestFirst(p[rest..])) == Some(m.current)
    requires PushedOne(rules, false, p[rest - 1].block, id, v, m, v', m')
    ensures Failed(rules, v', m', p, rest, s0, index0)
  {
    var b, applied := p[rest - 1].block, OldestFirst(p[rest..]);
    TrimIsSuffix(v.chain, m.maxSize);
    OldestFirstSplit(p, rest);
    OldestFirstHead(p, rest);
    LowestMore(rules, s0, applied, b, OldestFirst(p[..rest - 1]), v.head);
    ShrunkMore(index0, v.index, v'.index, Lowest(rules, s0, applied, v.head), LowestAt(v.head, rules.plan(m.current, b).depth));
  }

  lemma ReplayedMore<V(!new)>(rules: Rules<V>, s: Snapshot<V>, s': Snapshot<V>, chain: seq<Block>,
                              slots: map<nat, Slot>, slotCount: nat, slotCount': nat,
                              p: seq<ForkItem>, rest: nat, s0: Snapshot<V>, chain0: seq<Block>, size: nat)
    requires 0 < rest <= |p| && Descending(p)
    requires ReplayedTo(rules, s, chain, slots, slotCount, p, rest, s0, chain0)
    requires Apply(rules, s, p[rest - 1].block) == Some(s') && slotCount' > p[rest - 1].Num()
    ensures ReplayedTo(rules, s', Trim(chain, size) + [p[rest - 1].block],
                       slots[p[rest - 1].Num() := Slot(p[rest - 1].block.Id(), Some(p[rest - 1].block))],
                       slotCount', p, rest - 1, s0, chain0)
  {
    var b := p[rest - 1].block;
    OldestFirstStep(p, rest - 1);
    ReplayOneMore(rules, s0, OldestFirst(p[rest..]), b);
    SuffixAfterPush(chain, size, chain0 + OldestFirst(p[rest..]), b);
    assert chain0 + OldestFirst(p[rest..]) + [b] == chain0 + OldestFirst(p[rest - 1..]);
  }

  /** How far the replay of `p` from `s0` has come; `s0` is back when what was applied is popped again. */
  ghost predicate Going<V(!new)>(rules: Rules<V>, v: Way, m: Model<V>, p: seq<ForkItem>, rest: nat,
                                 s0: Snapshot<V>, chain0: seq<Block>) {
    && rest <= |p| && ReplayedTo(rules, m.current, v.chain, v.slots, v.slotCount, p, rest, s0, chain0)
    && |v.chain| <= |m.saved|
    && (|p| - rest <= |v.chain| ==> StateBefore(m, |p| - rest) == s0)
  }

  lemma ReplayStarts<V(!new)>(rules: Rules<V>, v: Way, m: Model<V>, p: seq<ForkItem>)
    requires |v.chain| <= |m.saved|
    ensures Going(rules, v, m, p, |p|, m.current, v.chain) && Tracked(rules, v, m, p, |p|, m.current, v.index)
  {
    assert p[|p|..] == [] && v.chain == v.chain + OldestFirst(p[|p|..]);
    TrackedStarts(rules, v, m, p);
  }

  lemma ReplayedOn<V(!new)>(rules: Rules<V>, v: Way, m: Model<V>, v': Way, m': Model<V>, p: seq<ForkItem>, rest: nat,
                            s0: Snapshot<V>, chain0: seq<Block>)
    requires Descending(p) && 0 < rest && Going(rules, v, m, p, rest, s0, chain0) && |v'.chain| <= |m'.saved|
    requires PushedOne(rules, true, p[rest - 1].block, p[rest - 1].block.Id(), v, m, v', m')
    ensures Going(rules, v', m', p, rest - 1, s0, chain0)
  {
    ReplayedMore(rules, m.current, m'.current, v.chain, v.slots, v.slotCount, v'.slotCount, p, rest, s0, chain0, m.maxSize);
    StateStillBefore(m, m', v.chain, |p| - rest, s0, true);
  }

  lemma ReplayedNoFurther<V(!new)>(rules: Rules<V>, v: Way, m: Model<V>, v': Way, m': Model<V>, p: seq<ForkItem>, rest: nat,
                                   s0: Snapshot<V>, chain0: seq<Block>)
    requires 0 < rest && Going(rules, v, m, p, rest, s0, chain0) && |v'.chain| <= |m'.saved|
    requires PushedOne(rules, false, p[rest - 1].block, p[rest - 1].block.Id(), v, m, v', m')
    ensures Going(rules, v', m', p, rest, s0, chain0)
  {
    SuffixAfterPush(v.chain, m.maxSize, chain0 + OldestFirst(p[rest..]), p[rest - 1].block);
    StateStillBefore(m, m', v.chain, |p| - rest, s0, false);
  }

  /** While `j` blocks keep their records, the state before them can be found. */
  lemma StateStillBefore<V>(m: Model<V>, m': Model<V>, chain: seq<Block>, j: nat, s0: Snapshot<V>, ok: bool)
    requires |chain| <= |m.saved| && (j <= |chain| ==> StateBefore(m, j) == s0)
    requires ok ==> m'.saved == Trim(m.saved, m.maxSize) + [m.current]
    requires !ok ==> CancelledModel(m, m')
    ensures j <= |Trim(chain, m.maxSize)| ==>
      if ok then j + 1 <= |m'.saved| && StateBefore(m', j + 1) == s0
      else j <= |m'.saved| && StateBefore(m', j) == s0
  {
  }

  /** The popping loop can reach the branching point while the items of both branches are held. */
  ghost predicate CanReach(v: Way, p: seq<ForkItem>, q: seq<ForkItem>)
    requires q != []
  {
    CanPopTo(v.(pinned := Items(p) + Items(q)), q[|q| - 1].block.previous, |q|)
  }

  /** It can when the blocks of `q` are the newest with a record, can be fetched, and the head is that of `p`. */
  lemma ReachBySharedTop(v: Way, p: seq<ForkItem>, q: seq<ForkItem>)
    requires LinkedBranch(p) && 0 < |q| < |p| && v.head == p[0] && v.headId.num < v.slotCount
    requires |q| <= |v.chain| && v.chain[|v.chain| - |q|..] == OldestFirst(q)
    requires forall i :: 0 <= i < |q| ==> Fetchable(v.index, v.slots, q[i].block.Id())
    ensures CanReach(v, p, q)
  {
    ClimbHeld(v.index, p, q);
    SharedTop(v.chain, q);
    CanRewind(v.(pinned := Items(p) + Items(q)), q);
  }

  lemma ClimbHeld(index: map<BlockId, ForkItem>, p: seq<ForkItem>, q: seq<ForkItem>)
    requires LinkedBranch(p) && |q| < |p|
    ensures CanClimb(index, Items(p) + Items(q), p[0], |q|)
  {
    ClimbBranch(index, Items(p) + Items(q), p, 0);
    ClimbLess(index, Items(p) + Items(q), p[0], |p| - 1, |q|);
  }

  lemma SharedTop(chain: seq<Block>, q: seq<ForkItem>)
    requires |q| <= |chain| && chain[|chain| - |q|..] == OldestFirst(q)
    ensures forall i :: |chain| - |q| <= i < |chain| ==> chain[i] == q[|chain| - 1 - i].block
  {
    forall i | |chain| - |q| <= i < |chain| ensures chain[i] == q[|chain| - 1 - i].block {
      TailAt(chain, q, i);
    }
  }

  lemma CanRewind(v: Way, q: seq<ForkItem>)
    requires 0 < |q| <= |v.chain|
    requires forall i :: |v.chain| - |q| <= i < |v.chain| ==> v.chain[i] == q[|v.chain| - 1 - i].block
    requires forall i :: 0 <= i < |q| ==> Fetchable(v.index, v.slots, q[i].block.Id())
    requires v.head != null && CanClimb(v.index, v.pinned, v.head, |q|) && v.headId.num < v.slotCount
    ensures CanPopTo(v, q[|q| - 1].block.previous, |q|)
  {
    forall i | |v.chain| - |q| <= i < |v.chain| ensures Fetchable(v.index, v.slots, v.chain[i].Id()) {
      assert v.chain[i] == q[|v.chain| - 1 - i].block;
    }
    assert v.chain[|v.chain| - |q|] == q[|q| - 1].block;
  }

  /** Enough undo and fork history to come back to `q` when the switch to `p` fails: the branching
      point can be reached; the blocks of `q` are those taken back; every block of `p` keeps the
      undo depth for the blocks up to it, and leaves the fork database as many ancestors below the
      branching point as `p` is longer than `q`, which it has. */
  ghost predicate EnoughHistory<V(!new)>(rules: Rules<V>, m: Model<V>, v: Way, p: seq<ForkItem>, q: seq<ForkItem>)
    requires 0 < |q| < |p|
  {
    && CanReach(v, p, q) && ToppedBy(v, q) && |q| <= |m.saved|
    && KeepsAncestors(rules, StateBefore(m, |q|), p, q)
    && CanClimb(v.index, {}, q[|q| - 1], |p| - |q|)
  }

  /** The blocks of `q` are the newest with a record. */
  ghost predicate ToppedBy(v: Way, q: seq<ForkItem>) {
    |q| <= |v.chain| && v.chain[|v.chain| - |q|..] == OldestFirst(q)
  }

  /** Every block of `p` keeps the undo depth for the blocks up to it, and the ancestors that going back to `q` needs. */
  ghost predicate KeepsAncestors<V(!new)>(rules: Rules<V>, s0: Snapshot<V>, p: seq<ForkItem>, q: seq<ForkItem>)
    requires 0 < |q| < |p|
  {
    RoomInTurn(rules, s0, OldestFirst(p), 1) && RoomFor(rules, s0, OldestFirst(p), 2 * (|p| - |q|) - 1)
  }

  /** What the rewinding takes back can be applied again. */
  lemma RewindReplays<V(!new)>(rules: Rules<V>, m: Model<V>, chain: seq<Block>, headId: BlockId, q: seq<ForkItem>)
    requires q != [] && |q| <= |chain| && chain[|chain| - |q|..] == OldestFirst(q)
    requires Lawful(rules) && HistoryOf(rules, m, chain) && headId == rules.headId(m.current)
    ensures Replay(rules, StateBefore(m, |q|), OldestFirst(q)) == Some(m.current)
    ensures chain == DropLast(chain, |q|) + OldestFirst(q)
    ensures q[|q| - 1].block.previous.num < headId.num
  {
    HistoryReplays(rules, m, chain, |q|);
    OldestOfTail(rules, m, chain, q);
    Rejoined(chain, OldestFirst(q));
  }

  lemma Rejoined<T>(s: seq<T>, tail: seq<T>)
    requires |tail| <= |s| && s[|s| - |tail|..] == tail
    ensures s == DropLast(s, |tail|) + tail
  {
  }

  /** The oldest block taken back comes before the head. */
  lemma OldestOfTail<V(!new)>(rules: Rules<V>, m: Model<V>, chain: seq<Block>, q: seq<ForkItem>)
    requires q != [] && |q| <= |chain| && chain[|chain| - |q|..] == OldestFirst(q)
    requires Lawful(rules) && HistoryOf(rules, m, chain)
    ensures q[|q| - 1].block.previous.num < rules.headId(m.current).num
  {
    HistoryLinks(rules, m, chain);
    var oldest := |chain| - |q|;
    assert chain[oldest] == chain[oldest..][0];
    assert chain[oldest].Num() <= Last(chain).Num();
  }

  class ChainDatabase<!V(!new)> {
    const rules: Rules<V>
    const store: ObjectDatabase<V>
    const fork: ForkDatabase
    var slots: map<nat, Slot>
    var slotCount: nat
    var poppedTx: seq<Transaction>
    var pending: bool             // _pending_tx_session.valid()
    var pendingTx: seq<Transaction>
    ghost var chain: seq<Block>   // the newest blocks, those with an undo record

    /** The history without the session of pending transactions. */
    ghost function Settled(): Model<V>
      reads this, store
    {
      if pending && store.model.saved != [] then
        store.model.(current := Last(store.model.saved), saved := Front(store.model.saved))
      else store.model
    }

    /** The object state after the head block, whatever transactions are pending. */
    ghost function HeadState(): Snapshot<V>
      reads this, store
    {
      Settled().current
    }

    ghost predicate Valid()
      reads this, store, fork
    {
      && Lawful(rules)
      && store.Valid() && fork.Valid()
      && store.activeSessions == (if pending then 1 else 0)
      && store.maxSize >= 1
      && HistoryOf(rules, Settled(), chain)
    }

    constructor (rules: Rules<V>, indexes: set<IndexId>)
      requires Lawful(rules)
      ensures Valid() && !pending && fresh(store) && fresh(fork) && this.rules == rules
      ensures store.model == Model(Snapshot(map[], map i | i in indexes :: 0), [], 0, 256)
      ensures View() == Way(map[], {}, null, 1024, map[], 0, [], rules.headId(store.model.current), [])
    {
      this.rules := rules;
      store := new ObjectDatabase(indexes);
      fork := new ForkDatabase();
      slots, slotCount, poppedTx, chain := map[], 0, [], [];
      pending, pendingTx := false, [];
    }

    // -------------------------------------------------------------- block file

    method StoreSlot(id: BlockId, b: Block)
      modifies `slots, `slotCount
      ensures slots == old(slots)[id.num := Slot(id, Some(b))]
      ensures slotCount == if old(slotCount) > id.num then old(slotCount) else id.num + 1
    {
      slots := slots[id.num := Slot(id, Some(b))];
      slotCount := if slotCount > id.num then slotCount else id.num + 1;
    }

    method RemoveSlot(id: BlockId) returns (ok: bool)
      modifies `slots
      ensures ok <==> id.num < slotCount
      ensures slots == if ok then Emptied(old(slots), id) else old(slots)
    {
      if slotCount <= id.num { return false; }
      if id.num in slots && slots[id.num].id == id {
        slots := slots[id.num := Slot(id, None)];
      }
      ok := true;
    }

    method FetchBlockById(id: BlockId) returns (b: Option<Block>)
      ensures b == Fetched(fork.index, slots, id)
      ensures id in fork.index ==> b == Some(fork.index[id].block)
      ensures id !in fork.index && b.Some? ==> slots[id.num] == Slot(id, b) && b.value.Id() == id
    {
      if id in fork.index { return Some(fork.index[id].block); }
      if id.num in slots && slots[id.num].id == id && slots[id.num].block.Some?
         && slots[id.num].block.value.Id() == id
      {
        return slots[id.num].block;
      }
      b := None;
    }

    // -------------------------------------------------------------- applying

    /** Performs `w` on the object database. */
    method Perform(w: Write<V>) returns (ok: bool)
      requires store.Valid() && store.model.saved != []
      modifies store
      ensures store.Valid()
      ensures ok <==> WriteOne(old(store.Store()), w).Some?
      ensures ok ==> store.Store() == WriteOne(old(store.Store()), w).value
      ensures store.model == old(store.model).(current := store.Store())
    {
      match w {
        case CreateObject(i, v) =>
          var id;
          ok, id := store.CreateObject(i, v);
        case ModifyObject(id, v) => ok := store.ModifyObject(id, v);
        case RemoveObject(id) => ok := store.RemoveObject(id);
      }
    }

    method PerformAll(writes: seq<Write<V>>) returns (ok: bool)
      requires store.Valid() && store.model.saved != []
      modifies store
      ensures store.Valid()
      ensures ok <==> WriteAll(old(store.Store()), writes).Some?
      ensures ok ==> store.Store() == WriteAll(old(store.Store()), writes).value
      ensures store.model == old(store.model).(current := store.Store())
    {
      var i := 0;
      ghost var s := store.Store();
      assert writes[0..] == writes;
      while i < |writes|
        invariant 0 <= i <= |writes|
        invariant store.Valid() && store.model == old(store.model).(current := store.Store())
        invariant WriteAll(s, writes) == WriteAll(store.Store(), writes[i..])
      {
        var done := Perform(writes[i]);
        if !done { return false; }
        assert writes[i..][1..] == writes[i + 1..];
        i := i + 1;
      }
      ok := true;
    }

    /** `apply_block`.  When it throws, the object database is left as the failing step left it. */
    method ApplyBlock(b: Block) returns (ok: bool)
      requires Lawful(rules) && store.Valid() && fork.Valid() && store.model.saved != []
      modifies store, fork
      ensures store.Valid() && fork.Valid()
      ensures store.model == old(store.model).(current := store.Store(), maxSize := store.maxSize)
      ensures ok <==> Apply(rules, old(store.Store()), b).Some?
      ensures ok ==> store.Store() == Apply(rules, old(store.Store()), b).value
      ensures var depth := rules.plan(old(store.Store()), b).depth;
              && (ok ==> Some(store.maxSize) == depth && fork.maxSize == store.maxSize)
              && (store.maxSize == old(store.maxSize) || Some(store.maxSize) == depth)
              && Shrunk(old(fork.index), fork.index, LowestAt(fork.head, depth))
      ensures fork.head == old(fork.head) && fork.pinned == old(fork.pinned)
    {
      var s := store.Store();
      var plan := rules.plan(s, b);
      ok := PerformAll(plan.writes);
      if !ok { return; }
      if plan.depth.Some? {
        store.SetMaxSize(plan.depth.value);
        fork.SetMaxSize(plan.depth.value);
      }
      ok := plan.passes;
    }

    /** One session that applies `b`: on success it is committed and the block is stored under
        `id`, otherwise it is undone. */
    method PushOne(b: Block, id: BlockId) returns (ok: bool)
      requires Valid() && !pending
      modifies this, store, fork
      ensures Valid() && !pending && poppedTx == old(poppedTx) && pendingTx == old(pendingTx)
      ensures PushedOne(rules, ok, b, id, old(View()), old(store.model), View(), store.model)
      ensures fork.pinned == old(fork.pinned)
    {
      ghost var m := store.model;
      ok := ApplySession(b);
      if ok {
        StoreSlot(id, b);
        chain := Trim(chain, m.maxSize) + [b];
        CommittedHistory(rules, m, store.model, old(chain), b);
      } else {
        chain := Trim(chain, m.maxSize);
        CancelledHistory(rules, m, store.model, old(chain));
      }
    }

    /** What the session leaves in the object and fork databases. */
    method ApplySession(b: Block) returns (ok: bool)
      requires Lawful(rules) && store.Valid() && fork.Valid()
      requires store.activeSessions == 0 && store.maxSize >= 1
      modifies store, fork
      ensures store.Valid() && fork.Valid() && store.activeSessions == 0
      ensures ok <==> Apply(rules, old(store.Store()), b).Some?
      ensures ok ==> CommittedModel(rules, old(store.model), store.model, b)
      ensures !ok ==> CancelledModel(old(store.model), store.model)
      ensures var depth := rules.plan(old(store.Store()), b).depth;
              && (ok ==> Some(store.maxSize) == depth && fork.maxSize == store.maxSize)
              && (store.maxSize == old(store.maxSize) || Some(store.maxSize) == depth)
              && Shrunk(old(fork.index), fork.index, LowestAt(fork.head, depth))
      ensures fork.head == old(fork.head) && fork.pinned == old(fork.pinned)
    {
      store.StartUndoSession();
      ok := ApplyBlock(b);
      if ok {
        var committed := store.CommitSession();
      } else {
        var undone := store.UndoSession();
      }
    }


    // -------------------------------------------------------------- pending transactions

    /** `_pending_tx_session.reset()`. */
    method ResetPending()
      requires Valid()
      modifies this`pending, store
      ensures Valid() && !pending && store.Store() == old(HeadState())
      ensures store.maxSize == old(store.maxSize)
      ensures old(Settled()).saved != [] ==> store.model.saved == old(Settled()).saved
      ensures old(pending) || store.model == old(store.model)
    {
      if pending {
        ghost var m := Settled();
        var undone := store.UndoSession();
        pending := false;
        if m.saved != [] {
          HistoryIgnoresSize(rules, m, store.model, chain);
        }
      }
    }

    /** `clear_pending`: nothing that pending transactions did is left. */
    method ClearPending()
      requires Valid()
      modifies this`pending, this`pendingTx, store
      ensures Valid() && !pending && pendingTx == []
      ensures store.Store() == old(HeadState()) && store.maxSize == old(store.maxSize)
      ensures old(Settled()).saved != [] ==> store.model.saved == old(Settled()).saved
    {
      pendingTx := [];
      ResetPending();
    }

    /** `_push_transaction`: the transaction works on top of the pending ones, or leaves no trace;
        the state after the head block is the same in both cases. */
    method PushTransaction(tx: Transaction) returns (ok: bool)
      requires Valid()
      modifies this`pending, this`pendingTx, this`chain, store
      ensures Valid() && pending && HeadState() == old(HeadState())
      ensures ok <==> ApplyTx(rules, old(store.Store()), tx).Some?
      ensures store.Store() == if ok then ApplyTx(rules, old(store.Store()), tx).value else old(store.Store())
      ensures pendingTx == if ok then old(pendingTx) + [tx] else old(pendingTx)
      ensures store.maxSize == old(store.maxSize)
      ensures Settled().saved == Trim(old(Settled()).saved, store.maxSize - 1) && chain == Trim(old(chain), store.maxSize - 1)
    {
      ghost var m, n := Settled(), store.maxSize;
      OpenPending();
      ok := TransactionOnTop(tx, m);
      if ok {
        pendingTx := pendingTx + [tx];
      }
      ForgetOldest(m, n - 1);
    }

    /** The history loses the records that starting a session dropped. */
    method ForgetOldest(ghost m: Model<V>, ghost size: nat)
      requires HistoryOf(rules, m, chain)
      requires Settled().current == m.current && Settled().saved == Trim(m.saved, size)
      modifies this`chain
      ensures HistoryOf(rules, Settled(), chain) && chain == Trim(old(chain), size)
    {
      chain := Trim(chain, size);
      PendingHistory(rules, m, Settled(), old(chain), size);
    }

    method TransactionOnTop(tx: Transaction, ghost m: Model<V>) returns (ok: bool)
      requires store.Valid() && pending && store.activeSessions == 1 && store.maxSize >= 1
      requires store.model.saved != [] && Last(store.model.saved) == m.current
      requires Front(store.model.saved) == m.saved || Front(store.model.saved) == Trim(m.saved, store.maxSize)
      modifies store
      ensures store.Valid() && store.activeSessions == 1 && store.maxSize == old(store.maxSize)
      ensures ok <==> ApplyTx(rules, old(store.Store()), tx).Some?
      ensures store.Store() == if ok then ApplyTx(rules, old(store.Store()), tx).value else old(store.Store())
      ensures Settled().current == m.current
      ensures Settled().saved == Trim(m.saved, store.maxSize - 1)
    {
      TrimUnderTop(store.model.saved, m.saved, m.current, store.maxSize);
      ok := TransactionSession(tx);
    }

    method OpenPending()
      requires Valid()
      modifies this`pending, store
      ensures pending && store.Valid() && store.activeSessions == 1 && store.maxSize == old(store.maxSize)
      ensures store.Store() == old(store.Store())
      ensures store.model.saved != [] && Last(store.model.saved) == old(HeadState())
      ensures !old(pending) ==> Front(store.model.saved) == Trim(old(Settled()).saved, store.maxSize)
      ensures old(pending) ==> Front(store.model.saved) == old(Settled()).saved
    {
      if !pending {
        store.StartUndoSession();
        pending := true;
      }
    }

    /** The temporary session of one transaction: merged when it applies, undone otherwise. */
    method TransactionSession(tx: Transaction) returns (ok: bool)
      requires store.Valid() && store.activeSessions == 1 && store.maxSize >= 1 && store.model.saved != []
      modifies store
      ensures store.Valid() && store.activeSessions == 1 && store.maxSize == old(store.maxSize)
      ensures ok <==> ApplyTx(rules, old(store.Store()), tx).Some?
      ensures store.Store() == if ok then ApplyTx(rules, old(store.Store()), tx).value else old(store.Store())
      ensures store.model.saved == Trim(old(store.model.saved), store.maxSize)
    {
      store.StartUndoSession();
      var s := store.Store();
      var plan := rules.planTx(s, tx);
      ok := PerformAll(plan.writes);
      ok := ok && plan.passes;
      if ok {
        var merged := store.MergeSession();
      } else {
        var undone := store.UndoSession();
      }
    }

    // -------------------------------------------------------------- popping

    /** The conditions under which `pop_block` does not throw. */
    ghost predicate CanPop()
      reads this, store, fork
    {
      && Fetchable(fork.index, slots, rules.headId(store.Store()))
      && fork.head != null && Alive(fork.Contents(), fork.head.prev)
      && rules.headId(store.Store()).num < slotCount
      && store.model.saved != []
    }

    /** `pop_block` gives back the state before the head block. */
    method PopBlock() returns (ok: bool)
      requires Valid() && !pending
      modifies this, store, fork`head
      ensures Valid() && !pending && pendingTx == old(pendingTx)
      ensures ok <==> old(CanPop())
      ensures ok ==> && store.Store() == Last(old(store.model.saved))
                     && store.model.saved == Front(old(store.model.saved))
                     && chain == (if old(chain) == [] then [] else Front(old(chain)))
                     && fork.head == old(fork.head).prev
      ensures ok ==> && slots == Emptied(old(slots), old(View()).headId)
                     && poppedTx == Fetched(old(fork.index), old(slots), old(View()).headId).value.transactions + old(poppedTx)
      ensures !ok ==> poppedTx == old(poppedTx)
      ensures !ok ==> store.Store() == old(store.Store()) && chain == old(chain) && store.model == old(store.model)
      ensures ok ==> ModelStep(old(store.model), Op<V>.PopCommit) == Some(store.model)
      ensures store.maxSize == old(store.maxSize) && slotCount == old(slotCount)
      ensures forall n :: n != rules.headId(old(store.Store())).num ==>
        (n in slots <==> n in old(slots)) && (n in slots ==> slots[n] == old(slots)[n])
    {
      var s := store.Store();
      var headId := rules.headId(s);
      var headBlock := FetchBlockById(headId);
      if headBlock.None? { return false; }
      ok := fork.PopBlock();
      if !ok { return; }
      ok := RemoveSlot(headId);
      if !ok { return; }
      ok := PopRecord();
      if !ok { return; }
      poppedTx := headBlock.value.transactions + poppedTx;
    }

    /** Restores the newest record, which is that of the newest block. */
    method PopRecord() returns (ok: bool)
      requires Valid() && !pending
      modifies this`chain, store
      ensures Valid() && store.maxSize == old(store.maxSize)
      ensures ok <==> old(store.model.saved) != []
      ensures ok ==> && ModelStep(old(store.model), Op<V>.PopCommit) == Some(store.model)
                     && chain == (if old(chain) == [] then [] else Front(old(chain)))
      ensures !ok ==> store.model == old(store.model) && chain == old(chain)
    {
      ghost var m := store.model;
      ok := store.PopCommitted();
      if ok {
        PoppedHistory(rules, m, store.model, chain);
        chain := if chain == [] then [] else Front(chain);
      }
    }

    ghost function View(): Way
      reads this, store, fork
    {
      Way(fork.index, fork.pinned, fork.head, fork.maxSize, slots, slotCount, chain, rules.headId(store.Store()), poppedTx)
    }

    /** One turn of the popping loop. */
    method PopTowards(target: BlockId, ghost reach: bool, ghost k: int) returns (ok: bool)
      requires Valid() && !pending && rules.headId(store.Store()) != target
      requires reach ==> k >= 0 && CanPopTo(View(), target, k)
      modifies this, store, fork`head
      ensures Valid() && !pending
      ensures store.maxSize == old(store.maxSize) && slotCount == old(slotCount)
      ensures ok ==> ModelStep(old(store.model), Op<V>.PopCommit) == Some(store.model)
                     && chain == DropLast(old(chain), 1)
                     && old(fork.head) != null && fork.head == old(fork.head).prev
      ensures ok ==> Fetchable(old(fork.index), old(slots), old(View()).headId)
                     && slots == Emptied(old(slots), old(View()).headId)
                     && poppedTx == Fetched(old(fork.index), old(slots), old(View()).headId).value.transactions + old(poppedTx)
      ensures !ok ==> chain == old(chain) && store.model == old(store.model)
      ensures reach ==> ok && k > 0 && CanPopTo(View(), target, k - 1) && fork.head.Num() == old(fork.head.Num()) - 1
    {
      ghost var m, before := store.model, View();
      HistoryLinks(rules, m, chain);
      if reach {
        ReadyToPop(before, target, k);
      }
      ok := PopBlock();
      if reach {
        PoppedHistory(rules, m, store.model, before.chain);
        PopWay(before, View(), target, k);
      }
    }

    /** The loop that pops blocks until the head is `target`; `k` blocks when it can be reached. */
    method PopTo(target: BlockId, ghost reach: bool, ghost k: nat) returns (ok: bool, ghost popped: nat)
      requires Valid() && !pending
      requires reach ==> CanPopTo(View(), target, k)
      modifies this, store, fork`head
      ensures Valid() && !pending && slotCount == old(slotCount)
      ensures PoppedBy(old(store.model), store.model, popped)
      ensures chain == DropLast(old(chain), popped)
      ensures ok ==> rules.headId(store.Store()) == target && fork.head == Back(old(fork.head), popped)
      ensures reach ==> ok && popped == k && fork.head != null && fork.head.Num() == old(fork.head).Num() - k
      ensures reach ==> Undone(old(View()), View(), k)
    {
      ghost var m, o := store.model, View();
      HistoryLinks(rules, m, chain);
      PoppingStarts(o, m, target, reach, k);
      ok, popped := PopLoop(target, reach, k, m, o);
      if reach {
        HistoryLinks(rules, store.model, chain);
        Arrived(View(), target, k - popped);
      }
    }

    method PopLoop(target: BlockId, ghost reach: bool, ghost k: nat, ghost m: Model<V>, ghost o: Way)
      returns (ok: bool, ghost popped: nat)
      requires Valid() && !pending && LinkedChain(o) && Popping(o, View(), m, store.model, target, reach, k, 0)
      modifies this, store, fork`head
      ensures Valid() && !pending && slotCount == old(slotCount)
      ensures !ok ==> !reach && PoppedBy(m, store.model, popped) && chain == DropLast(o.chain, popped)
      ensures ok ==> rules.headId(store.Store()) == target
                     && Popping(o, View(), m, store.model, target, reach, k, popped)
    {
      ok, popped := true, 0;
      while ok && rules.headId(store.Store()) != target
        invariant Valid() && !pending && slotCount == old(slotCount)
        invariant PoppedBy(m, store.model, popped) && chain == DropLast(o.chain, popped)
        invariant if ok then Popping(o, View(), m, store.model, target, reach, k, popped) else !reach
        decreases |store.model.saved|, ok
      {
        ok := PopTurn(target, reach, m, o, k, popped);
        if ok {
          popped := popped + 1;
        }
      }
    }

    /** One turn, in terms of where the loop began. */
    method PopTurn(target: BlockId, ghost reach: bool, ghost m: Model<V>, ghost o: Way, ghost k: nat, ghost popped: nat)
      returns (ok: bool)
      requires Valid() && !pending && rules.headId(store.Store()) != target
      requires LinkedChain(o) && Popping(o, View(), m, store.model, target, reach, k, popped)
      modifies this, store, fork`head
      ensures Valid() && !pending && slotCount == old(slotCount)
      ensures ok ==> Popping(o, View(), m, store.model, target, reach, k, popped + 1)
                     && |store.model.saved| < |old(store.model.saved)|
      ensures !ok ==> !reach && PoppedBy(m, store.model, popped) && chain == DropLast(o.chain, popped)
    {
      ghost var before, way := store.model, View();
      HistoryLinks(rules, before, chain);
      ok := PopTowards(target, reach, k - popped);
      if reach {
        PopUndoes(o, way, View(), m, before, target, k, popped);
      }
      if ok {
        PoppingOn(o, way, View(), m, before, store.model, target, reach, k, popped);
      }
    }

    // -------------------------------------------------------------- switching

    /** One turn of the replay loop. */
    method ReplayOne(p: seq<ForkItem>, rest: nat, ghost s0: Snapshot<V>, ghost v0: Way)
      returns (ok: bool)
      requires Valid() && !pending && Descending(p) && 0 < rest
      requires ReplayGoing(p, rest, s0, v0) && Tracked(rules, View(), store.model, p, rest, s0, v0.index)
      modifies this, store, fork
      ensures Valid() && !pending && slotCount >= old(slotCount)
      ensures fork.head == old(fork.head) && fork.pinned == old(fork.pinned)
      ensures ReplayGoing(p, if ok then rest - 1 else rest, s0, v0)
      ensures ok ==> Tracked(rules, View(), store.model, p, rest - 1, s0, v0.index)
      ensures !ok ==> Failed(rules, View(), store.model, p, rest, s0, v0.index)
    {
      ghost var v, m := View(), store.model;
      var b := p[rest - 1].block;
      ok := PushOne(b, b.Id());
      if ok {
        ReplayedOn(rules, v, m, View(), store.model, p, rest, s0, v0.chain);
        TrackedMore(rules, b.Id(), v, m, View(), store.model, p, rest, s0, v0.index);
        FiledMore(v0, v, View(), p, rest);
      } else {
        ReplayedNoFurther(rules, v, m, View(), store.model, p, rest, s0, v0.chain);
        TrackedFails(rules, b.Id(), v, m, View(), store.model, p, rest, s0, v0.index);
      }
    }

    ghost predicate ReplayGoing(p: seq<ForkItem>, rest: nat, s0: Snapshot<V>, v0: Way)
      reads this, store, fork
    {
      Going(rules, View(), store.model, p, rest, s0, v0.chain) && Filed(v0, View(), p, rest)
    }

    /** The replay loop; `rest` blocks are left when it ends. */
    method ReplayBranch(p: seq<ForkItem>) returns (rest: nat)
      requires Valid() && !pending && Descending(p)
      modifies this, store, fork
      ensures Valid() && !pending && slotCount >= old(slotCount)
      ensures fork.head == old(fork.head) && fork.pinned == old(fork.pinned)
      ensures ReplayGoing(p, rest, old(store.Store()), old(View()))
      ensures rest == 0 ==> Tracked(rules, View(), store.model, p, 0, old(store.Store()), old(fork.index))
      ensures rest > 0 ==> Failed(rules, View(), store.model, p, rest, old(store.Store()), old(fork.index))
    {
      ReplayStarts(rules, View(), store.model, p);
      assert p[|p|..] == [];
      rest := ReplayLoop(p, store.Store(), View());
    }

    method ReplayLoop(p: seq<ForkItem>, ghost s0: Snapshot<V>, ghost v0: Way)
      returns (rest: nat)
      requires Valid() && !pending && Descending(p)
      requires ReplayGoing(p, |p|, s0, v0) && Tracked(rules, View(), store.model, p, |p|, s0, v0.index)
      modifies this, store, fork
      ensures Valid() && !pending && slotCount >= old(slotCount)
      ensures fork.head == old(fork.head) && fork.pinned == old(fork.pinned)
      ensures ReplayGoing(p, rest, s0, v0)
      ensures rest == 0 ==> Tracked(rules, View(), store.model, p, 0, s0, v0.index)
      ensures rest > 0 ==> Failed(rules, View(), store.model, p, rest, s0, v0.index)
    {
      rest := |p|;
      var ok := true;
      while ok && rest > 0
        invariant Valid() && !pending && slotCount >= old(slotCount)
        invariant fork.head == old(fork.head) && fork.pinned == old(fork.pinned) && ReplayGoing(p, rest, s0, v0)
        invariant if ok then Tracked(rules, View(), store.model, p, rest, s0, v0.index)
                  else rest > 0 && Failed(rules, View(), store.model, p, rest, s0, v0.index)
        decreases rest, ok
      {
        ok := ReplayOne(p, rest, s0, v0);
        if ok {
          rest := rest - 1;
        }
      }
    }

    /** Removes the failing block and those above it from the fork database. */
    method ForgetInvalid(p: seq<ForkItem>, rest: nat)
      requires fork.Valid() && rest <= |p|
      modifies fork`index
      ensures fork.Valid() && fork.index == old(fork.index) - Ids(p[..rest])
    {
      var i: nat := rest;
      while i > 0
        invariant fork.Valid() && i <= rest && fork.index == old(fork.index) - Ids(p[i..rest])
      {
        i := i - 1;
        assert Ids(p[i..rest]) == Ids(p[i + 1..rest]) + {p[i].block.Id()} by {
          assert p[i..rest] == [p[i]] + p[i + 1..rest];
        }
        fork.Remove(p[i].block.Id());
      }
    }

    /** How far the old branch has been applied again. */
    ghost predicate ReapplyGoing(q: seq<ForkItem>, rest: nat, s0: Snapshot<V>, chain0: seq<Block>, index0: map<BlockId, ForkItem>)
      reads this, store, fork
    {
      && rest <= |q| && Reapplied(rules, store.Store(), chain, q, rest, s0, chain0)
      && Tracked(rules, View(), store.model, q, rest, s0, index0)
    }

    /** One turn of the loop that applies the old branch again. */
    method ReapplyOne(q: seq<ForkItem>, rest: nat, pushed: BlockId, ghost enough: bool, ghost was: Snapshot<V>,
                      ghost s0: Snapshot<V>, ghost chain0: seq<Block>, ghost index0: map<BlockId, ForkItem>)
      returns (ok: bool)
      requires Valid() && !pending && 0 < rest && ReapplyGoing(q, rest, s0, chain0, index0)
      requires enough ==> Replay(rules, s0, OldestFirst(q)) == Some(was)
      modifies this, store, fork
      ensures Valid() && !pending && slotCount >= old(slotCount)
      ensures fork.head == old(fork.head) && fork.pinned == old(fork.pinned) && fork.index.Keys <= old(fork.index).Keys
      ensures poppedTx == old(poppedTx)
      ensures ok ==> ReapplyGoing(q, rest - 1, s0, chain0, index0)
      ensures enough ==> ok
    {
      ghost var v, m := View(), store.model;
      if enough {
        ReapplyGoesOn(rules, m.current, v.chain, q, rest, s0, chain0, was);
      }
      ok := PushOne(q[rest - 1].block, pushed);
      if ok {
        ReappliedMore(rules, m.current, store.Store(), v.chain, q, rest, s0, chain0, m.maxSize);
        TrackedMore(rules, pushed, v, m, View(), store.model, q, rest, s0, index0);
      }
    }

    /** Applies the old branch again.  Its blocks are stored under the id of the pushed block. */
    method ReapplyBranch(q: seq<ForkItem>, pushed: BlockId, ghost enough: bool, ghost was: Snapshot<V>)
      returns (ok: bool)
      requires Valid() && !pending
      requires enough ==> Replay(rules, store.Store(), OldestFirst(q)) == Some(was)
      modifies this, store, fork
      ensures Valid() && !pending && slotCount >= old(slotCount)
      ensures fork.head == old(fork.head) && fork.pinned == old(fork.pinned) && fork.index.Keys <= old(fork.index).Keys
      ensures poppedTx == old(poppedTx)
      ensures enough ==> ok && store.Store() == was
      ensures ok ==> IsSuffix(chain, old(chain) + OldestFirst(q))
                     && Tracked(rules, View(), store.model, q, 0, old(store.Store()), old(fork.index))
    {
      ghost var s0, chain0, index0 := store.Store(), chain, fork.index;
      var rest: nat := |q|;
      assert q[|q|..] == [] && chain0 == chain0 + OldestFirst(q[|q|..]);
      TrackedStarts(rules, View(), store.model, q);
      while rest > 0
        invariant Valid() && !pending && slotCount >= old(slotCount)
        invariant fork.head == old(fork.head) && fork.pinned == old(fork.pinned) && fork.index.Keys <= old(fork.index).Keys
        invariant poppedTx == old(poppedTx)
        invariant ReapplyGoing(q, rest, s0, chain0, index0)
      {
        ok := ReapplyOne(q, rest, pushed, enough, was, s0, chain0, index0);
        if !ok { return; }
        rest := rest - 1;
      }
      ok := true;
      assert q[rest..] == q;
    }

    /** The first phase: back to the branching point, with what the later phases need. */
    method Rewind(p: seq<ForkItem>, q: seq<ForkItem>, ancestor: BlockId, ghost reach: bool, ghost enough: bool)
      returns (ok: bool, ghost popped: nat)
      requires Valid() && !pending && Branches(p, q, ancestor)
      requires reach ==> CanPopTo(View(), ancestor, |q|)
      requires enough ==> reach && ToppedBy(View(), q) && fork.head.Num() == p[0].Num() && CanClimb(fork.index, {}, q[|q| - 1], |p| - |q|)
      modifies this, store, fork`head
      ensures Valid() && !pending && slotCount == old(slotCount)
      ensures PoppedBy(old(store.model), store.model, popped) && chain == DropLast(old(chain), popped)
      ensures ok ==> rules.headId(store.Store()) == ancestor && fork.head == Back(old(fork.head), popped)
      ensures reach ==> ok && popped == |q| && Undone(old(View()), View(), |q|)
      ensures enough ==> Comeback(rules, View(), p, q, ancestor, store.Store(), old(store.Store()), fork.index)
                         && old(chain) == chain + OldestFirst(q)
    {
      if enough {
        RewindReplays(rules, store.model, chain, View().headId, q);
      }
      ok, popped := PopTo(ancestor, reach, |q|);
    }

    /** The failure path: the rest of the new branch leaves the fork database, what was applied of it
        is popped, and the old branch is applied again. */
    method Recover(p: seq<ForkItem>, q: seq<ForkItem>, rest: nat, ancestor: BlockId, pushed: BlockId, ghost enough: bool,
                   ghost top: seq<Block>, ghost s0: Snapshot<V>, ghost was: Snapshot<V>, ghost chain0: seq<Block>)
      returns (ok: bool)
      requires Valid() && !pending && rest <= |p| && q != [] && q[0].Linked()
      requires enough ==>
        && CanPopTo(View().(head := q[0], index := fork.index - Ids(p[..rest])), ancestor, |top|)
        && OnTop(store.model, chain, chain0, top, s0) && Replay(rules, s0, OldestFirst(q)) == Some(was)
      modifies this, store, fork
      ensures Valid() && !pending && fork.pinned == old(fork.pinned) && slotCount >= old(slotCount)
      ensures fork.index.Keys <= (old(fork.index) - Ids(p[..rest])).Keys
      ensures enough ==>
        && ok && store.Store() == was && IsSuffix(chain, chain0 + OldestFirst(q)) && fork.head == Back(q[0], |top|)
        && Tracked(rules, View(), store.model, q, 0, s0, old(fork.index) - Ids(p[..rest]))
        && poppedTx == FetchedTransactions(old(fork.index) - Ids(p[..rest]), old(slots), top) + old(poppedTx)
    {
      ResetFork(p, q[0], rest);
      ok := Unwind(ancestor, enough, chain0, top, s0);
      if !ok { return; }
      ghost var left := chain;
      ok := ReapplyBranch(q, pushed, enough, was);
      if enough {
        SuffixExtends(left, chain0, OldestFirst(q));
        SuffixTransitive(chain, left + OldestFirst(q), chain0 + OldestFirst(q));
      }
    }

    /** Pops what was applied of the new branch. */
    method Unwind(ancestor: BlockId, ghost enough: bool, ghost chain0: seq<Block>, ghost top: seq<Block>,
                  ghost s0: Snapshot<V>)
      returns (ok: bool)
      requires Valid() && !pending
      requires enough ==> CanPopTo(View(), ancestor, |top|) && OnTop(store.model, chain, chain0, top, s0)
      modifies this, store, fork`head
      ensures Valid() && !pending && slotCount == old(slotCount)
      ensures enough ==> ok && store.Store() == s0 && IsSuffix(chain, chain0) && fork.head == Back(old(fork.head), |top|)
      ensures enough ==> poppedTx == FetchedTransactions(old(fork.index), old(slots), top) + old(poppedTx)
    {
      ghost var m, blocks := store.model, chain;
      ghost var popped;
      ok, popped := PopTo(ancestor, enough, |top|);
      if enough {
        Unwound(m, store.model, blocks, chain, chain0, top, s0);
        SuffixDrop(blocks, chain0, top);
      }
    }

    method ResetFork(p: seq<ForkItem>, head: ForkItem, rest: nat)
      requires Valid() && rest <= |p| && head.Linked()
      modifies fork`head, fork`index
      ensures Valid() && View() == old(View()).(head := head, index := old(fork.index) - Ids(p[..rest]))
    {
      ForgetInvalid(p, rest);
      fork.SetHead(head);
    }

    /** The switch in `_push_block`: from the current branch to the longer one of `newHead`. */
    method SwitchTo(newHead: ForkItem, pushed: BlockId)
      returns (r: Outcome, ghost p: seq<ForkItem>, ghost q: seq<ForkItem>, ghost popped: nat)
      requires Valid() && !pending && fork.pinned == {}
      requires fork.head == newHead && newHead.Num() > rules.headId(store.Store()).num
      modifies this, store, fork
      ensures Valid() && !pending && fork.pinned == {}
      ensures SwitchOutcome(rules, r, old(View()), old(store.model), View(), store.model, p, q, popped)
    {
      p, q, popped := [], [], 0;
      var branches := FindBranches(newHead);
      if branches.None? { return Refused, p, q, popped; }
      p, q := branches.value.0, branches.value.1;
      r, popped := SwitchBranches(branches.value.0, branches.value.1,
                                  branches.value.1[|branches.value.1| - 1].block.previous, pushed);
    }

    method FindBranches(newHead: ForkItem) returns (r: Option<(seq<ForkItem>, seq<ForkItem>)>)
      requires Valid() && fork.head == newHead && newHead.Num() > rules.headId(store.Store()).num
      ensures r.Some? <==> Related(View())
      ensures r.Some? ==> r.value.1 != [] && Branches(r.value.0, r.value.1, r.value.1[|r.value.1| - 1].block.previous)
      ensures r.Some? ==> PathsToMeeting(View(), r.value.0, r.value.1)
    {
      var headId := rules.headId(store.Store());
      r := fork.FetchBranchFrom(newHead.block.Id(), headId);
      assert View().Forks() == fork.Contents();
      if r.Some? {
        ghost var t := fork.Contents();
        ghost var x, y := t.index[newHead.block.Id()], t.index[headId];
        ghost var n: nat :| CommonParent(t, x, y, n) && NoneAbove(t, x, y, n + 1)
                            && r.value == (PathDown(t, x, n), PathDown(t, y, n));
        PathIsBranch(t, x, n);
        PathIsBranch(t, y, n);
        assert MeetAt(View(), n);
      }
    }

    /** The loops hold on to the items of both branches, so the fork database cannot free them. */
    method PinBranches(p: seq<ForkItem>, q: seq<ForkItem>)
      requires Valid() && !pending && LinkedBranch(p) && LinkedBranch(q)
      modifies fork`pinned
      ensures Valid() && View() == old(View()).(pinned := Items(p) + Items(q))
    {
      fork.Pin(Items(p) + Items(q));
    }

    /** The three phases of the switch: rewind, replay, and restore when the replay fails. */
    method SwitchBranches(p: seq<ForkItem>, q: seq<ForkItem>, ancestor: BlockId, pushed: BlockId)
      returns (r: Outcome, ghost popped: nat)
      requires Valid() && !pending && Branches(p, q, ancestor)
      requires fork.head != null && fork.head.Num() == p[0].Num()
      modifies this, store, fork
      ensures Valid() && !pending && fork.pinned == {}
      ensures SwitchResult(rules, r, old(View()), old(store.model), View(), store.model, p, q, popped)
    {
      ghost var v, m := View(), store.model;
      PinBranches(p, q);
      r, popped := SwitchPinned(p, q, ancestor, pushed, v);
      fork.Pin({});
    }

    method SwitchPinned(p: seq<ForkItem>, q: seq<ForkItem>, ancestor: BlockId, pushed: BlockId, ghost v: Way)
      returns (r: Outcome, ghost popped: nat)
      requires Valid() && !pending && Branches(p, q, ancestor)
      requires fork.head != null && fork.head.Num() == p[0].Num() && View() == v.(pinned := Items(p) + Items(q))
      modifies this, store, fork
      ensures Valid() && !pending
      ensures SwitchResult(rules, r, v, old(store.model), View().(pinned := {}), store.model, p, q, popped)
    {
      ghost var m, enough := store.model, EnoughHistory(rules, store.model, v, p, q);
      var ok;
      ok, popped := Rewind(p, q, ancestor, CanReach(v, p, q), enough);
      if !ok {
        SwitchBreaks(rules, v, m, View(), store.model, p, q, popped);
        return Broken, popped;
      }
      r := SwitchRewound(p, q, ancestor, pushed, v, m, popped, enough);
    }

    /** The rest of the switch, once the branching point is reached. */
    method SwitchRewound(p: seq<ForkItem>, q: seq<ForkItem>, ancestor: BlockId, pushed: BlockId, ghost v: Way, ghost m: Model<V>,
                         ghost popped: nat, ghost enough: bool)
      returns (r: Outcome)
      requires Valid() && !pending && Branches(p, q, ancestor) && q != []
      requires fork.pinned == Items(p) + Items(q) && slotCount == v.slotCount
      requires PoppedBy(m, store.model, popped) && rules.headId(store.Store()) == ancestor
      requires chain == DropLast(v.chain, popped) && fork.head == Back(v.head, popped) && fork.index == v.index
      requires CanReach(v, p, q) ==> popped == |q| && Undone(v, View(), |q|)
      requires enough == EnoughHistory(rules, m, v, p, q)
      requires enough ==> Comeback(rules, View(), p, q, ancestor, store.Store(), m.current, fork.index)
                          && v.chain == chain + OldestFirst(q)
      modifies this, store, fork
      ensures Valid() && !pending
      ensures SwitchResult(rules, r, v, m, View().(pinned := {}), store.model, p, q, popped)
    {
      ghost var w, s0 := View(), store.Store();
      r := ReplayOrRecover(p, q, ancestor, pushed, enough, m.current);
      SwitchEnds(rules, r, v, m, w, View(), store.model, p, q, popped, enough, s0);
    }

    /** The second phase, and the third when it fails. */
    method ReplayOrRecover(p: seq<ForkItem>, q: seq<ForkItem>, ancestor: BlockId, pushed: BlockId,
                           ghost enough: bool, ghost was: Snapshot<V>)
      returns (r: Outcome)
      requires Valid() && !pending && Branches(p, q, ancestor)
      requires AllIn(p, fork.pinned) && AllIn(q, fork.pinned)
      requires enough ==> Comeback(rules, View(), p, q, ancestor, store.Store(), was, fork.index) && KeepsAncestors(rules, store.Store(), p, q)
      modifies this, store, fork
      ensures Valid() && !pending && slotCount >= old(slotCount)
      ensures PhasesEnd(rules, r, p, q, enough, was, old(store.Store()), old(View()), View(), store.model)
      ensures !r.Switched? ==> Replay(rules, old(store.Store()), OldestFirst(p)).None?
    {
      ghost var s0, v := store.Store(), View();
      var rest := ReplayBranch(p);
      if rest == 0 {
        assert p[0..] == p;
        return Switched;
      }
      ReplayStops(rules, s0, p, rest, store.Store());
      ghost var w, m := View(), store.model;
      ghost var u := w.(head := q[0], index := w.index - Ids(p[..rest]));
      if enough {
        GivenUp(rules, w, m, u, p, q, rest, ancestor, s0, was, v.chain, v.index);
      }
      var ok := Recover(p, q, rest, ancestor, pushed, enough, OldestFirst(p[rest..]), s0, was, v.chain);
      r := if ok then Restored else Broken;
      PhasesFail(rules, r, p, q, rest, enough, was, s0, v, w, m, View(), store.model);
    }

    // -------------------------------------------------------------- pushing

    /** The session in which the operations of an accepted block are announced.  Listeners change
        nothing here, so it is merged into the record of the block without effect. */
    method AnnounceSession()
      requires Valid() && !pending && store.model.saved != []
      modifies this`chain, store
      ensures Valid() && !pending && store.model == old(store.model).(saved := Trim(old(store.model.saved), store.maxSize))
      ensures store.maxSize == old(store.maxSize)
      ensures chain == Trim(old(chain), store.maxSize)
    {
      ghost var m := store.model;
      EmptySession();
      chain := Trim(chain, store.maxSize);
      PendingHistory(rules, m, store.model, old(chain), store.maxSize);
    }

    /** A session that is merged without having changed anything. */
    method EmptySession()
      requires store.Valid() && store.activeSessions == 0 && store.maxSize >= 1 && store.model.saved != []
      modifies store
      ensures store.Valid() && store.activeSessions == 0 && store.maxSize == old(store.maxSize)
      ensures store.model == old(store.model).(saved := Trim(old(store.model.saved), store.maxSize))
    {
      store.StartUndoSession();
      var merged := store.MergeSession();
      assert merged;
    }

    /** The block extends the current head, or is refused without a trace in the object state. */
    method PushDirect(b: Block) returns (r: Outcome)
      requires Valid() && !pending
      modifies this, store, fork
      ensures Valid() && !pending && fork.pinned == old(fork.pinned)
      ensures DirectOutcome(rules, r, b, old(View()), old(store.model), View(), store.model)
    {
      var ok := PushOne(b, b.Id());
      if !ok {
        fork.Remove(b.Id());
        return Refused;
      }
      AnnounceSession();
      r := Applied;
    }

    /** `_push_block`. */
    method PushBlock(b: Block, skipForkDb: bool)
      returns (r: Outcome, ghost way: Way, ghost p: seq<ForkItem>, ghost q: seq<ForkItem>, ghost popped: nat)
      requires Valid() && !pending && fork.pinned == {}
      modifies this, store, fork
      ensures Valid() && !pending && fork.pinned == {}
      // the fork database turns the block away, or has it in `way`, where nothing else is different
      ensures way == old(View()).(index := way.index, head := way.head) && Sound(way.Forks())
      ensures skipForkDb || old(TurnedAway(b)) ==> way == old(View())
      ensures !skipForkDb && !old(TurnedAway(b)) ==> exists item: ForkItem ::
        && item.block == b && item.prev == ParentItem(old(fork.Contents()), b)
        && way.Forks() == Added(old(fork.Contents()), old(fork.maxSize), item)
      // and what happens then depends on the head of the longest branch
      ensures !skipForkDb && old(TurnedAway(b)) ==> r.Refused? && View() == way && store.model == old(store.model)
      ensures skipForkDb || (!old(TurnedAway(b)) && BuildsOnHead(way)) ==>
        DirectOutcome(rules, r, b, way, old(store.model), View(), store.model)
      ensures !skipForkDb && !old(TurnedAway(b)) && !BuildsOnHead(way) && !Longer(way) ==>
        r.Ignored? && View() == way && store.model == old(store.model)
      ensures !skipForkDb && !old(TurnedAway(b)) && !BuildsOnHead(way) && Longer(way) ==>
        && SwitchOutcome(rules, r, way, old(store.model), View(), store.model, p, q, popped)
        && (r.Switched? ==> rules.headId(store.Store()) == way.head.block.Id())
    {
      p, q, popped, way := [], [], 0, View();
      if !skipForkDb {
        var result, item := fork.PushBlock(b);
        way := View();
        if !result.Pushed? { return Refused, way, p, q, popped; }
        var newHead := result.head;
        var headId := rules.headId(store.Store());
        if newHead.block.previous != headId {
          if newHead.Num() <= headId.num { return Ignored, way, p, q, popped; }
          r, p, q, popped := SwitchTo(newHead, b.Id());
          if r.Switched? {
            SwitchedHead(rules, way, old(store.model), View(), store.model, p, q, popped);
          }
          return;
        }
      }
      r := PushDirect(b);
    }

    /** The fork database does not take the block. */
    predicate TurnedAway(b: Block)
      reads fork
    {
      TooLow(fork.Contents(), fork.maxSize, b) || Unlinked(fork.Contents(), b)
    }
  }

  // ---------------------------------------------------------------- outcomes

  /** The longest branch the fork database knows ends in a block on the head of the chain. */
  predicate BuildsOnHead(v: Way) {
    v.head != null && v.head.block.previous == v.headId
  }

  predicate Longer(v: Way) {
    v.head != null && v.head.Num() > v.headId.num
  }

  /** The fork database can reach a common proper ancestor of its head and the head of the chain. */
  ghost predicate Related(v: Way)
    requires Sound(v.Forks()) && v.head != null
  {
    var first, second := v.head.block.Id(), v.headId;
    first in v.index && second in v.index
    && exists n: nat :: CommonParent(v.Forks(), v.index[first], v.index[second], n)
  }

  /** The highest common parent of the two has the number `n`. */
  ghost predicate MeetAt(v: Way, n: nat)
    requires Sound(v.Forks()) && v.head != null
  {
    var first, second := v.head.block.Id(), v.headId;
    && first in v.index && second in v.index
    && CommonParent(v.Forks(), v.index[first], v.index[second], n)
    && NoneAbove(v.Forks(), v.index[first], v.index[second], n + 1)
  }

  /** `p` and `q` are the paths from both heads down to their highest common parent. */
  ghost predicate PathsToMeeting(v: Way, p: seq<ForkItem>, q: seq<ForkItem>)
    requires Sound(v.Forks()) && v.head != null
  {
    exists n: nat :: MeetAt(v, n)
      && p == PathDown(v.Forks(), v.index[v.head.block.Id()], n) && q == PathDown(v.Forks(), v.index[v.headId], n)
  }

  /** A successful switch, in terms of the history before it: the state is the replay of the branch
      `p` from the state before the last `popped` blocks; the records and the stored blocks are its;
      all of it has a record exactly when its blocks keep the depth for them. */
  ghost predicate SwitchDone<V(!new)>(rules: Rules<V>, v: Way, m: Model<V>, v': Way, m': Model<V>, p: seq<ForkItem>, popped: nat) {
    && popped <= |m.saved| && p != []
    && var s0 := StateBefore(m, popped);
    && rules.headId(s0) == p[|p| - 1].block.previous
    && Replay(rules, s0, OldestFirst(p)) == Some(m'.current)
    && IsSuffix(v'.chain, DropLast(v.chain, popped) + OldestFirst(p)) && RecordsKept(rules, s0, p, |v'.chain|)
    && Stored(v'.slots, p, 0) && v'.slotCount > p[0].Num()
    && v'.forkSize == m'.maxSize && LastDepth(rules, s0, p, 0, m'.maxSize)
    && v'.head == Back(v.head, popped) && Shrunk(v.index, v'.index, Lowest(rules, s0, OldestFirst(p), v'.head))
  }

  /** The state `was` and the blocks of `q` are back after a block of `p`, with `rest` left, failed on
      top of `s0` under the fork head `head`: that block and those above it have left the fork
      database, which had `index` before; the transactions of what was applied of `p` were popped on
      top of `popped`. */
  ghost predicate BackAgain<V(!new)>(rules: Rules<V>, s0: Snapshot<V>, was: Snapshot<V>, p: seq<ForkItem>, q: seq<ForkItem>,
                                     rest: nat, index: map<BlockId, ForkItem>, head: ForkItem?, popped: seq<Transaction>,
                                     v': Way, m': Model<V>)
    requires rest <= |p| && q != []
  {
    && (Known(index, p) ==> v'.poppedTx == TransactionsOf(OldestFirst(p[rest..])) + popped)
    && m'.current == was && RecordsKept(rules, s0, q, |v'.chain|)
    && v'.forkSize == m'.maxSize && LastDepth(rules, s0, q, 0, m'.maxSize)
    && v'.head == Back(q[0], |p| - rest)
    && Shrunk(index - Ids(p[..rest]), v'.index,
              Max(Lowest(rules, s0, OldestFirst(p), head), Lowest(rules, s0, OldestFirst(q), v'.head)))
  }

  lemma ShrunkAround(a: map<BlockId, ForkItem>, b: map<BlockId, ForkItem>, ids: set<BlockId>, c: map<BlockId, ForkItem>,
                     floor: int, low: int)
    requires Shrunk(a, b, floor) && Shrunk(b - ids, c, low)
    ensures Shrunk(a - ids, c, Max(floor, low))
  {
  }

  /** The block of `p` with `rest` left is the first that fails when `p` is replayed from `s0`. */
  ghost predicate FailsAt<V(!new)>(rules: Rules<V>, s0: Snapshot<V>, p: seq<ForkItem>, rest: nat) {
    && 0 < rest <= |p| && Replay(rules, s0, OldestFirst(p[rest..])).Some?
    && Apply(rules, Replay(rules, s0, OldestFirst(p[rest..])).value, p[rest - 1].block).None?
  }

  /** What the replay from `v` and `s0`, and the way back when it fails, come to. */
  ghost predicate PhasesEnd<V(!new)>(rules: Rules<V>, r: Outcome, p: seq<ForkItem>, q: seq<ForkItem>, enough: bool,
                                     was: Snapshot<V>, s0: Snapshot<V>, v: Way, v': Way, m': Model<V>) {
    && (r.Switched? || r.Restored? || r.Broken?) && q != []
    && (r.Switched? ==> && Going(rules, v', m', p, 0, s0, v.chain) && Tracked(rules, v', m', p, 0, s0, v.index)
                        && v'.head == v.head && Filed(v, v', p, 0))
    && (!r.Switched? ==> exists rest: nat :: FailedAt(rules, p, q, rest, enough, was, s0, v, v', m'))
    && (enough ==> !r.Broken?)
  }

  /** What is left when the block of `p` with `rest` left has failed. */
  ghost predicate FailedAt<V(!new)>(rules: Rules<V>, p: seq<ForkItem>, q: seq<ForkItem>, rest: nat, enough: bool,
                                    was: Snapshot<V>, s0: Snapshot<V>, v: Way, v': Way, m': Model<V>)
    requires q != []
  {
    && FailsAt(rules, s0, p, rest) && v'.index.Keys !! Ids(p[..rest])
    && (enough ==> IsSuffix(v'.chain, v.chain + OldestFirst(q)) && BackAgain(rules, s0, was, p, q, rest, v.index, v.head, v.poppedTx, v', m'))
  }

  /** What a switch from `q` to `p` comes to that began with `v` and `m`, and popped `popped` blocks. */
  ghost predicate SwitchResult<V(!new)>(rules: Rules<V>, r: Outcome, v: Way, m: Model<V>, v': Way, m': Model<V>,
                                        p: seq<ForkItem>, q: seq<ForkItem>, popped: nat) {
    && (r.Switched? || r.Restored? || r.Broken?) && 0 < |q| < |p| && popped <= |m.saved| && v'.slotCount >= v.slotCount
    && (r.Switched? ==> SwitchDone(rules, v, m, v', m', p, popped))
    // when the branching point can be reached, the switch works exactly when the new branch can be replayed from it
    && (CanReach(v, p, q) ==>
          && popped == |q|
          && (r.Switched? <==> Replay(rules, StateBefore(m, |q|), OldestFirst(p)).Some?))
    // and then its blocks took the place of the old ones in the block file, and the transactions of these were popped
    && (CanReach(v, p, q) && r.Switched? ==>
          && v'.slots == SlotsWith(SlotsWithout(v.slots, Newest(v.chain, |q|)), OldestFirst(p))
          && v'.poppedTx == FetchedTransactions(v.index, v.slots, Newest(v.chain, |q|)) + v.poppedTx)
    // the failing block and those above it leave the fork database, and with enough history the old branch is back
    && (r.Restored? ==> exists rest: nat ::
          FailsAt(rules, StateBefore(m, popped), p, rest) && v'.index.Keys !! Ids(p[..rest]))
    && (EnoughHistory(rules, m, v, p, q) && !r.Switched? ==>
          && r.Restored? && IsSuffix(v'.chain, v.chain)
          && exists rest: nat ::
               && FailsAt(rules, StateBefore(m, |q|), p, rest)
               && BackAgain(rules, StateBefore(m, |q|), m.current, p, q, rest, v.index, Back(v.head, |q|),
                           FetchedTransactions(v.index, v.slots, Newest(v.chain, |q|)) + v.poppedTx, v', m'))
  }

  /** What a switch from `v` and `m` comes to. */
  ghost predicate SwitchOutcome<V(!new)>(rules: Rules<V>, r: Outcome, v: Way, m: Model<V>, v': Way, m': Model<V>,
                                         p: seq<ForkItem>, q: seq<ForkItem>, popped: nat)
    requires Sound(v.Forks()) && v.head != null
  {
    // without a common ancestor in the fork database nothing happens
    && (r.Refused? <==> !Related(v))
    && (r.Refused? ==> m' == m && v' == v)
    // otherwise the branches are the paths down to the highest one
    && (!r.Refused? ==>
          && PathsToMeeting(v, p, q) && q != [] && Branches(p, q, q[|q| - 1].block.previous)
          && p[0].block.Id() == v.head.block.Id()
          && SwitchResult(rules, r, v, m, v', m', p, q, popped))
  }

  /** A branch that can be reached and replayed is switched to. */
  lemma SwitchWorks<V(!new)>(rules: Rules<V>, r: Outcome, v: Way, m: Model<V>, v': Way, m': Model<V>,
                             p: seq<ForkItem>, q: seq<ForkItem>, popped: nat)
    requires SwitchResult(rules, r, v, m, v', m', p, q, popped) && CanReach(v, p, q)
    requires |q| <= |m.saved| && Replay(rules, StateBefore(m, |q|), OldestFirst(p)).Some?
    ensures r.Switched? && IsSuffix(v'.chain, DropLast(v.chain, |q|) + OldestFirst(p))
    ensures RoomInTurn(rules, StateBefore(m, |q|), OldestFirst(p), 1) ==> |v'.chain| >= |p|
  {
  }

  /** Of the blocks switched away from, those that are fetched as they are leave all their transactions. */
  lemma SwitchReturns<V(!new)>(rules: Rules<V>, v: Way, m: Model<V>, v': Way, m': Model<V>,
                               p: seq<ForkItem>, q: seq<ForkItem>, popped: nat)
    requires SwitchResult(rules, Switched, v, m, v', m', p, q, popped) && CanReach(v, p, q) && ToppedBy(v, q)
    requires FetchedAsIs(v.index, v.slots, OldestFirst(q))
    ensures v'.poppedTx == TransactionsOf(OldestFirst(q)) + v.poppedTx
  {
    OwnTransactions(v.index, v.slots, OldestFirst(q));
  }

  /** In the block file the new branch takes the place of the old one, and all else stays. */
  lemma SwitchStores<V(!new)>(rules: Rules<V>, v: Way, m: Model<V>, v': Way, m': Model<V>,
                              p: seq<ForkItem>, q: seq<ForkItem>, popped: nat, n: nat)
    requires SwitchResult(rules, Switched, v, m, v', m', p, q, popped) && CanReach(v, p, q) && LinkedChain(v)
    requires Descending(p) && p[|p| - 1].block.previous.num == q[|q| - 1].block.previous.num
    ensures p[|p| - 1].Num() <= n <= p[0].Num() ==>
              n in v'.slots && v'.slots[n] == Slot(p[p[0].Num() - n].block.Id(), Some(p[p[0].Num() - n].block))
    ensures !(p[|p| - 1].Num() <= n <= p[0].Num()) ==> (n in v'.slots <==> n in v.slots) && (n in v.slots ==> v'.slots[n] == v.slots[n])
  {
    if p[|p| - 1].Num() <= n <= p[0].Num() {
      var t := p[0].Num() - n;
      assert p[t].Num() == n;
    } else {
      NotPut(SlotsWithout(v.slots, Newest(v.chain, |q|)), OldestFirst(p), n);
      OthersKept(v.slots, Newest(v.chain, |q|), n);
    }
  }

  lemma {:induction false} NotPut(slots: map<nat, Slot>, bs: seq<Block>, n: nat)
    requires forall i :: 0 <= i < |bs| ==> bs[i].Num() != n
    ensures n in SlotsWith(slots, bs) <==> n in slots
    ensures n in slots ==> SlotsWith(slots, bs)[n] == slots[n]
  {
    if bs == [] {
    } else {
      NotPut(slots, bs[..|bs| - 1], n);
    }
  }

  lemma SwitchedHead<V(!new)>(rules: Rules<V>, v: Way, m: Model<V>, v': Way, m': Model<V>,
                              p: seq<ForkItem>, q: seq<ForkItem>, popped: nat)
    requires Lawful(rules) && Sound(v.Forks()) && v.head != null
    requires SwitchOutcome(rules, Switched, v, m, v', m', p, q, popped)
    ensures rules.headId(m'.current) == v.head.block.Id()
  {
    ReplayHead(rules, StateBefore(m, popped), OldestFirst(p));
  }

  /** What pushing `b` on the head comes to: with one more record exactly when the block applies;
      otherwise it is taken out of the fork database again. */
  ghost predicate DirectOutcome<V(!new)>(rules: Rules<V>, r: Outcome, b: Block, v: Way, m: Model<V>, v': Way, m': Model<V>) {
    && (r.Applied? || r.Refused?)
    && (r.Applied? <==> Apply(rules, m.current, b).Some?)
    && (r.Applied? ==>
          && Apply(rules, m.current, b) == Some(m'.current)
          && Some(m'.maxSize) == rules.plan(m.current, b).depth && v'.forkSize == m'.maxSize >= 1
          && m'.saved == Trim(Trim(m.saved, m.maxSize) + [m.current], m'.maxSize)
          && v'.chain == Trim(Trim(v.chain, m.maxSize) + [b], m'.maxSize)
          && v'.slots == v.slots[b.Num() := Slot(b.Id(), Some(b))] && v'.slotCount > b.Num())
    && (r.Refused? ==>
          && CancelledModel(m, m') && v'.chain == Trim(v.chain, m.maxSize) && v'.slots == v.slots
          && b.Id() !in v'.index)
    && v'.head == v.head && v'.slotCount >= v.slotCount && v'.poppedTx == v.poppedTx
    && Shrunk(if r.Applied? then v.index else v.index - {b.Id()}, v'.index, LowestAt(v.head, rules.plan(m.current, b).depth))
  }

  // ---------------------------------------------------------------- how a switch ends

  lemma PhasesFail<V(!new)>(rules: Rules<V>, r: Outcome, p: seq<ForkItem>, q: seq<ForkItem>, rest: nat, enough: bool,
                            was: Snapshot<V>, s0: Snapshot<V>, v: Way, w: Way, m: Model<V>, v': Way, m': Model<V>)
    requires (r.Restored? || r.Broken?) && q != [] && w.head == v.head
    requires Going(rules, w, m, p, rest, s0, v.chain) && Failed(rules, w, m, p, rest, s0, v.index)
    requires v'.index.Keys <= (w.index - Ids(p[..rest])).Keys
    requires enough ==>
      && r.Restored? && m'.current == was && IsSuffix(v'.chain, v.chain + OldestFirst(q))
      && v'.head == Back(q[0], |OldestFirst(p[rest..])|)
      && Tracked(rules, v', m', q, 0, s0, w.index - Ids(p[..rest]))
      && v'.poppedTx == FetchedTransactions(w.index - Ids(p[..rest]), w.slots, OldestFirst(p[rest..])) + v.poppedTx
    ensures PhasesEnd(rules, r, p, q, enough, was, s0, v, v', m')
  {
    if enough {
      AppliedTransactions(v.index, w.index, w.slots, p, rest, Lowest(rules, s0, OldestFirst(p), v.head));
      Returned(rules, s0, was, p, q, rest, v.index, w.index, v.head, v.poppedTx, v', m');
    }
    assert FailsAt(rules, s0, p, rest);
    assert FailedAt(rules, p, q, rest, enough, was, s0, v, v', m');
  }

  /** What was applied of `p` is fetched from the fork database or the block file, which has it. */
  lemma AppliedTransactions(index: map<BlockId, ForkItem>, middle: map<BlockId, ForkItem>, slots: map<nat, Slot>, p: seq<ForkItem>,
                            rest: nat, floor: int)
    requires rest <= |p| && Stored(slots, p, rest) && Shrunk(index, middle, floor)
    ensures var top := OldestFirst(p[rest..]);
            Known(index, p) ==> FetchedTransactions(middle - Ids(p[..rest]), slots, top) == TransactionsOf(top)
  {
    if Known(index, p) {
      var top, left := OldestFirst(p[rest..]), middle - Ids(p[..rest]);
      AppliedAreStored(slots, p, rest);
      forall x | 0 <= x < |top| ensures Fetched(left, slots, top[x].Id()) == Some(top[x]) {
        AppliedBlock(p, rest, x);
        assert p[|p| - 1 - x].block.Id() in index ==> index[top[x].Id()].block == top[x];
      }
      OwnTransactions(left, slots, top);
    }
  }

  lemma Returned<V(!new)>(rules: Rules<V>, s0: Snapshot<V>, was: Snapshot<V>, p: seq<ForkItem>, q: seq<ForkItem>, rest: nat,
                          index: map<BlockId, ForkItem>, middle: map<BlockId, ForkItem>, head: ForkItem?, popped: seq<Transaction>,
                          v': Way, m': Model<V>)
    requires rest <= |p| && q != [] && m'.current == was && v'.head == Back(q[0], |OldestFirst(p[rest..])|)
    requires Shrunk(index, middle, Lowest(rules, s0, OldestFirst(p), head))
    requires Tracked(rules, v', m', q, 0, s0, middle - Ids(p[..rest]))
    requires Known(index, p) ==> v'.poppedTx == TransactionsOf(OldestFirst(p[rest..])) + popped
    ensures BackAgain(rules, s0, was, p, q, rest, index, head, popped, v', m')
  {
    assert q[0..] == q;
    ShrunkAround(index, middle, Ids(p[..rest]), v'.index, Lowest(rules, s0, OldestFirst(p), head),
                 Lowest(rules, s0, OldestFirst(q), v'.head));
  }

  /** A switch that never reaches the branching point. */
  lemma SwitchBreaks<V(!new)>(rules: Rules<V>, v: Way, m: Model<V>, v': Way, m': Model<V>, p: seq<ForkItem>, q: seq<ForkItem>,
                              popped: nat)
    requires 0 < |q| < |p| && popped <= |m.saved| && v'.slotCount >= v.slotCount && !CanReach(v, p, q)
    ensures SwitchResult(rules, Broken, v, m, v'.(pinned := {}), m', p, q, popped)
  {
  }

  /** The whole switch, from its first phase and the other two. */
  lemma SwitchEnds<V(!new)>(rules: Rules<V>, r: Outcome, v: Way, m: Model<V>, w: Way, v': Way, m': Model<V>,
                            p: seq<ForkItem>, q: seq<ForkItem>, popped: nat, enough: bool, s0: Snapshot<V>)
    requires 0 < |q| < |p| && popped <= |m.saved| && StateBefore(m, popped) == s0 && v'.slotCount >= v.slotCount
    requires rules.headId(s0) == p[|p| - 1].block.previous && w.head == Back(v.head, popped) && w.index == v.index
    requires w.chain == DropLast(v.chain, popped) && enough == EnoughHistory(rules, m, v, p, q)
    requires CanReach(v, p, q) ==> popped == |q| && Undone(v, w, |q|)
    requires enough ==> v.chain == w.chain + OldestFirst(q)
    requires PhasesEnd(rules, r, p, q, enough, m.current, s0, w, v', m')
    requires !r.Switched? ==> Replay(rules, s0, OldestFirst(p)).None?
    ensures SwitchResult(rules, r, v, m, v'.(pinned := {}), m', p, q, popped)
  {
    var after := v'.(pinned := {});
    if r.Switched? {
      assert p[0..] == p;
      assert SwitchDone(rules, v, m, after, m', p, popped);
    } else {
      var rest: nat :| FailedAt(rules, p, q, rest, enough, m.current, s0, w, v', m');
      assert FailsAt(rules, s0, p, rest) && after.index.Keys !! Ids(p[..rest]);
      if enough {
        assert BackAgain(rules, s0, m.current, p, q, rest, v.index, Back(v.head, |q|), w.poppedTx, after, m');
      }
    }
  }

  // ---------------------------------------------------------------- the way back

  /** When a block of the branch fails, the branch cannot be replayed. */
  lemma ReplayStops<V(!new)>(rules: Rules<V>, s0: Snapshot<V>, p: seq<ForkItem>, rest: nat, s: Snapshot<V>)
    requires 0 < rest <= |p| && Replay(rules, s0, OldestFirst(p[rest..])) == Some(s)
    requires Apply(rules, s, p[rest - 1].block).None?
    ensures Replay(rules, s0, OldestFirst(p)).None?
  {
    OldestFirstSplit(p, rest);
    OldestFirstHead(p, rest);
    ReplaySplit(rules, s0, OldestFirst(p[rest..]), OldestFirst(p[..rest]));
  }

  lemma CanReturnTo(p: seq<ForkItem>, q: seq<ForkItem>, rest: nat, index0: map<BlockId, ForkItem>,
                    index1: map<BlockId, ForkItem>, index: map<BlockId, ForkItem>, pinned: set<ForkItem>,
                    ancestor: BlockId, floor: int)
    requires LinkedBranch(p) && LinkedBranch(q) && |p| >= |q| && 0 < rest <= |p|
    requires p[|p| - 1].block.previous == ancestor && q[|q| - 1].block.previous == ancestor
    requires AllIn(q, pinned)
    requires CanClimb(index0, {}, q[|q| - 1], |p| - |q|)
    requires Shrunk(index0, index1, floor) && floor <= Max(0, p[0].Num() - |p| + 1 - (|p| - |q|))
    requires forall id :: id in index1 && id.num <= ancestor.num ==> id in index && index[id] == index1[id]
    requires forall id :: id in index0 ==> index0[id].block.Id() == id
    ensures CanClimb(index, pinned, q[0], |p| - rest)
  {
    ClimbKeeps(index0, index, {}, pinned, q[|q| - 1], |p| - |q|);
    ClimbBranch(index, pinned, q, |p| - |q|);
    ClimbLess(index, pinned, q[0], |p| - 1, |p| - rest);
  }

  /** What the failure path needs to know from the rewinding. */
  ghost predicate Comeback<V(!new)>(rules: Rules<V>, v: Way, p: seq<ForkItem>, q: seq<ForkItem>, ancestor: BlockId,
                                    s0: Snapshot<V>, was: Snapshot<V>, index0: map<BlockId, ForkItem>)
    requires p != [] && q != []
  {
    && Replay(rules, s0, OldestFirst(q)) == Some(was)
    && rules.headId(s0) == ancestor && ancestor.num < v.slotCount
    && |p| >= |q| && CanClimb(index0, {}, q[|q| - 1], |p| - |q|)
    && v.head != null && v.head.Num() == p[0].Num() - |q|
    && (forall id :: id in index0 ==> index0[id].block.Id() == id)
  }

  /** Once the rest of `p` has left the fork database, its head can still be stepped back far enough. */
  lemma ForgetClimb<V(!new)>(rules: Rules<V>, v: Way, m: Model<V>, p: seq<ForkItem>, q: seq<ForkItem>, rest: nat,
                             ancestor: BlockId, s0: Snapshot<V>, was: Snapshot<V>, index0: map<BlockId, ForkItem>)
    requires Branches(p, q, ancestor) && AllIn(q, v.pinned) && Failed(rules, v, m, p, rest, s0, index0)
    requires Comeback(rules, v, p, q, ancestor, s0, was, index0) && KeepsAncestors(rules, s0, p, q)
    ensures CanClimb(v.index - Ids(p[..rest]), v.pinned, q[0], |p| - rest)
  {
    FloorFits(rules, s0, p, q, v.head);
    OthersStay(p, rest, ancestor, v.index);
    CanReturnTo(p, q, rest, index0, v.index, v.index - Ids(p[..rest]), v.pinned, ancestor, Lowest(rules, s0, OldestFirst(p), v.head));
  }

  /** And what was applied of `p` can be popped. */
  lemma ForgetReady<V(!new)>(rules: Rules<V>, v: Way, m: Model<V>, u: Way, p: seq<ForkItem>, rest: nat,
                             ancestor: BlockId, s0: Snapshot<V>, chain0: seq<Block>)
    requires Lawful(rules) && HistoryOf(rules, m, v.chain) && v.headId == rules.headId(m.current)
    requires Descending(p) && p[|p| - 1].block.previous == ancestor && 0 < rest <= |p|
    requires Going(rules, v, m, p, rest, s0, chain0) && |p| - rest <= |v.chain|
    requires rules.headId(s0) == ancestor && ancestor.num < v.slotCount
    requires u == v.(head := u.head, index := u.index) && u.head != null && CanClimb(u.index, u.pinned, u.head, |p| - rest)
    ensures CanPopTo(u, ancestor, |p| - rest)
    ensures OnTop(m, v.chain, chain0, OldestFirst(p[rest..]), s0)
  {
    TopReady(rules, v, m, p, rest, s0, chain0);
    HeadCounted(rules, v, m, p, rest, ancestor, s0, chain0);
    AppliedOnTop(v.chain, v.slots, p, rest, chain0);
    CanUnapply(u, OldestFirst(p[rest..]), ancestor);
  }

  /** What was applied of `p` is the newest part of the chain, and stored. */
  lemma AppliedOnTop(chain: seq<Block>, slots: map<nat, Slot>, p: seq<ForkItem>, rest: nat, chain0: seq<Block>)
    requires rest <= |p| && Stored(slots, p, rest)
    requires IsSuffix(chain, chain0 + OldestFirst(p[rest..])) && |p| - rest <= |chain|
    ensures var top := OldestFirst(p[rest..]);
            && chain[|chain| - |top|..] == top && StoredBlocks(slots, top)
            && (rest < |p| ==> top[0] == p[|p| - 1].block)
  {
    AppliedAreStored(slots, p, rest);
    SuffixDrop(chain, chain0, OldestFirst(p[rest..]));
    if rest < |p| {
      AppliedBlock(p, rest, 0);
    }
  }

  /** Both together. */
  lemma GivenUp<V(!new)>(rules: Rules<V>, v: Way, m: Model<V>, u: Way, p: seq<ForkItem>, q: seq<ForkItem>, rest: nat,
                         ancestor: BlockId, s0: Snapshot<V>, was: Snapshot<V>, chain0: seq<Block>,
                         index0: map<BlockId, ForkItem>)
    requires Lawful(rules) && HistoryOf(rules, m, v.chain) && v.headId == rules.headId(m.current)
    requires Branches(p, q, ancestor) && AllIn(q, v.pinned)
    requires Going(rules, v, m, p, rest, s0, chain0) && Failed(rules, v, m, p, rest, s0, index0)
    requires Comeback(rules, v, p, q, ancestor, s0, was, index0) && KeepsAncestors(rules, s0, p, q)
    requires u == v.(head := q[0], index := v.index - Ids(p[..rest]))
    ensures CanPopTo(u, ancestor, |OldestFirst(p[rest..])|)
    ensures OnTop(m, v.chain, chain0, OldestFirst(p[rest..]), s0)
  {
    ForgetClimb(rules, v, m, p, q, rest, ancestor, s0, was, index0);
    ForgetReady(rules, v, m, u, p, rest, ancestor, s0, chain0);
  }

  /** The head was stored, by this branch or before it. */
  lemma HeadCounted<V(!new)>(rules: Rules<V>, v: Way, m: Model<V>, p: seq<ForkItem>, rest: nat, ancestor: BlockId,
                             s0: Snapshot<V>, chain0: seq<Block>)
    requires Lawful(rules) && HistoryOf(rules, m, v.chain) && v.headId == rules.headId(m.current)
    requires Descending(p) && Going(rules, v, m, p, rest, s0, chain0) && |p| - rest <= |v.chain|
    requires rules.headId(s0) == ancestor && ancestor.num < v.slotCount
    ensures v.headId.num < v.slotCount
    ensures rest == |p| ==> v.headId == ancestor
  {
    HistoryLinks(rules, m, v.chain);
    if rest < |p| {
      SuffixDrop(v.chain, chain0, OldestFirst(p[rest..]));
      AppliedBlock(p, rest, |p| - rest - 1);
      assert Last(v.chain) == v.chain[|v.chain| - (|p| - rest)..][|p| - rest - 1];
    } else {
      assert p[rest..] == [];
    }
  }

  lemma TopReady<V(!new)>(rules: Rules<V>, v: Way, m: Model<V>, p: seq<ForkItem>, rest: nat, s0: Snapshot<V>, chain0: seq<Block>)
    requires Going(rules, v, m, p, rest, s0, chain0) && |p| - rest <= |v.chain|
    ensures OnTop(m, v.chain, chain0, OldestFirst(p[rest..]), s0)
  {
  }

  lemma FloorFits<V(!new)>(rules: Rules<V>, s0: Snapshot<V>, p: seq<ForkItem>, q: seq<ForkItem>, head: ForkItem)
    requires 0 < |q| < |p| && KeepsAncestors(rules, s0, p, q) && head.Num() == p[0].Num() - |q|
    ensures Lowest(rules, s0, OldestFirst(p), head) <= Max(0, p[0].Num() - |p| + 1 - (|p| - |q|))
  {
    LowestBound(rules, s0, OldestFirst(p), head, 2 * (|p| - |q|) - 1);
  }

  lemma OthersStay(p: seq<ForkItem>, rest: nat, ancestor: BlockId, index: map<BlockId, ForkItem>)
    requires Descending(p) && p[|p| - 1].block.previous == ancestor && rest <= |p|
    ensures forall id :: id in index && id.num <= ancestor.num ==>
      id in index - Ids(p[..rest]) && (index - Ids(p[..rest]))[id] == index[id]
  {
  }

  /** The blocks of `top` are the last ones applied, on a chain that continues `chain0` from the state `s0`. */
  ghost predicate OnTop<V>(m: Model<V>, blocks: seq<Block>, chain0: seq<Block>, top: seq<Block>, s0: Snapshot<V>) {
    && |top| <= |m.saved| && StateBefore(m, |top|) == s0
    && |top| <= |blocks| && IsSuffix(blocks, chain0 + top)
  }

  /** Popping what was replayed on top of `chain0` leads back to the state it was replayed from. */
  lemma Unwound<V>(m: Model<V>, m': Model<V>, blocks: seq<Block>, left: seq<Block>, chain0: seq<Block>, top: seq<Block>,
                   s0: Snapshot<V>)
    requires OnTop(m, blocks, chain0, top, s0)
    requires PoppedBy(m, m', |top|) && left == DropLast(blocks, |top|)
    ensures m'.current == s0 && IsSuffix(left, chain0)
  {
    SuffixDrop(blocks, chain0, top);
  }

  lemma TailAt(chain: seq<Block>, q: seq<ForkItem>, i: nat)
    requires |q| <= |chain| && chain[|chain| - |q|..] == OldestFirst(q) && |chain| - |q| <= i < |chain|
    ensures chain[i] == q[|chain| - 1 - i].block
  {
    assert chain[i] == chain[|chain| - |q|..][i - (|chain| - |q|)];
  }

  ghost predicate StoredBlocks(slots: map<nat, Slot>, bs: seq<Block>) {
    forall x :: 0 <= x < |bs| ==> bs[x].Num() in slots && slots[bs[x].Num()] == Slot(bs[x].Id(), Some(bs[x]))
  }

  /** After a failure: the blocks that were applied, now the newest ones, can be popped again. */
  lemma CanUnapply(v: Way, top: seq<Block>, ancestor: BlockId)
    requires |top| <= |v.chain| && v.chain[|v.chain| - |top|..] == top && StoredBlocks(v.slots, top)
    requires if top == [] then v.headId == ancestor else top[0].previous == ancestor
    requires v.headId.num < v.slotCount
    requires v.head != null && CanClimb(v.index, v.pinned, v.head, |top|)
    ensures CanPopTo(v, ancestor, |top|)
  {
    var base := |v.chain| - |top|;
    forall i | base <= i < |v.chain| ensures Fetchable(v.index, v.slots, v.chain[i].Id()) {
      assert v.chain[i] == top[i - base];
    }
    if top != [] {
      assert v.chain[base] == top[0];
    }
  }

  lemma AppliedAreStored(slots: map<nat, Slot>, p: seq<ForkItem>, rest: nat)
    requires rest <= |p| && Stored(slots, p, rest)
    ensures StoredBlocks(slots, OldestFirst(p[rest..]))
  {
    var top := OldestFirst(p[rest..]);
    forall x | 0 <= x < |top| ensures top[x].Num() in slots && slots[top[x].Num()] == Slot(top[x].Id(), Some(top[x])) {
      AppliedBlock(p, rest, x);
      assert p[|p| - 1 - x].Num() in slots;
    }
  }

  lemma AppliedBlock(p: seq<ForkItem>, rest: nat, x: nat)
    requires rest + x < |p|
    ensures OldestFirst(p[rest..])[x] == p[|p| - 1 - x].block
  {
  }
}
