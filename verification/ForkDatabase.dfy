/** The tree of recent blocks (libraries/chain/fork_database.cpp). */
module ForkDatabases {
  import opened Options
  import opened Blocks

  /** One `fork_item`.  `prev` is a weak pointer: it can be locked only while the fork database
      still owns the item it points to. */
  class ForkItem {
    const block: Block
    const prev: ForkItem?

    constructor (block: Block, prev: ForkItem?)
      ensures this.block == block && this.prev == prev
    {
      this.block, this.prev := block, prev;
    }

    function Num(): nat {
      block.Num()
    }

    /** The link agrees with the parent id in the block. */
    predicate Linked() {
      prev != null ==> prev.block.Id() == block.previous
    }
  }

  datatype PushResult = Pushed(head: ForkItem) | TooOld | Unlinkable

  /** Adding an item; a unique index keeps the item it already has. */
  function Inserted(index: map<BlockId, ForkItem>, item: ForkItem): map<BlockId, ForkItem> {
    if item.block.Id() in index then index else index[item.block.Id() := item]
  }

  function Kept(index: map<BlockId, ForkItem>, minNum: nat): map<BlockId, ForkItem> {
    map id | id in index && index[id].Num() >= minNum :: index[id]
  }

  /** The items the fork database owns. */
  datatype Tree = Tree(index: map<BlockId, ForkItem>, pinned: set<ForkItem>, head: ForkItem?)

  /** `item` is owned, so a weak pointer to it can be locked. */
  predicate Alive(t: Tree, item: ForkItem?) {
    item != null && (item == t.head || item in t.pinned || (item.block.Id() in t.index && t.index[item.block.Id()] == item))
  }

  ghost predicate Sound(t: Tree) {
    && (t.head != null ==> t.head.Linked())
    && (forall item :: item in t.pinned ==> item.Linked())
    && forall id :: id in t.index ==> t.index[id].block.Id() == id && t.index[id].Linked()
  }

  // ---- Adding a block ----

  /** The lowest number kept under this head. */
  function LowestKept(head: ForkItem, maxSize: nat): nat {
    if head.Num() > maxSize then head.Num() - maxSize else 0
  }

  predicate TooLow(t: Tree, maxSize: nat, b: Block) {
    t.head != null && b.Num() <= LowestKept(t.head, maxSize)
  }

  predicate Unlinked(t: Tree, b: Block) {
    t.head != null && b.previous != NO_BLOCK && b.previous !in t.index
  }

  /** The item that a new block is linked to; the first block has none. */
  function ParentItem(t: Tree, b: Block): ForkItem? {
    if t.head != null && b.previous in t.index && b.previous != NO_BLOCK then t.index[b.previous] else null
  }

  /** With one more item, which becomes the head when it is higher and then pushes the lowest ones out. */
  function Added(t: Tree, maxSize: nat, item: ForkItem): Tree {
    var index := Inserted(t.index, item);
    if t.head == null then t.(index := index, head := item)
    else if item.Num() > t.head.Num() then t.(index := Kept(index, LowestKept(item, maxSize)), head := item)
    else t.(index := index)
  }

  /** The items with a block number that is at most `maxSize` below `top`. */
  ghost predicate Within(index: map<BlockId, ForkItem>, after: map<BlockId, ForkItem>, top: nat, maxSize: nat) {
    && (forall id :: id in after <==> id in index && index[id].Num() + maxSize >= top)
    && (forall id :: id in after ==> after[id] == index[id])
  }

  /** What a new item does: a higher one becomes the head, and only items near it stay; any other just joins. */
  ghost predicate Joined(before: Tree, after: Tree, maxSize: nat, item: ForkItem) {
    var id := item.block.Id();
    var index := if id in before.index then before.index else before.index[id := item];
    && after.pinned == before.pinned
    && (if before.head == null then after.head == item && after.index == index
        else if item.block.previous.num + 1 > before.head.block.previous.num + 1 then
          after.head == item && Within(index, after.index, item.block.previous.num + 1, maxSize)
        else after.head == before.head && after.index == index)
  }

  lemma AddedJoins(t: Tree, maxSize: nat, item: ForkItem)
    ensures Joined(t, Added(t, maxSize, item), maxSize, item)
  {
  }

  // ---- Branches ----

  /** The id of the proper ancestor of `x` with number `n`, if the links down to it are alive. */
  ghost function ParentAt(t: Tree, x: ForkItem, n: nat): Option<BlockId>
    requires Sound(t) && x.Linked()
    decreases x.Num()
  {
    if x.Num() == n + 1 then Some(x.block.previous)
    else if x.Num() <= n || !Alive(t, x.prev) then None
    else ParentAt(t, x.prev, n)
  }

  /** The items from `x` down to the child of the ancestor with number `n`. */
  ghost function PathDown(t: Tree, x: ForkItem, n: nat): (p: seq<ForkItem>)
    requires Sound(t) && x.Linked() && ParentAt(t, x, n).Some?
    decreases x.Num()
  {
    if x.Num() == n + 1 then [x] else [x] + PathDown(t, x.prev, n)
  }

  /** `p` starts at `x`, follows links that can be locked, and ends in a block on `parent`. */
  ghost predicate IsBranch(t: Tree, p: seq<ForkItem>, x: ForkItem, parent: BlockId) {
    && p != [] && p[0] == x && p[|p| - 1].block.previous == parent
    && (forall i :: 0 <= i < |p| ==> p[i].Linked() && p[i].Num() == x.Num() - i)
    && (forall i :: 1 <= i < |p| ==> p[i] == p[i - 1].prev && Alive(t, p[i]))
  }

  lemma {:induction false} PathIsBranch(t: Tree, x: ForkItem, n: nat)
    requires Sound(t) && x.Linked() && ParentAt(t, x, n).Some?
    ensures IsBranch(t, PathDown(t, x, n), x, ParentAt(t, x, n).value)
    ensures |PathDown(t, x, n)| == x.Num() - n
    decreases x.Num()
  {
    if x.Num() == n + 1 {
    } else {
      PathIsBranch(t, x.prev, n);
      var p, rest := PathDown(t, x, n), PathDown(t, x.prev, n);
      forall i | 1 <= i < |p| ensures p[i] == p[i - 1].prev && Alive(t, p[i]) {
        if i > 1 {
          assert p[i] == rest[i - 1] && p[i - 1] == rest[i - 2];
        }
      }
    }
  }

  ghost predicate CommonParent(t: Tree, x: ForkItem, y: ForkItem, n: nat)
    requires Sound(t) && x.Linked() && y.Linked()
  {
    ParentAt(t, x, n).Some? && ParentAt(t, x, n) == ParentAt(t, y, n)
  }

  /** `p` are the items passed on the way from `x` to `a`, and what lies below is unchanged. */
  ghost predicate Walked(t: Tree, x: ForkItem, a: ForkItem, p: seq<ForkItem>)
    requires Sound(t) && x.Linked() && a.Linked()
  {
    && a.Num() <= x.Num()
    && forall n: nat {:trigger ParentAt(t, x, n)} :: n < a.Num() ==>
         && ParentAt(t, x, n) == ParentAt(t, a, n)
         && (ParentAt(t, x, n).Some? ==> PathDown(t, x, n) == p + PathDown(t, a, n))
  }

  ghost predicate NoneAbove(t: Tree, x: ForkItem, y: ForkItem, n: nat)
    requires Sound(t) && x.Linked() && y.Linked()
  {
    forall k: nat {:trigger CommonParent(t, x, y, k)} :: k >= n ==> !CommonParent(t, x, y, k)
  }

  lemma NotHere(t: Tree, x: ForkItem, y: ForkItem, a: ForkItem, b: ForkItem, p: seq<ForkItem>, q: seq<ForkItem>)
    requires Sound(t) && x.Linked() && y.Linked() && a.Linked() && b.Linked()
    requires a.Num() == b.Num() && Walked(t, x, a, p) && Walked(t, y, b, q)
    requires NoneAbove(t, x, y, a.Num()) && a.block.previous != b.block.previous
    ensures NoneAbove(t, x, y, a.Num() - 1)
  {
    var n := a.Num() - 1;
    assert ParentAt(t, x, n) == ParentAt(t, a, n) && ParentAt(t, y, n) == ParentAt(t, b, n);
  }

  lemma MeetHere(t: Tree, x: ForkItem, y: ForkItem, a: ForkItem, b: ForkItem, p: seq<ForkItem>, q: seq<ForkItem>)
    requires Sound(t) && x.Linked() && y.Linked() && a.Linked() && b.Linked()
    requires a.Num() == b.Num() && Walked(t, x, a, p) && Walked(t, y, b, q)
    requires a.block.previous == b.block.previous
    ensures CommonParent(t, x, y, a.Num() - 1)
    ensures p + [a] == PathDown(t, x, a.Num() - 1) && q + [b] == PathDown(t, y, a.Num() - 1)
  {
    var n := a.Num() - 1;
    assert ParentAt(t, x, n) == ParentAt(t, a, n) && ParentAt(t, y, n) == ParentAt(t, b, n);
    assert PathDown(t, a, n) == [a] && PathDown(t, b, n) == [b];
  }

  lemma NeverCommon(t: Tree, x: ForkItem, y: ForkItem, h: nat)
    requires Sound(t) && x.Linked() && y.Linked() && NoneAbove(t, x, y, h)
    requires forall n: nat {:trigger CommonParent(t, x, y, n)} :: n < h ==> !CommonParent(t, x, y, n)
    ensures forall n: nat :: !CommonParent(t, x, y, n)
  {
  }

  lemma HighIsNone(t: Tree, x: ForkItem)
    requires Sound(t) && x.Linked()
    ensures forall n: nat :: n >= x.Num() ==> ParentAt(t, x, n).None?
  {
  }

  /** One more item is passed. */
  lemma StepDown(t: Tree, x: ForkItem, a: ForkItem, p: seq<ForkItem>)
    requires Sound(t) && x.Linked() && a.Linked()
    requires Walked(t, x, a, p) && Alive(t, a.prev)
    ensures Walked(t, x, a.prev, p + [a])
  {
    forall n: nat | n < a.prev.Num()
      ensures ParentAt(t, x, n) == ParentAt(t, a.prev, n)
      ensures ParentAt(t, x, n).Some? ==> PathDown(t, x, n) == p + [a] + PathDown(t, a.prev, n)
    {
      assert ParentAt(t, x, n) == ParentAt(t, a, n);
      if ParentAt(t, x, n).Some? {
        assert p + ([a] + PathDown(t, a.prev, n)) == p + [a] + PathDown(t, a.prev, n);
      }
    }
  }

  /** Below a link that cannot be locked nothing can be reached. */
  lemma DeadEnd(t: Tree, x: ForkItem, a: ForkItem, p: seq<ForkItem>)
    requires Sound(t) && x.Linked() && a.Linked()
    requires Walked(t, x, a, p) && !Alive(t, a.prev)
    ensures forall n: nat :: n + 1 < a.Num() ==> ParentAt(t, x, n).None?
  {
  }

  class ForkDatabase {
    var head: ForkItem?
    var index: map<BlockId, ForkItem>
    var maxSize: nat
    var pinned: set<ForkItem>  // items that a running caller holds in a local vector

    function Contents(): Tree
      reads this
    {
      Tree(index, pinned, head)
    }

    ghost predicate Valid()
      reads this
    {
      Sound(Contents()) && (head == null ==> index == map[])
    }

    constructor ()
      ensures Valid() && head == null && index == map[] && maxSize == 1024 && pinned == {}
    {
      head, index, maxSize, pinned := null, map[], 1024, {};
    }

    method Pin(items: set<ForkItem>)
      requires Valid() && forall item :: item in items ==> item.Linked()
      modifies `pinned
      ensures Valid() && pinned == items
    {
      pinned := items;
    }

    method Insert(item: ForkItem)
      modifies `index
      ensures index == Inserted(old(index), item)
    {
      if item.block.Id() !in index {
        index := index[item.block.Id() := item];
      }
    }

    /** Erases every item whose number is below `minNum`. */
    method EraseBelow(minNum: nat)
      modifies `index
      ensures index == Kept(old(index), minNum)
    {
      while exists id :: id in index && index[id].Num() < minNum
        invariant index.Keys <= old(index).Keys
        invariant forall id :: id in old(index) && old(index)[id].Num() >= minNum ==> id in index
        invariant forall id :: id in index ==> index[id] == old(index)[id]
        decreases |index|
      {
        var id :| id in index && index[id].Num() < minNum;
        assert (index - {id}).Keys == index.Keys - {id};
        index := index - {id};
      }
    }

    /** `push_block` and `_push_block`; the result carries the head, not the pushed item. */
    method PushBlock(b: Block) returns (r: PushResult, ghost item: ForkItem?)
      requires Valid()
      modifies this
      ensures Valid() && maxSize == old(maxSize)
      ensures r.TooOld? <==> old(TooLow(Contents(), maxSize, b))
      ensures r.TooOld? <==> old(head) != null && old(head).Num() >= b.previous.num + 1 + maxSize
      ensures r.Unlinkable? <==> !r.TooOld? && old(Unlinked(Contents(), b))
      ensures r.Unlinkable? <==> !r.TooOld? && old(head) != null && b.previous != NO_BLOCK && b.previous !in old(index)
      ensures !r.Pushed? ==> Contents() == old(Contents())
      ensures r.Pushed? ==> r.head == head && item != null && fresh(item) && item.block == b
      ensures r.Pushed? ==> item.prev == old(ParentItem(Contents(), b)) && Contents() == Added(old(Contents()), maxSize, item)
      ensures r.Pushed? ==> Joined(old(Contents()), Contents(), maxSize, item)
    {
      item := null;
      if head != null && b.Num() <= LowestKept(head, maxSize) {
        return TooOld, item;
      }
      var prev: ForkItem? := null;
      if head != null && b.previous != NO_BLOCK {
        if b.previous !in index {
          return Unlinkable, item;
        }
        prev := index[b.previous];
      }
      var added := new ForkItem(b, prev);
      Insert(added);
      if head == null {
        head := added;
      } else if added.Num() > head.Num() {
        head := added;
        EraseBelow(LowestKept(head, maxSize));
      }
      return Pushed(head), added;
    }

    /** `pop_block`: the head steps back along its link. */
    method PopBlock() returns (ok: bool)
      requires Valid()
      modifies `head
      ensures Valid()
      ensures ok <==> old(head) != null && old(Alive(Contents(), head.prev))
      ensures ok <==> && old(head) != null && old(head).prev != null
                      && var prev := old(head).prev;
                         prev in pinned || (prev.block.Id() in index && index[prev.block.Id()] == prev)
      ensures head == if ok then old(head).prev else old(head)
    {
      if head == null || !Alive(Contents(), head.prev) { return false; }
      head := head.prev;
      ok := true;
    }

    method SetMaxSize(s: nat)
      requires Valid()
      modifies this
      ensures Valid() && maxSize == s && head == old(head) && pinned == old(pinned)
      ensures head != null ==> index == Kept(old(index), LowestKept(head, maxSize))
      ensures head == null ==> index == old(index)
      ensures head != null ==> Within(old(index), index, head.Num(), s)
    {
      maxSize := s;
      if head == null { return; }
      EraseBelow(LowestKept(head, maxSize));
    }

    method SetHead(item: ForkItem)
      requires Valid() && item.Linked()
      modifies `head
      ensures Valid() && head == item
    {
      head := item;
    }

    method Remove(id: BlockId)
      requires Valid()
      modifies `index
      ensures Valid() && index == old(index) - {id}
    {
      index := index - {id};
    }

    /** `fetch_branch_from`: succeeds exactly when a common proper ancestor can be reached, and
        then stops at the highest one. */
    method FetchBranchFrom(first: BlockId, second: BlockId)
      returns (r: Option<(seq<ForkItem>, seq<ForkItem>)>)
      requires Valid()
      ensures r.Some? <==> first in index && second in index
                           && exists n: nat :: CommonParent(Contents(), index[first], index[second], n)
      ensures r.Some? ==> exists n: nat ::
        && CommonParent(Contents(), index[first], index[second], n)
        && NoneAbove(Contents(), index[first], index[second], n + 1)
        && r.value == (PathDown(Contents(), index[first], n), PathDown(Contents(), index[second], n))
    {
      if first !in index || second !in index { return None; }
      var x, y := index[first], index[second];
      var p, q := [], [];
      var down, a := true, x;
      if x.Num() > y.Num() {
        down, a, p := Descend(x, y.Num());
      }
      if !down { return None; }
      var b := y;
      if y.Num() > a.Num() {
        down, b, q := Descend(y, a.Num());
      }
      if !down { return None; }
      r := MeetBranches(x, y, a, b, p, q);
    }

    /** The first two loops: from `x` down to the height `num`, while the links can be locked. */
    method Descend(x: ForkItem, num: nat) returns (ok: bool, a: ForkItem, p: seq<ForkItem>)
      requires Valid() && x.Linked() && x.Num() > num > 0
      ensures ok ==> a.Linked() && a.Num() == num && Walked(Contents(), x, a, p)
      ensures !ok ==> forall n: nat :: n < num ==> ParentAt(Contents(), x, n).None?
      ensures forall n: nat :: n >= x.Num() ==> ParentAt(Contents(), x, n).None?
    {
      HighIsNone(Contents(), x);
      a, p := x, [];
      while a.Num() > num
        invariant a.Linked() && a.Num() >= num
        invariant Walked(Contents(), x, a, p)
        decreases a.Num()
      {
        if !Alive(Contents(), a.prev) {
          DeadEnd(Contents(), x, a, p);
          return false, a, p;
        }
        StepDown(Contents(), x, a, p);
        p := p + [a];
        a := a.prev;
      }
      ok := true;
    }

    /** The third loop: both sides step down until their parents agree. */
    method MeetBranches(ghost x: ForkItem, ghost y: ForkItem, a0: ForkItem, b0: ForkItem,
                        p0: seq<ForkItem>, q0: seq<ForkItem>)
      returns (r: Option<(seq<ForkItem>, seq<ForkItem>)>)
      requires Valid() && x.Linked() && y.Linked() && a0.Linked() && b0.Linked()
      requires a0.Num() == b0.Num() && Walked(Contents(), x, a0, p0) && Walked(Contents(), y, b0, q0)
      requires NoneAbove(Contents(), x, y, a0.Num())
      ensures r.Some? <==> exists n: nat :: CommonParent(Contents(), x, y, n)
      ensures r.Some? ==> exists n: nat ::
        && CommonParent(Contents(), x, y, n) && NoneAbove(Contents(), x, y, n + 1)
        && r.value == (PathDown(Contents(), x, n), PathDown(Contents(), y, n))
    {
      var a: ForkItem, b: ForkItem := a0, b0;
      var p, q := p0, q0;
      while a.block.previous != b.block.previous
        invariant a.Linked() && b.Linked() && a.Num() == b.Num()
        invariant Walked(Contents(), x, a, p) && Walked(Contents(), y, b, q)
        invariant NoneAbove(Contents(), x, y, a.Num())
        decreases a.Num()
      {
        NotHere(Contents(), x, y, a, b, p, q);
        if !Alive(Contents(), a.prev) {
          DeadEnd(Contents(), x, a, p);
          NeverCommon(Contents(), x, y, a.Num() - 1);
          return None;
        }
        if !Alive(Contents(), b.prev) {
          DeadEnd(Contents(), y, b, q);
          NeverCommon(Contents(), x, y, a.Num() - 1);
          return None;
        }
        StepDown(Contents(), x, a, p);
        StepDown(Contents(), y, b, q);
        p, q := p + [a], q + [b];
        a, b := a.prev, b.prev;
      }
      MeetHere(Contents(), x, y, a, b, p, q);
      r := Some((p + [a], q + [b]));
    }
  }
}
