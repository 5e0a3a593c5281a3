/** A chain from its first block to a switch of forks: what the contracts promise is enough to see
    that the switch works and could have been taken back. */
module SwitchExample {
  import opened Options
  import opened Blocks
  import opened UndoDatabase
  import opened ForkDatabases
  import opened ChainHistory
  import opened ChainDatabases

  // ---- The smallest rules ----

  const INDEX := IndexId(2, 0)
  const TIP := ObjectId(INDEX, 0)

  /** The head id is the value of the only object. */
  function TipOf(s: Snapshot<BlockId>): BlockId {
    if TIP in s.objects then s.objects[TIP] else NO_BLOCK
  }

  /** A block on the head becomes the head; with no block irreversible yet, the depth is its number and one. */
  function PlanFor(s: Snapshot<BlockId>, b: Block): Plan<BlockId> {
    var writes := if TIP in s.objects then [ModifyObject(TIP, b.Id())] else [CreateObject(INDEX, b.Id())];
    Plan(writes, TipOf(s) == b.previous && (TIP in s.objects || (INDEX in s.nextIds && s.nextIds[INDEX] == 0)), Some(b.Num() + 1))
  }

  function PlanForTx(s: Snapshot<BlockId>, tx: Transaction): Plan<BlockId> {
    Plan([], true, None)
  }

  const RULES: Rules<BlockId> := Rules(TipOf, PlanFor, PlanForTx)

  /** A state in which blocks can be applied. */
  predicate Usable(s: Snapshot<BlockId>) {
    TIP in s.objects || (INDEX in s.nextIds && s.nextIds[INDEX] == 0)
  }

  lemma Applies(s: Snapshot<BlockId>, b: Block)
    ensures Apply(RULES, s, b).Some? <==> TipOf(s) == b.previous && Usable(s)
    ensures Apply(RULES, s, b).Some? ==> var s' := Apply(RULES, s, b).value; TipOf(s') == b.Id() && Usable(s')
    ensures RULES.plan(s, b).depth == Some(b.Num() + 1)
  {
    var writes := PlanFor(s, b).writes;
    assert writes[1..] == [];
    if TipOf(s) == b.previous && Usable(s) {
      var s' := WriteOne(s, writes[0]).value;
      assert writes == [writes[0]] && WriteAll(s', []) == Some(s');
      assert RULES.plan(s, b) == PlanFor(s, b);
      assert Apply(RULES, s, b) == Some(s');
    }
  }

  lemma RulesAreLawful()
    ensures Lawful(RULES)
  {
    forall s, b: Block
      ensures Apply(RULES, s, b).Some? ==>
                RULES.headId(s) == b.previous && RULES.headId(Apply(RULES, s, b).value) == b.Id() && RULES.plan(s, b).depth.Some?
    {
      Applies(s, b);
    }
  }

  // ---- The blocks: `b` and `c` both follow `a`, and `d` follows `c` ----

  const PAYMENT := Transaction(7, 100)

  function A(): Block { Block(NO_BLOCK, 0, []) }
  function B(): Block { Block(A().Id(), 0, [PAYMENT]) }
  function C(): Block { Block(A().Id(), 1, []) }
  function D(): Block { Block(C().Id(), 0, []) }

  /** The chain is `a`, or `a` and `b`, with a record for each block. */
  ghost predicate OnChain(v: Way, m: Model<BlockId>, blocks: seq<Block>) {
    && blocks != [] && v.chain == blocks && v.headId == Last(blocks).Id() == TipOf(m.current) && Usable(m.current)
    && |m.saved| == |blocks| && v.forkSize == m.maxSize == Last(blocks).Num() + 1
    && v.slotCount > Last(blocks).Num() && v.pinned == {} && v.poppedTx == []
  }

  /** The fork database has the items of `a`, then of `b`, then of `c`, linked to their parents. */
  ghost predicate Items1(v: Way, a: ForkItem) {
    a.block == A() && a.prev == null && v.head == a && v.index == map[A().Id() := a]
  }

  ghost predicate Items2(v: Way, a: ForkItem, b: ForkItem) {
    && a.block == A() && b.block == B() && b.prev == a && v.head == b
    && v.index == map[A().Id() := a, B().Id() := b]
  }

  ghost predicate Items3(v: Way, a: ForkItem, b: ForkItem, c: ForkItem) {
    && a.block == A() && b.block == B() && c.block == C() && b.prev == a && c.prev == a && v.head == b
    && v.index == map[A().Id() := a, B().Id() := b, C().Id() := c]
  }

  ghost predicate Items4(v: Way, a: ForkItem, b: ForkItem, c: ForkItem, d: ForkItem) {
    && a.block == A() && b.block == B() && c.block == C() && d.block == D()
    && b.prev == a && c.prev == a && d.prev == c && v.head == d
    && v.index == map[A().Id() := a, B().Id() := b, C().Id() := c, D().Id() := d]
  }

  /** Adding the items one after the other. */
  lemma AddsB(v: Way, v': Way, a: ForkItem, item: ForkItem)
    requires Items1(v, a) && item.block == B() && item.prev == a && v.forkSize >= 2
    requires v'.Forks() == Added(v.Forks(), v.forkSize, item)
    ensures Items2(v', a, item)
  {
    assert Inserted(v.index, item) == map[A().Id() := a, B().Id() := item];
  }

  lemma AddsC(v: Way, v': Way, a: ForkItem, b: ForkItem, item: ForkItem)
    requires Items2(v, a, b) && item.block == C() && item.prev == a
    requires v'.Forks() == Added(v.Forks(), v.forkSize, item)
    ensures Items3(v', a, b, item)
  {
  }

  lemma AddsD(v: Way, v': Way, a: ForkItem, b: ForkItem, c: ForkItem, item: ForkItem)
    requires Items3(v, a, b, c) && item.block == D() && item.prev == c && v.forkSize >= 3
    requires v'.Forks() == Added(v.Forks(), v.forkSize, item)
    ensures Items4(v', a, b, c, item)
  {
    assert Inserted(v.index, item) == map[A().Id() := a, B().Id() := b, C().Id() := c, D().Id() := item];
  }

  /** A block on the head extends the chain. */
  lemma Extends(r: Outcome, x: Block, v: Way, m: Model<BlockId>, v': Way, m': Model<BlockId>)
    requires DirectOutcome(RULES, r, x, v, m, v', m') && v'.headId == TipOf(m'.current) && v'.pinned == {}
    requires TipOf(m.current) == x.previous && Usable(m.current) && |v.chain| == |m.saved| == x.previous.num
    requires m.maxSize >= |v.chain| && v.head != null && v.head.Num() <= x.Num() && v.poppedTx == []
    ensures r.Applied? && v'.index == v.index && v'.head == v.head && OnChain(v', m', v.chain + [x])
    ensures m'.saved == m.saved + [m.current]
  {
    Applies(m.current, x);
    assert v'.chain == v.chain + [x];
  }

  /** The head of the fork database and that of the chain both go back to `a`, by way of `c` and directly. */
  lemma Meet(v: Way, a: ForkItem, b: ForkItem, c: ForkItem, d: ForkItem)
    requires Sound(v.Forks()) && Items4(v, a, b, c, d) && v.headId == B().Id()
    ensures Related(v)
  {
    var t := v.Forks();
    assert ParentAt(t, b, 1) == Some(A().Id()) && ParentAt(t, c, 1) == Some(A().Id()) && ParentAt(t, d, 1) == Some(A().Id());
    assert CommonParent(t, v.index[D().Id()], v.index[B().Id()], 1);
  }

  lemma MeetAtA(v: Way, a: ForkItem, b: ForkItem, c: ForkItem, d: ForkItem, p: seq<ForkItem>, q: seq<ForkItem>)
    requires Sound(v.Forks()) && Items4(v, a, b, c, d) && v.headId == B().Id() && PathsToMeeting(v, p, q)
    ensures p == [d, c] && q == [b]
  {
    var t := v.Forks();
    assert ParentAt(t, b, 1) == Some(A().Id()) && ParentAt(t, c, 1) == Some(A().Id()) && ParentAt(t, d, 1) == Some(A().Id());
    assert CommonParent(t, v.index[D().Id()], v.index[B().Id()], 1);
    var n: nat :| MeetAt(v, n) && p == PathDown(t, v.index[D().Id()], n) && q == PathDown(t, v.index[B().Id()], n);
    assert n == 1;
    assert PathDown(t, c, 1) == [c] && PathDown(t, d, 1) == [d] + PathDown(t, c, 1) && PathDown(t, b, 1) == [b];
  }

  /** The history is enough for the switch, and would be for the way back. */
  lemma Enough(v: Way, m: Model<BlockId>, a: ForkItem, b: ForkItem, c: ForkItem, d: ForkItem)
    requires Items4(v, a, b, c, d) && OnChain(v, m, [A(), B()]) && TipOf(m.saved[1]) == A().Id() && Usable(m.saved[1])
    ensures CanReach(v, [d, c], [b]) && EnoughHistory(RULES, m, v, [d, c], [b])
    ensures Replay(RULES, StateBefore(m, 1), OldestFirst([d, c])).Some? && OldestFirst([d, c]) == [C(), D()]
    ensures RoomInTurn(RULES, StateBefore(m, 1), OldestFirst([d, c]), 1)
  {
    var p, q := [d, c], [b];
    assert OldestFirst(q) == [B()] && v.chain[1..] == [B()];
    ReachBySharedTop(v, p, q);
    assert OldestFirst(p) == [C(), D()];
    BothApply(StateBefore(m, 1));
    assert CanClimb(v.index, {}, b, 1);
  }

  lemma BothApply(s: Snapshot<BlockId>)
    requires TipOf(s) == A().Id() && Usable(s)
    ensures Replay(RULES, s, [C(), D()]).Some? && RoomInTurn(RULES, s, [C(), D()], 1) && RoomFor(RULES, s, [C(), D()], 1)
  {
    Applies(s, C());
    var t := Apply(RULES, s, C()).value;
    Applies(t, D());
    assert [C(), D()][1..] == [D()] && [D()][1..] == [];
  }

  /** The branches of the switch are these, and the history is enough for it. */
  lemma Ready(v: Way, m: Model<BlockId>, a: ForkItem, b: ForkItem, c: ForkItem, d: ForkItem, p: seq<ForkItem>, q: seq<ForkItem>)
    requires Sound(v.Forks()) && Items4(v, a, b, c, d) && OnChain(v, m, [A(), B()])
    requires TipOf(m.saved[1]) == A().Id() && Usable(m.saved[1])
    requires PathsToMeeting(v, p, q)
    ensures |p| == 2 && q == [b] && CanReach(v, p, q) && OldestFirst(p) == [C(), D()]
    ensures Replay(RULES, StateBefore(m, 1), OldestFirst(p)).Some? && RoomInTurn(RULES, StateBefore(m, 1), OldestFirst(p), 1)
  {
    MeetAtA(v, a, b, c, d, p, q);
    Enough(v, m, a, b, c, d);
  }

  /** So the switch works, all records of the new branch are there, and the transaction of `b` is left over. */
  lemma Ends(r: Outcome, v: Way, m: Model<BlockId>, v': Way, m': Model<BlockId>, a: ForkItem, b: ForkItem, c: ForkItem,
             d: ForkItem, p: seq<ForkItem>, q: seq<ForkItem>, popped: nat)
    requires Sound(v.Forks()) && Items4(v, a, b, c, d) && OnChain(v, m, [A(), B()])
    requires TipOf(m.saved[1]) == A().Id() && Usable(m.saved[1])
    requires SwitchOutcome(RULES, r, v, m, v', m', p, q, popped)
    ensures r.Switched? && |v'.chain| >= 2 && IsSuffix(v'.chain, [A(), C(), D()]) && v'.poppedTx == [PAYMENT]
  {
    Meet(v, a, b, c, d);
    Ready(v, m, a, b, c, d, p, q);
    Works(r, v, m, v', m', b, p, q, popped);
    Joined(v.chain, OldestFirst(p), v'.chain, A(), B(), C(), D());
  }

  lemma Works(r: Outcome, v: Way, m: Model<BlockId>, v': Way, m': Model<BlockId>, b: ForkItem, p: seq<ForkItem>, q: seq<ForkItem>,
              popped: nat)
    requires SwitchResult(RULES, r, v, m, v', m', p, q, popped) && CanReach(v, p, q) && q == [b] && |m.saved| >= 1
    requires Replay(RULES, StateBefore(m, 1), OldestFirst(p)).Some? && RoomInTurn(RULES, StateBefore(m, 1), OldestFirst(p), 1)
    requires b.block == B() && v.chain == [A(), B()] && B().Id() in v.index && v.index[B().Id()] == b && v.poppedTx == []
    ensures r.Switched? && IsSuffix(v'.chain, DropLast(v.chain, 1) + OldestFirst(p)) && |v'.chain| >= |p|
    ensures v'.poppedTx == [PAYMENT]
  {
    LeftOver(v, b);
    SwitchWorks(RULES, r, v, m, v', m', p, q, popped);
    SwitchReturns(RULES, v, m, v', m', p, q, popped);
  }

  lemma LeftOver(v: Way, b: ForkItem)
    requires b.block == B() && v.chain == [A(), B()] && B().Id() in v.index && v.index[B().Id()] == b
    ensures ToppedBy(v, [b]) && FetchedAsIs(v.index, v.slots, OldestFirst([b]))
    ensures TransactionsOf(OldestFirst([b])) == [PAYMENT]
  {
    assert OldestFirst([b]) == [B()] && v.chain[1..] == [B()];
    assert TransactionsOf([B()]) == [PAYMENT] + TransactionsOf([B()][1..]);
  }

  lemma Joined(blocks: seq<Block>, branch: seq<Block>, after: seq<Block>, a: Block, b: Block, c: Block, d: Block)
    requires blocks == [a, b] && branch == [c, d] && IsSuffix(after, DropLast(blocks, 1) + branch)
    ensures IsSuffix(after, [a, c, d])
  {
    assert DropLast(blocks, 1) + branch == [a, c, d];
  }

  lemma ExtendsByB(r: Outcome, v: Way, m: Model<BlockId>, v': Way, m': Model<BlockId>, a: ForkItem, b: ForkItem)
    requires Items2(v, a, b) && v.chain == [A()] && TipOf(m.current) == A().Id() && Usable(m.current)
    requires |m.saved| == 1 && m.maxSize >= 1 && v.poppedTx == [] && v'.pinned == {} && v'.headId == TipOf(m'.current)
    requires DirectOutcome(RULES, r, B(), v, m, v', m')
    ensures Items2(v', a, b) && OnChain(v', m', [A(), B()]) && Last(m'.saved) == m.current
  {
    Extends(r, B(), v, m, v', m');
  }

  // ---- The run ----

  /** The first block of an empty database. */
  method PushA(db: ChainDatabase<BlockId>) returns (ghost a: ForkItem)
    requires db.Valid() && !db.pending && db.rules == RULES
    requires db.View() == Way(map[], {}, null, 1024, map[], 0, [], NO_BLOCK, [])
    requires db.store.model.saved == [] && TipOf(db.store.model.current) == NO_BLOCK && Usable(db.store.model.current)
    modifies db, db.store, db.fork
    ensures db.Valid() && !db.pending
    ensures Items1(db.View(), a) && OnChain(db.View(), db.store.model, [A()])
  {
    ghost var m := db.store.model;
    var r; ghost var way, p, q, popped;
    r, way, p, q, popped := db.PushBlock(A(), false);
    ghost var item: ForkItem :| item.block == A() && item.prev == null && way.Forks() == Added(Tree(map[], {}, null), 1024, item);
    a := item;
    Extends(r, A(), way, m, db.View(), db.store.model);
  }

  method PushB(db: ChainDatabase<BlockId>, ghost a: ForkItem) returns (ghost b: ForkItem)
    requires db.Valid() && !db.pending && db.rules == RULES
    requires Items1(db.View(), a) && OnChain(db.View(), db.store.model, [A()])
    modifies db, db.store, db.fork
    ensures db.Valid() && !db.pending
    ensures Items2(db.View(), a, b) && OnChain(db.View(), db.store.model, [A(), B()])
    ensures Last(db.store.model.saved) == old(db.store.model.current)
  {
    ghost var v, m := db.View(), db.store.model;
    var r; ghost var way, p, q, popped;
    r, way, p, q, popped := db.PushBlock(B(), false);
    ghost var item: ForkItem :| item.block == B() && item.prev == a && way.Forks() == Added(v.Forks(), v.forkSize, item);
    b := item;
    AddsB(v, way, a, b);
    assert DirectOutcome(RULES, r, B(), way, m, db.View(), db.store.model);
    ExtendsByB(r, way, m, db.View(), db.store.model, a, b);
  }

  /** A block beside the head only joins the fork database. */
  method PushC(db: ChainDatabase<BlockId>, ghost a: ForkItem, ghost b: ForkItem) returns (ghost c: ForkItem)
    requires db.Valid() && !db.pending && db.rules == RULES
    requires Items2(db.View(), a, b) && OnChain(db.View(), db.store.model, [A(), B()])
    modifies db, db.store, db.fork
    ensures db.Valid() && !db.pending && db.store.model == old(db.store.model)
    ensures Items3(db.View(), a, b, c) && OnChain(db.View(), db.store.model, [A(), B()])
  {
    ghost var v := db.View();
    var r; ghost var way, p, q, popped;
    r, way, p, q, popped := db.PushBlock(C(), false);
    ghost var item: ForkItem :| item.block == C() && item.prev == a && way.Forks() == Added(v.Forks(), v.forkSize, item);
    c := item;
    AddsC(v, way, a, b, c);
  }

  /** The block that makes the other branch longer: the database switches, and could have switched back. */
  method PushD(db: ChainDatabase<BlockId>, ghost a: ForkItem, ghost b: ForkItem, ghost c: ForkItem)
    requires db.Valid() && !db.pending && db.rules == RULES
    requires Items3(db.View(), a, b, c) && OnChain(db.View(), db.store.model, [A(), B()])
    requires TipOf(db.store.model.saved[1]) == A().Id() && Usable(db.store.model.saved[1])
    modifies db, db.store, db.fork
    ensures db.Valid() && !db.pending
    ensures TipOf(db.store.Store()) == D().Id() && |db.chain| >= 2 && IsSuffix(db.chain, [A(), C(), D()])
    ensures db.poppedTx == [PAYMENT]
  {
    ghost var v, m := db.View(), db.store.model;
    var r; ghost var way, p, q, popped;
    r, way, p, q, popped := db.PushBlock(D(), false);
    ghost var d: ForkItem :| d.block == D() && d.prev == c && way.Forks() == Added(v.Forks(), v.forkSize, d);
    AddsD(v, way, a, b, c, d);
    Ends(r, way, m, db.View(), db.store.model, a, b, c, d, p, q, popped);
  }

  /** From an empty database to a switch. */
  method Run() returns (db: ChainDatabase<BlockId>)
    ensures db.Valid() && !db.pending && db.rules == RULES
    ensures TipOf(db.store.Store()) == D().Id() && |db.chain| >= 2 && IsSuffix(db.chain, [A(), C(), D()])
    ensures db.poppedTx == [PAYMENT]
  {
    RulesAreLawful();
    db := new ChainDatabase(RULES, {INDEX});
    ghost var a := PushA(db);
    ghost var b := PushB(db, a);
    ghost var c := PushC(db, a, b);
    PushD(db, a, b, c);
  }
}
