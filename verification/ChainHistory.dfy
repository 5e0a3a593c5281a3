/** What the undo history means for the chain: which snapshots belong to which blocks, and what
    rewinding and replaying do to them (libraries/chain/db_block.cpp). */
module ChainHistory {
  import opened Options
  import opened Blocks
  import opened UndoDatabase

  /** One change that applying a block makes to the object store. */
  datatype Write<V> =
    | CreateObject(index: IndexId, value: V)
    | ModifyObject(id: ObjectId, value: V)
    | RemoveObject(id: ObjectId)

  /** What applying a block, or a transaction, does in a given state: its changes in order,
      whether all its checks pass in the end, and the undo depth it sets on the way, if it gets
      that far. */
  datatype Plan<V> = Plan(writes: seq<Write<V>>, passes: bool, depth: Option<nat>)

  /** Block application as a deterministic function of the object state. */
  datatype Rules<!V(!new)> = Rules(
    headId: Snapshot<V> -> BlockId,
    plan: (Snapshot<V>, Block) -> Plan<V>,
    planTx: (Snapshot<V>, Transaction) -> Plan<V>)

  function WriteOne<V>(s: Snapshot<V>, w: Write<V>): Option<Snapshot<V>> {
    match w
    case CreateObject(i, v) =>
      if i in s.nextIds then Some(Created(s, i, v)) else None
    case ModifyObject(id, v) =>
      if id in s.objects then Some(s.(objects := s.objects[id := v])) else None
    case RemoveObject(id) =>
      if id in s.objects then Some(s.(objects := s.objects - {id})) else None
  }

  function WriteAll<V>(s: Snapshot<V>, ws: seq<Write<V>>): Option<Snapshot<V>>
    decreases |ws|
  {
    if ws == [] then Some(s)
    else match WriteOne(s, ws[0])
      case None => None
      case Some(s') => WriteAll(s', ws[1..])
  }

  /** The state after applying `b`, or nothing when a check throws. */
  function Apply<V(!new)>(rules: Rules<V>, s: Snapshot<V>, b: Block): Option<Snapshot<V>> {
    var plan := rules.plan(s, b);
    if plan.passes then WriteAll(s, plan.writes) else None
  }

  /** The same for one pushed transaction. */
  function ApplyTx<V(!new)>(rules: Rules<V>, s: Snapshot<V>, tx: Transaction): Option<Snapshot<V>> {
    var plan := rules.planTx(s, tx);
    if plan.passes then WriteAll(s, plan.writes) else None
  }

  /** One write takes `s` to `t`: a new object gets the next id of its index, the others must be there. */
  ghost predicate Writes<V>(s: Snapshot<V>, w: Write<V>, t: Snapshot<V>) {
    match w
    case CreateObject(i, v) =>
      && i in s.nextIds && t.objects == s.objects[ObjectId(i, s.nextIds[i]) := v]
      && t.nextIds == s.nextIds[i := s.nextIds[i] + 1]
    case ModifyObject(id, v) => id in s.objects && t.objects == s.objects[id := v] && t.nextIds == s.nextIds
    case RemoveObject(id) => id in s.objects && t.objects == s.objects - {id} && t.nextIds == s.nextIds
  }

  /** The states from `s` to `t`, with one write of the plan between one and the next. */
  ghost predicate Steps<V>(s: Snapshot<V>, writes: seq<Write<V>>, t: Snapshot<V>, states: seq<Snapshot<V>>) {
    && |states| == |writes| + 1 && states[0] == s && states[|writes|] == t
    && forall i :: 0 <= i < |writes| ==> Writes(states[i], writes[i], states[i + 1])
  }

  /** A plan is carried out exactly when all its checks pass and each of its writes can be done after the others. */
  lemma ApplyExactly<V(!new)>(rules: Rules<V>, s: Snapshot<V>, b: Block, t: Snapshot<V>)
    ensures Apply(rules, s, b) == Some(t)
       <==> rules.plan(s, b).passes && exists states :: Steps(s, rules.plan(s, b).writes, t, states)
  {
    WritesExactly(s, rules.plan(s, b).writes, t);
  }

  lemma ApplyTxExactly<V(!new)>(rules: Rules<V>, s: Snapshot<V>, tx: Transaction, t: Snapshot<V>)
    ensures ApplyTx(rules, s, tx) == Some(t)
       <==> rules.planTx(s, tx).passes && exists states :: Steps(s, rules.planTx(s, tx).writes, t, states)
  {
    WritesExactly(s, rules.planTx(s, tx).writes, t);
  }

  lemma {:induction false} WritesExactly<V(!new)>(s: Snapshot<V>, ws: seq<Write<V>>, t: Snapshot<V>)
    ensures WriteAll(s, ws) == Some(t) <==> exists states :: Steps(s, ws, t, states)
    decreases |ws|
  {
    if ws == [] {
      assert s == t ==> Steps(s, ws, t, [s]);
    } else {
      var first := WriteOne(s, ws[0]);
      if first.Some? {
        WritesExactly(first.value, ws[1..], t);
        if states :| Steps(first.value, ws[1..], t, states) {
          FirstStep(s, ws, t, first.value, states);
        }
      }
      if states :| Steps(s, ws, t, states) {
        assert Writes(states[0], ws[0], states[1]);
        LaterSteps(s, ws, t, states);
      }
    }
  }

  lemma FirstStep<V>(s: Snapshot<V>, ws: seq<Write<V>>, t: Snapshot<V>, next: Snapshot<V>, states: seq<Snapshot<V>>)
    requires ws != [] && Writes(s, ws[0], next) && Steps(next, ws[1..], t, states)
    ensures Steps(s, ws, t, [s] + states)
  {
    var all := [s] + states;
    forall i | 0 <= i < |ws| ensures Writes(all[i], ws[i], all[i + 1]) {
      if i > 0 {
        assert Writes(states[i - 1], ws[1..][i - 1], states[i]);
      }
    }
  }

  lemma LaterSteps<V>(s: Snapshot<V>, ws: seq<Write<V>>, t: Snapshot<V>, states: seq<Snapshot<V>>)
    requires ws != [] && Steps(s, ws, t, states)
    ensures WriteOne(s, ws[0]) == Some(states[1]) && Steps(states[1], ws[1..], t, states[1..])
  {
    assert Writes(states[0], ws[0], states[1]);
    forall i | 0 <= i < |ws[1..]| ensures Writes(states[1..][i], ws[1..][i], states[1..][i + 1]) {
      assert Writes(states[i + 1], ws[i + 1], states[i + 2]);
    }
  }

  /** Applying a block checks that it extends the head (`validate_block_header`) and makes it the
      head (`update_global_dynamic_data`); the depth is head - last irreversible + 1. */
  ghost predicate Lawful<V(!new)>(rules: Rules<V>) {
    && (forall s, b :: Apply(rules, s, b).Some? ==>
         && rules.headId(s) == b.previous
         && rules.headId(Apply(rules, s, b).value) == b.Id()
         && rules.plan(s, b).depth.Some?)
    && (forall s, b :: rules.plan(s, b).depth.Some? ==> rules.plan(s, b).depth.value >= 1)
  }

  function Replay<V(!new)>(rules: Rules<V>, s: Snapshot<V>, blocks: seq<Block>): Option<Snapshot<V>>
    decreases |blocks|
  {
    if blocks == [] then Some(s)
    else match Apply(rules, s, blocks[0])
      case None => None
      case Some(s') => Replay(rules, s', blocks[1..])
  }

  lemma {:induction false} ReplaySplit<V(!new)>(rules: Rules<V>, s: Snapshot<V>, xs: seq<Block>, ys: seq<Block>)
    requires Replay(rules, s, xs).Some?
    ensures Replay(rules, s, xs + ys) == Replay(rules, Replay(rules, s, xs).value, ys)
    decreases |xs|
  {
    if xs == [] {
      assert xs + ys == ys;
    } else {
      assert (xs + ys)[1..] == xs[1..] + ys;
      ReplaySplit(rules, Apply(rules, s, xs[0]).value, xs[1..], ys);
    }
  }

  lemma ReplayOneMore<V(!new)>(rules: Rules<V>, s: Snapshot<V>, xs: seq<Block>, b: Block)
    requires Replay(rules, s, xs).Some?
    ensures Replay(rules, s, xs + [b]) == Apply(rules, Replay(rules, s, xs).value, b)
  {
    ReplaySplit(rules, s, xs, [b]);
    var s' := Replay(rules, s, xs).value;
    if Apply(rules, s', b).Some? {
      assert [b][1..] == [];
    }
  }

  // ---------------------------------------------------------------- history of a chain

  /** The newest `|chain|` records are those of the blocks of `chain`, one record per block. */
  ghost predicate HistoryOf<V(!new)>(rules: Rules<V>, m: Model<V>, chain: seq<Block>) {
    && |chain| <= |m.saved|
    && forall i {:trigger chain[i]} :: 0 <= i < |chain| ==>
         Apply(rules, m.saved[|m.saved| - |chain| + i], chain[i]) == Some(After(m, |m.saved| - |chain| + i))
  }

  /** The state from which the last `k` blocks were applied. */
  function StateBefore<V>(m: Model<V>, k: nat): Snapshot<V>
    requires k <= |m.saved|
  {
    if k == 0 then m.current else m.saved[|m.saved| - k]
  }

  predicate IsSuffix<T(==)>(x: seq<T>, y: seq<T>) {
    |x| <= |y| && x == y[|y| - |x|..]
  }

  lemma {:induction false} HistoryReplays<V(!new)>(rules: Rules<V>, m: Model<V>, chain: seq<Block>, k: nat)
    requires HistoryOf(rules, m, chain) && k <= |chain|
    ensures Replay(rules, StateBefore(m, k), chain[|chain| - k..]) == Some(m.current)
    decreases k
  {
    if k == 0 {
    } else {
      var i := |chain| - k;
      var rest := chain[i..];
      assert rest[0] == chain[i] && rest[1..] == chain[i + 1..];
      assert StateBefore(m, k - 1) == After(m, |m.saved| - |chain| + i);
      HistoryReplays(rules, m, chain, k - 1);
    }
  }

  /** Popping a block gives back the state before it and keeps the rest of the history. */
  lemma PopKeepsHistory<V(!new)>(rules: Rules<V>, m: Model<V>, chain: seq<Block>)
    requires HistoryOf(rules, m, chain) && chain != [] && m.active == 0
    ensures var m' := ModelStep(m, Op<V>.PopCommit).value;
            && HistoryOf(rules, m', Front(chain))
            && m'.current == StateBefore(m, 1)
            && Apply(rules, m'.current, Last(chain)) == Some(m.current)
            && forall k: nat :: k < |m.saved| ==> StateBefore(m', k) == StateBefore(m, k + 1)
  {
    var m' := ModelStep(m, Op<V>.PopCommit).value;
    var base := |m.saved| - |chain|;
    assert Apply(rules, m.saved[base + |chain| - 1], chain[|chain| - 1]) == Some(m.current);
    forall i | 0 <= i < |Front(chain)|
      ensures Apply(rules, m'.saved[|m'.saved| - |Front(chain)| + i], Front(chain)[i])
              == Some(After(m', |m'.saved| - |Front(chain)| + i))
    {
      assert Apply(rules, m.saved[base + i], chain[i]) == Some(After(m, base + i));
    }
  }

  /** The history after a session was opened and the store moved on to `s`. */
  function Opened<V>(m: Model<V>, s: Snapshot<V>): Model<V> {
    m.(current := s, saved := Trim(m.saved, m.maxSize) + [m.current])
  }

  /** A session that opens and ends without effect forgets at most the oldest records. */
  lemma TrimKeepsHistory<V(!new)>(rules: Rules<V>, m: Model<V>, chain: seq<Block>)
    requires HistoryOf(rules, m, chain)
    ensures HistoryOf(rules, m.(saved := Trim(m.saved, m.maxSize)), Trim(chain, m.maxSize))
    ensures HistoryOf(rules, m.(saved := [m.current]), [])
  {
    var m' := m.(saved := Trim(m.saved, m.maxSize));
    var chain' := Trim(chain, m.maxSize);
    var base, base' := |m.saved| - |chain|, |m'.saved| - |chain'|;
    forall i | 0 <= i < |chain'|
      ensures Apply(rules, m'.saved[base' + i], chain'[i]) == Some(After(m', base' + i))
    {
      RecordStays(rules, m, m', chain, i + |chain| - |chain'|, base' + i);
    }
  }

  lemma RecordStays<V(!new)>(rules: Rules<V>, m: Model<V>, m': Model<V>, chain: seq<Block>, j: nat, at: nat)
    requires HistoryOf(rules, m, chain) && m' == m.(saved := Trim(m.saved, m.maxSize)) && j < |chain|
    requires at < |m'.saved| && |m.saved| - |chain| + j - at == |m.saved| - |m'.saved|
    ensures Apply(rules, m'.saved[at], chain[j]) == Some(After(m', at))
  {
    var i := |m.saved| - |chain| + j;
    TrimmedAt(m, m', i, at);
    assert Apply(rules, m.saved[i], chain[j]) == Some(After(m, i));
  }

  lemma TrimmedAt<V>(m: Model<V>, m': Model<V>, i: nat, i': nat)
    requires m' == m.(saved := Trim(m.saved, m.maxSize))
    requires i < |m.saved| && i' < |m'.saved| && i - i' == |m.saved| - |m'.saved|
    ensures m'.saved[i'] == m.saved[i] && After(m', i') == After(m, i)
  {
  }

  /** A session that applies `b` and commits adds one record. */
  lemma PushKeepsHistory<V(!new)>(rules: Rules<V>, m: Model<V>, chain: seq<Block>, b: Block)
    requires HistoryOf(rules, m, chain) && Apply(rules, m.current, b).Some?
    ensures HistoryOf(rules, Opened(m, Apply(rules, m.current, b).value), Trim(chain, m.maxSize) + [b])
  {
    TrimKeepsHistory(rules, m, chain);
    AppendHistory(rules, m.(saved := Trim(m.saved, m.maxSize)), Trim(chain, m.maxSize), b);
  }

  lemma AppendHistory<V(!new)>(rules: Rules<V>, m: Model<V>, chain: seq<Block>, b: Block)
    requires HistoryOf(rules, m, chain) && Apply(rules, m.current, b).Some?
    ensures HistoryOf(rules, m.(current := Apply(rules, m.current, b).value, saved := m.saved + [m.current]),
                      chain + [b])
  {
    var m' := m.(current := Apply(rules, m.current, b).value, saved := m.saved + [m.current]);
    var base := |m.saved| - |chain|;
    forall i | 0 <= i < |chain| + 1
      ensures Apply(rules, m'.saved[base + i], (chain + [b])[i]) == Some(After(m', base + i))
    {
      if i < |chain| {
        assert Apply(rules, m.saved[base + i], chain[i]) == Some(After(m, base + i));
      }
    }
  }

  /** A committed session that applied `b`. */
  ghost predicate CommittedModel<V(!new)>(rules: Rules<V>, m: Model<V>, m': Model<V>, b: Block) {
    && Apply(rules, m.current, b) == Some(m'.current)
    && m'.saved == Trim(m.saved, m.maxSize) + [m.current]
  }

  /** A session that was undone. */
  ghost predicate CancelledModel<V>(m: Model<V>, m': Model<V>) {
    && m'.current == m.current
    && m'.saved == if Trim(m.saved, m.maxSize) == [] then [m.current] else Trim(m.saved, m.maxSize)
  }

  lemma CommittedHistory<V(!new)>(rules: Rules<V>, m: Model<V>, m': Model<V>, chain: seq<Block>, b: Block)
    requires HistoryOf(rules, m, chain) && CommittedModel(rules, m, m', b)
    ensures HistoryOf(rules, m', Trim(chain, m.maxSize) + [b])
  {
    PushKeepsHistory(rules, m, chain, b);
    HistoryIgnoresSize(rules, Opened(m, m'.current), m', Trim(chain, m.maxSize) + [b]);
  }

  lemma CancelledHistory<V(!new)>(rules: Rules<V>, m: Model<V>, m': Model<V>, chain: seq<Block>)
    requires HistoryOf(rules, m, chain) && CancelledModel(m, m')
    ensures HistoryOf(rules, m', Trim(chain, m.maxSize))
  {
    TrimKeepsHistory(rules, m, chain);
    if Trim(m.saved, m.maxSize) != [] {
      HistoryIgnoresSize(rules, m.(saved := Trim(m.saved, m.maxSize)), m', Trim(chain, m.maxSize));
    }
  }

  /** The history says nothing about sessions and sizes. */
  lemma HistoryIgnoresSize<V(!new)>(rules: Rules<V>, m: Model<V>, m': Model<V>, chain: seq<Block>)
    requires HistoryOf(rules, m, chain) && m'.current == m.current && m'.saved == m.saved
    ensures HistoryOf(rules, m', chain)
  {
    var base := |m.saved| - |chain|;
    forall i | 0 <= i < |chain|
      ensures Apply(rules, m'.saved[base + i], chain[i]) == Some(After(m', base + i))
    {
      assert Apply(rules, m.saved[base + i], chain[i]) == Some(After(m, base + i));
    }
  }

  /** The session of pending transactions lies on top of the records of the blocks. */
  lemma PendingHistory<V(!new)>(rules: Rules<V>, m: Model<V>, m': Model<V>, chain: seq<Block>, size: nat)
    requires HistoryOf(rules, m, chain)
    requires m'.current == m.current && m'.saved == Trim(m.saved, size)
    ensures HistoryOf(rules, m', Trim(chain, size))
  {
    TrimKeepsHistory(rules, m.(maxSize := size), chain) by {
      HistoryIgnoresSize(rules, m, m.(maxSize := size), chain);
    }
    HistoryIgnoresSize(rules, m.(maxSize := size, saved := Trim(m.saved, size)), m', Trim(chain, size));
  }

  /** Popping a block, as far as the store is concerned. */
  lemma PoppedHistory<V(!new)>(rules: Rules<V>, m: Model<V>, m': Model<V>, chain: seq<Block>)
    requires Lawful(rules) && HistoryOf(rules, m, chain) && m.active == 0 && m.saved != []
    requires ModelStep(m, Op<V>.PopCommit) == Some(m')
    ensures HistoryOf(rules, m', if chain == [] then [] else Front(chain))
    ensures chain != [] ==> rules.headId(m.current) == Last(chain).Id()
                            && rules.headId(m'.current) == Last(chain).previous
  {
    if chain != [] {
      PopKeepsHistory(rules, m, chain);
    }
  }

  /** The records under the session of pending transactions, after one more session was trimmed
      in on top of it. */
  lemma TrimUnderTop<T>(s: seq<T>, x: seq<T>, top: T, n: nat)
    requires n >= 1 && s != [] && Last(s) == top
    requires Front(s) == x || Front(s) == Trim(x, n)
    ensures Trim(s, n) != [] && Last(Trim(s, n)) == top
    ensures Front(Trim(s, n)) == Trim(x, n - 1)
  {
    assert s == Front(s) + [top];
  }

  /** Every block of `bs`, replayed from `s`, keeps an undo depth of at least `d`. */
  predicate RoomFor<V(!new)>(rules: Rules<V>, s: Snapshot<V>, bs: seq<Block>, d: nat)
    decreases |bs|
  {
    bs == [] || (
      && (rules.plan(s, bs[0]).depth.Some? ==> rules.plan(s, bs[0]).depth.value >= d)
      && match Apply(rules, s, bs[0])
         case None => true
         case Some(s') => RoomFor(rules, s', bs[1..], d))
  }

  /** Replayed from `s`, the first block of `bs` keeps an undo depth of at least `j`, the next one of
      `j + 1`, and so on, the last one apart: each as many as there are blocks up to it. */
  predicate RoomInTurn<V(!new)>(rules: Rules<V>, s: Snapshot<V>, bs: seq<Block>, j: nat)
    decreases |bs|
  {
    |bs| <= 1 || (
      && (rules.plan(s, bs[0]).depth.Some? ==> rules.plan(s, bs[0]).depth.value >= j)
      && match Apply(rules, s, bs[0])
         case None => true
         case Some(s') => RoomInTurn(rules, s', bs[1..], j + 1))
  }

  lemma RoomInTurnStep<V(!new)>(rules: Rules<V>, s: Snapshot<V>, b: Block, bs: seq<Block>, j: nat, depth: nat)
    requires Apply(rules, s, b).Some? && rules.plan(s, b).depth == Some(depth)
    ensures RoomInTurn(rules, s, [b] + bs, j)
       <==> (bs != [] ==> depth >= j) && RoomInTurn(rules, Apply(rules, s, b).value, bs, j + 1)
  {
    assert ([b] + bs)[1..] == bs;
  }

  /** The recorded blocks are linked, and the newest is the head. */
  lemma HistoryLinks<V(!new)>(rules: Rules<V>, m: Model<V>, chain: seq<Block>)
    requires Lawful(rules) && HistoryOf(rules, m, chain)
    ensures chain != [] ==> rules.headId(m.current) == Last(chain).Id()
    ensures forall i :: 0 <= i < |chain| - 1 ==> chain[i].Id() == chain[i + 1].previous
    ensures forall i :: 0 <= i < |chain| ==> chain[i].Num() == Last(chain).Num() - (|chain| - 1 - i)
  {
    var base := |m.saved| - |chain|;
    if chain != [] {
      assert Apply(rules, m.saved[base + |chain| - 1], chain[|chain| - 1]) == Some(m.current);
    }
    forall i | 0 <= i < |chain| - 1 ensures chain[i].Id() == chain[i + 1].previous {
      assert Apply(rules, m.saved[base + i], chain[i]) == Some(After(m, base + i));
      assert Apply(rules, m.saved[base + i + 1], chain[i + 1]) == Some(After(m, base + i + 1));
    }
    LinkedNumbers(chain);
  }

  lemma {:induction false} LinkedNumbers(chain: seq<Block>)
    requires forall i :: 0 <= i < |chain| - 1 ==> chain[i].Id() == chain[i + 1].previous
    ensures forall i :: 0 <= i < |chain| ==> chain[i].Num() == Last(chain).Num() - (|chain| - 1 - i)
  {
    if chain == [] {
    } else {
      var rest := chain[1..];
      assert forall i :: 0 <= i < |rest| - 1 ==> rest[i].Id() == rest[i + 1].previous;
      LinkedNumbers(rest);
      if rest != [] {
        assert Last(rest) == Last(chain) && chain[0].Id() == chain[1].previous && rest[0] == chain[1];
      }
    }
  }

  /** `m'` is `m` after `n` blocks were popped. */
  ghost predicate PoppedBy<V>(m: Model<V>, m': Model<V>, n: nat) {
    && n <= |m.saved|
    && m' == m.(current := StateBefore(m, n), saved := m.saved[..|m.saved| - n])
  }

  lemma PoppedOnceMore<V>(m: Model<V>, m': Model<V>, m'': Model<V>, n: nat)
    requires PoppedBy(m, m', n) && ModelStep(m', Op<V>.PopCommit) == Some(m'')
    ensures PoppedBy(m, m'', n + 1) && |m''.saved| < |m'.saved|
  {
  }

  function DropLast<T>(s: seq<T>, k: nat): seq<T> {
    if k <= |s| then s[..|s| - k] else []
  }

  lemma DropOnceMore<T>(s: seq<T>, k: nat)
    ensures DropLast(DropLast(s, k), 1) == DropLast(s, k + 1)
  {
  }

  lemma SuffixAfterPush<T>(x: seq<T>, n: nat, y: seq<T>, b: T)
    requires IsSuffix(x, y)
    ensures IsSuffix(Trim(x, n), y) && IsSuffix(Trim(x, n) + [b], y + [b])
  {
    TrimIsSuffix(x, n);
    SuffixTransitive(Trim(x, n), x, y);
    SuffixExtends(Trim(x, n), y, [b]);
  }

  /** A replay that works works for each block on the way. */
  lemma ReplayGoesOn<V(!new)>(rules: Rules<V>, s: Snapshot<V>, xs: seq<Block>, b: Block, ys: seq<Block>)
    requires Replay(rules, s, xs).Some? && Replay(rules, s, xs + ([b] + ys)).Some?
    ensures Apply(rules, Replay(rules, s, xs).value, b).Some?
  {
    ReplaySplit(rules, s, xs, [b] + ys);
    assert ([b] + ys)[0] == b;
  }

  lemma SuffixDrop<T>(x: seq<T>, y: seq<T>, w: seq<T>)
    requires IsSuffix(x, y + w) && |x| >= |w|
    ensures IsSuffix(DropLast(x, |w|), y)
    ensures x[|x| - |w|..] == w
  {
    assert x == (y + w)[|y + w| - |x|..];
    assert DropLast(x, |w|) == y[|y| - |DropLast(x, |w|)|..];
  }

  /** A replay ends at its last block. */
  lemma {:induction false} ReplayHead<V(!new)>(rules: Rules<V>, s: Snapshot<V>, bs: seq<Block>)
    requires Lawful(rules) && bs != [] && Replay(rules, s, bs).Some?
    ensures rules.headId(Replay(rules, s, bs).value) == Last(bs).Id()
    decreases |bs|
  {
    if |bs| == 1 {
    } else {
      ReplayHead(rules, Apply(rules, s, bs[0]).value, bs[1..]);
    }
  }

  lemma TrimIsSuffix<T>(x: seq<T>, n: nat)
    ensures IsSuffix(Trim(x, n), x) && |Trim(x, n)| == (if |x| > n then n else |x|)
  {
  }

  lemma SuffixTransitive<T>(x: seq<T>, y: seq<T>, z: seq<T>)
    requires IsSuffix(x, y) && IsSuffix(y, z)
    ensures IsSuffix(x, z)
  {
  }

  lemma SuffixExtends<T>(x: seq<T>, y: seq<T>, w: seq<T>)
    requires IsSuffix(x, y)
    ensures IsSuffix(x + w, y + w)
  {
  }
}
