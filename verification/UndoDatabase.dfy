/** The object store and its undo history (libraries/db/undo_database.cpp).

    The code keeps one compressed difference record per session.  The simple idea behind it
    is a stack of full snapshots.  `Step` is the behaviour on difference records, `ModelStep`
    the behaviour on snapshots, and `RunRefines` connects them over every run.  The class
    `ObjectDatabase` updates its fields in place, loop by loop, and is proved against `Step`. */
module UndoDatabase {
  import opened Options

  datatype IndexId = IndexId(space: nat, kind: nat)
  datatype ObjectId = ObjectId(index: IndexId, instance: nat)

  /** Everything a rollback has to give back. */
  datatype Snapshot<V> = Snapshot(objects: map<ObjectId, V>, nextIds: map<IndexId, nat>)

  /** One `undo_state`. */
  datatype UndoState<V> = UndoState(
    oldValues: map<ObjectId, V>,
    oldIndexNextIds: map<IndexId, nat>,
    newIds: set<ObjectId>,
    removed: map<ObjectId, V>)

  /** The store with its difference records. */
  datatype Db<V> = Db(current: Snapshot<V>, stack: seq<UndoState<V>>, active: nat, maxSize: nat)

  /** The store with full snapshots instead of records. */
  datatype Model<V> = Model(current: Snapshot<V>, saved: seq<Snapshot<V>>, active: nat, maxSize: nat)

  datatype Op<V> =
    | Create(index: IndexId, value: V)
    | Modify(id: ObjectId, value: V)
    | Remove(id: ObjectId)
    | Start
    | Undo
    | Merge
    | Commit
    | PopCommit
    | SetMaxSize(size: nat)

  // ---------------------------------------------------------------- difference records

  function EmptyState<V>(): UndoState<V> {
    UndoState(map[], map[], {}, map[])
  }

  /** `on_create`: `id` has just been added. */
  function RecordCreate<V>(r: UndoState<V>, id: ObjectId): UndoState<V> {
    r.(oldIndexNextIds := if id.index in r.oldIndexNextIds then r.oldIndexNextIds
                          else r.oldIndexNextIds[id.index := id.instance],
       newIds := r.newIds + {id})
  }

  /** `on_modify`: `id` is about to lose its value `was`. */
  function RecordModify<V>(r: UndoState<V>, id: ObjectId, was: V): UndoState<V> {
    if id in r.newIds || id in r.oldValues then r else r.(oldValues := r.oldValues[id := was])
  }

  /** `on_remove`: `id`, with value `was`, is about to be removed. */
  function RecordRemove<V>(r: UndoState<V>, id: ObjectId, was: V): UndoState<V> {
    if id in r.newIds then
      r.(newIds := r.newIds - {id})
    else if id in r.oldValues then
      r.(removed := r.removed[id := r.oldValues[id]], oldValues := r.oldValues - {id})
    else if id in r.removed then
      r
    else
      r.(removed := r.removed[id := was])
  }

  /** What the loops of `undo` and `pop_commit` do to the store. */
  function Restore<V>(r: UndoState<V>, t: Snapshot<V>): Snapshot<V> {
    Snapshot((t.objects + r.oldValues) - r.newIds + r.removed, t.nextIds + r.oldIndexNextIds)
  }

  /** What the loops of `merge` leave in the older record `a`. */
  function MergeStates<V>(a: UndoState<V>, b: UndoState<V>): UndoState<V> {
    UndoState(
      MergedOldValues(a, b) - b.removed.Keys,
      b.oldIndexNextIds + a.oldIndexNextIds,
      a.newIds + b.newIds - b.removed.Keys,
      a.removed + MergedRemoved(a, b, b.removed.Keys))
  }

  function MergedOldValues<V>(a: UndoState<V>, b: UndoState<V>): map<ObjectId, V> {
    a.oldValues + (map id | id in b.oldValues && id !in a.newIds && id !in a.oldValues :: b.oldValues[id])
  }

  function MergedRemoved<V>(a: UndoState<V>, b: UndoState<V>, ids: set<ObjectId>): map<ObjectId, V>
    requires ids <= b.removed.Keys
  {
    map id | id in ids && id !in a.newIds + b.newIds ::
      if id in a.oldValues then a.oldValues[id] else b.removed[id]
  }

  // ---------------------------------------------------------------- what a record means

  function Lookup<V>(s: Snapshot<V>, id: ObjectId): Option<V> {
    if id in s.objects then Some(s.objects[id]) else None
  }

  /** The relation of one object to one record, as the comment above `merge` names it. */
  datatype Cell<V> = Nop | New | Upd(was: V) | Del(was: V)

  function CellOf<V>(r: UndoState<V>, id: ObjectId): Cell<V> {
    if id in r.newIds then New
    else if id in r.oldValues then Upd(r.oldValues[id])
    else if id in r.removed then Del(r.removed[id])
    else Nop
  }

  /** `id` is in at most one of the three containers. */
  predicate OneCell<V>(r: UndoState<V>, id: ObjectId) {
    && (id in r.newIds ==> id !in r.oldValues && id !in r.removed)
    && (id in r.oldValues ==> id !in r.removed)
  }

  /** Every live object was numbered by its index. */
  ghost predicate WellNumbered<V>(s: Snapshot<V>) {
    forall id :: id in s.objects ==> id.index in s.nextIds && id.instance < s.nextIds[id.index]
  }

  /** Record `r` says exactly how object `id` of `t` differs from `s`. */
  ghost predicate ObjectRecorded<V>(r: UndoState<V>, s: Snapshot<V>, t: Snapshot<V>, id: ObjectId) {
    && OneCell(r, id)
    && match CellOf(r, id)
       case Nop => Lookup(s, id) == Lookup(t, id)
       case New => Lookup(s, id).None? && Lookup(t, id).Some?
                   && id.index in s.nextIds && s.nextIds[id.index] <= id.instance
       case Upd(was) => Lookup(s, id) == Some(was) && Lookup(t, id).Some?
       case Del(was) => Lookup(s, id) == Some(was) && Lookup(t, id).None?
  }

  /** The same for the next id of index `i`, which only grows. */
  ghost predicate IndexRecorded<V>(r: UndoState<V>, s: Snapshot<V>, t: Snapshot<V>, i: IndexId) {
    && (i in s.nextIds <==> i in t.nextIds)
    && (i in r.oldIndexNextIds ==> i in s.nextIds)
    && (i in s.nextIds ==>
         && s.nextIds[i] <= t.nextIds[i]
         && s.nextIds[i] == if i in r.oldIndexNextIds then r.oldIndexNextIds[i] else t.nextIds[i])
  }

  /** `r` is exactly the difference that leads from `s` to `t`. */
  ghost predicate Records<V>(r: UndoState<V>, s: Snapshot<V>, t: Snapshot<V>) {
    && WellNumbered(s) && WellNumbered(t)
    && (forall i :: IndexRecorded(r, s, t, i))
    && (forall id :: ObjectRecorded(r, s, t, id))
  }

  /** Restoring a record gives back the snapshot in which it began. */
  lemma RestoreGivesBack<V>(r: UndoState<V>, s: Snapshot<V>, t: Snapshot<V>)
    requires Records(r, s, t)
    ensures Restore(r, t) == s
  {
    var x := Restore(r, t);
    forall id ensures Lookup(x, id) == Lookup(s, id) {
      assert ObjectRecorded(r, s, t, id);
    }
    SameObjects(x, s);
    forall i ensures (i in x.nextIds <==> i in s.nextIds) && (i in s.nextIds ==> x.nextIds[i] == s.nextIds[i]) {
      assert IndexRecorded(r, s, t, i);
    }
    assert x.nextIds == s.nextIds;
  }

  lemma SameObjects<V>(x: Snapshot<V>, y: Snapshot<V>)
    requires forall id :: Lookup(x, id) == Lookup(y, id)
    ensures x.objects == y.objects
  {
    forall id ensures id in x.objects <==> id in y.objects {
      assert Lookup(x, id) == Lookup(y, id);
    }
    forall id | id in x.objects ensures x.objects[id] == y.objects[id] {
      assert Lookup(x, id) == Lookup(y, id);
    }
  }

  lemma EmptyRecords<V>(s: Snapshot<V>)
    requires WellNumbered(s)
    ensures Records(EmptyState(), s, s)
  {
  }

  function Created<V>(t: Snapshot<V>, i: IndexId, v: V): Snapshot<V>
    requires i in t.nextIds
  {
    Snapshot(t.objects[ObjectId(i, t.nextIds[i]) := v], t.nextIds[i := t.nextIds[i] + 1])
  }

  lemma CreateRecords<V>(r: UndoState<V>, s: Snapshot<V>, t: Snapshot<V>, i: IndexId, v: V)
    requires Records(r, s, t) && i in t.nextIds
    ensures Records(RecordCreate(r, ObjectId(i, t.nextIds[i])), s, Created(t, i, v))
  {
    var new_ := ObjectId(i, t.nextIds[i]);
    var r', t' := RecordCreate(r, new_), Created(t, i, v);
    assert IndexRecorded(r, s, t, i);
    forall j ensures IndexRecorded(r', s, t', j) {
      assert IndexRecorded(r, s, t, j);
    }
    forall id ensures ObjectRecorded(r', s, t', id) {
      assert ObjectRecorded(r, s, t, id);
    }
  }

  lemma ModifyRecords<V>(r: UndoState<V>, s: Snapshot<V>, t: Snapshot<V>, id: ObjectId, v: V)
    requires Records(r, s, t) && id in t.objects
    ensures Records(RecordModify(r, id, t.objects[id]), s, t.(objects := t.objects[id := v]))
  {
    var r', t' := RecordModify(r, id, t.objects[id]), t.(objects := t.objects[id := v]);
    forall j ensures IndexRecorded(r', s, t', j) {
      assert IndexRecorded(r, s, t, j);
    }
    forall x ensures ObjectRecorded(r', s, t', x) {
      assert ObjectRecorded(r, s, t, x);
    }
  }

  lemma RemoveRecords<V>(r: UndoState<V>, s: Snapshot<V>, t: Snapshot<V>, id: ObjectId)
    requires Records(r, s, t) && id in t.objects
    ensures Records(RecordRemove(r, id, t.objects[id]), s, t.(objects := t.objects - {id}))
  {
    var r', t' := RecordRemove(r, id, t.objects[id]), t.(objects := t.objects - {id});
    forall j ensures IndexRecorded(r', s, t', j) {
      assert IndexRecorded(r, s, t, j);
    }
    forall x ensures ObjectRecorded(r', s, t', x) {
      assert ObjectRecorded(r, s, t, x);
    }
  }

  // ---------------------------------------------------------------- the case table of merge

  /** The 4x4 table; `None` marks the cells that violate causal timing. */
  function TableCell<V>(a: Cell<V>, b: Cell<V>): Option<Cell<V>> {
    match (a, b)
    case (_, Nop) => Some(a)
    case (Nop, _) => Some(b)
    case (New, Upd(_)) => Some(New)
    case (New, Del(_)) => Some(Nop)
    case (Upd(x), Upd(_)) => Some(Upd(x))
    case (Upd(x), Del(_)) => Some(Del(x))
    case (_, New) => None
    case (Del(_), _) => None
  }

  /** For consecutive records no N/A cell occurs, and every object of the merged record is in
      the cell the table gives, and in no other. */
  lemma MergeFollowsTable<V>(a: UndoState<V>, b: UndoState<V>,
                             s: Snapshot<V>, t: Snapshot<V>, u: Snapshot<V>, id: ObjectId)
    requires Records(a, s, t) && Records(b, t, u)
    ensures TableCell(CellOf(a, id), CellOf(b, id)) == Some(CellOf(MergeStates(a, b), id))
    ensures OneCell(MergeStates(a, b), id)
  {
    assert ObjectRecorded(a, s, t, id) && ObjectRecorded(b, t, u, id);
    assert IndexRecorded(a, s, t, id.index);
  }

  /** The two asserts for N/A cells in `merge` cannot fire. */
  lemma NoIllegalCells<V>(a: UndoState<V>, b: UndoState<V>,
                          s: Snapshot<V>, t: Snapshot<V>, u: Snapshot<V>, id: ObjectId)
    requires Records(a, s, t) && Records(b, t, u)
    ensures id in b.oldValues || id in b.removed ==> id !in a.removed
    ensures id in b.newIds ==> CellOf(a, id).Nop?
  {
    MergeFollowsTable(a, b, s, t, u, id);
    assert ObjectRecorded(a, s, t, id) && ObjectRecorded(b, t, u, id);
  }

  /** Merge law: the merged record spans both, and restoring it equals restoring the newer
      record and then the older one. */
  lemma MergeLaw<V>(a: UndoState<V>, b: UndoState<V>, s: Snapshot<V>, t: Snapshot<V>, u: Snapshot<V>)
    requires Records(a, s, t) && Records(b, t, u)
    ensures Records(MergeStates(a, b), s, u)
    ensures Restore(MergeStates(a, b), u) == Restore(a, Restore(b, u))
  {
    var m := MergeStates(a, b);
    forall i ensures IndexRecorded(m, s, u, i) {
      assert IndexRecorded(a, s, t, i) && IndexRecorded(b, t, u, i);
    }
    forall id ensures ObjectRecorded(m, s, u, id) {
      MergedObject(a, b, s, t, u, id);
    }
    RestoreGivesBack(m, s, u);
    RestoreGivesBack(b, t, u);
    RestoreGivesBack(a, s, t);
  }

  lemma MergedObject<V>(a: UndoState<V>, b: UndoState<V>,
                        s: Snapshot<V>, t: Snapshot<V>, u: Snapshot<V>, id: ObjectId)
    requires Records(a, s, t) && Records(b, t, u)
    ensures ObjectRecorded(MergeStates(a, b), s, u, id)
  {
    MergeFollowsTable(a, b, s, t, u, id);
    assert ObjectRecorded(a, s, t, id) && ObjectRecorded(b, t, u, id);
    assert IndexRecorded(a, s, t, id.index);
  }

  // ---------------------------------------------------------------- one step, both views

  function Last<T>(s: seq<T>): T
    requires s != []
  {
    s[|s| - 1]
  }

  function Front<T>(s: seq<T>): seq<T>
    requires s != []
  {
    s[..|s| - 1]
  }

  /** The loop at the start of `start_undo_session`. */
  function Trim<T>(s: seq<T>, size: nat): seq<T> {
    if |s| > size then s[|s| - size..] else s
  }

  function WithRecord<V>(stack: seq<UndoState<V>>): (r: seq<UndoState<V>>)
    ensures r != []
  {
    if stack == [] then [EmptyState()] else stack
  }

  function Step<V>(d: Db<V>, op: Op<V>): Option<Db<V>> {
    var stack := WithRecord(d.stack);
    match op
    case Create(i, v) =>
      if i !in d.current.nextIds then None
      else
        var id := ObjectId(i, d.current.nextIds[i]);
        Some(d.(current := Created(d.current, i, v),
                stack := Front(stack) + [RecordCreate(Last(stack), id)]))
    case Modify(id, v) =>
      if id !in d.current.objects then None
      else
        Some(d.(current := d.current.(objects := d.current.objects[id := v]),
                stack := Front(stack) + [RecordModify(Last(stack), id, d.current.objects[id])]))
    case Remove(id) =>
      if id !in d.current.objects then None
      else
        Some(d.(current := d.current.(objects := d.current.objects - {id}),
                stack := Front(stack) + [RecordRemove(Last(stack), id, d.current.objects[id])]))
    case Start =>
      Some(d.(stack := Trim(d.stack, d.maxSize) + [EmptyState()], active := d.active + 1))
    case Undo =>
      if d.active == 0 || d.stack == [] then None
      else
        Some(d.(current := Restore(Last(d.stack), d.current),
                stack := WithRecord(Front(d.stack)), active := d.active - 1))
    case Merge =>
      if d.active == 0 || |d.stack| < 2 then None
      else
        Some(d.(stack := Front(Front(d.stack)) + [MergeStates(Last(Front(d.stack)), Last(d.stack))],
                active := d.active - 1))
    case Commit =>
      if d.active == 0 then None else Some(d.(active := d.active - 1))
    case PopCommit =>
      if d.active != 0 || d.stack == [] then None
      else Some(d.(current := Restore(Last(d.stack), d.current), stack := Front(d.stack)))
    case SetMaxSize(n) => Some(d.(maxSize := n))
  }

  function ModelStep<V>(m: Model<V>, op: Op<V>): Option<Model<V>> {
    var saved := if m.saved == [] then [m.current] else m.saved;
    match op
    case Create(i, v) =>
      if i !in m.current.nextIds then None
      else Some(m.(current := Created(m.current, i, v), saved := saved))
    case Modify(id, v) =>
      if id !in m.current.objects then None
      else Some(m.(current := m.current.(objects := m.current.objects[id := v]), saved := saved))
    case Remove(id) =>
      if id !in m.current.objects then None
      else Some(m.(current := m.current.(objects := m.current.objects - {id}), saved := saved))
    case Start =>
      Some(m.(saved := Trim(m.saved, m.maxSize) + [m.current], active := m.active + 1))
    case Undo =>
      if m.active == 0 || m.saved == [] then None
      else
        Some(m.(current := Last(m.saved),
                saved := if |m.saved| == 1 then m.saved else Front(m.saved), active := m.active - 1))
    case Merge =>
      if m.active == 0 || |m.saved| < 2 then None
      else Some(m.(saved := Front(m.saved), active := m.active - 1))
    case Commit =>
      if m.active == 0 then None else Some(m.(active := m.active - 1))
    case PopCommit =>
      if m.active != 0 || m.saved == [] then None
      else Some(m.(current := Last(m.saved), saved := Front(m.saved)))
    case SetMaxSize(n) => Some(m.(maxSize := n))
  }

  // ---------------------------------------------------------------- refinement

  /** The state in which record `i` ended. */
  function After<V>(m: Model<V>, i: nat): Snapshot<V> {
    if i + 1 < |m.saved| then m.saved[i + 1] else m.current
  }

  ghost predicate Refines<V>(d: Db<V>, m: Model<V>) {
    && d.current == m.current && d.active == m.active && d.maxSize == m.maxSize
    && |d.stack| == |m.saved|
    && d.active <= |d.stack|
    && WellNumbered(m.current)
    && forall i {:trigger d.stack[i]} :: 0 <= i < |d.stack| ==> Records(d.stack[i], m.saved[i], After(m, i))
  }

  /** The sessions stay within the depth the history is cut to. */
  predicate WithinDepth<V>(d: Db<V>, op: Op<V>) {
    op.Start? ==> d.active <= d.maxSize
  }

  /** The record that the hooks write to, and the snapshot it began in. */
  lemma TopRecord<V>(d: Db<V>, m: Model<V>)
    requires Refines(d, m)
    ensures var saved := if m.saved == [] then [m.current] else m.saved;
            && |WithRecord(d.stack)| == |saved|
            && Records(Last(WithRecord(d.stack)), Last(saved), m.current)
  {
    if d.stack == [] {
      EmptyRecords(m.current);
    } else {
      assert Records(d.stack[|d.stack| - 1], m.saved[|d.stack| - 1], After(m, |d.stack| - 1));
    }
  }

  /** Writing to the newest record, while the store moves to `current`, keeps the refinement. */
  lemma WriteTop<V>(d: Db<V>, m: Model<V>, r: UndoState<V>, current: Snapshot<V>)
    requires Refines(d, m)
    requires var saved := if m.saved == [] then [m.current] else m.saved;
             Records(r, Last(saved), current)
    ensures var saved := if m.saved == [] then [m.current] else m.saved;
            Refines(d.(current := current, stack := Front(WithRecord(d.stack)) + [r]),
                    m.(current := current, saved := saved))
  {
    var saved := if m.saved == [] then [m.current] else m.saved;
    var d' := d.(current := current, stack := Front(WithRecord(d.stack)) + [r]);
    var m' := m.(current := current, saved := saved);
    forall i | 0 <= i < |d'.stack| ensures Records(d'.stack[i], m'.saved[i], After(m', i)) {
      if i + 1 < |d'.stack| {
        assert Records(d.stack[i], m.saved[i], After(m, i));
      }
    }
  }

  lemma HookRefines<V>(d: Db<V>, m: Model<V>, op: Op<V>)
    requires Refines(d, m) && Step(d, op).Some? && (op.Create? || op.Modify? || op.Remove?)
    ensures ModelStep(m, op).Some? && Refines(Step(d, op).value, ModelStep(m, op).value)
  {
    var r := Last(WithRecord(d.stack));
    var s := Last(if m.saved == [] then [m.current] else m.saved);
    TopRecord(d, m);
    match op {
      case Create(i, v) =>
        CreateRecords(r, s, d.current, i, v);
        WriteTop(d, m, RecordCreate(r, ObjectId(i, d.current.nextIds[i])), Created(d.current, i, v));
      case Modify(id, v) =>
        ModifyRecords(r, s, d.current, id, v);
        WriteTop(d, m, RecordModify(r, id, d.current.objects[id]),
                 d.current.(objects := d.current.objects[id := v]));
      case Remove(id) =>
        RemoveRecords(r, s, d.current, id);
        WriteTop(d, m, RecordRemove(r, id, d.current.objects[id]),
                 d.current.(objects := d.current.objects - {id}));
    }
  }

  lemma RollbackRefines<V>(d: Db<V>, m: Model<V>, op: Op<V>)
    requires Refines(d, m) && Step(d, op).Some? && (op.Undo? || op.PopCommit?)
    ensures ModelStep(m, op).Some? && Refines(Step(d, op).value, ModelStep(m, op).value)
  {
    var d', m' := Step(d, op).value, ModelStep(m, op).value;
    TopRecord(d, m);
    RestoreGivesBack(Last(d.stack), Last(m.saved), m.current);
    EmptyRecords(m'.current);
    forall i | 0 <= i < |d'.stack| ensures Records(d'.stack[i], m'.saved[i], After(m', i)) {
      if |d.stack| > 1 {
        assert Records(d.stack[i], m.saved[i], After(m, i));
      }
    }
  }

  lemma MergeRefines<V>(d: Db<V>, m: Model<V>)
    requires Refines(d, m) && Step(d, Merge).Some?
    ensures ModelStep(m, Op<V>.Merge).Some? && Refines(Step(d, Merge).value, ModelStep(m, Merge).value)
  {
    var d', m' := Step(d, Merge).value, ModelStep(m, Merge).value;
    var n := |d.stack|;
    assert Records(d.stack[n - 2], m.saved[n - 2], After(m, n - 2));
    assert Records(d.stack[n - 1], m.saved[n - 1], After(m, n - 1));
    MergeLaw(d.stack[n - 2], d.stack[n - 1], m.saved[n - 2], m.saved[n - 1], m.current);
    forall i | 0 <= i < |d'.stack| ensures Records(d'.stack[i], m'.saved[i], After(m', i)) {
      if i < n - 2 {
        assert Records(d.stack[i], m.saved[i], After(m, i));
      }
    }
  }

  lemma StartRefines<V>(d: Db<V>, m: Model<V>)
    requires Refines(d, m) && WithinDepth(d, Start)
    ensures Refines(Step(d, Start).value, ModelStep(m, Start).value)
  {
    var d', m' := Step(d, Start).value, ModelStep(m, Start).value;
    EmptyRecords(m.current);
    var dropped := if |d.stack| > d.maxSize then |d.stack| - d.maxSize else 0;
    forall i | 0 <= i < |d'.stack| ensures Records(d'.stack[i], m'.saved[i], After(m', i)) {
      if i + 1 < |d'.stack| {
        assert Records(d.stack[i + dropped], m.saved[i + dropped], After(m, i + dropped));
      }
    }
  }

  /** One step on difference records is one step on snapshots; both throw on the same inputs. */
  lemma StepRefines<V>(d: Db<V>, m: Model<V>, op: Op<V>)
    requires Refines(d, m) && WithinDepth(d, op)
    ensures Step(d, op).Some? <==> ModelStep(m, op).Some?
    ensures Step(d, op).Some? ==> Refines(Step(d, op).value, ModelStep(m, op).value)
  {
    if Step(d, op).Some? {
      match op {
        case Start => StartRefines(d, m);
        case Merge => MergeRefines(d, m);
        case Commit =>
        case SetMaxSize(_) =>
        case Undo => RollbackRefines(d, m, op);
        case PopCommit => RollbackRefines(d, m, op);
        case _ => HookRefines(d, m, op);
      }
    }
  }

  function Run<V>(d: Db<V>, ops: seq<Op<V>>): Option<Db<V>>
    decreases |ops|
  {
    if ops == [] then Some(d)
    else match Step(d, ops[0])
      case None => None
      case Some(d') => Run(d', ops[1..])
  }

  function ModelRun<V>(m: Model<V>, ops: seq<Op<V>>): Option<Model<V>>
    decreases |ops|
  {
    if ops == [] then Some(m)
    else match ModelStep(m, ops[0])
      case None => None
      case Some(m') => ModelRun(m', ops[1..])
  }

  predicate RunWithinDepth<V>(d: Db<V>, ops: seq<Op<V>>)
    decreases |ops|
  {
    ops == [] || (WithinDepth(d, ops[0]) && match Step(d, ops[0])
                  case None => true
                  case Some(d') => RunWithinDepth(d', ops[1..]))
  }

  /** Over every run, the difference records behave as the stack of snapshots. */
  lemma {:induction false} RunRefines<V>(d: Db<V>, m: Model<V>, ops: seq<Op<V>>)
    requires Refines(d, m) && RunWithinDepth(d, ops)
    ensures Run(d, ops).Some? <==> ModelRun(m, ops).Some?
    ensures Run(d, ops).Some? ==> Refines(Run(d, ops).value, ModelRun(m, ops).value)
    decreases |ops|
  {
    if ops == [] {
    } else {
      StepRefines(d, m, ops[0]);
      if Step(d, ops[0]).Some? {
        RunRefines(Step(d, ops[0]).value, ModelStep(m, ops[0]).value, ops[1..]);
      }
    }
  }

  /** `start_undo_session` forgets only committed records, exactly while the open sessions fit
      the depth; beyond that it would forget the record of an open session. */
  lemma StartDropsOnlyCommitted<V>(d: Db<V>)
    requires d.active <= |d.stack|
    ensures var d' := Step(d, Start).value;
            && (d'.active <= |d'.stack| <==> d.active <= d.maxSize)
            && (d.active <= d.maxSize ==>
                 exists k :: 0 <= k <= |d.stack| - d.active && d'.stack == d.stack[k..] + [EmptyState()])
  {
    var k := if |d.stack| > d.maxSize then |d.stack| - d.maxSize else 0;
    assert Trim(d.stack, d.maxSize) == d.stack[k..];
  }
}
