/** The object database with its undo history, updated in place
    (libraries/db/undo_database.cpp, libraries/db/include/graphene/db/index.hpp). */
module ObjectDatabases {
  import opened Options
  import opened UndoDatabase

  /** The entries of `m` whose key a loop has already visited. */
  function Part<K, T>(m: map<K, T>, done: set<K>): map<K, T> {
    map k | k in m && k in done :: m[k]
  }

  lemma PartGrows<K, T>(m: map<K, T>, done: set<K>, k: K)
    requires k in m
    ensures Part(m, done + {k}) == Part(m, done)[k := m[k]]
  {
  }

  lemma PartAll<K, T>(m: map<K, T>)
    ensures Part(m, m.Keys) == m
  {
  }

  /** Where the containers of a record lie in the store it is undone from. */
  lemma RecordPlaces<V>(r: UndoState<V>, s: Snapshot<V>, t: Snapshot<V>)
    requires Records(r, s, t)
    ensures r.oldValues.Keys <= t.objects.Keys
    ensures r.newIds <= t.objects.Keys
    ensures r.newIds !! r.oldValues.Keys
    ensures r.removed.Keys !! t.objects.Keys
    ensures r.oldIndexNextIds.Keys <= t.nextIds.Keys
  {
    forall id
      ensures id in r.oldValues ==> id in t.objects && id !in r.newIds
      ensures id in r.newIds ==> id in t.objects
      ensures id in r.removed ==> id !in t.objects
    {
      assert ObjectRecorded(r, s, t, id);
    }
    forall i ensures i in r.oldIndexNextIds ==> i in t.nextIds {
      assert IndexRecorded(r, s, t, i);
    }
  }

  class ObjectDatabase<V> {
    var objects: map<ObjectId, V>
    var nextIds: map<IndexId, nat>
    var stack: seq<UndoState<V>>
    var activeSessions: nat
    var disabled: bool
    var maxSize: nat
    ghost var model: Model<V>  // the same history as full snapshots

    function Store(): Snapshot<V>
      reads this
    {
      Snapshot(objects, nextIds)
    }

    ghost function State(): Db<V>
      reads this
    {
      Db(Store(), stack, activeSessions, maxSize)
    }

    ghost predicate Valid()
      reads this
    {
      !disabled && Refines(State(), model)
    }

    /** `op` was performed on records and snapshots alike, or it threw and nothing changed. */
    twostate predicate Did(op: Op<V>, ok: bool)
      reads this
    {
      if ok then
        Step(old(State()), op) == Some(State()) && ModelStep(old(model), op) == Some(model)
      else
        Step(old(State()), op).None? && State() == old(State()) && model == old(model)
    }

    constructor (indexes: set<IndexId>)
      ensures Valid()
      ensures State() == Db(Snapshot(map[], map i | i in indexes :: 0), [], 0, 256)
      ensures model == Model(Snapshot(map[], map i | i in indexes :: 0), [], 0, 256)
    {
      objects := map[];
      nextIds := map i | i in indexes :: 0;
      stack := [];
      activeSessions, disabled, maxSize := 0, false, 256;
      model := Model(Snapshot(map[], map i | i in indexes :: 0), [], 0, 256);
    }

    method Enable()
      modifies `disabled
      ensures !disabled
    {
      disabled := false;
    }

    method Disable()
      modifies `disabled
      ensures disabled
    {
      disabled := true;
    }

    // -------------------------------------------------------------- hooks

    method OnCreate(id: ObjectId)
      modifies `stack
      ensures disabled ==> stack == old(stack)
      ensures !disabled ==>
        stack == Front(WithRecord(old(stack))) + [RecordCreate(Last(WithRecord(old(stack))), id)]
    {
      if disabled { return; }
      if stack == [] {
        stack := [EmptyState()];
      }
      var state := stack[|stack| - 1];
      if id.index !in state.oldIndexNextIds {
        state := state.(oldIndexNextIds := state.oldIndexNextIds[id.index := id.instance]);
      }
      state := state.(newIds := state.newIds + {id});
      stack := stack[..|stack| - 1] + [state];
    }

    method OnModify(id: ObjectId)
      requires id in objects
      modifies `stack
      ensures disabled ==> stack == old(stack)
      ensures !disabled ==>
        stack == Front(WithRecord(old(stack))) + [RecordModify(Last(WithRecord(old(stack))), id, objects[id])]
    {
      if disabled { return; }
      if stack == [] {
        stack := [EmptyState()];
      }
      var state := stack[|stack| - 1];
      assert stack == stack[..|stack| - 1] + [state];
      if id in state.newIds { return; }
      if id in state.oldValues { return; }
      state := state.(oldValues := state.oldValues[id := objects[id]]);
      stack := stack[..|stack| - 1] + [state];
    }

    method OnRemove(id: ObjectId)
      requires id in objects
      modifies `stack
      ensures disabled ==> stack == old(stack)
      ensures !disabled ==>
        stack == Front(WithRecord(old(stack))) + [RecordRemove(Last(WithRecord(old(stack))), id, objects[id])]
    {
      if disabled { return; }
      if stack == [] {
        stack := [EmptyState()];
      }
      var state := stack[|stack| - 1];
      assert stack == stack[..|stack| - 1] + [state];
      if id in state.newIds {
        state := state.(newIds := state.newIds - {id});
        stack := stack[..|stack| - 1] + [state];
        return;
      }
      if id in state.oldValues {
        state := state.(removed := state.removed[id := state.oldValues[id]]);
        state := state.(oldValues := state.oldValues - {id});
        stack := stack[..|stack| - 1] + [state];
        return;
      }
      if id in state.removed { return; }
      state := state.(removed := state.removed[id := objects[id]]);
      stack := stack[..|stack| - 1] + [state];
    }

    // -------------------------------------------------------------- objects

    method CreateObject(index: IndexId, value: V) returns (ok: bool, id: ObjectId)
      requires Valid()
      modifies this
      ensures Valid() && Did(Create(index, value), ok)
      ensures ok ==> id == ObjectId(index, old(nextIds)[index])
    {
      id := ObjectId(index, 0);
      if index !in nextIds { return false, id; }
      ghost var before, was := State(), model;
      id := ObjectId(index, nextIds[index]);
      objects := objects[id := value];
      nextIds := nextIds[index := nextIds[index] + 1];
      assert Store() == Created(before.current, index, value);
      OnCreate(id);
      ok := true;
      assert State() == before.(current := Created(before.current, index, value), stack := stack);
      assert Step(before, Create(index, value)) == Some(State());
      StepRefines(before, was, Create(index, value));
      model := ModelStep(was, Create(index, value)).value;
    }

    method ModifyObject(id: ObjectId, value: V) returns (ok: bool)
      requires disabled || Valid()
      modifies this
      ensures disabled == old(disabled)
      ensures ok == (id in old(objects))
      ensures disabled && ok ==> State() == old(State()).(current := old(Store()).(objects := old(objects)[id := value]))
      ensures disabled ==> model == old(model)
      ensures !disabled ==> Valid() && Did(Modify(id, value), ok)
    {
      if id !in objects { return false; }
      ghost var before, was := State(), model;
      OnModify(id);
      objects := objects[id := value];
      ok := true;
      if !disabled {
        StepRefines(before, was, Modify(id, value));
        model := ModelStep(was, Modify(id, value)).value;
      }
    }

    method RemoveObject(id: ObjectId) returns (ok: bool)
      requires disabled || Valid()
      modifies this
      ensures disabled == old(disabled)
      ensures ok == (id in old(objects))
      ensures disabled && ok ==> State() == old(State()).(current := old(Store()).(objects := old(objects) - {id}))
      ensures disabled ==> model == old(model)
      ensures !disabled ==> Valid() && Did(Remove(id), ok)
    {
      if id !in objects { return false; }
      ghost var before, was := State(), model;
      OnRemove(id);
      objects := objects - {id};
      ok := true;
      if !disabled {
        StepRefines(before, was, Remove(id));
        model := ModelStep(was, Remove(id)).value;
      }
    }

    // -------------------------------------------------------------- sessions

    /** `start_undo_session()` with undo enabled.  The open sessions have to fit the depth. */
    method StartUndoSession()
      requires Valid()
      requires activeSessions <= maxSize
      modifies this
      ensures Valid() && Did(Start, true)
    {
      ghost var before, was := State(), model;
      while |stack| > maxSize
        invariant |stack| <= |before.stack|
        invariant stack == before.stack[|before.stack| - |stack|..]
        invariant |stack| >= maxSize || stack == before.stack
        invariant State() == before.(stack := stack) && model == was && !disabled
      {
        stack := stack[1..];
      }
      assert stack == Trim(before.stack, maxSize);
      stack := stack + [EmptyState()];
      activeSessions := activeSessions + 1;
      StepRefines(before, was, Start);
      model := ModelStep(was, Start).value;
    }

    /** First loop of a rollback: modified objects get their old value back. */
    method RestoreValues(values: map<ObjectId, V>)
      requires disabled && values.Keys <= objects.Keys
      modifies this
      ensures disabled && model == old(model)
      ensures State() == old(State()).(current := Snapshot(old(objects) + values, old(nextIds)))
    {
      ghost var t, before, was := objects, State(), model;
      var todo := values.Keys;
      assert objects == t + Part(values, {});
      while todo != {}
        invariant todo <= values.Keys
        invariant objects == t + Part(values, values.Keys - todo)
        invariant State() == before.(current := Snapshot(objects, before.current.nextIds))
        invariant disabled && model == was
      {
        var id :| id in todo;
        PartGrows(values, values.Keys - todo, id);
        assert values.Keys - todo + {id} == values.Keys - (todo - {id});
        var found := ModifyObject(id, values[id]);
        assert found;
        todo := todo - {id};
      }
      PartAll(values);
      assert values.Keys - todo == values.Keys;
    }

    /** Second loop: objects created since are removed. */
    method RemoveCreated(ids: set<ObjectId>)
      requires disabled && ids <= objects.Keys
      modifies this
      ensures disabled && model == old(model)
      ensures State() == old(State()).(current := Snapshot(old(objects) - ids, old(nextIds)))
    {
      ghost var t, before, was := objects, State(), model;
      var todo := ids;
      while todo != {}
        invariant todo <= ids
        invariant objects == t - (ids - todo)
        invariant State() == before.(current := Snapshot(objects, before.current.nextIds))
        invariant disabled && model == was
      {
        var id :| id in todo;
        assert ids - todo + {id} == ids - (todo - {id});
        var found := RemoveObject(id);
        assert found;
        todo := todo - {id};
      }
      assert ids - todo == ids;
    }

    /** Third loop: the counters go back. */
    method RestoreCounters(counters: map<IndexId, nat>)
      requires disabled
      modifies `nextIds
      ensures nextIds == old(nextIds) + counters
    {
      ghost var t := nextIds;
      var todo := counters.Keys;
      assert nextIds == t + Part(counters, {});
      while todo != {}
        invariant todo <= counters.Keys
        invariant nextIds == t + Part(counters, counters.Keys - todo)
      {
        var i :| i in todo;
        PartGrows(counters, counters.Keys - todo, i);
        assert counters.Keys - todo + {i} == counters.Keys - (todo - {i});
        nextIds := nextIds[i := counters[i]];
        todo := todo - {i};
      }
      PartAll(counters);
      assert counters.Keys - todo == counters.Keys;
    }

    /** Fourth loop: removed objects are inserted again; the uniqueness check of `insert` passes. */
    method Reinsert(values: map<ObjectId, V>)
      requires disabled && values.Keys !! objects.Keys
      modifies `objects
      ensures objects == old(objects) + values
    {
      ghost var t := objects;
      var todo := values.Keys;
      assert objects == t + Part(values, {});
      while todo != {}
        invariant todo <= values.Keys
        invariant objects == t + Part(values, values.Keys - todo)
      {
        var id :| id in todo;
        PartGrows(values, values.Keys - todo, id);
        assert values.Keys - todo + {id} == values.Keys - (todo - {id});
        assert id !in objects;
        objects := objects[id := values[id]];
        todo := todo - {id};
      }
      PartAll(values);
      assert values.Keys - todo == values.Keys;
    }

    /** The four loops that `undo` and `pop_commit` share. */
    method RestoreTop(ghost began: Snapshot<V>)
      requires disabled && stack != []
      requires Records(Last(stack), began, Store())
      modifies this
      ensures State() == old(State()).(current := Restore(Last(old(stack)), old(Store())))
      ensures disabled && model == old(model)
    {
      var state := stack[|stack| - 1];
      RecordPlaces(state, began, Store());
      RestoreValues(state.oldValues);
      RemoveCreated(state.newIds);
      RestoreCounters(state.oldIndexNextIds);
      Reinsert(state.removed);
    }

    method UndoSession() returns (ok: bool)
      requires Valid()
      modifies this
      ensures Valid() && Did(Undo, ok)
    {
      if activeSessions == 0 { return false; }
      ghost var before, was := State(), model;
      TopRecord(before, was);
      StepRefines(before, was, Undo);
      Disable();
      RestoreTop(Last(was.saved));
      stack := stack[..|stack| - 1];
      if stack == [] {
        stack := [EmptyState()];
      }
      Enable();
      activeSessions := activeSessions - 1;
      ok := true;
      model := ModelStep(was, Op<V>.Undo).value;
    }

    method PopCommitted() returns (ok: bool)
      requires Valid()
      modifies this
      ensures Valid() && Did(PopCommit, ok)
    {
      if activeSessions != 0 || stack == [] { return false; }
      ghost var before, was := State(), model;
      TopRecord(before, was);
      StepRefines(before, was, PopCommit);
      Disable();
      RestoreTop(Last(was.saved));
      stack := stack[..|stack| - 1];
      Enable();
      ok := true;
      model := ModelStep(was, Op<V>.PopCommit).value;
    }

    method CommitSession() returns (ok: bool)
      requires Valid()
      modifies this
      ensures Valid() && Did(Commit, ok)
    {
      if activeSessions == 0 { return false; }
      ghost var before, was := State(), model;
      StepRefines(before, was, Commit);
      activeSessions := activeSessions - 1;
      ok := true;
      model := ModelStep(was, Op<V>.Commit).value;
    }

    method MergeSession() returns (ok: bool)
      requires Valid()
      modifies this
      ensures Valid() && Did(Merge, ok)
    {
      if activeSessions == 0 || |stack| < 2 { return false; }
      ghost var before, was := State(), model;
      var state, older := stack[|stack| - 1], stack[|stack| - 2];
      ghost var n := |stack|;
      ghost var s, t := was.saved[n - 2], was.saved[n - 1];
      assert Records(older, s, t) by { assert Records(before.stack[n - 2], was.saved[n - 2], After(was, n - 2)); }
      assert Records(state, t, was.current) by { assert Records(before.stack[n - 1], was.saved[n - 1], After(was, n - 1)); }
      RecordsConsecutive(older, state, s, t, was.current);
      var merged := MergeRecords(older, state);
      stack := stack[..|stack| - 2] + [merged];
      activeSessions := activeSessions - 1;
      ok := true;
      StepRefines(before, was, Merge);
      model := ModelStep(was, Op<V>.Merge).value;
      assert Front(Front(before.stack)) == before.stack[..n - 2];
    }

    method SetMaxSize(size: nat)
      requires Valid()
      modifies this
      ensures Valid() && Did(Op.SetMaxSize(size), true)
    {
      ghost var before, was := State(), model;
      StepRefines(before, was, Op.SetMaxSize(size));
      maxSize := size;
      model := was.(maxSize := size);
    }
  }

  /** First loop of `merge`: objects modified in `b`. */
  method MergeModified<V>(a: UndoState<V>, b: UndoState<V>) returns (prev: UndoState<V>)
    requires Consecutive(a, b)
    ensures prev == a.(oldValues := MergedOldValues(a, b))
  {
    prev := a;
    var todo := b.oldValues.Keys;
    ghost var added := map id | id in b.oldValues && id !in a.newIds && id !in a.oldValues :: b.oldValues[id];
    assert a.oldValues == a.oldValues + Part(added, {});
    while todo != {}
      invariant todo <= b.oldValues.Keys
      invariant prev == a.(oldValues := a.oldValues + Part(added, b.oldValues.Keys - todo))
    {
      var id :| id in todo;
      ghost var done, next := b.oldValues.Keys - todo, b.oldValues.Keys - (todo - {id});
      assert done + {id} == next;
      if id in prev.newIds {
        assert Part(added, next) == Part(added, done);
      } else if id in prev.oldValues {
        assert Part(added, next) == Part(added, done);
      } else {
        assert id !in prev.removed;
        PartGrows(added, done, id);
        prev := prev.(oldValues := prev.oldValues[id := b.oldValues[id]]);
      }
      todo := todo - {id};
    }
    assert Part(added, b.oldValues.Keys - todo) == added;
  }

  /** Third loop of `merge`: a counter keeps the older entry. */
  method MergeCounters(a: map<IndexId, nat>, b: map<IndexId, nat>) returns (merged: map<IndexId, nat>)
    ensures merged == b + a
  {
    merged := a;
    var todo := b.Keys;
    assert merged == Part(b, {}) + a;
    while todo != {}
      invariant todo <= b.Keys
      invariant merged == Part(b, b.Keys - todo) + a
    {
      var i :| i in todo;
      assert b.Keys - todo + {i} == b.Keys - (todo - {i});
      PartGrows(b, b.Keys - todo, i);
      if i !in merged {
        merged := merged[i := b[i]];
      }
      todo := todo - {i};
    }
    PartAll(b);
    assert b.Keys - todo == b.Keys;
  }

  /** The older record after the last loop of `merge` has visited `done`. */
  ghost function Removing<V>(a: UndoState<V>, b: UndoState<V>, done: set<ObjectId>): UndoState<V>
    requires done <= b.removed.Keys
  {
    UndoState(MergedOldValues(a, b) - done, b.oldIndexNextIds + a.oldIndexNextIds,
              a.newIds + b.newIds - done, a.removed + MergedRemoved(a, b, done))
  }

  /** One turn of the last loop of `merge`. */
  method MergeOneRemoved<V>(a: UndoState<V>, b: UndoState<V>, ghost done: set<ObjectId>, id: ObjectId,
                            before: UndoState<V>)
    returns (prev: UndoState<V>)
    requires Consecutive(a, b)
    requires done <= b.removed.Keys && id in b.removed && id !in done
    requires before == Removing(a, b, done)
    ensures prev == Removing(a, b, done + {id})
  {
    prev := before;
    RemovingGrows(a, b, done, id);
    if id in prev.newIds {
      prev := prev.(newIds := prev.newIds - {id});
    } else if id in prev.oldValues {
      prev := prev.(removed := prev.removed[id := prev.oldValues[id]]);
      prev := prev.(oldValues := prev.oldValues - {id});
    } else {
      assert id !in prev.removed;
      prev := prev.(removed := prev.removed[id := b.removed[id]]);
    }
  }

  /** How one turn changes each container. */
  lemma RemovingGrows<V>(a: UndoState<V>, b: UndoState<V>, done: set<ObjectId>, id: ObjectId)
    requires Consecutive(a, b)
    requires done <= b.removed.Keys && id in b.removed && id !in done
    ensures var x, y := Removing(a, b, done), Removing(a, b, done + {id});
            && y.newIds == x.newIds - {id}
            && y.oldValues == x.oldValues - {id}
            && (id in x.oldValues <==> id in a.oldValues)
            && (id in x.oldValues ==> x.oldValues[id] == a.oldValues[id] && id !in x.newIds)
            && (id in x.newIds ==> y.removed == x.removed)
            && (id !in x.newIds ==>
                 y.removed == x.removed[id := if id in a.oldValues then a.oldValues[id] else b.removed[id]])
            && (id !in x.oldValues ==> y.oldValues == x.oldValues)
            && (id !in x.newIds ==> y.newIds == x.newIds)
            && id !in x.removed
  {
    OthersShrink(a, b, done, id);
    RemovedGrows(a, b, done, id);
  }

  lemma OthersShrink<V>(a: UndoState<V>, b: UndoState<V>, done: set<ObjectId>, id: ObjectId)
    requires done <= b.removed.Keys && id in b.removed && id !in done
    ensures var x, y := Removing(a, b, done), Removing(a, b, done + {id});
            && y.newIds == x.newIds - {id}
            && y.oldValues == x.oldValues - {id}
            && (id !in x.oldValues ==> y.oldValues == x.oldValues)
            && (id !in x.newIds ==> y.newIds == x.newIds)
  {
  }

  lemma RemovedGrows<V>(a: UndoState<V>, b: UndoState<V>, done: set<ObjectId>, id: ObjectId)
    requires done <= b.removed.Keys && id in b.removed && id !in done
    ensures id in a.newIds + b.newIds ==> MergedRemoved(a, b, done + {id}) == MergedRemoved(a, b, done)
    ensures id !in a.newIds + b.newIds ==>
      MergedRemoved(a, b, done + {id})
      == MergedRemoved(a, b, done)[id := if id in a.oldValues then a.oldValues[id] else b.removed[id]]
  {
  }

  /** The loops of `merge`, which turn the older record into the composition. */
  method MergeRecords<V>(a: UndoState<V>, b: UndoState<V>) returns (prev: UndoState<V>)
    requires Consecutive(a, b)
    ensures prev == MergeStates(a, b)
  {
    prev := MergeModified(a, b);
    prev := prev.(newIds := prev.newIds + b.newIds);
    var counters := MergeCounters(prev.oldIndexNextIds, b.oldIndexNextIds);
    prev := prev.(oldIndexNextIds := counters);

    var todo := b.removed.Keys;
    ghost var done: set<ObjectId> := {};
    assert MergedOldValues(a, b) - done == MergedOldValues(a, b);
    assert a.removed + MergedRemoved(a, b, done) == a.removed;
    while todo != {}
      invariant todo <= b.removed.Keys && done == b.removed.Keys - todo
      invariant prev == Removing(a, b, done)
    {
      var id :| id in todo;
      prev := MergeOneRemoved(a, b, done, id, prev);
      todo, done := todo - {id}, done + {id};
    }
    assert done == b.removed.Keys;
  }

  /** What the loops of `merge` rely on: no object is in an N/A cell, and no object is in two
      containers of one record. */
  ghost predicate Consecutive<V>(a: UndoState<V>, b: UndoState<V>) {
    && b.oldValues.Keys !! a.removed.Keys
    && b.removed.Keys !! a.removed.Keys
    && b.removed.Keys !! b.newIds
    && b.removed.Keys !! b.oldValues.Keys
    && a.newIds !! a.oldValues.Keys
  }

  lemma RecordsConsecutive<V>(a: UndoState<V>, b: UndoState<V>,
                              s: Snapshot<V>, t: Snapshot<V>, u: Snapshot<V>)
    requires Records(a, s, t) && Records(b, t, u)
    ensures Consecutive(a, b)
  {
    forall id
      ensures id in b.oldValues || id in b.removed ==> id !in a.removed
      ensures id in b.removed ==> id !in b.newIds && id !in b.oldValues
      ensures id in a.newIds ==> id !in a.oldValues
    {
      NoIllegalCells(a, b, s, t, u, id);
      assert ObjectRecorded(a, s, t, id) && ObjectRecorded(b, t, u, id);
    }
  }
}
