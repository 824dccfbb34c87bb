/**
 * What the actions and the sweep promise, stated over the pure descriptions `Step`, `Drain`
 * and `Sweep` that the session's methods are proved against.
 */
module SessionProperties {
  import opened Errors
  import opened Entities
  import opened Keys
  import opened ReflectionUtils
  import opened Utils
  import opened Dao
  import opened BibernateOrm
  import opened ActionQueue

  /**
   * `InsertAction.execute`: one `saveEntity` call with the entity's values and nothing else;
   * the cache and the snapshot store are left alone whatever the storage answers.
   */
  lemma InsertStepEffect(j: Job, s: UnitState, online: bool)
    requires j.action.InsertAction?
    ensures var st := Step(j, s, online);
      st.state.cache == s.cache && st.state.snapshots == s.snapshots &&
      st.state.calls == s.calls + [SaveCall(j.action.entity.entityType, j.values)] &&
      (st.outcome.Pass? <==> SaveResult(s.rows, j.action.entity.entityType, j.values, online).Ok?) &&
      (st.outcome.Fail? ==> st.state.rows == s.rows)
  {
  }

  /**
   * `UpdateAction.execute`: one `updateEntity` call with the key's id (not the entity's id
   * field). After a successful call the key maps to the action's entity, its snapshot is
   * the entity's current values, so `hasChanged` is false for it, and no other key is
   * touched. A failed call leaves both maps and the rows as they were.
   */
  lemma UpdateStepEffect(j: Job, s: UnitState, online: bool)
    requires j.action.UpdateAction?
    ensures var st := Step(j, s, online);
      var k := j.action.keyTypeId;
      st.state.calls == s.calls + [UpdateCall(j.action.entity.entityType, j.values, k.id)] &&
      (st.outcome.Pass? ==>
        k in st.state.cache && st.state.cache[k] == j.action.entity &&
        k in st.state.snapshots && st.state.snapshots[k] == SnapshotOf(k.keyType, j.values) &&
        !Changed(st.state.snapshots[k], k.keyType, j.values) &&
        (forall k' :: k' != k ==> (k' in st.state.cache <==> k' in s.cache) && (k' in st.state.snapshots <==> k' in s.snapshots)) &&
        (forall k' :: k' != k && k' in s.cache ==> st.state.cache[k'] == s.cache[k']) &&
        (forall k' :: k' != k && k' in s.snapshots ==> st.state.snapshots[k'] == s.snapshots[k'])) &&
      (st.outcome.Fail? ==> st.state.cache == s.cache && st.state.snapshots == s.snapshots && st.state.rows == s.rows)
  {
    SnapshotIsUnchanged(j.action.keyTypeId.keyType, j.values);
  }

  /**
   * `DeleteAction.execute`: one `deleteEntity` call. After a successful call the key is in
   * neither map and every other key keeps its entries; a failed call leaves the key in
   * both maps.
   */
  lemma DeleteStepEffect(j: Job, s: UnitState, online: bool)
    requires j.action.DeleteAction?
    ensures var st := Step(j, s, online);
      var k := j.action.keyTypeId;
      st.state.calls == s.calls + [DeleteCall(j.action.entity.entityType, j.values)] &&
      (st.outcome.Pass? ==>
        k !in st.state.cache && k !in st.state.snapshots &&
        (forall k' :: k' != k ==> (k' in st.state.cache <==> k' in s.cache) && (k' in st.state.snapshots <==> k' in s.snapshots)) &&
        (forall k' :: k' != k && k' in s.cache ==> st.state.cache[k'] == s.cache[k']) &&
        (forall k' :: k' != k && k' in s.snapshots ==> st.state.snapshots[k'] == s.snapshots[k'])) &&
      (st.outcome.Fail? ==> st.state.cache == s.cache && st.state.snapshots == s.snapshots && st.state.rows == s.rows)
  {
  }

  /**
   * A queue runs as its two halves in turn: a failure in the first half stops the run
   * there, and otherwise the second half runs on the state the first half left.
   */
  lemma DrainConcat(a: seq<Job>, b: seq<Job>, s: UnitState, online: bool)
    ensures var d := Drain(a + b, 0, s, online);
      var da := Drain(a, 0, s, online);
      if da.outcome.Fail? then d == da
      else var db := Drain(b, 0, da.state, online); d == Drained(db.outcome, db.state, |a| + db.done)
  {
    RunConcat(Runner(online), a, b, s);
  }

  /**
   * An entity inserted and then deleted in one flush leaves the stored rows as they were
   * and is in neither session map afterwards: the Insert runs before the Delete.
   */
  lemma InsertThenDelete(e: Entity, session: Session, k: KeyTypeId, values: map<string, Value>, s: UnitState)
    requires SaveResult(s.rows, e.entityType, values, true).Ok?
    ensures var q := [Job(InsertAction(e, session, k), values), Job(DeleteAction(e, session, k), values)];
      var d := Drain(q, 0, s, true);
      d.outcome == Pass && d.done == 2 && d.state.rows == s.rows &&
      k !in d.state.cache && k !in d.state.snapshots &&
      d.state.calls == s.calls + [SaveCall(e.entityType, values), DeleteCall(e.entityType, values)]
  {
    var q := [Job(InsertAction(e, session, k), values), Job(DeleteAction(e, session, k), values)];
    var key := RowKey(KeyTypeId(e.entityType, IdValue(e.entityType, values).value));
    assert key !in s.rows;
    var saved := SaveResult(s.rows, e.entityType, values, true).value;
    assert saved == s.rows[key := ColumnNameValues(e.entityType, values).value];
    assert saved - {key} == s.rows;
    var s1 := Step(q[0], s, true).state;
    var s2 := Step(q[1], s1, true).state;
    assert s1.calls == s.calls + [SaveCall(e.entityType, values)];
    assert s2.calls == s1.calls + [DeleteCall(e.entityType, values)];
    DrainStep(q, 0, s, true);
    DrainStep(q, 1, s1, true);
  }

  /** Dropping the last key of a listing of distinct keys leaves one without that key. */
  lemma VisitsPrefix(order: seq<KeyTypeId>, keys: set<KeyTypeId>)
    requires Visits(order, keys, false) && order != []
    ensures order == order[..|order| - 1] + [order[|order| - 1]]
    ensures Visits(order[..|order| - 1], keys, false) && order[|order| - 1] !in order[..|order| - 1]
  {
    var prefix := order[..|order| - 1];
    assert forall i :: 0 <= i < |prefix| ==> prefix[i] == order[i];
    assert order == prefix + [order[|order| - 1]];
    forall i | 0 <= i < |prefix| ensures prefix[i] != order[|order| - 1] {
      assert order[i] != order[|order| - 1];
    }
  }

  /** One more Update action for a target key that has none yet keeps the list a sweep part. */
  lemma PartAppend(added: seq<Action>, k: KeyTypeId, cache: map<KeyTypeId, Entity>, s: Session, targets: set<KeyTypeId>)
    requires IsSweepPart(added, cache, s, targets) && k in targets && k in cache
    requires forall i :: 0 <= i < |added| ==> added[i].keyTypeId != k
    ensures IsSweepPart(added + [UpdateAction(cache[k], s, k)], cache, s, targets)
  {
    var longer := added + [UpdateAction(cache[k], s, k)];
    assert forall i :: 0 <= i < |added| ==> longer[i] == added[i];
  }

  /**
   * Whatever its outcome, a sweep over distinct cache keys queues only Update actions for
   * target keys it visited, bound to the session and to the cached entity, one per key.
   */
  lemma {:induction false} SweepAddsTargets(order: seq<KeyTypeId>, cache: map<KeyTypeId, Entity>, values: map<KeyTypeId, map<string, Value>>,
                                            snapshots: map<KeyTypeId, seq<Value>>, s: Session)
    requires Visits(order, cache.Keys, false) && cache.Keys <= values.Keys
    decreases |order|
    ensures var sw := Sweep(order, cache, values, snapshots, s);
      IsSweepPart(sw.added, cache, s, SweepTargets(cache, values, snapshots)) &&
      forall i :: 0 <= i < |sw.added| ==> sw.added[i].keyTypeId in order
  {
    if order != [] {
      var prefix, k := order[..|order| - 1], order[|order| - 1];
      VisitsPrefix(order, cache.Keys);
      SweepAddsTargets(prefix, cache, values, snapshots, s);
      assert Sweep(order, cache, values, snapshots, s) == SweepLast(order, cache, values, snapshots, s);
      var before := Sweep(prefix, cache, values, snapshots, s);
      assert forall i :: 0 <= i < |before.added| ==> before.added[i].keyTypeId in prefix;
      if before.outcome.Pass? {
        var visit := SweepVisit(k, cache[k], values[k], snapshots, s);
        if visit.added != [] {
          assert visit.added == [UpdateAction(cache[k], s, k)];
          assert k in SweepTargets(cache, values, snapshots);
          PartAppend(before.added, k, cache, s, SweepTargets(cache, values, snapshots));
        }
      }
    }
  }

  /** A sweep that passed met no visited changed entry whose id could not be read. */
  lemma {:induction false} SweepPassClear(order: seq<KeyTypeId>, cache: map<KeyTypeId, Entity>, values: map<KeyTypeId, map<string, Value>>,
                                          snapshots: map<KeyTypeId, seq<Value>>, s: Session)
    requires Visits(order, cache.Keys, false) && cache.Keys <= values.Keys
    requires Sweep(order, cache, values, snapshots, s).outcome.Pass?
    decreases |order|
    ensures forall k :: k in order ==> k !in SweepBlocked(cache, values, snapshots)
  {
    if order != [] {
      var prefix, k := order[..|order| - 1], order[|order| - 1];
      VisitsPrefix(order, cache.Keys);
      assert Sweep(order, cache, values, snapshots, s) == SweepLast(order, cache, values, snapshots, s);
      SweepPassClear(prefix, cache, values, snapshots, s);
    }
  }

  /** A sweep that passed queued an action for every visited target key. */
  lemma {:induction false} SweepPassCovers(order: seq<KeyTypeId>, cache: map<KeyTypeId, Entity>, values: map<KeyTypeId, map<string, Value>>,
                                           snapshots: map<KeyTypeId, seq<Value>>, s: Session)
    requires Visits(order, cache.Keys, false) && cache.Keys <= values.Keys
    requires Sweep(order, cache, values, snapshots, s).outcome.Pass?
    decreases |order|
    ensures var added := Sweep(order, cache, values, snapshots, s).added;
      forall k :: k in order && k in SweepTargets(cache, values, snapshots) ==>
        exists i :: 0 <= i < |added| && added[i].keyTypeId == k
  {
    if order != [] {
      var prefix, k := order[..|order| - 1], order[|order| - 1];
      VisitsPrefix(order, cache.Keys);
      assert Sweep(order, cache, values, snapshots, s) == SweepLast(order, cache, values, snapshots, s);
      var before := Sweep(prefix, cache, values, snapshots, s);
      SweepPassCovers(prefix, cache, values, snapshots, s);
      var visit := SweepVisit(k, cache[k], values[k], snapshots, s);
      var added := before.added + visit.added;
      forall k' | k' in order && k' in SweepTargets(cache, values, snapshots)
        ensures exists i :: 0 <= i < |added| && added[i].keyTypeId == k'
      {
        if k' == k {
          assert added[|before.added|].keyTypeId == k;
        } else {
          assert k' in prefix;
          var i :| 0 <= i < |before.added| && before.added[i].keyTypeId == k';
          assert added[i] == before.added[i];
        }
      }
    }
  }

  /** A sweep that failed met a visited changed entry whose id could not be read, with that error. */
  lemma {:induction false} SweepFailBlocked(order: seq<KeyTypeId>, cache: map<KeyTypeId, Entity>, values: map<KeyTypeId, map<string, Value>>,
                                            snapshots: map<KeyTypeId, seq<Value>>, s: Session)
    requires Visits(order, cache.Keys, false) && cache.Keys <= values.Keys
    requires Sweep(order, cache, values, snapshots, s).outcome.Fail?
    decreases |order|
    ensures exists k ::
              k in order && k in SweepBlocked(cache, values, snapshots) &&
              IdValue(cache[k].entityType, values[k]) == Err(Sweep(order, cache, values, snapshots, s).outcome.error)
  {
    var prefix, k := order[..|order| - 1], order[|order| - 1];
    VisitsPrefix(order, cache.Keys);
    assert Sweep(order, cache, values, snapshots, s) == SweepLast(order, cache, values, snapshots, s);
    var before := Sweep(prefix, cache, values, snapshots, s);
    if before.outcome.Fail? {
      SweepFailBlocked(prefix, cache, values, snapshots, s);
      var k' :| k' in prefix && k' in SweepBlocked(cache, values, snapshots) &&
        IdValue(cache[k'].entityType, values[k']) == Err(before.outcome.error);
      assert k' in order;
    } else {
      assert k in SweepBlocked(cache, values, snapshots);
    }
  }

  /**
   * A complete sweep (every cache key visited once) passes exactly when no changed entry
   * has an unreadable id. When it passes it queued one Update action for each changed entry
   * whose id field still equals its key's id, and nothing else; an entry whose id field was
   * changed is handed to `persist` and gets no action. When it fails, a changed entry's id
   * could not be read and that is the error.
   */
  lemma SweepSpec(order: seq<KeyTypeId>, cache: map<KeyTypeId, Entity>, values: map<KeyTypeId, map<string, Value>>,
                  snapshots: map<KeyTypeId, seq<Value>>, s: Session)
    requires Visits(order, cache.Keys, true) && cache.Keys <= values.Keys
    ensures var sw := Sweep(order, cache, values, snapshots, s);
      (sw.outcome.Pass? <==> SweepBlocked(cache, values, snapshots) == {}) &&
      IsSweepPart(sw.added, cache, s, SweepTargets(cache, values, snapshots)) &&
      (sw.outcome.Pass? ==> SweepCovers(sw.added, SweepTargets(cache, values, snapshots))) &&
      (sw.outcome.Fail? ==> exists k ::
                              k in SweepBlocked(cache, values, snapshots) &&
                              IdValue(cache[k].entityType, values[k]) == Err(sw.outcome.error))
  {
    SweepAddsTargets(order, cache, values, snapshots, s);
    var sw := Sweep(order, cache, values, snapshots, s);
    if sw.outcome.Pass? {
      SweepPassClear(order, cache, values, snapshots, s);
      SweepPassCovers(order, cache, values, snapshots, s);
    } else {
      SweepFailBlocked(order, cache, values, snapshots, s);
    }
    var targets := SweepTargets(cache, values, snapshots);
    assert (set k | k in order && k in targets) == targets;
  }
}
