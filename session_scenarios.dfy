/**
 * The cases of `SessionTest` as client code of the session, over an arbitrary stored table
 * instead of a live database. Each method runs the calls the test makes and states what
 * the test checks, under the conditions the test's fixture sets up. The fixture's `Person`
 * is described by its shape, so the cases hold for every entity type laid out like it.
 */
module SessionScenarios {
  import opened Errors
  import opened Entities
  import opened Keys
  import opened ReflectionUtils
  import opened Utils
  import opened Dao
  import opened BibernateOrm
  import opened SessionProperties
  import opened ActionQueue

  /**
   * Laid out like the test fixture `Person`: an @Id field `id` in column `id`, then
   * `firstName` and `lastName` in columns `first_name` and `last_name`, one constructor.
   */
  predicate PersonShape(t: EntityType) {
    |t.fields| == 3 && t.constructors == 1 &&
    t.fields[0] == FieldDecl("id", Some("id"), true, Boxed(LongBox)) &&
    t.fields[1] == FieldDecl("firstName", Some("first_name"), false, StringType) &&
    t.fields[2] == FieldDecl("lastName", Some("last_name"), false, StringType)
  }

  /** Such a type has its sole @Id first and distinct field and column names. */
  lemma PersonFacts(t: EntityType)
    requires PersonShape(t)
    ensures IsSoleId(t.fields, 0) && DistinctNames(t.fields) && DistinctColumns(t.fields)
    ensures ColumnName(t.fields[0]) == "id" && ColumnName(t.fields[1]) == "first_name" &&
      ColumnName(t.fields[2]) == "last_name"
  {
  }

  /** The field values of a `Person` whose three fields are set. */
  function PersonValues(id: JavaLong, firstName: string, lastName: string): map<string, Value> {
    map["id" := Num(LongBox, id), "firstName" := Str(firstName), "lastName" := Str(lastName)]
  }

  /** `new Person()` followed by the three setters of the tests. */
  method NewPerson(t: EntityType, id: JavaLong, firstName: string, lastName: string) returns (p: Entity)
    requires PersonShape(t)
    ensures fresh(p) && p.entityType == t && p.values == PersonValues(id, firstName, lastName)
  {
    p := new Entity(t);
    assert t.fields[0].name == "id" && t.fields[1].name == "firstName" && t.fields[2].name == "lastName";
    p.Set("id", Num(LongBox, id));
    p.Set("firstName", Str(firstName));
    p.Set("lastName", Str(lastName));
  }

  /** A `Person` with every field set has the id it was given and can be saved under it. */
  lemma PersonSaves(rows: Rows, t: EntityType, id: JavaLong, firstName: string, lastName: string)
    requires PersonShape(t) && KeyTypeId(t, Num(LongBox, id)) !in rows
    ensures IdValue(t, PersonValues(id, firstName, lastName)) == Ok(Num(LongBox, id))
    ensures SaveResult(rows, t, PersonValues(id, firstName, lastName), true).Ok?
  {
    var values := PersonValues(id, firstName, lastName);
    PersonFacts(t);
    assert FieldValue(values, t.fields[0].name) == Num(LongBox, id);
    ColumnNameValuesSpec(t, values);
    assert forall i :: 0 <= i < |t.fields| ==> FieldValue(values, t.fields[i].name) != Null;
  }

  /** A session that is consistent, not closed, and whose storage answers. */
  predicate Open(s: Session)
    reads s, s.dao
  {
    s.Valid() && !s.isClosed && s.dao.online
  }

  /**
   * `find` twice with one (type, id): once the first call found the entity, the second
   * returns the identical instance and makes no storage call of its own.
   */
  method FindTwice(s: Session, t: EntityType, id: Value) returns (first: Result<Option<Entity>>, second: Result<Option<Entity>>)
    requires s.Valid() && !s.isClosed && id != Null
    modifies s, s.dao
    ensures first.Ok? && first.value.Some? ==> second == first
    ensures first.Ok? && first.value.Some? ==> |s.dao.calls| <= |old(s.dao.calls)| + 1
  {
    first := s.Find(t, id);
    second := s.Find(t, id);
  }

  /**
   * `shouldNotDeleteWithoutFlush`: after `remove` of a found entity and before `flush`, a
   * `find` still returns the same instance and the stored row is still there.
   */
  method RemoveWithoutFlush(s: Session, t: EntityType, id: Value) returns (found: Result<Option<Entity>>, again: Result<Option<Entity>>)
    requires s.Valid() && !s.isClosed && id != Null
    modifies s, s.dao
    ensures found.Ok? && found.value.Some? ==>
      again == found && s.dao.rows == old(s.dao.rows) && |s.queue| == |old(s.queue)| + 1 &&
      s.queue[|old(s.queue)|].DeleteAction?
  {
    found := s.Find(t, id);
    if found.Ok? && found.value.Some? {
      var removed := s.Remove(found.value.value);
    }
    again := s.Find(t, id);
  }

  /**
   * `update` of an entity the session does not track persists it, and a `remove` right
   * after queues its deletion behind the insert; storage is not touched yet.
   */
  method UpdateThenRemove(s: Session, p: Entity, key: KeyTypeId) returns (updated: Outcome, removed: Outcome)
    requires s.Valid() && !s.isClosed && p !in s.cache.Values
    requires IdValue(p.entityType, p.values) == Ok(key.id) && key.keyType == p.entityType
    modifies s
    ensures s.Valid() && !s.isClosed && updated == Pass && removed == Pass
    ensures s.State() == old(s.State()).(cache := old(s.cache)[key := p], snapshots := old(s.snapshots)[key := SnapshotOf(key.keyType, p.values)])
    ensures s.queue == old(s.queue) + [InsertAction(p, s, key), DeleteAction(p, s, key)]
  {
    updated := s.Update(p);
    assert s.queue == old(s.queue) + [InsertAction(p, s, key)];
    removed := s.Remove(p);
  }

  /**
   * `flush` of an insert followed by a delete of one entity whose save succeeds: both run,
   * the stored rows end as they began and the entity is no longer tracked.
   */
  method FlushInsertDelete(s: Session, p: Entity, key: KeyTypeId) returns (flushed: Outcome)
    requires Open(s) && s.queue == [InsertAction(p, s, key), DeleteAction(p, s, key)]
    requires SaveResult(s.dao.rows, p.entityType, p.values, true).Ok?
    modifies s, s.dao
    ensures Open(s)
    ensures flushed == Pass && s.dao.rows == old(s.dao.rows) && key !in s.cache && s.queue == []
  {
    ghost var before := s.State();
    ghost var jobs;
    flushed, jobs := s.Flush();
    assert jobs == [Job(InsertAction(p, s, key), p.values), Job(DeleteAction(p, s, key), p.values)];
    InsertThenDelete(p, s, key, p.values, before);
  }

  /**
   * `shouldFirstlyPersistAndDeleteAfterFlush`: a new `Person` passed to `update` (which
   * persists it) and then to `remove`, then `flush`: the insert runs before the delete, so
   * no row is left and a later `find` comes back empty.
   */
  method UpdateRemoveFlush(s: Session, t: EntityType, id: JavaLong) returns (flushed: Outcome, found: Result<Option<Entity>>)
    requires Open(s) && s.queue == [] && PersonShape(t) && KeyTypeId(t, Num(LongBox, id)) !in s.dao.rows
    modifies s, s.dao
    ensures flushed == Pass && found == Ok(None) && s.dao.rows == old(s.dao.rows)
  {
    var key := KeyTypeId(t, Num(LongBox, id));
    var p := NewPerson(t, id, "Denys", "Shelupets");
    PersonSaves(s.dao.rows, t, id, "Denys", "Shelupets");
    var updated, removed := UpdateThenRemove(s, p, key);
    flushed := FlushInsertDelete(s, p, key);
    found := s.Find(t, Num(LongBox, id));
  }

  /**
   * `flush` of a single insert whose save succeeds: the row is stored, the cache is as
   * `persist` left it and the queue is empty.
   */
  method FlushInsert(s: Session, p: Entity, key: KeyTypeId) returns (flushed: Outcome)
    requires Open(s) && s.queue == [InsertAction(p, s, key)]
    requires SaveResult(s.dao.rows, p.entityType, p.values, true).Ok?
    modifies s, s.dao
    ensures Open(s) && flushed == Pass && s.queue == [] && s.cache == old(s.cache)
    ensures s.dao.rows == SaveResult(old(s.dao.rows), p.entityType, p.values, true).value
  {
    ghost var before := s.State();
    ghost var jobs;
    flushed, jobs := s.Flush();
    assert jobs == [Job(InsertAction(p, s, key), p.values)];
    var after := Step(jobs[0], before, true).state;
    DrainStep(jobs, 0, before, true);
    assert Drain(jobs, 1, after, true) == Drained(Pass, after, 1);
  }

  /**
   * `persist` of a new `Person` with every field set: it is tracked under its id and its
   * insert is queued; storage is not touched yet.
   */
  method PersistPerson(s: Session, t: EntityType, id: JavaLong) returns (p: Entity, persisted: Outcome)
    requires Open(s) && s.queue == [] && PersonShape(t) && KeyTypeId(t, Num(LongBox, id)) !in s.dao.rows
    modifies s
    ensures Open(s) && persisted == Pass && p.entityType == t && p.values == PersonValues(id, "Denys", "Shelupets")
    ensures s.dao.rows == old(s.dao.rows) && s.queue == [InsertAction(p, s, KeyTypeId(t, Num(LongBox, id)))]
    ensures KeyTypeId(t, Num(LongBox, id)) in s.cache && s.cache[KeyTypeId(t, Num(LongBox, id))] == p
  {
    p := NewPerson(t, id, "Denys", "Shelupets");
    PersonSaves(s.dao.rows, t, id, "Denys", "Shelupets");
    persisted := s.Persist(p);
  }

  /**
   * `shouldSavePerson`: a new `Person` passed to `persist` and then `flush`: its row is
   * stored with its id, and a `find` returns the instance the session already tracks.
   */
  method PersistFlushFind(s: Session, t: EntityType, id: JavaLong)
      returns (persisted: Outcome, flushed: Outcome, found: Result<Option<Entity>>)
    requires Open(s) && s.queue == [] && PersonShape(t) && KeyTypeId(t, Num(LongBox, id)) !in s.dao.rows
    modifies s, s.dao
    ensures persisted == Pass && flushed == Pass && found.Ok? && found.value.Some?
    ensures FieldValue(found.value.value.values, "id") == Num(LongBox, id)
    ensures var selected := SelectResult(s.dao.rows, KeyTypeId(t, Num(LongBox, id)), true);
      selected.Ok? && selected.value.Some? && FieldValue(selected.value.value, "id") == Num(LongBox, id)
  {
    var key := KeyTypeId(t, Num(LongBox, id));
    var p;
    p, persisted := PersistPerson(s, t, id);
    PersonSaves(s.dao.rows, t, id, "Denys", "Shelupets");
    PersonFacts(t);
    SaveThenSelect(s.dao.rows, t, p.values);
    flushed := FlushInsert(s, p, key);
    found := s.Find(t, Num(LongBox, id));
    assert t.fields[0].name == "id";
  }

  /**
   * A stored `Person` row as the test fixture's populate script leaves it: every column is
   * there, the id column holds the row's id as the `bigint` it reads back as, and the name
   * columns hold text or null.
   */
  predicate PersonRow(rows: Rows, t: EntityType, id: JavaLong) {
    var key := KeyTypeId(t, Num(LongBox, id));
    key in rows && "id" in rows[key] && "first_name" in rows[key] && "last_name" in rows[key] &&
    rows[key]["id"] == Num(LongBox, id) && !rows[key]["first_name"].Num? && !rows[key]["last_name"].Num?
  }

  /** The values `selectEntity` reads for such a row: its id and both names. */
  lemma PersonHydrates(rows: Rows, t: EntityType, id: JavaLong)
    requires PersonShape(t) && PersonRow(rows, t, id)
    ensures var key := KeyTypeId(t, Num(LongBox, id));
      var selected := SelectResult(rows, key, true);
      selected.Ok? && selected.value.Some? &&
      FieldValue(selected.value.value, "id") == Num(LongBox, id) &&
      FieldValue(selected.value.value, "firstName") == rows[key]["first_name"] &&
      FieldValue(selected.value.value, "lastName") == rows[key]["last_name"] &&
      IdValue(t, selected.value.value) == Ok(Num(LongBox, id))
  {
    var key := KeyTypeId(t, Num(LongBox, id));
    var row := rows[key];
    PersonFacts(t);
    CoercedSpec(t.fields[0], row["id"]);
    CoercedSpec(t.fields[1], row["first_name"]);
    CoercedSpec(t.fields[2], row["last_name"]);
    HydrateIntoContents(t.fields, row, map[]);
    assert FieldValue(SelectResult(rows, key, true).value.value, t.fields[0].name) == Num(LongBox, id);
  }

  /**
   * `find` of a stored `Person` the session does not track yet: a fresh instance holding
   * the row's values, now cached under its key and nowhere else.
   */
  method FindStored(s: Session, t: EntityType, id: JavaLong) returns (e: Entity)
    requires Open(s) && PersonShape(t) && PersonRow(s.dao.rows, t, id) && KeyTypeId(t, Num(LongBox, id)) !in s.cache
    modifies s, s.dao
    ensures Open(s) && s.dao.rows == old(s.dao.rows) && s.queue == old(s.queue)
    ensures fresh(e) && e.entityType == t && IdValue(e.entityType, e.values) == Ok(Num(LongBox, id))
    ensures SelectResult(s.dao.rows, KeyTypeId(t, Num(LongBox, id)), true) == Ok(Some(e.values))
    ensures s.cache == old(s.cache)[KeyTypeId(t, Num(LongBox, id)) := e]
    ensures forall k :: k in s.cache && s.cache[k] == e ==> k == KeyTypeId(t, Num(LongBox, id))
  {
    PersonHydrates(s.dao.rows, t, id);
    var found := s.Find(t, Num(LongBox, id));
    e := found.value.value;
  }

  /** `remove` of an entity cached under exactly one key queues its deletion under that key. */
  method RemoveTracked(s: Session, e: Entity, key: KeyTypeId) returns (removed: Outcome)
    requires s.Valid() && !s.isClosed && key in s.cache && s.cache[key] == e
    requires forall k :: k in s.cache && s.cache[k] == e ==> k == key
    modifies s
    ensures s.Valid() && !s.isClosed && s.State() == old(s.State())
    ensures removed == Pass && s.queue == old(s.queue) + [DeleteAction(e, s, key)]
  {
    removed := s.Remove(e);
  }

  /**
   * `flush` of a single delete of a tracked entity whose id can be read: the row with that
   * id is gone and the entity is no longer tracked.
   */
  method FlushDelete(s: Session, e: Entity, key: KeyTypeId) returns (flushed: Outcome)
    requires Open(s) && s.queue == [DeleteAction(e, s, key)]
    requires IdValue(e.entityType, e.values) == Ok(key.id) && e.entityType == key.keyType
    modifies s, s.dao
    ensures Open(s)
    ensures flushed == Pass && key !in s.cache && s.queue == [] && s.dao.rows == old(s.dao.rows) - {RowKey(key)}
  {
    ghost var before := s.State();
    ghost var jobs;
    flushed, jobs := s.Flush();
    assert jobs == [Job(DeleteAction(e, s, key), e.values)];
    DrainStep(jobs, 0, before, true);
    DeleteStepEffect(jobs[0], before, true);
  }

  /**
   * `shouldRemovePerson`: `find` a stored `Person`, `remove` it and `flush`: its row is
   * deleted and a later `find` consults storage and comes back empty.
   */
  method RemoveFlush(s: Session, t: EntityType, id: JavaLong) returns (removed: Outcome, flushed: Outcome, found: Result<Option<Entity>>)
    requires Open(s) && s.queue == [] && PersonShape(t) && PersonRow(s.dao.rows, t, id) && KeyTypeId(t, Num(LongBox, id)) !in s.cache
    modifies s, s.dao
    ensures removed == Pass && flushed == Pass && found == Ok(None)
    ensures s.dao.rows == old(s.dao.rows) - {KeyTypeId(t, Num(LongBox, id))}
  {
    var key := KeyTypeId(t, Num(LongBox, id));
    assert RowKey(key) == key;
    var e := FindStored(s, t, id);
    removed := RemoveTracked(s, e, key);
    flushed := FlushDelete(s, e, key);
    found := s.Find(t, Num(LongBox, id));
  }

  /**
   * After a `close` that completed, every operation, a second `close` included, is
   * rejected with "Session is closed".
   */
  method ClosedRejects(s: Session, t: EntityType, id: Value, e: Entity?) returns (closed: Outcome, find: Result<Option<Entity>>,
                                                                                    persisted: Outcome, again: Outcome)
    requires s.Valid()
    modifies s, s.dao
    ensures closed == Pass ==>
      s.isClosed && find == Err(SessionClosed) && persisted == Fail(SessionClosed) && again == Fail(SessionClosed)
  {
    ghost var swept, order, jobs;
    closed, swept, order, jobs := s.Close();
    find := s.Find(t, id);
    persisted := s.Persist(e);
    again, swept, order, jobs := s.Close();
  }

  /**
   * `find` of a stored `Person` by its id boxed in `b`, in a session that tracks nothing,
   * then both setters: the one cached entity holds the new names over the values `read`
   * from the row, and its snapshot is still that of the row as it was read. Its id field
   * is a `Long`, whatever wrapper the key's id is in.
   */
  method FindRenamed(s: Session, t: EntityType, b: Box, id: JavaLong, first: string, last: string)
      returns (e: Entity, ghost read: map<string, Value>)
    requires Open(s) && s.cache == map[] && s.queue == [] && PersonShape(t) && PersonRow(s.dao.rows, t, id)
    modifies s, s.dao
    ensures Open(s) && s.dao.rows == old(s.dao.rows) && s.queue == [] && e.entityType == t
    ensures var key := KeyTypeId(t, Num(b, id));
      var row := s.dao.rows[KeyTypeId(t, Num(LongBox, id))];
      s.cache == map[key := e] && s.snapshots == map[key := SnapshotOf(t, read)] &&
      e.values == read["firstName" := Str(first)]["lastName" := Str(last)] &&
      FieldValue(read, "firstName") == row["first_name"] && FieldValue(read, "lastName") == row["last_name"] &&
      IdValue(t, e.values) == Ok(Num(LongBox, id))
  {
    PersonHydrates(s.dao.rows, t, id);
    SelectIgnoresBox(s.dao.rows, t, b, LongBox, id, true);
    var found := s.Find(t, Num(b, id));
    e := found.value.value;
    read := e.values;
    assert t.fields[1].name == "firstName" && t.fields[2].name == "lastName";
    e.Set("firstName", Str(first));
    e.Set("lastName", Str(last));
    PersonFacts(t);
  }

  /** The first two keys of a listing of distinct keys differ. */
  lemma FirstTwoDiffer(order: seq<KeyTypeId>)
    requires |order| >= 2 && forall i, j :: 0 <= i < j < |order| ==> order[i] != order[j]
    ensures order[0] != order[1]
  {
  }

  /** Distinct keys drawn from a single key are none or that key. */
  lemma OneKeyOrder(order: seq<KeyTypeId>, key: KeyTypeId)
    requires Visits(order, {key}, false)
    ensures order == [] || order == [key]
  {
    if |order| == 1 {
      assert order[0] in {key};
    } else if |order| >= 2 {
      // Two distinct keys cannot both be drawn from {key}. Any checked step here runs on
      // contradictory facts, so the helper states the clash and the branch closes with a
      // literal `assert false`.
      FirstTwoDiffer(order);
      assert false;
    }
  }

  /**
   * Renaming changes the entity against its snapshot unless both new names equal the
   * ones it was read with.
   */
  lemma RenamedChanged(t: EntityType, read: map<string, Value>, first: string, last: string)
    requires PersonShape(t)
    requires FieldValue(read, "firstName") != Str(first) || FieldValue(read, "lastName") != Str(last)
    ensures Changed(SnapshotOf(t, read), t, read["firstName" := Str(first)]["lastName" := Str(last)])
  {
    var values := read["firstName" := Str(first)]["lastName" := Str(last)];
    var i := if FieldValue(read, "firstName") != Str(first) then 1 else 2;
    assert t.fields[i] in multiset(FieldsByName(t));
    var j :| 0 <= j < |FieldsByName(t)| && FieldsByName(t)[j] == t.fields[i];
    assert SnapshotOf(t, read)[j] != FieldValue(values, FieldsByName(t)[j].name);
  }

  /**
   * The sweep over a session tracking one entity whose id can be read: no failure, and an
   * Update action for it exactly when it changed and its id still equals its key's id.
   */
  lemma SweepOne(key: KeyTypeId, e: Entity, values: map<string, Value>, snapshot: seq<Value>, s: Session)
    requires IdValue(e.entityType, values).Ok? && |snapshot| == |key.keyType.fields|
    ensures Sweep([key], map[key := e], map[key := values], map[key := snapshot], s) ==
      Swept(Pass, if Changed(snapshot, key.keyType, values) && IdValue(e.entityType, values).value == key.id
        then [UpdateAction(e, s, key)] else [])
  {
    assert [key][..0] == [];
    assert Sweep([], map[key := e], map[key := values], map[key := snapshot], s) == Swept(Pass, []);
    assert Sweep([key], map[key := e], map[key := values], map[key := snapshot], s) ==
      SweepLast([key], map[key := e], map[key := values], map[key := snapshot], s);
  }

  /**
   * What `close` reports for a session tracking one entity whose id can be read, in terms
   * of its sweep order and its flushed jobs: the sweep passed and queued the entity's
   * Update action exactly when it changed and its id still equals its key's id.
   */
  lemma CloseOneJobs(order: seq<KeyTypeId>, swept: seq<Action>, jobs: seq<Job>, key: KeyTypeId, e: Entity,
                     values: map<string, Value>, snapshot: seq<Value>, s: Session)
    requires IdValue(e.entityType, values).Ok? && |snapshot| == |key.keyType.fields|
    requires Visits(order, {key}, false)
    requires var sw := Sweep(order, map[key := e], map[key := values], map[key := snapshot], s);
      swept == sw.added && (sw.outcome.Pass? ==> Visits(order, {key}, true)) &&
      (sw.outcome.Pass? ==> |jobs| == |swept| && forall n :: 0 <= n < |swept| ==> jobs[n] == Job(swept[n], swept[n].entity.values))
    requires e.values == values
    ensures Sweep(order, map[key := e], map[key := values], map[key := snapshot], s).outcome.Pass?
    ensures jobs == if Changed(snapshot, key.keyType, values) && IdValue(e.entityType, values).value == key.id
      then [Job(UpdateAction(e, s, key), values)] else []
  {
    OneKeyOrder(order, key);
    SweepOne(key, e, values, snapshot, s);
    assert order == [key];
  }

  /**
   * `close` of a session tracking one entity whose id can be read: the sweep queues its
   * Update action exactly when it changed and its id still equals its key's id, and the
   * flush of that queue decides the outcome.
   */
  method CloseOne(s: Session, key: KeyTypeId, e: Entity, ghost snapshot: seq<Value>) returns (closed: Outcome, ghost jobs: seq<Job>)
    requires Open(s) && s.cache == map[key := e] && s.snapshots == map[key := snapshot] && s.queue == []
    requires IdValue(e.entityType, e.values).Ok?
    modifies s, s.dao
    ensures s.dao.online && e.values == old(e.values)
    ensures jobs == if Changed(snapshot, key.keyType, e.values) && IdValue(e.entityType, e.values).value == key.id
      then [Job(UpdateAction(e, s, key), e.values)] else []
    ensures var d := Drain(jobs, 0, old(s.State()), true);
      closed == d.outcome && s.State() == d.state && s.isClosed == d.outcome.Pass?
  {
    ghost var values := CachedValues(s.cache);
    assert values == map[key := e.values];
    ghost var swept, order;
    closed, swept, order, jobs := s.Close();
    CloseOneJobs(order, swept, jobs, key, e, e.values, snapshot, s);
  }

  /** Updating a `Person` row keeps its id and writes both names the entity carries. */
  lemma UpdatedPersonRow(row: Row, t: EntityType, values: map<string, Value>)
    requires PersonShape(t) && "id" in row && "first_name" in row && "last_name" in row
    ensures var r := UpdatedRow(row, t.fields, values);
      "id" in r && r["id"] == row["id"] && "first_name" in r && "last_name" in r &&
      r["first_name"] == FieldValue(values, "firstName") && r["last_name"] == FieldValue(values, "lastName")
  {
    PersonFacts(t);
    assert IsIdColumn("id") && !IsIdColumn(ColumnName(t.fields[1])) && !IsIdColumn(ColumnName(t.fields[2]));
    UpdatedRowContents(row, t.fields, values);
  }

  /** `updateEntity` of a stored `Person` replaces its row by the updated one. */
  lemma UpdateStored(rows: Rows, t: EntityType, id: JavaLong, values: map<string, Value>)
    requires PersonShape(t) && KeyTypeId(t, Num(LongBox, id)) in rows
    ensures var key := KeyTypeId(t, Num(LongBox, id));
      UpdateResult(rows, t, values, Num(LongBox, id), true) == Ok(rows[key := UpdatedRow(rows[key], t.fields, values)])
  {
    PersonFacts(t);
    assert !IsIdColumn(ColumnName(t.fields[1]));
    assert t.fields[1] in UpdateFields(t.fields);
  }

  /**
   * Flushing the Update action of a stored `Person` whose names are text: it passes, and
   * the row keeps its id and holds both names the entity carries.
   */
  lemma UpdateFlushed(e: Entity, session: Session, t: EntityType, id: JavaLong, values: map<string, Value>, st: UnitState)
    requires PersonShape(t) && e.entityType == t && PersonRow(st.rows, t, id)
    requires !FieldValue(values, "firstName").Num? && !FieldValue(values, "lastName").Num?
    ensures var key := KeyTypeId(t, Num(LongBox, id));
      var d := Drain([Job(UpdateAction(e, session, key), values)], 0, st, true);
      d.outcome == Pass && d.done == 1 && PersonRow(d.state.rows, t, id) &&
      d.state.rows[key]["first_name"] == FieldValue(values, "firstName") &&
      d.state.rows[key]["last_name"] == FieldValue(values, "lastName")
  {
    var key := KeyTypeId(t, Num(LongBox, id));
    var q := [Job(UpdateAction(e, session, key), values)];
    UpdateStored(st.rows, t, id, values);
    UpdatedPersonRow(st.rows[key], t, values);
    var rows := st.rows[key := UpdatedRow(st.rows[key], t.fields, values)];
    var st1 := UnitState(st.cache[key := e], st.snapshots[key := SnapshotOf(t, values)], rows,
      st.calls + [UpdateCall(t, values, Num(LongBox, id))]);
    assert Step(q[0], st, true) == Stepped(Pass, st1);
    DrainStep(q, 0, st, true);
    assert Drain(q, 1, st1, true) == Drained(Pass, st1, 1);
  }

  /**
   * `shouldUpdatePersonIntoDbWhenCloseSession`, first half: `find` a stored `Person`,
   * change both names and `close`: the sweep queues its update, the flush writes both
   * names into its row, and the session ends closed.
   */
  method CloseWritesBack(s: Session, t: EntityType, id: JavaLong, first: string, last: string) returns (closed: Outcome)
    requires Open(s) && s.cache == map[] && s.queue == [] && PersonShape(t) && PersonRow(s.dao.rows, t, id)
    modifies s, s.dao
    ensures closed == Pass && s.isClosed && s.dao.online && PersonRow(s.dao.rows, t, id)
    ensures var row := s.dao.rows[KeyTypeId(t, Num(LongBox, id))];
      row["first_name"] == Str(first) && row["last_name"] == Str(last)
  {
    var key := KeyTypeId(t, Num(LongBox, id));
    var e;
    ghost var read;
    e, read := FindRenamed(s, t, LongBox, id, first, last);
    ghost var before := s.State();
    ghost var jobs;
    closed, jobs := CloseOne(s, key, e, SnapshotOf(t, read));
    if Changed(SnapshotOf(t, read), t, e.values) {
      UpdateFlushed(e, s, t, id, e.values, before);
    } else {
      if FieldValue(read, "firstName") != Str(first) || FieldValue(read, "lastName") != Str(last) {
        RenamedChanged(t, read, first, last);
      }
      assert Drain(jobs, 0, before, true) == Drained(Pass, before, 0);
    }
  }
  /** A new session over the same storage finds the stored `Person` with the row's values. */
  method ReopenFind(dao: EntityDao, t: EntityType, id: JavaLong) returns (found: Result<Option<Entity>>)
    requires dao.online && PersonShape(t) && PersonRow(dao.rows, t, id)
    modifies dao
    ensures found.Ok? && found.value.Some?
    ensures var p := found.value.value.values;
      var row := old(dao.rows)[KeyTypeId(t, Num(LongBox, id))];
      FieldValue(p, "id") == Num(LongBox, id) && FieldValue(p, "firstName") == row["first_name"] &&
      FieldValue(p, "lastName") == row["last_name"]
  {
    PersonHydrates(dao.rows, t, id);
    var session := new Session(dao);
    found := session.Find(t, Num(LongBox, id));
  }

  /**
   * `shouldUpdatePersonIntoDbWhenCloseSession`: after the close, a `find` in a new session
   * over the same storage returns the `Person` with its id and both changed names.
   */
  method CloseThenReopen(s: Session, t: EntityType, id: JavaLong, first: string, last: string)
      returns (closed: Outcome, found: Result<Option<Entity>>)
    requires Open(s) && s.cache == map[] && s.queue == [] && PersonShape(t) && PersonRow(s.dao.rows, t, id)
    modifies s, s.dao
    ensures closed == Pass && found.Ok? && found.value.Some?
    ensures var p := found.value.value.values;
      FieldValue(p, "id") == Num(LongBox, id) && FieldValue(p, "firstName") == Str(first) && FieldValue(p, "lastName") == Str(last)
  {
    closed := CloseWritesBack(s, t, id, first, last);
    found := ReopenFind(s.dao, t, id);
  }

  /**
   * `find` of one stored `Person` by an `Integer` id and then by a `Long` id with the same
   * number: the keys differ, as `Integer.equals(Long)` is false, so each call selects the
   * row and the session ends up tracking two instances of it.
   */
  method FindIntegerThenLong(s: Session, t: EntityType, id: JavaLong) returns (byInteger: Entity, byLong: Entity)
    requires Open(s) && s.cache == map[] && PersonShape(t) && PersonRow(s.dao.rows, t, id) && InRange(IntegerBox, id)
    modifies s, s.dao
    ensures byInteger != byLong && byInteger.values == byLong.values
    ensures s.cache == map[KeyTypeId(t, Num(IntegerBox, id)) := byInteger, KeyTypeId(t, Num(LongBox, id)) := byLong]
    ensures s.dao.calls == old(s.dao.calls) + [SelectCall(KeyTypeId(t, Num(IntegerBox, id))), SelectCall(KeyTypeId(t, Num(LongBox, id)))]
  {
    PersonHydrates(s.dao.rows, t, id);
    SelectIgnoresBox(s.dao.rows, t, IntegerBox, LongBox, id, true);
    var first := s.Find(t, Num(IntegerBox, id));
    byInteger := first.value.value;
    var second := s.Find(t, Num(LongBox, id));
    byLong := second.value.value;
  }

  /**
   * `find` of a stored `Person` by an `Integer` id, both setters and `close`: the entity's
   * `Long` id does not equal the `Integer` in its key, so the sweep hands it to `persist`,
   * which returns at once for a tracked entity. The close passes and writes nothing.
   */
  method IntegerKeyCloseWritesNothing(s: Session, t: EntityType, id: JavaLong, first: string, last: string) returns (closed: Outcome)
    requires Open(s) && s.cache == map[] && s.queue == [] && PersonShape(t) && PersonRow(s.dao.rows, t, id)
    requires InRange(IntegerBox, id)
    modifies s, s.dao
    ensures closed == Pass && s.isClosed && s.dao.rows == old(s.dao.rows)
  {
    var key := KeyTypeId(t, Num(IntegerBox, id));
    var e;
    ghost var read;
    e, read := FindRenamed(s, t, IntegerBox, id, first, last);
    ghost var before := s.State();
    ghost var jobs;
    closed, jobs := CloseOne(s, key, e, SnapshotOf(t, read));
    assert jobs == [];
    assert Drain(jobs, 0, before, true) == Drained(Pass, before, 0);
  }
}
