# bibernate-orm session core in Dafny

This project models the unit-of-work core of bibernate-orm, a small Java ORM, and proves
properties of that model.

A `Session` keeps four pieces of state:

- an identity cache from `KeyTypeId` (entity type, id) to entity instance;
- a snapshot store from `KeyTypeId` to the entity's field values, with the fields sorted by name;
- a closed flag;
- a queue of deferred Insert, Update and Delete actions.

`find`, `persist`, `remove` and `update` read and edit the two maps and append to the queue.
`flush` runs the queue against storage. `close` works in three steps:

1. A dirty-check sweep runs over the cache. A changed entity whose id still equals its key's id gets an Update action. A changed entity whose id no longer equals it is handed to `persist`, which returns at once for a tracked entity, so it gets no action. A changed entity whose id cannot be read stops the sweep with that error.
2. The queue is flushed.
3. Only then is the session marked closed.

The project also models the pieces the session is built on:

- the snapshot diff (`Utils.hasChanged`);
- the statement text builder (`SqlQueryBuilder`);
- the mapping rules (`ReflectionUtils`):
  - column-name defaulting;
  - table-name defaulting;
  - the exactly-one-`@Id` rule;
  - the column-to-value map;
  - the constructor-count check;
  - the conversion of a column value to its field's wrapper type (`setFieldValue`);
- the `KeyTypeId` record.

Some Java features are replaced by explicit models:

- **Reflection.** An explicit entity descriptor replaces it (`Entities.EntityType`). The descriptor holds:
  - the declared fields in declaration order: name, optional `@Column` name, the `@Id` flag and the declared type (`Short`, `Integer`, `Long`, `String` or another type);
  - the optional `@Table` name;
  - the fully qualified class name;
  - the number of declared constructors.

  An entity instance is an object whose field-name → value map its setters change in place.
- **Boxed values.** A number is kept with its wrapper (`Short`, `Integer` or `Long`), because Java's `equals` on wrappers compares the wrapper as well as the number. `Integer` 1 and `Long` 1 are different ids, so they give different cache keys.
- **Exceptions.** They become `Outcome`/`Result` values carrying an `Error`, one error per Java exception the core throws.
- **Storage.** `EntityDaoImpl` is replaced by an in-memory table (`Dao.EntityDao`):
  - Each row is a map from column name to value.
  - Rows are addressed by the key of the entity they were saved from. A numeric id is compared by its number, as the database compares the bound parameter, so a key whose id is an `Integer` reaches the same row as a `Long` one.
  - A selected row is read back through `setFieldValue`: each cell is converted to its field's declared type, or the select fails.
  - The flag `online` says whether the database can be reached. When it is false, every call that would open a connection fails.
  - Every gateway call is recorded in `calls`, so contracts can say which storage calls an operation made.
- **Statements.** Statement text is built exactly as the source builds it (module `SqlQueryBuilder`). The in-memory gateway does not parse that text.

The flavour of each part follows the source:

- **State-changing code.** The session is a `class` whose methods change its fields. The actions are a datatype with `Execute` methods that edit their session. The sweep and the statement builders are loops with invariants.
- **Proof specifications.** Each state-changing method is proved against pure functions on values:
  - `Step` gives one action;
  - `Drain` gives the queue run, an instance of the generic runner `ActionQueue.Run`;
  - `Sweep` gives the dirty-check;
  - `SnapshotOf` and `Changed` give snapshots and the diff;
  - `SelectResult`, `SaveResult`, `UpdateResult` and `DeleteResult` give storage.
- **Module placement.** `Session` and the actions refer to each other, so both sit in module `BibernateOrm`.

Source sections are modelled in these files:

- `SessionProperties`: the properties of actions, the queue and the sweep.
- `SessionScenarios`:
  - the cases of `SessionTest` as client code, over any stored table and any entity type laid out like the test fixture `Person`;
  - the preconditions state what the test fixture sets up.

## Model

| member | source | states |
|---|---|---|
| Keys.KeyTypeId.GetType | src/main/java/com/bobocode/bibernateorm/KeyTypeId.java:5-7 | the key is exactly (returned type, its id) |
| Keys.KeyTypeId.GetId | src/main/java/com/bobocode/bibernateorm/KeyTypeId.java:10-12 | the key is exactly (its type, returned id) |
| Keys.KeyEquality | src/main/java/com/bobocode/bibernateorm/KeyTypeId.java:3 | two keys are equal iff their types are equal and their ids are equal (record equality) |
| Keys.EqualKeysSameEntry | src/main/java/com/bobocode/bibernateorm/KeyTypeId.java:3 | keys with equal components address the same entry (presence and value) in any map, so cache and snapshot store agree |
| Entities.Entity.constructor | src/main/java/com/bobocode/bibernateorm/util/reflection/ReflectionUtils.java:52 | the no-argument constructor gives an instance of the type with every field null |
| Entities.Entity.Set | src/test/java/com/bobocode/entity/Person.java:14 | a setter of a declared field, given a value of the field's declared type, changes that field only |
| Text.ToLower | src/main/java/com/bobocode/bibernateorm/util/reflection/ReflectionUtils.java:28 | same length, each character lower-cased, no upper-case ASCII letter left |
| Text.LexLeTotal | src/main/java/com/bobocode/bibernateorm/util/Utils.java:21 | the name order of `comparing(Field::getName)` relates every pair of names |
| Text.LexLeTransitive | src/main/java/com/bobocode/bibernateorm/util/Utils.java:21 | the name order is transitive |
| Text.LexLeAntisymmetric | src/main/java/com/bobocode/bibernateorm/util/Utils.java:21 | names ordered both ways are equal |
| Text.SuffixedIsJoinPlusSep | src/main/java/com/bobocode/bibernateorm/util/SqlQueryBuilder.java:23-24 | what the `forEach` appending `item` + `,` builds is the comma-join plus one trailing comma, which `deleteCharAt` removes |
| ReflectionUtils.ColumnName | src/main/java/com/bobocode/bibernateorm/util/reflection/ReflectionUtils.java:26-29 | the `@Column` name when present, otherwise the field name lower-cased character by character |
| ReflectionUtils.TableName | src/main/java/com/bobocode/bibernateorm/util/reflection/ReflectionUtils.java:63-68 | the `@Table` name when present, otherwise the fully qualified class name lower-cased |
| ReflectionUtils.FirstId | src/main/java/com/bobocode/bibernateorm/util/reflection/ReflectionUtils.java:72 | the first `@Id` field at or after a position, none exactly when there is no `@Id` field there |
| ReflectionUtils.IdValue | src/main/java/com/bobocode/bibernateorm/util/reflection/ReflectionUtils.java:70-85 | error "not found" iff no field has `@Id`; a value iff exactly one does, and then it is that field's current value; otherwise error "not unique" |
| ReflectionUtils.CollectColumnsSucceeds | src/main/java/com/bobocode/bibernateorm/util/reflection/ReflectionUtils.java:31-33 | the `toMap` fold succeeds iff no field value is null and no column repeats; it fails only with the null-value or duplicate-key error |
| ReflectionUtils.CollectColumnsContents | src/main/java/com/bobocode/bibernateorm/util/reflection/ReflectionUtils.java:31-33 | a successful fold has the collected keys plus one key per field column, each holding that field's value |
| ReflectionUtils.ColumnNameValuesSpec | src/main/java/com/bobocode/bibernateorm/util/reflection/ReflectionUtils.java:31-33 | `getColumnNameValues` has exactly the declared fields' columns as keys, each with its field's value; it fails exactly on a null value or a shared column |
| ReflectionUtils.InitialEntity | src/main/java/com/bobocode/bibernateorm/util/reflection/ReflectionUtils.java:46-57 | succeeds iff the type has exactly one declared constructor, else the constructor-count error; a new instance has every field null |
| ReflectionUtils.DigitsValue | src/main/java/com/bobocode/bibernateorm/util/reflection/ReflectionUtils.java:92-94 | a number is read iff the text is non-empty and all decimal digits |
| ReflectionUtils.DigitsOf | src/main/java/com/bobocode/bibernateorm/util/reflection/ReflectionUtils.java:92-94 | the decimal text of a number is non-empty and all digits |
| ReflectionUtils.DigitsRoundTrip | src/main/java/com/bobocode/bibernateorm/util/reflection/ReflectionUtils.java:92-94 | reading the decimal text of a number gives that number back |
| ReflectionUtils.NumberTextRoundTrip | src/main/java/com/bobocode/bibernateorm/util/reflection/ReflectionUtils.java:92-94 | `valueOf(String.valueOf(n))` parses back to `n`, negative numbers included |
| ReflectionUtils.CoercedSpec | src/main/java/com/bobocode/bibernateorm/util/reflection/ReflectionUtils.java:87-102 | a converted value always fits its field; a number into a `Short`/`Integer`/`Long` field succeeds iff it is in that wrapper's range, and then it is the same number in that wrapper; `null` into a wrapper field fails with `NumberFormatException`; a number into a `String` field fails in `Field.set`; a value that already fits a field (other than `null` into a wrapper) is kept; no other error arises |
| Utils.InsertByName | src/main/java/com/bobocode/bibernateorm/util/Utils.java:21 | one insertion step keeps the elements and adds the inserted field |
| Utils.SortByName | src/main/java/com/bobocode/bibernateorm/util/Utils.java:21 | the sort is a permutation of the declared fields |
| Utils.InsertByNameSorted | src/main/java/com/bobocode/bibernateorm/util/Utils.java:21 | inserting into a name-sorted list keeps it sorted |
| Utils.SortByNameSorted | src/main/java/com/bobocode/bibernateorm/util/Utils.java:21 | the sort result is in ascending name order |
| Utils.FieldsByName | src/main/java/com/bobocode/bibernateorm/Session.java:162 | the snapshot field order holds every declared field exactly once |
| Utils.FieldsByNameOrdered | src/main/java/com/bobocode/bibernateorm/util/Utils.java:21 | the snapshot order is a permutation of the declared fields in which every earlier name is no greater than every later one |
| Utils.SortedByNamePairwise | src/main/java/com/bobocode/bibernateorm/util/Utils.java:21 | sorted neighbours give sorted pairs |
| Utils.SnapshotOf | src/main/java/com/bobocode/bibernateorm/Session.java:161-164 | the snapshot has one entry per declared field; entry i is the value of the i-th field in name order |
| Utils.HasChanged | src/main/java/com/bobocode/bibernateorm/util/Utils.java:16-31 | the loop returns true iff some position differs (null-safe) from the current value of the field at that position in name order |
| Utils.ChangedIffSnapshotDiffers | src/main/java/com/bobocode/bibernateorm/util/Utils.java:23-30 | changed iff the stored entries differ from a fresh snapshot of the current values |
| Utils.SnapshotIsUnchanged | src/main/java/com/bobocode/bibernateorm/util/Utils.java:23-30 | right after a snapshot is taken nothing is changed |
| Utils.MutationIsChanged | src/main/java/com/bobocode/bibernateorm/util/Utils.java:26 | setting a declared field to a value different from its snapshot entry makes the entity changed |
| SqlQueryBuilder.UpdateEntityQuery | src/main/java/com/bobocode/bibernateorm/util/SqlQueryBuilder.java:20-26 | fails iff the column list is empty (the `deleteCharAt(-1)` case); otherwise `UPDATE t SET c1= ?,...,cn= ? WHERE id = ?` with the table from `TableName` |
| SqlQueryBuilder.ParenthesizedList | src/main/java/com/bobocode/bibernateorm/util/SqlQueryBuilder.java:31-34 | the builder loop yields `(i1,...,in)`; with no items the dropped character is the opening parenthesis, leaving `)` |
| SqlQueryBuilder.SaveEntityQuery | src/main/java/com/bobocode/bibernateorm/util/SqlQueryBuilder.java:28-43 | `INSERT INTO t (c1,...,cn) VALUES (?,...,?)`, columns and placeholders in the same iteration order |
| SqlQueryBuilder.CountJoin | src/main/java/com/bobocode/bibernateorm/util/SqlQueryBuilder.java:23-24 | a join with a separator free of the character holds as many as its items |
| SqlQueryBuilder.SumCountsAssignments | src/main/java/com/bobocode/bibernateorm/util/SqlQueryBuilder.java:23 | the SET items of `?`-free columns hold one `?` each |
| SqlQueryBuilder.SumCountsPlaceholders | src/main/java/com/bobocode/bibernateorm/util/SqlQueryBuilder.java:37 | n placeholders hold n `?` |
| SqlQueryBuilder.WhereHeadAbsent | src/main/java/com/bobocode/bibernateorm/util/SqlQueryBuilder.java:17 | the WHERE clause before its placeholder holds no `?` |
| SqlQueryBuilder.WherePlaceholder | src/main/java/com/bobocode/bibernateorm/util/SqlQueryBuilder.java:17 | the WHERE clause holds exactly one `?` |
| SqlQueryBuilder.UpdatePlaceholders | src/main/java/com/bobocode/bibernateorm/util/SqlQueryBuilder.java:20-26 | with a `?`-free table and columns, the update text has n+1 placeholders |
| SqlQueryBuilder.UpdateEndsWithPlaceholder | src/main/java/com/bobocode/bibernateorm/util/SqlQueryBuilder.java:22-24 | the SET clause of a non-empty list ends in `= ?`: no trailing comma |
| SqlQueryBuilder.ParenListCount | src/main/java/com/bobocode/bibernateorm/util/SqlQueryBuilder.java:31-39 | a parenthesised list holds as many of a character as its items do |
| SqlQueryBuilder.InsertPlaceholders | src/main/java/com/bobocode/bibernateorm/util/SqlQueryBuilder.java:28-43 | with a `?`-free table and columns, the insert text has exactly n placeholders |
| SqlQueryBuilder.SelectPlaceholders | src/main/java/com/bobocode/bibernateorm/util/SqlQueryBuilder.java:16-18 | the select text (`SELECT * FROM t WHERE id = ?`) has exactly one placeholder |
| SqlQueryBuilder.DeletePlaceholders | src/main/java/com/bobocode/bibernateorm/util/SqlQueryBuilder.java:45-48 | the delete text (`DELETE FROM t WHERE id = ?`) has exactly one placeholder |
| Dao.UpdateFields | src/main/java/com/bobocode/bibernateorm/dao/EntityDaoImpl.java:132-135 | contains exactly the declared fields whose column is not `id` (ignoring case) |
| Dao.EntityDao.constructor | src/main/java/com/bobocode/bibernateorm/dao/EntityDaoImpl.java:28 | a gateway over the given rows and reachability, with no calls yet |
| Dao.EntityDao.SelectEntity | src/main/java/com/bobocode/bibernateorm/dao/EntityDaoImpl.java:31-68 | one select call, rows unchanged; the result agrees with `SelectResult`; a found row gives a fresh instance of the key's type |
| Dao.EntityDao.SaveEntity | src/main/java/com/bobocode/bibernateorm/dao/EntityDaoImpl.java:70-109 | one save call; rows become `SaveResult` on success, and are unchanged with its error on failure; an id that already has a stored row fails with the storage error, the `id` column being the primary key |
| Dao.EntityDao.UpdateEntity | src/main/java/com/bobocode/bibernateorm/dao/EntityDaoImpl.java:130-153 | one update call with the given id; rows become `UpdateResult` on success, and are unchanged with its error on failure |
| Dao.EntityDao.DeleteEntity | src/main/java/com/bobocode/bibernateorm/dao/EntityDaoImpl.java:111-128 | one delete call; rows become `DeleteResult` on success, and are unchanged with its error on failure |
| Dao.HydrateIntoSucceeds | src/main/java/com/bobocode/bibernateorm/dao/EntityDaoImpl.java:50-54 | copying a row succeeds iff the row has every field's column and every cell converts to its field's type; it fails only with the storage error or a conversion error |
| Dao.HydrateIntoContents | src/main/java/com/bobocode/bibernateorm/dao/EntityDaoImpl.java:50-54 | with distinct field names and a readable row, every field receives its own column's value, converted to its type |
| Dao.HydrateIntoKeeps | src/main/java/com/bobocode/bibernateorm/dao/EntityDaoImpl.java:50-54 | a value no later field overwrites is kept |
| Dao.SelectIgnoresBox | src/main/java/com/bobocode/bibernateorm/dao/EntityDaoImpl.java:44 | keys whose numeric ids differ only in their wrapper select the same row with the same result |
| Dao.UpdatedRowContents | src/main/java/com/bobocode/bibernateorm/dao/EntityDaoImpl.java:130-153 | an update assigns every non-id column its field's value and keeps id and unrelated columns |
| Dao.SaveThenSelect | src/main/java/com/bobocode/bibernateorm/dao/EntityDaoImpl.java:70-109 | saving values of the fields' declared types, then selecting the saved key, gives back every field's value |
| Dao.DeleteThenSelect | src/main/java/com/bobocode/bibernateorm/dao/EntityDaoImpl.java:111-128 | after a delete, selecting the entity's key finds nothing |
| Dao.UpdateThenSelect | src/main/java/com/bobocode/bibernateorm/dao/EntityDaoImpl.java:130-153 | after updating a complete row, selecting it succeeds iff every written cell (the entity's value for a non-id field, the stored one for an id field) converts to its field's type, and then gives those converted values; values of the declared types come back unchanged for non-id fields |
| ActionQueue.Run | src/main/java/com/bobocode/bibernateorm/Session.java:106 | the queue run passes iff `done` reaches the end of the queue; `done` is never before the starting index |
| ActionQueue.RunAt | src/main/java/com/bobocode/bibernateorm/Session.java:106 | a run from an existing job runs at least up to that job |
| ActionQueue.RunShift | src/main/java/com/bobocode/bibernateorm/Session.java:106 | running `a + b` from inside `b` is running `b` from the same job |
| ActionQueue.RunConcatFrom | src/main/java/com/bobocode/bibernateorm/Session.java:106 | running `a + b` from inside `a`: a failure in `a` ends the run, otherwise `b` continues from the state `a` left |
| ActionQueue.RunConcat | src/main/java/com/bobocode/bibernateorm/Session.java:106 | a queue runs as its halves in turn: a failure in the first stops it there, otherwise the second runs on the first's result |
| ActionQueue.RunFailFrom | src/main/java/com/bobocode/bibernateorm/Session.java:106 | a run from an index that failed stopped at job `done`: the jobs from the index up to it passed, and job `done` failed on the state they left, giving the run's outcome and state |
| ActionQueue.RunFail | src/main/java/com/bobocode/bibernateorm/Session.java:106 | a failed run stopped at job `done`: every earlier job passed, and job `done` failed on the state they left, giving the run's outcome and state |
| BibernateOrm.Action.Execute | src/main/java/com/bobocode/bibernateorm/actions/InsertAction.java:13-16 | `execute` on the action's own session does exactly what `Step` says; the queue and closed flag are unchanged |
| BibernateOrm.Action.ExecuteUpdate | src/main/java/com/bobocode/bibernateorm/actions/UpdateAction.java:12-17 | `UpdateAction.execute` does exactly what `Step` says |
| BibernateOrm.Action.ExecuteDelete | src/main/java/com/bobocode/bibernateorm/actions/DeleteAction.java:14-18 | `DeleteAction.execute` does exactly what `Step` says |
| BibernateOrm.DrainStep | src/main/java/com/bobocode/bibernateorm/Session.java:106 | running the queue from an existing job is that job's step, then the rest only when it passed |
| BibernateOrm.StepKeepsTracked | src/main/java/com/bobocode/bibernateorm/actions/AbstractAction.java:18 | every action keeps cache and snapshot store on the same keys with full-length snapshots |
| BibernateOrm.DrainKeepsTracked | src/main/java/com/bobocode/bibernateorm/Session.java:106 | so does every run of the queue |
| BibernateOrm.SweepAdvance | src/main/java/com/bobocode/bibernateorm/Session.java:186-191 | visiting one more unvisited key keeps the visit order a list of distinct cache keys |
| BibernateOrm.Session.constructor | src/main/java/com/bobocode/bibernateorm/Session.java:36-39 | empty cache and snapshot store, open, nothing queued |
| BibernateOrm.Session.CheckSession | src/main/java/com/bobocode/bibernateorm/Session.java:134-147 | passes iff the session is open and every argument is non-null; closed wins over null |
| BibernateOrm.Session.GetCacheKeyTypeId | src/main/java/com/bobocode/bibernateorm/Session.java:182-184 | none iff the entity (by reference) is not a cache value, otherwise a key under which it is cached |
| BibernateOrm.Session.AddSnapshot | src/main/java/com/bobocode/bibernateorm/Session.java:161-164 | the key's snapshot becomes the entity's values in name order; nothing else changes |
| BibernateOrm.Session.RemoveSnapshot | src/main/java/com/bobocode/bibernateorm/Session.java:122-124 | the key's snapshot is dropped and only that |
| BibernateOrm.Session.AddInsertAction | src/main/java/com/bobocode/bibernateorm/Session.java:174-176 | one Insert action bound to this session is appended |
| BibernateOrm.Session.AddUpdateAction | src/main/java/com/bobocode/bibernateorm/Session.java:178-180 | one Update action bound to this session is appended |
| BibernateOrm.Session.AddDeleteAction | src/main/java/com/bobocode/bibernateorm/Session.java:170-172 | one Delete action bound to this session is appended |
| BibernateOrm.Session.Find | src/main/java/com/bobocode/bibernateorm/Session.java:41-62 | closed or null id: error, nothing changes.  Cached key: that same instance, no storage call.  Otherwise one select: an error or "no row" changes neither map; a row found is a fresh instance, cached and snapshotted under the key |
| BibernateOrm.Session.Persist | src/main/java/com/bobocode/bibernateorm/Session.java:64-78 | closed, null, already-cached and no-sole-`@Id` cases change nothing (the first two and the last with their errors); a new entity is cached under (its type, its id value), snapshotted, and exactly one Insert action is appended |
| BibernateOrm.Session.PersistNew | src/main/java/com/bobocode/bibernateorm/Session.java:72-77 | the part of `persist` after the cache check: id error, or cache + snapshot + one Insert action |
| BibernateOrm.Session.Remove | src/main/java/com/bobocode/bibernateorm/Session.java:80-91 | maps and storage untouched; closed, null and untracked entities are rejected with nothing queued; a tracked one gets one Delete action under a key it is cached under |
| BibernateOrm.Session.Update | src/main/java/com/bobocode/bibernateorm/Session.java:109-120 | closed: rejected; untracked: exactly the effect of `persist`; tracked: one Update action under a key it is cached under, nothing else changes |
| BibernateOrm.Session.Flush | src/main/java/com/bobocode/bibernateorm/Session.java:103-107 | closed: rejected, nothing changes; otherwise the new state is the queue run `Drain` of the queued actions with their entities' values, the outcome is its outcome, and the failed action and those after it stay queued |
| BibernateOrm.Session.RunStep | src/main/java/com/bobocode/bibernateorm/Session.java:106 | executing the action at index i is the step of the queue run at i |
| BibernateOrm.Session.RunQueue | src/main/java/com/bobocode/bibernateorm/Session.java:106 | running the queue from index i gives the state and outcome of `Drain` from i |
| BibernateOrm.Session.UpdateSnapshotValues | src/main/java/com/bobocode/bibernateorm/Session.java:149-159 | unreadable id: its error, nothing changes; id equal to the key's id: one Update action; a changed id: handed to `persist`, which returns at once, so nothing is queued |
| BibernateOrm.Session.VisitEntry | src/main/java/com/bobocode/bibernateorm/Session.java:166-168 | one sweep visit (the `hasChanged` filter and then `updateSnapshotValues`) extends the sweep by exactly that visit's actions |
| BibernateOrm.Session.CheckToChangeAndAddToUpdateAction | src/main/java/com/bobocode/bibernateorm/Session.java:186-191 | the loop visits distinct cache keys (all of them when it passes); the appended actions and outcome are `Sweep` over that order; maps and storage are unchanged |
| BibernateOrm.Session.Close | src/main/java/com/bobocode/bibernateorm/Session.java:93-101 | closed: rejected, nothing changes.  A sweep failure: its error, queue gains the sweep's actions, session stays open.  Otherwise the state is the run of the whole queue, the action that failed and those after it stay queued, and the session is closed iff the run passed |
| SessionProperties.InsertStepEffect | src/main/java/com/bobocode/bibernateorm/actions/InsertAction.java:13-16 | one save call and nothing else; cache and snapshot store unchanged; passes iff the save succeeds; a failed save leaves rows alone |
| SessionProperties.UpdateStepEffect | src/main/java/com/bobocode/bibernateorm/actions/UpdateAction.java:12-17 | one update call with the key's id; on success the key maps to the action's entity, its snapshot is the entity's values so it is not changed, and every other key is untouched in both maps; on failure both maps and rows are as before |
| SessionProperties.DeleteStepEffect | src/main/java/com/bobocode/bibernateorm/actions/DeleteAction.java:14-18 | one delete call; on success the key is in neither map and every other key keeps its entries; on failure both maps and rows are as before |
| SessionProperties.DrainConcat | src/main/java/com/bobocode/bibernateorm/Session.java:106 | flushing `a + b`: a failure in `a` ends the flush there, otherwise `b` runs on the state `a` left |
| SessionProperties.InsertThenDelete | src/test/java/com/bobocode/SessionTest.java:124-138 | an insert then a delete of one entity both run: rows end as they began, the key is in neither map, and the calls are save then delete |
| SessionProperties.VisitsPrefix | src/main/java/com/bobocode/bibernateorm/Session.java:187-190 | the visit order minus its last key is a visit order without that key |
| SessionProperties.PartAppend | src/main/java/com/bobocode/bibernateorm/Session.java:157 | one more Update action for a fresh target key keeps the queued list a valid sweep part |
| SessionProperties.SweepAddsTargets | src/main/java/com/bobocode/bibernateorm/Session.java:149-159 | whatever the outcome, the sweep queues only Update actions for changed entries whose id still equals their key's id, bound to the session and the cached entity, one per key, all visited |
| SessionProperties.SweepPassClear | src/main/java/com/bobocode/bibernateorm/Session.java:186-191 | a sweep that passed visited no changed entry with an unreadable id |
| SessionProperties.SweepPassCovers | src/main/java/com/bobocode/bibernateorm/Session.java:186-191 | a sweep that passed queued an action for every visited target |
| SessionProperties.SweepFailBlocked | src/main/java/com/bobocode/bibernateorm/Session.java:152 | a sweep that failed visited a changed entry whose id read failed with exactly that error |
| SessionProperties.SweepSpec | src/main/java/com/bobocode/bibernateorm/Session.java:186-191 | a complete sweep passes iff no changed entry has an unreadable id; when it passes, the queued actions are exactly one Update per changed entry whose id equals its key's id (an entry whose id changed gets none); when it fails, the error is such an entry's |
| SessionScenarios.PersonFacts | src/test/java/com/bobocode/entity/Person.java:16-24 | a `Person`-shaped type has its sole `@Id` first, distinct names and columns `id`, `first_name`, `last_name` |
| SessionScenarios.NewPerson | src/test/java/com/bobocode/SessionTest.java:83-86 | `new Person()` and the three setters give a fresh instance holding exactly those values |
| SessionScenarios.PersonSaves | src/test/java/com/bobocode/SessionTest.java:83-88 | such a `Person` has the id it was given and can be saved under a free key |
| SessionScenarios.FindTwice | src/main/java/com/bobocode/bibernateorm/Session.java:44-51 | once a find returned an entity, a second find returns the identical result and at most the first made a storage call |
| SessionScenarios.RemoveWithoutFlush | src/test/java/com/bobocode/SessionTest.java:111-122 | after `remove` and before `flush`, a find returns the same instance, the row is still stored and one Delete action is queued |
| SessionScenarios.UpdateThenRemove | src/test/java/com/bobocode/SessionTest.java:131-132 | `update` of an untracked entity persists it, then `remove` queues its Delete behind its Insert; storage untouched |
| SessionScenarios.FlushInsertDelete | src/test/java/com/bobocode/SessionTest.java:133 | flushing that insert and delete passes, rows end as they began, the entity is untracked and the queue empty |
| SessionScenarios.UpdateRemoveFlush | src/test/java/com/bobocode/SessionTest.java:124-138 | update, remove, flush of a new `Person`: the flush passes, rows are unchanged and a later find returns nothing |
| SessionScenarios.FlushInsert | src/test/java/com/bobocode/SessionTest.java:89 | flushing one insert stores its row and empties the queue; the cache is as `persist` left it |
| SessionScenarios.PersistPerson | src/test/java/com/bobocode/SessionTest.java:83-88 | `persist` of a new `Person` caches it under its id and queues exactly its Insert; storage untouched |
| SessionScenarios.PersistFlushFind | src/test/java/com/bobocode/SessionTest.java:81-95 | persist, flush, find: all pass, the stored row selects with the given id and the found entity has that id |
| SessionScenarios.PersonHydrates | src/test/java/com/bobocode/SessionTest.java:50-55 | selecting a stored `Person` row gives its id and both names, and its id reads back as the row's id |
| SessionScenarios.FindStored | src/test/java/com/bobocode/SessionTest.java:50-55 | finding an untracked stored `Person` gives a fresh instance with the row's values and id, cached under its key and no other |
| SessionScenarios.RemoveTracked | src/test/java/com/bobocode/SessionTest.java:104 | `remove` of an entity cached under one key queues its Delete under that key and changes nothing else |
| SessionScenarios.FlushDelete | src/test/java/com/bobocode/SessionTest.java:105 | flushing that Delete removes exactly the row that key's id addresses and untracks it |
| SessionScenarios.RemoveFlush | src/test/java/com/bobocode/SessionTest.java:97-109 | find, remove, flush: the row is gone and a later find consults storage and returns nothing |
| SessionScenarios.ClosedRejects | src/main/java/com/bobocode/bibernateorm/Session.java:134-139 | after a close that passed, `find`, `persist` and a second `close` are rejected as closed |
| SessionScenarios.FindRenamed | src/test/java/com/bobocode/SessionTest.java:64-66 | find by an id in any wrapper, then both setters: the one cached entity, under the key as given, holds the new names over the row's values; its snapshot is of the row as read; its id field is the row's `Long` id |
| SessionScenarios.RenamedChanged | src/test/java/com/bobocode/SessionTest.java:65-66 | renaming makes the entity changed unless both names already were the new ones |
| SessionScenarios.SweepOne | src/main/java/com/bobocode/bibernateorm/Session.java:186-191 | the sweep over one tracked entity with a readable id passes, and queues its Update iff it changed and its id equals its key's id |
| SessionScenarios.CloseOneJobs | src/main/java/com/bobocode/bibernateorm/Session.java:93-101 | for a one-entity session, the close sweep passes and the flushed jobs are that entity's Update iff it changed and its id equals its key's id |
| SessionScenarios.CloseOne | src/main/java/com/bobocode/bibernateorm/Session.java:93-101 | `close` of a one-entity session: the flushed queue is its Update iff it changed and its id equals its key's id, and the flush decides outcome, state and closed flag |
| SessionScenarios.UpdatedPersonRow | src/main/java/com/bobocode/bibernateorm/dao/EntityDaoImpl.java:130-153 | updating a `Person` row keeps its id and writes both names |
| SessionScenarios.UpdateStored | src/main/java/com/bobocode/bibernateorm/dao/EntityDaoImpl.java:130-153 | `updateEntity` of a stored `Person` replaces its row by the updated row |
| SessionScenarios.UpdateFlushed | src/main/java/com/bobocode/bibernateorm/actions/UpdateAction.java:12-17 | flushing a `Person`'s Update passes and leaves its row with its id and the entity's names |
| SessionScenarios.CloseWritesBack | src/test/java/com/bobocode/SessionTest.java:62-68 | find, rename, close: the close passes, the session is closed, and the stored row holds the new names |
| SessionScenarios.ReopenFind | src/test/java/com/bobocode/SessionTest.java:70-72 | a new session over the same storage finds the `Person` with the stored id and names |
| SessionScenarios.FindIntegerThenLong | src/main/java/com/bobocode/bibernateorm/Session.java:41-62 | finding a stored `Person` by an `Integer` id and then by the same number as a `Long`: two select calls, two distinct instances with the same values, cached under two keys |
| SessionScenarios.IntegerKeyCloseWritesNothing | src/main/java/com/bobocode/bibernateorm/Session.java:149-159 | find by an `Integer` id, rename, close: the `Long` id read back does not equal the key's id, so the close passes, the session is closed and no row changes |
| SessionScenarios.CloseThenReopen | src/test/java/com/bobocode/SessionTest.java:62-79 | after the close, a find in a new session returns the `Person` with its id and both changed names |

## Left out

- The `IDENTITY` branch of `saveEntity` is not modelled, although the test fixture `Person` declares its id `IDENTITY`-generated (`Person.java:18`); the scenarios therefore store the caller's id with the row. It depends on `getGeneratedType` and `getColumnNameValuesWithOutId`, which are not part of this model. `SaveEntity` always takes the other branch, `getColumnNameValues`.
- `ReflectionUtils.CoercedSpec`: `setFieldValue` is modelled for `Short`, `Integer`, `Long` and `String` fields. The `Double` and `Float` conversions are floating point and are not modelled: a field of any other declared type (primitive, floating point or other class) takes the cell's value unchanged. The decimal parser accepts ASCII digits only, whereas `Long.valueOf` also accepts other Unicode digits.
- The JDBC layer is not modelled: connections, prepared statements, parameter binding and result sets. Storage is an in-memory table. A database that cannot be reached is the `online` flag. The one statement failure modelled is `saveEntity` of an entity whose id already has a stored row: the `id` column is taken to be the table's primary key, so `executeUpdate` fails and the `SQLException` is wrapped (`EntityDaoImpl.java:101-105`). No other statement failure is modelled, nor the `SQLException` that `updateEntity` swallows.
- Statement text is built by `SqlQueryBuilder`, but the in-memory gateway does not execute it.
- Logging, `ConcurrentHashMap` and `AtomicBoolean` are not modelled. The maps are plain maps and the flag is a bool. Concurrent use of a session is out of scope.
- `ActionQuery` is not part of this model. The queue is one FIFO sequence of actions, run first to last. A failing action stops the run; it and the actions after it stay queued. A successful run empties the queue. The model claims no more about ordering or failure handling than that.
- `initialEntity` creating the instance through reflection is not modelled. Only its constructor-count check is, followed by a no-argument constructor that leaves every field null.
- `BibernateOrm.Session.GetCacheKeyTypeId`: the order of the `findFirst` scan over a hash map is unspecified, so the model returns any key under which the entity is cached. `Remove` and `Update` say "a key it is cached under", not "the first".
- `BibernateOrm.Session.CheckToChangeAndAddToUpdateAction`: the iteration order of the cache is unspecified, so the loop picks any unvisited key. The order it took is a ghost out-parameter in the contract.
- Every public `Session` operation (`find`, `persist`, `remove`, `update`, `flush`, `close`) requires `Valid()`: the cache and the snapshot store track the same keys, with full-length snapshots. So do the internal steps `PersistNew`, `UpdateSnapshotValues`, `VisitEntry` and `CheckToChangeAndAddToUpdateAction`. Every one of these preserves it, so the `hasChanged` lookup of a missing snapshot never happens. That lookup would fail in Java with a null dereference. The helpers `CheckSession`, `GetCacheKeyTypeId`, `AddSnapshot`, `RemoveSnapshot`, `RunStep`, `RunQueue` and the `Add…Action` methods do not require it, and `AddSnapshot` or `RemoveSnapshot` alone does not preserve it; the operations that call them restore it.
- `find`'s `entityType::cast` is not modelled. An entry is found by its full key, which includes the type, so the cast cannot fail.
- A `null` class argument to `find` is not modelled: the descriptor is always present.
- `hashCode` is not modelled. A map keyed by `KeyTypeId` addresses entries by the key's value, which is what record equality and hashing give.
- `ToLower` lower-cases ASCII letters only.
- `LexLe` compares strings by character code, which is what `String.compareTo` does for names made of single UTF-16 units.
- Stored rows are keyed by (type, id) rather than by an `id` column in a named table. Two types that share a table name are therefore kept apart.
- `BibernateOrm.Session.RunQueue` runs the queue by recursion over the index rather than with a `forEach` loop. It executes one action per call.
- `SessionScenarios` runs the test cases on any type laid out like `Person` and any stored rows meeting the fixture's conditions. It does not use the one concrete table that the fixture's populate script creates, because that script is not part of this model.
- The `SessionTest` case that finds a missing row (`SessionTest.java:57-60`) has no scenario of its own. It is covered by the "no row" branch of `BibernateOrm.Session.Find`.
- `BibernateOrmApplication` and `SessionFactory` are not modelled; they are bootstrap code.
