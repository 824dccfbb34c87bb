/**
 * The unit-of-work session and its deferred actions. A session keeps an identity cache
 * (key -> entity), a snapshot store (key -> field values in name order), a closed flag and
 * a queue of actions; storage is reached only through its `EntityDao`. Exceptions become
 * `Outcome`/`Result` values carrying an `Error`.
 *
 * `Session` and the actions refer to each other (an action holds its session and `flush`
 * runs the actions), so both live in this one module.
 */
module BibernateOrm {
  import opened Errors
  import opened Entities
  import opened Keys
  import opened ReflectionUtils
  import opened Utils
  import opened Dao
  import opened ActionQueue

  /** Everything a queued action can change: both session maps and the storage side. */
  datatype UnitState = UnitState(
    cache: map<KeyTypeId, Entity>,
    snapshots: map<KeyTypeId, seq<Value>>,
    rows: Rows,
    calls: seq<Call>)

  /** An action together with the field values its entity holds when the action runs. */
  datatype Job = Job(action: Action, values: map<string, Value>)

  /** The cache and the snapshot store track the same keys, each snapshot one entry per field. */
  predicate Tracked(cache: map<KeyTypeId, Entity>, snapshots: map<KeyTypeId, seq<Value>>) {
    cache.Keys == snapshots.Keys && forall k :: k in snapshots ==> |snapshots[k]| == |k.keyType.fields|
  }

  /**
   * `AbstractAction` and its three subclasses: an immutable (entity, session, key) record
   * whose `execute` makes one storage call and then edits the session's maps.
   */
  datatype Action =
    | InsertAction(entity: Entity, session: Session, keyTypeId: KeyTypeId)
    | UpdateAction(entity: Entity, session: Session, keyTypeId: KeyTypeId)
    | DeleteAction(entity: Entity, session: Session, keyTypeId: KeyTypeId)
  {
    /**
     * `execute`. Insert: `saveEntity` only. Update: `updateEntity` with the key's id, then
     * re-cache and re-snapshot. Delete: `deleteEntity`, then evict from both maps. A failing
     * storage call leaves both maps as they were.
     */
    method Execute() returns (r: Outcome)
      modifies session, session.dao
      ensures session.queue == old(session.queue) && session.isClosed == old(session.isClosed)
      ensures session.dao.online == old(session.dao.online)
      ensures Stepped(r, session.State()) == Step(Job(this, entity.values), old(session.State()), session.dao.online)
    {
      match this
      case InsertAction(_, _, _) =>
        r := session.dao.SaveEntity(entity);
      case UpdateAction(_, _, _) =>
        r := ExecuteUpdate();
      case DeleteAction(_, _, _) =>
        r := ExecuteDelete();
    }

    /** `UpdateAction.execute`. */
    method ExecuteUpdate() returns (r: Outcome)
      requires UpdateAction?
      modifies session, session.dao
      ensures session.queue == old(session.queue) && session.isClosed == old(session.isClosed)
      ensures session.dao.online == old(session.dao.online)
      ensures Stepped(r, session.State()) == Step(Job(this, entity.values), old(session.State()), session.dao.online)
    {
      r := session.dao.UpdateEntity(entity, keyTypeId.GetId());
      if r == Pass {
        session.cache := session.cache[keyTypeId := entity];
        session.AddSnapshot(keyTypeId, entity);
      }
    }

    /** `DeleteAction.execute`. */
    method ExecuteDelete() returns (r: Outcome)
      requires DeleteAction?
      modifies session, session.dao
      ensures session.queue == old(session.queue) && session.isClosed == old(session.isClosed)
      ensures session.dao.online == old(session.dao.online)
      ensures Stepped(r, session.State()) == Step(Job(this, entity.values), old(session.State()), session.dao.online)
    {
      r := session.dao.DeleteEntity(entity);
      if r == Pass {
        session.cache := session.cache - {keyTypeId};
        session.RemoveSnapshot(keyTypeId);
      }
    }
  }

  /** What `execute` of job `j` does to state `s` when storage is reachable exactly if `online`. */
  function Step(j: Job, s: UnitState, online: bool): Stepped<UnitState> {
    var a := j.action;
    var e, k := a.entity, a.keyTypeId;
    match a
    case InsertAction(_, _, _) =>
      var calls := s.calls + [SaveCall(e.entityType, j.values)];
      var res := SaveResult(s.rows, e.entityType, j.values, online);
      if res.Ok? then Stepped(Pass, s.(rows := res.value, calls := calls))
      else Stepped(Fail(res.error), s.(calls := calls))
    case UpdateAction(_, _, _) =>
      var calls := s.calls + [UpdateCall(e.entityType, j.values, k.id)];
      var res := UpdateResult(s.rows, e.entityType, j.values, k.id, online);
      if res.Ok? then
        Stepped(Pass, UnitState(s.cache[k := e], s.snapshots[k := SnapshotOf(k.keyType, j.values)], res.value, calls))
      else Stepped(Fail(res.error), s.(calls := calls))
    case DeleteAction(_, _, _) =>
      var calls := s.calls + [DeleteCall(e.entityType, j.values)];
      var res := DeleteResult(s.rows, e.entityType, j.values, online);
      if res.Ok? then Stepped(Pass, UnitState(s.cache - {k}, s.snapshots - {k}, res.value, calls))
      else Stepped(Fail(res.error), s.(calls := calls))
  }

  /** One action as a step of the queue runner. */
  function Runner(online: bool): (Job, UnitState) -> Stepped<UnitState> {
    (j: Job, s: UnitState) => Step(j, s, online)
  }

  /** The run of the jobs of `q` from index `from` on, stopping at the first that fails. */
  function Drain(q: seq<Job>, from: nat, s: UnitState, online: bool): Drained<UnitState> {
    Run(Runner(online), q, from, s)
  }

  /** The run from a job that exists: that action, then the rest when it passed. */
  lemma DrainStep(q: seq<Job>, from: nat, s: UnitState, online: bool)
    requires from < |q|
    ensures var st := Step(q[from], s, online);
      Drain(q, from, s, online) ==
        if st.outcome.Fail? then Drained(st.outcome, st.state, from) else Drain(q, from + 1, st.state, online)
  {
    assert Run(Runner(online), q, from, s) == RunAt(Runner(online), q, from, s);
  }

  /** Every action keeps the cache and the snapshot store in step. */
  lemma StepKeepsTracked(j: Job, s: UnitState, online: bool)
    requires Tracked(s.cache, s.snapshots)
    ensures Tracked(Step(j, s, online).state.cache, Step(j, s, online).state.snapshots)
  {
  }

  /** So does every run of a queue. */
  lemma {:induction false} DrainKeepsTracked(q: seq<Job>, from: nat, s: UnitState, online: bool)
    requires Tracked(s.cache, s.snapshots)
    decreases |q| - from
    ensures Tracked(Drain(q, from, s, online).state.cache, Drain(q, from, s, online).state.snapshots)
  {
    if from < |q| {
      DrainStep(q, from, s, online);
      StepKeepsTracked(q[from], s, online);
      DrainKeepsTracked(q, from + 1, Step(q[from], s, online).state, online);
    }
  }

  /** The field values every cached entity holds now. */
  function CachedValues(cache: map<KeyTypeId, Entity>): (r: map<KeyTypeId, map<string, Value>>)
    reads cache.Values
    ensures r.Keys == cache.Keys && forall k :: k in cache ==> r[k] == cache[k].values
  {
    map k | k in cache :: cache[k].values
  }

  /** The keys whose current values differ from their snapshot: the entries the sweep acts on. */
  function ChangedKeys(values: map<KeyTypeId, map<string, Value>>, snapshots: map<KeyTypeId, seq<Value>>): set<KeyTypeId> {
    set k | k in values && k in snapshots && |snapshots[k]| >= |k.keyType.fields| &&
      Changed(snapshots[k], k.keyType, values[k])
  }

  /** Changed entries whose id field still equals the key's id: each gets an Update action. */
  function SweepTargets(cache: map<KeyTypeId, Entity>, values: map<KeyTypeId, map<string, Value>>, snapshots: map<KeyTypeId, seq<Value>>): set<KeyTypeId> {
    set k | k in ChangedKeys(values, snapshots) && k in cache && IdValue(cache[k].entityType, values[k]) == Ok(k.id)
  }

  /** Changed entries whose id cannot be read: `getIdValue` throws for them. */
  function SweepBlocked(cache: map<KeyTypeId, Entity>, values: map<KeyTypeId, map<string, Value>>, snapshots: map<KeyTypeId, seq<Value>>): set<KeyTypeId> {
    set k | k in ChangedKeys(values, snapshots) && k in cache && IdValue(cache[k].entityType, values[k]).Err?
  }

  /** The outcome of (part of) the sweep and the Update actions it queued, in order. */
  datatype Swept = Swept(outcome: Outcome, added: seq<Action>)

  /**
   * The visit of cache entry (`k`, `e`) whose entity holds `values`: nothing when it is
   * unchanged; otherwise `updateSnapshotValues`, which throws when the id cannot be read,
   * queues an Update action when the id still equals the key's id, and otherwise hands the
   * entity to `persist`, which returns at once for a cached entity.
   */
  function SweepVisit(k: KeyTypeId, e: Entity, values: map<string, Value>, snapshots: map<KeyTypeId, seq<Value>>, s: Session): Swept {
    if !(k in snapshots && |snapshots[k]| >= |k.keyType.fields| && Changed(snapshots[k], k.keyType, values)) then Swept(Pass, [])
    else
      match IdValue(e.entityType, values)
      case Err(err) => Swept(Fail(err), [])
      case Ok(id) => Swept(Pass, if id == k.id then [UpdateAction(e, s, k)] else [])
  }

  /** The sweep visiting the cache keys in `order`, stopping at the first visit that throws. */
  function Sweep(order: seq<KeyTypeId>, cache: map<KeyTypeId, Entity>, values: map<KeyTypeId, map<string, Value>>,
                 snapshots: map<KeyTypeId, seq<Value>>, s: Session): Swept
    decreases |order|, 1
  {
    if order == [] then Swept(Pass, []) else SweepLast(order, cache, values, snapshots, s)
  }

  /** A non-empty sweep: the visits before the last key, then, unless one threw, the last. */
  function SweepLast(order: seq<KeyTypeId>, cache: map<KeyTypeId, Entity>, values: map<KeyTypeId, map<string, Value>>,
                     snapshots: map<KeyTypeId, seq<Value>>, s: Session): Swept
    requires order != []
    decreases |order|, 0
  {
    var before := Sweep(order[..|order| - 1], cache, values, snapshots, s);
    var k := order[|order| - 1];
    if before.outcome.Fail? || k !in cache || k !in values then before
    else
      var visit := SweepVisit(k, cache[k], values[k], snapshots, s);
      Swept(visit.outcome, before.added + visit.added)
  }

  /** `order` lists distinct keys of `keys`, and all of them when `complete`. */
  predicate Visits(order: seq<KeyTypeId>, keys: set<KeyTypeId>, complete: bool) {
    (forall i :: 0 <= i < |order| ==> order[i] in keys) &&
    (forall i, j :: 0 <= i < j < |order| ==> order[i] != order[j]) &&
    (complete ==> forall k :: k in keys ==> k in order)
  }

  /**
   * Part way through the sweep: `order` lists the keys visited so far, which are the cache
   * keys outside `remaining`, and no visit has thrown yet.
   */
  predicate SweepInv(order: seq<KeyTypeId>, added: seq<Action>, remaining: set<KeyTypeId>, cache: map<KeyTypeId, Entity>,
                     values: map<KeyTypeId, map<string, Value>>, snapshots: map<KeyTypeId, seq<Value>>, s: Session) {
    remaining <= cache.Keys && Visits(order, cache.Keys - remaining, true) &&
    Sweep(order, cache, values, snapshots, s) == Swept(Pass, added)
  }

  /** Appending in two steps is appending the concatenation. */
  lemma AppendAssoc<T>(a: seq<T>, b: seq<T>, c: seq<T>)
    ensures a + b + c == a + (b + c)
  {
  }

  /** Visiting one more remaining key keeps the order a listing of distinct visited keys. */
  lemma SweepAdvance(order: seq<KeyTypeId>, added: seq<Action>, remaining: set<KeyTypeId>, key: KeyTypeId, r: Outcome,
                     visited: seq<Action>, cache: map<KeyTypeId, Entity>, values: map<KeyTypeId, map<string, Value>>,
                     snapshots: map<KeyTypeId, seq<Value>>, s: Session)
    requires SweepInv(order, added, remaining, cache, values, snapshots, s) && key in remaining
    requires Sweep(order + [key], cache, values, snapshots, s) == Swept(r, added + visited)
    ensures Visits(order + [key], cache.Keys, false)
    ensures r.Pass? ==> SweepInv(order + [key], added + visited, remaining - {key}, cache, values, snapshots, s)
  {
  }

  /** Every action is the Update action of a target key bound to `s`, no key twice. */
  predicate IsSweepPart(added: seq<Action>, cache: map<KeyTypeId, Entity>, s: Session, targets: set<KeyTypeId>) {
    (forall i :: 0 <= i < |added| ==>
      added[i].keyTypeId in targets && added[i].keyTypeId in cache &&
      added[i] == UpdateAction(cache[added[i].keyTypeId], s, added[i].keyTypeId)) &&
    (forall i, j :: 0 <= i < j < |added| ==> added[i].keyTypeId != added[j].keyTypeId)
  }

  /** Every key of `keys` has an action in `added`. */
  predicate SweepCovers(added: seq<Action>, keys: set<KeyTypeId>) {
    forall k :: k in keys ==> exists i :: 0 <= i < |added| && added[i].keyTypeId == k
  }

  class Session {
    const dao: EntityDao
    var cache: map<KeyTypeId, Entity>
    var snapshots: map<KeyTypeId, seq<Value>>
    var isClosed: bool
    var queue: seq<Action>

    /** `new Session(dataSource)`: empty maps, open, nothing queued. */
    constructor (dao: EntityDao)
      ensures this.dao == dao && cache == map[] && snapshots == map[] && !isClosed && queue == []
      ensures Valid()
    {
      this.dao := dao;
      cache := map[];
      snapshots := map[];
      isClosed := false;
      queue := [];
    }

    function State(): UnitState
      reads this, dao
    {
      UnitState(cache, snapshots, dao.rows, dao.calls)
    }

    /** The maps agree and every queued action is bound to this session. */
    predicate Valid()
      reads this
    {
      Tracked(cache, snapshots) && forall i :: 0 <= i < |queue| ==> queue[i].session == this
    }

    /** Nothing the session or its storage holds has changed. */
    twostate predicate Untouched()
      reads this, dao
    {
      State() == old(State()) && queue == old(queue) && isClosed == old(isClosed) && dao.online == old(dao.online)
    }

    /**
     * `checkSession(args...)`: a closed session rejects every call first; otherwise the
     * first null argument is rejected. `nonNull[i]` says whether argument `i` is non-null.
     */
    method CheckSession(nonNull: seq<bool>) returns (r: Outcome)
      ensures r == Pass <==> !isClosed && forall i :: 0 <= i < |nonNull| ==> nonNull[i]
      ensures isClosed ==> r == Fail(SessionClosed)
      ensures !isClosed && r.Fail? ==> r == Fail(NullArgument)
    {
      if isClosed {
        return Fail(SessionClosed);
      }
      for i := 0 to |nonNull|
        invariant forall j :: 0 <= j < i ==> nonNull[j]
      {
        if !nonNull[i] {
          return Fail(NullArgument);
        }
      }
      return Pass;
    }

    /**
     * `getCacheKeyTypeId`: a key under which `entity` itself (by reference) is cached. The
     * scan order of the cache is unspecified, so any such key may be returned.
     */
    method GetCacheKeyTypeId(entity: Entity?) returns (r: Option<KeyTypeId>)
      ensures r.None? <==> entity !in cache.Values
      ensures r.Some? ==> r.value in cache && cache[r.value] == entity
    {
      if k :| k in cache && cache[k] == entity {
        return Some(k);
      }
      return None;
    }

    /** `addSnapshot`: store the entity's field values, fields sorted by name, under `key`. */
    method AddSnapshot(key: KeyTypeId, entity: Entity)
      modifies this`snapshots
      ensures snapshots == old(snapshots)[key := SnapshotOf(key.keyType, entity.values)]
    {
      snapshots := snapshots[key := SnapshotOf(key.keyType, entity.values)];
    }

    /** `removeSnapshot` */
    method RemoveSnapshot(key: KeyTypeId)
      modifies this`snapshots
      ensures snapshots == old(snapshots) - {key}
    {
      snapshots := snapshots - {key};
    }

    /** `addInsertAction` */
    method AddInsertAction(entity: Entity, key: KeyTypeId)
      modifies this`queue
      ensures queue == old(queue) + [InsertAction(entity, this, key)]
    {
      queue := queue + [InsertAction(entity, this, key)];
    }

    /** `addUpdateAction` */
    method AddUpdateAction(entity: Entity, key: KeyTypeId)
      modifies this`queue
      ensures queue == old(queue) + [UpdateAction(entity, this, key)]
    {
      queue := queue + [UpdateAction(entity, this, key)];
    }

    /** `addDeleteAction` */
    method AddDeleteAction(entity: Entity, key: KeyTypeId)
      modifies this`queue
      ensures queue == old(queue) + [DeleteAction(entity, this, key)]
    {
      queue := queue + [DeleteAction(entity, this, key)];
    }

    /**
     * `find`: the cached instance when the key is tracked, with no storage call; otherwise
     * one `selectEntity`, and a row found is cached and snapshotted.
     */
    method Find(entityType: EntityType, id: Value) returns (r: Result<Option<Entity>>)
      requires Valid()
      modifies this, dao
      ensures Valid() && queue == old(queue) && isClosed == old(isClosed) && dao.online == old(dao.online)
      ensures old(isClosed) ==> r == Err(SessionClosed) && Untouched()
      ensures !old(isClosed) && id == Null ==> r == Err(NullArgument) && Untouched()
      ensures !old(isClosed) && id != Null && KeyTypeId(entityType, id) in old(cache) ==>
        r == Ok(Some(old(cache)[KeyTypeId(entityType, id)])) && Untouched()
      ensures !old(isClosed) && id != Null && KeyTypeId(entityType, id) !in old(cache) ==>
        var key := KeyTypeId(entityType, id);
        var selected := SelectResult(old(dao.rows), key, dao.online);
        dao.rows == old(dao.rows) && dao.calls == old(dao.calls) + [SelectCall(key)] &&
        (selected.Err? ==> r == Err(selected.error) && cache == old(cache) && snapshots == old(snapshots)) &&
        (selected == Ok(None) ==> r == Ok(None) && cache == old(cache) && snapshots == old(snapshots)) &&
        (selected.Ok? && selected.value.Some? ==>
          r.Ok? && r.value.Some? && fresh(r.value.value) &&
          r.value.value.entityType == entityType && r.value.value.values == selected.value.value &&
          cache == old(cache)[key := r.value.value] &&
          snapshots == old(snapshots)[key := SnapshotOf(entityType, r.value.value.values)])
    {
      var check := CheckSession([id != Null]);
      if check.Fail? {
        return Err(check.error);
      }
      assert [id != Null][0];
      var key := KeyTypeId(entityType, id);
      if key in cache {
        return Ok(Some(cache[key]));
      }
      var findEntity := dao.SelectEntity(key);
      if findEntity.Ok? && findEntity.value.Some? {
        var found := findEntity.value.value;
        cache := cache[key := found];
        AddSnapshot(key, found);
      }
      return findEntity;
    }

    /**
     * What `persist(entity)` does. A closed session, a null entity, an entity that is
     * already a cache value and one without a sole @Id change nothing. Otherwise the entity
     * is cached under (its class, its id-field value), snapshotted, and one Insert action
     * is queued.
     */
    twostate predicate PersistEffect(entity: Entity?, r: Outcome)
      reads this, dao, entity
    {
      if old(isClosed) then r == Fail(SessionClosed) && Untouched()
      else if entity == null then r == Fail(NullArgument) && Untouched()
      else if entity in old(cache).Values then r == Pass && Untouched()
      else InsertEffect(entity, r)
    }

    /**
     * The part of `persist` for an entity that is not cached yet: without a sole @Id it is
     * rejected; otherwise it is cached under (its class, its id-field value), snapshotted,
     * and one Insert action is queued.
     */
    twostate predicate InsertEffect(entity: Entity, r: Outcome)
      reads this, dao, entity
    {
      match IdValue(entity.entityType, entity.values)
      case Err(e) => r == Fail(e) && Untouched()
      case Ok(id) =>
        var key := KeyTypeId(entity.entityType, id);
        r == Pass && isClosed == old(isClosed) && dao.online == old(dao.online) &&
        dao.rows == old(dao.rows) && dao.calls == old(dao.calls) &&
        cache == old(cache)[key := entity] &&
        snapshots == old(snapshots)[key := SnapshotOf(key.keyType, entity.values)] &&
        queue == old(queue) + [InsertAction(entity, this, key)]
    }

    /** `persist` */
    method Persist(entity: Entity?) returns (r: Outcome)
      requires Valid()
      modifies this
      ensures Valid() && PersistEffect(entity, r)
    {
      var check := CheckSession([entity != null]);
      if check.Fail? {
        return check;
      }
      assert [entity != null][0];
      var existing := GetCacheKeyTypeId(entity);
      if existing.Some? {
        return Pass;
      }
      r := PersistNew(entity);
    }

    /** The rest of `persist` once the entity is known not to be cached. */
    method PersistNew(entity: Entity) returns (r: Outcome)
      requires Valid() && entity !in cache.Values
      modifies this
      ensures Valid() && InsertEffect(entity, r)
    {
      var id := IdValue(entity.entityType, entity.values);
      if id.Err? {
        return Fail(id.error);
      }
      var keyTypeId := KeyTypeId(entity.entityType, id.value);
      cache := cache[keyTypeId := entity];
      AddSnapshot(keyTypeId, entity);
      AddInsertAction(entity, keyTypeId);
      return Pass;
    }

    /**
     * `remove`: an entity that is not a cache value is rejected; otherwise one Delete action
     * is queued for a key it is cached under. The maps are untouched until `flush`.
     */
    method Remove(entity: Entity?) returns (r: Outcome)
      requires Valid()
      modifies this
      ensures Valid() && State() == old(State()) && isClosed == old(isClosed)
      ensures old(isClosed) ==> r == Fail(SessionClosed) && queue == old(queue)
      ensures !old(isClosed) && entity == null ==> r == Fail(NullArgument) && queue == old(queue)
      ensures !old(isClosed) && entity != null && entity !in cache.Values ==>
        r == Fail(NotPersisted) && queue == old(queue)
      ensures !old(isClosed) && entity != null && entity in cache.Values ==>
        r == Pass && exists k :: k in cache && cache[k] == entity && queue == old(queue) + [DeleteAction(cache[k], this, k)]
    {
      var check := CheckSession([entity != null]);
      if check.Fail? {
        return check;
      }
      assert [entity != null][0];
      var keyTypeId := GetCacheKeyTypeId(entity);
      if keyTypeId.None? {
        return Fail(NotPersisted);
      }
      AddDeleteAction(entity, keyTypeId.value);
      return Pass;
    }

    /**
     * `update`: for an entity that is not a cache value it is `persist`; otherwise one Update
     * action is queued for a key it is cached under. Only the closed flag is checked first,
     * so a null entity reaches `persist`, which rejects it.
     */
    method Update(entity: Entity?) returns (r: Outcome)
      requires Valid()
      modifies this
      ensures Valid()
      ensures old(isClosed) ==> r == Fail(SessionClosed) && Untouched()
      ensures !old(isClosed) && entity !in old(cache).Values ==> PersistEffect(entity, r)
      ensures !old(isClosed) && entity in old(cache).Values ==>
        r == Pass && State() == old(State()) && isClosed == old(isClosed) &&
        exists k :: k in cache && cache[k] == entity && queue == old(queue) + [UpdateAction(cache[k], this, k)]
    {
      var check := CheckSession([]);
      if check.Fail? {
        return check;
      }
      var keyTypeId := GetCacheKeyTypeId(entity);
      if keyTypeId.None? {
        r := Persist(entity);
      } else {
        AddUpdateAction(entity, keyTypeId.value);
        r := Pass;
      }
    }

    /**
     * `flush`: run the queued actions first to last. When one fails, the run stops with its
     * error and it and the actions after it stay queued.
     */
    method Flush() returns (r: Outcome, ghost jobs: seq<Job>)
      requires Valid()
      modifies this, dao
      ensures Valid() && isClosed == old(isClosed) && dao.online == old(dao.online)
      ensures |jobs| == |old(queue)|
      ensures forall n :: 0 <= n < |jobs| ==> jobs[n] == Job(old(queue)[n], old(queue)[n].entity.values)
      ensures old(isClosed) ==> r == Fail(SessionClosed) && Untouched()
      ensures !old(isClosed) ==>
        var d := Drain(jobs, 0, old(State()), dao.online);
        d.done <= |jobs| && r == d.outcome && State() == d.state && queue == old(queue)[d.done..]
    {
      jobs := JobsOf(queue);
      var check := CheckSession([]);
      if check.Fail? {
        return check, jobs;
      }
      DrainKeepsTracked(jobs, 0, State(), dao.online);
      r := RunQueue(jobs, 0);
    }

    /** The jobs the queued actions make, with each entity's current values. */
    ghost method JobsOf(q: seq<Action>) returns (jobs: seq<Job>)
      ensures |jobs| == |q| && forall n :: 0 <= n < |q| ==> jobs[n] == Job(q[n], q[n].entity.values)
    {
      jobs := [];
      for i := 0 to |q|
        invariant |jobs| == i && forall n :: 0 <= n < i ==> jobs[n] == Job(q[n], q[n].entity.values)
      {
        jobs := jobs + [Job(q[i], q[i].entity.values)];
      }
    }

    /** One turn of the loop of `flush`: execute the action at index `i`. */
    method RunStep(ghost jobs: seq<Job>, i: nat) returns (r: Outcome)
      requires i < |queue| == |jobs| && queue[i].session == this && jobs[i] == Job(queue[i], queue[i].entity.values)
      modifies this, dao
      ensures queue == old(queue) && isClosed == old(isClosed) && dao.online == old(dao.online)
      ensures Drain(jobs, i, old(State()), dao.online) ==
        if r.Fail? then Drained(r, State(), i) else Drain(jobs, i + 1, State(), dao.online)
    {
      r := queue[i].Execute();
      DrainStep(jobs, i, old(State()), dao.online);
    }

    /** The loop of `flush`: run the queued actions from index `i` on, in order, until one fails. */
    method RunQueue(ghost jobs: seq<Job>, i: nat) returns (r: Outcome)
      requires i <= |queue| == |jobs|
      requires forall n :: i <= n < |queue| ==> queue[n].session == this && jobs[n] == Job(queue[n], queue[n].entity.values)
      modifies this, dao
      decreases |queue| - i
      ensures isClosed == old(isClosed) && dao.online == old(dao.online)
      ensures var d := Drain(jobs, i, old(State()), dao.online);
        d.done <= |jobs| && r == d.outcome && State() == d.state && queue == old(queue)[d.done..]
    {
      if i == |queue| {
        queue := [];
        return Pass;
      }
      var outcome := RunStep(jobs, i);
      if outcome.Fail? {
        queue := queue[i..];
        return outcome;
      }
      r := RunQueue(jobs, i + 1);
    }

    /**
     * `updateSnapshotValues` for the cache entry (`key`, `entity`). An entity whose id field
     * no longer equals the key's id goes to `persist`, which returns at once because the
     * entity is a cache value; otherwise one Update action is queued for the key.
     */
    method UpdateSnapshotValues(key: KeyTypeId, entity: Entity) returns (r: Outcome)
      requires Valid() && key in cache && cache[key] == entity
      modifies this
      ensures Valid()
      ensures old(isClosed) ==> r == Fail(SessionClosed) && Untouched()
      ensures !old(isClosed) && IdValue(entity.entityType, entity.values).Err? ==>
        r == Fail(IdValue(entity.entityType, entity.values).error) && Untouched()
      ensures !old(isClosed) && IdValue(entity.entityType, entity.values).Ok? ==>
        r == Pass && State() == old(State()) && isClosed == old(isClosed) &&
        queue == old(queue) + (if IdValue(entity.entityType, entity.values).value == key.id then [UpdateAction(entity, this, key)] else [])
    {
      var check := CheckSession([true]);
      if check.Fail? {
        return check;
      }
      var idValue := IdValue(entity.entityType, entity.values);
      if idValue.Err? {
        return Fail(idValue.error);
      }
      if idValue.value != key.id {
        r := Persist(entity);
      } else {
        AddUpdateAction(entity, key);
        r := Pass;
      }
    }

    /**
     * The forEach body of `checkToChangeAndAddToUpdateAction` for cache entry (`key`,
     * `entity`): `hasChanged`, and for a changed entity `updateSnapshotValues`.
     */
    method VisitEntry(key: KeyTypeId, entity: Entity, ghost order: seq<KeyTypeId>, ghost values: map<KeyTypeId, map<string, Value>>)
      returns (r: Outcome, ghost visited: seq<Action>)
      requires Valid() && !isClosed && key in cache && cache[key] == entity
      requires key in values && values[key] == entity.values
      modifies this
      ensures Valid() && State() == old(State()) && isClosed == old(isClosed)
      ensures cache == old(cache) && snapshots == old(snapshots) && queue == old(queue) + visited
      ensures Sweep(order, cache, values, snapshots, this).outcome.Pass? ==>
        Sweep(order + [key], cache, values, snapshots, this) == Swept(r, Sweep(order, cache, values, snapshots, this).added + visited)
    {
      assert (order + [key])[..|order|] == order;
      assert Sweep(order + [key], cache, values, snapshots, this) == SweepLast(order + [key], cache, values, snapshots, this);
      var changed := HasChanged(key, entity, snapshots);
      if !changed {
        return Pass, [];
      }
      r := UpdateSnapshotValues(key, entity);
      visited := queue[|old(queue)|..];
    }

    /**
     * `checkToChangeAndAddToUpdateAction`: visit the cache entries one by one, in an
     * unspecified order, until a visit throws. `order` is the order taken.
     */
    method CheckToChangeAndAddToUpdateAction() returns (r: Outcome, ghost added: seq<Action>, ghost order: seq<KeyTypeId>)
      requires Valid() && !isClosed
      modifies this
      ensures Valid() && State() == old(State()) && isClosed == old(isClosed)
      ensures queue == old(queue) + added
      ensures Visits(order, cache.Keys, r.Pass?)
      ensures Swept(r, added) == Sweep(order, cache, old(CachedValues(cache)), snapshots, this)
    {
      added, order := [], [];
      ghost var values := CachedValues(cache);
      var remaining := cache.Keys;
      while remaining != {}
        invariant Valid() && State() == old(State()) && !isClosed
        invariant cache == old(cache) && snapshots == old(snapshots)
        invariant forall k :: k in cache ==> cache[k].values == values[k]
        invariant queue == old(queue) + added
        invariant SweepInv(order, added, remaining, old(cache), values, old(snapshots), this)
        decreases remaining
      {
        var key :| key in remaining;
        var outcome, visited := VisitEntry(key, cache[key], order, values);
        SweepAdvance(order, added, remaining, key, outcome, visited, cache, values, snapshots, this);
        AppendAssoc(old(queue), added, visited);
        order, added := order + [key], added + visited;
        if outcome.Fail? {
          return outcome, added, order;
        }
        remaining := remaining - {key};
      }
      return Pass, added, order;
    }

    /**
     * `close`: the sweep, then `flush`, and only then the closed flag. A failure in either
     * step propagates and leaves the session open.
     */
    method Close() returns (r: Outcome, ghost swept: seq<Action>, ghost order: seq<KeyTypeId>, ghost jobs: seq<Job>)
      requires Valid()
      modifies this, dao
      ensures Valid() && dao.online == old(dao.online)
      ensures old(isClosed) ==> r == Fail(SessionClosed) && Untouched()
      ensures !old(isClosed) ==> Visits(order, old(cache).Keys, false)
      ensures !old(isClosed) ==>
        var sw := Sweep(order, old(cache), old(CachedValues(cache)), old(snapshots), this);
        swept == sw.added && (sw.outcome.Pass? ==> Visits(order, old(cache).Keys, true))
      ensures !old(isClosed) && Sweep(order, old(cache), old(CachedValues(cache)), old(snapshots), this).outcome.Fail? ==>
        r == Sweep(order, old(cache), old(CachedValues(cache)), old(snapshots), this).outcome &&
        !isClosed && State() == old(State()) && queue == old(queue) + swept
      ensures !old(isClosed) && Sweep(order, old(cache), old(CachedValues(cache)), old(snapshots), this).outcome.Pass? ==>
        var q := old(queue) + swept;
        var d := Drain(jobs, 0, old(State()), dao.online);
        |jobs| == |q| && (forall n :: 0 <= n < |q| ==> jobs[n] == Job(q[n], q[n].entity.values)) &&
        d.done <= |q| && r == d.outcome && State() == d.state && queue == q[d.done..] && isClosed == d.outcome.Pass?
    {
      swept, order, jobs := [], [], [];
      var check := CheckSession([]);
      if check.Fail? {
        return check, swept, order, jobs;
      }
      var sweep;
      sweep, swept, order := CheckToChangeAndAddToUpdateAction();
      if sweep.Fail? {
        return sweep, swept, order, jobs;
      }
      var flushed;
      flushed, jobs := Flush();
      if flushed.Fail? {
        return flushed, swept, order, jobs;
      }
      isClosed := true;
      return Pass, swept, order, jobs;
    }
  }
}
