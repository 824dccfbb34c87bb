/**
 * The `EntityDao` gateway the session talks to. The relational database behind it is
 * replaced by an in-memory table: each stored row maps column names to values and is
 * addressed by the key (`KeyTypeId`) of the entity it was saved from, with a numeric id
 * stored by its number alone (`RowKey`), as `WHERE id = ?` compares it. Whether the database
 * can be reached is the flag `online`; when it is down, every call that opens a connection
 * fails as the JDBC layer would. Every call is appended to `calls`, so the session's
 * contracts can say which calls it made.
 */
module Dao {
  import opened Errors
  import opened Text
  import opened Entities
  import opened Keys
  import opened ReflectionUtils
  import opened SqlQueryBuilder

  /** One stored row: column name -> value. */
  type Row = map<string, Value>

  /** The stored rows, each addressed by the `RowKey` of the entity it was saved from. */
  type Rows = map<KeyTypeId, Row>

  /**
   * The address of the row `WHERE id = ?` matches for a key: the database compares a
   * numeric id by its number, whichever wrapper the bound parameter was boxed in, and a
   * stored number reads back as a `Long`.
   */
  function RowKey(k: KeyTypeId): KeyTypeId {
    match k.id
    case Num(_, n) => KeyTypeId(k.keyType, Num(LongBox, n))
    case _ => k
  }

  /**
   * `selectEntity` finds a numeric id by its number: a key whose id is boxed in another
   * wrapper selects the same row with the same result.
   */
  lemma SelectIgnoresBox(rows: Rows, t: EntityType, b1: Box, b2: Box, n: int, online: bool)
    ensures SelectResult(rows, KeyTypeId(t, Num(b1, n)), online) == SelectResult(rows, KeyTypeId(t, Num(b2, n)), online)
  {
    assert RowKey(KeyTypeId(t, Num(b1, n))) == RowKey(KeyTypeId(t, Num(b2, n)));
  }

  /** One invocation of the gateway. */
  datatype Call =
    | SelectCall(key: KeyTypeId)
    | SaveCall(savedType: EntityType, saved: map<string, Value>)
    | UpdateCall(updatedType: EntityType, updated: map<string, Value>, id: Value)
    | DeleteCall(deletedType: EntityType, deleted: map<string, Value>)

  /** `getColumnName(field).equalsIgnoreCase("id")` */
  predicate IsIdColumn(c: string) {
    ToLower(c) == "id"
  }

  /** The fields `updateEntity` assigns: every declared field whose column is not `id`. */
  function UpdateFields(fields: seq<FieldDecl>): (r: seq<FieldDecl>)
    decreases |fields|
    ensures |r| <= |fields|
    ensures forall f :: f in r <==> f in fields && !IsIdColumn(ColumnName(f))
  {
    if fields == [] then []
    else if IsIdColumn(ColumnName(fields[0])) then UpdateFields(fields[1..])
    else [fields[0]] + UpdateFields(fields[1..])
  }

  /** The column names of some fields, in order. */
  function ColumnNames(fields: seq<FieldDecl>): (r: seq<string>)
    ensures |r| == |fields|
    ensures forall i :: 0 <= i < |r| ==> r[i] == ColumnName(fields[i])
  {
    seq(|fields|, i requires 0 <= i < |fields| => ColumnName(fields[i]))
  }

  /** The row after `UPDATE ... SET c = ?, ...`: every non-id column takes the field's value. */
  function UpdatedRow(row: Row, fields: seq<FieldDecl>, values: map<string, Value>): Row
    decreases |fields|
  {
    if fields == [] then row
    else
      var c := ColumnName(fields[0]);
      var next := if IsIdColumn(c) then row else row[c := FieldValue(values, fields[0].name)];
      UpdatedRow(next, fields[1..], values)
  }

  /**
   * `selectEntity` copying a row into a new instance, field by field in declaration order:
   * `ResultSet.getObject(column)` fails when the row has no such column, and
   * `setFieldValue` converts the column value to the field's type or throws.
   */
  function HydrateInto(fields: seq<FieldDecl>, row: Row, acc: map<string, Value>): Result<map<string, Value>>
    decreases |fields|
  {
    if fields == [] then Ok(acc)
    else
      var c := ColumnName(fields[0]);
      if c !in row then Err(StorageFault)
      else
        match Coerced(fields[0], row[c])
        case Err(e) => Err(e)
        case Ok(v) => HydrateInto(fields[1..], row, acc[fields[0].name := v])
  }

  /** What `selectEntity(key)` returns: the field values of the row found, or none. */
  function SelectResult(rows: Rows, key: KeyTypeId, online: bool): Result<Option<map<string, Value>>> {
    if key.keyType.constructors != 1 then Err(ConstructorCount)
    else if !online then Err(StorageFault)
    else if RowKey(key) !in rows then Ok(None)
    else
      match HydrateInto(key.keyType.fields, rows[RowKey(key)], map[])
      case Ok(m) => Ok(Some(m))
      case Err(e) => Err(e)
  }

  /** The rows after `saveEntity` of an entity of type `t` with field values `values`. */
  function SaveResult(rows: Rows, t: EntityType, values: map<string, Value>, online: bool): Result<Rows> {
    match IdValue(t, values)
    case Err(e) => Err(e)
    case Ok(id) =>
      match ColumnNameValues(t, values)
      case Err(e) => Err(e)
      case Ok(row) =>
        var k := RowKey(KeyTypeId(t, id));
        if !online || k in rows then Err(StorageFault)
        else Ok(rows[k := row])
  }

  /** The rows after `updateEntity(entity, id)`: the row with that id takes the new values. */
  function UpdateResult(rows: Rows, t: EntityType, values: map<string, Value>, id: Value, online: bool): Result<Rows> {
    if |UpdateFields(t.fields)| == 0 then Err(EmptyColumnList)
    else if !online then Err(StorageFault)
    else
      var k := RowKey(KeyTypeId(t, id));
      if k in rows then Ok(rows[k := UpdatedRow(rows[k], t.fields, values)]) else Ok(rows)
  }

  /**
   * The rows after `deleteEntity`: the row with the entity's current id is gone. The id is
   * read inside the statement callback, so an entity without a sole @Id yields the wrapping
   * storage error.
   */
  function DeleteResult(rows: Rows, t: EntityType, values: map<string, Value>, online: bool): Result<Rows> {
    if !online then Err(StorageFault)
    else
      match IdValue(t, values)
      case Err(_) => Err(StorageFault)
      case Ok(id) => Ok(rows - {RowKey(KeyTypeId(t, id))})
  }

  /** `EntityDaoImpl` over the in-memory table. */
  class EntityDao {
    var rows: Rows
    var online: bool
    var calls: seq<Call>

    constructor (rows: Rows, online: bool)
      ensures this.rows == rows && this.online == online && calls == []
    {
      this.rows := rows;
      this.online := online;
      calls := [];
    }

    /** `selectEntity`: a new instance filled from the row stored under `key`, or none. */
    method SelectEntity(key: KeyTypeId) returns (r: Result<Option<Entity>>)
      modifies this
      ensures rows == old(rows) && online == old(online) && calls == old(calls) + [SelectCall(key)]
      ensures r.Err? ==> SelectResult(rows, key, online) == Err(r.error)
      ensures r.Ok? && r.value.None? ==> SelectResult(rows, key, online) == Ok(None)
      ensures r.Ok? && r.value.Some? ==>
        fresh(r.value.value) && r.value.value.entityType == key.keyType &&
        SelectResult(rows, key, online) == Ok(Some(r.value.value.values))
    {
      calls := calls + [SelectCall(key)];
      var created := InitialEntity(key.keyType);
      if created.Err? {
        return Err(created.error);
      }
      var entity := created.value;
      if !online {
        return Err(StorageFault);
      }
      if RowKey(key) !in rows {
        return Ok(None);
      }
      var row := rows[RowKey(key)];
      var fields := key.keyType.fields;
      assert fields[0..] == fields;
      for i := 0 to |fields|
        invariant rows == old(rows) && online == old(online) && calls == old(calls) + [SelectCall(key)]
        invariant HydrateInto(fields[i..], row, entity.values) == HydrateInto(fields, row, map[])
      {
        assert fields[i..][1..] == fields[i + 1..];
        var column := ColumnName(fields[i]);
        if column !in row {
          return Err(StorageFault);
        }
        var value := Coerced(fields[i], row[column]);
        if value.Err? {
          return Err(value.error);
        }
        CoercedSpec(fields[i], row[column]);
        entity.Set(fields[i].name, value.value);
      }
      return Ok(Some(entity));
    }

    /** `saveEntity` (the branch without generated ids): insert one row keyed by the entity's id. */
    method SaveEntity(entity: Entity) returns (r: Outcome)
      modifies this
      ensures online == old(online) && calls == old(calls) + [SaveCall(entity.entityType, entity.values)]
      ensures SaveResult(old(rows), entity.entityType, entity.values, online).Ok? ==>
        r == Pass && rows == SaveResult(old(rows), entity.entityType, entity.values, online).value
      ensures SaveResult(old(rows), entity.entityType, entity.values, online).Err? ==>
        r == Fail(SaveResult(old(rows), entity.entityType, entity.values, online).error) && rows == old(rows)
    {
      calls := calls + [SaveCall(entity.entityType, entity.values)];
      var t := entity.entityType;
      var id := IdValue(t, entity.values);
      if id.Err? {
        return Fail(id.error);
      }
      var columnNameValues := ColumnNameValues(t, entity.values);
      if columnNameValues.Err? {
        return Fail(columnNameValues.error);
      }
      var key := RowKey(KeyTypeId(t, id.value));
      if !online || key in rows {
        return Fail(StorageFault);
      }
      rows := rows[key := columnNameValues.value];
      return Pass;
    }

    /** `updateEntity(entity, id)`: assign every non-id column of the row with that id. */
    method UpdateEntity(entity: Entity, id: Value) returns (r: Outcome)
      modifies this
      ensures online == old(online) && calls == old(calls) + [UpdateCall(entity.entityType, entity.values, id)]
      ensures UpdateResult(old(rows), entity.entityType, entity.values, id, online).Ok? ==>
        r == Pass && rows == UpdateResult(old(rows), entity.entityType, entity.values, id, online).value
      ensures UpdateResult(old(rows), entity.entityType, entity.values, id, online).Err? ==>
        r == Fail(UpdateResult(old(rows), entity.entityType, entity.values, id, online).error) && rows == old(rows)
    {
      ghost var expected := UpdateResult(rows, entity.entityType, entity.values, id, online);
      calls := calls + [UpdateCall(entity.entityType, entity.values, id)];
      var t := entity.entityType;
      var fields := UpdateFields(t.fields);
      assert |ColumnNames(fields)| == |fields|;
      var sql := UpdateEntityQuery(t, ColumnNames(fields));
      if sql.Err? {
        assert expected == Err(EmptyColumnList);
        return Fail(sql.error);
      }
      if !online {
        assert expected == Err(StorageFault);
        return Fail(StorageFault);
      }
      var key := RowKey(KeyTypeId(t, id));
      if key in rows {
        rows := rows[key := UpdatedRow(rows[key], t.fields, entity.values)];
      }
      assert expected == Ok(rows);
      return Pass;
    }

    /** `deleteEntity`: remove the row with the entity's current id. */
    method DeleteEntity(entity: Entity) returns (r: Outcome)
      modifies this
      ensures online == old(online) && calls == old(calls) + [DeleteCall(entity.entityType, entity.values)]
      ensures DeleteResult(old(rows), entity.entityType, entity.values, online).Ok? ==>
        r == Pass && rows == DeleteResult(old(rows), entity.entityType, entity.values, online).value
      ensures DeleteResult(old(rows), entity.entityType, entity.values, online).Err? ==>
        r == Fail(DeleteResult(old(rows), entity.entityType, entity.values, online).error) && rows == old(rows)
    {
      calls := calls + [DeleteCall(entity.entityType, entity.values)];
      if !online {
        return Fail(StorageFault);
      }
      var t := entity.entityType;
      var id := IdValue(t, entity.values);
      if id.Err? {
        return Fail(StorageFault);
      }
      rows := rows - {RowKey(KeyTypeId(t, id.value))};
      return Pass;
    }
  }

  /**
   * Copying a row succeeds exactly when it has a column for every field and every column
   * value converts to its field's type; it fails only with the storage error or a
   * conversion error.
   */
  lemma {:induction false} HydrateIntoSucceeds(fields: seq<FieldDecl>, row: Row, acc: map<string, Value>)
    decreases |fields|
    ensures HydrateInto(fields, row, acc).Ok? <==> forall i :: 0 <= i < |fields| ==>
      ColumnName(fields[i]) in row && Coerced(fields[i], row[ColumnName(fields[i])]).Ok?
    ensures HydrateInto(fields, row, acc).Err? ==>
      HydrateInto(fields, row, acc).error in {StorageFault, NumberFormat, FieldTypeMismatch}
  {
    if fields != [] {
      var c := ColumnName(fields[0]);
      if c in row {
        CoercedSpec(fields[0], row[c]);
        if Coerced(fields[0], row[c]).Ok? {
          HydrateIntoSucceeds(fields[1..], row, acc[fields[0].name := Coerced(fields[0], row[c]).value]);
          assert forall i :: 1 <= i < |fields| ==> fields[i] == fields[1..][i - 1];
        }
      }
    }
  }

  /** Every field of a row that copies, and converts, has a column in it. */
  predicate Readable(fields: seq<FieldDecl>, row: Row) {
    forall i :: 0 <= i < |fields| ==> ColumnName(fields[i]) in row && Coerced(fields[i], row[ColumnName(fields[i])]).Ok?
  }

  /** With distinct field names, each field receives its own column's value, converted to its type. */
  lemma {:induction false} HydrateIntoContents(fields: seq<FieldDecl>, row: Row, acc: map<string, Value>)
    requires DistinctNames(fields) && Readable(fields, row)
    decreases |fields|
    ensures HydrateInto(fields, row, acc).Ok?
    ensures forall i :: 0 <= i < |fields| ==>
      fields[i].name in HydrateInto(fields, row, acc).value &&
      HydrateInto(fields, row, acc).value[fields[i].name] == Coerced(fields[i], row[ColumnName(fields[i])]).value
  {
    HydrateIntoSucceeds(fields, row, acc);
    if fields != [] {
      var c := ColumnName(fields[0]);
      var tail := fields[1..];
      var acc' := acc[fields[0].name := Coerced(fields[0], row[c]).value];
      assert forall i :: 0 <= i < |tail| ==> tail[i] == fields[i + 1];
      assert DistinctNames(tail) by {
        forall i, j | 0 <= i < j < |tail| ensures tail[i].name != tail[j].name {
          assert tail[i] == fields[i + 1] && tail[j] == fields[j + 1];
        }
      }
      HydrateIntoContents(tail, row, acc');
      HydrateIntoKeeps(tail, row, acc', fields[0].name);
      forall i | 1 <= i < |fields|
        ensures HydrateInto(fields, row, acc).value[fields[i].name] == Coerced(fields[i], row[ColumnName(fields[i])]).value
      {
        assert fields[i] == tail[i - 1];
      }
    }
  }

  /** A name that no later field carries keeps the value collected so far. */
  lemma {:induction false} HydrateIntoKeeps(fields: seq<FieldDecl>, row: Row, acc: map<string, Value>, name: string)
    requires name in acc && HydrateInto(fields, row, acc).Ok?
    requires forall i :: 0 <= i < |fields| ==> fields[i].name != name
    decreases |fields|
    ensures name in HydrateInto(fields, row, acc).value && HydrateInto(fields, row, acc).value[name] == acc[name]
  {
    if fields != [] {
      var tail := fields[1..];
      assert forall i :: 0 <= i < |tail| ==> tail[i] == fields[i + 1];
      HydrateIntoKeeps(tail, row, acc[fields[0].name := Coerced(fields[0], row[ColumnName(fields[0])]).value], name);
    }
  }

  /** Updating a row assigns every non-id column and keeps every id or unrelated column. */
  lemma {:induction false} UpdatedRowContents(row: Row, fields: seq<FieldDecl>, values: map<string, Value>)
    requires DistinctColumns(fields)
    decreases |fields|
    ensures row.Keys <= UpdatedRow(row, fields, values).Keys
    ensures forall i :: 0 <= i < |fields| && !IsIdColumn(ColumnName(fields[i])) ==>
      ColumnName(fields[i]) in UpdatedRow(row, fields, values) &&
      UpdatedRow(row, fields, values)[ColumnName(fields[i])] == FieldValue(values, fields[i].name)
    ensures forall c :: c in row && (IsIdColumn(c) || c !in ColumnSet(fields)) ==>
      UpdatedRow(row, fields, values)[c] == row[c]
  {
    if fields != [] {
      var c := ColumnName(fields[0]);
      var tail := fields[1..];
      var next := if IsIdColumn(c) then row else row[c := FieldValue(values, fields[0].name)];
      assert DistinctColumns(tail) by {
        forall i, j | 0 <= i < j < |tail| ensures ColumnName(tail[i]) != ColumnName(tail[j]) {
          assert tail[i] == fields[i + 1] && tail[j] == fields[j + 1];
        }
      }
      UpdatedRowContents(next, tail, values);
      ColumnSetCons(fields);
      var after := UpdatedRow(row, fields, values);
      forall j | 0 <= j < |tail| ensures ColumnName(tail[j]) != c {
        assert tail[j] == fields[j + 1];
      }
      assert c !in ColumnSet(tail);
      forall i | 0 <= i < |fields| && !IsIdColumn(ColumnName(fields[i]))
        ensures ColumnName(fields[i]) in after && after[ColumnName(fields[i])] == FieldValue(values, fields[i].name)
      {
        if i > 0 {
          assert fields[i] == tail[i - 1];
        }
      }
    }
  }

  /**
   * Saving an entity whose fields hold values of their declared types and selecting its key
   * yields the saved field values: `setFieldValue` gives every non-null value that fits its
   * field back unchanged, and saving already refused null values.
   */
  lemma SaveThenSelect(rows: Rows, t: EntityType, values: map<string, Value>)
    requires SaveResult(rows, t, values, true).Ok? && WellTyped(t, values)
    requires DistinctNames(t.fields) && t.constructors == 1
    ensures var key := KeyTypeId(t, IdValue(t, values).value);
      var selected := SelectResult(SaveResult(rows, t, values, true).value, key, true);
      selected.Ok? && selected.value.Some? &&
      forall i :: 0 <= i < |t.fields| ==>
        t.fields[i].name in selected.value.value &&
        selected.value.value[t.fields[i].name] == FieldValue(values, t.fields[i].name)
  {
    var key := KeyTypeId(t, IdValue(t, values).value);
    ColumnNameValuesSpec(t, values);
    var row := ColumnNameValues(t, values).value;
    assert SaveResult(rows, t, values, true).value[RowKey(key)] == row;
    forall i | 0 <= i < |t.fields|
      ensures Coerced(t.fields[i], row[ColumnName(t.fields[i])]) == Ok(FieldValue(values, t.fields[i].name))
    {
      CoercedSpec(t.fields[i], FieldValue(values, t.fields[i].name));
    }
    HydrateIntoContents(t.fields, row, map[]);
  }

  /** After a delete, selecting the entity's key finds no row. */
  lemma DeleteThenSelect(rows: Rows, t: EntityType, values: map<string, Value>)
    requires DeleteResult(rows, t, values, true).Ok? && t.constructors == 1
    ensures SelectResult(DeleteResult(rows, t, values, true).value, KeyTypeId(t, IdValue(t, values).value), true) == Ok(None)
  {
  }

  /** The value an update leaves in the column of field `f`: the entity's value, or the stored id. */
  function Written(row: Row, f: FieldDecl, values: map<string, Value>): Value {
    var c := ColumnName(f);
    if !IsIdColumn(c) then FieldValue(values, f.name) else if c in row then row[c] else Null
  }

  /**
   * After an update of a complete row, selecting it succeeds exactly when every written
   * value converts to its field's type, and then yields those converted values: the
   * entity's values for the non-id fields and the stored values for the id fields. For an
   * entity whose fields hold values of their types, a non-null non-id value comes back
   * unchanged.
   */
  lemma UpdateThenSelect(rows: Rows, t: EntityType, values: map<string, Value>, id: Value)
    requires UpdateResult(rows, t, values, id, true).Ok? && RowKey(KeyTypeId(t, id)) in rows
    requires forall i :: 0 <= i < |t.fields| ==> ColumnName(t.fields[i]) in rows[RowKey(KeyTypeId(t, id))]
    requires DistinctNames(t.fields) && DistinctColumns(t.fields) && t.constructors == 1
    ensures var row := rows[RowKey(KeyTypeId(t, id))];
      var selected := SelectResult(UpdateResult(rows, t, values, id, true).value, KeyTypeId(t, id), true);
      (selected.Ok? <==> forall i :: 0 <= i < |t.fields| ==> Coerced(t.fields[i], Written(row, t.fields[i], values)).Ok?) &&
      (selected.Ok? ==>
        selected.value.Some? &&
        forall i :: 0 <= i < |t.fields| ==>
          t.fields[i].name in selected.value.value &&
          selected.value.value[t.fields[i].name] == Coerced(t.fields[i], Written(row, t.fields[i], values)).value) &&
      (selected.Ok? && WellTyped(t, values) ==>
        forall i :: 0 <= i < |t.fields| && !IsIdColumn(ColumnName(t.fields[i])) && FieldValue(values, t.fields[i].name) != Null ==>
          selected.value.value[t.fields[i].name] == FieldValue(values, t.fields[i].name))
  {
    var key := RowKey(KeyTypeId(t, id));
    var row := rows[key];
    var updated := UpdatedRow(row, t.fields, values);
    UpdatedRowContents(row, t.fields, values);
    assert forall i :: 0 <= i < |t.fields| ==>
      ColumnName(t.fields[i]) in updated && updated[ColumnName(t.fields[i])] == Written(row, t.fields[i], values);
    HydrateIntoSucceeds(t.fields, updated, map[]);
    if Readable(t.fields, updated) {
      HydrateIntoContents(t.fields, updated, map[]);
      forall i | 0 <= i < |t.fields| && WellTyped(t, values)
        ensures Fits(t.fields[i], FieldValue(values, t.fields[i].name))
      {
      }
      forall i | 0 <= i < |t.fields|
        ensures var v := FieldValue(values, t.fields[i].name);
          Fits(t.fields[i], v) && v != Null ==> Coerced(t.fields[i], v) == Ok(v)
      {
        CoercedSpec(t.fields[i], FieldValue(values, t.fields[i].name));
      }
    }
  }
}
