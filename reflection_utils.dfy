/**
 * The mapping rules that `ReflectionUtils` reads off annotations: column and table names with
 * their defaults, the exactly-one-@Id rule, the column-to-value map of an entity, the
 * constructor check made before an entity is instantiated from a row and the conversion
 * of a column value to the type of the field it is stored in.
 */
module ReflectionUtils {
  import opened Errors
  import opened Text
  import opened Entities

  /** @Column name when present, otherwise the field name lower-cased. */
  function ColumnName(f: FieldDecl): (c: string)
    ensures f.column.Some? ==> c == f.column.value
    ensures f.column.None? ==> |c| == |f.name| && forall i :: 0 <= i < |c| ==> c[i] == LowerChar(f.name[i])
  {
    if f.column.Some? then f.column.value else ToLower(f.name)
  }

  /** @Table name when present, otherwise the fully qualified class name lower-cased. */
  function TableName(t: EntityType): (name: string)
    ensures t.table.Some? ==> name == t.table.value
    ensures t.table.None? ==> |name| == |t.className| && forall i :: 0 <= i < |name| ==> name[i] == LowerChar(t.className[i])
  {
    if t.table.Some? then t.table.value else ToLower(t.className)
  }

  /** Position `i` is the one and only field carrying @Id. */
  predicate IsSoleId(fields: seq<FieldDecl>, i: int) {
    0 <= i < |fields| && fields[i].isId && forall j :: 0 <= j < |fields| && fields[j].isId ==> j == i
  }

  /** The first @Id field at or after `from`. */
  function FirstId(fields: seq<FieldDecl>, from: nat): (r: Option<nat>)
    requires from <= |fields|
    decreases |fields| - from
    ensures r.None? <==> forall j :: from <= j < |fields| ==> !fields[j].isId
    ensures r.Some? ==> from <= r.value < |fields| && fields[r.value].isId
    ensures r.Some? ==> forall j :: from <= j < r.value ==> !fields[j].isId
  {
    if from == |fields| then None
    else if fields[from].isId then Some(from)
    else FirstId(fields, from + 1)
  }

  /**
   * `getIdValue`: the value of the single @Id field; an error when there is none or more
   * than one.
   */
  function IdValue(t: EntityType, values: map<string, Value>): (r: Result<Value>)
    ensures r == Err(IdNotFound) <==> forall j :: 0 <= j < |t.fields| ==> !t.fields[j].isId
    ensures r.Ok? <==> exists i :: IsSoleId(t.fields, i)
    ensures forall i :: IsSoleId(t.fields, i) ==> r == Ok(FieldValue(values, t.fields[i].name))
    ensures r.Err? ==> r.error == IdNotFound || r.error == IdNotUnique
  {
    match FirstId(t.fields, 0)
    case None => Err(IdNotFound)
    case Some(i) =>
      if FirstId(t.fields, i + 1).Some? then Err(IdNotUnique)
      else
        assert IsSoleId(t.fields, i);
        Ok(FieldValue(values, t.fields[i].name))
  }

  /** The set of column names of some fields. */
  function ColumnSet(fields: seq<FieldDecl>): set<string> {
    set i | 0 <= i < |fields| :: ColumnName(fields[i])
  }

  /** No two fields map to the same column. */
  predicate DistinctColumns(fields: seq<FieldDecl>) {
    forall i, j :: 0 <= i < j < |fields| ==> ColumnName(fields[i]) != ColumnName(fields[j])
  }

  /**
   * `Collectors.toMap(getColumnName, getFieldValue)` over `fields` in order, adding to `acc`:
   * a null value throws NullPointerException, a column already collected throws
   * IllegalStateException.
   */
  function CollectColumns(fields: seq<FieldDecl>, values: map<string, Value>, acc: map<string, Value>): Result<map<string, Value>>
    decreases |fields|
  {
    if fields == [] then Ok(acc)
    else
      var v := FieldValue(values, fields[0].name);
      var c := ColumnName(fields[0]);
      if v == Null then Err(NullColumnValue)
      else if c in acc then Err(DuplicateColumn)
      else CollectColumns(fields[1..], values, acc[c := v])
  }

  lemma ColumnSetCons(fields: seq<FieldDecl>)
    requires fields != []
    ensures ColumnSet(fields) == {ColumnName(fields[0])} + ColumnSet(fields[1..])
  {
    forall x | x in ColumnSet(fields) ensures x in {ColumnName(fields[0])} + ColumnSet(fields[1..]) {
      var i :| 0 <= i < |fields| && x == ColumnName(fields[i]);
      if i > 0 { assert x == ColumnName(fields[1..][i - 1]); }
    }
    forall x | x in ColumnSet(fields[1..]) ensures x in ColumnSet(fields) {
      var i :| 0 <= i < |fields[1..]| && x == ColumnName(fields[1..][i]);
      assert x == ColumnName(fields[i + 1]);
    }
  }

  /** The fold succeeds exactly when no value is null and no column repeats, here or in `acc`. */
  lemma {:induction false} CollectColumnsSucceeds(fields: seq<FieldDecl>, values: map<string, Value>, acc: map<string, Value>)
    decreases |fields|
    ensures CollectColumns(fields, values, acc).Ok? <==>
      (forall i :: 0 <= i < |fields| ==> FieldValue(values, fields[i].name) != Null) &&
      (forall i :: 0 <= i < |fields| ==> ColumnName(fields[i]) !in acc) &&
      DistinctColumns(fields)
    ensures CollectColumns(fields, values, acc).Err? ==>
      CollectColumns(fields, values, acc).error in {NullColumnValue, DuplicateColumn}
  {
    if fields != [] {
      var v := FieldValue(values, fields[0].name);
      var c := ColumnName(fields[0]);
      var tail := fields[1..];
      var acc' := acc[c := v];
      CollectColumnsSucceeds(tail, values, acc');
      var nonNull := forall i :: 0 <= i < |fields| ==> FieldValue(values, fields[i].name) != Null;
      var unseen := forall i :: 0 <= i < |fields| ==> ColumnName(fields[i]) !in acc;
      var tailNonNull := forall i :: 0 <= i < |tail| ==> FieldValue(values, tail[i].name) != Null;
      var tailFresh := forall i :: 0 <= i < |tail| ==> ColumnName(tail[i]) !in acc';
      if v != Null && c !in acc {
        assert nonNull <==> tailNonNull by {
          if tailNonNull {
            forall i | 0 <= i < |fields| ensures FieldValue(values, fields[i].name) != Null {
              if i > 0 { assert fields[i] == tail[i - 1]; }
            }
          }
          if nonNull {
            forall i | 0 <= i < |tail| ensures FieldValue(values, tail[i].name) != Null {
              assert tail[i] == fields[i + 1];
            }
          }
        }
        assert unseen && DistinctColumns(fields) <==> tailFresh && DistinctColumns(tail) by {
          if tailFresh && DistinctColumns(tail) {
            forall i | 0 <= i < |fields| ensures ColumnName(fields[i]) !in acc {
              if i > 0 { assert fields[i] == tail[i - 1]; }
            }
            forall i, j | 0 <= i < j < |fields| ensures ColumnName(fields[i]) != ColumnName(fields[j]) {
              assert fields[j] == tail[j - 1];
              if i > 0 { assert fields[i] == tail[i - 1]; }
            }
          }
          if unseen && DistinctColumns(fields) {
            forall i | 0 <= i < |tail| ensures ColumnName(tail[i]) !in acc' {
              assert tail[i] == fields[i + 1];
            }
            forall i, j | 0 <= i < j < |tail| ensures ColumnName(tail[i]) != ColumnName(tail[j]) {
              assert tail[i] == fields[i + 1] && tail[j] == fields[j + 1];
            }
          }
        }
      }
    }
  }

  /** What a successful fold holds: `acc` plus one entry per field, keyed by column. */
  lemma {:induction false} CollectColumnsContents(fields: seq<FieldDecl>, values: map<string, Value>, acc: map<string, Value>)
    requires CollectColumns(fields, values, acc).Ok?
    decreases |fields|
    ensures CollectColumns(fields, values, acc).value.Keys == acc.Keys + ColumnSet(fields)
    ensures forall c :: c in acc ==> CollectColumns(fields, values, acc).value[c] == acc[c]
    ensures forall i :: 0 <= i < |fields| ==>
      CollectColumns(fields, values, acc).value[ColumnName(fields[i])] == FieldValue(values, fields[i].name)
  {
    if fields != [] {
      var v := FieldValue(values, fields[0].name);
      var c := ColumnName(fields[0]);
      var tail := fields[1..];
      CollectColumnsContents(tail, values, acc[c := v]);
      ColumnSetCons(fields);
      var m := CollectColumns(fields, values, acc).value;
      forall i | 0 <= i < |fields| ensures m[ColumnName(fields[i])] == FieldValue(values, fields[i].name) {
        if i > 0 { assert fields[i] == tail[i - 1]; }
      }
    }
  }

  /** `getColumnNameValues`: `Collectors.toMap(getColumnName, getFieldValue)` over the declared fields. */
  function ColumnNameValues(t: EntityType, values: map<string, Value>): Result<map<string, Value>> {
    CollectColumns(t.fields, values, map[])
  }

  /**
   * `getColumnNameValues` has one entry per declared field, keyed by its column name and
   * holding its value; it fails exactly on a null value or on two fields sharing a column.
   */
  lemma ColumnNameValuesSpec(t: EntityType, values: map<string, Value>)
    ensures var r := ColumnNameValues(t, values);
      (r.Ok? <==> (forall i :: 0 <= i < |t.fields| ==> FieldValue(values, t.fields[i].name) != Null) && DistinctColumns(t.fields)) &&
      (r.Ok? ==> r.value.Keys == ColumnSet(t.fields)) &&
      (r.Ok? ==> forall i :: 0 <= i < |t.fields| ==> r.value[ColumnName(t.fields[i])] == FieldValue(values, t.fields[i].name)) &&
      (r.Err? ==> r.error in {NullColumnValue, DuplicateColumn})
  {
    CollectColumnsSucceeds(t.fields, values, map[]);
    if ColumnNameValues(t, values).Ok? {
      CollectColumnsContents(t.fields, values, map[]);
    }
  }

  /**
   * The reflective part of `initialEntity`: a type must declare exactly one constructor; the
   * new instance has every field null.
   */
  method InitialEntity(t: EntityType) returns (r: Result<Entity>)
    ensures r.Ok? <==> t.constructors == 1
    ensures r.Err? ==> r.error == ConstructorCount
    ensures r.Ok? ==> fresh(r.value) && r.value.entityType == t && r.value.values == map[]
  {
    if t.constructors != 1 {
      return Err(ConstructorCount);
    }
    var e := new Entity(t);
    return Ok(e);
  }

  /** The value of a non-empty run of ASCII digits, most significant first. */
  function DigitsValue(s: string): (r: Option<nat>)
    decreases |s|
    ensures r.Some? <==> |s| > 0 && forall i :: 0 <= i < |s| ==> '0' <= s[i] <= '9'
  {
    if |s| == 0 || !('0' <= s[|s| - 1] <= '9') then None
    else if |s| == 1 then Some(s[0] as int - '0' as int)
    else
      match DigitsValue(s[..|s| - 1])
      case None => None
      case Some(m) => Some(m * 10 + (s[|s| - 1] as int - '0' as int))
  }

  /** `Long.parseLong` and its `Short` and `Integer` siblings before the range check: an optional sign, then digits. */
  function ParseDecimal(s: string): Option<int> {
    if |s| > 0 && (s[0] == '-' || s[0] == '+') then
      match DigitsValue(s[1..])
      case None => None
      case Some(m) => Some(if s[0] == '-' then -(m as int) else m as int)
    else
      match DigitsValue(s)
      case None => None
      case Some(m) => Some(m)
  }

  /** The decimal digits of `m`, most significant first. */
  function DigitsOf(m: nat): (r: string)
    decreases m
    ensures |r| > 0 && forall i :: 0 <= i < |r| ==> '0' <= r[i] <= '9'
  {
    if m < 10 then [('0' as int + m) as char] else DigitsOf(m / 10) + [('0' as int + m % 10) as char]
  }

  /** `String.valueOf(value)`: a number in decimal, a string as it is, null as `"null"`. */
  function ValueText(v: Value): string {
    match v
    case Null => "null"
    case Num(_, n) => if n < 0 then "-" + DigitsOf(-n) else DigitsOf(n)
    case Str(s) => s
  }

  /**
   * `setFieldValue(field, value, entity)`: the value the field receives, or the exception
   * thrown. A `Short`, `Integer` or `Long` field gets `valueOf(String.valueOf(value))`,
   * which fails on text that is not a number in the wrapper's range, null included; a
   * `String` field rejects a number in `Field.set`; any other type takes the value as it is.
   */
  function Coerced(f: FieldDecl, v: Value): Result<Value> {
    match f.fieldType
    case Boxed(b) =>
      (match ParseDecimal(ValueText(v))
       case Some(n) => if InRange(b, n) then Ok(Num(b, n)) else Err(NumberFormat)
       case None => Err(NumberFormat))
    case StringType => if v.Num? then Err(FieldTypeMismatch) else Ok(v)
    case OtherType => Ok(v)
  }

  /** Reading back the digits written for `m` gives `m`. */
  lemma {:induction false} DigitsRoundTrip(m: nat)
    decreases m
    ensures DigitsValue(DigitsOf(m)) == Some(m)
  {
    if m >= 10 {
      DigitsRoundTrip(m / 10);
      var s := DigitsOf(m);
      assert s[..|s| - 1] == DigitsOf(m / 10);
    }
  }

  /** Parsing what `String.valueOf` writes for a number gives the number back. */
  lemma NumberTextRoundTrip(b: Box, n: int)
    ensures ParseDecimal(ValueText(Num(b, n))) == Some(n)
  {
    var text := ValueText(Num(b, n));
    if n < 0 {
      var digits := DigitsOf(-n);
      DigitsRoundTrip(-n);
      assert text == "-" + digits;
      assert text[0] == '-' && text[1..] == digits;
    } else {
      var digits := DigitsOf(n);
      DigitsRoundTrip(n);
      assert text == digits;
      assert '0' <= text[0] <= '9';
    }
  }

  /**
   * What `setFieldValue` stores always fits the field's type. A number is re-boxed in the
   * field's wrapper when it is in range, so a `Long` field read from an `Integer` column
   * holds a `Long`; null in a wrapper field fails, as `String.valueOf(null)` is `"null"`;
   * every other value that already fits is stored unchanged. The only failures are
   * `NumberFormatException` and the type mismatch of `Field.set`.
   */
  lemma CoercedSpec(f: FieldDecl, v: Value)
    ensures var r := Coerced(f, v);
      (r.Ok? ==> Fits(f, r.value)) &&
      (f.fieldType.Boxed? && v.Num? ==>
        (r.Ok? <==> InRange(f.fieldType.wrapper, v.n)) && (r.Ok? ==> r.value == Num(f.fieldType.wrapper, v.n))) &&
      (f.fieldType.Boxed? && v.Null? ==> r == Err(NumberFormat)) &&
      (Fits(f, v) && !(f.fieldType.Boxed? && v.Null?) ==> r == Ok(v)) &&
      (r.Err? ==> r.error == NumberFormat || r.error == FieldTypeMismatch)
  {
    if v.Num? {
      NumberTextRoundTrip(v.box, v.n);
    }
    if v.Null? {
      assert "null"[3] == 'l';
      assert DigitsValue("null") == None;
    }
  }
}
