/**
 * Snapshots and dirty checking. A snapshot is the list of an entity's field values with the
 * declared fields sorted by name (`sorted(comparing(Field::getName))`); `hasChanged`
 * compares the current values against it position by position.
 */
module Utils {
  import opened Text
  import opened Entities
  import opened Keys

  /** Adjacent fields are in name order. */
  predicate SortedByName(s: seq<FieldDecl>) {
    forall i :: 0 <= i < |s| - 1 ==> LexLe(s[i].name, s[i + 1].name)
  }

  /** One step of insertion sort: `f` goes before the first field it is not after. */
  function InsertByName(f: FieldDecl, s: seq<FieldDecl>): (r: seq<FieldDecl>)
    decreases |s|
    ensures |r| == |s| + 1
    ensures multiset(r) == multiset(s) + multiset{f}
    ensures r[0] == f || (|s| > 0 && r[0] == s[0])
  {
    if s == [] || LexLe(f.name, s[0].name) then [f] + s
    else
      assert s == [s[0]] + s[1..];
      [s[0]] + InsertByName(f, s[1..])
  }

  /** Insertion sort by field name. */
  function SortByName(s: seq<FieldDecl>): (r: seq<FieldDecl>)
    decreases |s|
    ensures |r| == |s|
    ensures multiset(r) == multiset(s)
  {
    if s == [] then []
    else
      assert s == [s[0]] + s[1..];
      InsertByName(s[0], SortByName(s[1..]))
  }

  /** The declared fields of a type in ascending name order. */
  function FieldsByName(t: EntityType): (r: seq<FieldDecl>)
    ensures |r| == |t.fields|
    ensures multiset(r) == multiset(t.fields)
  {
    SortByName(t.fields)
  }

  /** Inserting into a sorted list keeps it sorted. */
  lemma {:induction false} InsertByNameSorted(f: FieldDecl, s: seq<FieldDecl>)
    requires SortedByName(s)
    decreases |s|
    ensures SortedByName(InsertByName(f, s))
  {
    if s != [] && !LexLe(f.name, s[0].name) {
      LexLeTotal(f.name, s[0].name);
      var rest := InsertByName(f, s[1..]);
      assert SortedByName(s[1..]) by {
        forall i | 0 <= i < |s[1..]| - 1 ensures LexLe(s[1..][i].name, s[1..][i + 1].name) {
          assert s[1..][i] == s[i + 1] && s[1..][i + 1] == s[i + 2];
        }
      }
      InsertByNameSorted(f, s[1..]);
      forall i | 0 <= i < |[s[0]] + rest| - 1
        ensures LexLe(([s[0]] + rest)[i].name, ([s[0]] + rest)[i + 1].name)
      {
        if i > 0 { assert ([s[0]] + rest)[i] == rest[i - 1] && ([s[0]] + rest)[i + 1] == rest[i]; }
      }
    }
  }

  /** Insertion sort sorts. */
  lemma {:induction false} SortByNameSorted(s: seq<FieldDecl>)
    decreases |s|
    ensures SortedByName(SortByName(s))
  {
    if s != [] {
      SortByNameSorted(s[1..]);
      InsertByNameSorted(s[0], SortByName(s[1..]));
    }
  }

  /**
   * The snapshot order: every declared field exactly once, each name no greater than the
   * names after it.
   */
  lemma FieldsByNameOrdered(t: EntityType)
    ensures multiset(FieldsByName(t)) == multiset(t.fields)
    ensures forall i, j :: 0 <= i <= j < |t.fields| ==> LexLe(FieldsByName(t)[i].name, FieldsByName(t)[j].name)
  {
    SortByNameSorted(t.fields);
    forall i, j | 0 <= i <= j < |t.fields|
      ensures LexLe(FieldsByName(t)[i].name, FieldsByName(t)[j].name)
    {
      SortedByNamePairwise(FieldsByName(t), i, j);
    }
  }

  /** Sortedness of neighbours gives sortedness of every pair. */
  lemma {:induction false} SortedByNamePairwise(s: seq<FieldDecl>, i: int, j: int)
    requires SortedByName(s) && 0 <= i <= j < |s|
    decreases j - i
    ensures LexLe(s[i].name, s[j].name)
  {
    if i == j {
      LexLeReflexive(s[i].name);
    } else {
      SortedByNamePairwise(s, i + 1, j);
      LexLeTransitive(s[i].name, s[i + 1].name, s[j].name);
    }
  }

  lemma {:induction false} LexLeReflexive(a: string)
    ensures LexLe(a, a)
  {
    if |a| > 0 { LexLeReflexive(a[1..]); }
  }

  /** The values of `fields`, in that order. */
  function ValuesOf(fields: seq<FieldDecl>, values: map<string, Value>): (r: seq<Value>)
    decreases |fields|
    ensures |r| == |fields|
    ensures forall i :: 0 <= i < |fields| ==> r[i] == FieldValue(values, fields[i].name)
  {
    if fields == [] then [] else [FieldValue(values, fields[0].name)] + ValuesOf(fields[1..], values)
  }

  /** `addSnapshot`: the field values of an entity of type `t`, fields in name order. */
  function SnapshotOf(t: EntityType, values: map<string, Value>): (r: seq<Value>)
    ensures |r| == |t.fields|
    ensures forall i :: 0 <= i < |r| ==> r[i] == FieldValue(values, FieldsByName(t)[i].name)
  {
    ValuesOf(FieldsByName(t), values)
  }

  /** Some field, taken in name order, differs (`!Objects.equals`) from its snapshot entry. */
  predicate Changed(snapshot: seq<Value>, t: EntityType, values: map<string, Value>)
    requires |snapshot| >= |t.fields|
  {
    exists i :: 0 <= i < |t.fields| && snapshot[i] != FieldValue(values, FieldsByName(t)[i].name)
  }

  /**
   * `Utils.hasChanged` for one cache entry: walks the fields in name order and stops at the
   * first that differs from the snapshot stored under `key`. Reads only.
   */
  method HasChanged(key: KeyTypeId, entity: Entity, snapshotCopy: map<KeyTypeId, seq<Value>>) returns (changed: bool)
    requires key in snapshotCopy && |snapshotCopy[key]| >= |key.keyType.fields|
    ensures changed == Changed(snapshotCopy[key], key.keyType, entity.values)
  {
    var snapshotValues := snapshotCopy[key];
    var declaredFields := FieldsByName(key.keyType);
    for i := 0 to |declaredFields|
      invariant forall j :: 0 <= j < i ==> snapshotValues[j] == FieldValue(entity.values, declaredFields[j].name)
    {
      if snapshotValues[i] != FieldValue(entity.values, declaredFields[i].name) {
        return true;
      }
    }
    return false;
  }

  /** Changed exactly when the stored entries differ from a fresh snapshot. */
  lemma ChangedIffSnapshotDiffers(snapshot: seq<Value>, t: EntityType, values: map<string, Value>)
    requires |snapshot| >= |t.fields|
    ensures Changed(snapshot, t, values) <==> snapshot[..|t.fields|] != SnapshotOf(t, values)
  {
    var taken := SnapshotOf(t, values);
    if !Changed(snapshot, t, values) {
      assert snapshot[..|t.fields|] == taken;
    } else {
      var i :| 0 <= i < |t.fields| && snapshot[i] != FieldValue(values, FieldsByName(t)[i].name);
      assert snapshot[..|t.fields|][i] != taken[i];
    }
  }

  /** Right after a snapshot is taken, nothing has changed. */
  lemma SnapshotIsUnchanged(t: EntityType, values: map<string, Value>)
    ensures !Changed(SnapshotOf(t, values), t, values)
  {
  }

  /** Setting one field to a value different from its snapshot entry makes the entity changed. */
  lemma {:induction false} MutationIsChanged(t: EntityType, values: map<string, Value>, name: string, v: Value)
    requires Declares(t, name) && FieldValue(values, name) != v
    ensures Changed(SnapshotOf(t, values), t, values[name := v])
  {
    var i :| 0 <= i < |t.fields| && t.fields[i].name == name;
    assert t.fields[i] in multiset(FieldsByName(t));
    var j :| 0 <= j < |FieldsByName(t)| && FieldsByName(t)[j] == t.fields[i];
    assert SnapshotOf(t, values)[j] != FieldValue(values[name := v], FieldsByName(t)[j].name);
  }
}
