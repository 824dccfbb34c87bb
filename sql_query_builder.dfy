/**
 * Statement text for the four storage calls. Values are never inlined: each one is a `?`
 * placeholder bound by the storage gateway. The table name always comes from the entity's
 * type through `TableName`.
 */
module SqlQueryBuilder {
  import opened Errors
  import opened Text
  import opened Entities
  import opened ReflectionUtils

  /** `SELECT * FROM <table> WHERE id = ?` */
  function SelectEntityQuery(t: EntityType): (q: string)
  {
    "SELECT * FROM " + TableName(t) + " WHERE id = ?"
  }

  /** `DELETE FROM <table> WHERE id = ?` */
  function DeleteEntityQuery(t: EntityType): (q: string)
  {
    "DELETE FROM " + TableName(t) + " WHERE id = ?"
  }

  /** `c1= ?`, ..., `cn= ?` for the columns in order. */
  function Assignments(columnNames: seq<string>): (r: seq<string>)
    ensures |r| == |columnNames|
    ensures forall i :: 0 <= i < |r| ==> r[i] == columnNames[i] + "= ?"
  {
    seq(|columnNames|, i requires 0 <= i < |columnNames| => columnNames[i] + "= ?")
  }

  /** The text of a successful `updateEntityQuery`. */
  function UpdateText(table: string, columnNames: seq<string>): string {
    "UPDATE " + table + " SET " + Join(Assignments(columnNames), ",") + " WHERE id = ?"
  }

  /**
   * `updateEntityQuery`: appends `name= ?,` per column, drops the last character and formats
   * the statement. With no columns there is no character to drop and the call fails.
   */
  method UpdateEntityQuery(t: EntityType, columnNames: seq<string>) returns (r: Result<string>)
    ensures r.Ok? <==> |columnNames| > 0
    ensures r.Err? ==> r.error == EmptyColumnList
    ensures r.Ok? ==> r.value == UpdateText(TableName(t), columnNames)
  {
    var tableName := TableName(t);
    var stringBuilder := "";
    for i := 0 to |columnNames|
      invariant stringBuilder == Suffixed(Assignments(columnNames[..i]), ",")
    {
      assert Assignments(columnNames[..i + 1])[..i] == Assignments(columnNames[..i]);
      stringBuilder := stringBuilder + columnNames[i] + "= ?" + ",";
    }
    assert columnNames[..|columnNames|] == columnNames;
    if |columnNames| > 0 {
      SuffixedIsJoinPlusSep(Assignments(columnNames), ",");
    }
    // `deleteCharAt(length - 1)` on an empty builder is the failing case.
    if |stringBuilder| == 0 {
      return Err(EmptyColumnList);
    }
    var arguments := stringBuilder[..|stringBuilder| - 1];
    assert arguments == Join(Assignments(columnNames), ",");
    return Ok("UPDATE " + tableName + " SET " + arguments + " WHERE id = ?");
  }

  /** `(c1,...,cn)`; with no items the opening parenthesis is the character dropped. */
  function ParenList(items: seq<string>): string {
    if items == [] then ")" else "(" + Join(items, ",") + ")"
  }

  function Placeholders(n: nat): (r: seq<string>)
    ensures |r| == n && forall i :: 0 <= i < n ==> r[i] == "?"
  {
    seq(n, _ => "?")
  }

  /** The text `saveEntityQuery` builds. */
  function InsertText(table: string, columnNames: seq<string>): string {
    "INSERT INTO " + table + " " + ParenList(columnNames) + " VALUES " + ParenList(Placeholders(|columnNames|))
  }

  /** Appends `item,` per item to `(`, drops the last character and closes with `)`. */
  method ParenthesizedList(items: seq<string>) returns (text: string)
    ensures text == ParenList(items)
  {
    var names := "(";
    for i := 0 to |items|
      invariant names == "(" + Suffixed(items[..i], ",")
    {
      assert items[..i + 1][..i] == items[..i];
      names := names + items[i] + ",";
    }
    assert items[..|items|] == items;
    if items != [] {
      SuffixedIsJoinPlusSep(items, ",");
    }
    names := names[..|names| - 1];
    names := names + ")";
    return names;
  }

  /**
   * `saveEntityQuery`: the column list and a list of as many `?` as columns, both in the
   * iteration order of `columnNames`.
   */
  method SaveEntityQuery(t: EntityType, columnNames: seq<string>) returns (q: string)
    ensures q == InsertText(TableName(t), columnNames)
  {
    var tableName := TableName(t);
    var names := ParenthesizedList(columnNames);
    var values := ParenthesizedList(Placeholders(|columnNames|));
    return "INSERT INTO " + tableName + " " + names + " VALUES " + values;
  }

  /** Joining items that hold no `?` with a separator that holds none gives none. */
  lemma {:induction false} CountJoin(items: seq<string>, sep: string, c: char)
    requires c !in sep
    decreases |items|
    ensures Count(Join(items, sep), c) == SumCounts(items, c)
  {
    if |items| == 1 {
      assert SumCounts(items[..0], c) == 0;
    } else if |items| > 1 {
      var init := items[..|items| - 1];
      CountJoin(init, sep, c);
      CountConcat(Join(init, sep), sep, c);
      CountConcat(Join(init, sep) + sep, items[|items| - 1], c);
      CountAbsent(sep, c);
    }
  }

  function SumCounts(items: seq<string>, c: char): nat
    decreases |items|
  {
    if items == [] then 0 else SumCounts(items[..|items| - 1], c) + Count(items[|items| - 1], c)
  }

  lemma {:induction false} SumCountsAssignments(columnNames: seq<string>)
    requires forall i :: 0 <= i < |columnNames| ==> '?' !in columnNames[i]
    decreases |columnNames|
    ensures SumCounts(Assignments(columnNames), '?') == |columnNames|
  {
    if columnNames != [] {
      var init := columnNames[..|columnNames| - 1];
      assert Assignments(columnNames)[..|columnNames| - 1] == Assignments(init);
      SumCountsAssignments(init);
      var last := columnNames[|columnNames| - 1];
      CountConcat(last, "= ?", '?');
      CountAbsent(last, '?');
    }
  }

  lemma {:induction false} SumCountsPlaceholders(n: nat)
    decreases n
    ensures SumCounts(Placeholders(n), '?') == n
  {
    if n > 0 {
      assert Placeholders(n)[..n - 1] == Placeholders(n - 1);
      SumCountsPlaceholders(n - 1);
    }
  }

  /** The WHERE clause up to its placeholder holds no `?`. */
  lemma WhereHeadAbsent()
    ensures Count(" WHERE id = ", '?') == 0
  {
    CountAbsent(" WHERE id = ", '?');
  }

  /** The WHERE clause shared by select, update and delete holds one placeholder. */
  lemma WherePlaceholder()
    ensures Count(" WHERE id = ?", '?') == 1
  {
    WhereHeadAbsent();
    CountConcat(" WHERE id = ", "?", '?');
    assert " WHERE id = " + "?" == " WHERE id = ?";
  }

  /** `Count` over three pieces. */
  lemma CountConcat3(a: string, b: string, c: string, ch: char)
    ensures Count(a + b + c, ch) == Count(a, ch) + Count(b, ch) + Count(c, ch)
  {
    CountConcat(a + b, c, ch);
    CountConcat(a, b, ch);
  }

  /**
   * With a table and column names free of `?`, the update statement has one placeholder per
   * column plus the one of the WHERE clause.
   */
  lemma UpdatePlaceholders(table: string, columnNames: seq<string>)
    requires '?' !in table && forall i :: 0 <= i < |columnNames| ==> '?' !in columnNames[i]
    ensures Count(UpdateText(table, columnNames), '?') == |columnNames| + 1
  {
    var clause := Join(Assignments(columnNames), ",");
    CountJoin(Assignments(columnNames), ",", '?');
    SumCountsAssignments(columnNames);
    assert Count(clause, '?') == |columnNames|;
    var head := "UPDATE " + table + " SET ";
    CountConcat3("UPDATE ", table, " SET ", '?');
    CountAbsent("UPDATE ", '?');
    CountAbsent(table, '?');
    CountAbsent(" SET ", '?');
    assert Count(head, '?') == 0;
    WherePlaceholder();
    CountConcat3(head, clause, " WHERE id = ?", '?');
    assert UpdateText(table, columnNames) == head + clause + " WHERE id = ?";
  }

  /** The SET clause has no trailing comma: it ends with the last column's placeholder. */
  lemma {:induction false} UpdateEndsWithPlaceholder(columnNames: seq<string>)
    requires |columnNames| > 0
    ensures var clause := Join(Assignments(columnNames), ",");
      |clause| >= 3 && clause[|clause| - 3..] == "= ?"
  {
    var items := Assignments(columnNames);
    var last := items[|items| - 1];
    assert last == columnNames[|columnNames| - 1] + "= ?";
    if |items| > 1 {
      var clause := Join(items[..|items| - 1], ",") + "," + last;
      assert clause[|clause| - 3..] == last[|last| - 3..];
    }
  }

  /** A parenthesized list of `n` items free of `c` holds as many `c` as its items. */
  lemma ParenListCount(items: seq<string>, c: char)
    requires c != '(' && c != ')' && c != ','
    ensures Count(ParenList(items), c) == SumCounts(items, c)
  {
    CountAbsent(")", c);
    if items != [] {
      CountJoin(items, ",", c);
      CountConcat3("(", Join(items, ","), ")", c);
      CountAbsent("(", c);
    }
  }

  /**
   * With a table and column names free of `?`, the insert statement has exactly one
   * placeholder per column.
   */
  lemma InsertPlaceholders(table: string, columnNames: seq<string>)
    requires '?' !in table && forall i :: 0 <= i < |columnNames| ==> '?' !in columnNames[i]
    ensures Count(InsertText(table, columnNames), '?') == |columnNames|
  {
    var n := |columnNames|;
    var names, values := ParenList(columnNames), ParenList(Placeholders(n));
    ParenListCount(columnNames, '?');
    SumCountsAbsent(columnNames, '?');
    ParenListCount(Placeholders(n), '?');
    SumCountsPlaceholders(n);
    HeadClean("INSERT INTO ", table);
    var head := "INSERT INTO " + table;
    AppendClean(head, " ");
    CountConcat(head + " ", names, '?');
    AppendClean(head + " " + names, " VALUES ");
    CountConcat(head + " " + names + " VALUES ", values, '?');
  }

  /** Appending a `?`-free piece to a `?`-free text keeps it free of `?`. */
  lemma AppendClean(prefix: string, suffix: string)
    requires Count(prefix, '?') == 0 && '?' !in suffix
    ensures Count(prefix + suffix, '?') == 0
  {
    CountAbsent(suffix, '?');
    CountConcat(prefix, suffix, '?');
  }

  lemma {:induction false} SumCountsAbsent(items: seq<string>, c: char)
    requires forall i :: 0 <= i < |items| ==> c !in items[i]
    decreases |items|
    ensures SumCounts(items, c) == 0
  {
    if items != [] {
      SumCountsAbsent(items[..|items| - 1], c);
      CountAbsent(items[|items| - 1], c);
    }
  }

  /** A `?`-free head followed by a `?`-free table name holds no `?`. */
  lemma HeadClean(head: string, table: string)
    requires '?' !in head && '?' !in table
    ensures Count(head + table, '?') == 0
  {
    CountAbsent(head, '?');
    CountAbsent(table, '?');
    CountConcat(head, table, '?');
  }

  /** Appending the WHERE clause adds its one placeholder. */
  lemma WhereAppended(prefix: string)
    requires Count(prefix, '?') == 0
    ensures Count(prefix + " WHERE id = ?", '?') == 1
  {
    WherePlaceholder();
    CountConcat(prefix, " WHERE id = ?", '?');
  }

  /** A select statement carries the single placeholder of its WHERE clause. */
  lemma SelectPlaceholders(t: EntityType)
    requires '?' !in TableName(t)
    ensures Count(SelectEntityQuery(t), '?') == 1
  {
    HeadClean("SELECT * FROM ", TableName(t));
    WhereAppended("SELECT * FROM " + TableName(t));
  }

  /** A delete statement carries the single placeholder of its WHERE clause. */
  lemma DeletePlaceholders(t: EntityType)
    requires '?' !in TableName(t)
    ensures Count(DeleteEntityQuery(t), '?') == 1
  {
    HeadClean("DELETE FROM ", TableName(t));
    WhereAppended("DELETE FROM " + TableName(t));
  }
}
