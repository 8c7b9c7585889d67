/** compareDatabases: the list of differences between two `public` schemas.
    The records come in a fixed order: tables only in the first database,
    tables only in the second, then, for every first-database table whose
    name the second database also has, its column differences. Each segment
    is specified by a function over a prefix of its input list, and the
    imperative methods below, which build the same maps and append to the
    same slice as the tool does, are proved to produce exactly that list. */
module SchemaCompare {
  import opened SchemaTypes

  /* ---------------------------------------------------------------------
     Specification
     --------------------------------------------------------------------- */

  /** table_missing records, in list order, for the tables of `ts` whose name
      is not a key of `other`; `db1Value`/`db2Value` say which side has it. */
  function TablesAbsentFrom(ts: seq<Table>, other: map<string, Table>, db1Value: string, db2Value: string): seq<Difference>
  {
    if ts == [] then []
    else
      var rest := TablesAbsentFrom(ts[..|ts| - 1], other, db1Value, db2Value);
      var t := ts[|ts| - 1];
      if t.name in other then rest
      else rest + [Difference(TableMissing, t.name, "", db1Value, db2Value)]
  }

  /** column_missing records, in list order, for the columns of `cs` whose
      name is not a key of `other`. */
  function ColumnsAbsentFrom(tableName: string, cs: seq<Column>, other: map<string, Column>, db1Value: string, db2Value: string): seq<Difference>
  {
    if cs == [] then []
    else
      var rest := ColumnsAbsentFrom(tableName, cs[..|cs| - 1], other, db1Value, db2Value);
      var c := cs[|cs| - 1];
      if c.name in other then rest
      else rest + [Difference(ColumnMissing, tableName, c.name, db1Value, db2Value)]
  }

  /** The type and nullability records for one first-database column whose
      name the second table also has. */
  function ColumnMismatch(tableName: string, c1: Column, c2: Column): seq<Difference>
  {
    (if c1.dataType != c2.dataType
     then [Difference(ColumnTypeDifferent, tableName, c1.name, c1.dataType, c2.dataType)]
     else [])
    + (if c1.nullable != c2.nullable
       then [Difference(ColumnNullableDifferent, tableName, c1.name, NullableText(c1.nullable), NullableText(c2.nullable))]
       else [])
  }

  /** Mismatch records for the columns of `cs` present in `other`, in list order. */
  function Mismatches(tableName: string, cs: seq<Column>, other: map<string, Column>): seq<Difference>
  {
    if cs == [] then []
    else
      var rest := Mismatches(tableName, cs[..|cs| - 1], other);
      var c := cs[|cs| - 1];
      if c.name in other then rest + ColumnMismatch(tableName, c, other[c.name]) else rest
  }

  /** The column-level records for a pair of same-named tables. */
  function ColumnDiffs(t1: Table, t2: Table): seq<Difference>
  {
    var index1, index2 := ColumnIndex(t1.columns), ColumnIndex(t2.columns);
    ColumnsAbsentFrom(t1.name, t1.columns, index2, Present, Absent)
    + ColumnsAbsentFrom(t2.name, t2.columns, index1, Absent, Present)
    + Mismatches(t1.name, t1.columns, index2)
  }

  /** Column-level records for every table of `ts` whose name is a key of `other`. */
  function SharedTableDiffs(ts: seq<Table>, other: map<string, Table>): seq<Difference>
  {
    if ts == [] then []
    else
      var rest := SharedTableDiffs(ts[..|ts| - 1], other);
      var t := ts[|ts| - 1];
      if t.name in other then rest + ColumnDiffs(t, other[t.name]) else rest
  }

  /** A column named `name` of `t1` has type v1, and the column of that name
      in `t2` (the last one, as the index keeps it) has another type v2. */
  predicate ColumnTypeDiffers(t1: Table, t2: Table, name: string, v1: string, v2: string) {
    name in ColumnIndex(t2.columns) && v2 == ColumnIndex(t2.columns)[name].dataType && v1 != v2
    && exists i :: 0 <= i < |t1.columns| && t1.columns[i].name == name && t1.columns[i].dataType == v1
  }

  /** A column named `name` of `t1` and the column of that name in `t2` differ
      in nullability, and v1 and v2 spell the two as "NULL"/"NOT NULL". */
  predicate ColumnNullableDiffers(t1: Table, t2: Table, name: string, v1: string, v2: string) {
    name in ColumnIndex(t2.columns)
    && exists i :: 0 <= i < |t1.columns| && t1.columns[i].name == name
                   && t1.columns[i].nullable != ColumnIndex(t2.columns)[name].nullable
                   && v1 == NullableText(t1.columns[i].nullable)
                   && v2 == NullableText(ColumnIndex(t2.columns)[name].nullable)
  }

  /** The whole result of comparing `db1` with `db2`. */
  function Compare(db1: seq<Table>, db2: seq<Table>): seq<Difference>
  {
    var index1, index2 := TableIndex(db1), TableIndex(db2);
    TablesAbsentFrom(db1, index2, Present, Absent)
    + TablesAbsentFrom(db2, index1, Absent, Present)
    + SharedTableDiffs(db1, index2)
  }

  /* ---------------------------------------------------------------------
     The comparison as the tool runs it
     --------------------------------------------------------------------- */

  method BuildTableIndex(ts: seq<Table>) returns (m: map<string, Table>)
    ensures m == TableIndex(ts)
  {
    m := map[];
    var i := 0;
    while i < |ts|
      invariant 0 <= i <= |ts|
      invariant m == TableIndex(ts[..i])
    {
      assert ts[..i + 1][..i] == ts[..i];
      m := m[ts[i].name := ts[i]];
      i := i + 1;
    }
    assert ts[..|ts|] == ts;
  }

  method BuildColumnIndex(cs: seq<Column>) returns (m: map<string, Column>)
    ensures m == ColumnIndex(cs)
  {
    m := map[];
    var i := 0;
    while i < |cs|
      invariant 0 <= i <= |cs|
      invariant m == ColumnIndex(cs[..i])
    {
      assert cs[..i + 1][..i] == cs[..i];
      m := m[cs[i].name := cs[i]];
      i := i + 1;
    }
    assert cs[..|cs|] == cs;
  }

  /** One of the two column_missing loops of the tool: appends a record for
      every column of `cs` whose name is not a key of `other`. */
  method AppendMissingColumns(tableName: string, cs: seq<Column>, other: map<string, Column>,
                              db1Value: string, db2Value: string, differences: seq<Difference>)
    returns (result: seq<Difference>)
    ensures result == differences + ColumnsAbsentFrom(tableName, cs, other, db1Value, db2Value)
  {
    result := differences;
    var i := 0;
    while i < |cs|
      invariant 0 <= i <= |cs|
      invariant result == differences + ColumnsAbsentFrom(tableName, cs[..i], other, db1Value, db2Value)
    {
      assert cs[..i + 1][..i] == cs[..i];
      var column := cs[i];
      if column.name !in other {
        result := result + [Difference(ColumnMissing, tableName, column.name, db1Value, db2Value)];
      }
      i := i + 1;
    }
    assert cs[..|cs|] == cs;
  }

  /** The loop over the columns both tables have: appends the type and
      nullability records. */
  method AppendMismatches(tableName: string, cs: seq<Column>, other: map<string, Column>, differences: seq<Difference>)
    returns (result: seq<Difference>)
    ensures result == differences + Mismatches(tableName, cs, other)
  {
    result := differences;
    var k := 0;
    while k < |cs|
      invariant 0 <= k <= |cs|
      invariant result == differences + Mismatches(tableName, cs[..k], other)
    {
      assert cs[..k + 1][..k] == cs[..k];
      ghost var before := result;
      var column1 := cs[k];
      if column1.name in other {
        var column2 := other[column1.name];
        if column1.dataType != column2.dataType {
          result := result + [Difference(ColumnTypeDifferent, tableName, column1.name, column1.dataType, column2.dataType)];
        }
        if column1.nullable != column2.nullable {
          var db1Nullable := "NOT NULL";
          if column1.nullable {
            db1Nullable := "NULL";
          }
          var db2Nullable := "NOT NULL";
          if column2.nullable {
            db2Nullable := "NULL";
          }
          result := result + [Difference(ColumnNullableDifferent, tableName, column1.name, db1Nullable, db2Nullable)];
        }
        assert result == before + ColumnMismatch(tableName, column1, column2);
      }
      k := k + 1;
    }
    assert cs[..|cs|] == cs;
  }

  /** The body of the outer loop over the first database's tables, for one
      table `t1` and the second database's table `t2` of the same name:
      appends the column differences to `differences`. */
  method CompareColumns(t1: Table, t2: Table, differences: seq<Difference>) returns (result: seq<Difference>)
    ensures result == differences + ColumnDiffs(t1, t2)
  {
    var columns1 := BuildColumnIndex(t1.columns);
    var columns2 := BuildColumnIndex(t2.columns);
    result := AppendMissingColumns(t1.name, t1.columns, columns2, Present, Absent, differences);
    result := AppendMissingColumns(t2.name, t2.columns, columns1, Absent, Present, result);
    result := AppendMismatches(t1.name, t1.columns, columns2, result);
  }

  /** One of the two table_missing loops of the tool: appends a record for
      every table of `ts` whose name is not a key of `other`. */
  method AppendMissingTables(ts: seq<Table>, other: map<string, Table>,
                             db1Value: string, db2Value: string, differences: seq<Difference>)
    returns (result: seq<Difference>)
    ensures result == differences + TablesAbsentFrom(ts, other, db1Value, db2Value)
  {
    result := differences;
    var i := 0;
    while i < |ts|
      invariant 0 <= i <= |ts|
      invariant result == differences + TablesAbsentFrom(ts[..i], other, db1Value, db2Value)
    {
      assert ts[..i + 1][..i] == ts[..i];
      var table := ts[i];
      if table.name !in other {
        result := result + [Difference(TableMissing, table.name, "", db1Value, db2Value)];
      }
      i := i + 1;
    }
    assert ts[..|ts|] == ts;
  }

  /** The loop over the first database's tables that the second database also
      has: appends the column differences of each. */
  method AppendSharedTableDiffs(ts: seq<Table>, other: map<string, Table>, differences: seq<Difference>)
    returns (result: seq<Difference>)
    ensures result == differences + SharedTableDiffs(ts, other)
  {
    result := differences;
    var k := 0;
    while k < |ts|
      invariant 0 <= k <= |ts|
      invariant result == differences + SharedTableDiffs(ts[..k], other)
    {
      assert ts[..k + 1][..k] == ts[..k];
      var db1Table := ts[k];
      if db1Table.name in other {
        var db2Table := other[db1Table.name];
        result := CompareColumns(db1Table, db2Table, result);
      }
      k := k + 1;
    }
    assert ts[..|ts|] == ts;
  }

  method CompareDatabases(db1Tables: seq<Table>, db2Tables: seq<Table>) returns (differences: seq<Difference>)
    ensures differences == Compare(db1Tables, db2Tables)
  {
    var db1TablesMap := BuildTableIndex(db1Tables);
    var db2TablesMap := BuildTableIndex(db2Tables);
    differences := AppendMissingTables(db1Tables, db2TablesMap, Present, Absent, []);
    differences := AppendMissingTables(db2Tables, db1TablesMap, Absent, Present, differences);
    differences := AppendSharedTableDiffs(db1Tables, db2TablesMap, differences);
  }

  /* ---------------------------------------------------------------------
     Properties of the comparison
     --------------------------------------------------------------------- */

  /** A table_missing record for a table the first database has and the second lacks. */
  predicate IsFirstOnlyTable(d: Difference) {
    d.kind == TableMissing && d.db1Value == Present && d.db2Value == Absent
  }

  /** A table_missing record for a table the second database has and the first lacks. */
  predicate IsSecondOnlyTable(d: Difference) {
    d.kind == TableMissing && d.db1Value == Absent && d.db2Value == Present
  }

  lemma {:induction false} TablesAbsentFromShape(ts: seq<Table>, other: map<string, Table>, db1Value: string, db2Value: string)
    ensures forall d | d in TablesAbsentFrom(ts, other, db1Value, db2Value) ::
      d.kind == TableMissing && d.columnName == "" && d.db1Value == db1Value && d.db2Value == db2Value
      && d.tableName in TableNames(ts) && d.tableName !in other
  {
    if ts != [] {
      var init := ts[..|ts| - 1];
      TablesAbsentFromShape(init, other, db1Value, db2Value);
      assert TableNames(init) <= TableNames(ts) by {
        forall n | n in TableNames(init) ensures n in TableNames(ts) {
          var i :| 0 <= i < |init| && init[i].name == n;
          assert ts[i] == init[i];
        }
      }
      assert ts[|ts| - 1].name in TableNames(ts);
    }
  }

  /** Each entry of `ts` whose name `other` lacks yields one record, and no
      other entry yields any. */
  lemma {:induction false} TablesAbsentFromCount(ts: seq<Table>, other: map<string, Table>, db1Value: string, db2Value: string, name: string)
    ensures multiset(TablesAbsentFrom(ts, other, db1Value, db2Value))[Difference(TableMissing, name, "", db1Value, db2Value)]
            == if name in other then 0 else CountTablesNamed(ts, name)
  {
    if ts != [] {
      TablesAbsentFromCount(ts[..|ts| - 1], other, db1Value, db2Value, name);
    }
  }

  lemma {:induction false} ColumnsAbsentFromShape(tableName: string, cs: seq<Column>, other: map<string, Column>, db1Value: string, db2Value: string)
    ensures forall d | d in ColumnsAbsentFrom(tableName, cs, other, db1Value, db2Value) ::
      d.kind == ColumnMissing && d.tableName == tableName && d.db1Value == db1Value && d.db2Value == db2Value
      && d.columnName in ColumnNames(cs) && d.columnName !in other
  {
    if cs != [] {
      var init := cs[..|cs| - 1];
      ColumnsAbsentFromShape(tableName, init, other, db1Value, db2Value);
      assert ColumnNames(init) <= ColumnNames(cs) by {
        forall n | n in ColumnNames(init) ensures n in ColumnNames(cs) {
          var i :| 0 <= i < |init| && init[i].name == n;
          assert cs[i] == init[i];
        }
      }
      assert cs[|cs| - 1].name in ColumnNames(cs);
    }
  }

  lemma {:induction false} ColumnsAbsentFromCount(tableName: string, cs: seq<Column>, other: map<string, Column>, db1Value: string, db2Value: string, name: string)
    ensures multiset(ColumnsAbsentFrom(tableName, cs, other, db1Value, db2Value))[Difference(ColumnMissing, tableName, name, db1Value, db2Value)]
            == if name in other then 0 else CountColumnsNamed(cs, name)
  {
    if cs != [] {
      ColumnsAbsentFromCount(tableName, cs[..|cs| - 1], other, db1Value, db2Value, name);
    }
  }

  lemma {:induction false} MismatchesShape(tableName: string, cs: seq<Column>, other: map<string, Column>)
    ensures forall d | d in Mismatches(tableName, cs, other) ::
      (d.kind == ColumnTypeDifferent || d.kind == ColumnNullableDifferent)
      && d.tableName == tableName && d.columnName in ColumnNames(cs) && d.columnName in other
  {
    if cs != [] {
      var init := cs[..|cs| - 1];
      MismatchesShape(tableName, init, other);
      assert ColumnNames(init) <= ColumnNames(cs) by {
        forall n | n in ColumnNames(init) ensures n in ColumnNames(cs) {
          var i :| 0 <= i < |init| && init[i].name == n;
          assert cs[i] == init[i];
        }
      }
      assert cs[|cs| - 1].name in ColumnNames(cs);
    }
  }

  /** A type record names a first-table column whose name `other` has, with
      the two differing types as values; and every such column yields one. */
  lemma {:induction false} MismatchesType(tableName: string, cs: seq<Column>, other: map<string, Column>, name: string, v1: string, v2: string)
    ensures Difference(ColumnTypeDifferent, tableName, name, v1, v2) in Mismatches(tableName, cs, other)
            <==> name in other && v2 == other[name].dataType && v1 != v2
                 && exists i :: 0 <= i < |cs| && cs[i].name == name && cs[i].dataType == v1
  {
    if cs != [] {
      var init, last := cs[..|cs| - 1], cs[|cs| - 1];
      MismatchesType(tableName, init, other, name, v1, v2);
      if exists i :: 0 <= i < |cs| && cs[i].name == name && cs[i].dataType == v1 {
        var i :| 0 <= i < |cs| && cs[i].name == name && cs[i].dataType == v1;
        if i < |cs| - 1 { assert init[i] == cs[i]; }
      }
      if exists i :: 0 <= i < |init| && init[i].name == name && init[i].dataType == v1 {
        var i :| 0 <= i < |init| && init[i].name == name && init[i].dataType == v1;
        assert cs[i] == init[i];
      }
    }
  }

  /** A nullability record names a first-table column whose name `other` has
      with the other nullability, the values spelling both; and every such
      column yields one. */
  lemma {:induction false} MismatchesNullable(tableName: string, cs: seq<Column>, other: map<string, Column>, name: string, v1: string, v2: string)
    ensures Difference(ColumnNullableDifferent, tableName, name, v1, v2) in Mismatches(tableName, cs, other)
            <==> name in other
                 && exists i :: 0 <= i < |cs| && cs[i].name == name && cs[i].nullable != other[name].nullable
                                && v1 == NullableText(cs[i].nullable) && v2 == NullableText(other[name].nullable)
  {
    if cs != [] {
      var init, last := cs[..|cs| - 1], cs[|cs| - 1];
      MismatchesNullable(tableName, init, other, name, v1, v2);
      if name in other && exists i :: 0 <= i < |cs| && cs[i].name == name && cs[i].nullable != other[name].nullable
                                      && v1 == NullableText(cs[i].nullable) && v2 == NullableText(other[name].nullable) {
        var i :| 0 <= i < |cs| && cs[i].name == name && cs[i].nullable != other[name].nullable
                 && v1 == NullableText(cs[i].nullable) && v2 == NullableText(other[name].nullable);
        if i < |cs| - 1 { assert init[i] == cs[i]; }
      }
      if name in other && exists i :: 0 <= i < |init| && init[i].name == name && init[i].nullable != other[name].nullable
                                      && v1 == NullableText(init[i].nullable) && v2 == NullableText(other[name].nullable) {
        var i :| 0 <= i < |init| && init[i].name == name && init[i].nullable != other[name].nullable
                 && v1 == NullableText(init[i].nullable) && v2 == NullableText(other[name].nullable);
        assert cs[i] == init[i];
      }
    }
  }

  /** column_missing records with "presente" in the first database: one per
      first-table column whose name the second table lacks. */
  lemma ColumnDiffsMissingInSecond(t1: Table, t2: Table, name: string)
    ensures multiset(ColumnDiffs(t1, t2))[Difference(ColumnMissing, t1.name, name, Present, Absent)]
            == if name in ColumnNames(t2.columns) then 0 else CountColumnsNamed(t1.columns, name)
  {
    var index1, index2 := ColumnIndex(t1.columns), ColumnIndex(t2.columns);
    var x := Difference(ColumnMissing, t1.name, name, Present, Absent);
    ColumnIndexKeys(t2.columns);
    ColumnsAbsentFromCount(t1.name, t1.columns, index2, Present, Absent, name);
    ColumnsAbsentFromShape(t2.name, t2.columns, index1, Absent, Present);
    MismatchesShape(t1.name, t1.columns, index2);
    assert x !in ColumnsAbsentFrom(t2.name, t2.columns, index1, Absent, Present);
    assert x !in Mismatches(t1.name, t1.columns, index2);
  }

  /** column_missing records with "presente" in the second database: one per
      second-table column whose name the first table lacks. */
  lemma ColumnDiffsMissingInFirst(t1: Table, t2: Table, name: string)
    ensures multiset(ColumnDiffs(t1, t2))[Difference(ColumnMissing, t2.name, name, Absent, Present)]
            == if name in ColumnNames(t1.columns) then 0 else CountColumnsNamed(t2.columns, name)
  {
    var index1, index2 := ColumnIndex(t1.columns), ColumnIndex(t2.columns);
    var x := Difference(ColumnMissing, t2.name, name, Absent, Present);
    ColumnIndexKeys(t1.columns);
    ColumnsAbsentFromCount(t2.name, t2.columns, index1, Absent, Present, name);
    ColumnsAbsentFromShape(t1.name, t1.columns, index2, Present, Absent);
    MismatchesShape(t1.name, t1.columns, index2);
    assert x !in ColumnsAbsentFrom(t1.name, t1.columns, index2, Present, Absent);
    assert x !in Mismatches(t1.name, t1.columns, index2);
  }

  /** column_type_different is reported for a column of the first table exactly
      when the second table has a column of that name (the last one of that
      name) with another DataType; the values are the two types. */
  lemma ColumnDiffsTypeDifferent(t1: Table, t2: Table, name: string, v1: string, v2: string)
    ensures Difference(ColumnTypeDifferent, t1.name, name, v1, v2) in ColumnDiffs(t1, t2)
            <==> ColumnTypeDiffers(t1, t2, name, v1, v2)
  {
    var index1, index2 := ColumnIndex(t1.columns), ColumnIndex(t2.columns);
    ColumnsAbsentFromShape(t1.name, t1.columns, index2, Present, Absent);
    ColumnsAbsentFromShape(t2.name, t2.columns, index1, Absent, Present);
    MismatchesType(t1.name, t1.columns, index2, name, v1, v2);
  }

  /** column_nullable_different is reported for a column of the first table
      exactly when the second table's column of that name has the other
      nullability; the values are "NULL"/"NOT NULL" for each side. */
  lemma ColumnDiffsNullableDifferent(t1: Table, t2: Table, name: string, v1: string, v2: string)
    ensures Difference(ColumnNullableDifferent, t1.name, name, v1, v2) in ColumnDiffs(t1, t2)
            <==> ColumnNullableDiffers(t1, t2, name, v1, v2)
  {
    var index1, index2 := ColumnIndex(t1.columns), ColumnIndex(t2.columns);
    ColumnsAbsentFromShape(t1.name, t1.columns, index2, Present, Absent);
    ColumnsAbsentFromShape(t2.name, t2.columns, index1, Absent, Present);
    MismatchesNullable(t1.name, t1.columns, index2, name, v1, v2);
  }

  /** A column whose type and nullability both differ yields both records. */
  lemma BothMismatchesForOneColumn()
    ensures var t1 := Table("users", [Column("id", "integer", true)]);
            var t2 := Table("users", [Column("id", "bigint", false)]);
            ColumnDiffs(t1, t2) == [
              Difference(ColumnTypeDifferent, "users", "id", "integer", "bigint"),
              Difference(ColumnNullableDifferent, "users", "id", "NULL", "NOT NULL")]
  {
    var t1 := Table("users", [Column("id", "integer", true)]);
    var t2 := Table("users", [Column("id", "bigint", false)]);
    assert t1.columns[..0] == [];
    assert ColumnIndex(t2.columns) == map["id" := Column("id", "bigint", false)];
    assert ColumnIndex(t1.columns) == map["id" := Column("id", "integer", true)];
  }

  lemma ColumnDiffsKinds(t1: Table, t2: Table)
    ensures forall d | d in ColumnDiffs(t1, t2) ::
      IsColumnKind(d.kind) && (d.tableName == t1.name || d.tableName == t2.name)
  {
    var index1, index2 := ColumnIndex(t1.columns), ColumnIndex(t2.columns);
    ColumnsAbsentFromShape(t1.name, t1.columns, index2, Present, Absent);
    ColumnsAbsentFromShape(t2.name, t2.columns, index1, Absent, Present);
    MismatchesShape(t1.name, t1.columns, index2);
  }

  lemma {:induction false} SharedTableDiffsShape(ts: seq<Table>, other: map<string, Table>)
    requires forall n | n in other :: other[n].name == n
    ensures forall d | d in SharedTableDiffs(ts, other) ::
      IsColumnKind(d.kind) && d.tableName in TableNames(ts) && d.tableName in other
  {
    if ts != [] {
      var init, t := ts[..|ts| - 1], ts[|ts| - 1];
      SharedTableDiffsShape(init, other);
      assert TableNames(init) <= TableNames(ts) by {
        forall n | n in TableNames(init) ensures n in TableNames(ts) {
          var i :| 0 <= i < |init| && init[i].name == n;
          assert ts[i] == init[i];
        }
      }
      assert t.name in TableNames(ts);
      if t.name in other {
        ColumnDiffsKinds(t, other[t.name]);
      }
    }
  }

  /** The three segments of a comparison, as the order lemma uses them. */
  lemma CompareSegments(db1: seq<Table>, db2: seq<Table>)
    ensures forall d | d in TablesAbsentFrom(db1, TableIndex(db2), Present, Absent) ::
      IsFirstOnlyTable(d) && d.tableName in TableNames(db1) && d.tableName !in TableNames(db2)
    ensures forall d | d in TablesAbsentFrom(db2, TableIndex(db1), Absent, Present) ::
      IsSecondOnlyTable(d) && d.tableName in TableNames(db2) && d.tableName !in TableNames(db1)
    ensures forall d | d in SharedTableDiffs(db1, TableIndex(db2)) ::
      IsColumnKind(d.kind) && d.tableName in TableNames(db1) && d.tableName in TableNames(db2)
  {
    TableIndexSpec(db1);
    TableIndexSpec(db2);
    TablesAbsentFromShape(db1, TableIndex(db2), Present, Absent);
    TablesAbsentFromShape(db2, TableIndex(db1), Absent, Present);
    SharedTableDiffsShape(db1, TableIndex(db2));
  }

  /** Every entry of the first database whose name the second lacks yields
      exactly one table_missing record "presente"/"ausente"; a name both
      databases have yields none. */
  lemma CompareFirstOnlyTables(db1: seq<Table>, db2: seq<Table>, name: string)
    ensures multiset(Compare(db1, db2))[Difference(TableMissing, name, "", Present, Absent)]
            == if name in TableNames(db2) then 0 else CountTablesNamed(db1, name)
  {
    var x := Difference(TableMissing, name, "", Present, Absent);
    TableIndexKeys(db2);
    TablesAbsentFromCount(db1, TableIndex(db2), Present, Absent, name);
    CompareSegments(db1, db2);
    assert x !in TablesAbsentFrom(db2, TableIndex(db1), Absent, Present);
    assert x !in SharedTableDiffs(db1, TableIndex(db2));
  }

  /** The same for the entries of the second database: "ausente"/"presente". */
  lemma CompareSecondOnlyTables(db1: seq<Table>, db2: seq<Table>, name: string)
    ensures multiset(Compare(db1, db2))[Difference(TableMissing, name, "", Absent, Present)]
            == if name in TableNames(db1) then 0 else CountTablesNamed(db2, name)
  {
    var x := Difference(TableMissing, name, "", Absent, Present);
    TableIndexKeys(db1);
    TablesAbsentFromCount(db2, TableIndex(db1), Absent, Present, name);
    CompareSegments(db1, db2);
    assert x !in TablesAbsentFrom(db1, TableIndex(db2), Present, Absent);
    assert x !in SharedTableDiffs(db1, TableIndex(db2));
  }

  /** Order of the result: the first database's missing tables come before the
      second's, and all table records come before all column records. */
  lemma CompareOrder(db1: seq<Table>, db2: seq<Table>)
    ensures var r := Compare(db1, db2);
      forall i, j | 0 <= i < j < |r| ::
        (IsFirstOnlyTable(r[j]) ==> IsFirstOnlyTable(r[i]))
        && (r[j].kind == TableMissing ==> r[i].kind == TableMissing)
  {
    var a := TablesAbsentFrom(db1, TableIndex(db2), Present, Absent);
    var b := TablesAbsentFrom(db2, TableIndex(db1), Absent, Present);
    var c := SharedTableDiffs(db1, TableIndex(db2));
    var r := Compare(db1, db2);
    assert r == a + b + c;
    CompareSegments(db1, db2);
    forall k | 0 <= k < |r|
      ensures k < |a| ==> IsFirstOnlyTable(r[k])
      ensures |a| <= k < |a| + |b| ==> IsSecondOnlyTable(r[k])
      ensures |a| + |b| <= k ==> IsColumnKind(r[k].kind)
    {
      if k < |a| { assert r[k] == a[k]; assert a[k] in a; }
      else if k < |a| + |b| { assert r[k] == b[k - |a|]; assert b[k - |a|] in b; }
      else { assert r[k] == c[k - |a| - |b|]; assert c[k - |a| - |b|] in c; }
    }
  }

  /** Column-level records only ever name a table that both databases have,
      and every record has one of the four kinds. */
  lemma CompareColumnRecordsShared(db1: seq<Table>, db2: seq<Table>)
    ensures forall d | d in Compare(db1, db2) ::
      IsKnownKind(d.kind)
      && (d.kind != TableMissing ==> d.tableName in TableNames(db1) && d.tableName in TableNames(db2))
  {
    CompareSegments(db1, db2);
  }

  /** All column records of a first-database table whose name the second
      database has appear in the result. */
  lemma {:induction false} SharedTableDiffsIncludes(ts: seq<Table>, other: map<string, Table>, i: int)
    requires 0 <= i < |ts| && ts[i].name in other
    ensures multiset(ColumnDiffs(ts[i], other[ts[i].name])) <= multiset(SharedTableDiffs(ts, other))
  {
    var init := ts[..|ts| - 1];
    if i < |ts| - 1 {
      assert init[i] == ts[i];
      SharedTableDiffsIncludes(init, other, i);
    }
  }

  lemma CompareIncludesColumnDiffs(db1: seq<Table>, db2: seq<Table>, i: int)
    requires 0 <= i < |db1| && db1[i].name in TableNames(db2)
    ensures db1[i].name in TableIndex(db2)
    ensures multiset(ColumnDiffs(db1[i], TableIndex(db2)[db1[i].name])) <= multiset(Compare(db1, db2))
  {
    TableIndexKeys(db2);
    SharedTableDiffsIncludes(db1, TableIndex(db2), i);
  }

  /** Conversely, every record of the shared-table segment comes from the
      column comparison of some entry of `ts` whose name `other` has. */
  lemma {:induction false} SharedTableDiffsFrom(ts: seq<Table>, other: map<string, Table>, d: Difference)
    requires d in SharedTableDiffs(ts, other)
    ensures exists i :: 0 <= i < |ts| && ts[i].name in other && d in ColumnDiffs(ts[i], other[ts[i].name])
  {
    var init, t := ts[..|ts| - 1], ts[|ts| - 1];
    if d in SharedTableDiffs(init, other) {
      SharedTableDiffsFrom(init, other, d);
      var i :| 0 <= i < |init| && init[i].name in other && d in ColumnDiffs(init[i], other[init[i].name]);
      assert ts[i] == init[i];
    } else {
      assert t.name in other && d in ColumnDiffs(t, other[t.name]);
    }
  }

  /** Every record of the result other than a table_missing one comes from
      comparing the columns of a first-database entry with the second
      database's table of the same name. */
  lemma CompareColumnRecordFrom(db1: seq<Table>, db2: seq<Table>, d: Difference)
    requires d in Compare(db1, db2) && d.kind != TableMissing
    ensures d.tableName in TableIndex(db2)
    ensures exists i :: 0 <= i < |db1| && db1[i].name == d.tableName
                        && d in ColumnDiffs(db1[i], TableIndex(db2)[d.tableName])
  {
    var index2 := TableIndex(db2);
    TablesAbsentFromShape(db1, index2, Present, Absent);
    TablesAbsentFromShape(db2, TableIndex(db1), Absent, Present);
    assert d in SharedTableDiffs(db1, index2);
    SharedTableDiffsFrom(db1, index2, d);
    var i :| 0 <= i < |db1| && db1[i].name in index2 && d in ColumnDiffs(db1[i], index2[db1[i].name]);
    TableIndexNames(db2);
    ColumnDiffsKinds(db1[i], index2[db1[i].name]);
  }

  /** In the whole result: a column_type_different record for a table is
      emitted exactly when some first-database entry of that name has a
      column of type v1 whose counterpart in the second database's table of
      that name has the other type v2. */
  lemma CompareTypeDifferent(db1: seq<Table>, db2: seq<Table>, tableName: string, name: string, v1: string, v2: string)
    ensures Difference(ColumnTypeDifferent, tableName, name, v1, v2) in Compare(db1, db2)
            <==> tableName in TableIndex(db2)
                 && exists i :: 0 <= i < |db1| && db1[i].name == tableName
                                && ColumnTypeDiffers(db1[i], TableIndex(db2)[tableName], name, v1, v2)
  {
    var d := Difference(ColumnTypeDifferent, tableName, name, v1, v2);
    var index2 := TableIndex(db2);
    if d in Compare(db1, db2) {
      CompareColumnRecordFrom(db1, db2, d);
      var i :| 0 <= i < |db1| && db1[i].name == tableName && d in ColumnDiffs(db1[i], index2[tableName]);
      ColumnDiffsTypeDifferent(db1[i], index2[tableName], name, v1, v2);
    }
    if tableName in index2 && exists i :: 0 <= i < |db1| && db1[i].name == tableName
                                           && ColumnTypeDiffers(db1[i], index2[tableName], name, v1, v2) {
      var i :| 0 <= i < |db1| && db1[i].name == tableName && ColumnTypeDiffers(db1[i], index2[tableName], name, v1, v2);
      ColumnDiffsTypeDifferent(db1[i], index2[tableName], name, v1, v2);
      TableIndexKeys(db2);
      CompareIncludesColumnDiffs(db1, db2, i);
      assert d in multiset(ColumnDiffs(db1[i], index2[tableName]));
    }
  }

  /** In the whole result: a column_missing record "presente"/"ausente" for a
      table is emitted exactly when some first-database entry of that name has
      a column of that name and the second database's table of that name has
      none. */
  lemma CompareMissingInSecond(db1: seq<Table>, db2: seq<Table>, tableName: string, name: string)
    ensures Difference(ColumnMissing, tableName, name, Present, Absent) in Compare(db1, db2)
            <==> tableName in TableIndex(db2)
                 && exists i :: 0 <= i < |db1| && db1[i].name == tableName
                                && name in ColumnNames(db1[i].columns)
                                && name !in ColumnNames(TableIndex(db2)[tableName].columns)
  {
    var d := Difference(ColumnMissing, tableName, name, Present, Absent);
    var index2 := TableIndex(db2);
    if d in Compare(db1, db2) {
      CompareColumnRecordFrom(db1, db2, d);
      var i :| 0 <= i < |db1| && db1[i].name == tableName && d in ColumnDiffs(db1[i], index2[tableName]);
      ColumnDiffsMissingInSecond(db1[i], index2[tableName], name);
      CountColumnsNamedPositive(db1[i].columns, name);
    }
    if tableName in index2 && exists i :: 0 <= i < |db1| && db1[i].name == tableName
                                           && name in ColumnNames(db1[i].columns)
                                           && name !in ColumnNames(index2[tableName].columns) {
      var i :| 0 <= i < |db1| && db1[i].name == tableName && name in ColumnNames(db1[i].columns)
               && name !in ColumnNames(index2[tableName].columns);
      ColumnDiffsMissingInSecond(db1[i], index2[tableName], name);
      CountColumnsNamedPositive(db1[i].columns, name);
      TableIndexKeys(db2);
      CompareIncludesColumnDiffs(db1, db2, i);
    }
  }

  /** The same for column_missing records "ausente"/"presente": the second
      database's table of that name has the column and the first-database
      entry lacks it. */
  lemma CompareMissingInFirst(db1: seq<Table>, db2: seq<Table>, tableName: string, name: string)
    ensures Difference(ColumnMissing, tableName, name, Absent, Present) in Compare(db1, db2)
            <==> tableName in TableIndex(db2)
                 && exists i :: 0 <= i < |db1| && db1[i].name == tableName
                                && name !in ColumnNames(db1[i].columns)
                                && name in ColumnNames(TableIndex(db2)[tableName].columns)
  {
    var d := Difference(ColumnMissing, tableName, name, Absent, Present);
    var index2 := TableIndex(db2);
    TableIndexNames(db2);
    if d in Compare(db1, db2) {
      CompareColumnRecordFrom(db1, db2, d);
      var i :| 0 <= i < |db1| && db1[i].name == tableName && d in ColumnDiffs(db1[i], index2[tableName]);
      ColumnDiffsMissingInFirst(db1[i], index2[tableName], name);
      CountColumnsNamedPositive(index2[tableName].columns, name);
    }
    if tableName in index2 && exists i :: 0 <= i < |db1| && db1[i].name == tableName
                                           && name !in ColumnNames(db1[i].columns)
                                           && name in ColumnNames(index2[tableName].columns) {
      var i :| 0 <= i < |db1| && db1[i].name == tableName && name !in ColumnNames(db1[i].columns)
               && name in ColumnNames(index2[tableName].columns);
      ColumnDiffsMissingInFirst(db1[i], index2[tableName], name);
      CountColumnsNamedPositive(index2[tableName].columns, name);
      TableIndexKeys(db2);
      CompareIncludesColumnDiffs(db1, db2, i);
    }
  }

  /** The same for column_nullable_different records. */
  lemma CompareNullableDifferent(db1: seq<Table>, db2: seq<Table>, tableName: string, name: string, v1: string, v2: string)
    ensures Difference(ColumnNullableDifferent, tableName, name, v1, v2) in Compare(db1, db2)
            <==> tableName in TableIndex(db2)
                 && exists i :: 0 <= i < |db1| && db1[i].name == tableName
                                && ColumnNullableDiffers(db1[i], TableIndex(db2)[tableName], name, v1, v2)
  {
    var d := Difference(ColumnNullableDifferent, tableName, name, v1, v2);
    var index2 := TableIndex(db2);
    if d in Compare(db1, db2) {
      CompareColumnRecordFrom(db1, db2, d);
      var i :| 0 <= i < |db1| && db1[i].name == tableName && d in ColumnDiffs(db1[i], index2[tableName]);
      ColumnDiffsNullableDifferent(db1[i], index2[tableName], name, v1, v2);
    }
    if tableName in index2 && exists i :: 0 <= i < |db1| && db1[i].name == tableName
                                           && ColumnNullableDiffers(db1[i], index2[tableName], name, v1, v2) {
      var i :| 0 <= i < |db1| && db1[i].name == tableName && ColumnNullableDiffers(db1[i], index2[tableName], name, v1, v2);
      ColumnDiffsNullableDifferent(db1[i], index2[tableName], name, v1, v2);
      TableIndexKeys(db2);
      CompareIncludesColumnDiffs(db1, db2, i);
      assert d in multiset(ColumnDiffs(db1[i], index2[tableName]));
    }
  }

  lemma {:induction false} TablesAbsentFromNone(ts: seq<Table>, other: map<string, Table>, db1Value: string, db2Value: string)
    requires forall i | 0 <= i < |ts| :: ts[i].name in other
    ensures TablesAbsentFrom(ts, other, db1Value, db2Value) == []
  {
    if ts != [] {
      TablesAbsentFromNone(ts[..|ts| - 1], other, db1Value, db2Value);
    }
  }

  lemma {:induction false} ColumnsAbsentFromNone(tableName: string, cs: seq<Column>, other: map<string, Column>, db1Value: string, db2Value: string)
    requires forall i | 0 <= i < |cs| :: cs[i].name in other
    ensures ColumnsAbsentFrom(tableName, cs, other, db1Value, db2Value) == []
  {
    if cs != [] {
      ColumnsAbsentFromNone(tableName, cs[..|cs| - 1], other, db1Value, db2Value);
    }
  }

  lemma {:induction false} MismatchesNone(tableName: string, cs: seq<Column>, other: map<string, Column>)
    requires forall i | 0 <= i < |cs| :: cs[i].name in other && other[cs[i].name] == cs[i]
    ensures Mismatches(tableName, cs, other) == []
  {
    if cs != [] {
      MismatchesNone(tableName, cs[..|cs| - 1], other);
    }
  }

  lemma ColumnDiffsSelf(t: Table)
    requires DistinctColumnNames(t.columns)
    ensures ColumnDiffs(t, t) == []
  {
    var index := ColumnIndex(t.columns);
    forall i | 0 <= i < |t.columns| ensures t.columns[i].name in index && index[t.columns[i].name] == t.columns[i] {
      ColumnIndexDistinct(t.columns, i);
    }
    ColumnsAbsentFromNone(t.name, t.columns, index, Present, Absent);
    ColumnsAbsentFromNone(t.name, t.columns, index, Absent, Present);
    MismatchesNone(t.name, t.columns, index);
  }

  lemma {:induction false} SharedTableDiffsNone(ts: seq<Table>, other: map<string, Table>)
    requires forall i | 0 <= i < |ts| && ts[i].name in other :: ColumnDiffs(ts[i], other[ts[i].name]) == []
    ensures SharedTableDiffs(ts, other) == []
  {
    if ts != [] {
      var init := ts[..|ts| - 1];
      forall i | 0 <= i < |init| && init[i].name in other ensures ColumnDiffs(init[i], other[init[i].name]) == [] {
        assert init[i] == ts[i];
      }
      SharedTableDiffsNone(init, other);
    }
  }

  /** Comparing a schema with itself reports nothing, provided its table names
      are distinct and so are the column names of each table. */
  lemma CompareSelf(db: seq<Table>)
    requires DistinctTableNames(db)
    requires forall i | 0 <= i < |db| :: DistinctColumnNames(db[i].columns)
    ensures Compare(db, db) == []
  {
    var index := TableIndex(db);
    forall i | 0 <= i < |db| ensures db[i].name in index && index[db[i].name] == db[i] {
      TableIndexDistinct(db, i);
    }
    TablesAbsentFromNone(db, index, Present, Absent);
    TablesAbsentFromNone(db, index, Absent, Present);
    forall i | 0 <= i < |db| && db[i].name in index ensures ColumnDiffs(db[i], index[db[i].name]) == [] {
      ColumnDiffsSelf(db[i]);
    }
    SharedTableDiffsNone(db, index);
  }
}
