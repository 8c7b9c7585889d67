/** The records the schema-diff tool works on: the tables and columns read from
    a PostgreSQL `public` schema, the differences it reports, and the option
    flags of its configuration file. Also the name-keyed indexes the comparison
    builds, in which the last entry carrying a name wins. */
module SchemaTypes {

  datatype Column = Column(name: string, dataType: string, nullable: bool)

  datatype Table = Table(name: string, columns: seq<Column>)

  /** One reported difference. The free-text description the tool formats for
      each record is not modelled. */
  datatype Difference = Difference(
    kind: string,
    tableName: string,
    columnName: string,
    db1Value: string,
    db2Value: string)

  datatype OptionsConfig = OptionsConfig(
    compareTables: bool,
    compareColumns: bool,
    compareTypes: bool,
    compareNullable: bool)

  // The four values of Difference.kind
  const TableMissing := "table_missing"
  const ColumnMissing := "column_missing"
  const ColumnTypeDifferent := "column_type_different"
  const ColumnNullableDifferent := "column_nullable_different"

  // The values written for "exists on this side" and "does not exist on this side"
  const Present := "presente"
  const Absent := "ausente"

  predicate IsColumnKind(kind: string) {
    kind == ColumnMissing || kind == ColumnTypeDifferent || kind == ColumnNullableDifferent
  }

  predicate IsKnownKind(kind: string) {
    kind == TableMissing || IsColumnKind(kind)
  }

  /** How a column's nullability is written in a column_nullable_different record. */
  function NullableText(nullable: bool): (s: string)
    ensures s == "NULL" || s == "NOT NULL"
    ensures (s == "NULL") == nullable
  {
    if nullable then "NULL" else "NOT NULL"
  }

  /** The name-keyed map of a table list: every entry is stored under its name,
      left to right, so a later entry replaces an earlier one. */
  function TableIndex(ts: seq<Table>): map<string, Table>
  {
    if ts == [] then map[]
    else TableIndex(ts[..|ts| - 1])[ts[|ts| - 1].name := ts[|ts| - 1]]
  }

  function TableNames(ts: seq<Table>): set<string> {
    set i | 0 <= i < |ts| :: ts[i].name
  }

  /** Number of entries of `ts` named `name`. */
  function CountTablesNamed(ts: seq<Table>, name: string): nat {
    if ts == [] then 0
    else CountTablesNamed(ts[..|ts| - 1], name) + (if ts[|ts| - 1].name == name then 1 else 0)
  }

  /** No entry after position j carries the name of entry j. */
  predicate IsLastTableNamed(ts: seq<Table>, j: int) {
    0 <= j < |ts| && forall k :: j < k < |ts| ==> ts[k].name != ts[j].name
  }

  predicate DistinctTableNames(ts: seq<Table>) {
    forall i, j :: 0 <= i < j < |ts| ==> ts[i].name != ts[j].name
  }

  /** The table index holds exactly the names of the list, each under its own
      name, and the entry stored under a name is the last entry with that name. */
  lemma TableIndexSpec(ts: seq<Table>)
    ensures TableIndex(ts).Keys == TableNames(ts)
    ensures forall n :: n in TableIndex(ts) ==> TableIndex(ts)[n].name == n
    ensures forall j :: IsLastTableNamed(ts, j) ==> ts[j].name in TableIndex(ts) && TableIndex(ts)[ts[j].name] == ts[j]
  {
    TableIndexKeys(ts);
    TableIndexNames(ts);
    TableIndexLast(ts);
  }

  lemma {:induction false} TableIndexKeys(ts: seq<Table>)
    ensures TableIndex(ts).Keys == TableNames(ts)
  {
    if ts != [] {
      var init, last := ts[..|ts| - 1], ts[|ts| - 1];
      TableIndexKeys(init);
      assert TableIndex(ts).Keys == TableNames(init) + {last.name};
      forall n | n in TableNames(ts) ensures n in TableNames(init) + {last.name} {
        var i :| 0 <= i < |ts| && ts[i].name == n;
        if i < |ts| - 1 { assert init[i] == ts[i]; }
      }
      forall n | n in TableNames(init) ensures n in TableNames(ts) {
        var i :| 0 <= i < |init| && init[i].name == n;
        assert ts[i] == init[i];
      }
    }
  }

  lemma {:induction false} TableIndexNames(ts: seq<Table>)
    ensures forall n :: n in TableIndex(ts) ==> TableIndex(ts)[n].name == n
  {
    if ts != [] {
      TableIndexNames(ts[..|ts| - 1]);
    }
  }

  lemma {:induction false} TableIndexLast(ts: seq<Table>)
    ensures forall j :: IsLastTableNamed(ts, j) ==> ts[j].name in TableIndex(ts) && TableIndex(ts)[ts[j].name] == ts[j]
  {
    if ts != [] {
      var init, last := ts[..|ts| - 1], ts[|ts| - 1];
      TableIndexLast(init);
      forall j | IsLastTableNamed(ts, j) ensures ts[j].name in TableIndex(ts) && TableIndex(ts)[ts[j].name] == ts[j] {
        if j < |ts| - 1 {
          assert init[j] == ts[j];
          assert IsLastTableNamed(init, j);
        }
      }
    }
  }

  /** With distinct names, every entry is the one stored under its name. */
  lemma TableIndexDistinct(ts: seq<Table>, j: int)
    requires DistinctTableNames(ts)
    requires 0 <= j < |ts|
    ensures ts[j].name in TableIndex(ts) && TableIndex(ts)[ts[j].name] == ts[j]
  {
    TableIndexLast(ts);
    assert IsLastTableNamed(ts, j);
  }

  /** The name-keyed map of a column list, built like TableIndex. */
  function ColumnIndex(cs: seq<Column>): map<string, Column>
  {
    if cs == [] then map[]
    else ColumnIndex(cs[..|cs| - 1])[cs[|cs| - 1].name := cs[|cs| - 1]]
  }

  function ColumnNames(cs: seq<Column>): set<string> {
    set i | 0 <= i < |cs| :: cs[i].name
  }

  /** Number of columns of `cs` named `name`. */
  function CountColumnsNamed(cs: seq<Column>, name: string): nat {
    if cs == [] then 0
    else CountColumnsNamed(cs[..|cs| - 1], name) + (if cs[|cs| - 1].name == name then 1 else 0)
  }

  /** A name is counted in a column list exactly when some column has it. */
  lemma {:induction false} CountColumnsNamedPositive(cs: seq<Column>, name: string)
    ensures CountColumnsNamed(cs, name) > 0 <==> name in ColumnNames(cs)
  {
    if cs != [] {
      var init := cs[..|cs| - 1];
      CountColumnsNamedPositive(init, name);
      if name in ColumnNames(cs) && cs[|cs| - 1].name != name {
        var i :| 0 <= i < |cs| && cs[i].name == name;
        assert init[i] == cs[i];
      }
      if name in ColumnNames(init) {
        var i :| 0 <= i < |init| && init[i].name == name;
        assert cs[i] == init[i];
      }
    }
  }

  predicate IsLastColumnNamed(cs: seq<Column>, j: int) {
    0 <= j < |cs| && forall k :: j < k < |cs| ==> cs[k].name != cs[j].name
  }

  predicate DistinctColumnNames(cs: seq<Column>) {
    forall i, j :: 0 <= i < j < |cs| ==> cs[i].name != cs[j].name
  }

  /** The column index holds exactly the column names, and the column stored
      under a name is the last column with that name. */
  lemma ColumnIndexSpec(cs: seq<Column>)
    ensures ColumnIndex(cs).Keys == ColumnNames(cs)
    ensures forall n :: n in ColumnIndex(cs) ==> ColumnIndex(cs)[n].name == n
    ensures forall j :: IsLastColumnNamed(cs, j) ==> cs[j].name in ColumnIndex(cs) && ColumnIndex(cs)[cs[j].name] == cs[j]
  {
    ColumnIndexKeys(cs);
    ColumnIndexNames(cs);
    ColumnIndexLast(cs);
  }

  lemma {:induction false} ColumnIndexKeys(cs: seq<Column>)
    ensures ColumnIndex(cs).Keys == ColumnNames(cs)
  {
    if cs != [] {
      var init, last := cs[..|cs| - 1], cs[|cs| - 1];
      ColumnIndexKeys(init);
      assert ColumnIndex(cs).Keys == ColumnNames(init) + {last.name};
      forall n | n in ColumnNames(cs) ensures n in ColumnNames(init) + {last.name} {
        var i :| 0 <= i < |cs| && cs[i].name == n;
        if i < |cs| - 1 { assert init[i] == cs[i]; }
      }
      forall n | n in ColumnNames(init) ensures n in ColumnNames(cs) {
        var i :| 0 <= i < |init| && init[i].name == n;
        assert cs[i] == init[i];
      }
    }
  }

  lemma {:induction false} ColumnIndexNames(cs: seq<Column>)
    ensures forall n :: n in ColumnIndex(cs) ==> ColumnIndex(cs)[n].name == n
  {
    if cs != [] {
      ColumnIndexNames(cs[..|cs| - 1]);
    }
  }

  lemma {:induction false} ColumnIndexLast(cs: seq<Column>)
    ensures forall j :: IsLastColumnNamed(cs, j) ==> cs[j].name in ColumnIndex(cs) && ColumnIndex(cs)[cs[j].name] == cs[j]
  {
    if cs != [] {
      var init, last := cs[..|cs| - 1], cs[|cs| - 1];
      ColumnIndexLast(init);
      forall j | IsLastColumnNamed(cs, j) ensures cs[j].name in ColumnIndex(cs) && ColumnIndex(cs)[cs[j].name] == cs[j] {
        if j < |cs| - 1 {
          assert init[j] == cs[j];
          assert IsLastColumnNamed(init, j);
        }
      }
    }
  }

  /** With distinct names, every entry is the one stored under its name. */
  lemma ColumnIndexDistinct(cs: seq<Column>, j: int)
    requires DistinctColumnNames(cs)
    requires 0 <= j < |cs|
    ensures cs[j].name in ColumnIndex(cs) && ColumnIndex(cs)[cs[j].name] == cs[j]
  {
    ColumnIndexLast(cs);
    assert IsLastColumnNamed(cs, j);
  }
}
