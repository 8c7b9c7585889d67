/** applyConfigFilters, which keeps the differences whose kind the
    configuration enables, and the loop of generateReport that groups the
    differences by kind before printing them. */
module SchemaFilter {
  import opened SchemaTypes
  import opened SchemaCompare

  /** The switch of applyConfigFilters: a record is kept when the flag of its
      kind is set; a record of any other kind matches no case and is dropped. */
  predicate Kept(d: Difference, options: OptionsConfig): (kept: bool)
    ensures kept ==> IsKnownKind(d.kind)
    ensures IsKnownKind(d.kind) && options == OptionsConfig(true, true, true, true) ==> kept
  {
    if d.kind == TableMissing then options.compareTables
    else if d.kind == ColumnMissing then options.compareColumns
    else if d.kind == ColumnTypeDifferent then options.compareTypes
    else if d.kind == ColumnNullableDifferent then options.compareNullable
    else false
  }

  /** The kept records, in input order. */
  function Filtered(ds: seq<Difference>, options: OptionsConfig): seq<Difference>
  {
    if ds == [] then []
    else
      var rest := Filtered(ds[..|ds| - 1], options);
      if Kept(ds[|ds| - 1], options) then rest + [ds[|ds| - 1]] else rest
  }

  method ApplyConfigFilters(differences: seq<Difference>, options: OptionsConfig) returns (filteredDifferences: seq<Difference>)
    ensures filteredDifferences == Filtered(differences, options)
  {
    filteredDifferences := [];
    var i := 0;
    while i < |differences|
      invariant 0 <= i <= |differences|
      invariant filteredDifferences == Filtered(differences[..i], options)
    {
      assert differences[..i + 1][..i] == differences[..i];
      var diff := differences[i];
      if diff.kind == TableMissing {
        if options.compareTables {
          filteredDifferences := filteredDifferences + [diff];
        }
      } else if diff.kind == ColumnMissing {
        if options.compareColumns {
          filteredDifferences := filteredDifferences + [diff];
        }
      } else if diff.kind == ColumnTypeDifferent {
        if options.compareTypes {
          filteredDifferences := filteredDifferences + [diff];
        }
      } else if diff.kind == ColumnNullableDifferent {
        if options.compareNullable {
          filteredDifferences := filteredDifferences + [diff];
        }
      }
      i := i + 1;
    }
    assert differences[..|differences|] == differences;
  }

  /** `idx` lists, in strictly increasing order, positions of `b`, and `a`
      holds the elements of `b` at those positions. */
  predicate Embeds(a: seq<Difference>, b: seq<Difference>, idx: seq<int>) {
    |idx| == |a|
    && (forall k | 0 <= k < |idx| :: 0 <= idx[k] < |b| && a[k] == b[idx[k]])
    && (forall k, l | 0 <= k < l < |idx| :: idx[k] < idx[l])
  }

  /** The filter's result is the subsequence of its input taken at exactly the
      positions whose record is kept. */
  lemma {:induction false} FilteredSubsequence(ds: seq<Difference>, options: OptionsConfig) returns (idx: seq<int>)
    ensures Embeds(Filtered(ds, options), ds, idx)
    ensures forall i | 0 <= i < |ds| :: i in idx <==> Kept(ds[i], options)
  {
    if ds == [] {
      idx := [];
    } else {
      var init := ds[..|ds| - 1];
      var rest := FilteredSubsequence(init, options);
      forall k | 0 <= k < |rest| ensures 0 <= rest[k] < |init| && ds[rest[k]] == init[rest[k]] { }
      if Kept(ds[|ds| - 1], options) {
        idx := rest + [|ds| - 1];
      } else {
        idx := rest;
      }
      forall i | 0 <= i < |ds| ensures i in idx <==> Kept(ds[i], options) {
        if i < |ds| - 1 { assert init[i] == ds[i]; }
      }
    }
  }

  /** How often each record occurs in the result: as often as in the input if
      it is kept, never otherwise. */
  lemma {:induction false} FilteredCount(ds: seq<Difference>, options: OptionsConfig, d: Difference)
    ensures multiset(Filtered(ds, options))[d] == if Kept(d, options) then multiset(ds)[d] else 0
  {
    if ds != [] {
      var init := ds[..|ds| - 1];
      FilteredCount(init, options, d);
      assert ds == init + [ds[|ds| - 1]];
    }
  }

  /** Every record of the result is kept, so filtering again changes nothing. */
  lemma {:induction false} FilteredIdempotent(ds: seq<Difference>, options: OptionsConfig)
    ensures Filtered(Filtered(ds, options), options) == Filtered(ds, options)
  {
    if ds != [] {
      var init := ds[..|ds| - 1];
      FilteredIdempotent(init, options);
      var rest := Filtered(init, options);
      if Kept(ds[|ds| - 1], options) {
        assert (rest + [ds[|ds| - 1]])[..|rest|] == rest;
      }
    }
  }

  lemma {:induction false} FilteredAllOff(ds: seq<Difference>)
    ensures Filtered(ds, OptionsConfig(false, false, false, false)) == []
  {
    if ds != [] {
      FilteredAllOff(ds[..|ds| - 1]);
    }
  }

  /** A list whose every record is kept passes the filter unchanged. */
  lemma {:induction false} FilteredAllKept(ds: seq<Difference>, options: OptionsConfig)
    requires forall i | 0 <= i < |ds| :: Kept(ds[i], options)
    ensures Filtered(ds, options) == ds
  {
    if ds != [] {
      var init := ds[..|ds| - 1];
      forall i | 0 <= i < |init| ensures Kept(init[i], options) { assert init[i] == ds[i]; }
      FilteredAllKept(init, options);
      assert ds == init + [ds[|ds| - 1]];
    }
  }

  /** With every flag set the filter keeps exactly the records of the four
      known kinds, so it returns a list of such records unchanged. */
  lemma FilteredAllOn(ds: seq<Difference>)
    ensures forall d :: multiset(Filtered(ds, OptionsConfig(true, true, true, true)))[d]
                        == if IsKnownKind(d.kind) then multiset(ds)[d] else 0
    ensures (forall i | 0 <= i < |ds| :: IsKnownKind(ds[i].kind)) ==> Filtered(ds, OptionsConfig(true, true, true, true)) == ds
  {
    var all := OptionsConfig(true, true, true, true);
    forall d ensures multiset(Filtered(ds, all))[d] == if IsKnownKind(d.kind) then multiset(ds)[d] else 0 {
      FilteredCount(ds, all, d);
    }
    if forall i | 0 <= i < |ds| :: IsKnownKind(ds[i].kind) {
      FilteredAllKept(ds, all);
    }
  }

  /* ---------------------------------------------------------------------
     Grouping by kind (generateReport)
     --------------------------------------------------------------------- */

  /** The records of kind `kind`, in input order. */
  function OfKind(ds: seq<Difference>, kind: string): seq<Difference>
  {
    if ds == [] then []
    else
      var rest := OfKind(ds[..|ds| - 1], kind);
      if ds[|ds| - 1].kind == kind then rest + [ds[|ds| - 1]] else rest
  }

  /** The grouping loop of the report: one list per kind; a record of any other
      kind lands in none. */
  method GroupByKind(differences: seq<Difference>)
    returns (tableMissing: seq<Difference>, columnMissing: seq<Difference>,
             columnTypeDifferent: seq<Difference>, columnNullableDifferent: seq<Difference>)
    ensures tableMissing == OfKind(differences, TableMissing)
    ensures columnMissing == OfKind(differences, ColumnMissing)
    ensures columnTypeDifferent == OfKind(differences, ColumnTypeDifferent)
    ensures columnNullableDifferent == OfKind(differences, ColumnNullableDifferent)
  {
    tableMissing, columnMissing, columnTypeDifferent, columnNullableDifferent := [], [], [], [];
    var i := 0;
    while i < |differences|
      invariant 0 <= i <= |differences|
      invariant tableMissing == OfKind(differences[..i], TableMissing)
      invariant columnMissing == OfKind(differences[..i], ColumnMissing)
      invariant columnTypeDifferent == OfKind(differences[..i], ColumnTypeDifferent)
      invariant columnNullableDifferent == OfKind(differences[..i], ColumnNullableDifferent)
    {
      assert differences[..i + 1][..i] == differences[..i];
      var diff := differences[i];
      if diff.kind == TableMissing {
        tableMissing := tableMissing + [diff];
      } else if diff.kind == ColumnMissing {
        columnMissing := columnMissing + [diff];
      } else if diff.kind == ColumnTypeDifferent {
        columnTypeDifferent := columnTypeDifferent + [diff];
      } else if diff.kind == ColumnNullableDifferent {
        columnNullableDifferent := columnNullableDifferent + [diff];
      }
      i := i + 1;
    }
    assert differences[..|differences|] == differences;
  }

  /** A group holds every record of its kind, as often as the input does, and
      nothing else. */
  lemma {:induction false} OfKindCount(ds: seq<Difference>, kind: string, d: Difference)
    ensures multiset(OfKind(ds, kind))[d] == if d.kind == kind then multiset(ds)[d] else 0
  {
    if ds != [] {
      var init := ds[..|ds| - 1];
      OfKindCount(init, kind, d);
      assert ds == init + [ds[|ds| - 1]];
    }
  }

  /** When every record has a known kind, the four groups partition the input:
      together they hold each record exactly as often as the input, so the
      per-kind counts of the summary add up to the total. */
  lemma GroupsPartition(ds: seq<Difference>)
    requires forall i | 0 <= i < |ds| :: IsKnownKind(ds[i].kind)
    ensures multiset(ds) == multiset(OfKind(ds, TableMissing)) + multiset(OfKind(ds, ColumnMissing))
                            + multiset(OfKind(ds, ColumnTypeDifferent)) + multiset(OfKind(ds, ColumnNullableDifferent))
    ensures |ds| == |OfKind(ds, TableMissing)| + |OfKind(ds, ColumnMissing)|
                    + |OfKind(ds, ColumnTypeDifferent)| + |OfKind(ds, ColumnNullableDifferent)|
  {
    var groups := multiset(OfKind(ds, TableMissing)) + multiset(OfKind(ds, ColumnMissing))
                  + multiset(OfKind(ds, ColumnTypeDifferent)) + multiset(OfKind(ds, ColumnNullableDifferent));
    forall d ensures multiset(ds)[d] == groups[d] {
      OfKindCount(ds, TableMissing, d);
      OfKindCount(ds, ColumnMissing, d);
      OfKindCount(ds, ColumnTypeDifferent, d);
      OfKindCount(ds, ColumnNullableDifferent, d);
      if d in multiset(ds) {
        var i :| 0 <= i < |ds| && ds[i] == d;
        assert IsKnownKind(d.kind);
      }
    }
    assert multiset(ds) == groups;
  }

  /** A group is what the filter keeps when only that kind's flag is set. */
  lemma {:induction false} OfKindIsFilter(ds: seq<Difference>)
    ensures OfKind(ds, TableMissing) == Filtered(ds, OptionsConfig(true, false, false, false))
    ensures OfKind(ds, ColumnMissing) == Filtered(ds, OptionsConfig(false, true, false, false))
    ensures OfKind(ds, ColumnTypeDifferent) == Filtered(ds, OptionsConfig(false, false, true, false))
    ensures OfKind(ds, ColumnNullableDifferent) == Filtered(ds, OptionsConfig(false, false, false, true))
  {
    if ds != [] {
      OfKindIsFilter(ds[..|ds| - 1]);
    }
  }

  /** Every record a comparison emits has one of the four kinds, so with every
      flag set the filter passes the comparison through unchanged, and the
      four groups of the report together hold each of its records exactly
      once. */
  lemma AllOnReportsComparison(db1: seq<Table>, db2: seq<Table>)
    ensures Filtered(Compare(db1, db2), OptionsConfig(true, true, true, true)) == Compare(db1, db2)
    ensures var r := Compare(db1, db2);
      multiset(r) == multiset(OfKind(r, TableMissing)) + multiset(OfKind(r, ColumnMissing))
                     + multiset(OfKind(r, ColumnTypeDifferent)) + multiset(OfKind(r, ColumnNullableDifferent))
  {
    var r := Compare(db1, db2);
    CompareColumnRecordsShared(db1, db2);
    forall i | 0 <= i < |r| ensures IsKnownKind(r[i].kind) {
      assert r[i] in r;
    }
    FilteredAllKept(r, OptionsConfig(true, true, true, true));
    GroupsPartition(r);
  }
}
