/** The row selections of the dashboard: `df[df['ASET'] == asset]`,
    `df[df['BULAN'] == bulan]`, the Home filter on Status and Changed Month,
    and the Home filter on BULAN. */
module Filters {
  import opened Table

  /** Rows of one asset. */
  function AssetRows(rows: seq<Record>, asset: string): seq<Record>
  {
    Filter(rows, (x: Record) => x.aset == asset)
  }

  /** Rows of one reporting month (BULAN). */
  function MonthRows(rows: seq<Record>, bulan: string): seq<Record>
  {
    Filter(rows, (x: Record) => x.bulan == bulan)
  }

  /** Rows whose status and changed month are both selected. */
  function HomeFilter(rows: seq<Record>, statuses: seq<string>, months: seq<string>): seq<Record>
  {
    Filter(rows, (x: Record) => x.status in statuses && x.changedMonth in months)
  }

  /** Rows whose BULAN is selected. */
  function BulanFilter(rows: seq<Record>, bulans: seq<string>): seq<Record>
  {
    Filter(rows, (x: Record) => x.bulan in bulans)
  }

  /** The Home filter keeps a row iff its status and its changed month are both
      selected, keeps it as often as the table has it, and keeps table order. */
  lemma HomeFilterSpec(rows: seq<Record>, statuses: seq<string>, months: seq<string>)
    ensures var r := HomeFilter(rows, statuses, months);
      && (forall x :: x in r <==> x in rows && x.status in statuses && x.changedMonth in months)
      && (forall x :: multiset(r)[x] ==
            if x.status in statuses && x.changedMonth in months then multiset(rows)[x] else 0)
      && IsSubsequence(r, rows)
  {
    var keep := (x: Record) => x.status in statuses && x.changedMonth in months;
    forall x ensures multiset(Filter(rows, keep))[x] == if keep(x) then multiset(rows)[x] else 0 {
      FilterMultiplicity(rows, keep, x);
    }
    FilterSubsequence(rows, keep);
  }

  /** The BULAN filter keeps a row iff its BULAN is selected, as often as the
      table has it, in table order. */
  lemma BulanFilterSpec(rows: seq<Record>, bulans: seq<string>)
    ensures var r := BulanFilter(rows, bulans);
      && (forall x :: x in r <==> x in rows && x.bulan in bulans)
      && (forall x :: multiset(r)[x] == if x.bulan in bulans then multiset(rows)[x] else 0)
      && IsSubsequence(r, rows)
  {
    var keep := (x: Record) => x.bulan in bulans;
    forall x ensures multiset(Filter(rows, keep))[x] == if keep(x) then multiset(rows)[x] else 0 {
      FilterMultiplicity(rows, keep, x);
    }
    FilterSubsequence(rows, keep);
  }

  /** An asset has rows iff some row of the table carries it. */
  lemma AssetRowsEmpty(rows: seq<Record>, asset: string)
    ensures AssetRows(rows, asset) == [] <==> forall i :: 0 <= i < |rows| ==> rows[i].aset != asset
  {
    var r := AssetRows(rows, asset);
    if r != [] {
      var i :| 0 <= i < |rows| && rows[i] == r[0];
    }
  }

  /** The first row of an asset's selection is the asset's first row. */
  lemma AssetRowsFirst(rows: seq<Record>, asset: string, i: nat)
    requires i < |rows| && rows[i].aset == asset
    requires forall j :: 0 <= j < i ==> rows[j].aset != asset
    ensures AssetRows(rows, asset) != [] && AssetRows(rows, asset)[0] == rows[i]
  {
    FilterFirst(rows, (x: Record) => x.aset == asset, i);
  }

  /** Selecting an asset's rows again changes nothing. */
  lemma AssetRowsIdempotent(rows: seq<Record>, asset: string)
    ensures AssetRows(AssetRows(rows, asset), asset) == AssetRows(rows, asset)
  {
    FilterIdempotent(rows, (x: Record) => x.aset == asset);
  }
}
