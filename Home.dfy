/** The Home page: the summary of the Status/Changed Month selection, the
    per-month MAXIMO/LTB bars of one asset, and its growth series. */
module Home {
  import opened Wrappers
  import opened Table
  import opened Sorting
  import opened Counts
  import opened Filters
  import opened Charts
  import opened Months

  /** What the two summary columns display. */
  datatype Summary = Summary(classCounts: seq<Entry>, totalAssets: nat, statusCounts: seq<Entry>)

  /** The class chart, the "Total Assets" metric and the status metrics of
      the filtered rows; nothing is shown when no row remains. */
  function HomeSummary(filtered: seq<Record>): (r: Option<Summary>)
    ensures r.None? <==> filtered == []
    ensures r.Some? ==> r.value.totalAssets == |filtered|
    ensures r.Some? ==> Total(r.value.classCounts) == r.value.totalAssets
    ensures r.Some? ==> Total(r.value.statusCounts) == r.value.totalAssets
  {
    if filtered == [] then None
    else Some(Summary(ClassDescriptionCounts(filtered), |filtered|, StatusCounts(filtered)))
  }

  // ----- MAXIMO and LTB per selected month

  /** One bar pair drawn in subplot column `col` (1-based), titled `name`. */
  datatype BarTrace = BarTrace(col: nat, name: string, kpi: Kpi)

  /** A row of `columns` subplots titled `titles`, and the traces added to it. */
  datatype MonthFigure = MonthFigure(columns: nat, titles: seq<string>, traces: seq<BarTrace>)

  /** MAXIMO and LTB of the first row for month `bulan`; None when there is none. */
  function MonthKpi(assetRows: seq<Record>, bulan: string): Option<Kpi>
  {
    FirstKpi(MonthRows(assetRows, bulan))
  }

  /** For each selected month, in selection order, the KPI pair of its first
      row, or None when the month has no row. */
  function Slots(assetRows: seq<Record>, selected: seq<string>): (r: seq<Option<Kpi>>)
    ensures |r| == |selected|
  {
    seq(|selected|, c requires 0 <= c < |selected| => MonthKpi(assetRows, selected[c]))
  }

  /** The traces drawn for the first `n` slots: one in column c+1 for each
      filled slot c, in column order. */
  function Filled(selected: seq<string>, slots: seq<Option<Kpi>>, n: nat): (t: seq<BarTrace>)
    requires n <= |selected| == |slots|
    ensures forall j :: 0 <= j < |t| ==> 1 <= t[j].col <= n
  {
    if n == 0 then []
    else if slots[n - 1].Some? then
      Filled(selected, slots, n - 1) + [BarTrace(n, selected[n - 1], slots[n - 1].value)]
    else Filled(selected, slots, n - 1)
  }

  /** Every trace sits in a selected month's column, is titled with that
      month, and carries that month's slot. */
  predicate TracesMatch(t: seq<BarTrace>, selected: seq<string>, slots: seq<Option<Kpi>>)
  {
    forall j :: 0 <= j < |t| ==>
      1 <= t[j].col <= |selected| && t[j].col <= |slots| &&
      t[j].name == selected[t[j].col - 1] && slots[t[j].col - 1] == Some(t[j].kpi)
  }

  /** Columns strictly increase along the traces: at most one per column. */
  predicate Increasing(t: seq<BarTrace>)
  {
    forall j, k :: 0 <= j < k < |t| ==> t[j].col < t[k].col
  }

  /** Column c+1 has a trace iff slot c is filled, for each of the first `n` slots. */
  predicate ColumnsFilled(t: seq<BarTrace>, slots: seq<Option<Kpi>>, n: nat)
    requires n <= |slots|
  {
    forall c :: 0 <= c < n ==> (slots[c].Some? <==> exists j :: 0 <= j < |t| && t[j].col == c + 1)
  }

  lemma {:induction false} FilledTraces(selected: seq<string>, slots: seq<Option<Kpi>>, n: nat)
    requires n <= |selected| == |slots|
    ensures TracesMatch(Filled(selected, slots, n), selected, slots)
    ensures Increasing(Filled(selected, slots, n))
  {
    if n > 0 {
      FilledTraces(selected, slots, n - 1);
    }
  }

  lemma {:induction false} FilledColumns(selected: seq<string>, slots: seq<Option<Kpi>>, n: nat)
    requires n <= |selected| == |slots|
    ensures ColumnsFilled(Filled(selected, slots, n), slots, n)
  {
    if n > 0 {
      FilledColumns(selected, slots, n - 1);
      var p := Filled(selected, slots, n - 1);
      var t := Filled(selected, slots, n);
      if slots[n - 1].Some? {
        assert t == p + [BarTrace(n, selected[n - 1], slots[n - 1].value)];
        assert t[|p|].col == n;
        assert forall j :: 0 <= j < |p| ==> t[j] == p[j];
      } else {
        assert t == p;
      }
    }
  }

  /** The traces of the month figure of an asset whose rows are `assetRows`. */
  function MonthTraces(assetRows: seq<Record>, selected: seq<string>): seq<BarTrace>
  {
    Filled(selected, Slots(assetRows, selected), |selected|)
  }

  /** Each trace of the month figure sits in the column of a selected month,
      at most one per column, is titled with that month and carries MAXIMO and
      LTB of the month's first row. */
  lemma MonthTracesMatch(assetRows: seq<Record>, selected: seq<string>)
    ensures var t := MonthTraces(assetRows, selected);
      && Increasing(t)
      && (forall j :: 0 <= j < |t| ==>
            1 <= t[j].col <= |selected| && t[j].name == selected[t[j].col - 1] &&
            MonthKpi(assetRows, selected[t[j].col - 1]) == Some(t[j].kpi))
  {
    var slots := Slots(assetRows, selected);
    FilledTraces(selected, slots, |selected|);
  }

  /** A selected month's column has a trace iff the month has a row. */
  lemma MonthTracesColumns(assetRows: seq<Record>, selected: seq<string>, c: nat)
    requires c < |selected|
    ensures var t := MonthTraces(assetRows, selected);
      MonthRows(assetRows, selected[c]) != [] <==> exists j :: 0 <= j < |t| && t[j].col == c + 1
  {
    var slots := Slots(assetRows, selected);
    var t := Filled(selected, slots, |selected|);
    FilledColumns(selected, slots, |selected|);
    assert MonthTraces(assetRows, selected) == t;
    assert slots[c].Some? <==> exists j :: 0 <= j < |t| && t[j].col == c + 1;
    assert slots[c] == FirstKpi(MonthRows(assetRows, selected[c]));
  }

  /** `plot_bar_charts_for_selected_months`: None (a warning) when the asset
      has no row; otherwise one subplot per selected month, in selection
      order, holding the traces of `MonthTraces`. */
  method MonthBars(rows: seq<Record>, asset: string, selected: seq<string>) returns (fig: Option<MonthFigure>)
    ensures fig.None? <==> AssetRows(rows, asset) == []
    ensures fig.Some? ==> fig.value.columns == |selected| && fig.value.titles == selected
    ensures fig.Some? ==> fig.value.traces == MonthTraces(AssetRows(rows, asset), selected)
  {
    var assetRows := AssetRows(rows, asset);
    if assetRows == [] {
      return None;
    }
    ghost var slots := Slots(assetRows, selected);
    var traces: seq<BarTrace> := [];
    var i := 0;
    while i < |selected|
      invariant 0 <= i <= |selected|
      invariant traces == Filled(selected, slots, i)
    {
      var bulanData := MonthRows(assetRows, selected[i]);
      assert slots[i] == FirstKpi(bulanData);
      if bulanData != [] {
        traces := traces + [BarTrace(i + 1, selected[i], Kpi(bulanData[0].maximo, bulanData[0].ltb))];
      }
      i := i + 1;
    }
    fig := Some(MonthFigure(|selected|, selected, traces));
  }

  // ----- growth series

  /** The outcome of `plot_growth_graph`: no row for the asset (a warning), a
      BULAN that does not read as a month name (`to_datetime` raises), or the
      rows in the order they are plotted. */
  datatype Growth = NoData | BadMonth(name: string) | Series(points: seq<Record>)

  /** Calendar index of a row's BULAN (0 for a name that is not a month). */
  function MonthKey(x: Record): int
  {
    match MonthNumber(x.bulan)
    case Some(m) => m
    case None => 0
  }

  /** The BULAN of a row reads as a month name. */
  predicate ReadsAsMonth(x: Record)
  {
    MonthNumber(x.bulan).Some?
  }

  /** `plot_growth_graph`: the asset's rows ordered by calendar month. */
  function GrowthSeries(rows: seq<Record>, asset: string): (g: Growth)
    ensures g.NoData? <==> AssetRows(rows, asset) == []
  {
    var assetRows := AssetRows(rows, asset);
    if assetRows == [] then NoData
    else match FirstFailing(assetRows, ReadsAsMonth)
      case Some(x) => BadMonth(x.bulan)
      case None => Series(SortBy(assetRows, MonthKey))
  }

  /** No series is drawn when a BULAN of the asset is not a month name; the
      name reported is one of the asset's BULAN values. */
  lemma GrowthBadMonth(rows: seq<Record>, asset: string)
    ensures var g := GrowthSeries(rows, asset);
      g.BadMonth? ==>
        (MonthNumber(g.name).None? &&
         exists i :: 0 <= i < |rows| && rows[i].aset == asset && rows[i].bulan == g.name)
  {
    var g := GrowthSeries(rows, asset);
    var assetRows := AssetRows(rows, asset);
    if g.BadMonth? {
      var x := FirstFailing(assetRows, ReadsAsMonth).value;
      assert x in assetRows && !ReadsAsMonth(x) && g.name == x.bulan;
      var i :| 0 <= i < |rows| && rows[i] == x;
    }
  }

  /** A series is drawn iff the asset has rows and every BULAN of them reads
      as a month name. */
  lemma GrowthSeriesWhen(rows: seq<Record>, asset: string)
    ensures var assetRows := AssetRows(rows, asset);
      GrowthSeries(rows, asset).Series? <==>
        assetRows != [] && forall i :: 0 <= i < |assetRows| ==> ReadsAsMonth(assetRows[i])
  {
  }

  /** The series holds exactly the asset's rows, in calendar-month order. */
  lemma GrowthSeriesPoints(rows: seq<Record>, asset: string)
    requires GrowthSeries(rows, asset).Series?
    ensures var points := GrowthSeries(rows, asset).points;
      && multiset(points) == multiset(AssetRows(rows, asset))
      && (forall i :: 0 <= i < |points| ==> points[i].aset == asset && ReadsAsMonth(points[i]))
      && SortedBy(points, MonthKey)
  {
    var assetRows := AssetRows(rows, asset);
    var points := GrowthSeries(rows, asset).points;
    assert points == SortBy(assetRows, MonthKey);
    forall i | 0 <= i < |points| ensures points[i].aset == asset && ReadsAsMonth(points[i]) {
      SortByMembers(assetRows, MonthKey, points[i]);
      var k :| 0 <= k < |assetRows| && assetRows[k] == points[i];
    }
  }

  /** Along the series the calendar month of BULAN never decreases. */
  lemma GrowthSeriesOrdered(rows: seq<Record>, asset: string)
    requires GrowthSeries(rows, asset).Series?
    ensures var points := GrowthSeries(rows, asset).points;
      forall i, j :: 0 <= i < j < |points| ==>
        MonthNumber(points[i].bulan).Some? && MonthNumber(points[j].bulan).Some? &&
        MonthNumber(points[i].bulan).value <= MonthNumber(points[j].bulan).value
  {
    var points := GrowthSeries(rows, asset).points;
    GrowthSeriesPoints(rows, asset);
    forall i, j | 0 <= i < j < |points|
      ensures MonthNumber(points[i].bulan).Some? && MonthNumber(points[j].bulan).Some? &&
        MonthNumber(points[i].bulan).value <= MonthNumber(points[j].bulan).value
    {
      assert ReadsAsMonth(points[i]) && ReadsAsMonth(points[j]);
      assert MonthKey(points[i]) <= MonthKey(points[j]);
    }
  }
}
