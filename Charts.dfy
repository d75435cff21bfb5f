/** The numbers handed to the per-asset figures: the clamped pie pair
    (`plot_pie_chart_for_asset`) and the first-row KPI pair
    (`plot_bar_chart_for_asset`). */
module Charts {
  import opened Wrappers
  import opened Table
  import opened Filters

  /** The two pie values, PERSEN and SISA PERSENTASE. */
  datatype PieSlices = PieSlices(persen: real, sisa: real)

  /** The two bar values, MAXIMO and LTB. */
  datatype Kpi = Kpi(maximo: real, ltb: real)

  /** A PERSEN above 100 shows as a full pie, one below 0 as an empty pie;
      otherwise both values are drawn as recorded. */
  function Clamp(persen: real, sisa: real): (r: PieSlices)
    ensures 0.0 <= r.persen <= 100.0
    ensures persen > 100.0 ==> r == PieSlices(100.0, 0.0)
    ensures persen < 0.0 ==> r == PieSlices(0.0, 100.0)
    ensures 0.0 <= persen <= 100.0 ==> r == PieSlices(persen, sisa)
  {
    if persen > 100.0 then PieSlices(100.0, 0.0)
    else if persen < 0.0 then PieSlices(0.0, 100.0)
    else PieSlices(persen, sisa)
  }

  /** Clamping a clamped pair changes nothing. */
  lemma ClampIdempotent(persen: real, sisa: real)
    ensures var r := Clamp(persen, sisa); Clamp(r.persen, r.sisa) == r
  {
  }

  /** SISA PERSENTASE is replaced only when PERSEN is out of range, and a
      pair that was complementary stays complementary. */
  lemma ClampComplement(persen: real, sisa: real)
    ensures Clamp(persen, sisa).sisa != sisa ==> persen < 0.0 || persen > 100.0
    ensures persen + sisa == 100.0 ==> Clamp(persen, sisa).persen + Clamp(persen, sisa).sisa == 100.0
  {
  }

  /** The pie pair of an asset: its first row's values, clamped; None when the
      asset has no row. */
  function PieFor(rows: seq<Record>, asset: string): (r: Option<PieSlices>)
    ensures r.None? <==> forall i :: 0 <= i < |rows| ==> rows[i].aset != asset
    ensures r.Some? ==> 0.0 <= r.value.persen <= 100.0
  {
    AssetRowsEmpty(rows, asset);
    match Head(AssetRows(rows, asset))
    case None => None
    case Some(x) => Some(Clamp(x.persen, x.sisaPersentase))
  }

  /** The pie pair comes from the asset's first row. */
  lemma PieForFirstRow(rows: seq<Record>, asset: string, i: nat)
    requires i < |rows| && rows[i].aset == asset
    requires forall j :: 0 <= j < i ==> rows[j].aset != asset
    ensures PieFor(rows, asset) == Some(Clamp(rows[i].persen, rows[i].sisaPersentase))
  {
    AssetRowsFirst(rows, asset, i);
  }

  /** MAXIMO and LTB of the first row, None for an empty selection. */
  function FirstKpi(rows: seq<Record>): (r: Option<Kpi>)
    ensures r.None? <==> rows == []
    ensures r.Some? ==> r.value == Kpi(rows[0].maximo, rows[0].ltb)
  {
    match Head(rows)
    case None => None
    case Some(x) => Some(Kpi(x.maximo, x.ltb))
  }

  /** The bar pair of an asset: MAXIMO and LTB of its first row; None when
      the asset has no row. */
  function KpiFor(rows: seq<Record>, asset: string): (r: Option<Kpi>)
    ensures r.None? <==> forall i :: 0 <= i < |rows| ==> rows[i].aset != asset
  {
    AssetRowsEmpty(rows, asset);
    FirstKpi(AssetRows(rows, asset))
  }

  /** The bar pair comes from the asset's first row. */
  lemma KpiForFirstRow(rows: seq<Record>, asset: string, i: nat)
    requires i < |rows| && rows[i].aset == asset
    requires forall j :: 0 <= j < i ==> rows[j].aset != asset
    ensures KpiFor(rows, asset) == Some(Kpi(rows[i].maximo, rows[i].ltb))
  {
    AssetRowsFirst(rows, asset, i);
  }
}
