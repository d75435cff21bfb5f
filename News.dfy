/** The "Distribusi Aset" page: for the selected BULAN, one block per asset
    of the table that has a row in that month, holding the pie pair, the bar
    pair and the formatted total GAP of the asset's rows. */
module News {
  import opened Wrappers
  import opened Table
  import opened Filters
  import opened Charts
  import opened Format

  /** The three columns shown for one asset. */
  datatype AssetBlock = AssetBlock(
    asset: string,
    pie: Option<PieSlices>,
    bars: Option<Kpi>,
    totalGap: int,
    gapText: string)

  /** `['GAP'].sum()`: 0 for no rows. */
  function GapSum(rows: seq<Record>): int
  {
    if rows == [] then 0 else rows[0].gap + GapSum(rows[1..])
  }

  /** The sum over two consecutive parts is the sum of the parts' sums. */
  lemma {:induction false} GapSumAppend(a: seq<Record>, b: seq<Record>)
    ensures GapSum(a + b) == GapSum(a) + GapSum(b)
  {
    if a != [] {
      assert (a + b)[1..] == a[1..] + b;
      GapSumAppend(a[1..], b);
    } else {
      assert a + b == b;
    }
  }

  /** Summing rows in a different order gives the same total. */
  lemma {:induction false} GapSumPermutation(a: seq<Record>, b: seq<Record>)
    requires multiset(a) == multiset(b)
    ensures GapSum(a) == GapSum(b)
    decreases |a|
  {
    if a != [] {
      var x := a[0];
      assert x in multiset(b);
      var k :| 0 <= k < |b| && b[k] == x;
      var rest := b[..k] + b[k + 1..];
      assert b == b[..k] + [x] + b[k + 1..];
      assert a == [x] + a[1..];
      assert multiset(b) == multiset(b[..k]) + multiset{x} + multiset(b[k + 1..]);
      assert multiset(a) == multiset{x} + multiset(a[1..]);
      assert multiset(rest) == multiset(b[..k]) + multiset(b[k + 1..]);
      assert multiset(a[1..]) == multiset(a) - multiset{x};
      assert multiset(rest) == multiset(b) - multiset{x};
      GapSumPermutation(a[1..], rest);
      GapSumAppend(b[..k] + [x], b[k + 1..]);
      GapSumAppend(b[..k], [x]);
      GapSumAppend(b[..k], b[k + 1..]);
    } else {
      assert b == [];
    }
  }

  /** The block of `asset` built from its rows of the month. */
  function Block(filteredByAsset: seq<Record>, asset: string): AssetBlock
  {
    var total := GapSum(filteredByAsset);
    AssetBlock(asset, PieFor(filteredByAsset, asset), KpiFor(filteredByAsset, asset), total, FormatThousands(total))
  }

  /** The candidates, in order, that have a row in `filtered`. */
  function Shown(candidates: seq<string>, filtered: seq<Record>): seq<string>
  {
    if candidates == [] then []
    else
      var p := Shown(candidates[..|candidates| - 1], filtered);
      var a := candidates[|candidates| - 1];
      if AssetRows(filtered, a) != [] then p + [a] else p
  }

  /** The assets of the page for month `bulan`: the distinct assets of the
      whole table that have a row in that month. */
  function ShownAssets(df: seq<Record>, bulan: string): seq<string>
  {
    Shown(Unique(Column(df, Aset)), MonthRows(df, bulan))
  }

  /** One block per asset of `assets`, from its rows in `filtered`. */
  function BlocksFor(assets: seq<string>, filtered: seq<Record>): (r: seq<AssetBlock>)
    ensures |r| == |assets|
  {
    seq(|assets|, k requires 0 <= k < |assets| => Block(AssetRows(filtered, assets[k]), assets[k]))
  }

  /** The blocks of the page for month `bulan`. */
  function NewsBlocks(df: seq<Record>, bulan: string): seq<AssetBlock>
  {
    BlocksFor(ShownAssets(df, bulan), MonthRows(df, bulan))
  }

  lemma BlocksForSnoc(assets: seq<string>, a: string, filtered: seq<Record>)
    ensures BlocksFor(assets + [a], filtered) == BlocksFor(assets, filtered) + [Block(AssetRows(filtered, a), a)]
  {
    var l := BlocksFor(assets + [a], filtered);
    var r := BlocksFor(assets, filtered) + [Block(AssetRows(filtered, a), a)];
    assert forall k :: 0 <= k < |assets| ==> (assets + [a])[k] == assets[k];
    assert |l| == |r|;
    forall k | 0 <= k < |l| ensures l[k] == r[k] {
      if k < |assets| {
        assert (assets + [a])[k] == assets[k];
      }
    }
  }

  /** `show_news_page` for the selected BULAN: the per-asset loop. */
  method NewsPage(df: seq<Record>, selectedBulan: string) returns (blocks: seq<AssetBlock>)
    ensures blocks == NewsBlocks(df, selectedBulan)
  {
    var filtered := MonthRows(df, selectedBulan);
    var assets := Unique(Column(df, Aset));
    blocks := [];
    var i := 0;
    while i < |assets|
      invariant 0 <= i <= |assets|
      invariant blocks == BlocksFor(Shown(assets[..i], filtered), filtered)
    {
      var asset := assets[i];
      assert assets[..i + 1][..i] == assets[..i];
      var filteredByAsset := AssetRows(filtered, asset);
      if filteredByAsset != [] {
        var pie := PieFor(filteredByAsset, asset);
        var bars := KpiFor(filteredByAsset, asset);
        var totalGap := GapSum(filteredByAsset);
        var formattedGap := FormatThousands(totalGap);
        BlocksForSnoc(Shown(assets[..i], filtered), asset, filtered);
        blocks := blocks + [AssetBlock(asset, pie, bars, totalGap, formattedGap)];
      }
      i := i + 1;
    }
    assert assets[..i] == assets;
  }

  // ----- which assets get a block, and in which order

  /** A candidate is shown iff it has a row in `filtered`. */
  lemma {:induction false} ShownMembers(candidates: seq<string>, filtered: seq<Record>, a: string)
    ensures a in Shown(candidates, filtered) <==> a in candidates && AssetRows(filtered, a) != []
  {
    if candidates != [] {
      var prefix := candidates[..|candidates| - 1];
      var last := candidates[|candidates| - 1];
      ShownMembers(prefix, filtered, a);
      assert candidates == prefix + [last];
    }
  }

  /** Every element of `r` occurs in `s`, and `r` lists them by strictly
      increasing first position in `s`. */
  predicate RankedBy(r: seq<string>, s: seq<string>)
  {
    && (forall k :: 0 <= k < |r| ==> r[k] in s)
    && (forall k, l :: 0 <= k < l < |r| ==> FirstIndex(s, r[k]) < FirstIndex(s, r[l]))
  }

  /** Shown candidates are candidates, and keep the candidates' order. */
  lemma {:induction false} ShownOrder(candidates: seq<string>, filtered: seq<Record>, s: seq<string>)
    requires RankedBy(candidates, s)
    ensures forall k :: 0 <= k < |Shown(candidates, filtered)| ==> Shown(candidates, filtered)[k] in candidates
    ensures RankedBy(Shown(candidates, filtered), s)
  {
    if candidates != [] {
      var prefix := candidates[..|candidates| - 1];
      var last := candidates[|candidates| - 1];
      assert RankedBy(prefix, s);
      ShownOrder(prefix, filtered, s);
      var p := Shown(prefix, filtered);
      if AssetRows(filtered, last) != [] {
        var r := p + [last];
        assert Shown(candidates, filtered) == r;
        forall k | 0 <= k < |p| ensures FirstIndex(s, p[k]) < FirstIndex(s, last) {
          var i :| 0 <= i < |prefix| && prefix[i] == p[k];
          assert candidates[i] == p[k];
        }
        forall k, l | 0 <= k < l < |r| ensures FirstIndex(s, r[k]) < FirstIndex(s, r[l]) {
          assert r[k] == p[k];
          if l < |p| {
            assert r[l] == p[l];
          } else {
            assert r[l] == last;
          }
        }
        assert RankedBy(r, s);
      }
    }
  }

  /** The page shows a block for an asset iff some row of the selected month
      carries that asset. */
  lemma NewsShown(df: seq<Record>, bulan: string, a: string)
    ensures a in ShownAssets(df, bulan) <==>
      exists i :: 0 <= i < |df| && df[i].bulan == bulan && df[i].aset == a
  {
    var filtered := MonthRows(df, bulan);
    var column := Column(df, Aset);
    ShownMembers(Unique(column), filtered, a);
    AssetRowsEmpty(filtered, a);
    if exists i :: 0 <= i < |df| && df[i].bulan == bulan && df[i].aset == a {
      var i :| 0 <= i < |df| && df[i].bulan == bulan && df[i].aset == a;
      assert column[i] == a;
      assert df[i] in filtered;
      var j :| 0 <= j < |filtered| && filtered[j] == df[i];
    }
    if AssetRows(filtered, a) != [] {
      var j :| 0 <= j < |filtered| && filtered[j].aset == a;
      var i :| 0 <= i < |df| && df[i] == filtered[j];
    }
  }

  /** Blocks appear in order of their asset's first appearance in the table. */
  lemma NewsOrder(df: seq<Record>, bulan: string)
    ensures RankedBy(ShownAssets(df, bulan), Column(df, Aset))
  {
    var column := Column(df, Aset);
    var u := Unique(column);
    UniqueOrder(column);
    assert RankedBy(u, column);
    ShownOrder(u, MonthRows(df, bulan), column);
  }

  /** No asset gets two blocks. */
  lemma NewsDistinct(df: seq<Record>, bulan: string)
    ensures NoDuplicates(ShownAssets(df, bulan))
  {
    var r := ShownAssets(df, bulan);
    var column := Column(df, Aset);
    NewsOrder(df, bulan);
    assert RankedBy(r, column);
    forall k, l | 0 <= k < l < |r| ensures r[k] != r[l] {
      assert FirstIndex(column, r[k]) < FirstIndex(column, r[l]);
    }
  }

  // ----- what a block holds

  /** The block of an asset with rows shows the clamped pie pair and the
      MAXIMO/LTB pair of its first row and the sum of GAP over its rows,
      written with thousands separators that read back as the sum. */
  lemma BlockContents(filtered: seq<Record>, a: string)
    requires AssetRows(filtered, a) != []
    ensures var rows := AssetRows(filtered, a);
      var b := Block(rows, a);
      && b.asset == a
      && b.pie == Some(Clamp(rows[0].persen, rows[0].sisaPersentase))
      && b.bars == Some(Kpi(rows[0].maximo, rows[0].ltb))
      && b.totalGap == GapSum(rows)
      && SignedDigits(StripCommas(b.gapText)) && ParseSigned(StripCommas(b.gapText)) == b.totalGap
  {
    var rows := AssetRows(filtered, a);
    AssetRowsIdempotent(filtered, a);
    FormatRoundTrip(GapSum(rows));
  }

  /** Block k of the page is the block of the k-th shown asset, built from
      that asset's rows of the selected month, which exist. */
  lemma NewsBlockContents(df: seq<Record>, bulan: string, k: nat)
    requires k < |ShownAssets(df, bulan)|
    ensures var a := ShownAssets(df, bulan)[k];
      var rows := AssetRows(MonthRows(df, bulan), a);
      rows != [] && NewsBlocks(df, bulan)[k] == Block(rows, a)
  {
    var filtered := MonthRows(df, bulan);
    var a := ShownAssets(df, bulan)[k];
    ShownMembers(Unique(Column(df, Aset)), filtered, a);
  }
}
