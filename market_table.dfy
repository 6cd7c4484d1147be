/** The market table: which assets are listed, which rows each produces, and each row's
    converted price and deviation from the asset's cross-exchange average. */
module MarketTable {
  import opened Wrappers
  import opened Types
  import opened Aggregation
  import opened Dashboard

  // ---------------------------------------------------------------- which assets

  /** Position of an asset in `Object.values(AssetSymbol)`. */
  function Rank(a: AssetSymbol): (r: nat)
    ensures r < |AllAssets| && AllAssets[r] == a
  {
    match a
    case BTC => 0
    case ETH => 1
    case SOL => 2
    case BNB => 3
    case XRP => 4
    case DOGE => 5
    case LINK => 6
  }

  /** Listed in `AssetSymbol` order. */
  predicate InAssetOrder(xs: seq<AssetSymbol>) {
    forall i, j :: 0 <= i < j < |xs| ==> Rank(xs[i]) < Rank(xs[j])
  }

  /** `assets.filter(a => watchlist.includes(a))`. */
  function KeepWatched(xs: seq<AssetSymbol>, watchlist: seq<AssetSymbol>): (r: seq<AssetSymbol>)
    ensures forall a :: a in r <==> a in xs && a in watchlist
  {
    if xs == [] then []
    else (if xs[0] in watchlist then [xs[0]] else []) + KeepWatched(xs[1..], watchlist)
  }

  /** `filteredAssets`. */
  function FilteredAssets(showWatchlistOnly: bool, watchlist: seq<AssetSymbol>): seq<AssetSymbol> {
    if showWatchlistOnly then KeepWatched(AllAssets, watchlist) else AllAssets
  }

  lemma {:induction false} KeepWatchedInOrder(xs: seq<AssetSymbol>, watchlist: seq<AssetSymbol>)
    requires InAssetOrder(xs)
    ensures InAssetOrder(KeepWatched(xs, watchlist))
  {
    if xs != [] {
      KeepWatchedInOrder(xs[1..], watchlist);
      var rest := KeepWatched(xs[1..], watchlist);
      forall k | 0 <= k < |rest| ensures Rank(xs[0]) < Rank(rest[k]) {
        assert rest[k] in xs[1..];
        var j :| 0 <= j < |xs[1..]| && xs[1..][j] == rest[k];
        assert xs[j + 1] == rest[k];
      }
    }
  }

  /** With the filter off every asset is listed; with it on, exactly the watched assets are,
      in `AssetSymbol` order rather than watchlist order, each once. */
  lemma FilteredAssetsExact(showWatchlistOnly: bool, watchlist: seq<AssetSymbol>)
    ensures !showWatchlistOnly ==> FilteredAssets(showWatchlistOnly, watchlist) == AllAssets
    ensures forall a :: a in FilteredAssets(showWatchlistOnly, watchlist) <==>
      (!showWatchlistOnly || a in watchlist)
    ensures InAssetOrder(FilteredAssets(showWatchlistOnly, watchlist))
  {
    AssetsEnumerated();
    assert InAssetOrder(AllAssets);
    KeepWatchedInOrder(AllAssets, watchlist);
  }

  /** The "nothing watched yet" placeholder row. */
  function ShowPlaceholder(showWatchlistOnly: bool, watchlist: seq<AssetSymbol>): bool {
    showWatchlistOnly && |FilteredAssets(showWatchlistOnly, watchlist)| == 0
  }

  /** The placeholder appears exactly when the filter is on and no asset is watched. */
  lemma PlaceholderExactlyWhenNothingWatched(showWatchlistOnly: bool, watchlist: seq<AssetSymbol>)
    ensures ShowPlaceholder(showWatchlistOnly, watchlist) <==> showWatchlistOnly && |watchlist| == 0
  {
    FilteredAssetsExact(showWatchlistOnly, watchlist);
    var shown := FilteredAssets(showWatchlistOnly, watchlist);
    assert |shown| > 0 ==> shown[0] in shown;
    assert showWatchlistOnly && |watchlist| > 0 ==> watchlist[0] in shown;
  }

  // ---------------------------------------------------------------- rows

  /** One table row: an exchange's price for an asset, converted, and its deviation from the
      converted average. */
  datatype Row = Row(asset: AssetSymbol, exchange: ExchangeName, priceConverted: real, diff: real, diffPercent: real)

  /** The row of one record, given the asset's converted average. */
  function RowOf(asset: AssetSymbol, d: PriceData, avgConverted: real, rate: real): Row {
    var current := d.price * rate;
    var diff := current - avgConverted;
    Row(asset, d.exchange, current, diff, if avgConverted != 0.0 then diff / avgConverted * 100.0 else 0.0)
  }

  /** `Object.entries(assetExchanges).map(...)`: one row per present record, in order. */
  function RowsOf(asset: AssetSymbol, entries: ExchangePrices, avgConverted: real, rate: real): (r: seq<Row>)
    ensures |r| == |entries|
    ensures forall i :: 0 <= i < |entries| ==> r[i] == RowOf(asset, entries[i], avgConverted, rate)
  {
    if entries == [] then [] else [RowOf(asset, entries[0], avgConverted, rate)] + RowsOf(asset, entries[1..], avgConverted, rate)
  }

  /** `avgConverted`: the asset's mean positive price, converted. */
  function AvgConverted(entries: ExchangePrices, rate: real): real {
    AssetMean(entries) * rate
  }

  /** The rows of one asset: none when it has no positive price. */
  function AssetRows(asset: AssetSymbol, entries: ExchangePrices, rate: real): seq<Row> {
    if |PositivePrices(entries)| == 0 then []
    else RowsOf(asset, entries, AvgConverted(entries, rate), rate)
  }

  /** The table body: the listed assets' rows, asset after asset. */
  function TableRows(prices: AggregatedState, rate: real, showWatchlistOnly: bool, watchlist: seq<AssetSymbol>): seq<Row> {
    RowsOfAssets(prices, rate, FilteredAssets(showWatchlistOnly, watchlist))
  }

  function RowsOfAssets(prices: AggregatedState, rate: real, assets: seq<AssetSymbol>): (r: seq<Row>)
    ensures forall k :: 0 <= k < |r| ==> r[k].asset in assets
  {
    if assets == [] then []
    else AssetRows(assets[0], EntryOf(prices, Name(assets[0])), rate) + RowsOfAssets(prices, rate, assets[1..])
  }

  /** An asset with no positive price produces no row; otherwise every present record,
      positive or not, produces one row, for its own exchange, priced at its price times the
      rate. */
  lemma AssetRowsCoverRecords(asset: AssetSymbol, entries: ExchangePrices, rate: real)
    ensures |PositivePrices(entries)| == 0 ==> AssetRows(asset, entries, rate) == []
    ensures |PositivePrices(entries)| > 0 ==>
      |AssetRows(asset, entries, rate)| == |entries| &&
      forall i :: 0 <= i < |entries| ==>
        AssetRows(asset, entries, rate)[i].asset == asset &&
        AssetRows(asset, entries, rate)[i].exchange == entries[i].exchange &&
        AssetRows(asset, entries, rate)[i].priceConverted == entries[i].price * rate
  {
  }

  /** The table body lists asset after asset: the rows of `a + b` are those of `a`, then those
      of `b`. */
  lemma {:induction false} RowsOfAssetsConcat(prices: AggregatedState, rate: real, a: seq<AssetSymbol>, b: seq<AssetSymbol>)
    ensures RowsOfAssets(prices, rate, a + b) == RowsOfAssets(prices, rate, a) + RowsOfAssets(prices, rate, b)
    decreases |a|
  {
    if a == [] {
      assert a + b == b;
    } else {
      assert (a + b)[0] == a[0];
      assert (a + b)[1..] == a[1..] + b;
      RowsOfAssetsConcat(prices, rate, a[1..], b);
    }
  }

  /** Every record of a listed asset with a positive price appears in the table body as its
      row. */
  lemma {:induction false} RowsOfAssetsComplete(prices: AggregatedState, rate: real, assets: seq<AssetSymbol>, a: AssetSymbol, i: int)
    requires a in assets
    requires |PositivePrices(EntryOf(prices, Name(a)))| > 0
    requires 0 <= i < |EntryOf(prices, Name(a))|
    ensures exists k ::
      && 0 <= k < |RowsOfAssets(prices, rate, assets)|
      && RowsOfAssets(prices, rate, assets)[k] ==
           RowOf(a, EntryOf(prices, Name(a))[i], AvgConverted(EntryOf(prices, Name(a)), rate), rate)
    decreases |assets|
  {
    var entries := EntryOf(prices, Name(assets[0]));
    var head := AssetRows(assets[0], entries, rate);
    var tail := RowsOfAssets(prices, rate, assets[1..]);
    assert RowsOfAssets(prices, rate, assets) == head + tail;
    if assets[0] == a {
      assert head == RowsOf(a, entries, AvgConverted(entries, rate), rate);
      assert (head + tail)[i] == head[i];
    } else {
      assert a in assets[1..];
      RowsOfAssetsComplete(prices, rate, assets[1..], a, i);
      var k' :| 0 <= k' < |tail| &&
        tail[k'] == RowOf(a, EntryOf(prices, Name(a))[i], AvgConverted(EntryOf(prices, Name(a)), rate), rate);
      assert (head + tail)[|head| + k'] == tail[k'];
    }
  }

  /** At every rate, the table's converted average agrees with the dashboard's display
      average. */
  lemma AvgConvertedIsDisplayAverage(prices: AggregatedState, rate: real, a: AssetSymbol)
    ensures AvgConverted(EntryOf(prices, Name(a)), rate) == DisplayAverage(BaseAveragesOf(prices), rate, a)
  {
    ConvertedAverageOfBase(EntryOf(prices, Name(a)), BaseAveragesOf(prices), rate, a);
  }

  lemma ConvertedAverageOfBase(entries: ExchangePrices, base: map<AssetSymbol, real>, rate: real, a: AssetSymbol)
    requires a in base && base[a] == AssetMean(entries)
    ensures AvgConverted(entries, rate) == DisplayAverage(base, rate, a)
  {
  }

  /** Deviation of a row: the converted price minus the converted average, and as a
      percentage of that average when it is non-zero (0 otherwise, with no division). */
  lemma RowDeviation(asset: AssetSymbol, d: PriceData, avgConverted: real, rate: real)
    ensures var row := RowOf(asset, d, avgConverted, rate);
      && row.priceConverted - row.diff == avgConverted
      && (avgConverted != 0.0 ==> row.diffPercent * avgConverted == row.diff * 100.0)
      && (avgConverted == 0.0 ==> row.diffPercent == 0.0)
  {
  }

  /** A zero conversion rate makes every row's deviation 0, in value and in percent. */
  lemma ZeroRateFlattensRows(asset: AssetSymbol, entries: ExchangePrices)
    ensures forall i :: 0 <= i < |AssetRows(asset, entries, 0.0)| ==>
      AssetRows(asset, entries, 0.0)[i].diff == 0.0 && AssetRows(asset, entries, 0.0)[i].diffPercent == 0.0
  {
  }

  /** The deviations of an asset's rows. */
  function Diffs(rows: seq<Row>): (r: seq<real>)
    ensures |r| == |rows| && forall i :: 0 <= i < |rows| ==> r[i] == rows[i].diff
  {
    if rows == [] then [] else [rows[0].diff] + Diffs(rows[1..])
  }

  /** `Object.values(entry).map(p => p.price)`. */
  function Prices(entries: ExchangePrices): (r: seq<real>)
    ensures |r| == |entries| && forall i :: 0 <= i < |entries| ==> r[i] == entries[i].price
  {
    if entries == [] then [] else [entries[0].price] + Prices(entries[1..])
  }

  lemma {:induction false} SumOfDiffs(asset: AssetSymbol, entries: ExchangePrices, avgConverted: real, rate: real)
    ensures Sum(Diffs(RowsOf(asset, entries, avgConverted, rate))) ==
      rate * Sum(Prices(entries)) - |entries| as real * avgConverted
  {
    if entries != [] {
      SumOfDiffs(asset, entries[1..], avgConverted, rate);
      var rows := RowsOf(asset, entries, avgConverted, rate);
      assert Diffs(rows) == [rows[0].diff] + Diffs(rows[1..]);
      assert rows[1..] == RowsOf(asset, entries[1..], avgConverted, rate);
    }
  }

  lemma {:induction false} AllPositivePrices(entries: ExchangePrices)
    requires forall i :: 0 <= i < |entries| ==> entries[i].price > 0.0
    ensures PositivePrices(entries) == Prices(entries)
  {
    if entries != [] {
      AllPositivePrices(entries[1..]);
    }
  }

  /** When every present price is positive, an asset's deviations cancel out: they sum to 0. */
  lemma DiffsSumToZero(asset: AssetSymbol, entries: ExchangePrices, rate: real)
    requires forall i :: 0 <= i < |entries| ==> entries[i].price > 0.0
    ensures Sum(Diffs(AssetRows(asset, entries, rate))) == 0.0
  {
    if |PositivePrices(entries)| > 0 {
      AllPositivePrices(entries);
      var n := |entries| as real;
      var total := Sum(Prices(entries));
      var avg := AvgConverted(entries, rate);
      SumOfDiffs(asset, entries, avg, rate);
      assert AssetMean(entries) == Mean(Prices(entries)) == total / n;
      ScaledMean(total, n, rate);
    }
  }

  lemma ScaledMean(total: real, n: real, rate: real)
    requires n > 0.0
    ensures rate * total - n * (total / n * rate) == 0.0
  {
    assert n * (total / n) == total;
    assert n * (total / n * rate) == (n * (total / n)) * rate;
  }

  /** The table's own state: the "watchlist only" switch. */
  class TableView {
    var showWatchlistOnly: bool

    constructor ()
      ensures !showWatchlistOnly
    {
      showWatchlistOnly := false;
    }

    /** The filter button flips the switch. */
    method ToggleFilter()
      modifies this
      ensures showWatchlistOnly == !old(showWatchlistOnly)
    {
      showWatchlistOnly := !showWatchlistOnly;
    }

    /** The rows and the placeholder flag this view renders. */
    method Render(prices: AggregatedState, rate: real, watchlist: seq<AssetSymbol>) returns (rows: seq<Row>, placeholder: bool)
      ensures rows == TableRows(prices, rate, showWatchlistOnly, watchlist)
      ensures placeholder <==> showWatchlistOnly && |watchlist| == 0
    {
      rows := TableRows(prices, rate, showWatchlistOnly, watchlist);
      placeholder := ShowPlaceholder(showWatchlistOnly, watchlist);
      PlaceholderExactlyWhenNothingWatched(showWatchlistOnly, watchlist);
    }
  }
}
