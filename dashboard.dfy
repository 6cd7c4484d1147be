/** The dashboard's state: the aggregated price table, the watchlist and its persisted copy,
    the selected display currency and the per-exchange connection flags, with the loops that
    derive the averages shown from them. */
module Dashboard {
  import opened Wrappers
  import opened Types
  import opened Aggregation

  // ---------------------------------------------------------------- watchlist

  /** Local-storage key of the persisted watchlist. */
  const WatchlistKey: string := "cryptoradar_watchlist"

  /** What local storage holds under a key: a JSON list, or text that does not parse. */
  datatype StoredWatchlist = SavedList(list: seq<AssetSymbol>) | Unparseable

  /** The watchlist's initial value: the saved list, or `[]` when nothing is saved or the saved
      text does not parse. */
  function LoadWatchlist(storage: map<string, StoredWatchlist>): seq<AssetSymbol> {
    if WatchlistKey in storage && storage[WatchlistKey].SavedList? then storage[WatchlistKey].list
    else []
  }

  /** A persisted watchlist reads back unchanged, whatever else storage holds. */
  lemma WatchlistRoundTrip(storage: map<string, StoredWatchlist>, w: seq<AssetSymbol>)
    ensures LoadWatchlist(storage[WatchlistKey := SavedList(w)]) == w
    ensures WatchlistKey !in storage ==> LoadWatchlist(storage) == []
  {
  }

  /** `prev.filter(s => s !== symbol)`. */
  function Without(w: seq<AssetSymbol>, s: AssetSymbol): (r: seq<AssetSymbol>)
    ensures s !in r
    ensures forall t :: t != s ==> (t in r <==> t in w)
    ensures |r| <= |w|
  {
    if w == [] then []
    else if w[0] == s then Without(w[1..], s)
    else [w[0]] + Without(w[1..], s)
  }

  /** The filter works element by element: it keeps the order and the repetitions of the rest. */
  lemma {:induction false} WithoutConcat(a: seq<AssetSymbol>, b: seq<AssetSymbol>, s: AssetSymbol)
    ensures Without(a + b, s) == Without(a, s) + Without(b, s)
    decreases |a|
  {
    if a == [] {
      assert a + b == b;
    } else {
      assert (a + b)[0] == a[0];
      assert (a + b)[1..] == a[1..] + b;
      WithoutConcat(a[1..], b, s);
    }
  }

  /** `toggleWatchlist`: drop every occurrence of a present symbol, append an absent one. */
  function Toggled(w: seq<AssetSymbol>, s: AssetSymbol): seq<AssetSymbol> {
    if s in w then Without(w, s) else w + [s]
  }

  predicate NoDuplicates(w: seq<AssetSymbol>) {
    forall i, j :: 0 <= i < j < |w| ==> w[i] != w[j]
  }

  /** Toggling flips exactly the toggled symbol's membership. */
  lemma ToggledMembership(w: seq<AssetSymbol>, s: AssetSymbol, t: AssetSymbol)
    ensures t in Toggled(w, s) <==> (if t == s then s !in w else t in w)
  {
  }

  lemma {:induction false} WithoutKeepsNoDuplicates(w: seq<AssetSymbol>, s: AssetSymbol)
    requires NoDuplicates(w)
    ensures NoDuplicates(Without(w, s))
  {
    if w != [] {
      WithoutKeepsNoDuplicates(w[1..], s);
      assert w[0] !in w[1..];
    }
  }

  /** A duplicate-free watchlist stays duplicate-free. */
  lemma ToggledKeepsNoDuplicates(w: seq<AssetSymbol>, s: AssetSymbol)
    requires NoDuplicates(w)
    ensures NoDuplicates(Toggled(w, s))
  {
    if s in w { WithoutKeepsNoDuplicates(w, s); }
  }

  lemma {:induction false} WithoutAbsent(w: seq<AssetSymbol>, s: AssetSymbol)
    requires s !in w
    ensures Without(w, s) == w
  {
    if w != [] {
      WithoutAbsent(w[1..], s);
    }
  }

  /** Toggling an absent symbol twice restores the list; toggling a present one twice moves it
      to the end (and drops its duplicates). */
  lemma {:induction false} ToggleTwice(w: seq<AssetSymbol>, s: AssetSymbol)
    ensures s !in w ==> Toggled(Toggled(w, s), s) == w
    ensures s in w ==> Toggled(Toggled(w, s), s) == Without(w, s) + [s]
  {
    if s !in w {
      WithoutAbsent(w, s);
      assert Without(w + [s], s) == w by { WithoutAppend(w, s); }
    }
  }

  lemma {:induction false} WithoutAppend(w: seq<AssetSymbol>, s: AssetSymbol)
    requires s !in w
    ensures Without(w + [s], s) == w
  {
    if w == [] {
      assert [s][1..] == [];
    } else {
      WithoutAppend(w[1..], s);
      assert (w + [s])[1..] == w[1..] + [s];
    }
  }

  // ---------------------------------------------------------------- derived values

  /** `baseAveragesUsdt` as a function of the table: every asset's mean positive price. */
  function BaseAveragesOf(prices: AggregatedState): (r: map<AssetSymbol, real>)
    ensures forall a: AssetSymbol :: a in r && r[a] == AssetMean(EntryOf(prices, Name(a)))
  {
    AssetsEnumerated();
    map a: AssetSymbol | a in AllAssets :: AssetMean(EntryOf(prices, Name(a)))
  }

  /** A record changes no other asset's average. */
  lemma OtherAveragesUnchanged(prices: AggregatedState, d: PriceData, a: AssetSymbol)
    ensures Name(a) != d.symbol ==> BaseAveragesOf(UpdatePrices(prices, d))[a] == BaseAveragesOf(prices)[a]
  {
    if Name(a) != d.symbol {
      UpdatePricesEffect(prices, d, Name(a), d.exchange);
    }
  }

  /** A record for a symbol that is not tracked changes no average at all. */
  lemma UntrackedRecordKeepsAverages(prices: AggregatedState, d: PriceData)
    requires AssetOfName(d.symbol).None?
    ensures BaseAveragesOf(UpdatePrices(prices, d)) == BaseAveragesOf(prices)
  {
    forall b: AssetSymbol ensures BaseAveragesOf(UpdatePrices(prices, d))[b] == BaseAveragesOf(prices)[b] {
      OtherAveragesUnchanged(prices, d, b);
    }
  }

  /** Repeating a record changes no average: nothing is counted twice. */
  lemma RepeatedRecordKeepsAverages(prices: AggregatedState, d: PriceData)
    ensures BaseAveragesOf(UpdatePrices(UpdatePrices(prices, d), d)) == BaseAveragesOf(UpdatePrices(prices, d))
  {
    UpdatePricesIdempotent(prices, d);
  }

  /** Fills a fresh record of every asset's average, one asset at a time. */
  method DisplayAverages(base: map<AssetSymbol, real>, rate: real) returns (r: map<AssetSymbol, real>)
    requires forall a: AssetSymbol :: a in base
    ensures forall a: AssetSymbol :: a in r && r[a] == DisplayAverage(base, rate, a)
  {
    AssetsEnumerated();
    r := map[];
    for i := 0 to |AllAssets|
      invariant forall j :: 0 <= j < i ==> AllAssets[j] in r && r[AllAssets[j]] == base[AllAssets[j]] * rate
    {
      var s := AllAssets[i];
      r := r[s := base[s] * rate];
    }
    forall a: AssetSymbol ensures a in r && r[a] == DisplayAverage(base, rate, a) {
      assert a in AllAssets;
      var j :| 0 <= j < |AllAssets| && AllAssets[j] == a;
    }
  }

  /** The initial price table, built by visiting every asset once. */
  method InitialTable() returns (initial: AggregatedState)
    ensures initial == InitialPrices()
  {
    initial := map[];
    for i := 0 to |AllAssets|
      invariant forall j :: 0 <= j < i ==> Name(AllAssets[j]) in initial
      invariant forall s :: s in initial ==> s in AssetNames() && initial[s] == []
    {
      initial := initial[Name(AllAssets[i]) := []];
    }
    AssetsEnumerated();
    forall a: AssetSymbol ensures Name(a) in initial {
      assert a in AllAssets;
      var j :| 0 <= j < |AllAssets| && AllAssets[j] == a;
    }
    IsInitialPrices(initial);
  }

  /** A table with an empty entry for every asset and nothing else is the initial table. */
  lemma IsInitialPrices(m: AggregatedState)
    requires forall a: AssetSymbol :: Name(a) in m
    requires forall s :: s in m ==> s in AssetNames() && m[s] == []
    ensures m == InitialPrices()
  {
    assert m.Keys == InitialPrices().Keys;
  }

  // ---------------------------------------------------------------- the component state

  class App {
    var prices: AggregatedState
    var watchlist: seq<AssetSymbol>
    var storage: map<string, StoredWatchlist>
    var selectedCurrency: Currency
    var connectionStatus: map<ExchangeName, bool>

    /** The state's invariant: the table's shape, one flag per exchange, and the watchlist
        persisted as it stands. */
    ghost predicate Valid()
      reads this
    {
      && WellFormed(prices)
      && (forall e: ExchangeName :: e in connectionStatus)
      && WatchlistKey in storage && storage[WatchlistKey] == SavedList(watchlist)
    }

    /** The first render: an empty entry per asset (built in a loop), the saved watchlist,
        the first supported currency, every exchange disconnected. */
    constructor (saved: map<string, StoredWatchlist>)
      ensures Valid()
      ensures prices == InitialPrices()
      ensures watchlist == LoadWatchlist(saved)
      ensures storage == saved[WatchlistKey := SavedList(watchlist)]
      ensures selectedCurrency == SupportedCurrencies[0]
      ensures forall e: ExchangeName :: !connectionStatus[e]
    {
      var initial := InitialTable();
      prices := initial;
      watchlist := LoadWatchlist(saved);
      storage := saved[WatchlistKey := SavedList(LoadWatchlist(saved))];
      selectedCurrency := SupportedCurrencies[0];
      var status := map[Binance := false, Coinbase := false, Okx := false];
      forall e: ExchangeName ensures e in status && !status[e] {
        match e
        case Binance =>
        case Coinbase =>
        case Okx =>
      }
      connectionStatus := status;
    }

    /** `updatePrice`. */
    method UpdatePrice(d: PriceData)
      requires Valid()
      modifies this
      ensures Valid()
      ensures prices == UpdatePrices(old(prices), d)
      ensures watchlist == old(watchlist) && storage == old(storage)
      ensures selectedCurrency == old(selectedCurrency) && connectionStatus == old(connectionStatus)
    {
      UpdatePricesWellFormed(prices, d);
      var entry := if d.symbol in prices then prices[d.symbol] else [];
      prices := prices[d.symbol := Upsert(entry, d)];
    }

    /** `toggleWatchlist`, followed by the effect that persists the new list. */
    method ToggleWatchlist(s: AssetSymbol)
      requires Valid()
      modifies this
      ensures Valid()
      ensures watchlist == Toggled(old(watchlist), s)
      ensures storage == old(storage)[WatchlistKey := SavedList(watchlist)]
      ensures prices == old(prices) && selectedCurrency == old(selectedCurrency)
      ensures connectionStatus == old(connectionStatus)
    {
      watchlist := if s in watchlist then Without(watchlist, s) else watchlist + [s];
      storage := storage[WatchlistKey := SavedList(watchlist)];
    }

    /** An adapter's open callback: raises that exchange's flag and no other. */
    method MarkConnected(e: ExchangeName)
      requires Valid()
      modifies this
      ensures Valid()
      ensures connectionStatus == old(connectionStatus)[e := true]
      ensures forall f: ExchangeName :: old(connectionStatus)[f] ==> connectionStatus[f]
      ensures prices == old(prices) && watchlist == old(watchlist) && storage == old(storage)
      ensures selectedCurrency == old(selectedCurrency)
    {
      connectionStatus := connectionStatus[e := true];
    }

    /** `setSelectedCurrency`, as the currency selector calls it. */
    method SelectCurrency(c: Currency)
      requires Valid()
      modifies this
      ensures Valid()
      ensures selectedCurrency == c
      ensures prices == old(prices) && watchlist == old(watchlist) && storage == old(storage)
      ensures connectionStatus == old(connectionStatus)
    {
      selectedCurrency := c;
    }

    /** `baseAveragesUsdt`, filled asset by asset. */
    method BaseAverages() returns (base: map<AssetSymbol, real>)
      requires Valid()
      ensures base == BaseAveragesOf(prices)
    {
      AssetsEnumerated();
      base := map[];
      for i := 0 to |AllAssets|
        invariant forall a :: a in base <==> exists j :: 0 <= j < i && AllAssets[j] == a
        invariant forall a :: a in base ==> base[a] == AssetMean(prices[Name(a)])
      {
        var s := AllAssets[i];
        var values := PositivePrices(prices[Name(s)]);
        var avg := if |values| > 0 then Sum(values) / |values| as real else 0.0;
        AssetMeanFormula(prices[Name(s)], avg);
        base := base[s := avg];
      }
    }

    /** `currentConversionRate` and `displayAverages` for the current state. */
    method Averages() returns (rate: real, display: map<AssetSymbol, real>)
      requires Valid()
      ensures rate == ConversionRate(selectedCurrency, BaseAveragesOf(prices))
      ensures forall a: AssetSymbol :: a in display && display[a] == DisplayAverage(BaseAveragesOf(prices), rate, a)
    {
      var base := BaseAverages();
      rate := ConversionRate(selectedCurrency, base);
      display := DisplayAverages(base, rate);
    }
  }
}
