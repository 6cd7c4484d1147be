/** The aggregation store's update rule and the pricing/conversion engine, as pure functions
    over the aggregated price table. */
module Aggregation {
  import opened Wrappers
  import opened Types

  // ---------------------------------------------------------------- the per-asset record

  /** `prev[symbol][ex]`: the record an asset's entry holds for one exchange. */
  function Lookup(entries: ExchangePrices, ex: ExchangeName): (r: Option<PriceData>)
    ensures r.Some? ==> r.value in entries && r.value.exchange == ex
    ensures r.None? <==> forall i :: 0 <= i < |entries| ==> entries[i].exchange != ex
  {
    if entries == [] then None
    else if entries[0].exchange == ex then Some(entries[0])
    else Lookup(entries[1..], ex)
  }

  /** `{ ...prev[symbol], [d.exchange]: d }`: an existing key keeps its position and takes the
      new record; a new key goes to the end. */
  function Upsert(entries: ExchangePrices, d: PriceData): ExchangePrices {
    if entries == [] then [d]
    else if entries[0].exchange == d.exchange then [d] + entries[1..]
    else [entries[0]] + Upsert(entries[1..], d)
  }

  /** After an upsert the entry holds `d` for `d.exchange`, and the same record as before for
      every other exchange. */
  lemma {:induction false} UpsertLookup(entries: ExchangePrices, d: PriceData, ex: ExchangeName)
    ensures Lookup(Upsert(entries, d), ex) == if ex == d.exchange then Some(d) else Lookup(entries, ex)
  {
    if entries != [] && entries[0].exchange != d.exchange {
      UpsertLookup(entries[1..], d, ex);
    }
  }

  /** With at most one record per exchange, an upsert replaces that exchange's record in
      place, or appends `d` when the exchange had none; it never removes a record and keeps
      one record per exchange. */
  lemma {:induction false} UpsertInPlace(entries: ExchangePrices, d: PriceData)
    requires DistinctExchanges(entries)
    ensures var r := Upsert(entries, d);
      && DistinctExchanges(r)
      && (Lookup(entries, d.exchange).Some? ==>
            |r| == |entries| &&
            forall i :: 0 <= i < |entries| ==> r[i] == if entries[i].exchange == d.exchange then d else entries[i])
      && (Lookup(entries, d.exchange).None? ==> r == entries + [d])
  {
    UpsertKeepsDistinct(entries, d);
    if Lookup(entries, d.exchange).Some? {
      UpsertReplaces(entries, d);
    } else {
      UpsertAppends(entries, d);
    }
  }

  lemma {:induction false} UpsertKeepsDistinct(entries: ExchangePrices, d: PriceData)
    requires DistinctExchanges(entries)
    ensures DistinctExchanges(Upsert(entries, d))
  {
    if entries == [] {
    } else if entries[0].exchange == d.exchange {
      var tail := entries[1..];
      assert Lookup(tail, d.exchange).None? by {
        forall k | 0 <= k < |tail| ensures tail[k].exchange != d.exchange {
          assert tail[k] == entries[k + 1];
        }
      }
      ConsDistinct(d, tail);
    } else {
      var head, tail := entries[0], entries[1..];
      UpsertKeepsDistinct(tail, d);
      assert Lookup(tail, head.exchange).None?;
      UpsertLookup(tail, d, head.exchange);
      ConsDistinct(head, Upsert(tail, d));
    }
  }

  lemma {:induction false} UpsertReplaces(entries: ExchangePrices, d: PriceData)
    requires DistinctExchanges(entries) && Lookup(entries, d.exchange).Some?
    ensures var r := Upsert(entries, d);
      |r| == |entries| &&
      forall i :: 0 <= i < |entries| ==> r[i] == if entries[i].exchange == d.exchange then d else entries[i]
  {
    var r := Upsert(entries, d);
    var tail := entries[1..];
    if entries[0].exchange == d.exchange {
      forall i | 0 <= i < |entries|
        ensures r[i] == if entries[i].exchange == d.exchange then d else entries[i]
      {
        if i > 0 { assert entries[i] == tail[i - 1] && entries[i].exchange != entries[0].exchange; }
      }
    } else {
      UpsertReplaces(tail, d);
      forall i | 0 <= i < |entries|
        ensures r[i] == if entries[i].exchange == d.exchange then d else entries[i]
      {
        if i > 0 { assert r[i] == Upsert(tail, d)[i - 1] && entries[i] == tail[i - 1]; }
      }
    }
  }

  lemma {:induction false} UpsertAppends(entries: ExchangePrices, d: PriceData)
    requires Lookup(entries, d.exchange).None?
    ensures Upsert(entries, d) == entries + [d]
  {
    if entries != [] {
      UpsertAppends(entries[1..], d);
      assert entries == [entries[0]] + entries[1..];
    }
  }

  lemma ConsDistinct(head: PriceData, tail: ExchangePrices)
    requires DistinctExchanges(tail) && Lookup(tail, head.exchange).None?
    ensures DistinctExchanges([head] + tail)
  {
    var r := [head] + tail;
    forall i, j | 0 <= i < j < |r| ensures r[i].exchange != r[j].exchange {
      assert r[j] == tail[j - 1];
      if i > 0 { assert r[i] == tail[i - 1]; }
    }
  }

  /** Applying the same record twice leaves the entry as applying it once. */
  lemma {:induction false} UpsertIdempotent(entries: ExchangePrices, d: PriceData)
    ensures Upsert(Upsert(entries, d), d) == Upsert(entries, d)
  {
    if entries != [] && entries[0].exchange != d.exchange {
      UpsertIdempotent(entries[1..], d);
    }
  }

  /** The exchanges an entry holds a record for. */
  function ExchangesOf(entries: ExchangePrices): set<ExchangeName> {
    set i | 0 <= i < |entries| :: entries[i].exchange
  }

  lemma {:induction false} ExchangesOfDistinct(entries: ExchangePrices)
    requires DistinctExchanges(entries)
    ensures |ExchangesOf(entries)| == |entries|
  {
    if entries != [] {
      var tail := entries[1..];
      ExchangesOfDistinct(tail);
      ExchangesOfCons(entries);
      assert entries[0].exchange !in ExchangesOf(tail);
    }
  }

  lemma ExchangesOfCons(entries: ExchangePrices)
    requires entries != []
    ensures ExchangesOf(entries) == {entries[0].exchange} + ExchangesOf(entries[1..])
  {
    var tail := entries[1..];
    forall x | x in ExchangesOf(entries) ensures x in {entries[0].exchange} + ExchangesOf(tail) {
      var i :| 0 <= i < |entries| && entries[i].exchange == x;
      if i > 0 { assert tail[i - 1].exchange == x; }
    }
    forall x | x in ExchangesOf(tail) ensures x in ExchangesOf(entries) {
      var i :| 0 <= i < |tail| && tail[i].exchange == x;
      assert entries[i + 1].exchange == x;
    }
  }

  /** One record per exchange means at most three records per asset, so an asset's average
      never counts an exchange twice. */
  lemma AtMostOnePerExchange(entries: ExchangePrices)
    requires DistinctExchanges(entries)
    ensures |entries| <= |AllExchanges|
  {
    ExchangesOfDistinct(entries);
    var all := {Binance, Coinbase, Okx};
    forall e: ExchangeName
      ensures e in all
    {
      match e
      case Binance =>
      case Coinbase =>
      case Okx =>
    }
    assert |all| == 3;
    SubsetCardinality(ExchangesOf(entries), all);
  }

  lemma SubsetCardinality<T>(a: set<T>, b: set<T>)
    requires a <= b
    ensures |a| <= |b|
  {
    assert b == a + (b - a);
  }

  // ---------------------------------------------------------------- the whole table

  /** The entry for a symbol; a missing one reads as empty (spreading `undefined`). */
  function EntryOf(prices: AggregatedState, s: string): ExchangePrices {
    if s in prices then prices[s] else []
  }

  /** The initial table: every asset present with no records. */
  function InitialPrices(): (r: AggregatedState)
    ensures WellFormed(r)
    ensures forall a: AssetSymbol :: r[Name(a)] == []
    ensures forall s :: s in r ==> AssetOfName(s).Some?
  {
    map s | s in AssetNames() :: []
  }

  /** `updatePrice`: the functional merge of the previous table with one record. */
  function UpdatePrices(prices: AggregatedState, d: PriceData): AggregatedState {
    prices[d.symbol := Upsert(EntryOf(prices, d.symbol), d)]
  }

  /** `updatePrice` sets the record at (symbol, exchange), leaves every other symbol and every
      other exchange of that symbol as it was, and removes no key. */
  lemma UpdatePricesEffect(prices: AggregatedState, d: PriceData, s: string, ex: ExchangeName)
    ensures UpdatePrices(prices, d).Keys == prices.Keys + {d.symbol}
    ensures Lookup(EntryOf(UpdatePrices(prices, d), s), ex) ==
      (if s == d.symbol && ex == d.exchange then Some(d) else Lookup(EntryOf(prices, s), ex))
    ensures s != d.symbol ==> EntryOf(UpdatePrices(prices, d), s) == EntryOf(prices, s)
  {
    UpsertLookup(EntryOf(prices, d.symbol), d, ex);
  }

  /** `updatePrice` is idempotent. */
  lemma UpdatePricesIdempotent(prices: AggregatedState, d: PriceData)
    ensures UpdatePrices(UpdatePrices(prices, d), d) == UpdatePrices(prices, d)
  {
    UpsertIdempotent(EntryOf(prices, d.symbol), d);
  }

  /** `updatePrice` keeps the table's shape: every asset present, one record per exchange,
      each record under its own symbol. */
  lemma UpdatePricesWellFormed(prices: AggregatedState, d: PriceData)
    requires WellFormed(prices)
    ensures WellFormed(UpdatePrices(prices, d))
  {
    var old_e := EntryOf(prices, d.symbol);
    UpsertInPlace(old_e, d);
    var e := Upsert(old_e, d);
    forall i | 0 <= i < |e| ensures e[i].symbol == d.symbol {
      if Lookup(old_e, d.exchange).None? {
        assert e == old_e + [d];
      }
    }
  }

  // ---------------------------------------------------------------- means

  /** `Object.values(entry).map(p => p?.price || 0).filter(v => v > 0)`. */
  function PositivePrices(entries: ExchangePrices): (r: seq<real>)
    ensures |r| <= |entries|
    ensures forall i :: 0 <= i < |r| ==> r[i] > 0.0
  {
    if entries == [] then []
    else (if entries[0].price > 0.0 then [entries[0].price] else []) + PositivePrices(entries[1..])
  }

  /** A value is among the positive prices exactly when some record carries it and it is
      positive. */
  lemma {:induction false} PositivePricesMembers(entries: ExchangePrices, x: real)
    ensures x in PositivePrices(entries) <==> x > 0.0 && exists i :: 0 <= i < |entries| && entries[i].price == x
  {
    if entries != [] {
      PositivePricesMembers(entries[1..], x);
      if x in PositivePrices(entries[1..]) {
        var i :| 0 <= i < |entries[1..]| && entries[1..][i].price == x;
        assert entries[i + 1].price == x;
      }
      if x > 0.0 && (exists i :: 0 <= i < |entries| && entries[i].price == x) && entries[0].price != x {
        var i :| 0 <= i < |entries| && entries[i].price == x;
        assert entries[1..][i - 1].price == x;
      }
    }
  }

  /** `values.reduce((a, b) => a + b, 0)`. */
  function Sum(xs: seq<real>): real {
    if xs == [] then 0.0 else xs[0] + Sum(xs[1..])
  }

  /** The arithmetic mean, defined as 0 for no values. */
  function Mean(xs: seq<real>): real {
    if |xs| == 0 then 0.0 else Sum(xs) / |xs| as real
  }

  /** The per-asset average of `baseAveragesUsdt`: the mean of the strictly positive prices. */
  function AssetMean(entries: ExchangePrices): real {
    Mean(PositivePrices(entries))
  }

  lemma AssetMeanFormula(entries: ExchangePrices, avg: real)
    requires var values := PositivePrices(entries);
      avg == if |values| > 0 then Sum(values) / |values| as real else 0.0
    ensures avg == AssetMean(entries)
  {
  }

  lemma {:induction false} SumBounds(xs: seq<real>, lo: real, hi: real)
    requires forall i :: 0 <= i < |xs| ==> lo <= xs[i] <= hi
    ensures |xs| as real * lo <= Sum(xs) <= |xs| as real * hi
  {
    if xs != [] {
      SumBounds(xs[1..], lo, hi);
    }
  }

  /** A non-empty mean lies between any lower and upper bound of its values. */
  lemma MeanBetween(xs: seq<real>, lo: real, hi: real)
    requires xs != []
    requires forall i :: 0 <= i < |xs| ==> lo <= xs[i] <= hi
    ensures lo <= Mean(xs) <= hi
  {
    SumBounds(xs, lo, hi);
    var n := |xs| as real;
    assert Mean(xs) == Sum(xs) / n;
    assert n * lo <= Sum(xs) <= n * hi;
    DivBounds(Sum(xs), n, lo, hi);
  }

  lemma DivBounds(s: real, n: real, lo: real, hi: real)
    requires n > 0.0 && n * lo <= s <= n * hi
    ensures lo <= s / n <= hi
  {
    assert s / n * n == s;
  }

  /** The least and the greatest of a non-empty sequence. */
  function Min(xs: seq<real>): (m: real)
    requires xs != []
    ensures m in xs && forall i :: 0 <= i < |xs| ==> m <= xs[i]
  {
    if |xs| == 1 then xs[0] else var m := Min(xs[1..]); if xs[0] <= m then xs[0] else m
  }

  function Max(xs: seq<real>): (m: real)
    requires xs != []
    ensures m in xs && forall i :: 0 <= i < |xs| ==> xs[i] <= m
  {
    if |xs| == 1 then xs[0] else var m := Max(xs[1..]); if xs[0] >= m then xs[0] else m
  }

  /** An asset's average is 0 when it has no positive price; otherwise it is positive and lies
      between the smallest and the largest positive price. */
  lemma AssetMeanRange(entries: ExchangePrices)
    ensures AssetMean(entries) >= 0.0
    ensures PositivePrices(entries) == [] ==> AssetMean(entries) == 0.0
    ensures PositivePrices(entries) != [] ==>
      0.0 < Min(PositivePrices(entries)) <= AssetMean(entries) <= Max(PositivePrices(entries))
  {
    var ps := PositivePrices(entries);
    if ps != [] {
      MeanBetween(ps, Min(ps), Max(ps));
    }
  }

  // ---------------------------------------------------------------- conversion

  /** `baseAveragesUsdt[code]`, where a code that is not an asset (an `undefined` lookup)
      reads as 0: both fail the `> 0` test alike. */
  function BasisAverage(c: Currency, base: map<AssetSymbol, real>): real {
    match AssetOfName(c.code)
    case None => 0.0
    case Some(a) => if a in base then base[a] else 0.0
  }

  /** `currentConversionRate`: how many units of the selected currency one USDT is worth. */
  function ConversionRate(c: Currency, base: map<AssetSymbol, real>): (r: real)
    ensures r >= 0.0
  {
    if c.isStablecoin then 1.0
    else if BasisAverage(c, base) > 0.0 then 1.0 / BasisAverage(c, base)
    else 0.0
  }

  /** The three cases of the rate: 1 for a stablecoin; the reciprocal of the basis asset's
      average when that is positive, so that one unit of the basis is worth its average;
      0 otherwise, with no division. */
  lemma ConversionRateCases(c: Currency, base: map<AssetSymbol, real>)
    ensures c.isStablecoin ==> ConversionRate(c, base) == 1.0
    ensures !c.isStablecoin && BasisAverage(c, base) > 0.0 ==>
      ConversionRate(c, base) > 0.0 && BasisAverage(c, base) * ConversionRate(c, base) == 1.0
    ensures !c.isStablecoin && BasisAverage(c, base) <= 0.0 ==> ConversionRate(c, base) == 0.0
  {
  }

  /** `displayAverages[a]`. */
  function DisplayAverage(base: map<AssetSymbol, real>, rate: real, a: AssetSymbol): real
    requires a in base
  {
    base[a] * rate
  }

  /** A zero rate shows every average as 0; a stablecoin shows the USDT averages unchanged. */
  lemma DisplayAverageCases(c: Currency, base: map<AssetSymbol, real>, a: AssetSymbol)
    requires a in base
    ensures ConversionRate(c, base) == 0.0 ==> DisplayAverage(base, ConversionRate(c, base), a) == 0.0
    ensures c.isStablecoin ==> DisplayAverage(base, ConversionRate(c, base), a) == base[a]
    ensures !c.isStablecoin && AssetOfName(c.code) == Some(a) && base[a] > 0.0 ==>
      DisplayAverage(base, ConversionRate(c, base), a) == 1.0
  {
    ConversionRateCases(c, base);
  }
}
