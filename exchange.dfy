/** The three exchange protocols: wire symbols, stream URLs, subscribe payloads and the
    decoding of already-parsed ticker messages into price records. Sockets are not modelled. */
module Exchange {
  import opened Wrappers
  import opened Text
  import opened Types

  /** Binance stream name of an asset: lower-cased ticker followed by `usdt`. */
  function BinanceSymbol(a: AssetSymbol): string {
    Lower(Name(a)) + "usdt"
  }

  /** Coinbase product id / OKX instrument id of an asset: `<TICKER>-USDT`. */
  function StandardSymbol(a: AssetSymbol): string {
    Name(a) + "-USDT"
  }

  /** `xs.map(f)`. */
  function MapAssets(xs: seq<AssetSymbol>, f: AssetSymbol -> string): (r: seq<string>)
    ensures |r| == |xs| && forall i :: 0 <= i < |xs| ==> r[i] == f(xs[i])
  {
    seq(|xs|, i requires 0 <= i < |xs| => f(xs[i]))
  }

  /** The combined-stream path: every Binance symbol, joined by `/`, with one `@ticker`. */
  function BinanceStreamPath(): string {
    Join(MapAssets(AllAssets, BinanceSymbol), "/") + "@ticker"
  }

  const BinanceEndpoint: string := "wss://stream.binance.com:9443/ws/"
  const CoinbaseEndpoint: string := "wss://ws-feed.exchange.coinbase.com"
  const OkxEndpoint: string := "wss://ws.okx.com:8443/ws/v5/public"

  /** The URL each adapter connects to; only Binance encodes the subscription in it. */
  function Url(e: ExchangeName): string {
    match e
    case Binance => BinanceEndpoint + BinanceStreamPath()
    case Coinbase => CoinbaseEndpoint
    case Okx => OkxEndpoint
  }


  /** No Binance stream name contains either separator of the combined-stream path. */
  lemma BinanceSymbolSeparatorFree(a: AssetSymbol)
    ensures '@' !in BinanceSymbol(a) && '/' !in BinanceSymbol(a)
  {
    var n := Name(a);
    assert '@' !in n && '/' !in n;
    forall i | 0 <= i < |n| ensures Lower(n)[i] != '@' && Lower(n)[i] != '/' {
      assert n[i] in n;
    }
  }

  /** The stream path names the seven wire symbols in `AssetSymbol` order, and `@ticker`
      occurs once, as the suffix: no wire symbol contains `@`. Splitting the path before
      `@ticker` at `/` gives back the seven symbols. */
  lemma BinanceStreamPathShape()
    ensures var syms := MapAssets(AllAssets, BinanceSymbol);
      && |syms| == 7
      && (forall i :: 0 <= i < 7 ==> syms[i] == Lower(Name(AllAssets[i])) + "usdt")
      && BinanceStreamPath() == Join(syms, "/") + "@ticker"
      && '@' !in Join(syms, "/")
      && Split(Join(syms, "/"), '/') == syms
  {
    var syms := MapAssets(AllAssets, BinanceSymbol);
    forall i | 0 <= i < |syms|
      ensures '@' !in syms[i] && '/' !in syms[i]
    {
      BinanceSymbolSeparatorFree(AllAssets[i]);
    }
    if '@' in Join(syms, "/") {
      JoinChars(syms, "/", '@');
    }
    assert "/" == ['/'];
    SplitJoin(syms, '/');
  }

  /** One entry of the OKX `args` list. */
  datatype OkxArg = OkxArg(channel: string, instId: string)

  /** The JSON commands an adapter sends after the socket opens. */
  datatype Payload =
    | CoinbaseSubscribe(kind: string, productIds: seq<string>, channels: seq<string>)
    | OkxSubscribe(op: string, args: seq<OkxArg>)

  function OkxArgs(xs: seq<AssetSymbol>): (r: seq<OkxArg>)
    ensures |r| == |xs| && forall i :: 0 <= i < |xs| ==> r[i] == OkxArg("tickers", StandardSymbol(xs[i]))
  {
    seq(|xs|, i requires 0 <= i < |xs| => OkxArg("tickers", StandardSymbol(xs[i])))
  }

  /** What each adapter sends on open: nothing for Binance, one batch subscription for the
      others, listing every asset in `AssetSymbol` order. */
  function SubscribePayloads(e: ExchangeName): (r: seq<Payload>)
    ensures |r| == if e == Binance then 0 else 1
  {
    match e
    case Binance => []
    case Coinbase => [CoinbaseSubscribe("subscribe", MapAssets(AllAssets, StandardSymbol), ["ticker"])]
    case Okx => [OkxSubscribe("subscribe", OkxArgs(AllAssets))]
  }

  /** An already-parsed inbound message, one shape per exchange.
      Binance `@ticker`: `s` is the pair symbol, `c` the last price.
      Coinbase: `type`, `product_id`, `price`.
      OKX: an optional `data` array of tickers (`instId`, `last`). */
  datatype OkxTicker = OkxTicker(instId: string, last: real)
  datatype Message =
    | BinanceTicker(s: string, c: real)
    | CoinbaseMessage(kind: string, productId: string, price: real)
    | OkxMessage(data: Option<seq<OkxTicker>>)

  /** The exchange whose socket delivers messages of this shape. */
  function Source(m: Message): ExchangeName {
    match m
    case BinanceTicker(_, _) => Binance
    case CoinbaseMessage(_, _, _) => Coinbase
    case OkxMessage(_) => Okx
  }

  /** The `onmessage` handlers: at most one record per message, stamped with `now`. */
  function Decode(m: Message, now: int): (r: Option<PriceData>)
    ensures r.Some? ==> r.value.exchange == Source(m) && r.value.timestamp == now
  {
    match m
    case BinanceTicker(s, c) =>
      var raw := ReplaceFirst(s, "USDT", "");
      if AssetOfName(raw).Some? then Some(PriceData(Binance, raw, c, now)) else None
    case CoinbaseMessage(kind, productId, price) =>
      if kind != "ticker" then None
      else Some(PriceData(Coinbase, BeforeFirst(productId, '-'), price, now))
    case OkxMessage(data) =>
      if data.None? || |data.value| == 0 then None
      else Some(PriceData(Okx, BeforeFirst(data.value[0].instId, '-'), data.value[0].last, now))
  }

  /** Binance: a record is produced exactly when the symbol, with its first `USDT` removed, is
      a tracked ticker, and it is filed under that ticker. */
  lemma DecodeBinanceFilters(s: string, c: real, now: int)
    ensures Decode(BinanceTicker(s, c), now).Some? <==> AssetOfName(ReplaceFirst(s, "USDT", "")).Some?
    ensures Decode(BinanceTicker(s, c), now).Some? ==>
      Decode(BinanceTicker(s, c), now).value == PriceData(Binance, ReplaceFirst(s, "USDT", ""), c, now)
  {
  }

  /** Binance round trip: the pair symbol `<TICKER>USDT` decodes to that asset. */
  lemma {:induction false} DecodeBinanceRoundTrip(a: AssetSymbol, c: real, now: int)
    ensures Decode(BinanceTicker(Name(a) + "USDT", c), now) == Some(PriceData(Binance, Name(a), c, now))
  {
    NamesAvoidSeparators(a);
    ReplaceFirstStripsSuffix(Name(a), "USDT");
    AssetNameRoundTrip(a, a);
  }

  /** Coinbase: non-ticker messages (e.g. subscription acks) are ignored; every ticker yields
      exactly one record, with no check that its symbol is tracked. */
  lemma DecodeCoinbaseTickerOnly(kind: string, productId: string, price: real, now: int)
    ensures Decode(CoinbaseMessage(kind, productId, price), now).None? <==> kind != "ticker"
    ensures kind == "ticker" ==>
      Decode(CoinbaseMessage(kind, productId, price), now) ==
        Some(PriceData(Coinbase, BeforeFirst(productId, '-'), price, now))
  {
  }

  /** OKX: only `data[0]` is used; a missing or empty `data` is ignored. */
  lemma DecodeOkxFirstOnly(t: OkxTicker, rest: seq<OkxTicker>, now: int)
    ensures Decode(OkxMessage(None), now).None? && Decode(OkxMessage(Some([])), now).None?
    ensures Decode(OkxMessage(Some([t] + rest)), now) == Decode(OkxMessage(Some([t])), now)
    ensures Decode(OkxMessage(Some([t])), now).Some?
  {
  }

  /** Coinbase and OKX round trip: the part of an asset's standard symbol before the first `-`
      is its ticker, so the record is filed under that asset. */
  lemma {:induction false} DecodeStandardRoundTrip(a: AssetSymbol, price: real, now: int)
    ensures Decode(CoinbaseMessage("ticker", StandardSymbol(a), price), now) ==
      Some(PriceData(Coinbase, Name(a), price, now))
    ensures Decode(OkxMessage(Some([OkxTicker(StandardSymbol(a), price)])), now) ==
      Some(PriceData(Okx, Name(a), price, now))
  {
    NamesAvoidSeparators(a);
    assert StandardSymbol(a) == Name(a) + ['-'] + "USDT";
    BeforeFirstOfJoined(Name(a), '-', "USDT");
  }

  /** The subscriptions list one id per asset, in `AssetSymbol` order, and each id decodes back
      to its asset. */
  lemma SubscriptionsCoverAllAssets()
    ensures SubscribePayloads(Binance) == []
    ensures var p := SubscribePayloads(Coinbase);
      |p| == 1 && p[0].CoinbaseSubscribe? && p[0].kind == "subscribe" && p[0].channels == ["ticker"] &&
      |p[0].productIds| == 7 &&
      forall i :: 0 <= i < 7 ==> p[0].productIds[i] == StandardSymbol(AllAssets[i])
    ensures var p := SubscribePayloads(Okx);
      |p| == 1 && p[0].OkxSubscribe? && p[0].op == "subscribe" && |p[0].args| == 7 &&
      forall i :: 0 <= i < 7 ==> p[0].args[i] == OkxArg("tickers", StandardSymbol(AllAssets[i]))
  {
  }
}
