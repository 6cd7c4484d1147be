/** The closed data model of the dashboard: exchanges, assets, display currencies,
    price records, the aggregated price table and the AI payloads. */
module Types {
  import opened Wrappers
  import opened Text

  /** The three price sources. */
  datatype ExchangeName = Binance | Coinbase | Okx

  /** The enum's string value, used as the key in the per-asset record. */
  function ExchangeLabel(e: ExchangeName): string {
    match e
    case Binance => "Binance"
    case Coinbase => "Coinbase"
    case Okx => "OKX"
  }

  /** `Object.values(ExchangeName)`, in declaration order. */
  const AllExchanges: seq<ExchangeName> := [Binance, Coinbase, Okx]

  /** The seven tracked assets. */
  datatype AssetSymbol = BTC | ETH | SOL | BNB | XRP | DOGE | LINK

  /** The enum's string value (the ticker). */
  function Name(a: AssetSymbol): string {
    match a
    case BTC => "BTC"
    case ETH => "ETH"
    case SOL => "SOL"
    case BNB => "BNB"
    case XRP => "XRP"
    case DOGE => "DOGE"
    case LINK => "LINK"
  }

  /** `Object.values(AssetSymbol)`, in declaration order: the order of subscriptions and rows. */
  const AllAssets: seq<AssetSymbol> := [BTC, ETH, SOL, BNB, XRP, DOGE, LINK]

  /** The ticker strings, as a set. */
  function AssetNames(): (r: set<string>)
    ensures forall a: AssetSymbol :: Name(a) in r
    ensures forall n :: n in r ==> exists a: AssetSymbol :: Name(a) == n
  {
    set a: AssetSymbol | a in AllAssets :: Name(a)
  }

  /** `Object.values(AssetSymbol).includes(s)`, returning the asset whose value `s` is. */
  function AssetOfName(s: string): (r: Option<AssetSymbol>)
    ensures r.Some? ==> Name(r.value) == s
    ensures r.None? ==> forall a: AssetSymbol :: Name(a) != s
  {
    if s == "BTC" then Some(BTC)
    else if s == "ETH" then Some(ETH)
    else if s == "SOL" then Some(SOL)
    else if s == "BNB" then Some(BNB)
    else if s == "XRP" then Some(XRP)
    else if s == "DOGE" then Some(DOGE)
    else if s == "LINK" then Some(LINK)
    else None
  }

  lemma ExchangesEnumerated()
    ensures |AllExchanges| == 3
    ensures forall e: ExchangeName :: e in AllExchanges
    ensures forall i, j :: 0 <= i < j < |AllExchanges| ==> AllExchanges[i] != AllExchanges[j]
    ensures forall e, f: ExchangeName :: ExchangeLabel(e) == ExchangeLabel(f) ==> e == f
  {
    forall e: ExchangeName ensures e in AllExchanges {
      match e
      case Binance => assert AllExchanges[0] == e;
      case Coinbase => assert AllExchanges[1] == e;
      case Okx => assert AllExchanges[2] == e;
    }
  }

  lemma AssetsEnumerated()
    ensures |AllAssets| == 7
    ensures forall a: AssetSymbol :: a in AllAssets
    ensures forall i, j :: 0 <= i < j < |AllAssets| ==> AllAssets[i] != AllAssets[j]
  {
    forall a: AssetSymbol ensures a in AllAssets {
      match a
      case BTC => assert AllAssets[0] == a;
      case ETH => assert AllAssets[1] == a;
      case SOL => assert AllAssets[2] == a;
      case BNB => assert AllAssets[3] == a;
      case XRP => assert AllAssets[4] == a;
      case DOGE => assert AllAssets[5] == a;
      case LINK => assert AllAssets[6] == a;
    }
  }

  /** Distinct assets have distinct tickers, and a ticker is recognised exactly when it is
      some asset's. */
  lemma AssetNameRoundTrip(a: AssetSymbol, b: AssetSymbol)
    ensures AssetOfName(Name(a)) == Some(a)
    ensures Name(a) == Name(b) ==> a == b
  {
  }

  /** No ticker contains `'-'` or `'U'` (hence neither the substring `"USDT"`), which the
      exchange decoders rely on. */
  lemma NamesAvoidSeparators(a: AssetSymbol)
    ensures '-' !in Name(a) && 'U' !in Name(a)
    ensures !Contains(Name(a), "USDT")
  {
    var n := Name(a);
    forall i: nat | i <= |n| ensures !OccursAt(n, "USDT", i) {
      if i + 4 <= |n| {
        assert n[i..i + 4][0] == n[i] != 'U';
      }
    }
  }

  /** Card colours of `ASSET_INFO`. */
  datatype Color = Blue | Emerald | Amber | Purple | Orange | Rose | Indigo

  datatype AssetMetadata = AssetMetadata(fullName: string, category: string, color: Color)

  /** `ASSET_INFO`: total over `AssetSymbol` by construction. */
  function AssetInfo(a: AssetSymbol): AssetMetadata {
    match a
    case BTC => AssetMetadata("Bitcoin", "Layer 1", Orange)
    case ETH => AssetMetadata("Ethereum", "Smart Contract", Indigo)
    case SOL => AssetMetadata("Solana", "High-Perf L1", Purple)
    case BNB => AssetMetadata("BNB Chain", "Ecosystem", Amber)
    case XRP => AssetMetadata("Ripple", "Payment", Blue)
    case DOGE => AssetMetadata("Dogecoin", "Meme", Orange)
    case LINK => AssetMetadata("Chainlink", "Oracle", Blue)
  }

  /** A display currency; `caption` is the source's `label` (a Dafny keyword), and a
      missing `isStablecoin` is `false`. */
  datatype Currency = Currency(code: string, symbol: string, caption: string, isStablecoin: bool)

  /** `SUPPORTED_CURRENCIES`; the first entry is the default selection. */
  const SupportedCurrencies: seq<Currency> := [
    Currency("USDT", "₮", "Tether (穩定幣)", true),
    Currency("USDC", "₵", "USD Coin (穩定幣)", true),
    Currency("BTC", "₿", "Bitcoin (比特幣)", false),
    Currency("ETH", "Ξ", "Ethereum (乙太幣)", false),
    Currency("SOL", "S", "Solana", false),
    Currency("BNB", "B", "BNB", false)
  ]

  lemma SupportedCurrenciesShape()
    ensures |SupportedCurrencies| == 6
    ensures SupportedCurrencies[0].code == "USDT" && SupportedCurrencies[0].isStablecoin
    ensures forall i, j :: 0 <= i < j < |SupportedCurrencies| ==>
      SupportedCurrencies[i].code != SupportedCurrencies[j].code
    ensures forall c :: c in SupportedCurrencies ==> (c.isStablecoin <==> c.code in {"USDT", "USDC"})
    ensures forall c :: c in SupportedCurrencies && !c.isStablecoin ==> AssetOfName(c.code).Some?
  {
  }

  /** One observation. `symbol` is the string the decoder produced: the TypeScript type says
      `AssetSymbol`, but two of the three decoders cast it without checking. */
  datatype PriceData = PriceData(exchange: ExchangeName, symbol: string, price: real, timestamp: int)

  /** `Partial<Record<ExchangeName, PriceData>>` for one asset, as its values in key insertion
      order (the order `Object.values` / `Object.entries` yield them). */
  type ExchangePrices = seq<PriceData>

  /** At most one record per exchange. */
  predicate DistinctExchanges(entries: ExchangePrices) {
    forall i, j :: 0 <= i < j < |entries| ==> entries[i].exchange != entries[j].exchange
  }

  /** `AggregatedState`, keyed by the runtime symbol string. */
  type AggregatedState = map<string, ExchangePrices>

  /** The shape `AggregatedState` promises: every asset has an entry, and every entry keeps at
      most one record per exchange, each filed under its own symbol. */
  predicate WellFormed(prices: AggregatedState) {
    && (forall a: AssetSymbol :: Name(a) in prices)
    && (forall s :: s in prices ==> DistinctExchanges(prices[s]))
    && (forall s, i :: s in prices && 0 <= i < |prices[s]| ==> prices[s][i].symbol == s)
  }

  datatype Sentiment = Bullish | Bearish | Neutral

  datatype AIAnalysis = AIAnalysis(summary: string, sentiment: Sentiment, keyInsights: seq<string>)

  datatype NewsItem = NewsItem(title: string, url: string, source: string, time: string)
}
