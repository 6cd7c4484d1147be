# CryptoRadar core, modelled in Dafny

CryptoRadar is a browser dashboard. It takes live ticker prices from three exchanges (Binance,
Coinbase, OKX) for seven assets. It merges them into one table with one record per asset and
exchange, and averages each asset's positive prices. It converts everything into a chosen
display currency and lists each exchange's deviation from the average. It also asks a Gemini
model for a market analysis and news, with retries, a local cache and fallbacks.

This project models that logic and proves what it promises:

- `Types` (`types.ts`): the fixed enumerations, asset metadata, supported currencies, price
  records and the aggregated table with its shape invariant `WellFormed`.
- `Exchange` (`services/exchangeService.ts`): wire symbols, the Binance stream URL, the
  Coinbase/OKX subscribe payloads, and the decoding of already-parsed messages into records.
- `Adapters` (the `setup…WS` functions): one `Connection` object per exchange. It forwards its
  open event and decoded records to the dashboard and logs what it sends.
- `Aggregation` and `Dashboard` (`App.tsx` without its JSX): the record upsert, the initial
  table, per-asset means, the conversion rate and display averages (filled by loops as the
  source does), the watchlist and its persistence, and the connection flags, all held in the
  class `Dashboard.App`.
- `MarketTable` (`components/MarketTable.tsx`): the watchlist filter, which assets and
  exchanges give rows, and each row's `diff` / `diffPercent`.
- `Retry`, `Cache`, `Insight` (`services/geminiService.ts`): the bounded exponential-backoff
  retry loop, the time-boxed `localStorage` cache, the analysis and news pipelines, and
  `calculateAvg`.
- `CurrencySelector` (`components/CurrencySelector.tsx`): the case-insensitive currency
  search and the drop-down's open/search state.
- `Text` and `Wrappers`: the JavaScript string operations the source relies on (`toLowerCase`
  on ASCII, `includes`, `indexOf`, `replace` with a string pattern, `split(c)[0]`, `join`) and
  an `Option` type.

Prices are Dafny `real`s. Clocks (`Date.now()`) are parameters. The Gemini call is an oracle
`call: nat -> Attempt<T>` giving the outcome of attempt `i`. `localStorage` is a `map`. Backoff
waits are recorded as a list of delays.

`ASSET_INFO` (`types.ts:24-32`) is `Types.AssetInfo`, a `match` over the seven assets. Dafny
rejects a `match` that misses a case, so every asset has its metadata by construction and
no lemma is needed for that.

## Model

| member | source | states |
|---|---|---|
| Types.ExchangesEnumerated | types.ts:2-6 | exactly three exchanges, listed once each, with distinct labels |
| Types.AssetsEnumerated | types.ts:8-16 | exactly seven assets, every asset listed once, in declaration order |
| Types.AssetNames | types.ts:8-16 | the set of ticker strings is exactly the names of the seven assets |
| Types.AssetOfName | services/exchangeService.ts:16 | a string is recognised exactly when it is some asset's ticker, and maps back to that asset |
| Types.AssetNameRoundTrip | types.ts:8-16 | tickers are injective and every ticker is recognised as its own asset |
| Types.NamesAvoidSeparators | types.ts:8-16 | no ticker contains `-`, `U` or the substring `USDT` |
| Types.SupportedCurrenciesShape | types.ts:41-48 | six currencies with distinct codes; the first (the default) is USDT and a stablecoin; exactly USDT and USDC are stablecoins; every other code is an asset ticker |
| Text.LowerConcat | components/CurrencySelector.tsx:17-20 | lower-casing distributes over concatenation |
| Text.LowerIdempotent | components/CurrencySelector.tsx:17-20 | lower-casing twice equals lower-casing once |
| Text.ContainsPrefix | components/CurrencySelector.tsx:19-20 | a string that includes `t + u` includes `t` |
| Text.IndexOf | services/exchangeService.ts:15 | finds a position exactly when the pattern occurs, and it is the first occurrence |
| Text.ReplaceFirst | services/exchangeService.ts:15 | without an occurrence the string is unchanged; otherwise the first occurrence, and only it, is replaced: the result is the text before it, the replacement, then the text after it |
| Text.ReplaceFirstStripsSuffix | services/exchangeService.ts:15 | removing the first `t` from `s + t` gives `s` when `s` holds no first character of `t` |
| Text.BeforeFirst | services/exchangeService.ts:41 | the result is a prefix free of the separator, ending at the first separator if there is one |
| Text.BeforeFirstOfJoined | services/exchangeService.ts:41 | splitting `a + c + b` at the first `c` gives `a` when `a` has no `c` |
| Text.Join | services/exchangeService.ts:9 | a one-part join is that part |
| Text.Split | services/exchangeService.ts:41 | splitting gives at least one piece, the first is the text before the first separator, and no piece holds the separator |
| Text.SplitJoin | services/exchangeService.ts:9 | splitting a join at its one-character separator gives back the parts when no part holds the separator |
| Text.SplitOfJoined | services/exchangeService.ts:41 | splitting `a + c + b` gives `a` followed by the pieces of `b` when `a` has no `c` |
| Text.JoinChars | services/exchangeService.ts:9 | every character of a joined string comes from a part or the separator |
| Exchange.BinanceSymbolSeparatorFree | services/exchangeService.ts:5 | no Binance stream name contains `@` or `/` |
| Exchange.BinanceStreamPathShape | services/exchangeService.ts:5-10 | the path is the seven lower-cased tickers followed by `usdt`, in asset order, joined by `/`, with a single `@ticker` at the end; splitting the joined part at `/` gives back the seven names |
| Exchange.Decode | services/exchangeService.ts:13-24 | every record carries its adapter's own exchange and the time it was decoded |
| Exchange.DecodeBinanceFilters | services/exchangeService.ts:15-23 | a Binance record is produced exactly when the symbol, with its first `USDT` removed, is a tracked ticker |
| Exchange.DecodeBinanceRoundTrip | services/exchangeService.ts:15-22 | the pair symbol `<TICKER>USDT` decodes to that asset |
| Exchange.DecodeCoinbaseTickerOnly | services/exchangeService.ts:38-48 | non-ticker messages are ignored; every ticker gives exactly one record, with no tracked-symbol check |
| Exchange.DecodeOkxFirstOnly | services/exchangeService.ts:61-72 | a missing or empty `data` is ignored; otherwise one record, from `data[0]` only |
| Exchange.DecodeStandardRoundTrip | services/exchangeService.ts:6 | the part of `<TICKER>-USDT` before the first `-` is the ticker, for both Coinbase and OKX |
| Exchange.SubscriptionsCoverAllAssets | services/exchangeService.ts:32-36 | Binance sends nothing; Coinbase and OKX send one subscription listing every asset in order |
| Adapters.SentEvents | services/exchangeService.ts:32 | one send event per payload, in order |
| Adapters.OpenEventsOrder | services/exchangeService.ts:30-37 | `onOpen` is called first, then the exchange's single subscription (none for Binance) |
| Adapters.Connection.Setup | services/exchangeService.ts:8-10 | a new adapter is bound to its exchange and dashboard, so its socket address is that exchange's URL, and it has done nothing yet |
| Adapters.Connection.OnOpen | services/exchangeService.ts:54-60 | an open raises only this exchange's flag, then logs the notification and the subscription |
| Adapters.Connection.OnMessage | services/exchangeService.ts:61-72 | a decoded record is merged into the table by `updatePrice`; an ignored message changes nothing |
| Adapters.Connection.Close | services/exchangeService.ts:73 | the teardown closes the socket and logs nothing |
| Adapters.StartFeeds | App.tsx:59-71 | one fresh adapter per exchange, in order, all reporting to the same dashboard |
| Adapters.StopFeeds | App.tsx:73-77 | the cleanup closes every adapter |
| Aggregation.Lookup | App.tsx:41 | finds an exchange's record exactly when the entry holds one for it |
| Aggregation.UpsertLookup | App.tsx:40-43 | after the merge the entry holds the new record for its exchange and the old one for every other exchange |
| Aggregation.UpsertInPlace | App.tsx:40-43 | an existing exchange's record is replaced in place and a new one is appended, keeping one record per exchange |
| Aggregation.UpsertKeepsDistinct | App.tsx:40-43 | an upsert keeps one record per exchange |
| Aggregation.UpsertReplaces | App.tsx:40-43 | with a record for the exchange already present, the upsert keeps the length and swaps in `d` at that position only |
| Aggregation.UpsertAppends | App.tsx:40-43 | with no record for the exchange, the upsert appends `d` |
| Aggregation.UpsertIdempotent | App.tsx:40-43 | merging the same record twice equals merging it once |
| Aggregation.ExchangesOfDistinct | types.ts:58 | one record per exchange means as many exchanges as records |
| Aggregation.AtMostOnePerExchange | types.ts:58 | an asset's entry holds at most three records |
| Aggregation.InitialPrices | App.tsx:13-19 | the initial table has an empty entry for every asset and no other key, and is well formed |
| Aggregation.UpdatePricesEffect | App.tsx:37-45 | `updatePrice` sets the record at (symbol, exchange), keeps every other symbol and exchange, and removes no key |
| Aggregation.UpdatePricesIdempotent | App.tsx:37-45 | applying the same record twice equals applying it once |
| Aggregation.UpdatePricesWellFormed | App.tsx:37-45 | `updatePrice` keeps every asset present, one record per exchange, each under its own symbol |
| Aggregation.PositivePrices | App.tsx:84-86 | keeps only strictly positive prices, never more values than records |
| Aggregation.PositivePricesMembers | App.tsx:84-86 | a value is kept exactly when some record carries it and it is positive |
| Aggregation.SumBounds | App.tsx:87 | a sum of `n` values lies between `n` times their bounds |
| Aggregation.MeanBetween | App.tsx:87 | a non-empty mean lies between its values' bounds |
| Aggregation.AssetMeanRange | App.tsx:84-87 | an average is 0 with no positive price; otherwise positive and between the least and greatest positive price |
| Aggregation.ConversionRate | App.tsx:92-96 | the rate is never negative |
| Aggregation.ConversionRateCases | App.tsx:92-96 | 1 for a stablecoin; the reciprocal of the basis asset's positive average, so one basis unit is worth its average; else 0 |
| Aggregation.DisplayAverageCases | App.tsx:98-104 | a zero rate shows 0; a stablecoin shows the USDT average; the basis asset shows 1 when its average is positive |
| Dashboard.WatchlistRoundTrip | App.tsx:21-28 | a persisted watchlist loads back unchanged; nothing saved loads as empty |
| Dashboard.Without | App.tsx:54 | the filter removes every occurrence of the symbol and keeps every other member |
| Dashboard.WithoutConcat | App.tsx:54 | the filter distributes over concatenation, so the kept symbols stay in their order with their repetitions |
| Dashboard.ToggledMembership | App.tsx:51-57 | toggling flips the membership of the toggled symbol only |
| Dashboard.WithoutKeepsNoDuplicates | App.tsx:54 | removing a symbol keeps a list duplicate-free |
| Dashboard.ToggledKeepsNoDuplicates | App.tsx:51-57 | toggling keeps a duplicate-free watchlist duplicate-free |
| Dashboard.WithoutAbsent | App.tsx:54 | removing an absent symbol changes nothing |
| Dashboard.WithoutAppend | App.tsx:54-55 | appending then removing an absent symbol restores the list |
| Dashboard.ToggleTwice | App.tsx:51-57 | toggling an absent symbol twice restores the list; a present one moves to the end |
| Dashboard.OtherAveragesUnchanged | App.tsx:37-90 | a record changes no other asset's average |
| Dashboard.UntrackedRecordKeepsAverages | App.tsx:37-90 | a record for an untracked symbol changes no average |
| Dashboard.RepeatedRecordKeepsAverages | App.tsx:37-90 | repeating a record changes no average, so nothing is counted twice |
| Dashboard.DisplayAverages | App.tsx:98-104 | the loop fills every asset's display average as base average times rate |
| Dashboard.InitialTable | App.tsx:13-19 | the loop builds exactly the initial table |
| Dashboard.App.constructor | App.tsx:13-35 | the initial table, the saved watchlist, USDT selected, every exchange disconnected, and the state invariant |
| Dashboard.App.UpdatePrice | App.tsx:37-45 | the table becomes the merge of the old one with the record; nothing else changes and the invariant holds |
| Dashboard.App.ToggleWatchlist | App.tsx:47-57 | the watchlist is toggled and persisted under its key; nothing else changes |
| Dashboard.App.MarkConnected | App.tsx:60-71 | only the given exchange's flag is raised and no flag is ever reset |
| Dashboard.App.SelectCurrency | App.tsx:30 | the selected currency changes and nothing else |
| Dashboard.App.BaseAverages | App.tsx:80-90 | the loop computes every asset's mean positive price |
| Dashboard.App.Averages | App.tsx:92-104 | the rate for the selected currency and every asset's display average at that rate |
| MarketTable.Rank | components/MarketTable.tsx:16 | an asset's position in the asset list |
| MarketTable.KeepWatched | components/MarketTable.tsx:19 | keeps exactly the listed assets that are watched |
| MarketTable.KeepWatchedInOrder | components/MarketTable.tsx:19 | filtering keeps the asset order |
| MarketTable.FilteredAssetsExact | components/MarketTable.tsx:16-20 | filter off lists every asset; filter on lists exactly the watched assets, in asset order |
| MarketTable.PlaceholderExactlyWhenNothingWatched | components/MarketTable.tsx:107-113 | the placeholder appears exactly when the filter is on and nothing is watched |
| MarketTable.RowsOf | components/MarketTable.tsx:61-67 | one row per present record, in order |
| MarketTable.RowsOfAssets | components/MarketTable.tsx:49-106 | every row belongs to a listed asset |
| MarketTable.RowsOfAssetsConcat | components/MarketTable.tsx:49-106 | the body lists asset after asset: the rows of `a + b` are the rows of `a` followed by the rows of `b` |
| MarketTable.RowsOfAssetsComplete | components/MarketTable.tsx:49-106 | every record of a listed asset that has a positive price appears in the body as its row |
| MarketTable.AssetRowsCoverRecords | components/MarketTable.tsx:51-65 | no positive price gives no rows; otherwise every present record, positive or not, gives a row with its exchange and converted price |
| MarketTable.AvgConvertedIsDisplayAverage | components/MarketTable.tsx:57-58 | at every rate, the table's converted average equals the dashboard's display average |
| MarketTable.RowDeviation | components/MarketTable.tsx:65-67 | `diff` is converted price minus average; `diffPercent` is `diff` over the average times 100, or 0 for a zero average |
| MarketTable.ZeroRateFlattensRows | components/MarketTable.tsx:58-67 | a zero rate gives `diff` 0 and `diffPercent` 0 on every row |
| MarketTable.Diffs | components/MarketTable.tsx:66 | one deviation per row |
| MarketTable.Prices | components/MarketTable.tsx:51-52 | one price per record, in record order: the i-th value is the i-th record's price |
| MarketTable.SumOfDiffs | components/MarketTable.tsx:65-66 | the deviations sum to the rate times the price total minus the count times the average |
| MarketTable.AllPositivePrices | components/MarketTable.tsx:51-53 | with only positive prices the filter keeps them all |
| MarketTable.DiffsSumToZero | components/MarketTable.tsx:57-66 | when every present price is positive the deviations sum to 0 |
| MarketTable.TableView.constructor | components/MarketTable.tsx:15 | the filter starts off |
| MarketTable.TableView.ToggleFilter | components/MarketTable.tsx:26 | the button flips the filter |
| MarketTable.TableView.Render | components/MarketTable.tsx:18-113 | the rendered rows, and the placeholder exactly when the filter is on and nothing is watched |
| Retry.Pow2 | services/geminiService.ts:30 | powers of two are at least 1 |
| Retry.WithRetry | services/geminiService.ts:20-39 | the loop's outcome, delays and call count are those of the recursive definition |
| Retry.RunFromFacts | services/geminiService.ts:22-36 | from attempt `i`: at most the limit of calls, quota errors before the last, delays `initialDelay * 2^k`, the last attempt's value or error |
| Retry.RetryContract | services/geminiService.ts:20-39 | at most `maxRetries` calls; the first success is returned; earlier attempts were quota errors; a non-quota error is rethrown at once; a quota error only on the last attempt; none allowed throws `undefined` |
| Retry.DelaysDouble | services/geminiService.ts:29-33 | each backoff is twice the one before |
| Retry.QuotaTwiceThenSuccess | services/geminiService.ts:20-39 | two quota errors then a success return that success after waits of 2000 and 4000 ms |
| Cache.ReadHit | services/geminiService.ts:44-57 | a read hits exactly when the entry exists, parses, has a timestamp and is strictly younger than the expiry |
| Cache.AfterReadEffect | services/geminiService.ts:53-55 | a read removes only its own key, and only when the entry does not parse |
| Cache.WriteThenRead | services/geminiService.ts:62-67 | data written at `t` reads back before `t + ms` and not after; always with infinite expiry |
| Cache.ExpiryBoundary | services/geminiService.ts:50 | written at `T`: a hit at `T + E - 1`, a miss at `T + E` and at `T + E + 1` |
| Cache.ForeverIsWeakest | services/geminiService.ts:116 | a fresh hit is also a hit with infinite expiry |
| Cache.Storage.constructor | services/geminiService.ts:45 | storage starts with the given entries |
| Cache.Storage.GetCachedData | services/geminiService.ts:44-57 | returns the read's result and evicts an entry that does not parse |
| Cache.Storage.SetCacheData | services/geminiService.ts:62-67 | stores the data stamped with the current time, readable at once |
| Insight.GetMarketAnalysis | services/geminiService.ts:69-123 | the storage steps produce what the analysis pipeline defines |
| Insight.FetchLatestNews | services/geminiService.ts:125-174 | the storage steps produce what the news pipeline defines |
| Insight.AnalysisFreshHit | services/geminiService.ts:71-72 | a fresh cached analysis is returned with no call and storage unchanged |
| Insight.AnalysisMiss | services/geminiService.ts:87-122 | on a miss: one to three calls; a success is returned and cached for ten minutes; a failure returns the stored analysis whatever its age, else the fixed Neutral fallback |
| Insight.AnalysisExpiryBoundary | services/geminiService.ts:12-72 | cached at `T`: served without a call at `T + E - 1`, calls the model at `T + E + 1` |
| Insight.NewsFreshHit | services/geminiService.ts:127-128 | a fresh cached list is returned with no call |
| Insight.NewsMiss | services/geminiService.ts:138-173 | on a miss: one to three calls; a non-empty success is cached for twenty minutes; an empty one is returned uncached; a failure returns the stored list or `[]` |
| Insight.TallyCountsPositive | services/geminiService.ts:177-178 | the running tally adds up exactly the positive prices and counts them |
| Insight.CalculateAvgIsAssetMean | services/geminiService.ts:176-179 | `calculateAvg` equals the dashboard's mean of positive prices, 0 when there are none |
| CurrencySelector.FilterCurrencies | components/CurrencySelector.tsx:16-22 | the result is never longer than the list |
| CurrencySelector.FilterMembership | components/CurrencySelector.tsx:17-21 | a currency is listed exactly when its lower-cased code or label includes the lower-cased term |
| CurrencySelector.FilterIsSubsequence | components/CurrencySelector.tsx:18 | the result keeps the list's order |
| CurrencySelector.EmptySearchListsAll | components/CurrencySelector.tsx:17-21 | an empty search lists every currency in order |
| CurrencySelector.SearchIgnoresCase | components/CurrencySelector.tsx:17-20 | terms equal after lower-casing give the same list |
| CurrencySelector.MatchesPrefix | components/CurrencySelector.tsx:19-20 | a match for a longer term is a match for its prefix |
| CurrencySelector.TypingNarrows | components/CurrencySelector.tsx:18-21 | appending characters can only shrink the list, keeping order |
| CurrencySelector.NothingFoundExactly | components/CurrencySelector.tsx:79-117 | the "nothing found" message shows exactly when no currency matches |
| CurrencySelector.Selector.constructor | components/CurrencySelector.tsx:12-13 | the picker starts closed with an empty search |
| CurrencySelector.Selector.Shown | components/CurrencySelector.tsx:16-22 | the shown list keeps the supported order and holds exactly the matching currencies |
| CurrencySelector.Selector.Toggle | components/CurrencySelector.tsx:47 | the button flips the open state and keeps the search |
| CurrencySelector.Selector.Dismiss | components/CurrencySelector.tsx:25-32 | Escape or a click outside closes the picker and keeps the search |
| CurrencySelector.Selector.SetSearch | components/CurrencySelector.tsx:69 | typing sets the search and the shown list follows it |
| CurrencySelector.Selector.ClearSearch | components/CurrencySelector.tsx:72 | clearing shows every currency again |
| CurrencySelector.Selector.Choose | components/CurrencySelector.tsx:86-90 | the chosen currency is handed on, the picker closes and the search is cleared |

## Left out

- WebSockets: creating sockets, attaching handlers, `ws.send` and `ws.close` are not modelled. Socket events arrive as method calls on `Adapters.Connection`, and sends are recorded in its log.
- A closed socket delivers no more events, so `OnOpen` and `OnMessage` on a closed adapter do nothing.
- JSON parsing: messages arrive already parsed, as `Exchange.Message` values. A malformed message makes the source throw inside the handler; that throw is not modelled.
- `msg.s.replace` on a missing `s` also throws; that is not modelled.
- `parseFloat`: prices arrive as reals. `NaN` does not exist, so `p?.price || 0` reduces to "keep positive prices".
- Floating point: all arithmetic is on `real`. "The basis asset shows 1" and "deviations sum to 0" hold over reals, not IEEE doubles.
- `Exchange.Decode`: Coinbase and OKX cast the split product id to an asset without checking it. So a record's symbol is a `string`, and an untracked symbol adds a new key to the table (`Aggregation.UpdatePricesEffect`).
- `Text.Lower`: lower-cases ASCII letters only. JavaScript lower-cases all of Unicode. Every code and label in the list is ASCII or CJK, and CJK has no case, so lower-casing them agrees. A search term is another matter: JavaScript maps the Kelvin sign U+212A to `k` and `İ` (U+0130) to the two characters `i̇`, which this model leaves unchanged. No code or label contains `k` or `i̇`, so such a term matches nothing either way and the listed currencies are the same. The length clause `|r| == |s|` does not hold in JavaScript for `İ`.
- `Dashboard.LoadWatchlist`: the saved watchlist is taken as a list of assets. The source casts `JSON.parse` output without validating it, so a list of other values is not modelled.
- `Cache.Entry`: an envelope whose `data` is missing is not modelled. The empty stored string, which the source reads as absent, is not modelled either.
- The analysis and news caches live in one `localStorage` in the source, together with the saved watchlist. Here they are two `Cache.Storage` objects because their payload types differ, and the watchlist's entry is a third map, `Dashboard.App.storage`. The three keys are distinct, so no part of the program sees another's entry.
- The Gemini SDK call, the prompt text (including the BTC/ETH averages quoted in it) and the response schema are not modelled. Each attempt's outcome comes from the oracle `call`. A response that fails `JSON.parse` is just another thrown error, and the sentiment is not checked after parsing.
- Retry.ApiError: an error's `message` is either absent or a string. A thrown value whose `message` is some other type, such as a number, makes `error?.message?.includes` itself throw a `TypeError` inside the catch block (services/geminiService.ts:27). That `TypeError` replaces the original error and skips the retry, and it is not modelled. Errors from the SDK carry string messages.
- Timers and `await`: backoff waits are returned as a list of delays rather than slept. The clock is `now` at the first cache read and `finishedAt` when the call settles.
- `console.warn` and `console.error` logging is not modelled.
- `components/NewsFeed.tsx`, `components/TrendAnalysis.tsx` and `components/PriceCard.tsx` are not part of this model. They are presentation components with their own timers and loading guards.
- JSX, CSS classes, icons, the registration of the click-outside and keyboard listeners, and `toLocaleString`/`toFixed` formatting are not modelled.
