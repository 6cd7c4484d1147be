/** The Gemini service's two cached pipelines, `getMarketAnalysis` and `fetchLatestNews`:
    read the cache, otherwise call the model through `withRetry`, cache what it returns, and on
    failure fall back to a stale entry or a fixed default. The model call is an oracle giving
    each attempt's outcome; `now` is the clock at the first cache read and `finishedAt` the
    clock when the call settles. */
module Insight {
  import opened Wrappers
  import opened Types
  import opened Aggregation
  import opened Retry
  import opened Cache

  const AnalysisKey: string := "cryptoradar_analysis_cache"
  const NewsKey: string := "cryptoradar_news_cache"
  /** Ten minutes, in milliseconds. */
  const AnalysisExpiry: int := 10 * 60 * 1000
  /** Twenty minutes, in milliseconds. */
  const NewsExpiry: int := 20 * 60 * 1000

  /** The analysis shown when the model fails and nothing was ever cached. */
  const FallbackAnalysis: AIAnalysis := AIAnalysis(
    "目前 API 配額已達上限或連線不穩定，請稍後再試。",
    Neutral,
    ["配額暫時耗盡 (429)", "市場數據仍在即時更新", "建議 10 分鐘後手動重新分析"])

  /** What one pipeline run produces: the value returned, the storage afterwards, and the
      model calls and backoff delays it spent. */
  datatype Report<T> = Report(value: T, items: map<string, Entry<T>>, calls: nat, delays: seq<int>)

  /** `getMarketAnalysis`. */
  function AnalysisSpec(items: map<string, Entry<AIAnalysis>>, call: nat -> Attempt<AIAnalysis>,
                        now: int, finishedAt: int): Report<AIAnalysis>
  {
    var cached := Read(items, AnalysisKey, Within(AnalysisExpiry), now);
    var afterFirst := AfterRead(items, AnalysisKey);
    if cached.Some? then Report(cached.value, afterFirst, 0, [])
    else
      var run := RetrySpec(call, DefaultMaxRetries, DefaultInitialDelay);
      match run.outcome
      case Returned(v) =>
        Report(v, Write(afterFirst, AnalysisKey, v, finishedAt), run.calls, run.delays)
      case Raised(_) =>
        var stale := Read(afterFirst, AnalysisKey, Forever, finishedAt);
        Report(stale.GetOr(FallbackAnalysis), AfterRead(afterFirst, AnalysisKey), run.calls, run.delays)
  }

  /** `fetchLatestNews`: like the analysis, except that an empty list is returned without
      being cached and the fallback is the empty list. */
  function NewsSpec(items: map<string, Entry<seq<NewsItem>>>, call: nat -> Attempt<seq<NewsItem>>,
                    now: int, finishedAt: int): Report<seq<NewsItem>>
  {
    var cached := Read(items, NewsKey, Within(NewsExpiry), now);
    var afterFirst := AfterRead(items, NewsKey);
    if cached.Some? then Report(cached.value, afterFirst, 0, [])
    else
      var run := RetrySpec(call, DefaultMaxRetries, DefaultInitialDelay);
      match run.outcome
      case Returned(v) =>
        var stored := if |v| > 0 then Write(afterFirst, NewsKey, v, finishedAt) else afterFirst;
        Report(v, stored, run.calls, run.delays)
      case Raised(_) =>
        var stale := Read(afterFirst, NewsKey, Forever, finishedAt);
        Report(stale.GetOr([]), AfterRead(afterFirst, NewsKey), run.calls, run.delays)
  }

  /** `getMarketAnalysis`, step by step over the storage. */
  method GetMarketAnalysis(store: Storage<AIAnalysis>, call: nat -> Attempt<AIAnalysis>, now: int, finishedAt: int)
    returns (analysis: AIAnalysis, calls: nat, delays: seq<int>)
    modifies store
    ensures Report(analysis, store.items, calls, delays) == AnalysisSpec(old(store.items), call, now, finishedAt)
  {
    var cached := store.GetCachedData(AnalysisKey, Within(AnalysisExpiry), now);
    if cached.Some? {
      return cached.value, 0, [];
    }
    var outcome;
    outcome, delays, calls := WithRetry(call, DefaultMaxRetries, DefaultInitialDelay);
    match outcome
    case Returned(v) =>
      store.SetCacheData(AnalysisKey, v, finishedAt);
      analysis := v;
    case Raised(_) =>
      var stale := store.GetCachedData(AnalysisKey, Forever, finishedAt);
      analysis := stale.GetOr(FallbackAnalysis);
  }

  /** `fetchLatestNews`, step by step over the storage. */
  method FetchLatestNews(store: Storage<seq<NewsItem>>, call: nat -> Attempt<seq<NewsItem>>, now: int, finishedAt: int)
    returns (news: seq<NewsItem>, calls: nat, delays: seq<int>)
    modifies store
    ensures Report(news, store.items, calls, delays) == NewsSpec(old(store.items), call, now, finishedAt)
  {
    var cached := store.GetCachedData(NewsKey, Within(NewsExpiry), now);
    if cached.Some? {
      return cached.value, 0, [];
    }
    var outcome;
    outcome, delays, calls := WithRetry(call, DefaultMaxRetries, DefaultInitialDelay);
    match outcome
    case Returned(v) =>
      if |v| > 0 {
        store.SetCacheData(NewsKey, v, finishedAt);
      }
      news := v;
    case Raised(_) =>
      var stale := store.GetCachedData(NewsKey, Forever, finishedAt);
      news := stale.GetOr([]);
  }

  /** A fresh cached analysis is returned as is: no model call, no backoff, storage unchanged. */
  lemma AnalysisFreshHit(items: map<string, Entry<AIAnalysis>>, call: nat -> Attempt<AIAnalysis>,
                         now: int, finishedAt: int, x: AIAnalysis)
    requires Read(items, AnalysisKey, Within(AnalysisExpiry), now) == Some(x)
    ensures AnalysisSpec(items, call, now, finishedAt) == Report(x, items, 0, [])
  {
  }

  /** On a miss the model is called at least once and at most three times; a successful
      result is returned and cached, and read back by any request in the next ten minutes.
      A failure returns the stored analysis however old it is, or the fixed fallback when
      there is none. */
  lemma AnalysisMiss(items: map<string, Entry<AIAnalysis>>, call: nat -> Attempt<AIAnalysis>,
                     now: int, finishedAt: int, later: int)
    requires Read(items, AnalysisKey, Within(AnalysisExpiry), now).None?
    ensures var r := AnalysisSpec(items, call, now, finishedAt);
      var run := RetrySpec(call, DefaultMaxRetries, DefaultInitialDelay);
      && 1 <= r.calls <= DefaultMaxRetries
      && (run.outcome.Returned? ==>
            r.value == run.outcome.value &&
            r.items[AnalysisKey] == Envelope(run.outcome.value, Some(finishedAt)) &&
            (later < finishedAt + AnalysisExpiry ==>
               Read(r.items, AnalysisKey, Within(AnalysisExpiry), later) == Some(r.value)))
      && (run.outcome.Raised? ==>
            r.value == (if AnalysisKey in items && items[AnalysisKey].Envelope? && items[AnalysisKey].timestamp.Some?
                        then items[AnalysisKey].data else FallbackAnalysis))
  {
    RetryContract(call, DefaultMaxRetries, DefaultInitialDelay);
  }

  /** Written at `T`: a request at `T + E - 1` is served from the cache without a call, one at
      `T + E + 1` calls the model. */
  lemma AnalysisExpiryBoundary(items: map<string, Entry<AIAnalysis>>, call: nat -> Attempt<AIAnalysis>,
                               x: AIAnalysis, t: int, finishedAt: int)
    ensures var stored := Write(items, AnalysisKey, x, t);
      && AnalysisSpec(stored, call, t + AnalysisExpiry - 1, finishedAt) == Report(x, stored, 0, [])
      && AnalysisSpec(stored, call, t + AnalysisExpiry + 1, finishedAt).calls >= 1
  {
    var stored := Write(items, AnalysisKey, x, t);
    ExpiryBoundary(items, AnalysisKey, x, t, AnalysisExpiry);
    AnalysisMiss(stored, call, t + AnalysisExpiry + 1, finishedAt, finishedAt);
  }

  /** A fresh cached list is returned as is, without a call. */
  lemma NewsFreshHit(items: map<string, Entry<seq<NewsItem>>>, call: nat -> Attempt<seq<NewsItem>>,
                     now: int, finishedAt: int, x: seq<NewsItem>)
    requires Read(items, NewsKey, Within(NewsExpiry), now) == Some(x)
    ensures NewsSpec(items, call, now, finishedAt) == Report(x, items, 0, [])
  {
  }

  /** On a miss the model is called one to three times; a non-empty result is returned and
      cached for twenty minutes, an empty one returned and not cached, and a failure returns
      the stored list however old it is, or the empty list. */
  lemma NewsMiss(items: map<string, Entry<seq<NewsItem>>>, call: nat -> Attempt<seq<NewsItem>>,
                 now: int, finishedAt: int, later: int)
    requires Read(items, NewsKey, Within(NewsExpiry), now).None?
    ensures var r := NewsSpec(items, call, now, finishedAt);
      var run := RetrySpec(call, DefaultMaxRetries, DefaultInitialDelay);
      && 1 <= r.calls <= DefaultMaxRetries
      && (run.outcome.Returned? ==> r.value == run.outcome.value)
      && (run.outcome.Returned? && |r.value| > 0 && later < finishedAt + NewsExpiry ==>
            Read(r.items, NewsKey, Within(NewsExpiry), later) == Some(r.value))
      && (run.outcome.Returned? && r.value == [] ==> r.items == AfterRead(items, NewsKey))
      && (run.outcome.Raised? ==>
            r.value == (if NewsKey in items && items[NewsKey].Envelope? && items[NewsKey].timestamp.Some?
                        then items[NewsKey].data else []))
  {
    RetryContract(call, DefaultMaxRetries, DefaultInitialDelay);
  }

  /** `calculateAvg`'s running sum and count of the strictly positive prices. */
  function Tally(entries: ExchangePrices, sum: real, count: nat): (real, nat) {
    if entries == [] then (sum, count)
    else if entries[0].price > 0.0 then Tally(entries[1..], sum + entries[0].price, count + 1)
    else Tally(entries[1..], sum, count)
  }

  /** `calculateAvg`: the positive prices' total divided by their number, 0 when none. */
  function CalculateAvg(entries: ExchangePrices): real {
    var (sum, count) := Tally(entries, 0.0, 0);
    if count == 0 then 0.0 else sum / count as real
  }

  /** The running tally adds up exactly the positive prices. */
  lemma {:induction false} TallyCountsPositive(entries: ExchangePrices, sum: real, count: nat)
    ensures Tally(entries, sum, count) ==
      (sum + Sum(PositivePrices(entries)), count + |PositivePrices(entries)|)
  {
    if entries != [] {
      TallyCountsPositive(entries[1..], if entries[0].price > 0.0 then sum + entries[0].price else sum,
                          if entries[0].price > 0.0 then count + 1 else count);
      var rest := PositivePrices(entries[1..]);
      if entries[0].price > 0.0 {
        assert PositivePrices(entries) == [entries[0].price] + rest;
        assert ([entries[0].price] + rest)[1..] == rest;
      } else {
        assert [] + rest == rest;
        assert PositivePrices(entries) == rest;
      }
    }
  }

  /** The averages quoted to the model agree with the dashboard's per-asset average. */
  lemma CalculateAvgIsAssetMean(entries: ExchangePrices)
    ensures CalculateAvg(entries) == AssetMean(entries)
  {
    TallyCountsPositive(entries, 0.0, 0);
  }
}
