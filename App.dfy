/**
 * The dashboard's state container (App.tsx): the daily snapshot cache
 * with its refresh protocol (`fetchData`) and the choice of what the
 * content panel shows (`renderPage`).
 *
 * Time is abstracted to a `Timestamp`: the local calendar day that
 * `toDateString` prints, and the instant. `fetchData` reads the clock
 * twice: `now` for the freshness check, `resolvedAt` once the five calls
 * have resolved, which stamps the new record. The five provider calls are one
 * oracle, `FetchOutcome`, that yields all five results or a rejection.
 * `localStorage` is a map from keys to what `getItem` would return,
 * already classified by what `JSON.parse` makes of it.
 */
module App {
  import opened Types
  import Sources
  import MarketIntelligence

  datatype Timestamp = Timestamp(day: int, instant: int)

  /** The one `localStorage` key the dashboard uses. */
  const CacheKey := "dlfInsightsCache"

  /** The geography every refresh fetches for, whatever is selected. */
  const DefaultGeography := India

  const FetchFailedMessage := "Failed to fetch intelligence data. The AI model may be overloaded. Please try again later."

  /** The persisted record (`newCache`). */
  datatype Snapshot = Snapshot(
    timestamp: Timestamp,
    geography: Geography,
    marketData: MarketData,
    marketSources: seq<GroundingSource>,
    projectLaunches: seq<ProjectLaunch>,
    competitiveSources: seq<GroundingSource>,
    sharePrices: seq<SharePrice>,
    sharePriceSources: seq<GroundingSource>,
    indiaNews: seq<NewsArticle>,
    indiaNewsSources: seq<GroundingSource>,
    internationalNews: seq<NewsArticle>,
    internationalNewsSources: seq<GroundingSource>)

  /**
   * What `localStorage.getItem` holds under a key: the empty string (as
   * falsy as a missing item), text `JSON.parse` rejects, or a record.
   */
  datatype StoredItem = EmptyText | Malformed | Record(snapshot: Snapshot)

  /** The provider calls, with the geography the first two are given. */
  datatype Request =
    | MarketIntelligenceRequest(geography: Geography)
    | CompetitiveIntelligenceRequest(geography: Geography)
    | SharePricesRequest
    | IndiaNewsRequest
    | InternationalNewsRequest

  /** What each of the five calls resolves to. */
  datatype SectionResults = SectionResults(
    market: MarketData, marketSources: seq<GroundingSource>,
    launches: seq<ProjectLaunch>, competitiveSources: seq<GroundingSource>,
    sharePrices: seq<SharePrice>, sharePriceSources: seq<GroundingSource>,
    indiaNews: seq<NewsArticle>, indiaNewsSources: seq<GroundingSource>,
    internationalNews: seq<NewsArticle>, internationalNewsSources: seq<GroundingSource>)

  /** `Promise.all` over the five calls: every result, or the rejection of any one. */
  datatype FetchOutcome = AllFulfilled(results: SectionResults) | Rejected

  /**
   * The twelve slots `fetchData` always sets together, from one record:
   * the ten data and source slots, the geography and the last update.
   */
  datatype Content = Content(
    geography: Geography,
    marketData: Option<MarketData>,
    marketSources: seq<GroundingSource>,
    projectLaunches: Option<seq<ProjectLaunch>>,
    competitiveSources: seq<GroundingSource>,
    sharePrices: Option<seq<SharePrice>>,
    sharePriceSources: seq<GroundingSource>,
    indiaNews: Option<seq<NewsArticle>>,
    indiaNewsSources: seq<GroundingSource>,
    internationalNews: Option<seq<NewsArticle>>,
    internationalNewsSources: seq<GroundingSource>,
    lastUpdated: Timestamp)

  /** The state slots of the component. */
  datatype AppState = AppState(currentPage: Page, content: Content, loading: bool, error: Option<string>)

  /** How a call of `fetchData` went. */
  datatype RefreshPath =
    | ServedFromCache   // today's record was republished
    | Refreshed         // all five calls succeeded; published and persisted
    | FetchFailed       // a call was rejected; the error is shown
    | PersistFailed     // published, but `setItem` threw; the error is shown
    | Abandoned         // `JSON.parse` threw outside the try: the call rejects

  datatype RefreshResult = RefreshResult(
    state: AppState,
    storage: map<string, StoredItem>,
    requests: seq<Request>,
    path: RefreshPath)

  // ---------------------------------------------------------------------
  // The protocol, as a function of the state before the call
  // ---------------------------------------------------------------------

  /** `cacheDate === todayDate`: the same local calendar day, not a 24-hour window. */
  predicate IsFresh(stamp: Timestamp, now: Timestamp)
  {
    stamp.day == now.day
  }

  /** What `getItem(CacheKey)` returns, a missing item read as the empty text (both are falsy). */
  function Cached(storage: map<string, StoredItem>): StoredItem
  {
    if CacheKey in storage then storage[CacheKey] else EmptyText
  }

  function FiveRequests(): seq<Request>
  {
    [ MarketIntelligenceRequest(DefaultGeography),
      CompetitiveIntelligenceRequest(DefaultGeography),
      SharePricesRequest,
      IndiaNewsRequest,
      InternationalNewsRequest ]
  }

  /** `newCache`: the record built from the five results. */
  function NewSnapshot(stamp: Timestamp, results: SectionResults): Snapshot
  {
    Snapshot(stamp, DefaultGeography,
      results.market, results.marketSources,
      results.launches, results.competitiveSources,
      results.sharePrices, results.sharePriceSources,
      results.indiaNews, results.indiaNewsSources,
      results.internationalNews, results.internationalNewsSources)
  }

  /** The twelve setters run from one record. */
  function ContentOf(snap: Snapshot): Content
  {
    Content(snap.geography,
            Some(snap.marketData), snap.marketSources,
            Some(snap.projectLaunches), snap.competitiveSources,
            Some(snap.sharePrices), snap.sharePriceSources,
            Some(snap.indiaNews), snap.indiaNewsSources,
            Some(snap.internationalNews), snap.internationalNewsSources,
            snap.timestamp)
  }

  function Publish(s: AppState, snap: Snapshot): AppState
  {
    s.(content := ContentOf(snap))
  }

  /**
   * The fetch path of `fetchData`, entered with `loading` set and `error`
   * cleared; `resolvedAt` is `new Date()` taken after `Promise.all` resolves.
   */
  function FetchAndPublish(started: AppState, storage: map<string, StoredItem>, resolvedAt: Timestamp,
                           fetch: FetchOutcome, storageAccepts: bool): RefreshResult
  {
    match fetch
    case Rejected =>
      RefreshResult(started.(error := Some(FetchFailedMessage), loading := false), storage, FiveRequests(), FetchFailed)
    case AllFulfilled(results) =>
      var snap := NewSnapshot(resolvedAt, results);
      var published := Publish(started, snap);
      if storageAccepts then
        RefreshResult(published.(loading := false), storage[CacheKey := Record(snap)], FiveRequests(), Refreshed)
      else
        RefreshResult(published.(error := Some(FetchFailedMessage), loading := false), storage, FiveRequests(), PersistFailed)
  }

  /**
   * `fetchData`: `now` is the clock at the freshness check, `resolvedAt` the
   * clock once the calls have resolved, `fetch` what the five calls resolve
   * to, `storageAccepts` whether `setItem` completes.
   *
   * Whatever the path: the page is kept, either no call or the five calls
   * are issued, the call stays loading only when it was abandoned, the
   * error is the fixed message exactly on a failure, and no key other than
   * the cache key is ever touched.
   */
  function Refresh(s: AppState, storage: map<string, StoredItem>, now: Timestamp, resolvedAt: Timestamp,
                   fetch: FetchOutcome, storageAccepts: bool): (r: RefreshResult)
    ensures r.state.currentPage == s.currentPage
    ensures r.requests == [] <==> r.path == ServedFromCache || r.path == Abandoned
    ensures r.requests != [] ==> r.requests == FiveRequests()
    ensures r.state.loading <==> r.path == Abandoned
    ensures r.state.error == Some(FetchFailedMessage) <==> r.path == FetchFailed || r.path == PersistFailed
    ensures r.state.error == None <==> !(r.path == FetchFailed || r.path == PersistFailed)
    ensures r.storage.Keys == storage.Keys || r.storage.Keys == storage.Keys + {CacheKey}
    ensures forall k :: k in storage && k != CacheKey ==> k in r.storage && r.storage[k] == storage[k]
  {
    var started := s.(loading := true, error := None);
    match Cached(storage)
    case EmptyText => FetchAndPublish(started, storage, resolvedAt, fetch, storageAccepts)
    case Malformed => RefreshResult(started, storage, [], Abandoned)
    case Record(snap) =>
      if IsFresh(snap.timestamp, now) then
        RefreshResult(Publish(started, snap).(loading := false), storage, [], ServedFromCache)
      else
        FetchAndPublish(started, storage, resolvedAt, fetch, storageAccepts)
  }

  // ---------------------------------------------------------------------
  // The component
  // ---------------------------------------------------------------------

  class Dashboard {
    var currentPage: Page
    var content: Content
    var loading: bool
    var error: Option<string>
    /** The browser's `localStorage`. */
    var storage: map<string, StoredItem>

    function State(): AppState
      reads this
    {
      AppState(currentPage, content, loading, error)
    }

    /** The initial `useState` values, over whatever an earlier session left in storage. */
    constructor (storage: map<string, StoredItem>, now: Timestamp)
      ensures State() == AppState(MarketIntelligencePage,
                                  Content(India, None, [], None, [], None, [], None, [], None, [], now),
                                  true, None)
      ensures this.storage == storage
    {
      currentPage := MarketIntelligencePage;
      content := Content(India, None, [], None, [], None, [], None, [], None, [], now);
      loading := true;
      error := None;
      this.storage := storage;
    }

    /**
     * `fetchData`. Returns the provider calls it issued and how it went; the
     * new state and storage are those of `Refresh`.
     */
    method FetchData(now: Timestamp, resolvedAt: Timestamp, fetch: FetchOutcome, storageAccepts: bool)
      returns (requests: seq<Request>, path: RefreshPath)
      modifies this
      ensures var r := Refresh(old(State()), old(storage), now, resolvedAt, fetch, storageAccepts);
              State() == r.state && storage == r.storage && requests == r.requests && path == r.path
    {
      loading := true;
      error := None;
      var cached := if CacheKey in storage then storage[CacheKey] else EmptyText;
      if cached != EmptyText {
        if cached == Malformed {
          return [], Abandoned;
        }
        var cache := cached.snapshot;
        if cache.timestamp.day == now.day {
          content := ContentOf(cache);
          loading := false;
          return [], ServedFromCache;
        }
      }
      requests := FiveRequests();
      match fetch {
        case Rejected =>
          error := Some(FetchFailedMessage);
          path := FetchFailed;
        case AllFulfilled(results) =>
          var newCache := NewSnapshot(resolvedAt, results);
          content := ContentOf(newCache);
          if storageAccepts {
            storage := storage[CacheKey := Record(newCache)];
            path := Refreshed;
          } else {
            error := Some(FetchFailedMessage);
            path := PersistFailed;
          }
      }
      loading := false;
    }
  }

  // ---------------------------------------------------------------------
  // What fetchData promises
  // ---------------------------------------------------------------------

  /** The ten data and source slots, the geography and the last update all come from `snap`. */
  ghost predicate ShowsSnapshot(s: AppState, snap: Snapshot)
  {
    var c := s.content;
    && c.geography == snap.geography
    && c.marketData == Some(snap.marketData) && c.marketSources == snap.marketSources
    && c.projectLaunches == Some(snap.projectLaunches) && c.competitiveSources == snap.competitiveSources
    && c.sharePrices == Some(snap.sharePrices) && c.sharePriceSources == snap.sharePriceSources
    && c.indiaNews == Some(snap.indiaNews) && c.indiaNewsSources == snap.indiaNewsSources
    && c.internationalNews == Some(snap.internationalNews) && c.internationalNewsSources == snap.internationalNewsSources
    && c.lastUpdated == snap.timestamp
  }

  /** The page and the published content are those of `before`; only `loading` and `error` may differ. */
  ghost predicate SameContent(s: AppState, before: AppState)
  {
    s.currentPage == before.currentPage && s.content == before.content
  }

  /** A stored record is reused exactly when it was captured on today's local calendar day. */
  lemma CacheReusedIffSameDay(s: AppState, storage: map<string, StoredItem>, now: Timestamp, resolvedAt: Timestamp,
                              fetch: FetchOutcome, storageAccepts: bool)
    requires Cached(storage).Record?
    ensures var r := Refresh(s, storage, now, resolvedAt, fetch, storageAccepts);
            (r.path == ServedFromCache <==> Cached(storage).snapshot.timestamp.day == now.day)
            && (r.requests == [] <==> Cached(storage).snapshot.timestamp.day == now.day)
  {
  }

  /**
   * A record from 23:59:59 yesterday is stale at 00:00:01 today (day `d`
   * starting at instant `d * 86400`): the check is by day, not by age.
   */
  lemma YesterdayIsStale(s: AppState, storage: map<string, StoredItem>, snap: Snapshot, day: int,
                         resolvedAt: Timestamp, fetch: FetchOutcome, storageAccepts: bool)
    requires CacheKey in storage && storage[CacheKey] == Record(snap)
    requires snap.timestamp == Timestamp(day - 1, day * 86400 - 1)
    ensures Refresh(s, storage, Timestamp(day, day * 86400 + 1), resolvedAt, fetch, storageAccepts).requests == FiveRequests()
  {
  }

  /** A fresh record is republished unchanged; nothing is fetched and nothing is written. */
  lemma CacheHitRepublishes(s: AppState, storage: map<string, StoredItem>, now: Timestamp, resolvedAt: Timestamp,
                            fetch: FetchOutcome, storageAccepts: bool)
    requires Cached(storage).Record? && IsFresh(Cached(storage).snapshot.timestamp, now)
    ensures var r := Refresh(s, storage, now, resolvedAt, fetch, storageAccepts);
            && ShowsSnapshot(r.state, Cached(storage).snapshot)
            && !r.state.loading && r.state.error == None && r.state.currentPage == s.currentPage
            && r.requests == [] && r.storage == storage
  {
  }

  /**
   * Without a fresh record, exactly the five calls are issued, the first two
   * for pan-India, whatever geography is selected.
   */
  lemma MissFetchesForIndia(s: AppState, storage: map<string, StoredItem>, now: Timestamp, resolvedAt: Timestamp,
                            fetch: FetchOutcome, storageAccepts: bool)
    requires Cached(storage) == EmptyText || (Cached(storage).Record? && !IsFresh(Cached(storage).snapshot.timestamp, now))
    ensures var r := Refresh(s, storage, now, resolvedAt, fetch, storageAccepts);
            && |r.requests| == 5
            && r.requests[0] == MarketIntelligenceRequest(India)
            && r.requests[1] == CompetitiveIntelligenceRequest(India)
            && r.requests[2..] == [SharePricesRequest, IndiaNewsRequest, InternationalNewsRequest]
  {
  }

  /**
   * When all five calls succeed, a record for pan-India, stamped with the
   * instant the calls resolved, is built from the results, the state is published from that same record,
   * and it replaces whatever was stored under the key, and nothing else.
   */
  lemma SuccessPublishesAndPersists(s: AppState, storage: map<string, StoredItem>, now: Timestamp, resolvedAt: Timestamp,
                                    results: SectionResults)
    requires Cached(storage) == EmptyText || (Cached(storage).Record? && !IsFresh(Cached(storage).snapshot.timestamp, now))
    ensures var r := Refresh(s, storage, now, resolvedAt, AllFulfilled(results), true);
            && r.path == Refreshed
            && CacheKey in r.storage && r.storage[CacheKey].Record?
            && var snap := r.storage[CacheKey].snapshot;
            && snap.timestamp == resolvedAt && snap.geography == India
            && snap.marketData == results.market && snap.marketSources == results.marketSources
            && snap.projectLaunches == results.launches && snap.competitiveSources == results.competitiveSources
            && snap.sharePrices == results.sharePrices && snap.sharePriceSources == results.sharePriceSources
            && snap.indiaNews == results.indiaNews && snap.indiaNewsSources == results.indiaNewsSources
            && snap.internationalNews == results.internationalNews
            && snap.internationalNewsSources == results.internationalNewsSources
            && ShowsSnapshot(r.state, snap)
            && !r.state.loading && r.state.error == None
            && forall k :: k in storage && k != CacheKey ==> k in r.storage && r.storage[k] == storage[k]
  {
  }

  /**
   * When any call fails, the fixed message is shown, storage is untouched,
   * and the published content is what it was before the call.
   */
  lemma FailureKeepsStorageAndContent(s: AppState, storage: map<string, StoredItem>, now: Timestamp, resolvedAt: Timestamp,
                                      storageAccepts: bool)
    requires Cached(storage) == EmptyText || (Cached(storage).Record? && !IsFresh(Cached(storage).snapshot.timestamp, now))
    ensures var r := Refresh(s, storage, now, resolvedAt, Rejected, storageAccepts);
            && r.storage == storage
            && SameContent(r.state, s)
            && r.state.error == Some(FetchFailedMessage) && !r.state.loading
  {
  }

  /**
   * Text in storage that is not JSON makes the call reject before its try
   * block: loading stays on, no error is shown, nothing is fetched.
   */
  lemma MalformedRecordAbandons(s: AppState, storage: map<string, StoredItem>, now: Timestamp, resolvedAt: Timestamp,
                                fetch: FetchOutcome, storageAccepts: bool)
    requires Cached(storage) == Malformed
    ensures var r := Refresh(s, storage, now, resolvedAt, fetch, storageAccepts);
            && r.state == s.(loading := true, error := None)
            && r.storage == storage && r.requests == [] && r.path == Abandoned
  {
  }

  /** `loading` ends false on every path except the malformed record. */
  lemma LoadingEndsUnlessMalformed(s: AppState, storage: map<string, StoredItem>, now: Timestamp, resolvedAt: Timestamp,
                                   fetch: FetchOutcome, storageAccepts: bool)
    ensures Refresh(s, storage, now, resolvedAt, fetch, storageAccepts).state.loading <==> Cached(storage) == Malformed
  {
  }

  /** Storage changes only by a successful refresh, and then only under the cache key. */
  lemma StorageWrittenOnlyOnSuccess(s: AppState, storage: map<string, StoredItem>, now: Timestamp, resolvedAt: Timestamp,
                                    fetch: FetchOutcome, storageAccepts: bool)
    ensures var r := Refresh(s, storage, now, resolvedAt, fetch, storageAccepts);
            r.storage != storage ==>
              && r.path == Refreshed && fetch.AllFulfilled? && storageAccepts
              && r.storage == storage[CacheKey := Record(NewSnapshot(resolvedAt, fetch.results))]
  {
  }

  /**
   * A refresh later on the day the first one's calls resolved serves the
   * record the first one stored, and leaves the state and the storage
   * exactly as the first one did.
   */
  lemma SameDayRefreshIsIdempotent(s: AppState, storage: map<string, StoredItem>, now: Timestamp, resolvedAt: Timestamp,
                                   results: SectionResults, later: Timestamp, laterResolvedAt: Timestamp,
                                   fetch: FetchOutcome, storageAccepts: bool)
    requires Cached(storage) == EmptyText || (Cached(storage).Record? && !IsFresh(Cached(storage).snapshot.timestamp, now))
    requires later.day == resolvedAt.day
    ensures var first := Refresh(s, storage, now, resolvedAt, AllFulfilled(results), true);
            var second := Refresh(first.state, first.storage, later, laterResolvedAt, fetch, storageAccepts);
            && second.path == ServedFromCache && second.requests == []
            && second.state == first.state && second.storage == first.storage
  {
    var first := Refresh(s, storage, now, resolvedAt, AllFulfilled(results), true);
    assert Cached(first.storage) == Record(NewSnapshot(resolvedAt, results));
  }

  /**
   * A refresh checked at 23:59:59 on day `d` whose calls resolve at 00:00:03
   * on day `d + 1` stores a record of day `d + 1`, so a refresh at 00:10
   * that day is served from the cache.
   */
  lemma RecordDatedWhenCallsResolve(s: AppState, storage: map<string, StoredItem>, d: int, results: SectionResults,
                                    fetch: FetchOutcome, storageAccepts: bool)
    requires Cached(storage) == EmptyText
    ensures var first := Refresh(s, storage, Timestamp(d, (d + 1) * 86400 - 1), Timestamp(d + 1, (d + 1) * 86400 + 3),
                                 AllFulfilled(results), true);
            var second := Refresh(first.state, first.storage, Timestamp(d + 1, (d + 1) * 86400 + 600),
                                  Timestamp(d + 1, (d + 1) * 86400 + 601), fetch, storageAccepts);
            && first.storage[CacheKey].snapshot.timestamp.day == d + 1
            && second.path == ServedFromCache
  {
    var first := Refresh(s, storage, Timestamp(d, (d + 1) * 86400 - 1), Timestamp(d + 1, (d + 1) * 86400 + 3),
                         AllFulfilled(results), true);
    assert Cached(first.storage) == Record(NewSnapshot(Timestamp(d + 1, (d + 1) * 86400 + 3), results));
  }

  // ---------------------------------------------------------------------
  // renderPage
  // ---------------------------------------------------------------------

  /** What the content panel shows. */
  datatype View =
    | Spinner
    | ErrorBanner(message: string)
    | MarketView(synopsis: MarketIntelligence.Synopsis, data: Option<MarketData>)
    | CompetitiveView(launches: Option<seq<ProjectLaunch>>)
    | SharePriceView(prices: Option<seq<SharePrice>>)
    | NewsView(articles: Option<seq<NewsArticle>>, title: string)
    | SourcesView(sources: Sources.SourcesView)

  /** The view that belongs to a page, with the slots it reads from. */
  ghost predicate ShowsPage(v: View, s: AppState)
  {
    match s.currentPage
    case MarketIntelligencePage =>
      v.MarketView? && v.data == s.content.marketData && v.synopsis == MarketIntelligence.ViewSynopsis(s.content.marketData)
    case CompetitiveIntelligencePage => v.CompetitiveView? && v.launches == s.content.projectLaunches
    case SharePriceIndexPage => v.SharePriceView? && v.prices == s.content.sharePrices
    case IndiaNewsPage =>
      v.NewsView? && v.articles == s.content.indiaNews && v.title == "Top 5 India Real Estate News"
    case InternationalNewsPage =>
      v.NewsView? && v.articles == s.content.internationalNews && v.title == "Top 5 International Real Estate News"
    case SourcesPage =>
      // the source lists of all five sections, in this order
      v.SourcesView? && v.sources == Sources.ViewSources(s.content.marketSources, s.content.competitiveSources,
                                                         s.content.sharePriceSources, s.content.indiaNewsSources,
                                                         s.content.internationalNewsSources)
  }

  /** `renderPage`: the spinner first, then the error, then the selected page. */
  function RenderPage(s: AppState): (v: View)
    ensures v.Spinner? <==> s.loading
    ensures v.ErrorBanner? <==> !s.loading && Truthy(s.error)
    ensures v.ErrorBanner? ==> v.message == s.error.value
    ensures !s.loading && !Truthy(s.error) ==> ShowsPage(v, s)
  {
    if s.loading then Spinner
    else if Truthy(s.error) then ErrorBanner(s.error.value)
    else
      match s.currentPage
      case MarketIntelligencePage => MarketView(MarketIntelligence.ViewSynopsis(s.content.marketData), s.content.marketData)
      case CompetitiveIntelligencePage => CompetitiveView(s.content.projectLaunches)
      case SharePriceIndexPage => SharePriceView(s.content.sharePrices)
      case IndiaNewsPage => NewsView(s.content.indiaNews, "Top 5 India Real Estate News")
      case InternationalNewsPage => NewsView(s.content.internationalNews, "Top 5 International Real Estate News")
      case SourcesPage =>
        SourcesView(Sources.ViewSources(s.content.marketSources, s.content.competitiveSources, s.content.sharePriceSources,
                                        s.content.indiaNewsSources, s.content.internationalNewsSources))
  }

  /** After any refresh that ends, the panel shows the error exactly when the refresh failed. */
  lemma ViewAfterRefresh(s: AppState, storage: map<string, StoredItem>, now: Timestamp, resolvedAt: Timestamp,
                         fetch: FetchOutcome, storageAccepts: bool)
    ensures var r := Refresh(s, storage, now, resolvedAt, fetch, storageAccepts);
            && (RenderPage(r.state).Spinner? <==> r.path == Abandoned)
            && (RenderPage(r.state).ErrorBanner? <==> r.path == FetchFailed || r.path == PersistFailed)
  {
  }
}
