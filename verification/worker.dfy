/** The background worker's message handlers (background.js): the
    fetch-filter-rank-cache body of `fetchAndCacheVideos`, `handleGetState`,
    `handleRefresh`, the periodic `refreshIfLunchTime`, `markVideoWatched`,
    and the cache clears on install and on settings save (options/options.js).
    Storage is the explicit `Store` record; every handler is a function from
    the store (plus the clock and the remote answers) to a new store and a reply. */
module Worker {
  import opened Wrappers
  import opened Seqs
  import opened TimeWindow
  import opened Videos
  import opened Ranking
  import opened YouTube
  import opened Mock
  import opened Cache
  import opened Watched

  /** The synced settings record. */
  datatype Settings = Settings(lunchStart: string, lunchEnd: string, maxDurationMinutes: nat, videoCount: nat)

  const DefaultSettings := Settings("12:00", "13:00", 20, 10)

  /** Both storage areas: synced settings (absent until first install) and the
      local cache slot and watched list. */
  datatype Store = Store(settings: Option<Settings>, cache: Option<CacheEntry>, watched: seq<VideoId>)

  /** `chrome.storage.sync.get({ settings: DEFAULT_SETTINGS })`. */
  function CurrentSettings(st: Store): Settings {
    st.settings.GetOr(DefaultSettings)
  }

  function AsSet(ids: seq<VideoId>): set<VideoId> {
    set id | id in ids
  }

  /** The videos of `fetchAndCacheVideos` when the live path yields nothing or
      throws: the mock pool without the excluded ids, cut to the count. */
  function MockEntry(prior: Option<CacheEntry>, reason: Reason, count: nat, excluded: seq<VideoId>, now: int): CacheEntry {
    WriteEntry(prior, MockFallback(AsSet(excluded), count), true, Some(reason), Some(count), excluded, now)
  }

  /** `fetchAndCacheVideos(settings, overrideCount, excludedIds)`: returns the
      entry it writes, whose `videos` are the videos it returns. The contents
      of the entry are described by `FetchAndCacheContents`. */
  function FetchAndCache(settings: Settings, overrideCount: Option<nat>, excluded: seq<VideoId>,
                         watched: seq<VideoId>, api: Remote, prior: Option<CacheEntry>, now: int): (e: CacheEntry)
    ensures |e.videos| <= overrideCount.GetOr(settings.videoCount)
    ensures e.displayCount == overrideCount.GetOr(settings.videoCount)
    ensures e.timestamp == now
    ensures NoDup(e.shownIds)
    ensures e.usedMock <==> e.apiError.Some?
    ensures !e.usedMock ==> |e.videos| > 0 && Orchestrate(api).Success?
  {
    var count := overrideCount.GetOr(settings.videoCount);
    var result :=
      match Orchestrate(api)
      case Failure(message) => MockEntry(prior, Classify(message), count, excluded, now)
      case Success(details) =>
        var videos := Rank(details, settings.maxDurationMinutes * 60, AsSet(watched), AsSet(excluded), count);
        if |videos| > 0 then WriteEntry(prior, videos, false, None, Some(count), excluded, now)
        else MockEntry(prior, NoResults, count, excluded, now);
    FetchAndCacheFacts(settings, excluded, watched, api, count, result);
    result
  }

  /** The proof behind the fetch's contract, for both paths. */
  lemma FetchAndCacheFacts(settings: Settings, excluded: seq<VideoId>, watched: seq<VideoId>, api: Remote,
                           count: nat, e: CacheEntry)
    requires e.videos == MockFallback(AsSet(excluded), count) ||
      (Orchestrate(api).Success? &&
       e.videos == Rank(Orchestrate(api).value, settings.maxDurationMinutes * 60, AsSet(watched), AsSet(excluded), count))
    ensures |e.videos| <= count
    ensures forall v :: v in e.videos ==> v.id !in excluded
    ensures SortedDesc(e.videos)
    ensures (Orchestrate(api).Success? &&
       e.videos == Rank(Orchestrate(api).value, settings.maxDurationMinutes * 60, AsSet(watched), AsSet(excluded), count)) ==>
      forall v :: v in e.videos ==>
        && (exists d :: d in Orchestrate(api).value && v == ToVideo(d))
        && ShortMaxSeconds < v.durationSeconds <= settings.maxDurationMinutes * 60
        && v.id !in watched
  {
    MockFallbackShape(AsSet(excluded), count);
    if Orchestrate(api).Success? {
      var ds := Orchestrate(api).value;
      RankedAreEligible(ds, settings.maxDurationMinutes * 60, AsSet(watched), AsSet(excluded), count);
      var r := Rank(ds, settings.maxDurationMinutes * 60, AsSet(watched), AsSet(excluded), count);
      if e.videos == r {
        forall v | v in e.videos
          ensures exists d :: d in ds && v == ToVideo(d)
        {
          var d :| d in ds && Eligible(d, settings.maxDurationMinutes * 60, AsSet(watched), AsSet(excluded)) && v == ToVideo(d);
        }
      }
    }
  }

  /** What the fetch writes: no excluded id, highest score first, the shown
      ids are the excluded ones plus the new videos' ids; a live result is
      non-empty and built from fetched details that fit the ceiling and were
      not watched; a degraded result is the mock fallback, tagged with the
      classified failure or with "no results". */
  lemma FetchAndCacheContents(settings: Settings, overrideCount: Option<nat>, excluded: seq<VideoId>,
                              watched: seq<VideoId>, api: Remote, prior: Option<CacheEntry>, now: int)
    ensures var e := FetchAndCache(settings, overrideCount, excluded, watched, api, prior, now);
      && (forall v :: v in e.videos ==> v.id !in excluded)
      && SortedDesc(e.videos)
      && (forall id :: id in e.shownIds <==> id in excluded || id in Ids(e.videos))
      && (!e.usedMock ==>
            && e.apiError.None?
            && |e.videos| > 0
            && Orchestrate(api).Success?
            && forall v :: v in e.videos ==>
                 && (exists d :: d in Orchestrate(api).value && v == ToVideo(d))
                 && ShortMaxSeconds < v.durationSeconds <= settings.maxDurationMinutes * 60
                 && v.id !in watched)
      && (e.usedMock ==>
            && e.videos == MockFallback(AsSet(excluded), overrideCount.GetOr(settings.videoCount))
            && (Orchestrate(api).Failure? ==> e.apiError == Some(Classify(Orchestrate(api).error)))
            && (Orchestrate(api).Success? ==> e.apiError == Some(NoResults)))
  {
    var e := FetchAndCache(settings, overrideCount, excluded, watched, api, prior, now);
    FetchAndCacheFacts(settings, excluded, watched, api, overrideCount.GetOr(settings.videoCount), e);
  }

  /** What `handleGetState` answers. */
  datatype StateReply =
    | Waiting(minutesUntil: Option<int>)
    | Lunch(videos: seq<Video>, usedMock: bool, apiError: Option<Reason>, displayCount: int)

  /** The result of one handler: the new store and its reply. */
  datatype Step<R> = Step(store: Store, reply: R)

  function LunchReply(e: CacheEntry): StateReply {
    Lunch(e.videos, e.usedMock, e.apiError, e.displayCount)
  }

  /** `handleGetState`. Inside the window a stored non-empty video list is
      served whatever its age; otherwise a fresh fetch with the configured
      count and no exclusions is cached and served. Outside the window the
      reply is the wait until the window opens. */
  function GetState(st: Store, nowMinute: int, nowMs: int, api: Remote): (r: Step<StateReply>)
    ensures r.store.settings == st.settings && r.store.watched == st.watched
    ensures r.reply.Waiting? <==> !IsLunchTime(CurrentSettings(st).lunchStart, CurrentSettings(st).lunchEnd, nowMinute)
    ensures r.reply.Waiting? ==> r.store == st && r.reply.minutesUntil == MinutesUntilLunch(CurrentSettings(st).lunchStart, nowMinute)
    ensures r.reply.Lunch? ==> r.store.cache.Some? && r.reply == LunchReply(r.store.cache.value)
  {
    var settings := CurrentSettings(st);
    if IsLunchTime(settings.lunchStart, settings.lunchEnd, nowMinute) then
      if st.cache.Some? && |st.cache.value.videos| > 0 then
        Step(st, LunchReply(st.cache.value))
      else
        var e := FetchAndCache(settings, None, [], st.watched, api, st.cache, nowMs);
        Step(st.(cache := Some(e)), LunchReply(e))
    else
      Step(st, Waiting(MinutesUntilLunch(settings.lunchStart, nowMinute)))
  }

  /** What `handleRefresh` answers. */
  datatype RefreshReply = RefreshReply(videos: seq<Video>, usedMock: bool, apiError: Option<Reason>, displayCount: int)

  /** The count a refresh asks for: one less than the cached display count
      (or the configured count without a cache), never below one. */
  function NextCount(st: Store): int {
    var current := if st.cache.Some? then st.cache.value.displayCount else CurrentSettings(st).videoCount;
    if current - 1 < 1 then 1 else current - 1
  }

  /** The ids shown so far in the session: the cached `shownIds`, however old. */
  function ShownSoFar(st: Store): seq<VideoId> {
    if st.cache.Some? then st.cache.value.shownIds else []
  }

  /** `handleRefresh`: fetch again for one video fewer, excluding every id
      shown so far, and cache the result. The window and the cache age are
      not consulted. */
  function Refresh(st: Store, nowMs: int, api: Remote): (r: Step<RefreshReply>)
    ensures r.store.settings == st.settings && r.store.watched == st.watched
    ensures r.store.cache.Some?
    ensures r.reply.videos == r.store.cache.value.videos
    ensures r.reply.displayCount == r.store.cache.value.displayCount == NextCount(st)
    ensures |r.reply.videos| <= r.reply.displayCount
  {
    var count := NextCount(st);
    var e := FetchAndCache(CurrentSettings(st), Some(count), ShownSoFar(st), st.watched, api, st.cache, nowMs);
    Step(st.(cache := Some(e)), RefreshReply(e.videos, e.usedMock, e.apiError, e.displayCount))
  }

  /** A refresh returns no id shown so far in the session, and afterwards the
      shown ids are exactly the earlier ones plus the ids it returned, each
      once. */
  lemma RefreshShownIds(st: Store, nowMs: int, api: Remote)
    ensures var r := Refresh(st, nowMs, api);
      && (forall v :: v in r.reply.videos ==> v.id !in ShownSoFar(st))
      && (forall id :: id in ShownSoFar(r.store) <==> id in ShownSoFar(st) || id in Ids(r.reply.videos))
      && NoDup(ShownSoFar(r.store))
      && (forall id :: id in ShownSoFar(st) ==> id in ShownSoFar(r.store))
      && (forall v :: v in r.reply.videos ==> v.id in ShownSoFar(r.store))
  {
    var e := FetchAndCache(CurrentSettings(st), Some(NextCount(st)), ShownSoFar(st), st.watched, api, st.cache, nowMs);
    FetchAndCacheContents(CurrentSettings(st), Some(NextCount(st)), ShownSoFar(st), st.watched, api, st.cache, nowMs);
    forall v | v in e.videos ensures v.id in e.shownIds {
      IdsMembership(e.videos, v);
    }
  }

  /** `refreshIfLunchTime`, run by the five-minute alarm: inside the window a
      missing or expired cache is refilled; nothing else changes. */
  function Alarm(st: Store, nowMinute: int, nowMs: int, api: Remote): (r: Store)
    ensures r.settings == st.settings && r.watched == st.watched
    ensures r != st ==> IsLunchTime(CurrentSettings(st).lunchStart, CurrentSettings(st).lunchEnd, nowMinute)
    ensures IsLunchTime(CurrentSettings(st).lunchStart, CurrentSettings(st).lunchEnd, nowMinute) ==>
      ReadVideos(r.cache, nowMs).Some?
  {
    var settings := CurrentSettings(st);
    if IsLunchTime(settings.lunchStart, settings.lunchEnd, nowMinute) && ReadVideos(st.cache, nowMs).None? then
      st.(cache := Some(FetchAndCache(settings, None, [], st.watched, api, st.cache, nowMs)))
    else st
  }

  /** `onInstalled`: store the default settings when none exist and always
      drop the cache. */
  function Install(st: Store): (r: Store)
    ensures r.cache.None? && r.watched == st.watched
    ensures r.settings == Some(CurrentSettings(st))
  {
    Store(Some(CurrentSettings(st)), None, st.watched)
  }

  /** The options page's save: store the new settings and drop the cache. */
  function SaveSettings(st: Store, s: Settings): (r: Store)
    ensures r.cache.None? && r.watched == st.watched
    ensures CurrentSettings(r) == s
  {
    Store(Some(s), None, st.watched)
  }

  /** The MARK_WATCHED message. */
  function MarkWatchedMessage(st: Store, id: VideoId): (r: Store)
    ensures r.settings == st.settings && r.cache == st.cache
    ensures |r.watched| <= WatchedLimit
    ensures |Dedupe(st.watched)| <= WatchedLimit ==> id in r.watched
  {
    st.(watched := MarkWatched(st.watched, id))
  }
}
