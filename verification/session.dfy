/** Properties of whole sessions: sequences of handler calls on one store,
    as the popup and the alarm drive them. */
module Session {
  import opened Wrappers
  import opened Seqs
  import opened TimeWindow
  import opened Videos
  import opened YouTube
  import opened Mock
  import opened Cache
  import opened Watched
  import opened Worker
  import opened Popup

  /** What every handler keeps true of the store: a cached entry's shown ids
      are distinct and include its own videos, and the watched list is
      distinct and within its cap. */
  ghost predicate Coherent(st: Store) {
    && (st.cache.Some? ==>
          && NoDup(st.cache.value.shownIds)
          && forall v :: v in st.cache.value.videos ==> v.id in st.cache.value.shownIds)
    && NoDup(st.watched)
    && |st.watched| <= WatchedLimit
  }

  /** The freshly installed store is coherent. */
  lemma InstallIsCoherent(st: Store)
    requires NoDup(st.watched) && |st.watched| <= WatchedLimit
    ensures Coherent(Install(st))
  {
  }

  lemma FetchIsCoherent(settings: Settings, overrideCount: Option<nat>, excluded: seq<VideoId>,
                        watched: seq<VideoId>, api: Remote, prior: Option<CacheEntry>, now: int)
    ensures var e := FetchAndCache(settings, overrideCount, excluded, watched, api, prior, now);
      NoDup(e.shownIds) && forall v :: v in e.videos ==> v.id in e.shownIds
  {
    var e := FetchAndCache(settings, overrideCount, excluded, watched, api, prior, now);
    FetchAndCacheContents(settings, overrideCount, excluded, watched, api, prior, now);
    forall v | v in e.videos ensures v.id in e.shownIds {
      IdsMembership(e.videos, v);
    }
  }

  /** Every handler keeps the store coherent. */
  lemma HandlersKeepCoherent(st: Store, nowMinute: int, nowMs: int, api: Remote, s: Settings, id: VideoId)
    requires Coherent(st)
    ensures Coherent(GetState(st, nowMinute, nowMs, api).store)
    ensures Coherent(Refresh(st, nowMs, api).store)
    ensures Coherent(Alarm(st, nowMinute, nowMs, api))
    ensures Coherent(SaveSettings(st, s))
    ensures Coherent(MarkWatchedMessage(st, id))
  {
    GetStateKeepsCoherent(st, nowMinute, nowMs, api);
    RefreshKeepsCoherent(st, nowMs, api);
    AlarmKeepsCoherent(st, nowMinute, nowMs, api);
    MarkWatchedKeepsShape(st.watched, id);
  }

  lemma GetStateKeepsCoherent(st: Store, nowMinute: int, nowMs: int, api: Remote)
    requires Coherent(st)
    ensures Coherent(GetState(st, nowMinute, nowMs, api).store)
  {
    FetchIsCoherent(CurrentSettings(st), None, [], st.watched, api, st.cache, nowMs);
  }

  lemma RefreshKeepsCoherent(st: Store, nowMs: int, api: Remote)
    requires Coherent(st)
    ensures Coherent(Refresh(st, nowMs, api).store)
  {
    FetchIsCoherent(CurrentSettings(st), Some(NextCount(st)), ShownSoFar(st), st.watched, api, st.cache, nowMs);
  }

  lemma AlarmKeepsCoherent(st: Store, nowMinute: int, nowMs: int, api: Remote)
    requires Coherent(st)
    ensures Coherent(Alarm(st, nowMinute, nowMs, api))
  {
    FetchIsCoherent(CurrentSettings(st), None, [], st.watched, api, st.cache, nowMs);
  }

  // ---- the narrowing refresh loop ----

  /** The count the popup shows before any refresh. */
  function StartCount(st: Store): int {
    if st.cache.Some? then st.cache.value.displayCount else CurrentSettings(st).videoCount
  }

  function AtLeastOne(n: int): int {
    if n < 1 then 1 else n
  }

  /** A button pressed once per remote answer, in order, each press starting
      from the store the previous one left: the final store and every reply. */
  function Run(press: (Store, Remote) -> Step<RefreshReply>, st: Store, apis: seq<Remote>): (Store, seq<RefreshReply>)
    decreases |apis|
  {
    if |apis| == 0 then (st, [])
    else
      var first := press(st, apis[0]);
      var rest := Run(press, first.store, apis[1..]);
      (rest.0, [first.reply] + rest.1)
  }

  /** The refresh button at a fixed clock reading. */
  function RefreshPress(nowMs: int): (Store, Remote) -> Step<RefreshReply> {
    (s: Store, api: Remote) => Refresh(s, nowMs, api)
  }

  /** Pressing refresh once per remote answer. */
  function RefreshRun(st: Store, nowMs: int, apis: seq<Remote>): (Store, seq<RefreshReply>) {
    Run(RefreshPress(nowMs), st, apis)
  }

  /** A press that lowers the start count by one, never below one, and
      replies with at most that many videos. */
  ghost predicate Narrows(press: (Store, Remote) -> Step<RefreshReply>) {
    forall s, api ::
      && StartCount(press(s, api).store) == AtLeastOne(StartCount(s) - 1)
      && press(s, api).reply.displayCount == AtLeastOne(StartCount(s) - 1)
      && |press(s, api).reply.videos| <= AtLeastOne(StartCount(s) - 1)
  }

  /** A press that keeps every shown id, records the ids it returns and
      returns none that was shown before. */
  ghost predicate Excludes(press: (Store, Remote) -> Step<RefreshReply>) {
    && (forall s, api, id :: id in ShownSoFar(s) ==> id in ShownSoFar(press(s, api).store))
    && (forall s, api, v :: v in press(s, api).reply.videos ==>
          v.id !in ShownSoFar(s) && v.id in ShownSoFar(press(s, api).store))
  }

  /** One press lowers the start count by one, never below one, and the reply
      holds at most that many videos. */
  lemma RefreshLowersCount(st: Store, nowMs: int, api: Remote)
    ensures StartCount(Refresh(st, nowMs, api).store) == AtLeastOne(StartCount(st) - 1)
    ensures Refresh(st, nowMs, api).reply.displayCount == AtLeastOne(StartCount(st) - 1)
    ensures |Refresh(st, nowMs, api).reply.videos| <= AtLeastOne(StartCount(st) - 1)
  {
  }

  lemma RefreshNarrows(nowMs: int)
    ensures Narrows(RefreshPress(nowMs))
  {
    forall s, api
      ensures StartCount(Refresh(s, nowMs, api).store) == AtLeastOne(StartCount(s) - 1)
      ensures Refresh(s, nowMs, api).reply.displayCount == AtLeastOne(StartCount(s) - 1)
      ensures |Refresh(s, nowMs, api).reply.videos| <= AtLeastOne(StartCount(s) - 1)
    {
      RefreshLowersCount(s, nowMs, api);
    }
  }

  lemma RefreshExcludes(nowMs: int)
    ensures Excludes(RefreshPress(nowMs))
  {
    forall s, api ensures
      && (forall id :: id in ShownSoFar(s) ==> id in ShownSoFar(Refresh(s, nowMs, api).store))
      && (forall v :: v in Refresh(s, nowMs, api).reply.videos ==>
            v.id !in ShownSoFar(s) && v.id in ShownSoFar(Refresh(s, nowMs, api).store))
    {
      RefreshShownIds(s, nowMs, api);
    }
  }

  /** A run answers once per press. */
  lemma {:induction false} RunLength(press: (Store, Remote) -> Step<RefreshReply>, st: Store, apis: seq<Remote>)
    ensures |Run(press, st, apis).1| == |apis|
    decreases |apis|
  {
    if |apis| > 0 {
      RunLength(press, press(st, apis[0]).store, apis[1..]);
    }
  }

  /** The first reply of a run is the first press's reply, and a later reply
      is a reply of the run that starts after the first press. */
  lemma RunLater(press: (Store, Remote) -> Step<RefreshReply>, st: Store, apis: seq<Remote>, j: nat)
    requires j < |apis|
    ensures j < |Run(press, st, apis).1|
    ensures j == 0 ==> Run(press, st, apis).1[0] == press(st, apis[0]).reply
    ensures j > 0 ==> j - 1 < |Run(press, press(st, apis[0]).store, apis[1..]).1|
    ensures j > 0 ==> Run(press, st, apis).1[j] == Run(press, press(st, apis[0]).store, apis[1..]).1[j - 1]
  {
    RunLength(press, st, apis);
    RunLength(press, press(st, apis[0]).store, apis[1..]);
  }

  /** The k-th press of a narrowing run (counting from one) asks for k videos
      fewer than the start count, never fewer than one, and gets at most that
      many. */
  lemma {:induction false} RunCountsDown(press: (Store, Remote) -> Step<RefreshReply>, st: Store, apis: seq<Remote>, k: nat)
    requires Narrows(press)
    requires k < |apis|
    ensures k < |Run(press, st, apis).1|
    ensures Run(press, st, apis).1[k].displayCount == AtLeastOne(StartCount(st) - (k + 1))
    ensures |Run(press, st, apis).1[k].videos| <= AtLeastOne(StartCount(st) - (k + 1))
    decreases k
  {
    RunLater(press, st, apis, k);
    var first := press(st, apis[0]);
    if k > 0 {
      RunCountsDown(press, first.store, apis[1..], k - 1);
    }
  }

  /** Shown ids only accumulate over a run. */
  lemma {:induction false} RunKeepsShown(press: (Store, Remote) -> Step<RefreshReply>, st: Store, apis: seq<Remote>, id: VideoId)
    requires Excludes(press)
    requires id in ShownSoFar(st)
    ensures id in ShownSoFar(Run(press, st, apis).0)
    decreases |apis|
  {
    if |apis| > 0 {
      RunKeepsShown(press, press(st, apis[0]).store, apis[1..], id);
    }
  }

  /** No reply of a run repeats an id shown before the run. */
  lemma {:induction false} RunAvoidsShown(press: (Store, Remote) -> Step<RefreshReply>, st: Store, apis: seq<Remote>,
                                          k: nat, v: Video)
    requires Excludes(press)
    requires k < |Run(press, st, apis).1| && v in Run(press, st, apis).1[k].videos
    ensures v.id !in ShownSoFar(st)
    decreases k
  {
    RunLength(press, st, apis);
    RunLater(press, st, apis, k);
    if k > 0 {
      RunAvoidsShown(press, press(st, apis[0]).store, apis[1..], k - 1, v);
    }
  }

  /** The batches of a run are pairwise disjoint. */
  lemma {:induction false} RunBatchesDisjoint(press: (Store, Remote) -> Step<RefreshReply>, st: Store, apis: seq<Remote>,
                                              i: nat, j: nat, v: Video, w: Video)
    requires Excludes(press)
    requires i < j < |Run(press, st, apis).1|
    requires v in Run(press, st, apis).1[i].videos && w in Run(press, st, apis).1[j].videos
    ensures v.id != w.id
    decreases i
  {
    RunLength(press, st, apis);
    RunLater(press, st, apis, i);
    RunLater(press, st, apis, j);
    var first := press(st, apis[0]);
    if i == 0 {
      RunAvoidsShown(press, first.store, apis[1..], j - 1, w);
    } else {
      RunBatchesDisjoint(press, first.store, apis[1..], i - 1, j - 1, v, w);
    }
  }

  /** A run of refreshes answers once per press. */
  lemma RefreshRunLength(st: Store, nowMs: int, apis: seq<Remote>)
    ensures |RefreshRun(st, nowMs, apis).1| == |apis|
  {
    RunLength(RefreshPress(nowMs), st, apis);
  }

  /** The k-th refresh of a run (counting from one) asks for one video fewer
      per press, never fewer than one, and gets at most that many. */
  lemma RefreshRunCountsDown(st: Store, nowMs: int, apis: seq<Remote>, k: nat)
    requires k < |apis|
    ensures k < |RefreshRun(st, nowMs, apis).1|
    ensures RefreshRun(st, nowMs, apis).1[k].displayCount == AtLeastOne(StartCount(st) - (k + 1))
    ensures |RefreshRun(st, nowMs, apis).1[k].videos| <= AtLeastOne(StartCount(st) - (k + 1))
  {
    RefreshNarrows(nowMs);
    RunCountsDown(RefreshPress(nowMs), st, apis, k);
  }

  /** Once the run has pressed refresh enough times the button is disabled. */
  lemma RefreshButtonDisables(st: Store, nowMs: int, apis: seq<Remote>)
    requires |apis| > 0 && |apis| >= StartCount(st) - 1
    ensures |apis| - 1 < |RefreshRun(st, nowMs, apis).1|
    ensures RefreshDisabled(Some(RefreshRun(st, nowMs, apis).1[|apis| - 1].displayCount))
  {
    var k := |apis| - 1;
    RefreshRunCountsDown(st, nowMs, apis, k);
    var last := RefreshRun(st, nowMs, apis).1[k];
    assert last.displayCount == AtLeastOne(StartCount(st) - (k + 1));
    assert StartCount(st) - (k + 1) <= 1;
  }

  /** Shown ids only accumulate over a run of refreshes. */
  lemma RefreshRunKeepsShown(st: Store, nowMs: int, apis: seq<Remote>, id: VideoId)
    requires id in ShownSoFar(st)
    ensures id in ShownSoFar(RefreshRun(st, nowMs, apis).0)
  {
    RefreshExcludes(nowMs);
    RunKeepsShown(RefreshPress(nowMs), st, apis, id);
  }

  /** No reply of a run of refreshes repeats an id shown before the run. */
  lemma RefreshRunAvoidsShown(st: Store, nowMs: int, apis: seq<Remote>, k: nat)
    requires k < |apis|
    ensures k < |RefreshRun(st, nowMs, apis).1|
    ensures forall v :: v in RefreshRun(st, nowMs, apis).1[k].videos ==> v.id !in ShownSoFar(st)
  {
    RefreshExcludes(nowMs);
    RunLength(RefreshPress(nowMs), st, apis);
    forall v | v in RefreshRun(st, nowMs, apis).1[k].videos ensures v.id !in ShownSoFar(st) {
      RunAvoidsShown(RefreshPress(nowMs), st, apis, k, v);
    }
  }

  /** The batches of a run of refreshes are pairwise disjoint: a later refresh
      never returns a video an earlier one returned. */
  lemma RefreshBatchesDisjoint(st: Store, nowMs: int, apis: seq<Remote>, i: nat, j: nat)
    requires i < j < |apis|
    ensures j < |RefreshRun(st, nowMs, apis).1|
    ensures forall v, w :: v in RefreshRun(st, nowMs, apis).1[i].videos && w in RefreshRun(st, nowMs, apis).1[j].videos ==>
      v.id != w.id
  {
    RefreshExcludes(nowMs);
    RunLength(RefreshPress(nowMs), st, apis);
    forall v, w | v in RefreshRun(st, nowMs, apis).1[i].videos && w in RefreshRun(st, nowMs, apis).1[j].videos
      ensures v.id != w.id
    {
      RunBatchesDisjoint(RefreshPress(nowMs), st, apis, i, j, v, w);
    }
  }

  // ---- the end of the narrowing: auto-open ----

  /** A reply at count one ends the narrowing: a live reply holds exactly one
      video, which the popup opens unless its id looks like a mock; a
      degraded reply is never opened. */
  ghost predicate EndsInOpen(r: RefreshReply) {
    r.displayCount == 1 ==>
      && (!r.usedMock ==> |r.videos| == 1 && (AutoOpens(r.videos) <==> !IsMockId(r.videos[0].id)))
      && (r.usedMock ==> !AutoOpens(r.videos))
  }

  /** A press whose every reply ends the narrowing as described. */
  ghost predicate Opens(press: (Store, Remote) -> Step<RefreshReply>) {
    forall s, api :: EndsInOpen(press(s, api).reply)
  }

  /** A refresh at count one holds one live video, to be opened, or mocks,
      which are never opened. */
  lemma RefreshAtOneOpens(st: Store, nowMs: int, api: Remote)
    ensures EndsInOpen(Refresh(st, nowMs, api).reply)
  {
    var e := FetchAndCache(CurrentSettings(st), Some(NextCount(st)), ShownSoFar(st), st.watched, api, st.cache, nowMs);
    FetchAndCacheContents(CurrentSettings(st), Some(NextCount(st)), ShownSoFar(st), st.watched, api, st.cache, nowMs);
    if e.usedMock && |e.videos| == 1 {
      MockFallbackShape(AsSet(ShownSoFar(st)), NextCount(st));
      assert e.videos[0] in e.videos;
      MockVideosStayUnmarked(e.videos[0]);
      assert e.videos == [e.videos[0]];
    }
  }

  lemma RefreshOpens(nowMs: int)
    ensures Opens(RefreshPress(nowMs))
  {
    forall s, api ensures EndsInOpen(Refresh(s, nowMs, api).reply) {
      RefreshAtOneOpens(s, nowMs, api);
    }
  }

  /** Every reply of a run of an opening press ends the narrowing as described. */
  lemma {:induction false} RunRepliesOpen(press: (Store, Remote) -> Step<RefreshReply>, st: Store, apis: seq<Remote>, k: nat)
    requires Opens(press)
    requires k < |apis|
    ensures k < |Run(press, st, apis).1|
    ensures EndsInOpen(Run(press, st, apis).1[k])
    decreases k
  {
    RunLater(press, st, apis, k);
    if k > 0 {
      RunRepliesOpen(press, press(st, apis[0]).store, apis[1..], k - 1);
    }
  }

  /** After enough presses the narrowing ends: the last reply is at count one,
      and it holds a single live video for the popup to open, or mocks that
      stay closed. */
  lemma RefreshRunEndsInOpen(st: Store, nowMs: int, apis: seq<Remote>)
    requires |apis| > 0 && |apis| >= StartCount(st) - 1
    ensures |apis| - 1 < |RefreshRun(st, nowMs, apis).1|
    ensures RefreshRun(st, nowMs, apis).1[|apis| - 1].displayCount == 1
    ensures EndsInOpen(RefreshRun(st, nowMs, apis).1[|apis| - 1])
  {
    var k := |apis| - 1;
    RefreshRunCountsDown(st, nowMs, apis, k);
    assert StartCount(st) - (k + 1) <= 1;
    RefreshOpens(nowMs);
    RunRepliesOpen(RefreshPress(nowMs), st, apis, k);
  }

  // ---- what the popup renders ----

  /** The popup renders exactly the list the worker sent, for get-state and
      for refresh alike. */
  lemma PopupRendersReply(st: Store, nowMinute: int, nowMs: int, api: Remote)
    ensures GetState(st, nowMinute, nowMs, api).reply.Lunch? ==>
      UnwrapVideos(Array(GetState(st, nowMinute, nowMs, api).reply.videos)) == GetState(st, nowMinute, nowMs, api).reply.videos
    ensures UnwrapVideos(Array(Refresh(st, nowMs, api).reply.videos)) == Refresh(st, nowMs, api).store.cache.value.videos
  {
    UnwrapInvertsEncodings(Array(Refresh(st, nowMs, api).reply.videos));
  }

  /** In a coherent store a refresh never repeats a video of the list the
      popup is showing. */
  lemma RefreshAvoidsShownList(st: Store, nowMs: int, api: Remote)
    requires Coherent(st) && st.cache.Some?
    ensures forall v, w :: v in st.cache.value.videos && w in Refresh(st, nowMs, api).reply.videos ==> v.id != w.id
  {
    RefreshShownIds(st, nowMs, api);
  }

  // ---- the popup's get-state ----

  /** Inside the window with a positive configured count, the popup always
      gets at least one video: the live list, a cached list, or the mocks. */
  lemma GetStateInWindowIsNonEmpty(st: Store, nowMinute: int, nowMs: int, api: Remote)
    requires IsLunchTime(CurrentSettings(st).lunchStart, CurrentSettings(st).lunchEnd, nowMinute)
    requires CurrentSettings(st).videoCount >= 1
    ensures GetState(st, nowMinute, nowMs, api).reply.Lunch?
    ensures |GetState(st, nowMinute, nowMs, api).reply.videos| >= 1
  {
    if !(st.cache.Some? && |st.cache.value.videos| > 0) {
      var e := FetchAndCache(CurrentSettings(st), None, [], st.watched, api, st.cache, nowMs);
      FetchAndCacheContents(CurrentSettings(st), None, [], st.watched, api, st.cache, nowMs);
      if e.usedMock {
        MockFallbackShape(AsSet([]), CurrentSettings(st).videoCount);
        MockPoolEntries();
        WithoutExcludedMembers(MockPool, AsSet([]));
        assert MockPool[0] in WithoutExcluded(MockPool, AsSet([]));
      }
    }
  }

  /** Inside the window a stored non-empty list is served whatever its age and
      whatever the remote would answer, even once the cache read used by the
      alarm treats it as expired. */
  lemma GetStateServesStaleCache(st: Store, nowMinute: int, t1: int, t2: int, api1: Remote, api2: Remote)
    requires IsLunchTime(CurrentSettings(st).lunchStart, CurrentSettings(st).lunchEnd, nowMinute)
    requires st.cache.Some? && |st.cache.value.videos| > 0
    ensures GetState(st, nowMinute, t1, api1) == GetState(st, nowMinute, t2, api2)
    ensures GetState(st, nowMinute, t1, api1).reply.videos == st.cache.value.videos
    ensures t1 > st.cache.value.timestamp + CacheDurationMs ==> ReadVideos(st.cache, t1).None?
  {
  }

  /** After saving settings the next get-state inside the new window fetches
      afresh under the new settings: live videos respect the new duration
      ceiling and count. */
  lemma SaveThenGetStateFetches(st: Store, s: Settings, nowMinute: int, nowMs: int, api: Remote)
    requires IsLunchTime(s.lunchStart, s.lunchEnd, nowMinute)
    ensures var r := GetState(SaveSettings(st, s), nowMinute, nowMs, api).reply;
      && r == LunchReply(FetchAndCache(s, None, [], st.watched, api, None, nowMs))
      && |r.videos| <= s.videoCount
      && (!r.usedMock ==> forall v :: v in r.videos ==> v.durationSeconds <= s.maxDurationMinutes * 60)
  {
    FetchAndCacheContents(s, None, [], st.watched, api, None, nowMs);
  }

  /** The alarm leaves a fresh cache alone. */
  lemma AlarmKeepsFreshCache(st: Store, nowMinute: int, nowMs: int, api: Remote)
    requires ReadVideos(st.cache, nowMs).Some?
    ensures Alarm(st, nowMinute, nowMs, api) == st
  {
  }

  // ---- watched videos ----

  /** A live video the user clicked is not returned by the next live fetch,
      neither by a fetching get-state nor by a refresh. (Later on the id can
      come back once 500 newer clicks have pushed it out of the history.) */
  lemma ClickedVideoNotReturnedNext(st: Store, id: VideoId, nowMinute: int, nowMs: int, api: Remote)
    requires Coherent(st)
    ensures var after := MarkWatchedMessage(st, id);
      && (GetState(after, nowMinute, nowMs, api).reply.Lunch? && !GetState(after, nowMinute, nowMs, api).reply.usedMock &&
            !(st.cache.Some? && |st.cache.value.videos| > 0) ==>
          forall v :: v in GetState(after, nowMinute, nowMs, api).reply.videos ==> v.id != id)
      && (!Refresh(after, nowMs, api).reply.usedMock ==>
          forall v :: v in Refresh(after, nowMs, api).reply.videos ==> v.id != id)
  {
    DedupeOfNoDup(st.watched);
    MarkWatchedKeepsShape(st.watched, id);
    var after := MarkWatchedMessage(st, id);
    FetchAndCacheContents(CurrentSettings(after), None, [], after.watched, api, after.cache, nowMs);
    FetchAndCacheContents(CurrentSettings(after), Some(NextCount(after)), ShownSoFar(after), after.watched, api, after.cache, nowMs);
  }
}
