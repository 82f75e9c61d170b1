/** The single cache slot (background.js `getCachedVideos`,
    `setCachedVideos`). The storage area becomes an explicit `Option` value
    and `Date.now()` a parameter in milliseconds. */
module Cache {
  import opened Wrappers
  import opened Seqs
  import opened Videos
  import opened YouTube

  const CacheDurationMs: int := 30 * 60 * 1000

  /** The stored `videoCache` record. */
  datatype CacheEntry = CacheEntry(
    videos: seq<Video>,
    usedMock: bool,
    apiError: Option<Reason>,
    displayCount: int,
    shownIds: seq<VideoId>,
    timestamp: int)

  /** `videos.map(v => v.id)`. */
  function Ids(vs: seq<Video>): (r: seq<VideoId>)
    ensures |r| == |vs|
    ensures forall i :: 0 <= i < |vs| ==> r[i] == vs[i].id
  {
    seq(|vs|, i requires 0 <= i < |vs| => vs[i].id)
  }

  /** An id is listed exactly when some video carries it. */
  lemma IdsMembers(vs: seq<Video>)
    ensures forall id :: id in Ids(vs) <==> exists v :: v in vs && v.id == id
  {
    forall id | id in Ids(vs) ensures exists v :: v in vs && v.id == id {
      var i :| 0 <= i < |vs| && Ids(vs)[i] == id;
      assert vs[i] in vs;
    }
    forall v | v in vs ensures v.id in Ids(vs) {
      IdsMembership(vs, v);
    }
  }

  lemma IdsMembership(vs: seq<Video>, v: Video)
    requires v in vs
    ensures v.id in Ids(vs)
  {
    var i :| 0 <= i < |vs| && vs[i] == v;
    assert Ids(vs)[i] == v.id;
  }

  /** `getCachedVideos`: the stored videos unless there is no entry or it is
      more than thirty minutes old. */
  function ReadVideos(cache: Option<CacheEntry>, now: int): (r: Option<seq<Video>>)
    ensures r.None? <==> cache.None? || now - cache.value.timestamp > CacheDurationMs
    ensures r.Some? ==> r.value == cache.value.videos
  {
    match cache
    case None => None
    case Some(e) => if now - e.timestamp > CacheDurationMs then None else Some(e.videos)
  }

  /** `setCachedVideos(videos, usedMock, apiError, displayCount, shownIds)`:
      overwrites the slot. A `null` display count falls back to the prior
      entry's count when that is non-zero, else to the number of videos; every
      call in the worker passes a count, so that fallback is never taken. The
      shown ids become `Array.from(new Set([...shownIds, ...ids(videos)]))`. */
  function WriteEntry(prior: Option<CacheEntry>, videos: seq<Video>, usedMock: bool, apiError: Option<Reason>,
                      displayCount: Option<int>, shownIds: seq<VideoId>, now: int): (e: CacheEntry)
    ensures e.videos == videos && e.usedMock == usedMock && e.apiError == apiError && e.timestamp == now
    ensures displayCount.Some? ==> e.displayCount == displayCount.value
    ensures NoDup(e.shownIds)
    ensures forall id :: id in e.shownIds <==> id in shownIds || id in Ids(videos)
  {
    var count :=
      if displayCount.Some? then displayCount.value
      else if prior.Some? && prior.value.displayCount != 0 then prior.value.displayCount
      else |videos|;
    CacheEntry(videos, usedMock, apiError, count, Dedupe(shownIds + Ids(videos)), now)
  }

  /** A written entry is read back unchanged for thirty minutes, including at
      exactly thirty minutes, and is a miss from then on. */
  lemma WriteThenRead(prior: Option<CacheEntry>, videos: seq<Video>, usedMock: bool, apiError: Option<Reason>,
                      displayCount: Option<int>, shownIds: seq<VideoId>, now: int, later: int)
    ensures var e := WriteEntry(prior, videos, usedMock, apiError, displayCount, shownIds, now);
      && (later - now <= CacheDurationMs ==> ReadVideos(Some(e), later) == Some(videos))
      && (later - now > CacheDurationMs ==> ReadVideos(Some(e), later).None?)
  {}

  /** The shown ids passed in, when free of repeats, stay a prefix of the
      stored ones: the set only grows and earlier ids keep their place. */
  lemma ShownIdsExtend(prior: Option<CacheEntry>, videos: seq<Video>, usedMock: bool, apiError: Option<Reason>,
                       displayCount: Option<int>, shownIds: seq<VideoId>, now: int)
    requires NoDup(shownIds)
    ensures shownIds <= WriteEntry(prior, videos, usedMock, apiError, displayCount, shownIds, now).shownIds
  {
    DedupeOfNoDup(shownIds);
    DedupeKeepsPrefix(shownIds, Ids(videos));
  }
}
