/** The fetch shape of `fetchAndCacheVideos` (background.js) over the YouTube
    Data API, with the HTTP calls replaced by the values they would return:
    the OAuth token outcome, the subscriptions outcome, and per-call lookups
    that yield an empty list on any non-OK response. Also the classifier that
    turns a thrown error message into the cached error reason. */
module YouTube {
  import opened Wrappers
  import opened Seqs
  import opened Text
  import opened Videos

  type ChannelId = string
  type PlaylistId = string

  const SampledChannels: nat := 10
  const UploadsPerChannel: nat := 3
  const DetailsBatch: nat := 50

  /** Why `getAuthToken` rejects: Chrome's `lastError`, or no token at all. */
  datatype AuthFailure = LastError(message: string) | NoToken

  /** Why `fetchSubscriptions` throws: a non-OK status, or a rejected request. */
  datatype SubscriptionsFailure = HttpStatus(status: nat) | Rejected(message: string)

  /** What the remote side answers. `uploadsPlaylist` is `None` when the
      channels call is not OK or names no uploads playlist; `playlistItems`
      lists a playlist newest first ([] when that call is not OK);
      `videoDetails` is the items of one batched details call ([] when not OK). */
  datatype Remote = Remote(
    auth: Option<AuthFailure>,
    subscriptions: Result<seq<ChannelId>, SubscriptionsFailure>,
    uploadsPlaylist: ChannelId -> Option<PlaylistId>,
    playlistItems: PlaylistId -> seq<VideoId>,
    videoDetails: seq<VideoId> -> seq<Detail>)

  /** The `message` of the error each failure throws. */
  function AuthMessage(f: AuthFailure): string {
    match f
    case LastError(m) => m
    case NoToken => "No token"
  }

  function SubscriptionsMessage(f: SubscriptionsFailure): string {
    match f
    case HttpStatus(s) => "Subscriptions API error: " + Decimal(s)
    case Rejected(m) => m
  }

  /** `fetchRecentVideosFromChannel(token, id, 3)`: the first three items of the
      channel's uploads playlist, or nothing. */
  function RecentUploads(api: Remote, c: ChannelId): (r: seq<VideoId>)
    ensures |r| <= UploadsPerChannel
  {
    match api.uploadsPlaylist(c)
    case None => []
    case Some(p) => Take(api.playlistItems(p), UploadsPerChannel)
  }

  /** `videoIdArrays.flat()` over the given channels, in channel order. */
  function CollectUploads(api: Remote, cs: seq<ChannelId>): (r: seq<VideoId>)
    ensures |r| <= UploadsPerChannel * |cs|
    ensures forall id :: id in r ==> exists c :: c in cs && id in RecentUploads(api, c)
    decreases |cs|
  {
    if |cs| == 0 then []
    else
      var rest := CollectUploads(api, cs[1..]);
      assert forall c :: c in cs[1..] ==> c in cs;
      RecentUploads(api, cs[0]) + rest
  }

  /** `fetchVideoDetails`: no call at all for an empty id list. */
  function FetchDetails(api: Remote, ids: seq<VideoId>): seq<Detail> {
    if |ids| == 0 then [] else api.videoDetails(ids)
  }

  /** The ids whose details are requested: uploads of the first ten
      subscriptions, at most fifty of them. */
  function RequestedIds(api: Remote, channels: seq<ChannelId>): seq<VideoId> {
    Take(CollectUploads(api, Take(channels, SampledChannels)), DetailsBatch)
  }

  /** The fetch stages of `fetchAndCacheVideos`: token, subscriptions, the
      first ten channels' three latest uploads, one batched details call.
      A failing token or subscriptions call throws its message. */
  function Orchestrate(api: Remote): (r: Result<seq<Detail>, string>)
    ensures api.auth.Some? ==> r == Failure(AuthMessage(api.auth.value))
    ensures api.auth.None? && api.subscriptions.Failure? ==> r == Failure(SubscriptionsMessage(api.subscriptions.error))
    ensures r.Success? ==> api.auth.None? && api.subscriptions.Success?
  {
    if api.auth.Some? then Failure(AuthMessage(api.auth.value))
    else
      match api.subscriptions
      case Failure(f) => Failure(SubscriptionsMessage(f))
      case Success(channels) => Success(FetchDetails(api, RequestedIds(api, channels)))
  }

  /** The cap of fifty ids never bites: ten channels of three uploads give at
      most thirty ids, every one an upload of one of the first ten channels. */
  lemma RequestedIdsFromFirstChannels(api: Remote, channels: seq<ChannelId>)
    ensures RequestedIds(api, channels) == CollectUploads(api, Take(channels, SampledChannels))
    ensures |RequestedIds(api, channels)| <= SampledChannels * UploadsPerChannel
    ensures forall id :: id in RequestedIds(api, channels) ==>
      exists i :: 0 <= i < |channels| && i < SampledChannels && id in RecentUploads(api, channels[i])
  {
    var sample := Take(channels, SampledChannels);
    var ids := CollectUploads(api, sample);
    assert |ids| <= UploadsPerChannel * |sample|;
    forall id | id in ids
      ensures exists i :: 0 <= i < |channels| && i < SampledChannels && id in RecentUploads(api, channels[i])
    {
      var c :| c in sample && id in RecentUploads(api, c);
      var i :| 0 <= i < |sample| && sample[i] == c;
      assert channels[i] == c;
    }
  }

  /** Remote calls one run issues: subscriptions, then per sampled channel one
      channels call plus one playlist call when an uploads playlist was found,
      then one details call when there is at least one id. The token request
      is not a Data API call. */
  function QuotaCalls(api: Remote): nat {
    if api.auth.Some? then 0
    else
      match api.subscriptions
      case Failure(_) => 1
      case Success(channels) =>
        var sample := Take(channels, SampledChannels);
        1 + ChannelCalls(api, sample) + (if |RequestedIds(api, channels)| == 0 then 0 else 1)
  }

  function ChannelCalls(api: Remote, cs: seq<ChannelId>): nat
    decreases |cs|
  {
    if |cs| == 0 then 0
    else (if api.uploadsPlaylist(cs[0]).Some? then 2 else 1) + ChannelCalls(api, cs[1..])
  }

  lemma {:induction false} ChannelCallsBound(api: Remote, cs: seq<ChannelId>)
    ensures |cs| <= ChannelCalls(api, cs) <= 2 * |cs|
    decreases |cs|
  {
    if |cs| > 0 {
      ChannelCallsBound(api, cs[1..]);
    }
  }

  /** One run issues at most 1 + 2 * 10 + 1 = 22 Data API calls, whatever the
      remote answers. */
  lemma QuotaBound(api: Remote)
    ensures QuotaCalls(api) <= 1 + 2 * SampledChannels + 1
  {
    if api.auth.None? && api.subscriptions.Success? {
      ChannelCallsBound(api, Take(api.subscriptions.value, SampledChannels));
    }
  }

  /** The error reason stored beside degraded results. */
  datatype Reason = YoutubeApiDisabled | NotAuthenticated | UnknownError | NoResults

  /** The reason for a thrown error: "403" in the message means the API is
      disabled; otherwise "token" or "OAuth" means not authenticated;
      otherwise unknown. */
  function Classify(message: string): (r: Reason)
    ensures r == YoutubeApiDisabled <==> Contains(message, "403")
    ensures r == NotAuthenticated <==>
      !Contains(message, "403") && (Contains(message, "token") || Contains(message, "OAuth"))
    ensures r != NoResults
  {
    if Contains(message, "403") then YoutubeApiDisabled
    else if Contains(message, "token") || Contains(message, "OAuth") then NotAuthenticated
    else UnknownError
  }

  /** A refused subscriptions call with status 403 is classified as the API
      being disabled, and a missing token as not authenticated. */
  lemma ClassifyKnownFailures()
    ensures Classify(SubscriptionsMessage(HttpStatus(403))) == YoutubeApiDisabled
    ensures Classify(AuthMessage(NoToken)) == NotAuthenticated
  {
    var m := SubscriptionsMessage(HttpStatus(403));
    assert Decimal(403) == "403" by {
      assert Decimal(40) == "40";
    }
    assert OccursAt(m, "403", 25);
    var t := AuthMessage(NoToken);
    assert OccursAt(t, "token", 3);
    MissingFirstChar(t, "403");
  }
}
