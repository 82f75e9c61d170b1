/** Video records and the per-video rules of the worker: the Shorts
    classifier (background.js `isShort`), the eligibility filter of
    `fetchAndCacheVideos` and the mapping of a detail record to the video the
    popup shows. */
module Videos {
  import opened Text
  import opened Scoring
  import opened Duration
  import opened Wrappers

  type VideoId = string

  /** One item of the video-details response. A missing duration is the empty
      text, which reads 0 seconds exactly as the source's fallback "PT0S" does. */
  datatype Detail = Detail(
    id: VideoId,
    title: string,
    description: string,
    channelTitle: string,
    duration: string,
    stats: Stats)

  /** The duration text of a video before it is rendered: a fetched video
      carries its ISO 8601 duration, which the worker formats with
      `formatDuration`; a mock carries its display text directly. */
  datatype DurationText = Iso(iso: string) | Shown(text: string)

  /** The text the popup shows in the duration badge. */
  function Render(t: DurationText): string {
    match t
    case Iso(iso) => FormatDuration(iso)
    case Shown(text) => text
  }

  /** A video as cached and shown: id, title, channel, duration text,
      duration in seconds and engagement score. */
  datatype Video = Video(
    id: VideoId,
    title: string,
    channel: string,
    duration: DurationText,
    durationSeconds: nat,
    score: Score)

  const ShortMaxSeconds: nat := 90

  function DurationSeconds(d: Detail): nat {
    ParseDuration(d.duration)
  }

  /** `isShort`: at most 90 seconds long (and not zero), or tagged as a Short in
      the lower-cased title ("#shorts", "#short", "shorts") or description
      ("#shorts", "#short"). */
  predicate IsShort(d: Detail) {
    var dur := DurationSeconds(d);
    var title := Lower(d.title);
    var desc := Lower(d.description);
    || (dur > 0 && dur <= ShortMaxSeconds)
    || Contains(title, "#shorts") || Contains(title, "#short") || Contains(title, "shorts")
    || Contains(desc, "#shorts") || Contains(desc, "#short")
  }

  /** The "#shorts" tests are implied by the "#short" tests, so a video is a
      Short exactly when it is 1..90 seconds long, its title holds "#short" or
      "shorts", or its description holds "#short". */
  lemma ShortTagsReduce(d: Detail)
    ensures IsShort(d) <==>
      || (0 < DurationSeconds(d) <= ShortMaxSeconds)
      || Contains(Lower(d.title), "#short") || Contains(Lower(d.title), "shorts")
      || Contains(Lower(d.description), "#short")
  {
    if Contains(Lower(d.title), "#shorts") {
      ContainsPrefixOfPattern(Lower(d.title), "#shorts", "#short");
    }
    if Contains(Lower(d.description), "#shorts") {
      ContainsPrefixOfPattern(Lower(d.description), "#shorts", "#short");
    }
  }

  /** The filter of `fetchAndCacheVideos`: a duration in 1..maxSeconds, not a
      Short, not watched and not shown earlier in the session. */
  predicate Eligible(d: Detail, maxSeconds: nat, watched: set<VideoId>, excluded: set<VideoId>) {
    var dur := DurationSeconds(d);
    && !(dur <= 0 || dur > maxSeconds)
    && !IsShort(d)
    && d.id !in watched
    && d.id !in excluded
  }

  /** An eligible video is longer than a Short can be and at most the ceiling. */
  lemma EligibleBounds(d: Detail, maxSeconds: nat, watched: set<VideoId>, excluded: set<VideoId>)
    requires Eligible(d, maxSeconds, watched, excluded)
    ensures ShortMaxSeconds < ToVideo(d).durationSeconds <= maxSeconds
    ensures ToVideo(d).id !in watched && ToVideo(d).id !in excluded
  {}

  /** The ranked video built from a detail record. */
  function ToVideo(d: Detail): Video {
    Video(d.id, d.title, d.channelTitle, Iso(d.duration), DurationSeconds(d), EngagementScore(d.stats))
  }

  /** The duration badge of a fetched video reads back as its duration in
      seconds: the two fields the worker derives from one ISO text agree. */
  lemma RenderedDurationAgrees(d: Detail)
    ensures ReadClockText(Render(ToVideo(d).duration)) == Some(ToVideo(d).durationSeconds)
  {
    FormatSecondsRoundTrip(DurationSeconds(d));
  }
}
