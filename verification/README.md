# LunchTube core in Dafny

LunchTube is a browser extension. During a configured lunch window it shows a short list of videos from the user's YouTube subscriptions, ranked by engagement. If the live path yields nothing or fails, it shows a fixed pool of mock videos instead. A "refresh" button narrows the list by one video per press until one video is left. The popup then opens that video in a tab, unless it is a mock.

This project models the background worker's selection pipeline and session state (background.js), the cache clear on settings save (options/options.js), and the popup's pure helpers (popup/popup.js). Everything is pure functions over immutable data:

- **Storage** is an explicit `Worker.Store` record: the synced settings, the single `videoCache` slot and the watched-id list.
- **Messages** are functions from the store (plus the clock and the remote answers) to a new store and a reply.
- **The clock** is a parameter: the minute of the day, and milliseconds for cache timestamps.
- **The YouTube Data API** is a `YouTube.Remote` value holding the answers the HTTP calls would give: the token outcome, the subscriptions outcome, the uploads playlist of each channel, the items of each playlist, and the details of a batch of ids.

Modules follow the program's parts:

| module | part of the program |
|---|---|
| `Wrappers` | `Option` and `Result` |
| `Seqs` | `slice(0, n)`, `slice(-n)`, `Array.from(new Set(xs))` |
| `Text` | decimal numerals, `padStart`, `split(':')`, `includes`, `startsWith`, `toLowerCase` |
| `Scoring` | `engagementScore` as an exact fraction |
| `TimeWindow` | `isLunchTime`, `minutesUntilLunch` |
| `Duration` | `parseDurationToSeconds`, `formatDuration` |
| `Videos` | detail records, `isShort`, the eligibility filter, the detail-to-video map |
| `Ranking` | the stable descending sort, filter, map and slice of `fetchAndCacheVideos` |
| `YouTube` | the fetch stages and the error classifier |
| `Mock` | `getMockVideos` and the two degraded paths |
| `Cache` | `getCachedVideos`, `setCachedVideos` |
| `Watched` | `markVideoWatched` |
| `Worker` | the message handlers, the alarm, install, and settings save |
| `Popup` | `escapeHtml`, `scoreLabel`, the countdown, refresh-disable, auto-open, click marking, response unwrapping |
| `Session` | properties of whole sessions: the narrowing refresh loop, coherence of the store, get-state behaviour |

Scores are fractions `Score(num, den)` compared by cross-multiplication. The mock pool's decimal scores are written as thousandths.

The popup's refresh rules and the worker's shrinking count together form one "narrow down to one video" machine. `Session.RefreshRun` presses refresh once per remote answer. The lemmas about it show four things:

- the k-th press asks for `max(1, start - k)` videos;
- the button becomes disabled;
- shown ids only accumulate;
- no two replies of a run share an id;
- once the count reaches one, a live reply holds exactly one video, which the popup opens, and a degraded reply of mocks is never opened.

Where the repository's design description and its code differ, the model follows the code:

- **Refresh limit.** A refresh lowers the cached `displayCount` by one, never below one (background.js:436-437). There is no re-roll counter, and a refresh is never rejected.
- **Wait at the start minute.** `minutesUntilLunch` answers 1440, not 0, at the start minute itself (background.js:48-49).
- **Cache expiry.** `getCachedVideos` still hits an entry exactly thirty minutes old, and does not reject an empty list (background.js:56). `handleGetState` serves any stored non-empty list whatever its age (background.js:420-421).
- **Shown ids.** `setCachedVideos` does not merge the previous entry's `shownIds`. It stores the ids passed in plus the new videos' ids (background.js:63). A refresh passes the cached `shownIds` however old the entry is (background.js:438), and a get-state fetch passes none.
- **Fetch shape.** The fetch samples the first ten subscriptions, three uploads each, with at most fifty detail ids (background.js:304-311). There is no trending pool and no random date bound.

## Model

| member | source | states |
|---|---|---|
| Seqs.Take | background.js:340 | `slice(0, n)` keeps `min(n, length)` elements and is a prefix of its input |
| Seqs.TakeLast | background.js:186 | `slice(-n)` keeps the last `min(n, length)` elements |
| Seqs.Dedupe | background.js:63 | `Array.from(new Set(xs))` has no repeats, the same members as `xs`, and is no longer |
| Seqs.DedupeOfNoDup | background.js:186 | a list without repeats goes through the `Set` unchanged |
| Seqs.DedupeKeepsPrefix | background.js:63 | deduplicating `a + b` keeps deduplicated `a` as a prefix: earlier ids keep their place |
| Text.DecimalRoundTrip | background.js:137-139 | `parseInt` of `String(n)` is `n` |
| Text.Pad2RoundTrip | background.js:148-149 | below 100, `String(n).padStart(2, '0')` has exactly two digits and reads back as `n` |
| Text.SplitAtColon | background.js:35-36 | `split(':')` ends the first field at the first colon |
| Text.LowerFolds | background.js:163-164 | after `toLowerCase` no upper-case ASCII letter is left, every other character is kept, and lower-casing again changes nothing |
| Scoring.CommentWeighsTwoLikes | background.js:153-158 | one comment adds exactly as much to the score as two likes |
| Scoring.EngagementMonotone | background.js:153-158 | more likes or comments never lower the score; more views never raise it |
| Scoring.ZeroViewsCountAsOne | background.js:154-157 | zero views and missing views both divide by one |
| TimeWindow.FieldNumberReadsNumerals | background.js:35-36 | `Number` reads every decimal numeral back as its value, with or without a leading zero, and the empty field as 0 |
| TimeWindow.ClockTextRoundTrip | background.js:35-39 | `"HH:MM"` reads back as `HH * 60 + MM`, a minute of the day |
| TimeWindow.IsLunchTime | background.js:33-41 | true only when both settings parse and `start <= now < end` |
| TimeWindow.LunchWindowIsHalfOpen | background.js:33-41 | for well-formed settings, in the window iff `start <= now < end`; never when `start >= end` |
| TimeWindow.MinutesUntilLunch | background.js:43-50 | a number exactly when the start time parses |
| TimeWindow.MinutesUntilLunchIsNextStart | background.js:43-50 | the wait lies in 1..1440, the clock shows the start after that many minutes and at no earlier one, and it is 1440 at the start minute |
| TimeWindow.MinutesUntilLunchCountsDown | background.js:43-50 | `k` minutes later the wait is `k` minutes shorter, until the start |
| Duration.FindPT | background.js:135 | finds the leftmost "PT": an occurrence, with none before it, or none at all |
| Duration.DigitRun | background.js:135 | `\d+` takes the maximal run of digits |
| Duration.ParseDurationWithoutPT | background.js:135-136 | text without "PT" reads 0 seconds |
| Duration.DayPartReadsZero | background.js:134-141 | a duration with a day part, "P1DT2H30M", has no "PT" and reads 0 seconds |
| Duration.ParseIsoRoundTrip | background.js:134-141 | `PT{h}H{m}M{s}S`, any component optional, reads `h * 3600 + m * 60 + s` |
| Duration.FormatSecondsFields | background.js:143-150 | `h:mm:ss` from one hour on, else `m:ss`; the padded fields have two digits and read below 60 |
| Duration.FormatSecondsRoundTrip | background.js:143-150 | the formatted text reads back as the number of seconds |
| Videos.ShortTagsReduce | background.js:161-174 | a video is a Short iff it lasts 1..90 s, or its title has "#short"/"shorts", or its description has "#short" (the "#shorts" tests are implied) |
| Videos.EligibleBounds | background.js:318-325 | a video passing the filter lasts 91 s up to the ceiling and is neither watched nor excluded |
| Videos.RenderedDurationAgrees | background.js:334-335 | a fetched video's duration text reads back as its `durationSeconds` |
| Ranking.InsertAfterHigher | background.js:339 | insertion passes every strictly higher score and stops at the first one not higher |
| Ranking.SortByScoreSorted | background.js:339 | the sort is a permutation ordered by non-increasing score |
| Ranking.SortIsStable | background.js:339 | the videos of any one score keep their input order |
| Ranking.KeepEligibleIsFilter | background.js:318-325 | the filter goes detail by detail in the fetched order: it distributes over concatenation and keeps a single detail exactly when it is eligible |
| Ranking.RankedAreEligible | background.js:313-340 | the result has at most `count` videos, sorted by score, each built from an eligible fetched detail within the duration bounds and neither watched nor excluded |
| Ranking.TakeKeepsTheBest | background.js:340 | in a descending list, a video past the first `count` scores no higher than any within them |
| Ranking.RankKeepsTheBest | background.js:328-340 | an eligible video that was cut off scores no higher than any kept video |
| YouTube.RecentUploads | background.js:100-119 | at most three uploads per channel |
| YouTube.CollectUploads | background.js:304-308 | at most three ids per channel, each an upload of one of the given channels |
| YouTube.Orchestrate | background.js:298-311 | a token failure or a failed subscriptions call throws its message; success only past both |
| YouTube.RequestedIdsFromFirstChannels | background.js:304-311 | the requested ids are uploads of the first ten channels; at most thirty, so the cap of fifty never bites |
| YouTube.QuotaBound | background.js:298-311 | one run issues at most 22 Data API calls |
| YouTube.Classify | background.js:347-349 | "403" means the API is disabled; else "token" or "OAuth" means not authenticated; else unknown; never "no results" |
| YouTube.ClassifyKnownFailures | background.js:347-349 | a 403 from subscriptions is classified as disabled, a missing token as not authenticated |
| Mock.WithoutExcludedMembers | background.js:355-356 | the filter keeps exactly the mocks whose id is not excluded |
| Mock.WithoutExcludedSorted | background.js:355-356 | filtering keeps the score order |
| Mock.SortPoolShaped | background.js:294 | sorting ten videos with the pool's scores gives the pool order |
| Mock.MockPoolOrder | background.js:191-295 | `getMockVideos(20)` is the fixed pool order mock-5, mock-8, mock-3, ... |
| Mock.MockPoolIsSortedData | background.js:191-295 | the pool is the ten declared videos, highest score first |
| Mock.MockPoolEntries | background.js:191-295 | ten mocks, each with a "mock-" id and a length of 91 s to 20 min |
| Mock.MockFallbackShape | background.js:351-357 | the degraded list is a prefix of the filtered pool, of length `min(count, available)`, sorted, without excluded ids |
| Cache.IdsMembers | background.js:63 | an id is in `videos.map(v => v.id)` exactly when some video carries it |
| Cache.ReadVideos | background.js:53-58 | a miss iff there is no entry or it is more than thirty minutes old; a hit returns the stored videos |
| Cache.WriteEntry | background.js:60-75 | stores the given fields, the explicit count, and shown ids without repeats that are exactly the passed ids plus the videos' ids |
| Cache.WriteThenRead | background.js:53-75 | a written list reads back unchanged up to and including thirty minutes, then misses |
| Cache.ShownIdsExtend | background.js:60-75 | passed shown ids without repeats stay a prefix of the stored ones |
| Watched.MarkWatched | background.js:182-188 | the history stays within 500 ids without repeats, gains only the new id, and holds it when the old history fits |
| Watched.MarkWatchedOnHistory | background.js:182-188 | on a repeat-free history of at most 500 ids: a known id changes nothing; a new id is appended and drops the oldest when full |
| Watched.MarkWatchedKeepsShape | background.js:182-188 | the history keeps being repeat-free and within 500, holds the new id, and loses at most its oldest id |
| Worker.FetchAndCache | background.js:298-373 | the entry has at most `count` videos, the requested count, the current time and repeat-free shown ids; it is degraded exactly when it carries an error; a live entry is non-empty |
| Worker.FetchAndCacheContents | background.js:298-373 | no excluded id; sorted; shown ids are the excluded ids plus the new ones; live videos come from fetched details within the ceiling and not watched; degraded videos are the mock fallback with the classified reason or "no results" |
| Worker.GetState | background.js:412-430 | waiting iff outside the window, with the wait and an unchanged store; otherwise the reply is the stored entry's |
| Worker.Refresh | background.js:432-444 | asks for `max(1, current - 1)` videos, caches and returns them, at most that many |
| Worker.RefreshShownIds | background.js:432-444 | no returned id was shown before; the new shown ids are exactly the old ones plus the returned ones, without repeats |
| Worker.Alarm | background.js:382-390 | changes the store only inside the window, and leaves a readable cache there |
| Worker.Install | background.js:16-24 | keeps existing settings or stores the defaults, and always drops the cache |
| Worker.SaveSettings | options/options.js:84-94 | stores the new settings and drops the cache |
| Worker.MarkWatchedMessage | background.js:406-409 | updates only the watched list, keeps it within 500 ids, and records the id whenever the old history fits |
| Popup.EscapeAppend | popup/popup.js:124-130 | escaping distributes over concatenation |
| Popup.EscapeIsPerChar | popup/popup.js:124-130 | the four global replacements equal the per-character escape |
| Popup.EscapedHasNoMarkup | popup/popup.js:124-130 | escaped text has no raw `<`, `>` or `"` |
| Popup.EscapeKeepsPlainText | popup/popup.js:124-130 | text without special characters is unchanged |
| Popup.EscapeEachGrows | popup/popup.js:124-130 | escaping never shortens text and, given a special character, lengthens it and introduces an `&` |
| Popup.EscapeNotIdempotent | popup/popup.js:124-130 | escaping an escaped text with a special character changes it again |
| Popup.ScoreLabel | popup/popup.js:39-43 | "Muito popular" iff score > 0.06, "Popular" iff 0.04 < score <= 0.06, else "Em destaque" |
| Popup.CountdownTick | popup/popup.js:22-28 | `h * 60 + m = total`, `m < 60`, and the next total is one less, never below 0 |
| Popup.AfterTicksCountsDown | popup/popup.js:22-31 | after `k` ticks, `total - k` minutes are left, stopping at 0 |
| Popup.MockVideosStayUnmarked | popup/popup.js:103-107 | a mock is never marked watched and never auto-opened |
| Popup.UnwrapInvertsEncodings | popup/popup.js:146-153 | unwrapping recovers the list from a plain array and from an older cache record; a non-empty result comes from one of those two shapes only |
| Session.InstallIsCoherent | background.js:16-24 | the installed store is coherent |
| Session.FetchIsCoherent | background.js:342-372 | a fetched entry's shown ids are repeat-free and cover its videos |
| Session.HandlersKeepCoherent | background.js:382-444 | get-state, refresh, alarm, settings save and mark-watched keep the store coherent |
| Session.GetStateKeepsCoherent | background.js:412-430 | get-state keeps the store coherent |
| Session.RefreshKeepsCoherent | background.js:432-444 | refresh keeps the store coherent |
| Session.AlarmKeepsCoherent | background.js:382-390 | the alarm keeps the store coherent |
| Session.RefreshLowersCount | background.js:436-437 | one press lowers the start count by one, never below one, and returns at most that many videos |
| Session.RefreshNarrows | background.js:436-437 | refresh at any clock reading is a narrowing press |
| Session.RefreshExcludes | background.js:438-441 | refresh at any clock reading keeps shown ids and never returns one |
| Session.RunCountsDown | background.js:436-441 | for any narrowing press, the k-th reply asks for `max(1, start - k)` and gets at most that |
| Session.RunBatchesDisjoint | background.js:438-441 | for any excluding press, two replies of one run share no id |
| Session.RefreshRunLength | background.js:432-444 | one reply per press |
| Session.RefreshRunCountsDown | background.js:432-444 | the k-th refresh of a run asks for `max(1, start - k)` videos and gets at most that many |
| Session.RefreshButtonDisables | popup/popup.js:113-118 | after enough presses the last reply disables the refresh button |
| Session.RefreshRunKeepsShown | background.js:438-441 | shown ids only accumulate over a run |
| Session.RefreshRunAvoidsShown | background.js:438-441 | every press of a run gets a reply, and none of its videos has an id shown before the run |
| Session.RefreshBatchesDisjoint | background.js:438-441 | in a run, a later refresh never returns an id an earlier one returned |
| Session.RefreshAtOneOpens | popup/popup.js:177-188 | a refresh reply at count one holds exactly one video when live, opened iff its id is not a mock's; degraded mocks are never opened |
| Session.RunRepliesOpen | popup/popup.js:177-188 | for any press whose replies end the narrowing that way, every reply of a run does |
| Session.RefreshRunEndsInOpen | popup/popup.js:177-188 | after enough presses the last reply is at count one and ends the narrowing: one live video to open, or mocks that stay closed |
| Session.PopupRendersReply | popup/popup.js:146-153 | the popup renders exactly the list the worker's get-state or refresh reply carries |
| Session.RefreshAvoidsShownList | background.js:438-441 | in a coherent store a refresh never repeats a video on screen |
| Session.GetStateInWindowIsNonEmpty | background.js:412-430 | inside the window with a positive count, get-state always has at least one video |
| Session.GetStateServesStaleCache | background.js:417-422 | a stored non-empty list is served whatever its age or the remote, even once the cache read treats it as expired |
| Session.SaveThenGetStateFetches | options/options.js:92-93 | after a save, get-state inside the new window fetches afresh under the new count and ceiling |
| Session.AlarmKeepsFreshCache | background.js:384-388 | the alarm leaves a readable cache alone |
| Session.ClickedVideoNotReturnedNext | background.js:313-325 | after a click, the next live get-state fetch or refresh does not return that video |

## Left out

- The `chrome.*` APIs (storage, alarms, identity, runtime messaging, tabs): storage is the `Store` record and messages are function calls. The five-minute alarm is modelled only as its handler.
- `fetch`, the HTTP requests and URL building: the remote answers are the fields of `YouTube.Remote`, and a non-OK lookup is an empty list.
- `Promise.all`, async ordering and the unguarded races on the single cache slot: these are concurrency. Each handler runs atomically. The reply fields the source reads back from storage after a fetch are the fields of the entry that fetch wrote.
- `Date.now()` and `new Date()`: both are parameters. `setTimeout` and `setInterval` are left out, and the countdown is a sequence of ticks.
- `handleInteractiveAuth` and the AUTH_INTERACTIVE message: they only forward Chrome's interactive sign-in.
- `formatViewCount`, thumbnails and view texts: they use floating-point `toFixed` and are display-only.
- Rendering and DOM wiring: `renderVideos` markup, `showState`, the API error hint texts, all of options/options.js except its cache clear, and content/content.js.
- The reply's `settings` field. `handleGetState` also computes `minutesUntilLunch` inside the window, where the value is unused; only the waiting reply carries it here.
- Videos.Video: the duration badge is kept unrendered, as the ISO text of a fetched video or the given text of a mock, and `Videos.Render` produces the badge text. This is the same text the source stores. That the mock pool's badge texts ("12:34", ...) agree with their `durationSeconds` is not proved.
- YouTube.Orchestrate: a thrown error from a channels, playlist or details request (a rejected promise rather than a non-OK status) aborts the source's fetch. That path, which ends in the degraded list, is not modelled; only token and subscriptions failures throw.
- YouTube.Orchestrate: detail records are assumed well-formed. A record without a snippet or statistics would throw inside the map; such records are not modelled.
- TimeWindow.FieldNumber: `Number` is modelled on digit strings only (the empty field reads 0). Other numeric syntaxes such as " 12", "1e1" or "0x1" are read as NaN, although `Number` accepts them.
- Text.Lower: only ASCII letters are lower-cased, where `toLowerCase` folds all of Unicode.
- Scoring.EngagementMonotone: scores are exact fractions, while the source divides floating-point numbers. The order of two scores can differ when their doubles round to the same value.
- Counts are natural numbers, since the options page's range inputs give non-negative integers. `slice` with a negative or NaN count is not modelled. Integers are unbounded, while the source's numbers are doubles, exact only below 2^53.
