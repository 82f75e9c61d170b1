/** Pure helpers of the popup (popup/popup.js): HTML escaping, the score
    label, the countdown arithmetic, the refresh-button and auto-open rules,
    the MARK_WATCHED rule for clicks and the unwrapping of the video list. */
module Popup {
  import opened Wrappers
  import opened Text
  import opened Scoring
  import opened Videos
  import opened Mock

  // ---- escapeHtml ----

  /** `str.replace(/c/g, rep)` for a single-character pattern. */
  function ReplaceChar(s: string, c: char, rep: string): string
    decreases |s|
  {
    if |s| == 0 then []
    else (if s[0] == c then rep else [s[0]]) + ReplaceChar(s[1..], c, rep)
  }

  /** `escapeHtml`: the four global replacements, applied in source order. */
  function EscapeHtml(s: string): string {
    QuotPass(GtPass(LtPass(AmpPass(s))))
  }

  /** The escape of one character on its own. */
  function EscapeChar(c: char): string {
    if c == '&' then "&amp;"
    else if c == '<' then "&lt;"
    else if c == '>' then "&gt;"
    else if c == '"' then "&quot;"
    else [c]
  }

  /** Escaping character by character. */
  function EscapeEach(s: string): string
    decreases |s|
  {
    if |s| == 0 then [] else EscapeChar(s[0]) + EscapeEach(s[1..])
  }

  lemma {:induction false} ReplaceCharAppend(a: string, b: string, c: char, rep: string)
    ensures ReplaceChar(a + b, c, rep) == ReplaceChar(a, c, rep) + ReplaceChar(b, c, rep)
    decreases |a|
  {
    if |a| == 0 {
      assert a + b == b;
    } else {
      assert (a + b)[1..] == a[1..] + b;
      ReplaceCharAppend(a[1..], b, c, rep);
    }
  }

  lemma EscapeAppend(a: string, b: string)
    ensures EscapeHtml(a + b) == EscapeHtml(a) + EscapeHtml(b)
  {
    ReplaceCharAppend(a, b, '&', "&amp;");
    var a1, b1 := ReplaceChar(a, '&', "&amp;"), ReplaceChar(b, '&', "&amp;");
    ReplaceCharAppend(a1, b1, '<', "&lt;");
    var a2, b2 := ReplaceChar(a1, '<', "&lt;"), ReplaceChar(b1, '<', "&lt;");
    ReplaceCharAppend(a2, b2, '>', "&gt;");
    var a3, b3 := ReplaceChar(a2, '>', "&gt;"), ReplaceChar(b2, '>', "&gt;");
    ReplaceCharAppend(a3, b3, '"', "&quot;");
  }

  lemma ReplaceSingle(c: char, d: char, rep: string)
    ensures ReplaceChar([c], d, rep) == if c == d then rep else [c]
  {
    assert [c][1..] == [];
  }

  /** The four passes, named so that each step can be stated on its own. */
  function AmpPass(s: string): string { ReplaceChar(s, '&', "&amp;") }
  function LtPass(s: string): string { ReplaceChar(s, '<', "&lt;") }
  function GtPass(s: string): string { ReplaceChar(s, '>', "&gt;") }
  function QuotPass(s: string): string { ReplaceChar(s, '"', "&quot;") }

  /** Replacing a character that does not occur changes nothing. */
  lemma {:induction false} ReplaceAbsent(s: string, c: char, rep: string)
    requires c !in s
    ensures ReplaceChar(s, c, rep) == s
    decreases |s|
  {
    if |s| > 0 {
      assert c !in s[1..];
      ReplaceAbsent(s[1..], c, rep);
      assert [s[0]] + s[1..] == s;
    }
  }

  lemma EscapeAmp()
    ensures EscapeHtml("&") == "&amp;"
  {
    var t := "&amp;";
    assert '<' !in t && '>' !in t && '"' !in t;
    ReplaceSingle('&', '&', t);
    ReplaceAbsent(t, '<', "&lt;");
    ReplaceAbsent(t, '>', "&gt;");
    ReplaceAbsent(t, '"', "&quot;");
  }

  lemma EscapeLt()
    ensures EscapeHtml("<") == "&lt;"
  {
    ReplaceSingle('<', '&', "&amp;");
    ReplaceSingle('<', '<', "&lt;");
  }

  lemma EscapeGt()
    ensures EscapeHtml(">") == "&gt;"
  {
    ReplaceSingle('>', '&', "&amp;");
    ReplaceSingle('>', '<', "&lt;");
    ReplaceSingle('>', '>', "&gt;");
  }

  lemma EscapeQuot()
    ensures EscapeHtml("\"") == "&quot;"
  {
    ReplaceSingle('"', '&', "&amp;");
    ReplaceSingle('"', '<', "&lt;");
    ReplaceSingle('"', '>', "&gt;");
    ReplaceSingle('"', '"', "&quot;");
  }

  lemma EscapePlain(c: char)
    requires c != '&' && c != '<' && c != '>' && c != '"'
    ensures EscapeHtml([c]) == [c]
  {
    ReplaceSingle(c, '&', "&amp;");
    ReplaceSingle(c, '<', "&lt;");
    ReplaceSingle(c, '>', "&gt;");
    ReplaceSingle(c, '"', "&quot;");
  }

  lemma EscapeOneChar(c: char)
    ensures EscapeHtml([c]) == EscapeChar(c)
  {
    if c == '&' {
      EscapeAmp();
    } else if c == '<' {
      EscapeLt();
    } else if c == '>' {
      EscapeGt();
    } else if c == '"' {
      EscapeQuot();
    } else {
      EscapePlain(c);
    }
  }

  /** The chain of replacements equals escaping each character on its own:
      the entities introduced by one replacement are never touched by a later
      one, because `&` is replaced first. */
  lemma {:induction false} EscapeIsPerChar(s: string)
    ensures EscapeHtml(s) == EscapeEach(s)
    decreases |s|
  {
    if |s| > 0 {
      assert s == [s[0]] + s[1..];
      EscapeAppend([s[0]], s[1..]);
      EscapeOneChar(s[0]);
      EscapeIsPerChar(s[1..]);
    }
  }

  /** Character-by-character escaping leaves no raw `<`, `>` or `"`. */
  lemma {:induction false} EachHasNoMarkup(s: string)
    ensures '<' !in EscapeEach(s) && '>' !in EscapeEach(s) && '"' !in EscapeEach(s)
    decreases |s|
  {
    if |s| > 0 {
      EachHasNoMarkup(s[1..]);
      var head, rest := EscapeChar(s[0]), EscapeEach(s[1..]);
      assert '<' !in head && '>' !in head && '"' !in head;
      assert EscapeEach(s) == head + rest;
    }
  }

  /** The escaped text holds no raw `<`, `>` or `"`. */
  lemma EscapedHasNoMarkup(s: string)
    ensures '<' !in EscapeHtml(s) && '>' !in EscapeHtml(s) && '"' !in EscapeHtml(s)
  {
    EscapeIsPerChar(s);
    EachHasNoMarkup(s);
  }

  predicate IsSpecial(c: char) {
    c == '&' || c == '<' || c == '>' || c == '"'
  }

  /** Text without any of the four special characters is left as it is. */
  lemma {:induction false} EscapeKeepsPlainText(s: string)
    requires forall i :: 0 <= i < |s| ==> !IsSpecial(s[i])
    ensures EscapeHtml(s) == s
    decreases |s|
  {
    if |s| > 0 {
      assert s == [s[0]] + s[1..];
      EscapeAppend([s[0]], s[1..]);
      EscapePlain(s[0]);
      EscapeKeepsPlainText(s[1..]);
    }
  }

  /** Escaping never shortens the text; once a special character is present
      it lengthens it and the result holds an `&`. */
  lemma {:induction false} EscapeEachGrows(s: string)
    ensures |EscapeEach(s)| >= |s|
    ensures (exists i :: 0 <= i < |s| && IsSpecial(s[i])) ==> |EscapeEach(s)| > |s| && '&' in EscapeEach(s)
    decreases |s|
  {
    if |s| > 0 {
      EscapeEachGrows(s[1..]);
      var head, rest := EscapeChar(s[0]), EscapeEach(s[1..]);
      assert EscapeEach(s) == head + rest;
      if IsSpecial(s[0]) {
        assert head[0] == '&' && |head| > 1;
        assert EscapeEach(s)[0] == '&';
      } else if exists i :: 0 <= i < |s| && IsSpecial(s[i]) {
        var i :| 0 <= i < |s| && IsSpecial(s[i]);
        assert s[1..][i - 1] == s[i];
        var k :| 0 <= k < |rest| && rest[k] == '&';
        assert EscapeEach(s)[|head| + k] == '&';
      }
    }
  }

  /** Escaping is not idempotent: text with a special character changes again
      when its escaped form is escaped (`&` becomes `&amp;`, then `&amp;amp;`). */
  lemma EscapeNotIdempotent(s: string)
    requires exists i :: 0 <= i < |s| && IsSpecial(s[i])
    ensures |EscapeHtml(s)| > |s|
    ensures |EscapeHtml(EscapeHtml(s))| > |EscapeHtml(s)|
  {
    var t := EscapeHtml(s);
    EscapeIsPerChar(s);
    EscapeEachGrows(s);
    var k :| 0 <= k < |t| && t[k] == '&';
    assert IsSpecial(t[k]);
    EscapeIsPerChar(t);
    EscapeEachGrows(t);
  }

  // ---- scoreLabel ----

  datatype Label = VeryPopular | Popular | Featured

  /** The label text shown beside the score dot. */
  function LabelText(l: Label): string {
    match l
    case VeryPopular => "Muito popular"
    case Popular => "Popular"
    case Featured => "Em destaque"
  }

  /** `scoreLabel`: above 0.06 very popular, above 0.04 popular, else featured.
      Both thresholds are strict. */
  function ScoreLabel(score: Score): (l: Label)
    ensures l == VeryPopular <==> 100 * score.num > 6 * score.den
    ensures l == Popular <==> 4 * score.den < 100 * score.num <= 6 * score.den
    ensures l == Featured <==> 100 * score.num <= 4 * score.den
  {
    if !AtMost(score, Score(6, 100)) then VeryPopular
    else if !AtMost(score, Score(4, 100)) then Popular
    else Featured
  }

  // ---- countdown ----

  /** One `update()` of the countdown: the hours and minutes shown, and the
      remaining minutes afterwards. */
  datatype Tick = Tick(hours: nat, minutes: nat, next: nat)

  function CountdownTick(total: nat): (t: Tick)
    ensures t.hours * 60 + t.minutes == total && t.minutes < 60
    ensures t.next == if total > 0 then total - 1 else 0
  {
    Tick(total / 60, total % 60, if total > 0 then total - 1 else 0)
  }

  /** The "HH" and "MM" texts of the countdown. */
  function CountdownText(t: Tick): (string, string) {
    (Pad2(t.hours), Pad2(t.minutes))
  }

  /** After `k` ticks the countdown has `total - k` minutes left, and stops at 0. */
  function AfterTicks(total: nat, k: nat): nat
    decreases k
  {
    if k == 0 then total else AfterTicks(CountdownTick(total).next, k - 1)
  }

  lemma {:induction false} AfterTicksCountsDown(total: nat, k: nat)
    ensures AfterTicks(total, k) == if k <= total then total - k else 0
    decreases k
  {
    if k > 0 {
      AfterTicksCountsDown(CountdownTick(total).next, k - 1);
    }
  }

  // ---- refresh button, auto-open, clicks ----

  /** `displayCount !== undefined && displayCount <= 1`. */
  predicate RefreshDisabled(displayCount: Option<int>) {
    displayCount.Some? && displayCount.value <= 1
  }

  predicate IsMockId(id: VideoId) {
    StartsWith(id, MockPrefix)
  }

  /** The refresh reply opens its video in a tab exactly when it holds one
      video that is not a mock. */
  predicate AutoOpens(videos: seq<Video>) {
    |videos| == 1 && !IsMockId(videos[0].id)
  }

  /** A click sends MARK_WATCHED only for real video ids. */
  predicate ClickMarksWatched(id: VideoId) {
    !IsMockId(id)
  }

  /** Mock entries are never opened automatically and never marked watched. */
  lemma MockVideosStayUnmarked(v: Video)
    requires v in MockPool
    ensures !ClickMarksWatched(v.id)
    ensures !AutoOpens([v])
  {
    MockPoolEntries();
  }

  // ---- loadState's unwrapping ----

  /** The shapes the reply's `videos` field can take: an array, an older
      cache record `{ videos: ... }`, or anything else. */
  datatype VideosField = Array(items: seq<Video>) | Record(inner: Option<VideosField>) | Other

  /** The two shapes a list of videos arrives in: the array the worker sends,
      or an older cache record wrapping it. */
  function Encode(vs: seq<Video>, legacy: bool): VideosField {
    if legacy then Record(Some(Array(vs))) else Array(vs)
  }

  /** An array is used as is; a record whose `videos` is an array yields that
      array; anything else yields the empty list. */
  function UnwrapVideos(f: VideosField): (r: seq<Video>)
    ensures f.Array? ==> r == f.items
    ensures f.Record? && f.inner.Some? && f.inner.value.Array? ==> r == f.inner.value.items
    ensures f.Other? || (f.Record? && (f.inner.None? || !f.inner.value.Array?)) ==> r == []
  {
    match f
    case Array(vs) => vs
    case Record(Some(Array(vs))) => vs
    case _ => []
  }

  /** Unwrapping recovers the list from either shape, and a non-empty result
      comes from one of the two shapes only. */
  lemma UnwrapInvertsEncodings(f: VideosField)
    ensures forall vs: seq<Video>, legacy: bool :: UnwrapVideos(Encode(vs, legacy)) == vs
    ensures |UnwrapVideos(f)| > 0 ==> f == Encode(UnwrapVideos(f), false) || f == Encode(UnwrapVideos(f), true)
  {
  }
}
