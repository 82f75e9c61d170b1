/** Filtering and ranking of the fetched details (background.js
    `fetchAndCacheVideos`, the filter/map/sort/slice chain). `Array.sort` is
    stable, so the ranking is a stable sort by descending score, here an
    insertion sort over sequences. */
module Ranking {
  import opened Seqs
  import opened Scoring
  import opened Videos

  /** Scores never increase along the sequence. */
  ghost predicate SortedDesc(s: seq<Video>) {
    forall i, j :: 0 <= i < j < |s| ==> AtMost(s[j].score, s[i].score)
  }

  /** Inserts `v` before the first video that scores no higher, so `v` stays
      behind every video with a strictly higher score. */
  function Insert(v: Video, s: seq<Video>): seq<Video>
    decreases |s|
  {
    if |s| == 0 then [v]
    else if AtMost(s[0].score, v.score) then [v] + s
    else [s[0]] + Insert(v, s[1..])
  }

  /** Insertion passes every video that scores strictly higher and stops at
      the first one that does not. */
  lemma {:induction false} InsertAfterHigher(v: Video, a: seq<Video>, b: seq<Video>)
    requires forall i :: 0 <= i < |a| ==> !AtMost(a[i].score, v.score)
    requires |b| > 0 ==> AtMost(b[0].score, v.score)
    ensures Insert(v, a + b) == a + [v] + b
    decreases |a|
  {
    if |a| == 0 {
      assert a + b == b;
    } else {
      assert (a + b)[0] == a[0] && (a + b)[1..] == a[1..] + b;
      InsertAfterHigher(v, a[1..], b);
      assert a + [v] + b == [a[0]] + (a[1..] + [v] + b);
    }
  }

  /** `videos.sort((a, b) => b.score - a.score)`. */
  function SortByScore(s: seq<Video>): seq<Video>
    decreases |s|
  {
    if |s| == 0 then [] else Insert(s[0], SortByScore(s[1..]))
  }

  /** Prepending a video that scores at least as high as every element keeps
      a list descending. */
  lemma PrependSorted(v: Video, s: seq<Video>)
    requires SortedDesc(s)
    requires forall j :: 0 <= j < |s| ==> AtMost(s[j].score, v.score)
    ensures SortedDesc([v] + s)
  {
    var r := [v] + s;
    forall i, j | 0 <= i < j < |r| ensures AtMost(r[j].score, r[i].score) {
      if i > 0 {
        assert r[i] == s[i - 1] && r[j] == s[j - 1];
      } else {
        assert r[j] == s[j - 1];
      }
    }
  }

  /** Insertion into a descending list keeps it descending and adds exactly `v`. */
  lemma {:induction false} InsertSorted(v: Video, s: seq<Video>)
    requires SortedDesc(s)
    ensures SortedDesc(Insert(v, s))
    ensures multiset(Insert(v, s)) == multiset(s) + multiset{v}
    decreases |s|
  {
    if |s| == 0 {
      assert Insert(v, s) == [v];
    } else if AtMost(s[0].score, v.score) {
      assert Insert(v, s) == [v] + s;
      forall j | 0 <= j < |s| ensures AtMost(s[j].score, v.score) {
        if j > 0 {
          AtMostTransitive(s[j].score, s[0].score, v.score);
        }
      }
      PrependSorted(v, s);
    } else {
      var tail := s[1..];
      var rest := Insert(v, tail);
      assert Insert(v, s) == [s[0]] + rest;
      assert s == [s[0]] + tail;
      assert SortedDesc(tail);
      InsertSorted(v, tail);
      forall j | 0 <= j < |rest| ensures AtMost(rest[j].score, s[0].score) {
        assert rest[j] in multiset(rest);
        if rest[j] != v {
          assert rest[j] in multiset(tail);
          var k :| 0 <= k < |tail| && tail[k] == rest[j];
          assert s[k + 1] == rest[j];
        }
      }
      PrependSorted(s[0], rest);
    }
  }

  /** The ranking is a permutation of its input, highest score first. */
  lemma {:induction false} SortByScoreSorted(s: seq<Video>)
    ensures SortedDesc(SortByScore(s))
    ensures multiset(SortByScore(s)) == multiset(s)
    ensures |SortByScore(s)| == |s|
    decreases |s|
  {
    if |s| > 0 {
      assert s == [s[0]] + s[1..];
      SortByScoreSorted(s[1..]);
      InsertSorted(s[0], SortByScore(s[1..]));
      assert |multiset(SortByScore(s))| == |multiset(s)|;
    }
  }

  /** The videos whose score equals `q`, in order. */
  function WithScore(s: seq<Video>, q: Score): seq<Video>
    decreases |s|
  {
    if |s| == 0 then []
    else if SameScore(s[0].score, q) then [s[0]] + WithScore(s[1..], q)
    else WithScore(s[1..], q)
  }

  lemma {:induction false} InsertKeepsTies(v: Video, s: seq<Video>, q: Score)
    ensures WithScore(Insert(v, s), q) ==
      (if SameScore(v.score, q) then [v] + WithScore(s, q) else WithScore(s, q))
    decreases |s|
  {
    if |s| == 0 {
      assert Insert(v, s) == [v];
      assert WithScore([v], q) == (if SameScore(v.score, q) then [v] + WithScore([], q) else WithScore([], q));
    } else if AtMost(s[0].score, v.score) {
      assert Insert(v, s) == [v] + s;
      assert ([v] + s)[1..] == s;
    } else {
      var rest := Insert(v, s[1..]);
      assert Insert(v, s) == [s[0]] + rest;
      assert ([s[0]] + rest)[1..] == rest;
      InsertKeepsTies(v, s[1..], q);
      if SameScore(v.score, q) && SameScore(s[0].score, q) {
        SameScoreTransitive(s[0].score, q, v.score);
        assert false;
      }
    }
  }

  /** The sort is stable: the videos of any one score keep their input order. */
  lemma {:induction false} SortIsStable(s: seq<Video>, q: Score)
    ensures WithScore(SortByScore(s), q) == WithScore(s, q)
    decreases |s|
  {
    if |s| > 0 {
      SortIsStable(s[1..], q);
      InsertKeepsTies(s[0], SortByScore(s[1..]), q);
    }
  }

  /** `details.filter(...)` with the eligibility test. */
  function KeepEligible(ds: seq<Detail>, maxSeconds: nat, watched: set<VideoId>, excluded: set<VideoId>): (r: seq<Detail>)
    ensures forall d :: d in r <==> d in ds && Eligible(d, maxSeconds, watched, excluded)
    decreases |ds|
  {
    if |ds| == 0 then []
    else
      var rest := KeepEligible(ds[1..], maxSeconds, watched, excluded);
      assert forall d :: d in ds <==> d == ds[0] || d in ds[1..];
      if Eligible(ds[0], maxSeconds, watched, excluded) then [ds[0]] + rest else rest
  }

  /** The filter works detail by detail, in the fetched order: it
      distributes over concatenation and keeps one detail exactly when it is
      eligible. Order and repeats of the kept details are those of the input. */
  lemma {:induction false} KeepEligibleIsFilter(a: seq<Detail>, b: seq<Detail>, maxSeconds: nat,
                                                watched: set<VideoId>, excluded: set<VideoId>)
    ensures KeepEligible(a + b, maxSeconds, watched, excluded)
         == KeepEligible(a, maxSeconds, watched, excluded) + KeepEligible(b, maxSeconds, watched, excluded)
    ensures |a| == 1 ==>
      KeepEligible(a, maxSeconds, watched, excluded) == if Eligible(a[0], maxSeconds, watched, excluded) then a else []
    decreases |a|
  {
    if |a| == 0 {
      assert a + b == b;
    } else {
      assert (a + b)[0] == a[0] && (a + b)[1..] == a[1..] + b;
      KeepEligibleIsFilter(a[1..], b, maxSeconds, watched, excluded);
      if |a| == 1 {
        assert a[1..] == [];
      }
    }
  }

  /** `.map(...)` to ranked videos. */
  function ToVideos(ds: seq<Detail>): (r: seq<Video>)
    ensures |r| == |ds|
    ensures forall i :: 0 <= i < |ds| ==> r[i] == ToVideo(ds[i])
  {
    seq(|ds|, i requires 0 <= i < |ds| => ToVideo(ds[i]))
  }

  /** The ranking chain: filter, map, sort by score, keep the first `count`. */
  function Rank(ds: seq<Detail>, maxSeconds: nat, watched: set<VideoId>, excluded: set<VideoId>, count: nat): seq<Video> {
    Take(SortByScore(ToVideos(KeepEligible(ds, maxSeconds, watched, excluded))), count)
  }

  /** Every ranked video is built from an eligible fetched detail: longer than
      a Short, at most the ceiling, not a Short, neither watched nor excluded;
      the list is ordered by score and holds at most `count` videos. */
  lemma RankedAreEligible(ds: seq<Detail>, maxSeconds: nat, watched: set<VideoId>, excluded: set<VideoId>, count: nat)
    ensures |Rank(ds, maxSeconds, watched, excluded, count)| <= count
    ensures SortedDesc(Rank(ds, maxSeconds, watched, excluded, count))
    ensures forall v :: v in Rank(ds, maxSeconds, watched, excluded, count) ==>
      (exists d :: d in ds && Eligible(d, maxSeconds, watched, excluded) && v == ToVideo(d))
    ensures forall v :: v in Rank(ds, maxSeconds, watched, excluded, count) ==>
      ShortMaxSeconds < v.durationSeconds <= maxSeconds && v.id !in watched && v.id !in excluded
  {
    var kept := KeepEligible(ds, maxSeconds, watched, excluded);
    var vs := ToVideos(kept);
    var sorted := SortByScore(vs);
    SortByScoreSorted(vs);
    var r := Take(sorted, count);
    assert r == Rank(ds, maxSeconds, watched, excluded, count);
    forall v | v in r
      ensures exists d :: d in ds && Eligible(d, maxSeconds, watched, excluded) && v == ToVideo(d)
      ensures ShortMaxSeconds < v.durationSeconds <= maxSeconds && v.id !in watched && v.id !in excluded
    {
      assert v in sorted;
      assert v in multiset(sorted);
      assert v in multiset(vs);
      var i :| 0 <= i < |vs| && vs[i] == v;
      assert kept[i] in kept;
      EligibleBounds(kept[i], maxSeconds, watched, excluded);
    }
    assert SortedDesc(r) by {
      forall i, j | 0 <= i < j < |r| ensures AtMost(r[j].score, r[i].score) {
        assert r[i] == sorted[i] && r[j] == sorted[j];
      }
    }
  }

  /** In a descending list, anything past the first `count` scores no higher
      than anything within them. */
  lemma TakeKeepsTheBest(sorted: seq<Video>, count: nat, x: Video, w: Video)
    requires SortedDesc(sorted)
    requires x in sorted && x !in Take(sorted, count) && w in Take(sorted, count)
    ensures AtMost(x.score, w.score)
  {
    var r := Take(sorted, count);
    var j :| 0 <= j < |sorted| && sorted[j] == x;
    var i :| 0 <= i < |r| && r[i] == w;
    assert sorted[i] == w;
    assert j >= |r|;
  }

  /** Every eligible fetched detail is among the videos handed to the sort. */
  lemma EligibleIsMapped(ds: seq<Detail>, maxSeconds: nat, watched: set<VideoId>, excluded: set<VideoId>, d: Detail)
    requires d in ds && Eligible(d, maxSeconds, watched, excluded)
    ensures ToVideo(d) in ToVideos(KeepEligible(ds, maxSeconds, watched, excluded))
  {
    var kept := KeepEligible(ds, maxSeconds, watched, excluded);
    var k :| 0 <= k < |kept| && kept[k] == d;
    assert ToVideos(kept)[k] == ToVideo(d);
  }

  /** The ranking keeps the best: every eligible fetched video that was cut
      off scores no higher than any video that was kept. */
  lemma RankKeepsTheBest(ds: seq<Detail>, maxSeconds: nat, watched: set<VideoId>, excluded: set<VideoId>, count: nat)
    ensures var r := Rank(ds, maxSeconds, watched, excluded, count);
      forall d, w :: d in ds && Eligible(d, maxSeconds, watched, excluded) && ToVideo(d) !in r && w in r ==>
        AtMost(ToVideo(d).score, w.score)
  {
    var vs := ToVideos(KeepEligible(ds, maxSeconds, watched, excluded));
    var sorted := SortByScore(vs);
    SortByScoreSorted(vs);
    var r := Take(sorted, count);
    forall d, w | d in ds && Eligible(d, maxSeconds, watched, excluded) && ToVideo(d) !in r && w in r
      ensures AtMost(ToVideo(d).score, w.score)
    {
      EligibleIsMapped(ds, maxSeconds, watched, excluded, d);
      assert ToVideo(d) in multiset(vs);
      assert ToVideo(d) in multiset(sorted);
      TakeKeepsTheBest(sorted, count, ToVideo(d), w);
    }
  }
}
