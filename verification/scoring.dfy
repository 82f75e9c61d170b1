/** Engagement score (background.js `engagementScore`). The source divides
    floating-point numbers; here a score is an exact fraction, compared by
    cross-multiplication. */
module Scoring {
  import opened Wrappers

  type Positive = n: int | n >= 1 witness 1

  /** The fraction `num / den`. */
  datatype Score = Score(num: nat, den: Positive)

  /** `a <= b` as fractions. */
  predicate AtMost(a: Score, b: Score) {
    a.num * b.den <= b.num * a.den
  }

  /** `a == b` as fractions. */
  predicate SameScore(a: Score, b: Score) {
    a.num * b.den == b.num * a.den
  }

  lemma MulMonotone(x: int, y: int, k: int)
    requires x <= y && k >= 0
    ensures x * k <= y * k
  {}

  lemma MulCancel(x: int, y: int, k: int)
    requires x * k <= y * k && k > 0
    ensures x <= y
  {}

  lemma AtMostTransitive(a: Score, b: Score, c: Score)
    requires AtMost(a, b) && AtMost(b, c)
    ensures AtMost(a, c)
  {
    MulMonotone(a.num * b.den, b.num * a.den, c.den);
    MulMonotone(b.num * c.den, c.num * b.den, a.den);
    assert a.num * b.den * c.den == (a.num * c.den) * b.den;
    assert b.num * a.den * c.den == (b.num * c.den) * a.den;
    assert (b.num * c.den) * a.den <= (c.num * b.den) * a.den;
    assert c.num * b.den * a.den == (c.num * a.den) * b.den;
    MulCancel(a.num * c.den, c.num * a.den, b.den);
  }

  lemma SameScoreTransitive(a: Score, b: Score, c: Score)
    requires SameScore(a, b) && SameScore(b, c)
    ensures SameScore(a, c)
  {
    assert a.num * b.den * c.den == b.num * a.den * c.den;
    assert b.num * c.den * a.den == c.num * b.den * a.den;
    assert (a.num * c.den) * b.den == (c.num * a.den) * b.den;
    MulCancel(a.num * c.den, c.num * a.den, b.den);
    MulCancel(c.num * a.den, a.num * c.den, b.den);
  }

  /** The statistics block of a video; a missing counter is `None`. */
  datatype Stats = Stats(viewCount: Option<nat>, likeCount: Option<nat>, commentCount: Option<nat>)

  function Views(st: Stats): nat { st.viewCount.GetOr(1) }
  function Likes(st: Stats): nat { st.likeCount.GetOr(0) }
  function Comments(st: Stats): nat { st.commentCount.GetOr(0) }

  function MaxOne(n: nat): Positive { if n < 1 then 1 else n }

  /** `(likes + 2 * comments) / max(views, 1)`; missing views count as 1,
      missing likes and comments as 0. */
  function EngagementScore(st: Stats): Score {
    Score(Likes(st) + 2 * Comments(st), MaxOne(Views(st)))
  }

  /** One comment weighs exactly as much as two likes. */
  lemma CommentWeighsTwoLikes(views: Option<nat>, likes: nat, comments: nat)
    ensures SameScore(EngagementScore(Stats(views, Some(likes), Some(comments + 1))),
                      EngagementScore(Stats(views, Some(likes + 2), Some(comments))))
  {}

  /** More likes or comments never lower the score; more views never raise it. */
  lemma EngagementMonotone(v: nat, l: nat, c: nat, v': nat, l': nat, c': nat)
    requires l <= l' && c <= c' && v' <= v
    ensures AtMost(EngagementScore(Stats(Some(v), Some(l), Some(c))),
                   EngagementScore(Stats(Some(v'), Some(l'), Some(c'))))
  {
    var a := EngagementScore(Stats(Some(v), Some(l), Some(c)));
    var b := EngagementScore(Stats(Some(v'), Some(l'), Some(c')));
    assert a.num <= b.num && b.den <= a.den;
    MulMonotone(a.num, b.num, b.den);
    MulMonotone(b.den, a.den, b.num);
  }

  /** Zero views and missing views are both read as one view. */
  lemma ZeroViewsCountAsOne(likes: Option<nat>, comments: Option<nat>)
    ensures EngagementScore(Stats(Some(0), likes, comments)) == EngagementScore(Stats(None, likes, comments))
    ensures EngagementScore(Stats(None, likes, comments)).den == 1
  {}
}
