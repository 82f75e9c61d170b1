/** Sequence helpers that mirror the array idioms of the source:
    `slice(0, n)`, `slice(-n)` and `Array.from(new Set(xs))`. */
module Seqs {

  /** No element occurs twice. */
  ghost predicate NoDup<T>(s: seq<T>) {
    forall i, j :: 0 <= i < j < |s| ==> s[i] != s[j]
  }

  /** `s.slice(0, n)`: the first `n` elements, or all of them when there are fewer. */
  function Take<T>(s: seq<T>, n: nat): (r: seq<T>)
    ensures |r| == if n < |s| then n else |s|
    ensures r <= s
  {
    if n < |s| then s[..n] else s
  }

  /** `s.slice(-n)` for `n > 0`: the last `n` elements, or all of them when there are fewer. */
  function TakeLast<T>(s: seq<T>, n: nat): (r: seq<T>)
    ensures |r| == if n < |s| then n else |s|
    ensures r == s[|s| - |r|..]
  {
    if n < |s| then s[|s| - n..] else s
  }

  /** A suffix of a list without repeats has no repeats. */
  lemma NoDupSuffix<T>(s: seq<T>, k: nat)
    requires NoDup(s) && k <= |s|
    ensures NoDup(s[k..])
  {
    forall i, j | 0 <= i < j < |s| - k ensures s[k..][i] != s[k..][j] {
      assert s[k..][i] == s[k + i] && s[k..][j] == s[k + j];
    }
  }

  /** `Array.from(new Set(s))`: the first occurrence of every element, in order. */
  function Dedupe<T(==,!new)>(s: seq<T>): (r: seq<T>)
    ensures NoDup(r)
    ensures forall x :: x in r <==> x in s
    ensures |r| <= |s|
    decreases |s|
  {
    if |s| == 0 then []
    else
      var d := Dedupe(s[..|s| - 1]);
      var last := s[|s| - 1];
      assert forall x :: x in s <==> x in s[..|s| - 1] || x == last;
      if last in d then d else d + [last]
  }

  /** Deduplicating a list without repeats changes nothing. */
  lemma {:induction false} DedupeOfNoDup<T(!new)>(s: seq<T>)
    requires NoDup(s)
    ensures Dedupe(s) == s
    decreases |s|
  {
    if |s| > 0 {
      var init := s[..|s| - 1];
      assert NoDup(init);
      DedupeOfNoDup(init);
      assert s[|s| - 1] !in init;
      assert init + [s[|s| - 1]] == s;
    }
  }

  /** Deduplicating `a + b` keeps the deduplicated `a` as a prefix: earlier
      elements never move and are never dropped. */
  lemma {:induction false} DedupeKeepsPrefix<T(!new)>(a: seq<T>, b: seq<T>)
    ensures Dedupe(a) <= Dedupe(a + b)
    decreases |b|
  {
    if |b| > 0 {
      var b' := b[..|b| - 1];
      assert (a + b)[..|a + b| - 1] == a + b';
      DedupeKeepsPrefix(a, b');
    } else {
      assert a + b == a;
    }
  }
}
