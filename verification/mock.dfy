/** Degraded mode (background.js `getMockVideos` and the two fallback paths
    of `fetchAndCacheVideos`): a fixed pool of ten substitute videos. Their
    scores are the source's decimals written as thousandths. */
module Mock {
  import opened Seqs
  import opened Text
  import opened Scoring
  import opened Videos
  import opened Ranking

  const MockPrefix := "mock-"

  function Thousandths(n: nat): Score {
    Score(n, 1000)
  }

  /** The pool in declaration order. */
  const MockData: seq<Video> := [
    Video("mock-1", "Como ser mais produtivo no trabalho", "Produtividade Plus", Shown("12:34"), 754, Thousandths(45)),
    Video("mock-2", "Os segredos da alimentação saudável", "Saúde em Foco", Shown("8:20"), 500, Thousandths(38)),
    Video("mock-3", "Aprenda JavaScript em 15 minutos", "Dev Rápido", Shown("15:00"), 900, Thousandths(62)),
    Video("mock-4", "Receitas rápidas para o almoço", "Culinária Express", Shown("10:15"), 615, Thousandths(51)),
    Video("mock-5", "Meditação guiada de 10 minutos", "Mente Zen", Shown("10:00"), 600, Thousandths(72)),
    Video("mock-6", "Design Thinking na prática", "UX Brasil", Shown("18:45"), 1125, Thousandths(41)),
    Video("mock-7", "Finanças pessoais: como economizar", "Dinheiro Inteligente", Shown("14:22"), 862, Thousandths(58)),
    Video("mock-8", "Top 10 extensões para desenvolvedores", "CodeBrasil", Shown("11:50"), 710, Thousandths(67)),
    Video("mock-9", "Rotina matinal de alta performance", "Alta Performance", Shown("9:33"), 573, Thousandths(49)),
    Video("mock-10", "Como aprender qualquer coisa mais rápido", "Aprendizado Acelerado", Shown("16:10"), 970, Thousandths(55))
  ]

  /** `getMockVideos(count)`: the first `count` pool entries, highest score first. */
  function MockVideos(count: nat): seq<Video> {
    SortByScore(Take(MockData, count))
  }

  /** The fallback paths call `getMockVideos(20)`, which is the whole pool. */
  const MockPoolRequest: nat := 20

  /** The pool as `getMockVideos(20)` returns it (see `MockPoolOrder`):
      mock-5, mock-8, mock-3, mock-7, mock-10, mock-4, mock-9, mock-1,
      mock-6, mock-2. */
  const MockPool: seq<Video> :=
    [MockData[4], MockData[7], MockData[2], MockData[6], MockData[9],
     MockData[3], MockData[8], MockData[0], MockData[5], MockData[1]]

  /** `.filter(v => !sessionExcludedSet.has(v.id))`. */
  function WithoutExcluded(s: seq<Video>, excluded: set<VideoId>): (r: seq<Video>)
    ensures |r| <= |s|
    decreases |s|
  {
    if |s| == 0 then []
    else
      var rest := WithoutExcluded(s[1..], excluded);
      if s[0].id in excluded then rest else [s[0]] + rest
  }

  /** The filter keeps exactly the videos whose id is not excluded. */
  lemma {:induction false} WithoutExcludedMembers(s: seq<Video>, excluded: set<VideoId>)
    ensures forall v :: v in WithoutExcluded(s, excluded) <==> v in s && v.id !in excluded
    decreases |s|
  {
    if |s| > 0 {
      WithoutExcludedMembers(s[1..], excluded);
      assert forall v :: v in s <==> v == s[0] || v in s[1..];
    }
  }

  /** Filtering keeps the order, so a list sorted by score stays sorted. */
  lemma {:induction false} WithoutExcludedSorted(s: seq<Video>, excluded: set<VideoId>)
    requires SortedDesc(s)
    ensures SortedDesc(WithoutExcluded(s, excluded))
    decreases |s|
  {
    if |s| > 0 {
      assert SortedDesc(s[1..]) by {
        forall i, j | 0 <= i < j < |s[1..]| ensures AtMost(s[1..][j].score, s[1..][i].score) {
          assert s[1..][i] == s[i + 1] && s[1..][j] == s[j + 1];
        }
      }
      WithoutExcludedSorted(s[1..], excluded);
      WithoutExcludedMembers(s[1..], excluded);
      var rest := WithoutExcluded(s[1..], excluded);
      if s[0].id !in excluded {
        forall j | 0 <= j < |rest| ensures AtMost(rest[j].score, s[0].score) {
          assert rest[j] in s[1..];
          var k :| 0 <= k < |s[1..]| && s[1..][k] == rest[j];
          assert s[k + 1] == rest[j];
        }
        PrependSorted(s[0], rest);
      }
    }
  }

  /** The degraded result: the pool minus the excluded ids, cut to `count`. */
  function MockFallback(excluded: set<VideoId>, count: nat): seq<Video> {
    Take(WithoutExcluded(MockPool, excluded), count)
  }

  /** Every pool entry is a mock (its id starts with "mock-") and lasts
      between 91 seconds and 20 minutes. */
  ghost predicate IsMockEntry(v: Video) {
    StartsWith(v.id, MockPrefix) && ShortMaxSeconds < v.durationSeconds <= 20 * 60
  }

  lemma MockDataEntries()
    ensures forall i :: 0 <= i < |MockData| ==> IsMockEntry(MockData[i])
  {
    var m := MockData;
    assert IsMockEntry(m[0]) && IsMockEntry(m[1]) && IsMockEntry(m[2]) && IsMockEntry(m[3]) && IsMockEntry(m[4]);
    assert IsMockEntry(m[5]) && IsMockEntry(m[6]) && IsMockEntry(m[7]) && IsMockEntry(m[8]) && IsMockEntry(m[9]);
  }

  /** One step of the insertion sort: the sorted suffix from `k` is the sorted
      suffix from `k + 1`, split as `a + b`, with entry `k` inserted between. */
  lemma SortStep(m: seq<Video>, k: nat, a: seq<Video>, b: seq<Video>)
    requires k < |m|
    requires SortByScore(m[k + 1..]) == a + b
    requires forall i :: 0 <= i < |a| ==> !AtMost(a[i].score, m[k].score)
    requires |b| > 0 ==> AtMost(b[0].score, m[k].score)
    ensures SortByScore(m[k..]) == a + [m[k]] + b
  {
    var s := m[k..];
    assert s[0] == m[k] && s[1..] == m[k + 1..];
    InsertAfterHigher(m[k], a, b);
  }

  /** The last five entries of the pool sort to entries 7, 6, 9, 8, 5. */
  lemma SortPoolTail(m: seq<Video>)
    requires |m| == 10
    requires m[5].score == Thousandths(41) && m[6].score == Thousandths(58) && m[7].score == Thousandths(67)
    requires m[8].score == Thousandths(49) && m[9].score == Thousandths(55)
    ensures SortByScore(m[5..]) == [m[7], m[6], m[9], m[8], m[5]]
  {
    assert SortByScore(m[10..]) == [];
    SortStep(m, 9, [], []);
    SortStep(m, 8, [m[9]], []);
    SortStep(m, 7, [], [m[9], m[8]]);
    SortStep(m, 6, [m[7]], [m[9], m[8]]);
    SortStep(m, 5, [m[7], m[6], m[9], m[8]], []);
  }

  /** The last seven entries of the pool sort to entries 4, 7, 6, 9, 3, 8, 5. */
  lemma SortPoolLower(m: seq<Video>)
    requires |m| == 10
    requires m[3].score == Thousandths(51) && m[4].score == Thousandths(72)
    requires m[5].score == Thousandths(41) && m[6].score == Thousandths(58) && m[7].score == Thousandths(67)
    requires m[8].score == Thousandths(49) && m[9].score == Thousandths(55)
    ensures SortByScore(m[3..]) == [m[4], m[7], m[6], m[9], m[3], m[8], m[5]]
  {
    SortPoolTail(m);
    SortStep(m, 4, [], [m[7], m[6], m[9], m[8], m[5]]);
    SortStep(m, 3, [m[4], m[7], m[6], m[9]], [m[8], m[5]]);
  }

  /** The last eight entries of the pool sort to entries 4, 7, 2, 6, 9, 3, 8, 5. */
  lemma SortPoolMiddle(m: seq<Video>)
    requires |m| == 10
    requires m[2].score == Thousandths(62) && m[3].score == Thousandths(51) && m[4].score == Thousandths(72)
    requires m[5].score == Thousandths(41) && m[6].score == Thousandths(58) && m[7].score == Thousandths(67)
    requires m[8].score == Thousandths(49) && m[9].score == Thousandths(55)
    ensures SortByScore(m[2..]) == [m[4], m[7], m[2], m[6], m[9], m[3], m[8], m[5]]
  {
    SortPoolLower(m);
    SortStep(m, 2, [m[4], m[7]], [m[6], m[9], m[3], m[8], m[5]]);
  }

  /** Sorting any ten videos scored like the pool, in thousandths 45, 38, 62,
      51, 72, 41, 58, 67, 49, 55, gives the order of `MockPool`. */
  lemma SortPoolShaped(m: seq<Video>)
    requires |m| == 10
    requires m[0].score == Thousandths(45) && m[1].score == Thousandths(38) && m[2].score == Thousandths(62)
    requires m[3].score == Thousandths(51) && m[4].score == Thousandths(72) && m[5].score == Thousandths(41)
    requires m[6].score == Thousandths(58) && m[7].score == Thousandths(67) && m[8].score == Thousandths(49)
    requires m[9].score == Thousandths(55)
    ensures SortByScore(m) == [m[4], m[7], m[2], m[6], m[9], m[3], m[8], m[0], m[5], m[1]]
  {
    SortPoolMiddle(m);
    SortStep(m, 1, [m[4], m[7], m[2], m[6], m[9], m[3], m[8], m[5]], []);
    SortStep(m, 0, [m[4], m[7], m[2], m[6], m[9], m[3], m[8]], [m[5], m[1]]);
    assert m[0..] == m;
  }

  /** `getMockVideos(20)` orders the ten declared videos by score, highest
      first, and that order is `MockPool`. */
  lemma MockPoolOrder()
    ensures MockVideos(MockPoolRequest) == MockPool
  {
    assert Take(MockData, MockPoolRequest) == MockData;
    SortPoolShaped(MockData);
  }

  /** The pool holds the ten declared videos, highest score first. */
  lemma MockPoolIsSortedData()
    ensures multiset(MockPool) == multiset(MockData)
    ensures SortedDesc(MockPool)
  {
    var s := Take(MockData, MockPoolRequest);
    assert s == MockData;
    MockPoolOrder();
    SortByScoreSorted(s);
  }

  /** Every pool entry is a mock entry. */
  lemma MockPoolEntries()
    ensures |MockPool| == 10
    ensures forall v :: v in MockPool ==> IsMockEntry(v)
  {
    MockDataEntries();
    var p := MockPool;
    assert IsMockEntry(p[0]) && IsMockEntry(p[1]) && IsMockEntry(p[2]) && IsMockEntry(p[3]) && IsMockEntry(p[4]);
    assert IsMockEntry(p[5]) && IsMockEntry(p[6]) && IsMockEntry(p[7]) && IsMockEntry(p[8]) && IsMockEntry(p[9]);
  }

  /** The degraded result holds the best-scoring mocks that were not excluded:
      no excluded id, ordered by score, as many as `count` allows. */
  lemma MockFallbackShape(excluded: set<VideoId>, count: nat)
    ensures var r := MockFallback(excluded, count);
      && |r| == (if count < |WithoutExcluded(MockPool, excluded)| then count else |WithoutExcluded(MockPool, excluded)|)
      && r <= WithoutExcluded(MockPool, excluded)
      && SortedDesc(r)
      && (forall v :: v in r ==> v in MockPool && v.id !in excluded && IsMockEntry(v))
  {
    MockPoolIsSortedData();
    MockPoolEntries();
    WithoutExcludedSorted(MockPool, excluded);
    WithoutExcludedMembers(MockPool, excluded);
    var w := WithoutExcluded(MockPool, excluded);
    var r := MockFallback(excluded, count);
    assert SortedDesc(r) by {
      forall i, j | 0 <= i < j < |r| ensures AtMost(r[j].score, r[i].score) {
        assert r[i] == w[i] && r[j] == w[j];
      }
    }
    forall v | v in r ensures v in MockPool && v.id !in excluded && IsMockEntry(v) {
      assert v in w;
    }
  }
}
