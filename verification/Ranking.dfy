/** Nodes ranked by score, higher first, ties by the smaller index. */
module Ranking {
  import opened Sizes
  import opened Sorting

  datatype Key = Key(score: real, index: nat)

  /** Higher score first, then the smaller index. */
  predicate RanksBefore(a: Key, b: Key) {
    a.score > b.score || (a.score == b.score && a.index < b.index)
  }

  lemma RanksBeforeIsTotal()
    ensures TotalOrder(RanksBefore)
  {
  }

  function Keys(scores: seq<real>): (keys: seq<Key>)
    ensures |keys| == |scores|
  {
    seq(|scores|, i requires 0 <= i < |scores| => Key(scores[i], i))
  }

  function Indices(keys: seq<Key>): seq<nat> { seq(|keys|, i requires 0 <= i < |keys| => keys[i].index) }

  /** The first k nodes of the full sort. */
  function TopK(scores: seq<real>, k: nat): (top: seq<nat>)
    ensures |top| == Min(k, |scores|)
  {
    Indices(Sort(RanksBefore, Keys(scores))[..Min(k, |scores|)])
  }

  lemma KeysDistinct(scores: seq<real>)
    ensures Distinct(Keys(scores))
  {
  }

  /** Each key carries the score of its index. */
  ghost predicate AreKeysOf(scores: seq<real>, s: seq<Key>) {
    forall a | 0 <= a < |s| :: s[a].index < |scores| && s[a].score == scores[s[a].index]
  }

  ghost predicate InRankOrder(s: seq<Key>) {
    forall a, b | 0 <= a < b < |s| :: RanksBefore(s[a], s[b])
  }

  lemma SortedKeys(scores: seq<real>)
    ensures AreKeysOf(scores, Sort(RanksBefore, Keys(scores)))
    ensures InRankOrder(Sort(RanksBefore, Keys(scores)))
  {
    var keys := Keys(scores);
    var sorted := Sort(RanksBefore, keys);
    RanksBeforeIsTotal();
    SortSorts(RanksBefore, keys);
    KeysDistinct(scores);
    RearrangedDistinct(keys, sorted);
    forall a | 0 <= a < |sorted| ensures sorted[a] in keys {
      assert sorted[a] in multiset(keys);
    }
  }

  lemma SortedHasAll(scores: seq<real>, v: nat) returns (b: nat)
    requires v < |scores|
    ensures b < |scores| && Sort(RanksBefore, Keys(scores))[b] == Key(scores[v], v)
  {
    var sorted := Sort(RanksBefore, Keys(scores));
    assert Keys(scores)[v] in multiset(sorted);
    b :| 0 <= b < |sorted| && sorted[b] == Key(scores[v], v);
  }

  function KeyOf(scores: seq<real>, v: nat): Key
    requires v < |scores|
  {
    Key(scores[v], v)
  }

  /** What the first k nodes are: k of them, or all if there are no more, of falling score and of rising index where
      the score is the same; and a node that is not listed has a lower score than each of them, or the same score and
      a higher index. */
  lemma TopKMeaning(scores: seq<real>, k: nat)
    ensures |TopK(scores, k)| == if k < |scores| then k else |scores|
    ensures forall a | 0 <= a < |TopK(scores, k)| :: TopK(scores, k)[a] < |scores|
    ensures forall a, b | 0 <= a < b < |TopK(scores, k)| ::
      var u, v := TopK(scores, k)[a], TopK(scores, k)[b];
      scores[u] > scores[v] || (scores[u] == scores[v] && u < v)
    ensures forall a, v | 0 <= a < |TopK(scores, k)| && 0 <= v < |scores| && v !in TopK(scores, k) ::
      var u := TopK(scores, k)[a];
      scores[u] > scores[v] || (scores[u] == scores[v] && u < v)
  {
    TopKRanks(scores, k);
  }

  /** The same by keys: nodes in rank order, each ranking before every node that is not listed. */
  lemma TopKRanks(scores: seq<real>, k: nat)
    ensures forall a | 0 <= a < |TopK(scores, k)| :: TopK(scores, k)[a] < |scores|
    ensures forall a, b | 0 <= a < b < |TopK(scores, k)| ::
      RanksBefore(KeyOf(scores, TopK(scores, k)[a]), KeyOf(scores, TopK(scores, k)[b]))
    ensures forall a, v | 0 <= a < |TopK(scores, k)| && 0 <= v < |scores| && v !in TopK(scores, k) ::
      RanksBefore(KeyOf(scores, TopK(scores, k)[a]), KeyOf(scores, v))
  {
    var top, sorted := TopK(scores, k), Sort(RanksBefore, Keys(scores));
    SortedKeys(scores);
    TopIsPrefix(scores, k);
    hide TopK, Sort;
    forall a | 0 <= a < |top| ensures top[a] < |scores| && KeyOf(scores, top[a]) == sorted[a] { }
    forall a, v | 0 <= a < |top| && 0 <= v < |scores| && v !in top
      ensures RanksBefore(KeyOf(scores, top[a]), KeyOf(scores, v))
    {
      var b := SortedHasAll(scores, v);
      assert b >= |top|;
    }
  }

  lemma TopIsPrefix(scores: seq<real>, k: nat)
    ensures forall a | 0 <= a < |TopK(scores, k)| :: TopK(scores, k)[a] == Sort(RanksBefore, Keys(scores))[a].index
  {
  }

  /** Entry k of the full ranking is the one node that is not among the first k and ranks before all
      the others that are not. */
  lemma NextInRanking(scores: seq<real>, k: nat, v: nat)
    requires k < |scores| && v < |scores| && v !in TopK(scores, k)
    requires forall u | 0 <= u < |scores| && u !in TopK(scores, k) && u != v ::
      RanksBefore(KeyOf(scores, v), KeyOf(scores, u))
    ensures TopK(scores, k + 1) == TopK(scores, k) + [v]
  {
    hide Sort, Keys;
    var sorted := Sort(RanksBefore, Keys(scores));
    SortedKeys(scores);
    var u := sorted[k].index;
    TopIsPrefix(scores, k);
    TopIsPrefix(scores, k + 1);
    forall a | 0 <= a < k ensures TopK(scores, k)[a] != u {
      assert RanksBefore(sorted[a], sorted[k]);
    }
    var b := SortedHasAll(scores, v);
    hide TopK;
    assert b >= k;
    assert sorted[k] == KeyOf(scores, u) && sorted[b] == KeyOf(scores, v);
    assert u == v;
    assert TopK(scores, k + 1) == TopK(scores, k) + [v];
  }
}
