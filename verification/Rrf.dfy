/** Reciprocal rank fusion: the tally of one vote per list position, and the three forms of the fusion
    that also weighs normalised scores. */
module Rrf {
  import opened Signs
  import opened Sorting
  import Sums

  /** One contribution to the score of an item. */
  datatype Vote = Vote(id: string, value: real)

  type Votes = seq<Vote>

  function Total(votes: Votes, id: string): real {
    if votes == [] then 0.0
    else Total(votes[..|votes| - 1], id) + if votes[|votes| - 1].id == id then votes[|votes| - 1].value else 0.0
  }

  predicate Mentions(votes: Votes, id: string) { exists v :: v in votes && v.id == id }

  lemma {:induction false} TotalJoin(x: Votes, y: Votes, id: string)
    ensures Total(x + y, id) == Total(x, id) + Total(y, id)
  {
    if y == [] { assert x + y == x; }
    else {
      TotalJoin(x, y[..|y| - 1], id);
      assert (x + y)[..|x + y| - 1] == x + y[..|y| - 1];
    }
  }

  function Credit(scores: map<string, real>, id: string): real { if id in scores then scores[id] else 0.0 }

  /** The map holds exactly the items voted for, each with the total of its votes. */
  ghost predicate Tallies(scores: map<string, real>, votes: Votes) {
    && (forall id :: Credit(scores, id) == Total(votes, id))
    && forall id :: id in scores <==> Mentions(votes, id)
  }

  lemma OneMoreVote(scores: map<string, real>, votes: Votes, v: Vote)
    requires Tallies(scores, votes)
    ensures Tallies(scores[v.id := Credit(scores, v.id) + v.value], votes + [v])
  {
    assert (votes + [v])[..|votes|] == votes;
    var after := scores[v.id := Credit(scores, v.id) + v.value];
    forall id ensures Credit(after, id) == Total(votes + [v], id) {
      assert Credit(scores, id) == Total(votes, id);
    }
    forall id ensures id in after <==> Mentions(votes + [v], id) {
      MentionsOneMore(votes, v, id);
      assert id in scores <==> Mentions(votes, id);
    }
  }

  lemma MentionsOneMore(votes: Votes, v: Vote, id: string)
    ensures Mentions(votes + [v], id) <==> Mentions(votes, id) || id == v.id
  {
    assert v in votes + [v];
    if u :| u in votes && u.id == id { assert u in votes + [v]; }
  }

  // ---------- ranking the tally ----------

  predicate ScoresAbove(a: Vote, b: Vote) { a.value > b.value }

  /** Every item voted for, once and with its total, in falling order. */
  ghost predicate IsRanking(results: seq<Vote>, votes: Votes) {
    && (forall r :: r in results <==> Mentions(votes, r.id) && r.value == Total(votes, r.id))
    && forall i, j | 0 <= i < j < |results| :: results[i].id != results[j].id && results[i].value >= results[j].value
  }

  /** The entries of a map, handed out in any order, from high to low. */
  method Descending(scores: map<string, real>) returns (results: seq<Vote>)
    ensures forall r :: r in results <==> r.id in scores && r.value == scores[r.id]
    ensures forall i, j | 0 <= i < j < |results| ::
      results[i].id != results[j].id && results[i].value >= results[j].value
  {
    var list: seq<Vote> := [];
    var rest := scores.Keys;
    while rest != {}
      invariant rest <= scores.Keys
      invariant forall r :: r in list <==> r.id in scores.Keys - rest && r.value == scores[r.id]
      invariant Distinct(list)
      decreases rest
    {
      var id :| id in rest;
      rest := rest - {id};
      list := list + [Vote(id, scores[id])];
    }
    results := Sort(ScoresAbove, list);
    DescendingSorted(list, results);
  }

  lemma ScoresAboveIsWeak()
    ensures WeakOrder(ScoresAbove)
  {
  }

  lemma SameMembers(list: seq<Vote>, results: seq<Vote>)
    requires multiset(list) == multiset(results)
    ensures forall r :: r in results <==> r in list
  {
    forall r ensures r in results <==> r in list {
      assert r in results <==> r in multiset(results);
      assert r in list <==> r in multiset(list);
    }
  }

  lemma DescendingSorted(list: seq<Vote>, results: seq<Vote>)
    requires Distinct(list) && results == Sort(ScoresAbove, list)
    requires forall r, s | r in list && s in list && r.id == s.id :: r == s
    ensures forall r :: r in results <==> r in list
    ensures forall i, j | 0 <= i < j < |results| ::
      results[i].id != results[j].id && results[i].value >= results[j].value
  {
    hide WeakOrder, Sort;
    ScoresAboveIsWeak();
    SortSorts(ScoresAbove, list);
    RearrangedDistinct(list, results);
    SameMembers(list, results);
    forall i, j | 0 <= i < j < |results|
      ensures results[i].id != results[j].id && results[i].value >= results[j].value
    {
      assert results[i] in list && results[j] in list && results[i] != results[j];
      assert !ScoresAbove(results[j], results[i]);
    }
  }

  // ---------- plain and weighted fusion ----------

  datatype Ranked = Ranked(weight: real, items: seq<string>)

  /** What a list adds at a rank counted from 1. */
  function RankTerm(weight: real, k: nat, rank: nat): real
    requires rank > 0
  {
    weight / (k as real + rank as real)
  }

  function ListVotes(weight: real, k: nat, items: seq<string>): Votes {
    seq(|items|, p requires 0 <= p < |items| => Vote(items[p], RankTerm(weight, k, p + 1)))
  }

  function AllVotes(lists: seq<Ranked>, k: nat): Votes {
    if lists == [] then []
    else AllVotes(lists[..|lists| - 1], k) + ListVotes(lists[|lists| - 1].weight, k, lists[|lists| - 1].items)
  }

  lemma AllVotesNext(lists: seq<Ranked>, k: nat, i: nat)
    requires i < |lists|
    ensures AllVotes(lists[..i + 1], k) == AllVotes(lists[..i], k) + ListVotes(lists[i].weight, k, lists[i].items)
  {
    assert lists[..i + 1][..i] == lists[..i];
  }

  /** Enters the votes of one list. */
  method TallyList(scores: map<string, real>, weight: real, k: nat, items: seq<string>, ghost votes: Votes)
    returns (scores': map<string, real>)
    requires Tallies(scores, votes)
    ensures Tallies(scores', votes + ListVotes(weight, k, items))
  {
    hide Tallies, RankTerm;
    scores' := scores;
    ghost var all := ListVotes(weight, k, items);
    assert votes + all[..0] == votes;
    for p := 0 to |items|
      invariant Tallies(scores', votes + all[..p])
    {
      OneMoreVote(scores', votes + all[..p], all[p]);
      assert votes + all[..p + 1] == votes + all[..p] + [all[p]];
      scores' := scores'[items[p] := Credit(scores', items[p]) + RankTerm(weight, k, p + 1)];
    }
    assert all[..|items|] == all;
  }

  method WeightedRrf(lists: seq<Ranked>, k: nat) returns (results: seq<Vote>)
    ensures IsRanking(results, AllVotes(lists, k))
  {
    var scores: map<string, real> := map[];
    for i := 0 to |lists|
      invariant Tallies(scores, AllVotes(lists[..i], k))
    {
      AllVotesNext(lists, k, i);
      scores := TallyList(scores, lists[i].weight, k, lists[i].items, AllVotes(lists[..i], k));
    }
    assert lists[..|lists|] == lists;
    results := Descending(scores);
    TalliedRanking(scores, results, AllVotes(lists, k));
  }

  lemma TalliedRanking(scores: map<string, real>, results: seq<Vote>, votes: Votes)
    requires Tallies(scores, votes)
    requires forall r :: r in results <==> r.id in scores && r.value == scores[r.id]
    requires forall i, j | 0 <= i < j < |results| ::
      results[i].id != results[j].id && results[i].value >= results[j].value
    ensures IsRanking(results, votes)
  {
    forall r ensures r in results <==> Mentions(votes, r.id) && r.value == Total(votes, r.id) {
      assert Credit(scores, r.id) == Total(votes, r.id);
    }
  }

  function Unweighted(lists: seq<seq<string>>): seq<Ranked> {
    seq(|lists|, i requires 0 <= i < |lists| => Ranked(1.0, lists[i]))
  }

  method ReciprocalRankFusion(lists: seq<seq<string>>, k: nat) returns (results: seq<Vote>)
    ensures IsRanking(results, AllVotes(Unweighted(lists), k))
  {
    ghost var weighted := Unweighted(lists);
    var scores: map<string, real> := map[];
    for i := 0 to |lists|
      invariant Tallies(scores, AllVotes(weighted[..i], k))
    {
      AllVotesNext(weighted, k, i);
      scores := TallyList(scores, 1.0, k, lists[i], AllVotes(weighted[..i], k));
    }
    assert weighted[..|lists|] == weighted;
    results := Descending(scores);
    TalliedRanking(scores, results, AllVotes(weighted, k));
  }

  // ---------- conservation ----------

  function Sum(votes: Votes): real {
    if votes == [] then 0.0 else Sum(votes[..|votes| - 1]) + votes[|votes| - 1].value
  }

  /** The totals of the listed items. */
  ghost function SumOfTotals(ids: seq<string>, votes: Votes): real {
    if ids == [] then 0.0 else SumOfTotals(ids[..|ids| - 1], votes) + Total(votes, ids[|ids| - 1])
  }

  lemma {:induction false} OneMoreVoteCounts(ids: seq<string>, votes: Votes, v: Vote)
    requires Distinct(ids)
    ensures SumOfTotals(ids, votes + [v]) == SumOfTotals(ids, votes) + if v.id in ids then v.value else 0.0
  {
    if ids != [] {
      var front, last := ids[..|ids| - 1], ids[|ids| - 1];
      OneMoreVoteCounts(front, votes, v);
      assert ids == front + [last];
      assert (votes + [v])[..|votes|] == votes;
    }
  }

  lemma {:induction false} NoVotesNoTotals(ids: seq<string>)
    ensures SumOfTotals(ids, []) == 0.0
  {
    if ids != [] { NoVotesNoTotals(ids[..|ids| - 1]); }
  }

  lemma {:induction false} TotalsConserve(ids: seq<string>, votes: Votes)
    requires Distinct(ids) && forall v | v in votes :: v.id in ids
    ensures SumOfTotals(ids, votes) == Sum(votes)
  {
    if votes == [] { NoVotesNoTotals(ids); }
    else {
      TotalsConserve(ids, votes[..|votes| - 1]);
      OneMoreVoteCounts(ids, votes[..|votes| - 1], votes[|votes| - 1]);
      assert votes == votes[..|votes| - 1] + [votes[|votes| - 1]];
    }
  }

  function IdsOf(results: seq<Vote>): (ids: seq<string>)
    ensures |ids| == |results| && forall i | 0 <= i < |ids| :: ids[i] == results[i].id
  {
    seq(|results|, i requires 0 <= i < |results| => results[i].id)
  }

  lemma {:induction false} ResultsAreTotals(results: seq<Vote>, votes: Votes)
    requires forall r | r in results :: r.value == Total(votes, r.id)
    ensures Sum(results) == SumOfTotals(IdsOf(results), votes)
  {
    if results != [] {
      var front := results[..|results| - 1];
      ResultsAreTotals(front, votes);
      assert IdsOf(results)[..|results| - 1] == IdsOf(front);
    }
  }

  /** Fusing loses and invents nothing: the fused scores add up to all the votes together. */
  lemma ScoresConserve(results: seq<Vote>, votes: Votes)
    requires IsRanking(results, votes)
    ensures Sum(results) == Sum(votes)
  {
    var ids := IdsOf(results);
    forall v | v in votes ensures v.id in ids {
      var r := Vote(v.id, Total(votes, v.id));
      assert Mentions(votes, v.id) && r in results;
      var i :| 0 <= i < |results| && results[i] == r;
      assert ids[i] == v.id;
    }
    ResultsAreTotals(results, votes);
    TotalsConserve(ids, votes);
  }

  // ---------- dominance ----------

  /** a stands before b in every list that contains b. */
  ghost predicate Above(items: seq<string>, a: string, b: string) {
    forall q | 0 <= q < |items| && items[q] == b :: exists p :: 0 <= p < q && items[p] == a
  }

  /** When every item is voted for once, its total is that vote. */
  lemma {:induction false} TotalOfDistinct(votes: Votes, id: string)
    requires Distinct(IdsOf(votes))
    ensures id !in IdsOf(votes) ==> Total(votes, id) == 0.0
    ensures forall p | 0 <= p < |votes| && votes[p].id == id :: Total(votes, id) == votes[p].value
  {
    if votes != [] {
      var front, last := votes[..|votes| - 1], votes[|votes| - 1];
      assert IdsOf(votes) == IdsOf(front) + [last.id];
      TotalOfDistinct(front, id);
      assert forall p | 0 <= p < |front| :: votes[p] == front[p] && IdsOf(votes)[p] == front[p].id;
    }
  }

  lemma TotalOfList(weight: real, k: nat, items: seq<string>, id: string)
    requires Distinct(items)
    ensures id !in items ==> Total(ListVotes(weight, k, items), id) == 0.0
    ensures forall p | 0 <= p < |items| && items[p] == id ::
      Total(ListVotes(weight, k, items), id) == RankTerm(weight, k, p + 1)
  {
    hide RankTerm;
    assert IdsOf(ListVotes(weight, k, items)) == items;
    TotalOfDistinct(ListVotes(weight, k, items), id);
  }

  lemma RankTermFalls(weight: real, k: nat, p: nat, q: nat)
    requires weight > 0.0 && 0 < p < q
    ensures RankTerm(weight, k, p) > RankTerm(weight, k, q) > 0.0
  {
    var x, y := k as real + p as real, k as real + q as real;
    ProductLess(weight, x, y);
    QuotientLess(weight, y, weight, x);
    QuotientSign(weight, y);
  }

  lemma ListDominates(list: Ranked, k: nat, a: string, b: string)
    requires list.weight > 0.0 && Distinct(list.items) && Above(list.items, a, b)
    ensures Total(ListVotes(list.weight, k, list.items), a) >= Total(ListVotes(list.weight, k, list.items), b)
    ensures b in list.items ==>
      Total(ListVotes(list.weight, k, list.items), a) > Total(ListVotes(list.weight, k, list.items), b)
  {
    hide RankTerm;
    TotalOfList(list.weight, k, list.items, a);
    TotalOfList(list.weight, k, list.items, b);
    if b in list.items {
      var q :| 0 <= q < |list.items| && list.items[q] == b;
      var p :| 0 <= p < q && list.items[p] == a;
      RankTermFalls(list.weight, k, p + 1, q + 1);
    } else if a in list.items {
      var p :| 0 <= p < |list.items| && list.items[p] == a;
      RankTermFalls(list.weight, k, p + 1, p + 2);
    }
  }

  /** With positive weights and no repeats, an item that stands above another wherever that one appears
      gets the higher score. */
  lemma {:induction false} Dominance(lists: seq<Ranked>, k: nat, a: string, b: string)
    requires forall l | l in lists :: l.weight > 0.0 && Distinct(l.items) && Above(l.items, a, b)
    ensures Total(AllVotes(lists, k), a) >= Total(AllVotes(lists, k), b)
    ensures (exists l :: l in lists && b in l.items) ==> Total(AllVotes(lists, k), a) > Total(AllVotes(lists, k), b)
  {
    hide Above, Distinct, ListVotes;
    if lists != [] {
      var front, last := lists[..|lists| - 1], lists[|lists| - 1];
      Dominance(front, k, a, b);
      ListDominates(last, k, a, b);
      TotalJoin(AllVotes(front, k), ListVotes(last.weight, k, last.items), a);
      TotalJoin(AllVotes(front, k), ListVotes(last.weight, k, last.items), b);
      assert lists == front + [last];
    }
  }

  /** So it comes first in the result. */
  lemma DominantComesFirst(lists: seq<Ranked>, k: nat, a: string, b: string, results: seq<Vote>, i: nat, j: nat)
    requires forall l | l in lists :: l.weight > 0.0 && Distinct(l.items) && Above(l.items, a, b)
    requires exists l :: l in lists && b in l.items
    requires IsRanking(results, AllVotes(lists, k))
    requires i < |results| && j < |results| && results[i].id == a && results[j].id == b
    ensures i < j
  {
    hide Distinct, Above, Total, Mentions, AllVotes;
    Dominance(lists, k, a, b);
    assert results[i] in results && results[j] in results;
  }

  // ---------- normalised scores ----------

  /** The gap between 1 and the next double: 2 to the power -52. */
  const EPSILON: real := 1.0 / 4503599627370496.0

  ghost predicate IsLeast(values: seq<real>, x: real) { x in values && forall v | v in values :: x <= v }

  ghost predicate IsGreatest(values: seq<real>, x: real) { x in values && forall v | v in values :: v <= x }

  /** Scores moved into [0, 1] in the same order, the least going to 0 and the greatest to 1; scores that
      are all alike, within the gap, go to 1. */
  ghost predicate IsNormalised(values: seq<real>, normal: seq<real>) {
    && |normal| == |values|
    && (forall lo, hi | IsLeast(values, lo) && IsGreatest(values, hi) ::
          if hi - lo < EPSILON then forall i | 0 <= i < |normal| :: normal[i] == 1.0
          else forall i | 0 <= i < |normal| ::
            0.0 <= normal[i] <= 1.0 && (values[i] == lo <==> normal[i] == 0.0)
              && (values[i] == hi <==> normal[i] == 1.0))
    && (forall lo, hi, i, j | IsLeast(values, lo) && IsGreatest(values, hi) && hi - lo >= EPSILON
          && 0 <= i < |values| && 0 <= j < |values| :: values[i] < values[j] <==> normal[i] < normal[j])
  }

  function Shifted(v: real, lo: real, hi: real): real
    requires lo < hi
  {
    (v - lo) / (hi - lo)
  }

  lemma QuotientOrder(x: real, y: real, d: real)
    requires d > 0.0
    ensures x / d < y / d <==> x < y
    ensures x / d == y / d <==> x == y
  {
    var u, v := x / d, y / d;
    assert u * d == x && v * d == y;
    assert (v - u) * d == y - x;
    if u < v { assert (v - u) * d > 0.0; }
    if v < u { assert (u - v) * d > 0.0; }
  }

  lemma QuotientOfItself(d: real)
    requires d > 0.0
    ensures d / d == 1.0 && 0.0 / d == 0.0
  {
  }

  lemma ShiftedOrder(v: real, w: real, lo: real, hi: real)
    requires lo < hi
    ensures Shifted(v, lo, hi) < Shifted(w, lo, hi) <==> v < w
    ensures Shifted(lo, lo, hi) == 0.0 && Shifted(hi, lo, hi) == 1.0
    ensures Shifted(v, lo, hi) == Shifted(w, lo, hi) <==> v == w
  {
    QuotientOrder(v - lo, w - lo, hi - lo);
    QuotientOfItself(hi - lo);
  }

  function Least(values: seq<real>): real
    requires values != []
  {
    if |values| == 1 then values[0]
    else
      var before := Least(values[..|values| - 1]);
      if values[|values| - 1] < before then values[|values| - 1] else before
  }

  function Greatest(values: seq<real>): real
    requires values != []
  {
    if |values| == 1 then values[0]
    else
      var before := Greatest(values[..|values| - 1]);
      if values[|values| - 1] > before then values[|values| - 1] else before
  }

  lemma {:induction false} ExtremesExact(values: seq<real>)
    requires values != []
    ensures IsLeast(values, Least(values)) && IsGreatest(values, Greatest(values))
  {
    if |values| > 1 {
      ExtremesExact(values[..|values| - 1]);
      assert values == values[..|values| - 1] + [values[|values| - 1]];
    }
  }

  function Normalised(values: seq<real>): (normal: seq<real>)
    ensures |normal| == |values|
  {
    if values == [] then []
    else
      var lo, hi := Least(values), Greatest(values);
      seq(|values|, i requires 0 <= i < |values| => if hi - lo < EPSILON then 1.0 else Shifted(values[i], lo, hi))
  }

  method MinMaxNormalize(values: seq<real>) returns (normal: seq<real>)
    ensures normal == Normalised(values)
  {
    if values == [] { return []; }
    var lo, hi := values[0], values[0];
    for i := 1 to |values|
      invariant lo == Least(values[..i]) && hi == Greatest(values[..i])
    {
      assert values[..i + 1][..i] == values[..i];
      if values[i] < lo { lo := values[i]; }
      if values[i] > hi { hi := values[i]; }
    }
    assert values[..|values|] == values;
    if hi - lo < EPSILON { return seq(|values|, _ => 1.0); }
    normal := [];
    for i := 0 to |values|
      invariant |normal| == i && forall j | 0 <= j < i :: normal[j] == Shifted(values[j], lo, hi)
    {
      normal := normal + [Shifted(values[i], lo, hi)];
    }
  }

  lemma NormalisedMeaning(values: seq<real>)
    ensures IsNormalised(values, Normalised(values))
  {
    hide Shifted, Least, Greatest;
    if values != [] {
      ExtremesExact(values);
      if Greatest(values) - Least(values) >= EPSILON {
        ShiftedIsNormalised(values, Normalised(values), Least(values), Greatest(values));
      }
    }
  }

  lemma ShiftedIsNormalised(values: seq<real>, normal: seq<real>, lo: real, hi: real)
    requires IsLeast(values, lo) && IsGreatest(values, hi) && hi - lo >= EPSILON
    requires |normal| == |values| && forall j | 0 <= j < |values| :: normal[j] == Shifted(values[j], lo, hi)
    ensures IsNormalised(values, normal)
  {
    hide Shifted;
    forall i | 0 <= i < |values|
      ensures 0.0 <= normal[i] <= 1.0 && (values[i] == lo <==> normal[i] == 0.0)
        && (values[i] == hi <==> normal[i] == 1.0)
    {
      assert values[i] in values;
      ShiftedOrder(lo, values[i], lo, hi);
      ShiftedOrder(values[i], lo, lo, hi);
      ShiftedOrder(values[i], hi, lo, hi);
      ShiftedOrder(hi, values[i], lo, hi);
    }
    forall i, j | 0 <= i < |values| && 0 <= j < |values| ensures values[i] < values[j] <==> normal[i] < normal[j] {
      ShiftedOrder(values[i], values[j], lo, hi);
    }
  }

  // ---------- fusing two lists with their scores ----------

  function ScoresOf(results: seq<Vote>): seq<real> {
    seq(|results|, i requires 0 <= i < |results| => results[i].value)
  }

  /** What a normalised score adds, to break ties. */
  function ScoreTerm(weight: real, normal: real): real { weight * normal * 0.01 }

  /** What the normalised scores of one list add. */
  function NormVotes(weight: real, results: seq<Vote>): Votes {
    var normal := Normalised(ScoresOf(results));
    seq(|results|, p requires 0 <= p < |results| => Vote(results[p].id, ScoreTerm(weight, normal[p])))
  }

  /** What one list adds, rank and score together. */
  function SideVotes(weight: real, k: nat, results: seq<Vote>): Votes {
    var normal := Normalised(ScoresOf(results));
    seq(|results|, p requires 0 <= p < |results| =>
      Vote(results[p].id, RankTerm(weight, k, p + 1) + ScoreTerm(weight, normal[p])))
  }

  /** The two lists to fuse, best first. */
  datatype Fusion = Fusion(vector: seq<Vote>, graph: seq<Vote>, k: nat, vectorWeight: real, graphWeight: real) {
    function AllVotes(): Votes { SideVotes(vectorWeight, k, vector) + SideVotes(graphWeight, k, graph) }

    function RankVotes(): Votes { ListVotes(vectorWeight, k, IdsOf(vector)) + ListVotes(graphWeight, k, IdsOf(graph)) }

    function ScoreVotes(): Votes { NormVotes(vectorWeight, vector) + NormVotes(graphWeight, graph) }
  }

  /** y and z split every vote of x. */
  ghost predicate Split(x: Votes, y: Votes, z: Votes) {
    && |x| == |y| == |z|
    && forall p | 0 <= p < |x| :: x[p].id == y[p].id == z[p].id && x[p].value == y[p].value + z[p].value
  }

  lemma SplitTotals(x: Votes, y: Votes, z: Votes, id: string)
    requires Split(x, y, z)
    ensures Total(x, id) == Total(y, id) + Total(z, id) && (Mentions(x, id) <==> Mentions(y, id))
  {
    TotalsSplit(x, y, z, id);
    MentionsAt(x, id);
    MentionsAt(y, id);
  }

  lemma {:induction false} TotalsSplit(x: Votes, y: Votes, z: Votes, id: string)
    requires Split(x, y, z)
    ensures Total(x, id) == Total(y, id) + Total(z, id)
  {
    if x != [] { TotalsSplit(x[..|x| - 1], y[..|y| - 1], z[..|z| - 1], id); }
  }

  lemma MentionsAt(votes: Votes, id: string)
    ensures Mentions(votes, id) <==> exists p :: 0 <= p < |votes| && votes[p].id == id
  {
    if p :| 0 <= p < |votes| && votes[p].id == id { assert votes[p] in votes; }
  }

  lemma VotesSplit(f: Fusion)
    ensures Split(f.AllVotes(), f.RankVotes(), f.ScoreVotes()) && Split(f.AllVotes(), f.ScoreVotes(), f.RankVotes())
  {
    hide SideVotes, ListVotes, NormVotes;
    SideSplit(f.vectorWeight, f.k, f.vector);
    SideSplit(f.graphWeight, f.k, f.graph);
  }

  lemma SideSplit(weight: real, k: nat, results: seq<Vote>)
    ensures Split(SideVotes(weight, k, results), ListVotes(weight, k, IdsOf(results)), NormVotes(weight, results))
  {
    hide RankTerm, ScoreTerm, Normalised;
  }

  lemma TalliesAt(scores: map<string, real>, votes: Votes, id: string)
    requires Tallies(scores, votes)
    ensures Credit(scores, id) == Total(votes, id) && (id in scores <==> Mentions(votes, id))
  {
    hide Total, Mentions, Credit;
  }

  lemma TalliesFrom(scores: map<string, real>, votes: Votes)
    requires forall id :: Credit(scores, id) == Total(votes, id) && (id in scores <==> Mentions(votes, id))
    ensures Tallies(scores, votes)
  {
    hide Total, Mentions, Credit;
  }

  lemma CreditAdds(scores: map<string, real>, more: map<string, real>, both: map<string, real>, id: string)
    requires both == map x | x in scores :: scores[x] + Credit(more, x)
    requires id in more ==> id in scores
    ensures Credit(both, id) == Credit(scores, id) + Credit(more, id)
  {
  }

  /** Tallying ranks and scores apart and adding the tallies gives the same as tallying them together. */
  lemma TalliesAdd(f: Fusion, scores: map<string, real>, contributions: map<string, real>)
    requires Tallies(scores, f.RankVotes()) && Tallies(contributions, f.ScoreVotes())
    ensures Tallies(map id | id in scores :: scores[id] + Credit(contributions, id), f.AllVotes())
  {
    VotesSplit(f);
    hide *;
    var both := map id | id in scores :: scores[id] + Credit(contributions, id);
    forall id ensures Credit(both, id) == Total(f.AllVotes(), id) && (id in both <==> Mentions(f.AllVotes(), id)) {
      SplitTotals(f.AllVotes(), f.RankVotes(), f.ScoreVotes(), id);
      SplitTotals(f.AllVotes(), f.ScoreVotes(), f.RankVotes(), id);
      TalliesAt(scores, f.RankVotes(), id);
      TalliesAt(contributions, f.ScoreVotes(), id);
      CreditAdds(scores, contributions, both, id);
    }
    TalliesFrom(both, f.AllVotes());
  }

  /** Enters the ranks and the normalised scores of one list into their tallies. */
  method TallyBoth(scores: map<string, real>, contributions: map<string, real>, weight: real, k: nat,
                   results: seq<Vote>,
                   ghost ranks: Votes, ghost norms: Votes)
    returns (scores': map<string, real>, contributions': map<string, real>)
    requires Tallies(scores, ranks) && Tallies(contributions, norms)
    ensures Tallies(scores', ranks + ListVotes(weight, k, IdsOf(results)))
    ensures Tallies(contributions', norms + NormVotes(weight, results))
  {
    hide Tallies, RankTerm, ScoreTerm, Normalised, NormVotes;
    var normal := MinMaxNormalize(ScoresOf(results));
    scores', contributions' := scores, contributions;
    ghost var rankVotes, normVotes := ListVotes(weight, k, IdsOf(results)), NormVotes(weight, results);
    NormVotesAt(weight, results);
    assert ranks + rankVotes[..0] == ranks && norms + normVotes[..0] == norms;
    for p := 0 to |results|
      invariant Tallies(scores', ranks + rankVotes[..p])
      invariant Tallies(contributions', norms + normVotes[..p])
    {
      OneMoreVote(scores', ranks + rankVotes[..p], rankVotes[p]);
      OneMoreVote(contributions', norms + normVotes[..p], normVotes[p]);
      assert ranks + rankVotes[..p + 1] == ranks + rankVotes[..p] + [rankVotes[p]];
      assert norms + normVotes[..p + 1] == norms + normVotes[..p] + [normVotes[p]];
      var id := results[p].id;
      scores' := scores'[id := Credit(scores', id) + RankTerm(weight, k, p + 1)];
      contributions' := contributions'[id := Credit(contributions', id) + ScoreTerm(weight, normal[p])];
    }
    assert rankVotes[..|results|] == rankVotes && normVotes[..|results|] == normVotes;
  }

  lemma NormVotesAt(weight: real, results: seq<Vote>)
    ensures |NormVotes(weight, results)| == |Normalised(ScoresOf(results))| == |results|
    ensures forall p | 0 <= p < |results| ::
      NormVotes(weight, results)[p] == Vote(results[p].id, ScoreTerm(weight, Normalised(ScoresOf(results))[p]))
  {
  }

  method TallyFusion(f: Fusion) returns (fused: map<string, real>)
    ensures Tallies(fused, f.AllVotes())
  {
    hide Tallies, ListVotes, NormVotes, SideVotes;
    var scores: map<string, real>, contributions: map<string, real> := map[], map[];
    EmptyTally();
    assert forall votes: Votes :: [] + votes == votes;
    scores, contributions := TallyBoth(scores, contributions, f.vectorWeight, f.k, f.vector, [], []);
    scores, contributions := TallyBoth(scores, contributions, f.graphWeight, f.k, f.graph,
                                       ListVotes(f.vectorWeight, f.k, IdsOf(f.vector)),
                                       NormVotes(f.vectorWeight, f.vector));
    TalliesAdd(f, scores, contributions);
    fused := map id | id in scores :: scores[id] + Credit(contributions, id);
  }

  lemma EmptyTally()
    ensures Tallies(map[], [])
  {
  }

  method WeightedRrfNormalized(f: Fusion) returns (results: seq<Vote>)
    ensures IsRanking(results, f.AllVotes())
  {
    hide Tallies, Fusion.AllVotes, IsRanking;
    var fused := TallyFusion(f);
    results := Descending(fused);
    TalliedRanking(fused, results, f.AllVotes());
  }

  // ---------- where the results come from ----------

  const VECTOR: bv8 := 1
  const GRAPH: bv8 := 2

  function Mark(sources: map<string, bv8>, id: string): bv8 { if id in sources then sources[id] else 0 }

  function Bit(present: bool, bit: bv8): bv8 { if present then bit else 0 }

  function WithBit(x: bv8, present: bool, bit: bv8): bv8 { x | Bit(present, bit) }

  lemma WithBitNext(x: bv8, before: seq<string>, next: string, id: string, bit: bv8)
    ensures WithBit(x, id in before + [next], bit) ==
            if id == next then WithBit(x, id in before, bit) | bit else WithBit(x, id in before, bit)
  {
    if id == next {
      assert id in before + [next];
      OrAgain(x, bit);
    } else {
      assert id in before + [next] <==> id in before;
    }
  }

  lemma OrAgain(x: bv8, bit: bv8)
    ensures (x | bit) | bit == x | bit && x | 0 == x
  {
  }

  lemma NoBit(x: bv8, bit: bv8)
    ensures WithBit(x, false, bit) == x
  {
  }

  /** Sets a bit for every item of a list. */
  method MarkList(sources: map<string, bv8>, results: seq<Vote>, bit: bv8) returns (sources': map<string, bv8>)
    ensures forall id :: Mark(sources', id) == WithBit(Mark(sources, id), id in IdsOf(results), bit)
  {
    hide WithBit;
    sources' := sources;
    ghost var ids := IdsOf(results);
    forall id
      ensures Mark(sources, id) == WithBit(Mark(sources, id), id in ids[..0], bit)
    {
      NoBit(Mark(sources, id), bit);
    }
    for p := 0 to |results|
      invariant forall id :: Mark(sources', id) == WithBit(Mark(sources, id), id in ids[..p], bit)
    {
      assert ids[..p + 1] == ids[..p] + [ids[p]];
      forall id
        ensures WithBit(Mark(sources, id), id in ids[..p + 1], bit) ==
                if id == ids[p] then WithBit(Mark(sources, id), id in ids[..p], bit) | bit
                else WithBit(Mark(sources, id), id in ids[..p], bit)
      {
        WithBitNext(Mark(sources, id), ids[..p], ids[p], id, bit);
      }
      sources' := sources'[results[p].id := Mark(sources', results[p].id) | bit];
    }
    assert ids[..|results|] == ids;
  }

  datatype Sourced = Sourced(id: string, value: real, source: bv8)

  function WithSources(ranked: seq<Vote>, sources: map<string, bv8>): (results: seq<Sourced>)
    ensures |results| == |ranked|
    ensures forall i | 0 <= i < |ranked| ::
      results[i] == Sourced(ranked[i].id, ranked[i].value, Mark(sources, ranked[i].id))
  {
    seq(|ranked|, i requires 0 <= i < |ranked| => Sourced(ranked[i].id, ranked[i].value, Mark(sources, ranked[i].id)))
  }

  function Unsourced(results: seq<Sourced>): (votes: seq<Vote>)
    ensures |votes| == |results|
    ensures forall i | 0 <= i < |results| :: votes[i].id == results[i].id && votes[i].value == results[i].value
  {
    seq(|results|, i requires 0 <= i < |results| => Vote(results[i].id, results[i].value))
  }

  function Bitmap(inVector: bool, inGraph: bool): bv8 { WithBit(Bit(inVector, VECTOR), inGraph, GRAPH) }

  /** The same ranking, with a bitmap of the lists in which each item occurs. */
  method WeightedRrfWithProvenance(f: Fusion) returns (results: seq<Sourced>)
    ensures IsRanking(Unsourced(results), f.AllVotes())
    ensures forall r | r in results :: r.source == Bitmap(r.id in IdsOf(f.vector), r.id in IdsOf(f.graph))
  {
    hide Tallies, Fusion.AllVotes, IsRanking, WithBit;
    var fused := TallyFusion(f);
    var sources: map<string, bv8> := map[];
    sources := MarkList(sources, f.vector, VECTOR);
    sources := MarkList(sources, f.graph, GRAPH);
    var ranked := Descending(fused);
    TalliedRanking(fused, ranked, f.AllVotes());
    results := WithSources(ranked, sources);
    assert Unsourced(results) == ranked;
    forall id ensures Mark(sources, id) == Bitmap(id in IdsOf(f.vector), id in IdsOf(f.graph)) {
      NothingMarked(VECTOR);
    }
  }

  lemma NothingMarked(x: bv8)
    ensures WithBit(0, true, x) == x && WithBit(0, false, x) == 0
  {
  }

  // ---------- diagnostics ----------

  /** The last rank of an item, counted from 1, or 0. */
  function LastRank(ids: seq<string>, id: string): (rank: nat)
    ensures rank <= |ids| && (rank > 0 <==> id in ids) && (rank > 0 ==> ids[rank - 1] == id)
    ensures forall p | rank <= p < |ids| :: ids[p] != id
  {
    if ids == [] then 0
    else
      assert ids == ids[..|ids| - 1] + [ids[|ids| - 1]];
      if ids[|ids| - 1] == id then |ids| else LastRank(ids[..|ids| - 1], id)
  }

  datatype Detail = Detail(rank: nat, normal: real, contribution: real)

  /** What the diagnostics say of an item and a list. */
  function DetailOf(weight: real, k: nat, results: seq<Vote>, id: string): Detail {
    var rank := LastRank(IdsOf(results), id);
    if rank == 0 then Detail(0, 0.0, 0.0)
    else Detail(rank, Normalised(ScoresOf(results))[rank - 1], RankTerm(weight, k, rank))
  }

  function RankAt(ranks: map<string, nat>, id: string): nat { if id in ranks then ranks[id] else 0 }

  function Noted(ranks: map<string, nat>, norms: map<string, real>, contribs: map<string, real>, id: string): Detail {
    Detail(RankAt(ranks, id), Credit(norms, id), Credit(contribs, id))
  }

  /** The details of a list read up to position p. */
  ghost function DetailBefore(weight: real, k: nat, ids: seq<string>, normal: seq<real>, id: string): Detail
    requires |ids| <= |normal|
  {
    var rank := LastRank(ids, id);
    if rank == 0 then Detail(0, 0.0, 0.0) else Detail(rank, normal[rank - 1], RankTerm(weight, k, rank))
  }

  method TallyDiagnosed(scores: map<string, real>, weight: real, k: nat, results: seq<Vote>, ghost votes: Votes)
    returns (scores': map<string, real>, ranks: map<string, nat>, norms: map<string, real>, contribs: map<string, real>)
    requires Tallies(scores, votes)
    ensures Tallies(scores', votes + SideVotes(weight, k, results))
    ensures forall id :: Noted(ranks, norms, contribs, id) == DetailOf(weight, k, results, id)
  {
    hide Tallies, RankTerm, ScoreTerm, Normalised, SideVotes, LastRank, DetailBefore, DetailOf, Noted;
    var normal := MinMaxNormalize(ScoresOf(results));
    scores', ranks, norms, contribs := scores, map[], map[], map[];
    ghost var all, ids := SideVotes(weight, k, results), IdsOf(results);
    SideVotesAt(weight, k, results);
    assert votes + all[..0] == votes;
    forall id ensures Noted(ranks, norms, contribs, id) == DetailBefore(weight, k, ids[..0], normal, id) {
      DetailNone(weight, k, normal, id);
    }
    for p := 0 to |results|
      invariant Tallies(scores', votes + all[..p])
      invariant forall id :: Noted(ranks, norms, contribs, id) == DetailBefore(weight, k, ids[..p], normal, id)
    {
      OneMoreVote(scores', votes + all[..p], all[p]);
      assert votes + all[..p + 1] == votes + all[..p] + [all[p]];
      var id := results[p].id;
      var contribution := RankTerm(weight, k, p + 1);
      scores' := scores'[id := Credit(scores', id) + (contribution + ScoreTerm(weight, normal[p]))];
      var ranks', norms', contribs' := ranks[id := p + 1], norms[id := normal[p]], contribs[id := contribution];
      forall other
        ensures Noted(ranks', norms', contribs', other) == DetailBefore(weight, k, ids[..p + 1], normal, other)
      {
        NotedNext(ranks, norms, contribs, id, Detail(p + 1, normal[p], contribution), other);
        DetailNext(weight, k, ids, normal, p, other);
        assert Noted(ranks, norms, contribs, other) == DetailBefore(weight, k, ids[..p], normal, other);
      }
      ranks, norms, contribs := ranks', norms', contribs';
    }
    assert all[..|results|] == all && ids[..|results|] == ids;
    forall id { DetailAll(weight, k, results, id); }
  }

  lemma NotedNext(ranks: map<string, nat>, norms: map<string, real>, contribs: map<string, real>, id: string,
                  d: Detail, other: string)
    ensures Noted(ranks[id := d.rank], norms[id := d.normal], contribs[id := d.contribution], other) ==
            if other == id then d else Noted(ranks, norms, contribs, other)
  {
  }

  lemma DetailNone(weight: real, k: nat, normal: seq<real>, id: string)
    ensures DetailBefore(weight, k, [], normal, id) == Detail(0, 0.0, 0.0) == Noted(map[], map[], map[], id)
  {
  }

  lemma DetailAll(weight: real, k: nat, results: seq<Vote>, id: string)
    ensures DetailOf(weight, k, results, id)
      == DetailBefore(weight, k, IdsOf(results), Normalised(ScoresOf(results)), id)
  {
  }

  lemma DetailNext(weight: real, k: nat, ids: seq<string>, normal: seq<real>, p: nat, id: string)
    requires p < |ids| == |normal|
    ensures DetailBefore(weight, k, ids[..p + 1], normal, id) ==
            if id == ids[p] then Detail(p + 1, normal[p], RankTerm(weight, k, p + 1))
            else DetailBefore(weight, k, ids[..p], normal, id)
  {
    assert ids[..p + 1][..p] == ids[..p];
  }

  lemma SideVotesAt(weight: real, k: nat, results: seq<Vote>)
    ensures |SideVotes(weight, k, results)| == |Normalised(ScoresOf(results))| == |results|
    ensures forall p | 0 <= p < |results| ::
      SideVotes(weight, k, results)[p]
      == Vote(results[p].id, RankTerm(weight, k, p + 1) + ScoreTerm(weight, Normalised(ScoresOf(results))[p]))
  {
  }

  datatype Diagnosed = Diagnosed(id: string, value: real, source: bv8, vector: Detail, graph: Detail)

  function Undiagnosed(results: seq<Diagnosed>): (votes: seq<Vote>)
    ensures |votes| == |results|
    ensures forall i | 0 <= i < |results| :: votes[i].id == results[i].id && votes[i].value == results[i].value
  {
    seq(|results|, i requires 0 <= i < |results| => Vote(results[i].id, results[i].value))
  }

  /** The same ranking and bitmap, with rank, normalised score and contribution in each list. */
  method WeightedRrfWithDiagnostics(f: Fusion) returns (results: seq<Diagnosed>)
    ensures IsRanking(Undiagnosed(results), f.AllVotes())
    ensures forall r | r in results :: r.source == Bitmap(r.id in IdsOf(f.vector), r.id in IdsOf(f.graph))
    ensures forall r | r in results :: r.vector == DetailOf(f.vectorWeight, f.k, f.vector, r.id)
    ensures forall r | r in results :: r.graph == DetailOf(f.graphWeight, f.k, f.graph, r.id)
  {
    hide Tallies, SideVotes, IsRanking, WithBit, DetailOf;
    var scores: map<string, real> := map[];
    EmptyTally();
    assert forall votes: Votes :: [] + votes == votes;
    var vectorRanks, vectorNorms, vectorContribs, graphRanks, graphNorms, graphContribs;
    scores, vectorRanks, vectorNorms, vectorContribs := TallyDiagnosed(scores, f.vectorWeight, f.k, f.vector, []);
    scores, graphRanks, graphNorms, graphContribs :=
      TallyDiagnosed(scores, f.graphWeight, f.k, f.graph, SideVotes(f.vectorWeight, f.k, f.vector));
    var sources: map<string, bv8> := map[];
    sources := MarkList(sources, f.vector, VECTOR);
    sources := MarkList(sources, f.graph, GRAPH);
    forall id ensures Mark(sources, id) == Bitmap(id in IdsOf(f.vector), id in IdsOf(f.graph)) {
      NothingMarked(VECTOR);
    }
    var ranked := Descending(scores);
    TalliedRanking(scores, ranked, f.AllVotes());
    results := seq(|ranked|, i requires 0 <= i < |ranked| =>
      Diagnosed(ranked[i].id, ranked[i].value, Mark(sources, ranked[i].id),
                Noted(vectorRanks, vectorNorms, vectorContribs, ranked[i].id),
                Noted(graphRanks, graphNorms, graphContribs, ranked[i].id)));
    assert Undiagnosed(results) == ranked;
  }

  /** When no list repeats an item, the diagnostics account for the whole score. */
  lemma DetailsExplainScore(f: Fusion, id: string)
    requires Distinct(IdsOf(f.vector)) && Distinct(IdsOf(f.graph))
    ensures var v, g := DetailOf(f.vectorWeight, f.k, f.vector, id), DetailOf(f.graphWeight, f.k, f.graph, id);
            Total(f.AllVotes(), id) == v.contribution + ScoreTerm(f.vectorWeight, v.normal)
                                       + (g.contribution + ScoreTerm(f.graphWeight, g.normal))
  {
    hide RankTerm, SideVotes, DetailOf, ScoreTerm;
    TotalJoin(SideVotes(f.vectorWeight, f.k, f.vector), SideVotes(f.graphWeight, f.k, f.graph), id);
    SideExplained(f.vectorWeight, f.k, f.vector, id);
    SideExplained(f.graphWeight, f.k, f.graph, id);
  }

  lemma SideExplained(weight: real, k: nat, results: seq<Vote>, id: string)
    requires Distinct(IdsOf(results))
    ensures var d := DetailOf(weight, k, results, id);
            Total(SideVotes(weight, k, results), id) == d.contribution + ScoreTerm(weight, d.normal)
  {
    hide RankTerm, SideVotes, Normalised, LastRank;
    SideVotesAt(weight, k, results);
    var votes := SideVotes(weight, k, results);
    assert IdsOf(votes) == IdsOf(results);
    TotalOfDistinct(votes, id);
    var rank := LastRank(IdsOf(results), id);
    if rank > 0 { assert votes[rank - 1].id == id; }
  }

  // ---------- scores and details written out ----------

  lemma {:induction false} TotalIsSum(votes: Votes, id: string, terms: int -> real)
    requires forall p | 0 <= p < |votes| :: terms(p) == if votes[p].id == id then votes[p].value else 0.0
    ensures Total(votes, id) == Sums.Sum(|votes|, terms)
  {
    if votes != [] { TotalIsSum(votes[..|votes| - 1], id, terms); }
  }

  /** What a list gives an item: for each of its positions p, counted from 0, the weight over k + p + 1. */
  lemma ListScore(list: Ranked, k: nat, id: string, terms: int -> real)
    requires forall p | 0 <= p < |list.items| ::
      terms(p) == if list.items[p] == id then list.weight / (k as real + p as real + 1.0) else 0.0
    ensures Total(ListVotes(list.weight, k, list.items), id) == Sums.Sum(|list.items|, terms)
  {
    var votes := ListVotes(list.weight, k, list.items);
    forall p | 0 <= p < |votes| ensures terms(p) == if votes[p].id == id then votes[p].value else 0.0 {
      assert k as real + p as real + 1.0 == k as real + (p + 1) as real;
    }
    TotalIsSum(votes, id, terms);
  }

  /** The fused score is what the lists give, added up. */
  lemma {:induction false} FusedScore(lists: seq<Ranked>, k: nat, id: string, given: int -> real)
    requires forall l | 0 <= l < |lists| :: given(l) == Total(ListVotes(lists[l].weight, k, lists[l].items), id)
    ensures Total(AllVotes(lists, k), id) == Sums.Sum(|lists|, given)
  {
    hide ListVotes;
    if lists != [] {
      var n := |lists| - 1;
      FusedScore(lists[..n], k, id, given);
      TotalJoin(AllVotes(lists[..n], k), ListVotes(lists[n].weight, k, lists[n].items), id);
    }
  }

  /** An item that stands once in all the lists, at position p of one of them, scores that list's weight over
      k + p + 1. */
  lemma StandsOnce(lists: seq<Ranked>, k: nat, id: string, l: nat, p: nat)
    requires l < |lists| && p < |lists[l].items| && lists[l].items[p] == id
    requires forall q | 0 <= q < |lists[l].items| && lists[l].items[q] == id :: q == p
    requires forall m | 0 <= m < |lists| && m != l :: id !in lists[m].items
    ensures Total(AllVotes(lists, k), id) == lists[l].weight / (k as real + p as real + 1.0)
  {
    var given := m => if 0 <= m < |lists| then Total(ListVotes(lists[m].weight, k, lists[m].items), id) else 0.0;
    FusedScore(lists, k, id, given);
    forall m | 0 <= m < |lists| && m != l ensures given(m) == 0.0 { GivesNothing(lists[m], k, id); }
    Sums.SumSingle(|lists|, l, given);
    var terms := q => if q == p then lists[l].weight / (k as real + p as real + 1.0) else 0.0;
    ListScore(lists[l], k, id, terms);
    Sums.SumSingle(|lists[l].items|, p, terms);
  }

  lemma GivesNothing(list: Ranked, k: nat, id: string)
    requires id !in list.items
    ensures Total(ListVotes(list.weight, k, list.items), id) == 0.0
  {
    var none: int -> real := p => 0.0;
    ListScore(list, k, id, none);
    Sums.SumZero(|list.items|, none);
  }

  lemma UnweightedMeaning(lists: seq<seq<string>>)
    ensures |Unweighted(lists)| == |lists|
    ensures forall i | 0 <= i < |lists| :: Unweighted(lists)[i].weight == 1.0 && Unweighted(lists)[i].items == lists[i]
  {
  }

  /** The ranking written out: every item of a list appears, once, with its fused score and nothing else does, and the
      scores fall. */
  lemma RankingMeaning(lists: seq<Ranked>, k: nat, results: seq<Vote>)
    requires IsRanking(results, AllVotes(lists, k))
    ensures forall r | r in results ::
      r.value == Total(AllVotes(lists, k), r.id) && exists l :: l in lists && r.id in l.items
    ensures forall l, id | l in lists && id in l.items :: Vote(id, Total(AllVotes(lists, k), id)) in results
    ensures forall i, j | 0 <= i < j < |results| ::
      results[i].id != results[j].id && results[i].value >= results[j].value
  {
    forall id ensures Mentions(AllVotes(lists, k), id) <==> exists l :: l in lists && id in l.items {
      MentionedExactly(lists, k, id);
    }
    hide AllVotes, Mentions, Total;
  }

  lemma {:induction false} MentionedExactly(lists: seq<Ranked>, k: nat, id: string)
    ensures Mentions(AllVotes(lists, k), id) <==> exists l :: l in lists && id in l.items
  {
    hide RankTerm;
    if lists != [] {
      var front, last := lists[..|lists| - 1], lists[|lists| - 1];
      MentionedExactly(front, k, id);
      MentionedInList(last, k, id);
      MentionsJoin(AllVotes(front, k), ListVotes(last.weight, k, last.items), id);
      assert lists == front + [last];
    }
  }

  lemma MentionsJoin(x: Votes, y: Votes, id: string)
    ensures Mentions(x + y, id) <==> Mentions(x, id) || Mentions(y, id)
  {
    if v :| v in x && v.id == id { assert v in x + y; }
    if v :| v in y && v.id == id { assert v in x + y; }
  }

  lemma MentionedInList(list: Ranked, k: nat, id: string)
    ensures Mentions(ListVotes(list.weight, k, list.items), id) <==> id in list.items
  {
    hide RankTerm;
    var votes := ListVotes(list.weight, k, list.items);
    if id in list.items {
      var p :| 0 <= p < |list.items| && list.items[p] == id;
      assert votes[p] in votes && votes[p].id == id;
    }
  }

  /** Normalising is linear: from the least score, going to 0, to the greatest, going to 1, unless the two are less
      than 2 to the power -52 apart; then every score goes to 1. */
  lemma NormalisedIsLinear(values: seq<real>, lo: real, hi: real, i: nat)
    requires i < |values| && lo in values && hi in values && forall v | v in values :: lo <= v <= hi
    ensures hi - lo < 1.0 / 4503599627370496.0 ==> Normalised(values)[i] == 1.0
    ensures hi - lo >= 1.0 / 4503599627370496.0 ==> Normalised(values)[i] * (hi - lo) == values[i] - lo
  {
    ExtremesExact(values);
    assert lo == Least(values) && hi == Greatest(values);
    if hi - lo >= EPSILON { QuotientTimes(values[i] - lo, hi - lo); }
  }

  /** What one side of the fusion gives an item: for each of its positions p, counted from 0, the weight over k + p + 1
      and a hundredth of the weight times the normalised score. */
  lemma SideScore(weight: real, k: nat, results: seq<Vote>, id: string, scores: seq<real>, normal: seq<real>,
                  terms: int -> real)
    requires |scores| == |results| && forall p | 0 <= p < |results| :: scores[p] == results[p].value
    requires normal == Normalised(scores)
    requires forall p | 0 <= p < |results| ::
      terms(p)
        == if results[p].id == id then weight / (k as real + p as real + 1.0) + weight * normal[p] * 0.01 else 0.0
    ensures Total(SideVotes(weight, k, results), id) == Sums.Sum(|results|, terms)
  {
    assert scores == ScoresOf(results);
    SideVotesAt(weight, k, results);
    hide SideVotes, Normalised;
    var votes := SideVotes(weight, k, results);
    forall p | 0 <= p < |votes| ensures terms(p) == if votes[p].id == id then votes[p].value else 0.0 {
      RankTermIs(weight, k, p);
    }
    TotalIsSum(votes, id, terms);
  }

  lemma RankTermIs(weight: real, k: nat, p: nat)
    ensures RankTerm(weight, k, p + 1) == weight / (k as real + p as real + 1.0)
  {
  }

  /** The fused score is what the two sides give together. */
  lemma SidesAdd(f: Fusion, id: string)
    ensures Total(f.AllVotes(), id)
      == Total(SideVotes(f.vectorWeight, f.k, f.vector), id) + Total(SideVotes(f.graphWeight, f.k, f.graph), id)
  {
    TotalJoin(SideVotes(f.vectorWeight, f.k, f.vector), SideVotes(f.graphWeight, f.k, f.graph), id);
  }

  /** The ranking of the two sides written out: every item of either appears, once, with its fused score and nothing
      else does, and the scores fall. */
  lemma FusionMeaning(f: Fusion, results: seq<Vote>)
    requires IsRanking(results, f.AllVotes())
    ensures forall r | r in results ::
      r.value == Total(f.AllVotes(), r.id)
      && ((exists x :: x in f.vector && x.id == r.id) || exists x :: x in f.graph && x.id == r.id)
    ensures forall x | x in f.vector || x in f.graph :: Vote(x.id, Total(f.AllVotes(), x.id)) in results
    ensures forall i, j | 0 <= i < j < |results| ::
      results[i].id != results[j].id && results[i].value >= results[j].value
  {
    forall id
      ensures Mentions(f.AllVotes(), id) <==>
        (exists x :: x in f.vector && x.id == id) || exists x :: x in f.graph && x.id == id
    {
      MentionedOnSide(f.vectorWeight, f.k, f.vector, id);
      MentionedOnSide(f.graphWeight, f.k, f.graph, id);
      MentionsJoin(SideVotes(f.vectorWeight, f.k, f.vector), SideVotes(f.graphWeight, f.k, f.graph), id);
    }
    hide Fusion.AllVotes, Mentions, Total;
  }

  lemma MentionedOnSide(weight: real, k: nat, results: seq<Vote>, id: string)
    ensures Mentions(SideVotes(weight, k, results), id) <==> exists x :: x in results && x.id == id
  {
    hide RankTerm, ScoreTerm, Normalised;
    SideVotesAt(weight, k, results);
    var votes := SideVotes(weight, k, results);
    hide SideVotes;
    if x :| x in results && x.id == id {
      var p :| 0 <= p < |results| && results[p] == x;
      assert votes[p] in votes && votes[p].id == id;
    }
  }

  /** 1 for the vector list only, 2 for the graph list only, 3 for both. */
  lemma BitmapMeaning(f: Fusion, id: string)
    ensures var inVector, inGraph := exists p :: 0 <= p < |f.vector| && f.vector[p].id == id,
                                     exists p :: 0 <= p < |f.graph| && f.graph[p].id == id;
      Bitmap(id in IdsOf(f.vector), id in IdsOf(f.graph))
      == if inVector && inGraph then 3 else if inVector then 1 else if inGraph then 2 else 0
  {
    InIds(f.vector, id);
    InIds(f.graph, id);
    assert 1 | 2 == 3 as bv8 && 0 | 2 == 2 as bv8 && 1 | 0 == 1 as bv8 && 0 | 0 == 0 as bv8;
  }

  lemma InIds(results: seq<Vote>, id: string)
    ensures id in IdsOf(results) <==> exists p :: 0 <= p < |results| && results[p].id == id
  {
    if p :| 0 <= p < |results| && results[p].id == id { assert IdsOf(results)[p] == id; }
  }

  /** What the diagnostics say of an item and a list: nothing but zeros when the item is not there, and otherwise, for
      its last position, the rank counted from 1, the normalised score, and the weight over k and the rank. */
  lemma DetailMeaning(weight: real, k: nat, results: seq<Vote>, id: string, scores: seq<real>)
    requires |scores| == |results| && forall p | 0 <= p < |results| :: scores[p] == results[p].value
    ensures var d := DetailOf(weight, k, results, id);
      if forall p | 0 <= p < |results| :: results[p].id != id then d.rank == 0 && d.normal == d.contribution == 0.0
      else
        && 1 <= d.rank <= |results| && results[d.rank - 1].id == id
        && (forall p | d.rank <= p < |results| :: results[p].id != id)
        && d.normal == Normalised(scores)[d.rank - 1] && d.contribution == weight / (k as real + d.rank as real)
  {
    assert scores == ScoresOf(results);
    InIds(results, id);
    var ids := IdsOf(results);
    hide Normalised, LastRank, IdsOf, ScoresOf;
    assert forall p | 0 <= p < |results| :: ids[p] == results[p].id;
  }
}
