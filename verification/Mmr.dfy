/** Maximal marginal relevance: the greedy selection with a running maximum similarity, and the
    selection that recomputes everything from scratch. */
module Mmr {
  import opened Ranking
  import opened Signs
  import opened Sizes
  import opened Vectors

  /** A float that may be minus infinity. */
  datatype Ext = NegInfinity | Finite(value: real)

  predicate Exceeds(a: real, b: Ext) { b.NegInfinity? || a > b.value }

  datatype Result<+T> = Ok(value: T) | LengthMismatch

  datatype Problem = Problem(embeddings: seq<Vector>, scores: seq<real>, lambdaParam: real) {

    predicate Valid() { |scores| == |embeddings| }

    predicate InRange(selected: seq<nat>) { forall k | 0 <= k < |selected| :: selected[k] < |embeddings| }

    function Count(): nat { |embeddings| }

    /** The largest similarity of i to a selected item. */
    function MaxSim(selected: seq<nat>, i: nat): Ext
      requires i < Count() && InRange(selected)
    {
      if selected == [] then NegInfinity
      else
        var before := MaxSim(selected[..|selected| - 1], i);
        var last := Dot(embeddings[i], embeddings[selected[|selected| - 1]]);
        if Exceeds(last, before) then Finite(last) else before
    }

    /** That similarity as the selection uses it: nothing below 0 counts. */
    function Penalty(selected: seq<nat>, i: nat): real
      requires i < Count() && InRange(selected)
    {
      Clamp(MaxSim(selected, i))
    }

    /** Relevance against similarity. */
    function Weighed(i: nat, sim: real): real
      requires Valid() && i < Count()
    {
      lambdaParam * scores[i] - (1.0 - lambdaParam) * sim
    }

    function Value(selected: seq<nat>, i: nat): real
      requires Valid() && i < Count() && InRange(selected)
    {
      Weighed(i, Penalty(selected, i))
    }

    /** i is the first of the best items not selected yet. */
    ghost predicate IsNext(selected: seq<nat>, i: nat)
      requires Valid() && InRange(selected)
    {
      && i < Count() && i !in selected
      && forall j | 0 <= j < Count() && j !in selected && j != i ::
           Value(selected, j) < Value(selected, i) || (Value(selected, j) == Value(selected, i) && i < j)
    }

    /** The first k picks, each made from scratch. */
    ghost predicate IsGreedy(picks: seq<nat>)
      requires Valid()
      decreases |picks|
    {
      picks != [] ==>
        var before := picks[..|picks| - 1];
        IsGreedy(before) && InRange(before) && IsNext(before, picks[|picks| - 1])
    }
  }

  function Clamp(x: Ext): real {
    if x.Finite? && x.value > 0.0 then x.value else 0.0
  }

  /** The largest similarity is what its name says: no dot product with a selected item is greater, and
      one is equal. */
  lemma {:induction false} MaxSimIsGreatest(p: Problem, selected: seq<nat>, i: nat)
    requires i < p.Count() && p.InRange(selected) && selected != []
    ensures p.MaxSim(selected, i).Finite?
    ensures forall k | 0 <= k < |selected| ::
      Dot(p.embeddings[i], p.embeddings[selected[k]]) <= p.MaxSim(selected, i).value
    ensures exists k ::
      0 <= k < |selected| && Dot(p.embeddings[i], p.embeddings[selected[k]]) == p.MaxSim(selected, i).value
  {
    hide Dot;
    var front, n := selected[..|selected| - 1], |selected| - 1;
    assert forall k | 0 <= k < n :: front[k] == selected[k];
    var last := Dot(p.embeddings[i], p.embeddings[selected[n]]);
    if front != [] {
      MaxSimIsGreatest(p, front, i);
      var k :| 0 <= k < n && Dot(p.embeddings[i], p.embeddings[front[k]]) == p.MaxSim(front, i).value;
      assert Dot(p.embeddings[i], p.embeddings[selected[k]]) == p.MaxSim(front, i).value;
    }
    assert p.MaxSim(selected, i)
      == if front == [] || last > p.MaxSim(front, i).value then Finite(last) else p.MaxSim(front, i);
  }

  lemma {:induction false} GreedyInRange(p: Problem, picks: seq<nat>)
    requires p.Valid() && p.IsGreedy(picks)
    ensures p.InRange(picks)
    ensures forall i, j | 0 <= i < j < |picks| :: picks[i] != picks[j]
  {
    if picks != [] {
      var before := picks[..|picks| - 1];
      GreedyInRange(p, before);
      assert picks == before + [picks[|picks| - 1]];
    }
  }

  /** The greedy selection is determined by its length, so a shorter one is a prefix of a longer one. */
  lemma {:induction false} GreedyIsPrefix(p: Problem, a: seq<nat>, b: seq<nat>)
    requires p.Valid() && p.IsGreedy(a) && p.IsGreedy(b) && |a| <= |b|
    ensures a == b[..|a|]
    decreases |b|
  {
    if |a| < |b| {
      GreedyIsPrefix(p, a, b[..|b| - 1]);
      assert b[..|b| - 1][..|a|] == b[..|a|];
    } else if a != [] {
      GreedyIsPrefix(p, a[..|a| - 1], b[..|b| - 1]);
      assert a[..|a| - 1] == b[..|b| - 1];
      assert a == a[..|a| - 1] + [a[|a| - 1]] && b == b[..|b| - 1] + [b[|b| - 1]];
    }
  }

  /** sim gives each item's greatest similarity to the selected ones, with nothing below 0, and 0 if there are none. */
  ghost predicate IsClampedGreatest(p: Problem, selected: seq<nat>, sim: nat -> real)
    requires p.InRange(selected)
  {
    forall x: nat | x < p.Count() ::
      && sim(x) >= 0.0
      && (forall k | 0 <= k < |selected| :: Dot(p.embeddings[x], p.embeddings[selected[k]]) <= sim(x))
      && (sim(x) == 0.0 || exists k :: 0 <= k < |selected|
                                       && Dot(p.embeddings[x], p.embeddings[selected[k]]) == sim(x))
  }

  lemma PenaltyMeaning(p: Problem, selected: seq<nat>, sim: nat -> real, x: nat)
    requires p.InRange(selected) && x < p.Count() && IsClampedGreatest(p, selected, sim)
    ensures p.Penalty(selected, x) == sim(x)
  {
    hide Dot;
    if selected != [] { MaxSimIsGreatest(p, selected, x); }
  }

  lemma ValueMeaning(p: Problem, selected: seq<nat>, sim: nat -> real, x: nat, value: real)
    requires p.Valid() && p.InRange(selected) && x < p.Count() && IsClampedGreatest(p, selected, sim)
    requires value == p.lambdaParam * p.scores[x] - (1.0 - p.lambdaParam) * sim(x)
    ensures p.Value(selected, x) == value
  {
    hide IsClampedGreatest, Problem.Penalty;
    PenaltyMeaning(p, selected, sim, x);
  }

  lemma PickOutweighs(p: Problem, picks: seq<nat>, t: nat, i: nat, j: nat, sim: nat -> real, mine: real, other: real)
    requires p.Valid() && p.IsGreedy(picks) && t < |picks| && picks[t] == i < p.Count()
    requires p.InRange(picks[..t]) && IsClampedGreatest(p, picks[..t], sim)
    requires j < p.Count() && j !in picks[..t] && j != i
    requires mine == p.lambdaParam * p.scores[i] - (1.0 - p.lambdaParam) * sim(i)
    requires other == p.lambdaParam * p.scores[j] - (1.0 - p.lambdaParam) * sim(j)
    ensures other < mine || (other == mine && i < j)
  {
    ValueMeaning(p, picks[..t], sim, i, mine);
    ValueMeaning(p, picks[..t], sim, j, other);
    hide Problem.Value, IsClampedGreatest;
    PickIsNext(p, picks, t);
  }

  lemma ClampedGreatest(p: Problem, picks: seq<nat>, t: nat, sim: nat -> real)
    requires t <= |picks| && forall k | 0 <= k < t :: picks[k] < p.Count()
    requires forall x: nat | x < p.Count() ::
      && sim(x) >= 0.0
      && (forall k | 0 <= k < t :: Dot(p.embeddings[x], p.embeddings[picks[k]]) <= sim(x))
      && (sim(x) == 0.0 || exists k :: 0 <= k < t && Dot(p.embeddings[x], p.embeddings[picks[k]]) == sim(x))
    ensures p.InRange(picks[..t]) && IsClampedGreatest(p, picks[..t], sim)
  {
    hide Dot;
    assert forall k | 0 <= k < t :: picks[..t][k] == picks[k];
    forall x: nat | x < p.Count() && sim(x) != 0.0
      ensures exists k :: 0 <= k < t && Dot(p.embeddings[x], p.embeddings[picks[..t][k]]) == sim(x)
    {
      var k :| 0 <= k < t && Dot(p.embeddings[x], p.embeddings[picks[k]]) == sim(x);
      assert picks[..t][k] == picks[k];
    }
  }

  /** Every pick is the best of the items not picked before, written out: lambda times its score, less (1 - lambda)
      times its greatest similarity to those before, with nothing below 0, is greater than any other's, or the same
      and its position is smaller. */
  lemma PickMeaning(p: Problem, picks: seq<nat>, t: nat, i: nat, j: nat, sim: nat -> real, mine: real, other: real)
    requires p.Valid() && p.IsGreedy(picks) && t < |picks| && picks[t] == i < p.Count()
    requires forall k | 0 <= k < t :: picks[k] < p.Count()
    requires forall x: nat | x < p.Count() ::
      && sim(x) >= 0.0
      && (forall k | 0 <= k < t :: Dot(p.embeddings[x], p.embeddings[picks[k]]) <= sim(x))
      && (sim(x) == 0.0 || exists k :: 0 <= k < t && Dot(p.embeddings[x], p.embeddings[picks[k]]) == sim(x))
    requires j < p.Count() && j !in picks[..t] && j != i
    requires mine == p.lambdaParam * p.scores[i] - (1.0 - p.lambdaParam) * sim(i)
    requires other == p.lambdaParam * p.scores[j] - (1.0 - p.lambdaParam) * sim(j)
    ensures other < mine || (other == mine && i < j)
  {
    hide Problem.IsGreedy, Dot, IsClampedGreatest;
    ClampedGreatest(p, picks, t, sim);
    PickOutweighs(p, picks, t, i, j, sim, mine, other);
  }

  lemma PickIsNext(p: Problem, picks: seq<nat>, t: nat)
    requires p.Valid() && p.IsGreedy(picks) && t < |picks|
    ensures p.InRange(picks[..t]) && p.IsNext(picks[..t], picks[t])
  {
    hide Problem.Value;
    GreedyFront(p, picks, t + 1);
    assert picks[..t + 1][..t] == picks[..t];
  }

  lemma {:induction false} GreedyFront(p: Problem, picks: seq<nat>, t: nat)
    requires p.Valid() && p.IsGreedy(picks) && t <= |picks|
    ensures p.IsGreedy(picks[..t])
    decreases |picks|
  {
    if t < |picks| {
      GreedyFront(p, picks[..|picks| - 1], t);
      assert picks[..|picks| - 1][..t] == picks[..t];
    } else {
      assert picks[..t] == picks;
    }
  }

  /** With lambda below 1, an item of the same score as the pick is at least as similar to what was picked before. */
  lemma LessSimilarFirst(p: Problem, picks: seq<nat>, t: nat, j: nat, sim: nat -> real)
    requires p.Valid() && p.IsGreedy(picks) && t < |picks| && p.lambdaParam < 1.0
    requires p.InRange(picks[..t]) && IsClampedGreatest(p, picks[..t], sim)
    requires j < p.Count() && j !in picks[..t] && j != picks[t] && picks[t] < p.Count()
    requires p.scores[j] == p.scores[picks[t]]
    ensures sim(picks[t]) < sim(j) || (sim(picks[t]) == sim(j) && picks[t] < j)
  {
    hide IsClampedGreatest, Problem.IsGreedy;
    var i, score := picks[t], p.scores[j];
    var mine, other := Weigh(p.lambdaParam, score, sim(i)), Weigh(p.lambdaParam, score, sim(j));
    PickOutweighs(p, picks, t, i, j, sim, mine, other);
    hide *;
    SmallerPenalty(p.lambdaParam, score, sim(i), sim(j));
  }

  ghost function Weigh(l: real, score: real, sim: real): real { l * score - (1.0 - l) * sim }

  lemma SmallerPenalty(l: real, score: real, x: real, y: real)
    requires l < 1.0
    ensures Weigh(l, score, y) < Weigh(l, score, x) <==> x < y
    ensures Weigh(l, score, y) == Weigh(l, score, x) <==> x == y
  {
    if x < y { ProductLess(1.0 - l, x, y); }
    if y < x { ProductLess(1.0 - l, y, x); }
  }

  /** With lambda 1 the selection is the ranking by score: descending, ties by position. */
  lemma {:induction false} PureRelevance(p: Problem, picks: seq<nat>)
    requires p.Valid() && p.lambdaParam == 1.0 && p.IsGreedy(picks) && |picks| <= p.Count()
    ensures picks == TopK(p.scores, |picks|)
  {
    if picks != [] {
      var before, i := picks[..|picks| - 1], picks[|picks| - 1];
      assert picks == before + [i] && p.IsGreedy(before) && p.IsNext(before, i);
      hide Problem.IsGreedy, Problem.Value, TopK;
      PureRelevance(p, before);
      forall u | 0 <= u < p.Count() && u !in before && u != i
        ensures RanksBefore(KeyOf(p.scores, i), KeyOf(p.scores, u))
      {
        PureValue(p, before, u);
        PureValue(p, before, i);
      }
      NextInRanking(p.scores, |before|, i);
    }
  }

  lemma PureValue(p: Problem, selected: seq<nat>, i: nat)
    requires p.Valid() && p.lambdaParam == 1.0 && i < p.Count() && p.InRange(selected)
    ensures p.Value(selected, i) == p.scores[i]
  {
    assert 0.0 * p.Penalty(selected, i) == 0.0;
  }

  /** What is kept between rounds: which items are left, and the running maximum of each of them. */
  ghost predicate Tracks(p: Problem, selected: seq<nat>, available: seq<bool>, maxSim: seq<Ext>)
    requires p.InRange(selected)
  {
    && |available| == |maxSim| == p.Count()
    && (forall i | 0 <= i < p.Count() :: available[i] <==> i !in selected)
    && (forall i | 0 <= i < p.Count() && available[i] :: maxSim[i] == p.MaxSim(selected, i))
  }

  /** Scans the items that are left for the first best one. */
  method PickBest(p: Problem, selected: seq<nat>, available: array<bool>, maxSim: array<Ext>) returns (best: nat)
    requires p.Valid() && p.InRange(selected)
    requires Tracks(p, selected, available[..], maxSim[..])
    requires exists i :: 0 <= i < p.Count() && i !in selected
    ensures p.IsNext(selected, best)
  {
    hide Problem.Value, Problem.MaxSim, Problem.Weighed;
    best := p.Count();
    var bestMmr := NegInfinity;
    for i := 0 to p.Count()
      invariant bestMmr.NegInfinity? ==> forall j | 0 <= j < i :: j in selected
      invariant bestMmr.Finite? ==> best < i && best !in selected && bestMmr.value == p.Value(selected, best)
      invariant bestMmr.Finite? ==> forall j | 0 <= j < i && j !in selected && j != best ::
        p.Value(selected, j) < p.Value(selected, best) || (p.Value(selected, j) == p.Value(selected, best) && best < j)
    {
      assert available[..][i] == available[i] && maxSim[..][i] == maxSim[i];
      if !available[i] { continue; }
      var sim := if selected == [] then 0.0 else Clamp(maxSim[i]);
      PenaltyIs(p, selected, i, maxSim[i]);
      var mmr := p.Weighed(i, sim);
      ValueIs(p, selected, i);
      if Exceeds(mmr, bestMmr) {
        bestMmr := Finite(mmr);
        best := i;
      }
    }
  }

  lemma PenaltyIs(p: Problem, selected: seq<nat>, i: nat, m: Ext)
    requires p.Valid() && i < p.Count() && p.InRange(selected) && m == p.MaxSim(selected, i)
    ensures p.Penalty(selected, i) == if selected == [] then 0.0 else Clamp(m)
  {
  }

  lemma ValueIs(p: Problem, selected: seq<nat>, i: nat)
    requires p.Valid() && i < p.Count() && p.InRange(selected)
    ensures p.Value(selected, i) == p.Weighed(i, p.Penalty(selected, i))
  {
  }

  lemma MaxSimNext(p: Problem, selected: seq<nat>, best: nat, i: nat)
    requires i < p.Count() && best < p.Count() && p.InRange(selected)
    ensures p.MaxSim(selected + [best], i) ==
      var dot := Dot(p.embeddings[best], p.embeddings[i]);
      if Exceeds(dot, p.MaxSim(selected, i)) then Finite(dot) else p.MaxSim(selected, i)
    ensures selected == [] ==> p.MaxSim(selected + [best], i) == Finite(Dot(p.embeddings[best], p.embeddings[i]))
  {
    assert (selected + [best])[..|selected|] == selected;
    DotCommutes(p.embeddings[best], p.embeddings[i]);
  }

  /** Takes the pick out and updates the running maxima of the others. */
  method Select(p: Problem, selected: seq<nat>, best: nat, available: array<bool>, maxSim: array<Ext>)
    requires p.Valid() && p.InRange(selected) && best < p.Count() && best !in selected
    requires Tracks(p, selected, available[..], maxSim[..])
    modifies available, maxSim
    ensures Tracks(p, selected + [best], available[..], maxSim[..])
  {
    hide Problem.MaxSim, Dot;
    ghost var was := maxSim[..];
    assert forall i | 0 <= i < p.Count() :: available[..][i] == available[i];
    available[best] := false;
    for i := 0 to p.Count()
      invariant forall j | 0 <= j < p.Count() :: available[j] <==> j !in selected + [best]
      invariant forall j | 0 <= j < i && available[j] :: maxSim[j] == p.MaxSim(selected + [best], j)
      invariant forall j | i <= j < p.Count() :: maxSim[j] == was[j]
    {
      if !available[i] { continue; }
      var dot := Dot(p.embeddings[best], p.embeddings[i]);
      MaxSimNext(p, selected, best, i);
      if |selected| + 1 == 1 {
        maxSim[i] := Finite(dot);
      } else if Exceeds(dot, maxSim[i]) {
        maxSim[i] := Finite(dot);
      }
    }
  }

  /** The selection: as many picks as asked for and available, each the one that a selection from
      scratch would make. */
  method DiversitySelect(embeddings: seq<Vector>, scores: seq<real>, lambdaParam: real, k: nat)
    returns (r: Result<seq<nat>>)
    ensures |scores| != |embeddings| ==> r == LengthMismatch
    ensures |scores| == |embeddings| ==> r.Ok? && |r.value| == if k < |embeddings| then k else |embeddings|
    ensures |scores| == |embeddings| ==> Problem(embeddings, scores, lambdaParam).IsGreedy(r.value)
  {
    if |scores| != |embeddings| { return LengthMismatch; }
    var p := Problem(embeddings, scores, lambdaParam);
    var n := |embeddings|;
    var available := new bool[n](_ => true);
    var maxSim := new Ext[n](_ => NegInfinity);
    var selected: seq<nat> := [];
    for round := 0 to Min(k, n)
      invariant |selected| == round && p.IsGreedy(selected) && p.InRange(selected)
      invariant Tracks(p, selected, available[..], maxSim[..])
    {
      SomethingLeft(selected, n);
      var best := PickBest(p, selected, available, maxSim);
      Select(p, selected, best, available, maxSim);
      assert (selected + [best])[..|selected|] == selected;
      selected := selected + [best];
    }
    r := Ok(selected);
  }
}
