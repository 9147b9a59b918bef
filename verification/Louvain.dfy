/** Community detection by greedy label moves, in the arrays the program keeps: adjacency lists,
    strengths, labels, and the total strength of every community, maintained move by move. */
module Louvain {
  import opened Sums
  import opened Modularity
  import opened LouvainRuns

  datatype Neighbour = Neighbour(node: nat, weight: real)

  /** The counted edges out of s among the first t, in input order. */
  ghost function Adjacent(g: Graph, t: nat, s: nat): seq<Neighbour>
    requires t <= |g.edges|
  {
    if t == 0 then []
    else if g.Counts(t - 1) && g.edges[t - 1].src == s
    then Adjacent(g, t - 1, s) + [Neighbour(g.edges[t - 1].dst, g.edges[t - 1].weight)]
    else Adjacent(g, t - 1, s)
  }

  method BuildAdjacency(g: Graph) returns (adj: array<seq<Neighbour>>, strengths: array<real>, total: real)
    ensures fresh(adj) && fresh(strengths)
    ensures adj.Length == g.n && strengths.Length == g.n
    ensures forall s | 0 <= s < g.n :: adj[s] == Adjacent(g, |g.edges|, s)
    ensures forall s | 0 <= s < g.n :: strengths[s] == g.Strength(s)
    ensures total == 2.0 * g.M()
  {
    adj := new seq<Neighbour>[g.n](_ => []);
    strengths := new real[g.n](_ => 0.0);
    total := 0.0;
    for t := 0 to |g.edges|
      invariant forall s | 0 <= s < g.n :: adj[s] == Adjacent(g, t, s)
      invariant forall s | 0 <= s < g.n :: strengths[s] == g.StrengthUpTo(t, s)
      invariant total == g.TotalUpTo(t)
    {
      var e := g.edges[t];
      if e.src < g.n && e.dst < g.n && e.src != e.dst {
        adj[e.src] := adj[e.src] + [Neighbour(e.dst, e.weight)];
        strengths[e.src] := strengths[e.src] + e.weight;
        total := total + e.weight;
      }
    }
  }

  /** Weight of i's edges into community l among the first t edges. */
  ghost function IntoUpTo(g: Graph, t: nat, i: int, c: seq<nat>, l: int): real {
    Sum(t, e => if g.Source(e) == i && Label(c, g.Target(e)) == l then g.WeightAt(e) else 0.0)
  }

  ghost function ListInto(list: seq<Neighbour>, c: seq<nat>, l: int): real {
    if list == [] then 0.0
    else ListInto(list[..|list| - 1], c, l)
         + if Label(c, list[|list| - 1].node) == l then list[|list| - 1].weight else 0.0
  }

  /** Summing along an adjacency list is summing over the edge list. */
  lemma {:induction false} ListIntoIsIntoUpTo(g: Graph, t: nat, i: nat, c: seq<nat>, l: int)
    requires t <= |g.edges|
    ensures ListInto(Adjacent(g, t, i), c, l) == IntoUpTo(g, t, i, c, l)
  {
    if t > 0 {
      ListIntoIsIntoUpTo(g, t - 1, i, c, l);
      var list := Adjacent(g, t, i);
      if g.Counts(t - 1) && g.edges[t - 1].src == i {
        assert list[..|list| - 1] == Adjacent(g, t - 1, i);
      }
    }
  }

  ghost function ListLabels(list: seq<Neighbour>, c: seq<nat>): set<nat>
    requires forall j | 0 <= j < |list| :: list[j].node < |c|
  {
    set j | 0 <= j < |list| :: c[list[j].node]
  }

  /** An edge from i to x among the first t. */
  ghost predicate HasEdge(g: Graph, t: nat, i: nat, x: nat)
    requires t <= |g.edges|
  {
    exists e :: 0 <= e < t && g.Counts(e) && g.edges[e].src == i && g.edges[e].dst == x
  }

  ghost predicate Lists(list: seq<Neighbour>, x: nat) {
    exists j :: 0 <= j < |list| && list[j].node == x
  }

  lemma {:induction false} AdjacentMembers(g: Graph, t: nat, i: nat, x: nat)
    requires t <= |g.edges|
    ensures Lists(Adjacent(g, t, i), x) <==> HasEdge(g, t, i, x)
  {
    if t > 0 {
      AdjacentMembers(g, t - 1, i, x);
      var list, before := Adjacent(g, t, i), Adjacent(g, t - 1, i);
      if Lists(before, x) {
        var j :| 0 <= j < |before| && before[j].node == x;
        assert list[j].node == x;
      }
      if g.Counts(t - 1) && g.edges[t - 1].src == i {
        assert list[|list| - 1].node == g.edges[t - 1].dst;
      }
    }
  }

  /** The keys of the weight map are the neighbours' communities. */
  lemma ListLabelsAreNeighbourLabels(g: Graph, c: seq<nat>, i: nat)
    requires ValidLabels(g, c) && i < g.n
    ensures forall j | 0 <= j < |Adjacent(g, |g.edges|, i)| :: Adjacent(g, |g.edges|, i)[j].node < |c|
    ensures ListLabels(Adjacent(g, |g.edges|, i), c) == NeighbourLabels(g, c, i)
  {
    var list := Adjacent(g, |g.edges|, i);
    forall j | 0 <= j < |list| ensures list[j].node < |c| && c[list[j].node] in NeighbourLabels(g, c, i) {
      AdjacentMembers(g, |g.edges|, i, list[j].node);
    }
    forall l | l in NeighbourLabels(g, c, i) ensures l in ListLabels(list, c) {
      var e :| 0 <= e < |g.edges| && g.Counts(e) && g.edges[e].src == i && c[g.edges[e].dst] == l;
      AdjacentMembers(g, |g.edges|, i, g.edges[e].dst);
    }
  }

  lemma LabelsNext(list: seq<Neighbour>, j: nat, c: seq<nat>)
    requires j < |list| && forall k | 0 <= k < |list| :: list[k].node < |c|
    ensures ListLabels(list[..j + 1], c) == ListLabels(list[..j], c) + {c[list[j].node]}
  {
    var before, after := list[..j], list[..j + 1];
    forall x | x in ListLabels(before, c) + {c[list[j].node]} ensures x in ListLabels(after, c) {
      if x == c[list[j].node] { assert c[after[j].node] == x; }
      else { var k :| 0 <= k < |before| && c[before[k].node] == x; assert c[after[k].node] == x; }
    }
  }

  lemma NothingGathered(c: seq<nat>)
    ensures ListLabels([], c) == {} && forall l :: ListInto([], c, l) == 0.0
  {
  }

  lemma IntoNext(list: seq<Neighbour>, j: nat, c: seq<nat>, l: int)
    requires j < |list| && forall k | 0 <= k < |list| :: list[k].node < |c|
    ensures ListInto(list[..j + 1], c, l)
      == ListInto(list[..j], c, l) + if c[list[j].node] == l then list[j].weight else 0.0
  {
    assert list[..j + 1][..j] == list[..j];
  }

  /** The weight from one node to each community around it. */
  method GatherWeights(list: seq<Neighbour>, community: array<nat>) returns (kIn: map<nat, real>)
    requires forall j | 0 <= j < |list| :: list[j].node < community.Length
    ensures kIn.Keys == ListLabels(list, community[..])
    ensures forall l | l in kIn :: kIn[l] == ListInto(list, community[..], l)
    ensures forall l | l !in kIn :: ListInto(list, community[..], l) == 0.0
  {
    hide *;
    kIn := map[];
    ghost var c := community[..];
    NothingGathered(c);
    for j := 0 to |list|
      invariant kIn.Keys == ListLabels(list[..j], c)
      invariant forall l | l in kIn :: kIn[l] == ListInto(list[..j], c, l)
      invariant forall l | l !in kIn :: ListInto(list[..j], c, l) == 0.0
    {
      var l := community[list[j].node];
      LabelsNext(list, j, c);
      ghost var was := kIn.Keys;
      kIn := kIn[l := (if l in kIn then kIn[l] else 0.0) + list[j].weight];
      forall x | x in kIn ensures kIn[x] == ListInto(list[..j + 1], c, x) { IntoNext(list, j, c, x); }
      forall x | x !in kIn ensures ListInto(list[..j + 1], c, x) == 0.0 {
        IntoNext(list, j, c, x);
        assert x != l && x !in was;
      }
    }
    assert list[..|list|] == list;
  }

  lemma BestExtend(gain: int -> real, from: set<nat>, l: nat, best: nat)
    requires IsBest(gain, from, best) && l !in from
    ensures IsBest(gain, from + {l}, if Preferred(gain, l, best) then l else best)
  {
    var now := if Preferred(gain, l, best) then l else best;
    forall x | x in from + {l} && x != now ensures Preferred(gain, now, x) {
      if x != l && x != best { assert Preferred(gain, best, x); }
    }
  }

  /** Looks through the communities in an arbitrary order, as a hash map hands them out. The
      result is the best of them and the present one, whatever the order. */
  method ChooseCommunity(r: real, m: real, ki: real, ci: nat, kIn: map<nat, real>, sigmaTot: array<real>,
                         ghost gain: int -> real) returns (bestC: nat)
    requires m != 0.0 && ci < sigmaTot.Length && forall l | l in kIn :: l < sigmaTot.Length
    requires gain(ci) == GainFormula(r, m, ki, if ci in kIn then kIn[ci] else 0.0, sigmaTot[ci])
    requires forall l | l in kIn :: gain(l) == GainFormula(r, m, ki, kIn[l], sigmaTot[l])
    ensures IsBest(gain, kIn.Keys + {ci}, bestC)
  {
    var gainOfStaying := GainFormula(r, m, ki, if ci in kIn then kIn[ci] else 0.0, sigmaTot[ci]);
    bestC := ci;
    var bestGain := gainOfStaying;
    var rest := kIn.Keys;
    while rest != {}
      invariant rest <= kIn.Keys
      invariant IsBest(gain, kIn.Keys - rest + {ci}, bestC)
      invariant bestGain == gain(bestC)
      decreases rest
    {
      var l :| l in rest;
      assert kIn.Keys - rest + {ci} == kIn.Keys - (rest - {l}) - {l} + {ci};
      rest := rest - {l};
      if l == ci { assert kIn.Keys - rest - {l} + {ci} == kIn.Keys - rest + {ci}; continue; }
      var gainHere := GainFormula(r, m, ki, kIn[l], sigmaTot[l]);
      BestExtend(gain, kIn.Keys - rest - {l} + {ci}, l, bestC);
      assert kIn.Keys - rest + {ci} == kIn.Keys - rest - {l} + {ci} + {l};
      if gainHere > bestGain || (gainHere == bestGain && l < bestC) {
        bestGain := gainHere;
        bestC := l;
      }
    }
    assert kIn.Keys - rest + {ci} == kIn.Keys + {ci};
  }

  /** Taking i out of its community. */
  lemma SigmaRemove(g: Graph, c: seq<nat>, i: nat, l: int)
    requires |c| == g.n && i < g.n
    ensures g.SigmaWithout(c, i, l) == g.Sigma(c, l) - (if c[i] == l then g.Strength(i) else 0.0)
  {
    SumPoint(g.n, i, y => if y != i && Label(c, y) == l then g.Strength(y) else 0.0,
             y => if Label(c, y) == l then g.Strength(y) else 0.0);
  }

  /** Who else is in a community does not depend on where i is. */
  lemma SigmaElsewhere(g: Graph, c: seq<nat>, i: nat, b: nat, l: int)
    requires |c| == g.n && i < g.n
    ensures g.SigmaWithout(c[i := b], i, l) == g.SigmaWithout(c, i, l)
  {
    SumExt(g.n, y => if y != i && Label(c[i := b], y) == l then g.Strength(y) else 0.0,
           y => if y != i && Label(c, y) == l then g.Strength(y) else 0.0);
  }

  ghost predicate SigmaAgrees(g: Graph, c: seq<nat>, sigma: seq<real>) {
    |sigma| == g.n && forall l | 0 <= l < g.n :: sigma[l] == g.Sigma(c, l)
  }

  /** One node's move. The community totals agree with the labels before and after it. */
  method MoveNode(g: Graph, adj: array<seq<Neighbour>>, strengths: array<real>, m: real,
                  community: array<nat>, sigmaTot: array<real>, i: nat) returns (moved: bool)
    requires i < g.n == adj.Length == strengths.Length == community.Length == sigmaTot.Length
    requires strengths != sigmaTot && m == g.M() != 0.0
    requires adj[i] == Adjacent(g, |g.edges|, i) && strengths[i] == g.Strength(i)
    requires ValidLabels(g, community[..]) && SigmaAgrees(g, community[..], sigmaTot[..])
    modifies community, sigmaTot
    ensures community[..] == Settle(g, old(community[..]), i)
    ensures SigmaAgrees(g, community[..], sigmaTot[..])
    ensures moved <==> community[..] != old(community[..])
  {
    hide Graph.SigmaWithout, Graph.Sigma, Graph.M, Graph.Strength, ListInto, Adjacent, IsBest, ListLabels;
    ghost var c := community[..];
    var ki := strengths[i];
    if ki == 0.0 { return false; }
    var ci := community[i];
    sigmaTot[ci] := sigmaTot[ci] - ki;
    forall l | 0 <= l < g.n ensures sigmaTot[l] == g.SigmaWithout(c, i, l) {
      SigmaRemove(g, c, i, l);
    }
    ListLabelsAreNeighbourLabels(g, c, i);
    var kIn := GatherWeights(adj[i], community);
    forall l: nat ensures g.Into(i, c, l) == if l in kIn then kIn[l] else 0.0 {
      ListIntoIsIntoUpTo(g, |g.edges|, i, c, l);
    }
    var bestC := ChooseCommunity(g.resolution, m, ki, ci, kIn, sigmaTot, Gains(g, c, i));
    community[i] := bestC;
    sigmaTot[bestC] := sigmaTot[bestC] + ki;
    ghost var d := c[i := bestC];
    assert community[..] == d;
    forall l | 0 <= l < g.n ensures sigmaTot[l] == g.Sigma(d, l) {
      SigmaElsewhere(g, c, i, bestC, l);
      SigmaRemove(g, d, i, l);
    }
    moved := bestC != ci;
    assert moved <==> d[i] != c[i];
  }

  /** The move loop. It stops early only when nothing moves any more, so its labelling is the one
      after maxIter sweeps. Where it has stopped early, no further sweep changes the labelling, and on the
      graphs the program is for it is a local optimum. */
  method MoveNodes(g: Graph, maxIter: nat, adj: array<seq<Neighbour>>, strengths: array<real>, m: real,
                   community: array<nat>, sigmaTot: array<real>) returns (settled: bool)
    requires g.n == adj.Length == strengths.Length == community.Length == sigmaTot.Length
    requires strengths != sigmaTot && m == g.M() != 0.0
    requires forall s | 0 <= s < g.n :: adj[s] == Adjacent(g, |g.edges|, s) && strengths[s] == g.Strength(s)
    requires ValidLabels(g, community[..]) && SigmaAgrees(g, community[..], sigmaTot[..])
    modifies community, sigmaTot
    ensures community[..] == Sweeps(g, old(community[..]), maxIter)
    ensures SigmaAgrees(g, community[..], sigmaTot[..])
    ensures settled ==> Sweep(g, community[..]) == community[..]
    ensures settled && g.Symmetric() && g.NonNegative() ==> IsLocalOptimum(g, community[..])
  {
    ghost var c := community[..];
    for iter := 0 to maxIter
      invariant community[..] == Sweeps(g, c, iter)
      invariant SigmaAgrees(g, community[..], sigmaTot[..])
    {
      ghost var start := community[..];
      var moved := false;
      for i := 0 to g.n
        invariant community[..] == SweepUpTo(g, start, i)
        invariant SigmaAgrees(g, community[..], sigmaTot[..])
        invariant !moved ==> community[..] == start
      {
        var here := MoveNode(g, adj, strengths, m, community, sigmaTot, i);
        if here { moved := true; }
      }
      if !moved {
        SettledStays(g, c, iter, maxIter);
        SettledIsOptimal(g, community[..]);
        return true;
      }
    }
    settled := false;
  }

  lemma SettledIsOptimal(g: Graph, c: seq<nat>)
    requires ValidLabels(g, c) && g.M() != 0.0 && Sweep(g, c) == c
    ensures g.Symmetric() && g.NonNegative() ==> IsLocalOptimum(g, c)
  {
    hide Graph.Quality, Sweep, NeighbourLabels;
    if g.Symmetric() && g.NonNegative() {
      forall i, l | 0 <= i < g.n && l in NeighbourLabels(g, c, i) ensures g.Quality(c[i := l]) <= g.Quality(c) {
        LocalOptimum(g, c, i, l);
      }
    }
  }

  /** No number appears before all the smaller ones have. */
  ghost predicate Filled(ids: seq<int>) {
    forall i, v | 0 <= i < |ids| && 0 <= v < ids[i] :: v in ids[..i]
  }

  /** ids numbers the labels of the nodes with positive strength 0, 1, 2, … in the order in which
      they first appear, and gives -1 to the other nodes. */
  ghost predicate IsCompactNumbering(strengths: seq<real>, c: seq<nat>, ids: seq<int>) {
    && |ids| == |c| == |strengths|
    && (forall i | 0 <= i < |c| :: if strengths[i] > 0.0 then ids[i] >= 0 else ids[i] == -1)
    && (forall i, j | 0 <= i < |c| && 0 <= j < |c| && strengths[i] > 0.0 && strengths[j] > 0.0 ::
          ids[i] == ids[j] <==> c[i] == c[j])
    && Filled(ids)
  }

  /** Nodes without positive strength get -1. The others get equal numbers exactly for equal labels, and a number
      only once all smaller ones have been given: 0, 1, 2, and so on, in the order of first appearance. */
  lemma CompactNumberingMeaning(strengths: seq<real>, c: seq<nat>, ids: seq<int>)
    requires IsCompactNumbering(strengths, c, ids)
    ensures |ids| == |c| == |strengths|
    ensures forall i | 0 <= i < |c| :: ids[i] == -1 <==> strengths[i] <= 0.0
    ensures forall i, j | 0 <= i < |c| && 0 <= j < |c| && ids[i] != -1 && ids[j] != -1 ::
      ids[i] == ids[j] <==> c[i] == c[j]
    ensures forall i, v | 0 <= i < |c| && 0 <= v < ids[i] :: v in ids[..i]
    ensures forall i | 0 <= i < |c| :: ids[i] >= -1
  {
  }

  /** There is one such numbering. */
  lemma CompactNumberingIsUnique(strengths: seq<real>, c: seq<nat>, a: seq<int>, b: seq<int>)
    requires IsCompactNumbering(strengths, c, a) && IsCompactNumbering(strengths, c, b)
    ensures a == b
  {
    CompactNumbersAgree(strengths, c, a, b, |c|);
    assert a[..|c|] == a && b[..|c|] == b;
  }

  lemma {:induction false} CompactNumbersAgree(strengths: seq<real>, c: seq<nat>, a: seq<int>, b: seq<int>, k: nat)
    requires IsCompactNumbering(strengths, c, a) && IsCompactNumbering(strengths, c, b) && k <= |c|
    ensures a[..k] == b[..k]
  {
    if k > 0 {
      var i := k - 1;
      CompactNumbersAgree(strengths, c, a, b, i);
      forall j | 0 <= j < i ensures a[j] == b[j] {
        assert a[..i][j] == b[..i][j];
      }
      NumberNotBelow(strengths, c, a, b, i);
      NumberNotBelow(strengths, c, b, a, i);
      assert a[..k] == a[..i] + [a[i]] && b[..k] == b[..i] + [b[i]];
    }
  }

  lemma NumberNotBelow(strengths: seq<real>, c: seq<nat>, a: seq<int>, b: seq<int>, i: nat)
    requires IsCompactNumbering(strengths, c, a) && IsCompactNumbering(strengths, c, b) && i < |c|
    requires forall j | 0 <= j < i :: a[j] == b[j]
    ensures a[i] >= b[i]
  {
    if 0 <= a[i] < b[i] {
      var _ := FilledAt(b, i, a[i]);
    }
  }

  lemma FilledAt(ids: seq<int>, i: nat, v: int) returns (j: nat)
    requires Filled(ids) && i < |ids| && 0 <= v < ids[i]
    ensures j < i && ids[j] == v
  {
    assert v in ids[..i];
    j :| 0 <= j < i && ids[j] == v;
  }

  lemma FilledExtend(ids: seq<int>, x: int)
    requires Filled(ids) && forall v | 0 <= v < x :: v in ids
    ensures Filled(ids + [x])
  {
    forall i, v | 0 <= i < |ids + [x]| && 0 <= v < (ids + [x])[i] ensures v in (ids + [x])[..i] {
      assert (ids + [x])[..i] == ids[..i];
    }
  }

  /** Renames the labels of the nodes with positive strength to 0, 1, 2, … */
  method Compact(strengths: array<real>, community: array<nat>) returns (result: seq<int>)
    requires strengths.Length == community.Length
    ensures IsCompactNumbering(strengths[..], community[..], result)
  {
    var idMap: map<nat, int> := map[];
    var nextId := 0;
    result := [];
    for i := 0 to strengths.Length
      invariant |result| == i && nextId >= 0
      invariant forall l | l in idMap :: 0 <= idMap[l] < nextId
      invariant forall k, l | k in idMap && l in idMap && idMap[k] == idMap[l] :: k == l
      invariant forall j | 0 <= j < i && strengths[j] > 0.0 :: community[j] in idMap && result[j] == idMap[community[j]]
      invariant forall j | 0 <= j < i && !(strengths[j] > 0.0) :: result[j] == -1
      invariant forall v | 0 <= v < nextId :: v in result
      invariant Filled(result)
    {
      if strengths[i] > 0.0 {
        var l := community[i];
        ghost var before := idMap;
        if l !in idMap {
          idMap := idMap[l := nextId];
          nextId := nextId + 1;
        }
        FilledExtend(result, idMap[l]);
        result := result + [idMap[l]];
        assert result[i] == idMap[l];
      } else {
        FilledExtend(result, -1);
        result := result + [-1];
      }
    }
  }

  ghost function Strengths(g: Graph): seq<real> { seq(g.n, i => g.Strength(i)) }

  /** Every node starts as its own community, which has that node's strength. */
  method Initialise(g: Graph, strengths: array<real>) returns (community: array<nat>, sigmaTot: array<real>)
    requires strengths.Length == g.n && forall s | 0 <= s < g.n :: strengths[s] == g.Strength(s)
    ensures fresh(community) && fresh(sigmaTot)
    ensures community[..] == Singletons(g.n)
    ensures SigmaAgrees(g, community[..], sigmaTot[..])
  {
    community := new nat[g.n](i => i);
    sigmaTot := new real[g.n](i reads strengths requires 0 <= i < strengths.Length => strengths[i]);
    forall l | 0 <= l < g.n ensures sigmaTot[l] == g.Sigma(Singletons(g.n), l) {
      SumSingle(g.n, l, y => if Label(Singletons(g.n), y) == l then g.Strength(y) else 0.0);
    }
    assert community[..] == Singletons(g.n);
  }

  /** Communities of the nodes: -1 throughout when there is no weight, and otherwise the compact
      numbering of the labelling after maxIter sweeps from singletons. */
  method DetectCommunities(g: Graph, maxIter: nat) returns (result: seq<int>)
    ensures |result| == g.n
    ensures g.M() == 0.0 ==> forall i | 0 <= i < g.n :: result[i] == -1
    ensures g.M() != 0.0 ==>
      IsCompactNumbering(Strengths(g), Sweeps(g, Singletons(g.n), maxIter), result)
  {
    if g.n == 0 {
      SumZero(|g.edges|, e => g.WeightAt(e));
      return [];
    }
    var adj, strengths, total := BuildAdjacency(g);
    var m := total / 2.0;
    if m == 0.0 {
      return seq(g.n, _ => -1);
    }
    var community, sigmaTot := Initialise(g, strengths);
    var settled := MoveNodes(g, maxIter, adj, strengths, m, community, sigmaTot);
    result := Compact(strengths, community);
    assert strengths[..] == Strengths(g);
  }

  lemma StrengthNonNegative(g: Graph, i: int)
    requires g.NonNegative()
    ensures g.Strength(i) >= 0.0
  {
    SumMono(|g.edges|, e => 0.0, e => if g.Source(e) == i then g.WeightAt(e) else 0.0);
    SumZero(|g.edges|, e => 0.0);
  }

  /** The result as a labelling: a node numbered -1 is on its own. */
  ghost function Numbers(result: seq<int>): seq<nat> {
    seq(|result|, i requires 0 <= i < |result| => if result[i] >= 0 then result[i] else FreshLabel(result) + i)
  }

  /** A label above all the numbers. */
  ghost function FreshLabel(result: seq<int>): (top: nat)
    ensures forall i | 0 <= i < |result| :: result[i] < top
  {
    if result == [] then 0
    else
      var before, last := FreshLabel(result[..|result| - 1]), result[|result| - 1];
      assert result == result[..|result| - 1] + [last];
      if last < before then before else last + 1
  }

  /** Nothing is observed or expected between a node without strength and any other. */
  lemma WeightlessEntry(g: Graph, x: int, y: int)
    requires g.M() != 0.0 && g.Symmetric() && g.NonNegative() && 0 <= x < g.n && 0 <= y < g.n
    requires g.Strength(x) == 0.0 || g.Strength(y) == 0.0
    ensures g.Entry(x, y) == 0.0
  {
    if g.Strength(x) == 0.0 { NoWeight(g, x, y); } else { NoWeight(g, y, x); }
    SquarePositive(g.M());
    NothingOver(g.resolution, g.Strength(x), g.Strength(y), SquareOfTwice(g.M()), 2.0 * g.M());
  }

  lemma NothingOver(r: real, a: real, b: real, d: real, m: real)
    requires a == 0.0 || b == 0.0
    requires d != 0.0 && m != 0.0
    ensures r * (a * b) / d == 0.0 && 0.0 / m == 0.0
  {
  }

  lemma NoWeight(g: Graph, x: int, y: int)
    requires g.NonNegative() && g.Strength(x) == 0.0
    ensures g.Weight(x, y) == 0.0
  {
    var f := e => if g.Target(e) == y then (if g.Source(e) == x then g.WeightAt(e) else 0.0) else 0.0;
    SumMono(|g.edges|, f, e => if g.Source(e) == x then g.WeightAt(e) else 0.0);
    SumMono(|g.edges|, e => 0.0, f);
    SumZero(|g.edges|, e => 0.0);
  }

  /** Labellings that agree wherever it matters have the same blocks. */
  lemma SameBlocks(n: nat, b: (int, int) -> real, c: int -> int, d: int -> int)
    requires forall x, y | 0 <= x < n && 0 <= y < n :: b(x, y) == 0.0 || (c(x) == c(y) <==> d(x) == d(y))
    ensures Blocks(n, b, c) == Blocks(n, b, d)
  {
    forall x | 0 <= x < n ensures RowSum(n, b, c, x) == RowSum(n, b, d, x) {
      SumExt(n, y => if c(x) == c(y) then b(x, y) else 0.0, y => if d(x) == d(y) then b(x, y) else 0.0);
    }
    SumExt(n, x => RowSum(n, b, c, x), x => RowSum(n, b, d, x));
  }

  /** The returned numbers have the modularity of the labelling they rename. */
  lemma QualityOfNumbers(g: Graph, c: seq<nat>, result: seq<int>)
    requires g.M() != 0.0 && g.Symmetric() && g.NonNegative() && |c| == g.n
    requires IsCompactNumbering(Strengths(g), c, result)
    ensures g.Quality(Numbers(result)) == g.Quality(c)
  {
    hide Graph.Entry, Graph.Symmetric, Graph.NonNegative, Graph.M, Graph.Strength, Filled;
    var b := (x: int, y: int) => g.Entry(x, y);
    var before, after := (y: int) => Label(c, y), (y: int) => Label(Numbers(result), y);
    forall x, y | 0 <= x < g.n && 0 <= y < g.n
      ensures b(x, y) == 0.0 || (before(x) == before(y) <==> after(x) == after(y))
    {
      StrengthNonNegative(g, x);
      StrengthNonNegative(g, y);
      if g.Strength(x) == 0.0 || g.Strength(y) == 0.0 { WeightlessEntry(g, x, y); }
    }
    SameBlocks(g.n, b, before, after);
  }

  /** What the result says on the graphs the program is for: -1 marks exactly the nodes without
      strength, equal numbers mark nodes of one connected component, and the modularity of the numbers is
      that of the final labelling, at least that of the singletons. */
  lemma ResultOnSymmetricGraphs(g: Graph, maxIter: nat, result: seq<int>)
    requires g.M() != 0.0 && g.Symmetric() && g.NonNegative()
    requires IsCompactNumbering(Strengths(g), Sweeps(g, Singletons(g.n), maxIter), result)
    ensures forall i | 0 <= i < g.n :: result[i] == -1 <==> g.Strength(i) == 0.0
    ensures forall i, j | 0 <= i < g.n && 0 <= j < g.n && result[i] == result[j] != -1 :: Connected(g, i, j)
    ensures g.Quality(Numbers(result)) == g.Quality(Sweeps(g, Singletons(g.n), maxIter)) >= g.Quality(Singletons(g.n))
  {
    QualityOfNumbers(g, Sweeps(g, Singletons(g.n), maxIter), result);
    forall i | 0 <= i < g.n ensures g.Strength(i) >= 0.0 { StrengthNonNegative(g, i); }
    forall i, j | 0 <= i < g.n && 0 <= j < g.n && result[i] == result[j] != -1 ensures Connected(g, i, j) {
      CommunitiesAreConnected(g, maxIter, i, j);
    }
    ModularityNeverDecreases(g, Singletons(g.n), 0, maxIter);
  }
}
