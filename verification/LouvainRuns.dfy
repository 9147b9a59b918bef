/** The greedy label moves of community detection, as functions on labellings, and what every
    run of them keeps: each actual move makes progress, so no labelling comes back, the sweeps
    reach a labelling they no longer change, and that labelling is locally optimal. */
module LouvainRuns {
  import opened Sums
  import opened Modularity

  ghost predicate ValidLabels(g: Graph, c: seq<nat>) {
    |c| == g.n && forall y | 0 <= y < g.n :: c[y] < g.n
  }

  /** The communities of i's neighbours. */
  ghost function NeighbourLabels(g: Graph, c: seq<nat>, i: nat): set<nat>
    requires ValidLabels(g, c)
  {
    set e | 0 <= e < |g.edges| && g.Counts(e) && g.edges[e].src == i :: c[g.edges[e].dst]
  }

  /** The communities that i may end up in. */
  ghost function Candidates(g: Graph, c: seq<nat>, i: nat): set<nat>
    requires ValidLabels(g, c) && i < g.n
  {
    NeighbourLabels(g, c, i) + {c[i]}
  }

  /** The gain of every placement of i. */
  ghost function Gains(g: Graph, c: seq<nat>, i: nat): int -> real
    requires g.M() != 0.0
  {
    l => g.Gain(c, i, l)
  }

  /** Larger gain first, then the smaller label. */
  ghost predicate Preferred(gain: int -> real, k: nat, l: nat) {
    gain(k) > gain(l) || (gain(k) == gain(l) && k < l)
  }

  ghost predicate IsBest(gain: int -> real, from: set<nat>, k: nat) {
    k in from && forall l | l in from && l != k :: Preferred(gain, k, l)
  }

  lemma {:induction false} BestExists(gain: int -> real, from: set<nat>)
    requires from != {}
    ensures exists k :: IsBest(gain, from, k)
    decreases from
  {
    var x :| x in from;
    if from == {x} {
      assert IsBest(gain, from, x);
    } else {
      BestExists(gain, from - {x});
      var y :| IsBest(gain, from - {x}, y);
      assert from == (from - {x}) + {x};
      if Preferred(gain, x, y) {
        assert IsBest(gain, from, x);
      } else {
        assert IsBest(gain, from, y);
      }
    }
  }

  /** The winning community does not depend on the order in which the candidates are looked at. */
  ghost function Best(g: Graph, c: seq<nat>, i: nat): (k: nat)
    requires ValidLabels(g, c) && i < g.n && g.M() != 0.0
    ensures IsBest(Gains(g, c, i), Candidates(g, c, i), k)
    ensures forall l | IsBest(Gains(g, c, i), Candidates(g, c, i), l) :: l == k
    ensures k < g.n
  {
    BestExists(Gains(g, c, i), Candidates(g, c, i));
    var k :| IsBest(Gains(g, c, i), Candidates(g, c, i), k);
    k
  }

  /** One node's move. Nodes without strength are skipped. */
  ghost function Settle(g: Graph, c: seq<nat>, i: nat): (d: seq<nat>)
    requires ValidLabels(g, c) && i < g.n && g.M() != 0.0
    ensures ValidLabels(g, d)
  {
    if g.Strength(i) == 0.0 then c else c[i := Best(g, c, i)]
  }

  /** The moves of nodes 0 to k - 1, in order. */
  ghost function SweepUpTo(g: Graph, c: seq<nat>, k: nat): (d: seq<nat>)
    requires ValidLabels(g, c) && k <= g.n && g.M() != 0.0
    ensures ValidLabels(g, d)
  {
    if k == 0 then c else Settle(g, SweepUpTo(g, c, k - 1), k - 1)
  }

  ghost function Sweep(g: Graph, c: seq<nat>): (d: seq<nat>)
    requires ValidLabels(g, c) && g.M() != 0.0
    ensures ValidLabels(g, d)
  {
    SweepUpTo(g, c, g.n)
  }

  /** The labelling after the given number of sweeps. */
  ghost function Sweeps(g: Graph, c: seq<nat>, count: nat): (d: seq<nat>)
    requires ValidLabels(g, c) && g.M() != 0.0
    ensures ValidLabels(g, d)
  {
    if count == 0 then c else Sweep(g, Sweeps(g, c, count - 1))
  }

  // ---------- what a sweep is ----------

  /** The moves before number k have settled the nodes below k for good, and touched no other. */
  lemma {:induction false} SweepShape(g: Graph, c: seq<nat>, k: nat, m: nat)
    requires ValidLabels(g, c) && k <= m <= g.n && g.M() != 0.0
    ensures SweepUpTo(g, c, m)[..k] == SweepUpTo(g, c, k)[..k] && SweepUpTo(g, c, k)[k..] == c[k..]
  {
    hide Graph.M, Graph.Strength, Best;
    if k < m {
      SweepShape(g, c, k, m - 1);
    } else if k > 0 {
      SweepShape(g, c, k - 1, k - 1);
      assert c[k - 1..][1..] == c[k..];
    }
  }

  /** When node i gets its turn, the nodes before it have their new labels and the others their old ones. */
  lemma TurnOf(g: Graph, c: seq<nat>, i: nat)
    requires ValidLabels(g, c) && i < g.n && g.M() != 0.0
    ensures SweepUpTo(g, c, i) == Sweep(g, c)[..i] + c[i..]
    ensures Sweep(g, c)[i] == Settle(g, Sweep(g, c)[..i] + c[i..], i)[i]
  {
    hide Graph.M, Settle;
    SweepShape(g, c, i, g.n);
    SweepShape(g, c, i + 1, g.n);
    var d := SweepUpTo(g, c, i);
    assert d == d[..i] + d[i..];
    assert Sweep(g, c)[..i + 1][i] == SweepUpTo(g, c, i + 1)[..i + 1][i];
  }

  /** A sweep takes the nodes from the first to the last. A node without strength keeps its label. Every other one
      ends in the community, among its own and those that an edge leads to, that has the highest gain with the
      labels as they are at its turn, and of equally good ones in the one with the smallest label. */
  lemma SweepMeaning(g: Graph, c: seq<nat>, d: seq<nat>, i: nat)
    requires ValidLabels(g, c) && g.M() != 0.0 && d == Sweep(g, c) && i < g.n
    ensures |d| == g.n && ValidLabels(g, d[..i] + c[i..])
    ensures g.Strength(i) == 0.0 ==> d[i] == c[i]
    ensures var now := d[..i] + c[i..];
      g.Strength(i) != 0.0 ==>
        && (d[i] == c[i] || exists e ::
              0 <= e < |g.edges| && g.edges[e].src == i != g.edges[e].dst < g.n && now[g.edges[e].dst] == d[i])
        && (c[i] != d[i] ==>
              g.Gain(now, i, d[i]) > g.Gain(now, i, c[i])
              || (g.Gain(now, i, d[i]) == g.Gain(now, i, c[i]) && d[i] < c[i]))
        && forall e | 0 <= e < |g.edges| && g.edges[e].src == i != g.edges[e].dst < g.n
          && now[g.edges[e].dst] != d[i] ::
             var l := now[g.edges[e].dst];
             g.Gain(now, i, d[i]) > g.Gain(now, i, l) || (g.Gain(now, i, d[i]) == g.Gain(now, i, l) && d[i] < l)
  {
    hide Sweep, SweepUpTo, Graph.M, Graph.Gain, Graph.Strength;
    TurnOf(g, c, i);
    var now := d[..i] + c[i..];
    if g.Strength(i) != 0.0 {
      var k, gain := Best(g, now, i), Gains(g, now, i);
      assert d[i] == k && now[i] == c[i] && IsBest(gain, Candidates(g, now, i), k);
      forall l | l in Candidates(g, now, i) && l != k
        ensures g.Gain(now, i, k) > g.Gain(now, i, l) || (g.Gain(now, i, k) == g.Gain(now, i, l) && k < l)
      {
        assert Preferred(gain, k, l);
      }
      forall e | 0 <= e < |g.edges| && g.edges[e].src == i != g.edges[e].dst < g.n && now[g.edges[e].dst] != d[i]
        ensures now[g.edges[e].dst] in Candidates(g, now, i)
      {
        assert g.Counts(e);
      }
    }
  }

  /** And that determines it. */
  lemma SweepDetermined(g: Graph, c: seq<nat>, d: seq<nat>)
    requires ValidLabels(g, c) && ValidLabels(g, d) && g.M() != 0.0
    requires forall i | 0 <= i < g.n :: SettlesTo(g, d[..i] + c[i..], i, d[i])
    ensures Sweep(g, c) == d
  {
    hide SettlesTo;
    MovesDetermined(g, c, d, g.n);
    assert d[..g.n] + c[g.n..] == d;
  }

  lemma {:induction false} MovesDetermined(g: Graph, c: seq<nat>, d: seq<nat>, k: nat)
    requires ValidLabels(g, c) && ValidLabels(g, d) && k <= g.n && g.M() != 0.0
    requires forall i | 0 <= i < k :: SettlesTo(g, d[..i] + c[i..], i, d[i])
    ensures SweepUpTo(g, c, k) == d[..k] + c[k..]
  {
    hide SettlesTo, Graph.M, Settle;
    if k > 0 {
      var i := k - 1;
      MovesDetermined(g, c, d, i);
      SettlesAs(g, d[..i] + c[i..], i, d[i]);
      OneMoreMoved(c, d, i);
    } else {
      assert d[..0] + c[0..] == c;
    }
  }

  lemma SettlesAs(g: Graph, now: seq<nat>, i: nat, l: nat)
    requires |now| == g.n && i < g.n && g.M() != 0.0 && SettlesTo(g, now, i, l)
    ensures ValidLabels(g, now) && Settle(g, now, i) == now[i := l]
  {
    hide Graph.M, Graph.Strength, Best;
    assert now[i := now[i]] == now;
  }

  lemma OneMoreMoved(c: seq<nat>, d: seq<nat>, i: nat)
    requires |c| == |d| && i < |c|
    ensures (d[..i] + c[i..])[i := d[i]] == d[..i + 1] + c[i + 1..]
  {
  }

  ghost predicate SettlesTo(g: Graph, now: seq<nat>, i: nat, l: nat)
    requires |now| == g.n && i < g.n && g.M() != 0.0
  {
    ValidLabels(g, now) && l == if g.Strength(i) == 0.0 then now[i] else Best(g, now, i)
  }

  /** No sweep leaves the labels as they are; each further one starts where the last one ended. */
  lemma SweepsMeaning(g: Graph, c: seq<nat>, count: nat)
    requires ValidLabels(g, c) && g.M() != 0.0
    ensures Sweeps(g, c, 0) == c && Sweeps(g, c, count + 1) == Sweep(g, Sweeps(g, c, count))
  {
    hide Sweep;
  }

  // ---------- progress ----------

  ghost function LabelSum(c: seq<nat>): nat {
    if c == [] then 0 else LabelSum(c[..|c| - 1]) + c[|c| - 1]
  }

  lemma {:induction false} LabelSumUpdate(c: seq<nat>, i: nat, l: nat)
    requires i < |c|
    ensures LabelSum(c[i := l]) == LabelSum(c) - c[i] + l
  {
    var p := c[..|c| - 1];
    if i == |c| - 1 {
      assert c[i := l][..|c| - 1] == p;
    } else {
      assert c[i := l][..|c| - 1] == p[i := l];
      LabelSumUpdate(p, i, l);
    }
  }

  /** Higher modularity, or the same modularity with smaller labels. */
  ghost predicate Progress(g: Graph, c: seq<nat>, d: seq<nat>)
    requires g.M() != 0.0
  {
    g.Quality(d) > g.Quality(c) || (g.Quality(d) == g.Quality(c) && LabelSum(d) < LabelSum(c))
  }

  ghost predicate ProgressOrSame(g: Graph, c: seq<nat>, d: seq<nat>)
    requires g.M() != 0.0
  {
    d == c || Progress(g, c, d)
  }

  /** Every move either leaves the labelling alone or makes progress. */
  lemma SettleProgress(g: Graph, c: seq<nat>, i: nat)
    requires ValidLabels(g, c) && i < g.n && g.M() != 0.0 && g.Symmetric()
    ensures ProgressOrSame(g, c, Settle(g, c, i))
  {
    var k := Best(g, c, i);
    if k == c[i] {
      assert c[i := k] == c;
    } else {
      MoveGain(g, c, i, k);
      LabelSumUpdate(c, i, k);
    }
  }

  lemma ProgressChains(g: Graph, c: seq<nat>, d: seq<nat>, e: seq<nat>)
    requires g.M() != 0.0 && ProgressOrSame(g, c, d) && ProgressOrSame(g, d, e)
    ensures ProgressOrSame(g, c, e)
    ensures c == e ==> d == c
  {
    hide Graph.M, Graph.Quality, LabelSum;
  }

  lemma {:induction false} SweepUpToProgress(g: Graph, c: seq<nat>, j: nat, k: nat)
    requires ValidLabels(g, c) && j <= k <= g.n && g.M() != 0.0 && g.Symmetric()
    ensures ProgressOrSame(g, SweepUpTo(g, c, j), SweepUpTo(g, c, k))
  {
    hide Graph.M, Graph.Symmetric, Progress, Settle;
    if j < k {
      SweepUpToProgress(g, c, j, k - 1);
      SettleProgress(g, SweepUpTo(g, c, k - 1), k - 1);
      ProgressChains(g, SweepUpTo(g, c, j), SweepUpTo(g, c, k - 1), SweepUpTo(g, c, k));
    }
  }

  lemma {:induction false} SweepsProgress(g: Graph, c: seq<nat>, j: nat, k: nat)
    requires ValidLabels(g, c) && j <= k && g.M() != 0.0 && g.Symmetric()
    ensures ProgressOrSame(g, Sweeps(g, c, j), Sweeps(g, c, k))
  {
    hide Graph.M, Graph.Symmetric, Progress, Settle;
    if j < k {
      SweepsProgress(g, c, j, k - 1);
      SweepUpToProgress(g, Sweeps(g, c, k - 1), 0, g.n);
      ProgressChains(g, Sweeps(g, c, j), Sweeps(g, c, k - 1), Sweeps(g, c, k));
    }
  }

  /** Modularity never decreases over any number of sweeps. */
  lemma ModularityNeverDecreases(g: Graph, c: seq<nat>, j: nat, k: nat)
    requires ValidLabels(g, c) && j <= k && g.M() != 0.0 && g.Symmetric()
    ensures g.Quality(Sweeps(g, c, j)) <= g.Quality(Sweeps(g, c, k))
  {
    SweepsProgress(g, c, j, k);
  }

  /** The labelling after the first k moves of sweep number s. */
  ghost function AtMove(g: Graph, c: seq<nat>, s: nat, k: nat): (d: seq<nat>)
    requires ValidLabels(g, c) && k <= g.n && g.M() != 0.0
    ensures ValidLabels(g, d)
  {
    SweepUpTo(g, Sweeps(g, c, s), k)
  }

  ghost predicate NoLater(s: nat, k: nat, s': nat, k': nat) {
    s < s' || (s == s' && k <= k')
  }

  lemma AtMoveProgress(g: Graph, c: seq<nat>, s: nat, k: nat, s': nat, k': nat)
    requires ValidLabels(g, c) && k <= g.n && k' <= g.n && NoLater(s, k, s', k')
    requires g.M() != 0.0 && g.Symmetric()
    ensures ProgressOrSame(g, AtMove(g, c, s, k), AtMove(g, c, s', k'))
  {
    hide Graph.Quality, LabelSum, Graph.Symmetric, Graph.M, Settle, ValidLabels;
    if s == s' {
      SweepUpToProgress(g, Sweeps(g, c, s), k, k');
    } else {
      SweepUpToProgress(g, Sweeps(g, c, s), k, g.n);
      SweepsProgress(g, c, s + 1, s');
      SweepUpToProgress(g, Sweeps(g, c, s'), 0, k');
      assert AtMove(g, c, s, g.n) == Sweeps(g, c, s + 1);
    }
  }

  /** No labelling is revisited: when two moments of a run carry the same labelling, nothing has
      moved between them. */
  lemma NeverRevisits(g: Graph, c: seq<nat>, s: nat, k: nat, s': nat, k': nat, s'': nat, k'': nat)
    requires ValidLabels(g, c) && k <= g.n && k' <= g.n && k'' <= g.n
    requires NoLater(s, k, s', k') && NoLater(s', k', s'', k'')
    requires g.M() != 0.0 && g.Symmetric()
    requires AtMove(g, c, s, k) == AtMove(g, c, s'', k'')
    ensures AtMove(g, c, s', k') == AtMove(g, c, s, k)
  {
    hide Graph.M, Graph.Symmetric, ProgressOrSame, AtMove;
    AtMoveProgress(g, c, s, k, s', k');
    AtMoveProgress(g, c, s', k', s'', k'');
    ProgressChains(g, AtMove(g, c, s, k), AtMove(g, c, s', k'), AtMove(g, c, s'', k''));
  }

  /** A sweep ends where it started exactly when none of its moves changed a label, which is what
      the loop's flag records. */
  lemma UnchangedSweep(g: Graph, c: seq<nat>, k: nat)
    requires ValidLabels(g, c) && k < g.n && g.M() != 0.0 && g.Symmetric() && Sweep(g, c) == c
    ensures Settle(g, c, k) == c
  {
    hide Graph.M, Graph.Symmetric, ProgressOrSame, Settle;
    SweepUpToProgress(g, c, 0, k);
    SweepUpToProgress(g, c, k, g.n);
    ProgressChains(g, c, SweepUpTo(g, c, k), c);
    SweepUpToProgress(g, c, 0, k + 1);
    SweepUpToProgress(g, c, k + 1, g.n);
    ProgressChains(g, c, SweepUpTo(g, c, k + 1), c);
  }

  /** A node without strength can go anywhere at no cost, when no weight is negative. */
  lemma WeightlessGain(g: Graph, c: seq<nat>, i: nat, k: nat, l: nat)
    requires g.M() != 0.0 && g.NonNegative() && g.Strength(i) == 0.0
    ensures g.Gain(c, i, k) == g.Gain(c, i, l)
  {
    WeightlessInto(g, c, i, k);
    WeightlessInto(g, c, i, l);
    assert g.resolution * g.SigmaWithout(c, i, k) * 0.0 == g.resolution * g.SigmaWithout(c, i, l) * 0.0;
  }

  lemma WeightlessInto(g: Graph, c: seq<nat>, i: nat, l: nat)
    requires g.NonNegative() && g.Strength(i) == 0.0
    ensures g.Into(i, c, l) == 0.0
  {
    var f := e => if g.Source(e) == i && Label(c, g.Target(e)) == l then g.WeightAt(e) else 0.0;
    SumMono(|g.edges|, f, e => if g.Source(e) == i then g.WeightAt(e) else 0.0);
    SumMono(|g.edges|, e => 0.0, f);
    SumZero(|g.edges|, e => 0.0);
    assert g.Into(i, c, l) == Sum(|g.edges|, f);
  }

  /** No move of one node to a neighbour's community raises the modularity. */
  ghost predicate IsLocalOptimum(g: Graph, c: seq<nat>)
    requires ValidLabels(g, c) && g.M() != 0.0
  {
    forall i, l | 0 <= i < g.n && l in NeighbourLabels(g, c, i) :: g.Quality(c[i := l]) <= g.Quality(c)
  }

  /** When a sweep changes nothing, no single-node move to a neighbour's community raises the
      modularity, and a move that keeps it only leads to a larger label. */
  lemma LocalOptimum(g: Graph, c: seq<nat>, i: nat, l: nat)
    requires ValidLabels(g, c) && i < g.n && g.M() != 0.0 && g.Symmetric() && g.NonNegative()
    requires Sweep(g, c) == c
    requires l in NeighbourLabels(g, c, i)
    ensures g.Quality(c[i := l]) <= g.Quality(c)
    ensures g.Strength(i) != 0.0 && l < c[i] ==> g.Quality(c[i := l]) < g.Quality(c)
  {
    MoveGain(g, c, i, l);
    UnchangedSweep(g, c, i);
    if g.Strength(i) == 0.0 {
      WeightlessGain(g, c, i, l, c[i]);
    } else {
      assert c[i := Best(g, c, i)][i] == c[i];
    }
  }

  // ---------- the sweeps settle ----------

  ghost function Power(n: nat, k: nat): nat {
    if k == 0 then 1 else Power(n, k - 1) * n
  }

  /** A labelling read as a number in base n. */
  ghost function Code(n: nat, c: seq<nat>): nat {
    if c == [] then 0 else Code(n, c[..|c| - 1]) * n + c[|c| - 1]
  }

  lemma CodeStep(n: nat, p: nat, q: nat, last: nat)
    requires p < q && last < n
    ensures p * n + last < q * n
  {
    assert (p + 1) * n <= q * n;
  }

  lemma {:induction false} CodeBound(n: nat, c: seq<nat>)
    requires forall y | 0 <= y < |c| :: c[y] < n
    ensures Code(n, c) < Power(n, |c|)
  {
    if c != [] {
      CodeBound(n, c[..|c| - 1]);
      CodeStep(n, Code(n, c[..|c| - 1]), Power(n, |c| - 1), c[|c| - 1]);
    }
  }

  lemma {:induction false} CodeInjective(n: nat, c: seq<nat>, d: seq<nat>)
    requires |c| == |d| && Code(n, c) == Code(n, d)
    requires forall y | 0 <= y < |c| :: c[y] < n && d[y] < n
    ensures c == d
  {
    if c != [] {
      var k := |c| - 1;
      var p, q := Code(n, c[..k]), Code(n, d[..k]);
      if p < q { CodeStep(n, p, q, c[k]); }
      if q < p { CodeStep(n, q, p, d[k]); }
      CodeInjective(n, c[..k], d[..k]);
      assert c == c[..k] + [c[k]] && d == d[..k] + [d[k]];
    }
  }

  /** Pairwise different numbers below a bound are no more than the bound. */
  lemma {:induction false} Pigeonhole(s: seq<nat>, bound: nat)
    requires forall a, b | 0 <= a < b < |s| :: s[a] != s[b]
    requires forall a | 0 <= a < |s| :: s[a] < bound
    ensures |s| <= bound
  {
    if |s| == 0 { return; }
    assert 0 <= s[0] < bound;
    if exists a :: 0 <= a < |s| && s[a] == bound - 1 {
      var a :| 0 <= a < |s| && s[a] == bound - 1;
      var t := s[..a] + s[a + 1..];
      forall x | 0 <= x < |t| ensures t[x] < bound - 1 {
        assert t[x] == s[if x < a then x else x + 1];
      }
      Pigeonhole(t, bound - 1);
    } else {
      Pigeonhole(s, bound - 1);
    }
  }

  /** Once a sweep changes nothing, no later one does. */
  lemma {:induction false} SettledStays(g: Graph, c: seq<nat>, j: nat, k: nat)
    requires ValidLabels(g, c) && j <= k && g.M() != 0.0
    requires Sweeps(g, c, j + 1) == Sweeps(g, c, j)
    ensures Sweeps(g, c, k) == Sweeps(g, c, j)
  {
    hide Sweep, Graph.M, ValidLabels;
    if j < k { SettledStays(g, c, j, k - 1); }
  }

  /** While every sweep changes something, all the labellings seen are different. */
  lemma SweepsDiffer(g: Graph, c: seq<nat>, a: nat, b: nat)
    requires ValidLabels(g, c) && g.M() != 0.0 && g.Symmetric()
    requires a < b && Sweeps(g, c, a + 1) != Sweeps(g, c, a)
    ensures Code(g.n, Sweeps(g, c, a)) != Code(g.n, Sweeps(g, c, b))
  {
    if Code(g.n, Sweeps(g, c, a)) == Code(g.n, Sweeps(g, c, b)) {
      CodeInjective(g.n, Sweeps(g, c, a), Sweeps(g, c, b));
      SweepsProgress(g, c, a, a + 1);
      SweepsProgress(g, c, a + 1, b);
    }
  }

  lemma SomeSweepSettles(g: Graph, c: seq<nat>) returns (j: nat)
    requires ValidLabels(g, c) && g.M() != 0.0 && g.Symmetric()
    ensures j <= Power(g.n, g.n) && Sweeps(g, c, j + 1) == Sweeps(g, c, j)
  {
    var bound := Power(g.n, g.n);
    if forall j | 0 <= j <= bound :: Sweeps(g, c, j + 1) != Sweeps(g, c, j) {
      var codes := seq(bound + 1, j requires 0 <= j => Code(g.n, Sweeps(g, c, j)));
      forall a, b | 0 <= a < b < |codes| ensures codes[a] != codes[b] {
        SweepsDiffer(g, c, a, b);
      }
      forall a | 0 <= a < |codes| ensures codes[a] < bound {
        CodeBound(g.n, Sweeps(g, c, a));
      }
      Pigeonhole(codes, bound);
    }
    j :| 0 <= j <= bound && Sweeps(g, c, j + 1) == Sweeps(g, c, j);
  }

  /** Even without an iteration limit the sweeps stop: after n to the n of them nothing moves. */
  lemma SweepsSettle(g: Graph, c: seq<nat>, k: nat)
    requires ValidLabels(g, c) && g.M() != 0.0 && g.Symmetric()
    requires k >= Power(g.n, g.n)
    ensures Sweep(g, Sweeps(g, c, k)) == Sweeps(g, c, k)
  {
    var j := SomeSweepSettles(g, c);
    SettledStays(g, c, j, k);
    SettledStays(g, c, j, k + 1);
  }

  // ---------- communities stay inside components ----------

  ghost predicate Linked(g: Graph, x: nat, y: nat) {
    exists e ::
      g.Counts(e) && ((g.edges[e].src == x && g.edges[e].dst == y) || (g.edges[e].src == y && g.edges[e].dst == x))
  }

  ghost predicate IsPath(g: Graph, p: seq<nat>) {
    |p| > 0 && forall k | 0 <= k < |p| - 1 :: Linked(g, p[k], p[k + 1])
  }

  ghost predicate PathBetween(g: Graph, p: seq<nat>, x: nat, y: nat) {
    IsPath(g, p) && p[0] == x && p[|p| - 1] == y
  }

  ghost predicate Connected(g: Graph, x: nat, y: nat) {
    exists p :: PathBetween(g, p, x, y)
  }

  /** Connected nodes are joined by a sequence of nodes, each with an edge, of two different nodes in range, to the
      next or from it. */
  lemma ConnectedMeaning(g: Graph, x: nat, y: nat, joined: (nat, nat) -> bool)
    requires forall u: nat, v: nat :: joined(u, v) <==>
      (exists e :: 0 <= e < |g.edges| && g.edges[e].src < g.n && g.edges[e].src != g.edges[e].dst < g.n
         && ((g.edges[e].src == u && g.edges[e].dst == v) || (g.edges[e].src == v && g.edges[e].dst == u)))
    ensures Connected(g, x, y) <==> exists p: seq<nat> ::
      |p| > 0 && p[0] == x && p[|p| - 1] == y && forall k | 0 <= k < |p| - 1 :: joined(p[k], p[k + 1])
  {
    forall u: nat, v: nat ensures Linked(g, u, v) <==> joined(u, v) { }
    hide Linked;
    if p :| PathBetween(g, p, x, y) {
      assert forall k | 0 <= k < |p| - 1 :: joined(p[k], p[k + 1]);
    }
    if p: seq<nat> :| (|p| > 0 && p[0] == x && p[|p| - 1] == y
                       && forall k | 0 <= k < |p| - 1 :: joined(p[k], p[k + 1]))
    {
      assert PathBetween(g, p, x, y);
    }
  }

  lemma ConnectedTransitive(g: Graph, x: nat, y: nat, z: nat)
    requires Connected(g, x, y) && Connected(g, y, z)
    ensures Connected(g, x, z)
  {
    var p :| PathBetween(g, p, x, y);
    var q :| PathBetween(g, q, y, z);
    assert PathBetween(g, p + q[1..], x, z);
  }

  ghost function Reverse(p: seq<nat>): (r: seq<nat>)
    ensures |r| == |p| && forall k | 0 <= k < |p| :: r[k] == p[|p| - 1 - k]
  {
    seq(|p|, k requires 0 <= k < |p| => p[|p| - 1 - k])
  }

  lemma ConnectedSymmetric(g: Graph, x: nat, y: nat)
    requires Connected(g, x, y)
    ensures Connected(g, y, x)
  {
    var p :| PathBetween(g, p, x, y);
    var r := Reverse(p);
    forall k | 0 <= k < |r| - 1 ensures Linked(g, r[k], r[k + 1]) {
      assert Linked(g, p[|p| - 2 - k], p[|p| - 2 - k + 1]);
    }
    assert PathBetween(g, r, y, x);
  }

  /** Every node is connected to the node its label names. */
  ghost predicate Anchored(g: Graph, c: seq<nat>)
    requires ValidLabels(g, c)
  {
    forall y | 0 <= y < g.n :: Connected(g, y, c[y])
  }

  lemma SettleAnchored(g: Graph, c: seq<nat>, i: nat)
    requires ValidLabels(g, c) && i < g.n && g.M() != 0.0 && Anchored(g, c)
    ensures Anchored(g, Settle(g, c, i))
  {
    var k := Best(g, c, i);
    if k != c[i] {
      var e :| 0 <= e < |g.edges| && g.Counts(e) && g.edges[e].src == i && c[g.edges[e].dst] == k;
      var x := g.edges[e].dst;
      assert Linked(g, i, x);
      assert PathBetween(g, [i, x], i, x);
      ConnectedTransitive(g, i, x, k);
    }
  }

  lemma {:induction false} SweepUpToAnchored(g: Graph, c: seq<nat>, k: nat)
    requires ValidLabels(g, c) && k <= g.n && g.M() != 0.0 && Anchored(g, c)
    ensures Anchored(g, SweepUpTo(g, c, k))
  {
    if k > 0 {
      SweepUpToAnchored(g, c, k - 1);
      SettleAnchored(g, SweepUpTo(g, c, k - 1), k - 1);
    }
  }

  lemma {:induction false} SweepsAnchored(g: Graph, c: seq<nat>, count: nat)
    requires ValidLabels(g, c) && g.M() != 0.0 && Anchored(g, c)
    ensures Anchored(g, Sweeps(g, c, count))
  {
    if count > 0 {
      SweepsAnchored(g, c, count - 1);
      SweepUpToAnchored(g, Sweeps(g, c, count - 1), g.n);
    }
  }

  /** Every node in its own community. */
  function Singletons(n: nat): (c: seq<nat>)
    ensures |c| == n && forall i | 0 <= i < n :: c[i] == i
  {
    seq(n, i => i)
  }

  /** Two nodes that end up with the same label lie in one connected component. */
  lemma CommunitiesAreConnected(g: Graph, count: nat, x: nat, y: nat)
    requires g.M() != 0.0 && x < g.n && y < g.n
    requires Sweeps(g, Singletons(g.n), count)[x] == Sweeps(g, Singletons(g.n), count)[y]
    ensures Connected(g, x, y)
  {
    var c := Singletons(g.n);
    forall z | 0 <= z < g.n ensures Connected(g, z, c[z]) {
      assert PathBetween(g, [z], z, z);
    }
    SweepsAnchored(g, c, count);
    var l := Sweeps(g, c, count)[x];
    ConnectedSymmetric(g, y, l);
    ConnectedTransitive(g, x, l, y);
  }
}
