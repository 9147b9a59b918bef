/** PageRank as an iteration on score vectors, and its convergence: the iteration is a contraction,
    so it stops within a computable number of steps, and its fixpoint is unique. */
module PageRankModel {
  import opened Signs
  import opened Sums
  import opened Edges

  /** Entry v of a vector; 0 outside it. */
  function At(x: seq<real>, v: int): real {
    if 0 <= v < |x| then x[v] else 0.0
  }

  datatype Links = Links(n: nat, edges: seq<Edge>) {

    predicate Counts(e: int) {
      0 <= e < |edges| && edges[e].src < n && edges[e].dst < n
    }

    function Source(e: int): int { if 0 <= e < |edges| then edges[e].src else -1 }

    function Target(e: int): int { if 0 <= e < |edges| then edges[e].dst else -1 }

    function WeightAt(e: int): real { if Counts(e) then edges[e].weight else 0.0 }

    ghost function OutDegreeUpTo(t: nat, s: int): real {
      Sum(t, e => if Source(e) == s then WeightAt(e) else 0.0)
    }

    ghost function OutDegree(s: int): real { OutDegreeUpTo(|edges|, s) }

    /** The share of its source's score that an edge passes on. */
    ghost function Share(e: int): real {
      if Counts(e) && OutDegree(Source(e)) > 0.0 then edges[e].weight / OutDegree(Source(e)) else 0.0
    }

    /** What the first t edges pass on to v. */
    ghost function InflowUpTo(t: nat, x: seq<real>, v: int): real {
      Sum(t, e => if Target(e) == v then Scaled(Share(e), At(x, Source(e))) else 0.0)
    }

    ghost function Inflow(x: seq<real>, v: int): real { InflowUpTo(|edges|, x, v) }

    ghost predicate NonNegative() {
      forall e | Counts(e) :: edges[e].weight >= 0.0
    }
  }

  ghost predicate NonNegativeVector(x: seq<real>) {
    forall v | 0 <= v < |x| :: x[v] >= 0.0
  }

  ghost function Total(x: seq<real>): real { Sum(|x|, v => At(x, v)) }

  ghost predicate IsDistribution(n: nat, p: seq<real>) {
    |p| == n && NonNegativeVector(p) && Total(p) == 1.0
  }

  /** One iteration. */
  ghost function Iterate(g: Links, p: seq<real>, d: real, x: seq<real>): (y: seq<real>)
    ensures |y| == g.n
  {
    seq(g.n, v => Scaled(1.0 - d, At(p, v)) + Scaled(d, g.Inflow(x, v)))
  }

  ghost function Scores(g: Links, p: seq<real>, d: real, t: nat): (x: seq<real>)
    requires |p| == g.n
    ensures |x| == g.n
  {
    if t == 0 then p else Iterate(g, p, d, Scores(g, p, d, t - 1))
  }

  /** Sum of the absolute differences. */
  ghost function Distance(n: nat, x: seq<real>, y: seq<real>): real {
    Sum(n, v => Abs(At(x, v) - At(y, v)))
  }

  lemma DistanceMeaning(x: seq<real>, y: seq<real>, moved: int -> real)
    requires |x| == |y| && forall v | 0 <= v < |x| :: moved(v) == (if x[v] < y[v] then y[v] - x[v] else x[v] - y[v])
    ensures Distance(|x|, x, y) == Sum(|x|, moved)
  {
    SumExt(|x|, v => Abs(At(x, v) - At(y, v)), moved);
  }

  // ---------- the inflow of a vector is no more than the vector ----------

  lemma ShareNonNegative(g: Links, e: int)
    requires g.NonNegative()
    ensures g.Share(e) >= 0.0
  {
    if g.Counts(e) && g.OutDegree(g.Source(e)) > 0.0 {
      QuotientSign(g.edges[e].weight, g.OutDegree(g.Source(e)));
    }
  }

  /** The out-degree of s is the weight of the edges that leave it, those with an end out of range left out. */
  lemma OutDegreeMeaning(g: Links, s: int, leaving: int -> real)
    requires forall e | 0 <= e < |g.edges| ::
      leaving(e) == (if g.edges[e].src == s < g.n && g.edges[e].dst < g.n then g.edges[e].weight else 0.0)
    ensures g.OutDegree(s) == Sum(|g.edges|, leaving)
  {
    SumExt(|g.edges|, e => if g.Source(e) == s then g.WeightAt(e) else 0.0, leaving);
  }

  /** An edge in range passes on as much of its source's score as it has of the source's out-degree; any other edge,
      and any edge of a source without positive out-degree, passes on nothing. */
  lemma ShareMeaning(g: Links, e: nat)
    requires e < |g.edges|
    ensures var s, d := g.edges[e].src, g.OutDegree(g.edges[e].src);
      if s < g.n && g.edges[e].dst < g.n && d > 0.0 then g.Share(e) * d == g.edges[e].weight else g.Share(e) == 0.0
  {
    var d := g.OutDegree(g.edges[e].src);
    if d > 0.0 { QuotientTimes(g.edges[e].weight, d); }
  }

  /** The shares of a node with positive out-degree add up to exactly 1, and those of any other node are 0. */
  lemma SharesOfSource(g: Links, s: int)
    ensures Sum(|g.edges|, e => if g.Source(e) == s then g.Share(e) else 0.0)
         == if g.OutDegree(s) > 0.0 then 1.0 else 0.0
  {
    var shares := e => if g.Source(e) == s then g.Share(e) else 0.0;
    if g.OutDegree(s) > 0.0 {
      var weights := e => if g.Source(e) == s then g.WeightAt(e) else 0.0;
      forall e | 0 <= e < |g.edges| ensures shares(e) == weights(e) / g.OutDegree(s) { ShareOfWeight(g, e, s); }
      InverseScale(|g.edges|, g.OutDegree(s), weights, shares);
    } else {
      SumZero(|g.edges|, shares);
    }
  }

  lemma ShareOfWeight(g: Links, e: nat, s: int)
    requires e < |g.edges| && g.OutDegree(s) > 0.0
    ensures (if g.Source(e) == s then g.Share(e) else 0.0)
         == (if g.Source(e) == s then g.WeightAt(e) else 0.0) / g.OutDegree(s)
  {
  }

  lemma QuotientIsScaled(x: real, d: real)
    requires d > 0.0
    ensures Scaled(1.0 / d, x) == x / d
    ensures d / d == 1.0
  {
  }

  lemma InverseScale(n: nat, d: real, f: int -> real, g: int -> real)
    requires d > 0.0 && Sum(n, f) == d && forall i | 0 <= i < n :: g(i) == f(i) / d
    ensures Sum(n, g) == 1.0
  {
    var r := 1.0 / d;
    forall i | 0 <= i < n ensures g(i) == Scaled(r, f(i)) { QuotientIsScaled(f(i), d); }
    SumScale(n, r, f, g);
    QuotientIsScaled(d, d);
  }

  /** What all nodes receive, counted by edge. */
  lemma InflowByEdge(g: Links, z: seq<real>)
    ensures Sum(g.n, v => g.Inflow(z, v)) == Sum(|g.edges|, e => Scaled(g.Share(e), At(z, g.Source(e))))
  {
    hide Scaled;
    var key, f := e => g.Target(e), e => Scaled(g.Share(e), At(z, g.Source(e)));
    SumByKey(g.n, |g.edges|, key, f);
    var byTarget := v => Sum(|g.edges|, e => if key(e) == v then f(e) else 0.0);
    forall v | 0 <= v < g.n ensures g.Inflow(z, v) == byTarget(v) {
      SumExt(|g.edges|, e => if g.Target(e) == v then Scaled(g.Share(e), At(z, g.Source(e))) else 0.0,
             e => if key(e) == v then f(e) else 0.0);
    }
    SumExt(g.n, v => g.Inflow(z, v), byTarget);
    forall e | 0 <= e < |g.edges| && !(0 <= key(e) < g.n) ensures f(e) == 0.0 { NoShare(g, e, At(z, g.Source(e))); }
    SumExt(|g.edges|, e => if 0 <= key(e) < g.n then f(e) else 0.0, e => Scaled(g.Share(e), At(z, g.Source(e))));
  }

  /** An edge out of range passes nothing on. */
  lemma NoShare(g: Links, e: int, score: real)
    requires !g.Counts(e)
    ensures Scaled(g.Share(e), score) == 0.0
  {
  }

  /** A node with positive out-degree passes on all its score, any other nothing. */
  lemma OutflowOfSource(g: Links, z: seq<real>, s: int)
    ensures Sum(|g.edges|, e => if g.Source(e) == s then Scaled(g.Share(e), At(z, g.Source(e))) else 0.0)
         == if g.OutDegree(s) > 0.0 then At(z, s) else 0.0
  {
    hide Scaled, Links.Share;
    var shares := e => if g.Source(e) == s then g.Share(e) else 0.0;
    var passed := e => if g.Source(e) == s then Scaled(g.Share(e), At(z, g.Source(e))) else 0.0;
    forall e ensures passed(e) == Scaled(At(z, s), shares(e)) {
      ScaledZero(At(z, s));
      ScaledCommutes(At(z, s), shares(e));
    }
    SumScale(|g.edges|, At(z, s), shares, passed);
    SharesOfSource(g, s);
    ScaledCommutes(At(z, s), 1.0);
    ScaledOne(At(z, s));
    ScaledZero(At(z, s));
  }

  /** What all edges pass on, counted by source. */
  lemma OutflowBySource(g: Links, z: seq<real>)
    ensures Sum(|g.edges|, e => Scaled(g.Share(e), At(z, g.Source(e))))
         == Sum(g.n, s => if g.OutDegree(s) > 0.0 then At(z, s) else 0.0)
  {
    hide Scaled;
    var key, f := e => g.Source(e), e => Scaled(g.Share(e), At(z, g.Source(e)));
    SumByKey(g.n, |g.edges|, key, f);
    var bySource := s => Sum(|g.edges|, e => if key(e) == s then f(e) else 0.0);
    forall s | 0 <= s < g.n ensures bySource(s) == if g.OutDegree(s) > 0.0 then At(z, s) else 0.0 {
      OutflowOfSource(g, z, s);
      SumExt(|g.edges|, e => if key(e) == s then f(e) else 0.0,
             e => if g.Source(e) == s then Scaled(g.Share(e), At(z, g.Source(e))) else 0.0);
    }
    SumExt(g.n, bySource, s => if g.OutDegree(s) > 0.0 then At(z, s) else 0.0);
    forall e | 0 <= e < |g.edges| && !(0 <= key(e) < g.n) ensures f(e) == 0.0 { NoShare(g, e, At(z, g.Source(e))); }
    SumExt(|g.edges|, e => if 0 <= key(e) < g.n then f(e) else 0.0, e => Scaled(g.Share(e), At(z, g.Source(e))));
  }

  /** Nothing gets lost on the way: all nodes together receive exactly the score of the nodes that have positive
      out-degree. */
  lemma InflowTotal(g: Links, z: seq<real>)
    ensures Sum(g.n, v => g.Inflow(z, v)) == Sum(g.n, s => if g.OutDegree(s) > 0.0 then At(z, s) else 0.0)
  {
    InflowByEdge(g, z);
    OutflowBySource(g, z);
  }

  lemma InflowBounded(g: Links, z: seq<real>)
    requires |z| == g.n && NonNegativeVector(z)
    ensures Sum(g.n, v => g.Inflow(z, v)) <= Total(z)
  {
    InflowTotal(g, z);
    SumMono(g.n, s => if g.OutDegree(s) > 0.0 then At(z, s) else 0.0, v => At(z, v));
  }

  lemma InflowNonNegative(g: Links, z: seq<real>, v: int)
    requires NonNegativeVector(z) && g.NonNegative()
    ensures g.Inflow(z, v) >= 0.0
  {
    var f := e => if g.Target(e) == v then Scaled(g.Share(e), At(z, g.Source(e))) else 0.0;
    forall e ensures f(e) >= 0.0 {
      ShareNonNegative(g, e);
      ScaledSign(g.Share(e), At(z, g.Source(e)));
    }
    SumMono(|g.edges|, e => 0.0, f);
    SumZero(|g.edges|, e => 0.0);
  }

  // ---------- mass ----------

  /** What an iteration gives to node v. */
  lemma IterateAt(g: Links, p: seq<real>, d: real, x: seq<real>, v: int)
    requires 0 <= v < g.n
    ensures At(Iterate(g, p, d, x), v) == Scaled(1.0 - d, At(p, v)) + Scaled(d, g.Inflow(x, v))
  {
  }

  /** Scores stay non-negative. */
  lemma IterateNonNegative(g: Links, p: seq<real>, d: real, x: seq<real>)
    requires |p| == |x| == g.n && NonNegativeVector(p) && NonNegativeVector(x) && g.NonNegative() && 0.0 <= d <= 1.0
    ensures NonNegativeVector(Iterate(g, p, d, x))
  {
    hide Scaled, Iterate;
    forall v | 0 <= v < g.n ensures Iterate(g, p, d, x)[v] >= 0.0 {
      InflowNonNegative(g, x, v);
      IterateAt(g, p, d, x, v);
      ScaledSign(1.0 - d, At(p, v));
      ScaledSign(d, g.Inflow(x, v));
    }
  }

  /** One iteration gives node v its part of the teleport vector and, damped, what the edges into it pass on:
      the score of each edge's source in the proportion of the edge's weight to the source's out-degree. */
  lemma IterateMeaning(g: Links, p: seq<real>, d: real, x: seq<real>, v: nat, passed: int -> real)
    requires |p| == |x| == g.n && v < g.n
    requires forall e | 0 <= e < |g.edges| ::
      var s := g.edges[e].src;
      passed(e) == (if s < g.n && g.edges[e].dst == v && g.OutDegree(s) > 0.0
                    then (g.edges[e].weight / g.OutDegree(s)) * x[s] else 0.0)
    ensures Iterate(g, p, d, x)[v] == (1.0 - d) * p[v] + d * Sum(|g.edges|, passed)
  {
    var f := e => if g.Target(e) == v then Scaled(g.Share(e), At(x, g.Source(e))) else 0.0;
    forall e | 0 <= e < |g.edges| ensures passed(e) == f(e) { PassedOn(g, x, e); }
    SumExt(|g.edges|, f, passed);
    Mixed(1.0 - d, p[v], d, Sum(|g.edges|, passed));
  }

  lemma PassedOn(g: Links, x: seq<real>, e: nat)
    requires |x| == g.n && e < |g.edges|
    ensures var s := g.edges[e].src;
      Scaled(g.Share(e), At(x, g.Source(e)))
      == if s < g.n && g.edges[e].dst < g.n && g.OutDegree(s) > 0.0
         then (g.edges[e].weight / g.OutDegree(s)) * x[s] else 0.0
  {
    hide Links.OutDegree;
    if g.Counts(e) { ScaledZero(x[g.edges[e].src]); } else { NoShare(g, e, At(x, g.Source(e))); }
  }

  lemma Mixed(a: real, x: real, b: real, y: real)
    ensures Scaled(a, x) + Scaled(b, y) == a * x + b * y
  {
  }

  /** The score held by the nodes that pass it on. */
  ghost function Held(g: Links, x: seq<real>): real {
    Sum(g.n, s => if g.OutDegree(s) > 0.0 then At(x, s) else 0.0)
  }

  /** The total after an iteration, exactly: the teleport share, and the damped score of the nodes that have
      positive out-degree. */
  lemma TotalAfter(g: Links, p: seq<real>, d: real, x: seq<real>)
    requires |p| == |x| == g.n
    ensures Total(Iterate(g, p, d, x)) == Scaled(1.0 - d, Total(p)) + Scaled(d, Held(g, x))
  {
    hide Scaled, Iterate;
    var y := Iterate(g, p, d, x);
    var teleport, linked := v => Scaled(1.0 - d, At(p, v)), v => Scaled(d, g.Inflow(x, v));
    forall v | 0 <= v < g.n ensures At(y, v) == teleport(v) + linked(v) { IterateAt(g, p, d, x, v); }
    SumAdd(g.n, teleport, linked, v => At(y, v));
    SumScale(g.n, 1.0 - d, v => At(p, v), teleport);
    var inflow := v => g.Inflow(x, v);
    SumScale(g.n, d, inflow, linked);
    InflowTotal(g, x);
    SumExt(g.n, inflow, v => g.Inflow(x, v));
  }

  /** The same written out, for a teleport distribution: the total is (1 - d) plus d times the score held by the
      nodes whose outgoing edges have positive weight. */
  lemma TotalAfterMeaning(g: Links, p: seq<real>, d: real, x: seq<real>, held: int -> real, kept: real)
    requires |p| == |x| == g.n && Sum(g.n, v => At(p, v)) == 1.0
    requires forall s | 0 <= s < g.n :: held(s) == (if g.OutDegree(s) > 0.0 then x[s] else 0.0)
    requires kept == Sum(g.n, held)
    ensures Sum(g.n, v => At(Iterate(g, p, d, x), v)) == (1.0 - d) + d * kept
  {
    hide Iterate;
    TotalAfter(g, p, d, x);
    SumExt(g.n, held, s => if g.OutDegree(s) > 0.0 then At(x, s) else 0.0);
    Mixed(1.0 - d, 1.0, d, kept);
  }

  /** When every node has outgoing weight the scores add up to exactly 1 in every iterate. */
  lemma {:induction false} TotalIsOne(g: Links, p: seq<real>, d: real, t: nat)
    requires IsDistribution(g.n, p) && forall s | 0 <= s < g.n :: g.OutDegree(s) > 0.0
    ensures Sum(g.n, v => At(Scores(g, p, d, t), v)) == 1.0
  {
    hide Scaled, Iterate;
    if t > 0 {
      var x := Scores(g, p, d, t - 1);
      TotalIsOne(g, p, d, t - 1);
      TotalAfter(g, p, d, x);
      SumExt(g.n, s => if g.OutDegree(s) > 0.0 then At(x, s) else 0.0, v => At(x, v));
      Whole(d);
    }
  }

  lemma Whole(d: real)
    ensures Scaled(1.0 - d, 1.0) + Scaled(d, 1.0) == 1.0
  {
  }

  /** An iteration does not add to the total: it mixes the teleport distribution with what the old
      scores pass on. */
  lemma IterateTotal(g: Links, p: seq<real>, d: real, x: seq<real>)
    requires |p| == |x| == g.n && NonNegativeVector(x) && 0.0 <= d
    ensures Total(Iterate(g, p, d, x)) <= Scaled(1.0 - d, Total(p)) + Scaled(d, Total(x))
  {
    hide Scaled, Iterate;
    TotalAfter(g, p, d, x);
    SumMono(g.n, s => if g.OutDegree(s) > 0.0 then At(x, s) else 0.0, v => At(x, v));
    ScaledMono(d, Held(g, x), Total(x));
  }

  lemma Mixture(d: real, x: real)
    requires x <= 1.0 && 0.0 <= d
    ensures Scaled(1.0 - d, 1.0) + Scaled(d, x) <= 1.0
  {
    ScaledMono(d, x, 1.0);
  }

  /** All scores are non-negative, with total at most 1. */
  lemma {:induction false} ScoresAreSubDistribution(g: Links, p: seq<real>, d: real, t: nat)
    requires IsDistribution(g.n, p) && g.NonNegative() && 0.0 <= d <= 1.0
    ensures NonNegativeVector(Scores(g, p, d, t)) && Total(Scores(g, p, d, t)) <= 1.0
  {
    hide Scaled, Iterate;
    if t > 0 {
      var x := Scores(g, p, d, t - 1);
      ScoresAreSubDistribution(g, p, d, t - 1);
      IterateNonNegative(g, p, d, x);
      IterateTotal(g, p, d, x);
      Mixture(d, Total(x));
    }
  }

  // ---------- contraction ----------

  ghost function Gap(x: seq<real>, y: seq<real>): (z: seq<real>)
    ensures |z| == |x| && NonNegativeVector(z)
  {
    seq(|x|, v => Abs(At(x, v) - At(y, v)))
  }

  /** The difference of two inflows is at most the inflow of the differences. */
  lemma InflowGap(g: Links, x: seq<real>, y: seq<real>, v: int)
    requires |x| == |y| == g.n && g.NonNegative()
    ensures Abs(g.Inflow(x, v) - g.Inflow(y, v)) <= g.Inflow(Gap(x, y), v)
  {
    var fx := e => if g.Target(e) == v then Scaled(g.Share(e), At(x, g.Source(e))) else 0.0;
    var fy := e => if g.Target(e) == v then Scaled(g.Share(e), At(y, g.Source(e))) else 0.0;
    var fz := e => if g.Target(e) == v then Scaled(g.Share(e), At(Gap(x, y), g.Source(e))) else 0.0;
    forall e | 0 <= e < |g.edges| ensures Abs(fx(e) - fy(e)) <= fz(e) {
      ShareNonNegative(g, e);
      ScaledGap(g.Share(e), At(x, g.Source(e)), At(y, g.Source(e)));
    }
    SumSub(|g.edges|, fx, fy, e => fx(e) - fy(e));
    SumAbs(|g.edges|, e => fx(e) - fy(e), fz);
  }

  lemma ScaledGap(c: real, x: real, y: real)
    requires c >= 0.0
    ensures Abs(Scaled(c, x) - Scaled(c, y)) == Scaled(c, Abs(x - y))
  {
    hide Scaled;
    if x <= y {
      ScaledAdds(c, x, y - x);
      ScaledSign(c, y - x);
    } else {
      ScaledAdds(c, y, x - y);
      ScaledSign(c, x - y);
    }
  }

  lemma ScaledSum(n: nat, d: real, f: int -> real)
    ensures Sum(n, v => Scaled(d, f(v))) == Scaled(d, Sum(n, f))
  {
    SumScale(n, d, f, v => Scaled(d, f(v)));
  }

  lemma IterateGap(g: Links, p: seq<real>, d: real, x: seq<real>, y: seq<real>, v: int)
    requires |p| == |x| == |y| == g.n && g.NonNegative() && 0.0 <= d && 0 <= v < g.n
    ensures Abs(At(Iterate(g, p, d, x), v) - At(Iterate(g, p, d, y), v)) <= Scaled(d, g.Inflow(Gap(x, y), v))
  {
    hide Scaled, Iterate;
    InflowGap(g, x, y, v);
    IterateAt(g, p, d, x, v);
    IterateAt(g, p, d, y, v);
    ScaledGap(d, g.Inflow(x, v), g.Inflow(y, v));
    ScaledMono(d, Abs(g.Inflow(x, v) - g.Inflow(y, v)), g.Inflow(Gap(x, y), v));
  }

  /** The damped inflow of non-negative scores is at most the damped scores. */
  lemma ScaledInflow(g: Links, z: seq<real>, d: real)
    requires |z| == g.n && NonNegativeVector(z) && g.NonNegative() && 0.0 <= d
    ensures Sum(g.n, v => Scaled(d, g.Inflow(z, v))) <= Scaled(d, Total(z))
  {
    hide Scaled;
    var inflow := v => g.Inflow(z, v);
    ScaledSum(g.n, d, inflow);
    SumExt(g.n, v => Scaled(d, inflow(v)), v => Scaled(d, g.Inflow(z, v)));
    InflowBounded(g, z);
    ScaledMono(d, Sum(g.n, inflow), Total(z));
  }

  /** One iteration brings any two vectors closer by the damping factor. */
  lemma Contraction(g: Links, p: seq<real>, d: real, x: seq<real>, y: seq<real>)
    requires |p| == |x| == |y| == g.n && g.NonNegative() && 0.0 <= d
    ensures Distance(g.n, Iterate(g, p, d, x), Iterate(g, p, d, y)) <= Scaled(d, Distance(g.n, x, y))
  {
    hide Scaled;
    hide Iterate;
    var x', y', z := Iterate(g, p, d, x), Iterate(g, p, d, y), Gap(x, y);
    forall v | 0 <= v < g.n ensures Abs(At(x', v) - At(y', v)) <= Scaled(d, g.Inflow(z, v)) {
      IterateGap(g, p, d, x, y, v);
    }
    SumMono(g.n, v => Abs(At(x', v) - At(y', v)), v => Scaled(d, g.Inflow(z, v)));
    ScaledInflow(g, z, d);
    SumExt(g.n, v => At(z, v), v => Abs(At(x, v) - At(y, v)));
    assert Total(z) == Distance(g.n, x, y);
  }

  ghost function Power(d: real, k: nat): real {
    if k == 0 then 1.0 else Scaled(d, Power(d, k - 1))
  }

  /** How far iteration t moves the scores. */
  ghost function Diff(g: Links, p: seq<real>, d: real, t: nat): real
    requires |p| == g.n
  {
    Distance(g.n, Scores(g, p, d, t + 1), Scores(g, p, d, t))
  }

  /** Each iteration moves the scores by at most the damping factor times the one before. */
  lemma DiffShrinks(g: Links, p: seq<real>, d: real, t: nat)
    requires |p| == g.n && g.NonNegative() && 0.0 <= d
    ensures Diff(g, p, d, t + 1) <= Scaled(d, Diff(g, p, d, t))
  {
    hide Scaled;
    Contraction(g, p, d, Scores(g, p, d, t + 1), Scores(g, p, d, t));
  }

  lemma FirstDiff(g: Links, p: seq<real>, d: real)
    requires IsDistribution(g.n, p) && g.NonNegative() && 0.0 <= d
    ensures Diff(g, p, d, 0) <= Scaled(d, 2.0)
  {
    hide Scaled;
    var x := Scores(g, p, d, 1);
    assert Scores(g, p, d, 0) == p;
    var moved := v => g.Inflow(p, v) + At(p, v);
    forall v | 0 <= v < g.n ensures Abs(At(x, v) - At(p, v)) <= Scaled(d, moved(v)) {
      FirstMoveAt(g, p, d, v);
    }
    SumMono(g.n, v => Abs(At(x, v) - At(p, v)), v => Scaled(d, moved(v)));
    ScaledSum(g.n, d, moved);
    SumAdd(g.n, v => g.Inflow(p, v), v => At(p, v), moved);
    InflowBounded(g, p);
    ScaledMono(d, Sum(g.n, moved), 2.0);
  }

  lemma FirstMoveAt(g: Links, p: seq<real>, d: real, v: int)
    requires IsDistribution(g.n, p) && g.NonNegative() && 0.0 <= d && 0 <= v < g.n
    ensures Abs(At(Scores(g, p, d, 1), v) - At(p, v)) <= Scaled(d, g.Inflow(p, v) + At(p, v))
  {
    hide Scaled, Iterate;
    assert Scores(g, p, d, 1) == Iterate(g, p, d, Scores(g, p, d, 0));
    InflowNonNegative(g, p, v);
    IterateAt(g, p, d, p, v);
    FirstMove(d, At(p, v), g.Inflow(p, v));
  }

  lemma FirstMove(d: real, p: real, c: real)
    requires d >= 0.0 && p >= 0.0 && c >= 0.0
    ensures Abs(Scaled(1.0 - d, p) + Scaled(d, c) - p) <= Scaled(d, c + p)
  {
    assert Scaled(1.0 - d, p) == p - Scaled(d, p);
    ScaledAdds(d, c, p);
    ScaledSign(d, p);
    ScaledSign(d, c);
  }

  /** Iteration t moves the scores by at most 2 d^(t + 1). */
  lemma {:induction false} DiffBound(g: Links, p: seq<real>, d: real, t: nat)
    requires IsDistribution(g.n, p) && g.NonNegative() && 0.0 <= d
    ensures Diff(g, p, d, t) <= 2.0 * Power(d, t + 1)
  {
    hide Diff;
    hide Scaled;
    if t == 0 {
      FirstDiff(g, p, d);
      ScaledDouble(d, Power(d, 0));
    } else {
      DiffBound(g, p, d, t - 1);
      DiffShrinks(g, p, d, t - 1);
      ScaledMono(d, Diff(g, p, d, t - 1), 2.0 * Power(d, t));
      ScaledDouble(d, Power(d, t));
    }
  }

  lemma ScaledDouble(d: real, x: real)
    ensures Scaled(d, 2.0 * x) == 2.0 * Scaled(d, x)
  {
  }

  /** How fast the powers of d are known to have fallen after k factors. */
  function Fall(d: real, k: nat): real { k as real * (1.0 - d) }

  /** Powers of a number below 1 fall at least like 1 / (1 + k (1 - d)). */
  lemma {:induction false} PowerFalls(d: real, k: nat)
    requires 0.0 <= d < 1.0
    ensures 0.0 <= Power(d, k) <= 1.0
    ensures Power(d, k) + Scaled(Fall(d, k), Power(d, k)) <= 1.0
  {
    if k > 0 {
      PowerFalls(d, k - 1);
      PowerStep(d, Power(d, k - 1), k - 1);
    }
  }

  lemma PowerStep(d: real, q: real, k: nat)
    requires 0.0 <= d < 1.0 && 0.0 <= q <= 1.0 && q + Scaled(Fall(d, k), q) <= 1.0
    ensures 0.0 <= Scaled(d, q) <= 1.0
    ensures Scaled(d, q) + Scaled(Fall(d, k + 1), Scaled(d, q)) <= 1.0
  {
    hide Scaled;
    var r, w := Fall(d, k), Scaled(d, q);
    ScaledZero(d);
    ScaledMono(d, 0.0, q);
    ScaledMono(d, q, 1.0);
    ScaledCommutes(d, 1.0);
    ScaledOne(d);
    FallNext(d, k, w);
    ScaledTwice(r, d, q);
    ScaledMono(d, q + Scaled(r, q), 1.0);
    ScaledAdds(d, q, Scaled(r, q));
    Complement(d, w);
  }

  lemma FallNext(d: real, k: nat, w: real)
    ensures Scaled(Fall(d, k + 1), w) == Scaled(Fall(d, k), w) + Scaled(1.0 - d, w)
  {
    assert Fall(d, k + 1) == Fall(d, k) + (1.0 - d);
    ScaledCommutes(Fall(d, k + 1), w);
    ScaledAdds(w, Fall(d, k), 1.0 - d);
  }

  lemma Complement(d: real, w: real)
    requires 0.0 <= d < 1.0 && w <= 1.0
    ensures Scaled(1.0 - d, w) <= 1.0 - d
  {
    ScaledMono(1.0 - d, w, 1.0);
  }

  /** The tolerance test fires after a number of iterations that can be computed beforehand. */
  lemma ToleranceIsReached(g: Links, p: seq<real>, d: real, tol: real, t: nat)
    requires IsDistribution(g.n, p) && g.NonNegative() && 0.0 <= d < 1.0 && tol > 0.0
    requires Scaled(Fall(d, t + 1), tol) >= 2.0
    ensures Diff(g, p, d, t) < tol
  {
    hide Diff;
    hide Scaled;
    hide Power;
    hide Fall;
    DiffBound(g, p, d, t);
    PowerFalls(d, t + 1);
    BelowTolerance(Power(d, t + 1), Fall(d, t + 1), tol);
  }

  lemma BelowTolerance(q: real, r: real, tol: real)
    requires 0.0 <= q && q + Scaled(r, q) <= 1.0 && Scaled(r, tol) >= 2.0 && tol > 0.0
    ensures 2.0 * q < tol
  {
    hide Scaled;
    RatePositive(r, tol);
    if tol <= 2.0 * q {
      ScaledMono(r, tol, 2.0 * q);
      ScaledDouble(r, q);
    }
  }

  lemma RatePositive(r: real, tol: real)
    requires Scaled(r, tol) >= 2.0 && tol > 0.0
    ensures r >= 0.0
  {
    if r < 0.0 { ScaledSign(-r, tol); }
  }

  // ---------- fixpoints ----------

  lemma DistanceNonNegative(n: nat, x: seq<real>, y: seq<real>)
    ensures Distance(n, x, y) >= 0.0
  {
    SumMono(n, v => 0.0, v => Abs(At(x, v) - At(y, v)));
    SumZero(n, v => 0.0);
  }

  lemma DistanceTriangle(n: nat, x: seq<real>, y: seq<real>, z: seq<real>)
    ensures Distance(n, x, z) <= Distance(n, x, y) + Distance(n, y, z)
  {
    var xy, yz := v => Abs(At(x, v) - At(y, v)), v => Abs(At(y, v) - At(z, v));
    SumAdd(n, xy, yz, v => xy(v) + yz(v));
    SumMono(n, v => Abs(At(x, v) - At(z, v)), v => xy(v) + yz(v));
  }

  lemma DistanceSymmetric(n: nat, x: seq<real>, y: seq<real>)
    ensures Distance(n, x, y) == Distance(n, y, x)
  {
    SumExt(n, v => Abs(At(x, v) - At(y, v)), v => Abs(At(y, v) - At(x, v)));
  }

  lemma NoGrowth(d: real, r: real)
    requires 0.0 <= d < 1.0 && r >= 0.0 && r <= Scaled(d, r)
    ensures r == 0.0
  {
    if r > 0.0 { ScaledSign(1.0 - d, r); }
  }

  /** There is at most one vector that an iteration leaves unchanged. */
  lemma FixpointUnique(g: Links, p: seq<real>, d: real, x: seq<real>, y: seq<real>)
    requires |p| == |x| == |y| == g.n && g.NonNegative() && 0.0 <= d < 1.0
    requires Iterate(g, p, d, x) == x && Iterate(g, p, d, y) == y
    ensures x == y
  {
    hide Scaled;
    hide Iterate;
    Contraction(g, p, d, x, y);
    DistanceNonNegative(g.n, x, y);
    NoGrowth(d, Distance(g.n, x, y));
    forall v | 0 <= v < g.n ensures x[v] == y[v] {
      SumAtLeast(g.n, v, v => Abs(At(x, v) - At(y, v)));
    }
  }

  /** How good the scores are when the tolerance test fires: the fixpoint is within
      d / (1 - d) times the last move. */
  lemma DistanceToFixpoint(g: Links, p: seq<real>, d: real, x: seq<real>, t: nat)
    requires |p| == |x| == g.n && g.NonNegative() && 0.0 <= d < 1.0
    requires Iterate(g, p, d, x) == x
    ensures Scaled(1.0 - d, Distance(g.n, Scores(g, p, d, t + 1), x)) <= Scaled(d, Diff(g, p, d, t))
  {
    hide Scaled;
    hide Iterate;
    hide Distance;
    var a, b := Scores(g, p, d, t), Scores(g, p, d, t + 1);
    Contraction(g, p, d, a, x);
    DistanceTriangle(g.n, a, b, x);
    DistanceSymmetric(g.n, a, b);
    Approach(d, Distance(g.n, b, x), Distance(g.n, a, x), Distance(g.n, b, a));
  }

  lemma Approach(d: real, near: real, far: real, move: real)
    requires 0.0 <= d && near <= Scaled(d, far) && far <= move + near
    ensures Scaled(1.0 - d, near) <= Scaled(d, move)
  {
    ScaledMono(d, far, move + near);
    ScaledAdds(d, move, near);
  }

  /** However many iterations follow, the scores stay within d / (1 - d) times the last move. */
  lemma {:induction false} LaterScores(g: Links, p: seq<real>, d: real, t: nat, k: nat)
    requires |p| == g.n && g.NonNegative() && 0.0 <= d < 1.0
    ensures Scaled(1.0 - d, Distance(g.n, Scores(g, p, d, t + 1 + k), Scores(g, p, d, t + 1)))
         <= Scaled(d, Diff(g, p, d, t))
  {
    hide Scaled, Distance, Iterate;
    var a, b := Scores(g, p, d, t), Scores(g, p, d, t + 1);
    if k == 0 {
      NoDistance(g.n, b);
      ScaledZero(1.0 - d);
      DistanceNonNegative(g.n, b, a);
      ScaledSign(d, Distance(g.n, b, a));
    } else {
      var y := Scores(g, p, d, t + k);
      LaterScores(g, p, d, t, k - 1);
      Contraction(g, p, d, y, a);
      DistanceTriangle(g.n, y, b, a);
      ScaledMono(d, Distance(g.n, y, a), Distance(g.n, y, b) + Distance(g.n, b, a));
      StaysClose(d, Distance(g.n, Iterate(g, p, d, y), b), Distance(g.n, y, b), Distance(g.n, b, a));
    }
  }

  lemma StaysClose(d: real, near: real, before: real, move: real)
    requires 0.0 <= d < 1.0 && near <= Scaled(d, before + move) && Scaled(1.0 - d, before) <= Scaled(d, move)
    ensures Scaled(1.0 - d, near) <= Scaled(d, move)
  {
    hide Scaled;
    ScaledMono(1.0 - d, near, Scaled(d, before + move));
    ScaledTwice(1.0 - d, d, before + move);
    ScaledAdds(1.0 - d, before, move);
    Complementary(d, move);
    ScaledMono(d, Scaled(1.0 - d, before + move), move);
  }

  lemma Complementary(d: real, x: real)
    ensures Scaled(d, x) + Scaled(1.0 - d, x) == x
  {
  }

  lemma NoDistance(n: nat, x: seq<real>)
    ensures Distance(n, x, x) == 0.0
  {
    var moved := v => Abs(At(x, v) - At(x, v));
    forall v: int ensures moved(v) == 0.0 { NoGap(At(x, v)); }
    SumZero(n, moved);
  }

  lemma NoGap(a: real)
    ensures Abs(a - a) == 0.0
  {
  }
}
