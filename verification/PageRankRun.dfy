/** The power iteration with its two stopping tests. */
module PageRankRun {
  import opened Options
  import opened Sums
  import opened Edges
  import opened Sizes
  import opened Sorting
  import opened Ranking
  import opened PageRankModel
  import opened PageRank

  // ---------- the first k nodes ----------

  /** The library's partial selection. Nothing is used of it but that none of the elements from
      position k on comes before one of the first k. */
  method SelectNth(keys: seq<Key>, k: nat) returns (r: seq<Key>)
    requires k <= |keys|
    ensures IsSelection(RanksBefore, keys, r, k)
  {
    r := Sort(RanksBefore, keys);
    SortSorts(RanksBefore, keys);
  }

  /** Selecting, truncating and sorting the prefix gives the first k of the full sort. */
  method TopKInto(scores: array<real>, k: nat) returns (out: seq<nat>)
    ensures out == TopK(scores[..], k)
  {
    var n := scores.Length;
    var k' := Min(k, n);
    if k' == 0 { return []; }
    var keys := Keys(scores[..]);
    var buffer := keys;
    if k' < n {
      buffer := SelectNth(buffer, k');
      RanksBeforeIsTotal();
      SelectionSorts(RanksBefore, keys, buffer, k');
      buffer := buffer[..k'];
    }
    buffer := Sort(RanksBefore, buffer);
    out := Indices(buffer);
    assert buffer == Sort(RanksBefore, keys)[..k'];
  }

  // ---------- when the iteration stops ----------

  datatype Settings = Settings(damping: real, maxIter: nat, tol: real, rankK: Option<nat>, stableIters: nat)

  /** Whether the top-k order is watched, and how many nodes it has. */
  predicate Watches(n: nat, c: Settings) {
    c.rankK.Some? && Min(c.rankK.value, n) > 0 && c.stableIters > 0
  }

  /** The top-k order of every iterate. */
  ghost function Tops(g: Links, p: seq<real>, d: real, k: nat): nat -> seq<nat>
    requires |p| == g.n
  {
    (t: nat) => TopK(Scores(g, p, d, t), k)
  }

  /** After iteration t: for how many iterations the order has been unchanged. */
  ghost function StableRun(top: nat -> seq<nat>, t: nat): nat {
    if t == 0 then 0 else if top(t + 1) == top(t) then StableRun(top, t - 1) + 1 else 0
  }

  ghost predicate SameSince(top: nat -> seq<nat>, from: int, to: nat) {
    forall u: nat | from <= u <= to :: top(u) == top(to)
  }

  /** Iteration t is the last. */
  ghost predicate Stops(g: Links, p: seq<real>, c: Settings, t: nat)
    requires |p| == g.n
  {
    Diff(g, p, c.damping, t) < c.tol
    || (Watches(g.n, c) && StableRun(Tops(g, p, c.damping, c.rankK.value), t) >= c.stableIters)
  }

  /** The iteration goes on until it stops or the limit is reached. */
  ghost predicate IsRunLength(g: Links, p: seq<real>, c: Settings, iterations: nat)
    requires |p| == g.n
  {
    && iterations <= c.maxIter
    && (forall t: nat | t < iterations - 1 :: !Stops(g, p, c, t))
    && (iterations == c.maxIter || (iterations > 0 && Stops(g, p, c, iterations - 1)))
  }

  /** The scores after a run of the right length. */
  ghost predicate IsResult(g: Links, p: seq<real>, c: Settings, scores: seq<real>)
    requires |p| == g.n
  {
    exists iterations: nat :: IsRunLength(g, p, c, iterations) && scores == Scores(g, p, c.damping, iterations)
  }

  /** The order has been unchanged for r iterations exactly when there have been that many after the
      first and the last r + 1 iterates have the same order. */
  lemma {:induction false} StableRunMeaning(top: nat -> seq<nat>, t: nat, r: nat)
    ensures StableRun(top, t) >= r <==> r <= t && SameSince(top, t + 1 - r, t + 1)
  {
    if r > 0 && t > 0 {
      StableRunMeaning(top, t - 1, r - 1);
      if top(t + 1) == top(t) {
        assert SameSince(top, t + 1 - r, t + 1) <==> SameSince(top, t - (r - 1), t);
      }
    }
  }

  lemma ScoresMeaning(g: Links, p: seq<real>, d: real)
    requires |p| == g.n
    ensures Scores(g, p, d, 0) == p
    ensures forall t: nat :: Scores(g, p, d, t + 1) == Iterate(g, p, d, Scores(g, p, d, t))
  {
  }

  /** When iteration t is the last, written out: the scores moved by less than the tolerance, or an order is watched
      (rank_k and stable_iters are positive and there are nodes) and the stable_iters iterates before have the same
      first rank_k nodes in the same order. */
  lemma StopsMeaning(g: Links, p: seq<real>, c: Settings, t: nat, order: nat -> seq<nat>)
    requires |p| == g.n
    requires c.rankK.Some? ==> forall u: nat :: order(u) == TopK(Scores(g, p, c.damping, u), c.rankK.value)
    ensures Stops(g, p, c, t) <==>
      || Distance(g.n, Scores(g, p, c.damping, t + 1), Scores(g, p, c.damping, t)) < c.tol
      || (&& c.rankK.Some? && c.rankK.value > 0 && g.n > 0 && 0 < c.stableIters <= t
          && forall u: nat | t + 1 - c.stableIters <= u <= t :: order(u) == order(t + 1))
  {
    hide TopK, Scores, Distance;
    if c.rankK.Some? {
      var top := Tops(g, p, c.damping, c.rankK.value);
      forall u: nat ensures top(u) == order(u) { TopsAt(g, p, c.damping, c.rankK.value, u); }
      hide Tops;
      StableRunMeaning(top, t, c.stableIters);
      SameOrder(top, order, t + 1 - c.stableIters, t);
    }
  }

  lemma SameOrder(top: nat -> seq<nat>, order: nat -> seq<nat>, from: int, t: nat)
    requires forall u: nat :: top(u) == order(u)
    ensures SameSince(top, from, t + 1) <==> forall u: nat | from <= u <= t :: order(u) == order(t + 1)
  {
  }

  /** The result is the scores after some number of iterations: it is at most the limit, no earlier iteration was the
      last, and it is the limit only if the last one did not stop the run. */
  lemma ResultMeaning(g: Links, p: seq<real>, c: Settings, scores: seq<real>) returns (iterations: nat)
    requires |p| == g.n && IsResult(g, p, c, scores)
    ensures scores == Scores(g, p, c.damping, iterations) && iterations <= c.maxIter
    ensures forall t: nat | t + 1 < iterations :: !Stops(g, p, c, t)
    ensures iterations < c.maxIter ==> iterations > 0 && Stops(g, p, c, iterations - 1)
  {
    iterations :| IsRunLength(g, p, c, iterations) && scores == Scores(g, p, c.damping, iterations);
  }

  /** If the rank test ended the run, the last stableIters + 1 vectors have the same top-k order. */
  lemma EarlyStopIsStable(g: Links, p: seq<real>, c: Settings, iterations: nat)
    requires |p| == g.n && iterations > 0
    requires Stops(g, p, c, iterations - 1) && Diff(g, p, c.damping, iterations - 1) >= c.tol
    ensures Watches(g.n, c) && c.stableIters < iterations
    ensures SameSince(Tops(g, p, c.damping, c.rankK.value), iterations - c.stableIters, iterations)
  {
    hide Diff, Tops;
    StableRunMeaning(Tops(g, p, c.damping, c.rankK.value), iterations - 1, c.stableIters);
  }

  /** A run has one length. */
  lemma RunLengthUnique(g: Links, p: seq<real>, c: Settings, a: nat, b: nat)
    requires |p| == g.n && IsRunLength(g, p, c, a) && IsRunLength(g, p, c, b)
    ensures a == b
  {
    hide Stops;
  }

  /** Without a watched order the run is the plain one: it ends when the scores move by less than
      the tolerance, whatever the patience. */
  lemma UnwatchedRunIsPlain(g: Links, p: seq<real>, c: Settings, iterations: nat)
    requires |p| == g.n && !Watches(g.n, c)
    ensures IsRunLength(g, p, c, iterations) <==> IsRunLength(g, p, c.(rankK := None), iterations)
    ensures forall t: nat :: Stops(g, p, c, t) <==> Diff(g, p, c.damping, t) < c.tol
  {
    hide Diff, Tops;
    forall t: nat ensures Stops(g, p, c.(rankK := None), t) <==> Stops(g, p, c, t) { }
  }

  /** The tests end the run within the computed bound: if iteration t is past it, the run has at most
      t + 1 iterations, and its last one stopped it. */
  lemma TestsEndRun(g: Links, p: seq<real>, c: Settings, iterations: nat, t: nat)
    requires IsDistribution(g.n, p) && g.NonNegative() && 0.0 <= c.damping < 1.0 && c.tol > 0.0
    requires IsRunLength(g, p, c, iterations) && t < c.maxIter
    requires Scaled(Fall(c.damping, t + 1), c.tol) >= 2.0
    ensures 0 < iterations <= t + 1 && Stops(g, p, c, iterations - 1)
  {
    hide Diff, Scaled, Fall, Tops;
    ToleranceIsReached(g, p, c.damping, c.tol, t);
    assert Stops(g, p, c, t);
  }

  /** Without a watched order it is then the tolerance test that ended it. */
  lemma ToleranceEndsRun(g: Links, p: seq<real>, c: Settings, iterations: nat, t: nat)
    requires IsDistribution(g.n, p) && g.NonNegative() && 0.0 <= c.damping < 1.0 && c.tol > 0.0
    requires IsRunLength(g, p, c, iterations) && t < c.maxIter && !Watches(g.n, c)
    requires Scaled(Fall(c.damping, t + 1), c.tol) >= 2.0
    ensures 0 < iterations <= t + 1 && Diff(g, p, c.damping, iterations - 1) < c.tol
  {
    hide Diff, Scaled, Fall, Tops, IsRunLength;
    TestsEndRun(g, p, c, iterations, t);
  }

  /** When the tolerance test ends the run, going on for any number k of iterations would have moved the
      scores by less than d / (1 - d) times the tolerance in all. */
  lemma FinalScoresSettled(g: Links, p: seq<real>, c: Settings, iterations: nat, k: nat)
    requires |p| == g.n && g.NonNegative() && 0.0 <= c.damping < 1.0
    requires iterations > 0 && Diff(g, p, c.damping, iterations - 1) < c.tol
    ensures Scaled(1.0 - c.damping,
                   Distance(g.n, Scores(g, p, c.damping, iterations + k), Scores(g, p, c.damping, iterations)))
         <= Scaled(c.damping, c.tol)
  {
    hide Diff, Scaled, Distance, Scores;
    LaterScores(g, p, c.damping, iterations - 1, k);
    ScaledMono(c.damping, Diff(g, p, c.damping, iterations - 1), c.tol);
  }

  /** And the fixpoint, if there is one, is as close. */
  lemma FinalScoresNearFixpoint(g: Links, p: seq<real>, c: Settings, iterations: nat, x: seq<real>)
    requires |p| == g.n && g.NonNegative() && 0.0 <= c.damping < 1.0
    requires iterations > 0 && Diff(g, p, c.damping, iterations - 1) < c.tol
    requires |x| == g.n && Iterate(g, p, c.damping, x) == x
    ensures Scaled(1.0 - c.damping, Distance(g.n, Scores(g, p, c.damping, iterations), x)) <= Scaled(c.damping, c.tol)
  {
    hide Diff, Scaled, Distance, Iterate, Scores;
    DistanceToFixpoint(g, p, c.damping, x, iterations - 1);
    ScaledMono(c.damping, Diff(g, p, c.damping, iterations - 1), c.tol);
  }

  /** What is remembered of the order after the given number of iterations. */
  ghost predicate IsWatchState(top: nat -> seq<nat>, iterations: nat, prevTop: seq<nat>, stableCount: nat) {
    if iterations == 0 then prevTop == [] && stableCount == 0
    else prevTop == top(iterations) && stableCount == StableRun(top, iterations - 1)
  }

  /** The rank test after one more iteration. */
  method TestOrder(cur: array<real>, k: nat, stableIters: nat, prevTop: seq<nat>, stableCount: nat,
                   ghost top: nat -> seq<nat>, ghost t: nat) returns (top': seq<nat>, count: nat, stop: bool)
    requires cur.Length > 0 && k > 0 && stableIters > 0
    requires IsWatchState(top, t, prevTop, stableCount) && top(t + 1) == TopK(cur[..], k)
    ensures IsWatchState(top, t + 1, top', count)
    ensures stop <==> StableRun(top, t) >= stableIters
  {
    top' := TopKInto(cur, k);
    if top' == prevTop {
      count := stableCount + 1;
      stop := count >= stableIters;
    } else {
      count, stop := 0, false;
    }
  }

  lemma StepIsDiff(g: Links, p: seq<real>, d: real, t: nat)
    requires |p| == g.n
    ensures Scores(g, p, d, t + 1) == Iterate(g, p, d, Scores(g, p, d, t))
    ensures Diff(g, p, d, t) == Distance(g.n, Iterate(g, p, d, Scores(g, p, d, t)), Scores(g, p, d, t))
  {
  }

  lemma TopsAt(g: Links, p: seq<real>, d: real, k: nat, t: nat)
    requires |p| == g.n
    ensures Tops(g, p, d, k)(t) == TopK(Scores(g, p, d, t), k)
  {
  }

  lemma RunEnds(g: Links, p: seq<real>, c: Settings, iterations: nat)
    requires |p| == g.n && iterations <= c.maxIter
    requires forall t: nat | t < iterations - 1 :: !Stops(g, p, c, t)
    requires iterations == c.maxIter || (iterations > 0 && Stops(g, p, c, iterations - 1))
    ensures IsRunLength(g, p, c, iterations)
  {
    hide Stops;
  }

  /** The power iteration between two buffers. */
  method Iterations(g: Links, c: Settings, rowPtr: array<nat>, inSrc: array<nat>, inShare: array<real>, p: array<real>)
    returns (scores: seq<real>)
    requires p.Length == g.n > 0
    requires IsRowPtr(g, rowPtr[..]) && Filled(g, |g.edges|, inSrc[..], inShare[..])
    ensures IsResult(g, p[..], c, scores)
  {
    hide Filled, IsRowPtr, Iterate, Distance, Diff, Scaled, TopK, Tops, IsRunLength;
    var cur := new real[g.n](i reads p requires 0 <= i < p.Length => p[i]);
    var next := new real[g.n](_ => 0.0);
    ghost var dist := p[..];
    ghost var top: nat -> seq<nat> :=
      if Watches(g.n, c) then Tops(g, dist, c.damping, c.rankK.value) else (t: nat) => [];
    assert cur[..] == dist;
    var prevTop: seq<nat> := [];
    var stableCount := 0;
    ghost var iterations := 0;
    for iter := 0 to c.maxIter
      invariant iterations == iter && fresh(cur) && fresh(next) && cur != next
      invariant cur.Length == next.Length == g.n
      invariant cur[..] == Scores(g, dist, c.damping, iter)
      invariant forall t: nat | t < iter :: !Stops(g, dist, c, t)
      invariant Watches(g.n, c) ==> IsWatchState(top, iter, prevTop, stableCount)
    {
      StepIsDiff(g, dist, c.damping, iter);
      var diff := Step(g, rowPtr, inSrc, inShare, p, c.damping, cur, next);
      cur, next := next, cur;
      iterations := iter + 1;
      if diff < c.tol { break; }
      if c.rankK.Some? && Min(c.rankK.value, g.n) > 0 && c.stableIters > 0 {
        TopsAt(g, dist, c.damping, c.rankK.value, iter + 1);
        var stop;
        prevTop, stableCount, stop := TestOrder(cur, c.rankK.value, c.stableIters, prevTop, stableCount, top, iter);
        if stop { break; }
      }
    }
    scores := cur[..];
    RunEnds(g, dist, c, iterations);
  }

  /** PageRank: the scores after as many iterations as the stopping tests allow. */
  method ComputePageRank(n: nat, edges: seq<Edge>, c: Settings, personalization: Option<seq<real>>)
    returns (scores: seq<real>)
    ensures n == 0 ==> scores == []
    ensures n > 0 ==> IsResult(Links(n, edges), Teleport(n, personalization), c, scores)
  {
    if n == 0 { return []; }
    var p := ResolveTeleport(n, personalization);
    var rowPtr, inSrc, inShare := BuildRows(Links(n, edges));
    scores := Iterations(Links(n, edges), c, rowPtr, inSrc, inShare, p);
  }
}
