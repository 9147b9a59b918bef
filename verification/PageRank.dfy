/** PageRank as the program computes it: compressed incoming edges, two score buffers, the
    tolerance test, and the early stop on a stable top-k order. */
module PageRank {
  import opened Options
  import opened Signs
  import opened Sums
  import opened PageRankModel

  // ---------- the teleport distribution ----------

  function Clipped(v: seq<real>): (c: seq<real>)
    ensures |c| == |v|
  {
    seq(|v|, i requires 0 <= i < |v| => if v[i] > 0.0 then v[i] else 0.0)
  }

  ghost function Uniform(n: nat): seq<real>
    requires n > 0
  {
    seq(n, _ => 1.0 / n as real)
  }

  /** The personalization, clipped and normalised, or uniform when it is missing, of the wrong
      length, or without a positive entry. */
  ghost function Teleport(n: nat, personalization: Option<seq<real>>): seq<real>
    requires n > 0
  {
    if personalization.Some? && |personalization.value| == n && Total(Clipped(personalization.value)) > 0.0
    then
      var c := Clipped(personalization.value);
      seq(n, v => At(c, v) / Total(c))
    else Uniform(n)
  }

  lemma {:induction false} SumOfOnes(n: nat)
    ensures Sum(n, _ => 1.0) == n as real
  {
    if n > 0 { SumOfOnes(n - 1); }
  }

  lemma UniformIsDistribution(n: nat)
    requires n > 0
    ensures IsDistribution(n, Uniform(n))
  {
    SumOfOnes(n);
    InverseScale(n, n as real, _ => 1.0, v => At(Uniform(n), v));
  }

  /** Whatever personalization is given, the scores start from a probability distribution. */
  lemma TeleportIsDistribution(n: nat, personalization: Option<seq<real>>)
    requires n > 0
    ensures IsDistribution(n, Teleport(n, personalization))
  {
    if personalization.Some? && |personalization.value| == n && Total(Clipped(personalization.value)) > 0.0 {
      var c, p := Clipped(personalization.value), Teleport(n, personalization);
      var total := Total(c);
      forall v | 0 <= v < n ensures p[v] >= 0.0 { QuotientSign(c[v], total); }
      InverseScale(n, total, v => At(c, v), v => At(p, v));
    } else {
      UniformIsDistribution(n);
    }
  }

  lemma Proportional(c: real, e: real, total: real)
    requires total > 0.0
    ensures c / total * e == e / total * c
  {
  }

  /** The clipped entries have a positive sum exactly when some entry is positive. */
  lemma ClippedIsPositive(v: seq<real>)
    ensures Total(Clipped(v)) > 0.0 <==> exists i :: 0 <= i < |v| && v[i] > 0.0
  {
    var c := Clipped(v);
    var f := i => At(c, i);
    if i :| 0 <= i < |v| && v[i] > 0.0 {
      SumAtLeast(|v|, i, f);
    } else {
      SumZero(|v|, f);
    }
  }

  /** The teleport vector is non-negative and adds up to 1. */
  lemma TeleportAddsUp(n: nat, personalization: Option<seq<real>>)
    requires n > 0
    ensures var p := Teleport(n, personalization);
      |p| == n && (forall i | 0 <= i < n :: p[i] >= 0.0) && Sum(n, v => At(p, v)) == 1.0
  {
    hide Teleport;
    TeleportIsDistribution(n, personalization);
  }

  /** For a personalization of the right length with a positive entry, the entries are in the proportion of its own,
      negative ones taken as 0. */
  lemma TeleportFollows(n: nat, w: seq<real>, clipped: seq<real>)
    requires n > 0 && |w| == |clipped| == n && exists i :: 0 <= i < n && w[i] > 0.0
    requires forall i | 0 <= i < n :: clipped[i] == if w[i] > 0.0 then w[i] else 0.0
    ensures forall i, j | 0 <= i < n && 0 <= j < n ::
      Teleport(n, Some(w))[i] * clipped[j] == Teleport(n, Some(w))[j] * clipped[i]
  {
    hide Total;
    ClippedIsPositive(w);
    assert clipped == Clipped(w);
    var p := Teleport(n, Some(w));
    forall i, j | 0 <= i < n && 0 <= j < n ensures p[i] * clipped[j] == p[j] * clipped[i] {
      Proportional(clipped[i], clipped[j], Total(clipped));
    }
  }

  /** Without one, all entries are the same. */
  lemma TeleportFallsBack(n: nat, personalization: Option<seq<real>>)
    requires n > 0
    requires personalization.Some? && |personalization.value| == n ==>
      forall i | 0 <= i < n :: personalization.value[i] <= 0.0
    ensures forall i, j | 0 <= i < n && 0 <= j < n :: Teleport(n, personalization)[i] == Teleport(n, personalization)[j]
  {
    hide Total, Clipped;
    if personalization.Some? && |personalization.value| == n { ClippedIsPositive(personalization.value); }
  }

  method ResolveTeleport(n: nat, personalization: Option<seq<real>>) returns (p: array<real>)
    requires n > 0
    ensures fresh(p) && p[..] == Teleport(n, personalization)
  {
    if personalization.Some? && |personalization.value| == n {
      var clipped := Clipped(personalization.value);
      var sum := 0.0;
      for i := 0 to n
        invariant sum == Sum(i, v => At(clipped, v))
      {
        sum := sum + clipped[i];
      }
      if sum > 0.0 {
        p := new real[n](i requires 0 <= i < |clipped| => clipped[i] / sum);
        assert p[..] == Teleport(n, personalization);
        return;
      }
    }
    p := new real[n](_ => 1.0 / n as real);
    assert p[..] == Teleport(n, personalization);
  }

  // ---------- compressed incoming edges ----------

  datatype Incoming = Incoming(src: nat, share: real)

  /** The valid edges into v among the first t, in input order, with their shares. */
  ghost function IncomingOf(g: Links, t: nat, v: int): seq<Incoming>
    requires t <= |g.edges|
  {
    if t == 0 then []
    else if g.Counts(t - 1) && g.Target(t - 1) == v
    then IncomingOf(g, t - 1, v) + [Incoming(g.edges[t - 1].src, g.Share(t - 1))]
    else IncomingOf(g, t - 1, v)
  }

  ghost function InCount(g: Links, v: int): nat { |IncomingOf(g, |g.edges|, v)| }

  /** Where the slice of node v begins. */
  ghost function RowStart(g: Links, v: nat): nat {
    if v == 0 then 0 else RowStart(g, v - 1) + InCount(g, v - 1)
  }

  lemma {:induction false} RowsInOrder(g: Links, u: nat, v: nat)
    requires u < v
    ensures RowStart(g, u) + InCount(g, u) <= RowStart(g, v)
  {
    if u < v - 1 { RowsInOrder(g, u, v - 1); }
  }

  lemma {:induction false} IncomingGrows(g: Links, t: nat, t': nat, v: int)
    requires t <= t' <= |g.edges|
    ensures IncomingOf(g, t, v) <= IncomingOf(g, t', v)
  {
    if t < t' { IncomingGrows(g, t, t' - 1, v); }
  }

  /** Place k of v's slice holds its k-th incoming edge. */
  ghost predicate Holds(g: Links, t: nat, inSrc: seq<nat>, inShare: seq<real>, v: nat, k: nat)
    requires t <= |g.edges| && k < |IncomingOf(g, t, v)|
  {
    && RowStart(g, v) + k < |inSrc| == |inShare|
    && inSrc[RowStart(g, v) + k] == IncomingOf(g, t, v)[k].src
    && inShare[RowStart(g, v) + k] == IncomingOf(g, t, v)[k].share
  }

  /** The first t edges are in place: each node's slice, as far as it is filled, holds its incoming
      edges in input order. */
  ghost predicate Filled(g: Links, t: nat, inSrc: seq<nat>, inShare: seq<real>)
    requires t <= |g.edges|
  {
    && |inSrc| == |inShare| == RowStart(g, g.n)
    && forall v: nat, k: nat | v < g.n && k < |IncomingOf(g, t, v)| :: Holds(g, t, inSrc, inShare, v, k)
  }

  /** The place for the next edge is in the target's slice, and in no other. */
  lemma NextPlace(g: Links, t: nat, v: nat, k: nat)
    requires t < |g.edges| && g.Counts(t) && v < g.n && k < |IncomingOf(g, t, v)|
    ensures RowStart(g, g.edges[t].dst) + |IncomingOf(g, t, g.edges[t].dst)| < RowStart(g, g.n)
    ensures RowStart(g, v) + k != RowStart(g, g.edges[t].dst) + |IncomingOf(g, t, g.edges[t].dst)|
  {
    var dst := g.edges[t].dst;
    NextPlaceInRange(g, t);
    IncomingGrows(g, t + 1, |g.edges|, dst);
    IncomingGrows(g, t, |g.edges|, v);
    if v < dst { RowsInOrder(g, v, dst); } else if dst < v { RowsInOrder(g, dst, v); }
  }

  lemma NextPlaceInRange(g: Links, t: nat)
    requires t < |g.edges| && g.Counts(t)
    ensures RowStart(g, g.edges[t].dst) + |IncomingOf(g, t, g.edges[t].dst)| < RowStart(g, g.n)
  {
    IncomingGrows(g, t + 1, |g.edges|, g.edges[t].dst);
    RowsInOrder(g, g.edges[t].dst, g.n);
  }

  lemma IncomingNext(g: Links, t: nat, v: int)
    requires t < |g.edges| && g.Counts(t)
    ensures IncomingOf(g, t + 1, v)
         == IncomingOf(g, t, v) + if g.edges[t].dst == v then [Incoming(g.edges[t].src, g.Share(t))] else []
  {
    hide Links.Share;
  }

  /** Writing the next edge into the next free place of its target's slice. */
  lemma FillNext(g: Links, t: nat, inSrc: seq<nat>, inShare: seq<real>)
    requires t < |g.edges| && g.Counts(t) && Filled(g, t, inSrc, inShare)
    ensures var pos := RowStart(g, g.edges[t].dst) + |IncomingOf(g, t, g.edges[t].dst)|;
      pos < |inSrc| && Filled(g, t + 1, inSrc[pos := g.edges[t].src], inShare[pos := g.Share(t)])
  {
    hide Links.Share, RowStart, IncomingOf;
    var dst := g.edges[t].dst;
    var pos := RowStart(g, dst) + |IncomingOf(g, t, dst)|;
    NextPlaceInRange(g, t);
    var inSrc', inShare' := inSrc[pos := g.edges[t].src], inShare[pos := g.Share(t)];
    var t' := t + 1;
    forall v: nat, k: nat | v < g.n && k < |IncomingOf(g, t', v)| ensures Holds(g, t', inSrc', inShare', v, k) {
      IncomingNext(g, t, v);
      if k < |IncomingOf(g, t, v)| {
        assert Holds(g, t, inSrc, inShare, v, k);
        NextPlace(g, t, v, k);
      }
    }
  }

  method CountEdges(g: Links) returns (outDegree: array<real>, inCount: array<nat>)
    ensures fresh(outDegree) && fresh(inCount) && outDegree.Length == inCount.Length == g.n
    ensures forall v | 0 <= v < g.n :: outDegree[v] == g.OutDegree(v) && inCount[v] == InCount(g, v)
  {
    outDegree := new real[g.n](_ => 0.0);
    inCount := new nat[g.n](_ => 0);
    for t := 0 to |g.edges|
      invariant forall v | 0 <= v < g.n :: outDegree[v] == g.OutDegreeUpTo(t, v)
      invariant forall v | 0 <= v < g.n :: inCount[v] == |IncomingOf(g, t, v)|
    {
      var e := g.edges[t];
      if e.src < g.n && e.dst < g.n {
        outDegree[e.src] := outDegree[e.src] + e.weight;
        inCount[e.dst] := inCount[e.dst] + 1;
      }
    }
  }

  ghost predicate IsRowPtr(g: Links, rowPtr: seq<nat>) {
    |rowPtr| == g.n + 1 && forall v | 0 <= v <= g.n :: rowPtr[v] == RowStart(g, v)
  }

  /** Row pointers by a running sum. */
  method RowPointers(g: Links, inCount: array<nat>) returns (rowPtr: array<nat>)
    requires inCount.Length == g.n && forall v | 0 <= v < g.n :: inCount[v] == InCount(g, v)
    ensures fresh(rowPtr) && IsRowPtr(g, rowPtr[..])
  {
    hide InCount;
    rowPtr := new nat[g.n + 1];
    rowPtr[0] := 0;
    for node := 0 to g.n
      invariant forall v | 0 <= v <= node :: rowPtr[v] == RowStart(g, v)
    {
      rowPtr[node + 1] := rowPtr[node] + inCount[node];
    }
  }

  lemma IncomingLength(g: Links, t: nat, v: int)
    requires t < |g.edges|
    ensures |IncomingOf(g, t + 1, v)| == |IncomingOf(g, t, v)| + if g.Counts(t) && g.Target(t) == v then 1 else 0
  {
  }

  /** Scatters the edges into their rows; fill tracks the next free place of each row. */
  method Scatter(g: Links, outDegree: array<real>, fill: array<nat>, inSrc: array<nat>, inShare: array<real>)
    requires outDegree.Length == g.n && forall v | 0 <= v < g.n :: outDegree[v] == g.OutDegree(v)
    requires fill.Length == g.n && forall v | 0 <= v < g.n :: fill[v] == RowStart(g, v)
    requires inSrc.Length == inShare.Length == RowStart(g, g.n) && fill != inSrc && outDegree != inShare
    modifies fill, inSrc, inShare
    ensures Filled(g, |g.edges|, inSrc[..], inShare[..])
  {
    hide Filled, IncomingOf, Links.OutDegree, RowStart;
    NothingFilled(g, inSrc[..], inShare[..]);
    for t := 0 to |g.edges|
      invariant forall v | 0 <= v < g.n :: fill[v] == RowStart(g, v) + |IncomingOf(g, t, v)|
      invariant Filled(g, t, inSrc[..], inShare[..])
    {
      forall v | 0 <= v < g.n { IncomingLength(g, t, v); }
      var e := g.edges[t];
      if e.src < g.n && e.dst < g.n {
        FillNext(g, t, inSrc[..], inShare[..]);
        var pos := fill[e.dst];
        fill[e.dst] := pos + 1;
        ghost var wasSrc, wasShare := inSrc[..], inShare[..];
        inSrc[pos] := e.src;
        inShare[pos] := if outDegree[e.src] > 0.0 then e.weight / outDegree[e.src] else 0.0;
        assert inSrc[..] == wasSrc[pos := e.src];
        assert inShare[..] == wasShare[pos := g.Share(t)];
      } else {
        SkipEdge(g, t, inSrc[..], inShare[..]);
      }
    }
  }

  lemma NothingFilled(g: Links, inSrc: seq<nat>, inShare: seq<real>)
    requires |inSrc| == |inShare| == RowStart(g, g.n)
    ensures Filled(g, 0, inSrc, inShare)
    ensures forall v: int :: |IncomingOf(g, 0, v)| == 0
  {
  }

  lemma SkipEdge(g: Links, t: nat, inSrc: seq<nat>, inShare: seq<real>)
    requires t < |g.edges| && !g.Counts(t) && Filled(g, t, inSrc, inShare)
    ensures Filled(g, t + 1, inSrc, inShare)
  {
    var t' := t + 1;
    forall v: nat, k: nat | v < g.n && k < |IncomingOf(g, t', v)| ensures Holds(g, t', inSrc, inShare, v, k) {
      assert Holds(g, t, inSrc, inShare, v, k);
    }
  }

  method BuildRows(g: Links) returns (rowPtr: array<nat>, inSrc: array<nat>, inShare: array<real>)
    ensures fresh(rowPtr) && fresh(inSrc) && fresh(inShare)
    ensures IsRowPtr(g, rowPtr[..]) && Filled(g, |g.edges|, inSrc[..], inShare[..])
  {
    var outDegree, inCount := CountEdges(g);
    rowPtr := RowPointers(g, inCount);
    var fill := new nat[g.n](i reads rowPtr requires 0 <= i < rowPtr.Length => rowPtr[i]);
    assert forall v | 0 <= v <= g.n :: rowPtr[..][v] == RowStart(g, v);
    inSrc := new nat[rowPtr[g.n]](_ => 0);
    inShare := new real[rowPtr[g.n]](_ => 0.0);
    Scatter(g, outDegree, fill, inSrc, inShare);
  }

  // ---------- one iteration ----------

  /** What a list of incoming edges passes on. */
  ghost function ListInflow(list: seq<Incoming>, x: seq<real>): real {
    if list == [] then 0.0
    else ListInflow(list[..|list| - 1], x) + Scaled(list[|list| - 1].share, At(x, list[|list| - 1].src))
  }

  /** Summing a node's row is summing its edges over the edge list, so the compressed form computes
      what adjacency lists do. */
  lemma {:induction false} RowInflow(g: Links, t: nat, x: seq<real>, v: int)
    requires t <= |g.edges|
    ensures ListInflow(IncomingOf(g, t, v), x) == g.InflowUpTo(t, x, v)
  {
    hide Scaled, Links.Share;
    if t > 0 {
      RowInflow(g, t - 1, x, v);
      var list := IncomingOf(g, t, v);
      if g.Counts(t - 1) && g.Target(t - 1) == v {
        assert list[..|list| - 1] == IncomingOf(g, t - 1, v);
      } else {
        if g.Target(t - 1) == v { NoShare(g, t - 1, At(x, g.Source(t - 1))); }
      }
    }
  }

  lemma {:induction false} IncomingSources(g: Links, t: nat, v: int, k: nat)
    requires t <= |g.edges| && k < |IncomingOf(g, t, v)|
    ensures IncomingOf(g, t, v)[k].src < g.n
  {
    if k < |IncomingOf(g, t - 1, v)| { IncomingSources(g, t - 1, v, k); }
  }

  /** What place e of node's slice holds. */
  lemma PlaceOf(g: Links, inSrc: seq<nat>, inShare: seq<real>, node: nat, k: nat)
    requires Filled(g, |g.edges|, inSrc, inShare) && node < g.n && k < InCount(g, node)
    ensures RowStart(g, node) + k < |inSrc| == |inShare|
    ensures inSrc[RowStart(g, node) + k] == IncomingOf(g, |g.edges|, node)[k].src < g.n
    ensures inShare[RowStart(g, node) + k] == IncomingOf(g, |g.edges|, node)[k].share
  {
    assert Holds(g, |g.edges|, inSrc, inShare, node, k);
    IncomingSources(g, |g.edges|, node, k);
  }

  lemma EmptyInflow(list: seq<Incoming>, x: seq<real>)
    requires list == []
    ensures ListInflow(list, x) == 0.0
  {
  }

  lemma ListInflowNext(list: seq<Incoming>, x: seq<real>, k: nat)
    requires k < |list|
    ensures ListInflow(list[..k + 1], x) == ListInflow(list[..k], x) + Scaled(list[k].share, At(x, list[k].src))
  {
    assert list[..k + 1][..k] == list[..k];
  }

  method Contribution(g: Links, rowPtr: array<nat>, inSrc: array<nat>, inShare: array<real>, cur: array<real>,
                      node: nat)
    returns (contrib: real)
    requires cur.Length == g.n && node < g.n
    requires IsRowPtr(g, rowPtr[..]) && Filled(g, |g.edges|, inSrc[..], inShare[..])
    ensures contrib == g.Inflow(cur[..], node)
  {
    hide Filled, ListInflow, Scaled;
    assert rowPtr[..][node] == RowStart(g, node) && rowPtr[..][node + 1] == RowStart(g, node + 1);
    var start, end := rowPtr[node], rowPtr[node + 1];
    ghost var list := IncomingOf(g, |g.edges|, node);
    contrib := 0.0;
    EmptyInflow(list[..0], cur[..]);
    for e := start to end
      invariant contrib == ListInflow(list[..e - start], cur[..])
    {
      PlaceOf(g, inSrc[..], inShare[..], node, e - start);
      ListInflowNext(list, cur[..], e - start);
      contrib := contrib + Scaled(inShare[e], cur[inSrc[e]]);
    }
    assert list[..end - start] == list;
    RowInflow(g, |g.edges|, cur[..], node);
  }

  /** One iteration into the other buffer, and how far it moves the scores. */
  method Step(g: Links, rowPtr: array<nat>, inSrc: array<nat>, inShare: array<real>, p: array<real>, d: real,
              cur: array<real>, next: array<real>) returns (diff: real)
    requires cur.Length == next.Length == p.Length == g.n
    requires cur != next && p != next && inShare != next
    requires IsRowPtr(g, rowPtr[..]) && Filled(g, |g.edges|, inSrc[..], inShare[..])
    modifies next
    ensures next[..] == Iterate(g, p[..], d, cur[..])
    ensures diff == Distance(g.n, next[..], cur[..])
  {
    hide Filled, Iterate, Scaled, IsRowPtr;
    diff := 0.0;
    ghost var x := cur[..];
    ghost var y := Iterate(g, p[..], d, x);
    for node := 0 to g.n
      invariant forall v | 0 <= v < node :: next[v] == y[v]
      invariant diff == Sum(node, v => Abs(At(y, v) - At(x, v)))
    {
      var contrib := Contribution(g, rowPtr, inSrc, inShare, cur, node);
      var newScore := Scaled(1.0 - d, p[node]) + Scaled(d, contrib);
      IterateAt(g, p[..], d, x, node);
      diff := diff + Abs(newScore - cur[node]);
      next[node] := newScore;
    }
    assert next[..] == y;
  }
}
