/** The weighted graph that community detection works on, Newman's modularity of a
    labelling, and how relabelling one node changes it. */
module Modularity {
  import opened Sums
  import opened Edges

  /** Entry y of a labelling; -1 outside it. */
  function Label(c: seq<nat>, y: int): int {
    if 0 <= y < |c| then c[y] else -1
  }

  /** The worth of putting a node of strength k into a community of total strength sigma that
      it is joined to with weight into; r is the resolution and m half the total weight. */
  function GainFormula(r: real, m: real, k: real, into: real, sigma: real): real
    requires m != 0.0
  {
    into / m - r * sigma * k / (2.0 * m * m)
  }

  ghost function SquareOfTwice(m: real): real {
    (2.0 * m) * (2.0 * m)
  }

  lemma SquarePositive(m: real)
    requires m != 0.0
    ensures SquareOfTwice(m) > 0.0
  {
    var p := if m > 0.0 then Product(2.0 * m, 2.0 * m) else Product(-2.0 * m, -2.0 * m);
    assert p == SquareOfTwice(m);
  }

  ghost function Product(a: real, b: real): (p: real)
    requires a > 0.0 && b > 0.0
    ensures p > 0.0
  {
    a * b
  }

  datatype Graph = Graph(n: nat, edges: seq<Edge>, resolution: real) {

    /** Edges with an endpoint out of range and self-loops are ignored. */
    predicate Counts(e: int) {
      0 <= e < |edges| && edges[e].src < n && edges[e].dst < n && edges[e].src != edges[e].dst
    }

    function Source(e: int): int { if 0 <= e < |edges| then edges[e].src else -1 }

    function Target(e: int): int { if 0 <= e < |edges| then edges[e].dst else -1 }

    function WeightAt(e: int): real { if Counts(e) then edges[e].weight else 0.0 }

    /** Sum of the weights of i's edges among the first t. */
    ghost function StrengthUpTo(t: nat, i: int): real {
      Sum(t, e => if Source(e) == i then WeightAt(e) else 0.0)
    }

    /** Weighted degree of node i. */
    ghost function Strength(i: int): real { StrengthUpTo(|edges|, i) }

    ghost function TotalUpTo(t: nat): real { Sum(t, e => WeightAt(e)) }

    /** Half the total directed weight. */
    ghost function M(): real { TotalUpTo(|edges|) / 2.0 }

    /** Total weight of the edges from x to y. */
    ghost function Weight(x: int, y: int): real {
      Sum(|edges|, e => if Target(e) == y then (if Source(e) == x then WeightAt(e) else 0.0) else 0.0)
    }

    /** Every edge is provided in both directions. */
    ghost predicate Symmetric() {
      forall x, y | 0 <= x < n && 0 <= y < n :: Weight(x, y) == Weight(y, x)
    }

    ghost predicate NonNegative() {
      forall e | Counts(e) :: edges[e].weight >= 0.0
    }

    /** Total weight of i's edges into community l. */
    ghost function Into(i: int, c: seq<nat>, l: int): real {
      Sum(|edges|, e => if Source(e) == i && Label(c, Target(e)) == l then WeightAt(e) else 0.0)
    }

    /** Total strength of the nodes labelled l. */
    ghost function Sigma(c: seq<nat>, l: int): real {
      Sum(n, y => if Label(c, y) == l then Strength(y) else 0.0)
    }

    /** Total strength of the nodes labelled l, leaving out i. */
    ghost function SigmaWithout(c: seq<nat>, i: int, l: int): real {
      Sum(n, y => if y != i && Label(c, y) == l then Strength(y) else 0.0)
    }

    /** What placing i in community l is worth once i is taken out of its own. */
    ghost function Gain(c: seq<nat>, i: int, l: int): real
      requires M() != 0.0
    {
      GainFormula(resolution, M(), Strength(i), Into(i, c, l), SigmaWithout(c, i, l))
    }

    /** One entry of the modularity matrix, already divided by 2m: the weight between x and y
        less the weight expected from their strengths. */
    ghost function Entry(x: int, y: int): real
      requires M() != 0.0
    {
      Observed(x, y) - Expected(x, y)
    }

    ghost function Observed(x: int, y: int): real
      requires M() != 0.0
    {
      Weight(x, y) / (2.0 * M())
    }

    ghost function Expected(x: int, y: int): real
      requires M() != 0.0
    {
      SquarePositive(M());
      resolution * (Strength(x) * Strength(y)) / SquareOfTwice(M())
    }

    /** Modularity: the sum of the matrix entries over all pairs with equal labels. */
    ghost function Quality(c: seq<nat>): real
      requires M() != 0.0
    {
      Blocks(n, (x, y) => Entry(x, y), y => Label(c, y))
    }
  }

  /** Sum of row x of b over the nodes labelled like x. */
  ghost function RowSum(n: nat, b: (int, int) -> real, c: int -> int, x: int): real {
    Sum(n, y => if c(x) == c(y) then b(x, y) else 0.0)
  }

  /** Sum of b(x, y) over the pairs whose labels agree. */
  ghost function Blocks(n: nat, b: (int, int) -> real, c: int -> int): real {
    Sum(n, x => RowSum(n, b, c, x))
  }

  /** Sum of row i of b over the other nodes labelled l. */
  ghost function RowInto(n: nat, b: (int, int) -> real, c: int -> int, i: int, l: int): real {
    Sum(n, y => if y != i && c(y) == l then b(i, y) else 0.0)
  }

  /** How row x changes when i is relabelled from c to d. */
  ghost function RowChange(n: nat, b: (int, int) -> real, c: int -> int, d: int -> int, i: int, x: int): real {
    if x == i then RowInto(n, b, c, i, d(i)) - RowInto(n, b, c, i, c(i))
    else (if c(x) == d(i) then b(i, x) else 0.0) - (if c(x) == c(i) then b(i, x) else 0.0)
  }

  /** Row i of the block sum is its diagonal entry plus the others labelled like i. */
  lemma RowOfSelf(n: nat, b: (int, int) -> real, c: int -> int, i: int)
    requires 0 <= i < n
    ensures RowSum(n, b, c, i) == RowInto(n, b, c, i, c(i)) + b(i, i)
  {
    SumPoint(n, i, y => if y != i && c(y) == c(i) then b(i, y) else 0.0, y => if c(i) == c(y) then b(i, y) else 0.0);
  }

  lemma RowAfterMove(n: nat, b: (int, int) -> real, c: int -> int, d: int -> int, i: int, x: int)
    requires 0 <= i < n && 0 <= x < n
    requires forall y | 0 <= y < n :: b(i, y) == b(y, i)
    requires forall y | y != i :: c(y) == d(y)
    ensures RowSum(n, b, d, x) == RowSum(n, b, c, x) + RowChange(n, b, c, d, i, x)
  {
    if x != i {
      SumPoint(n, i, y => if c(x) == c(y) then b(x, y) else 0.0, y => if d(x) == d(y) then b(x, y) else 0.0);
    } else {
      RowOfSelf(n, b, c, i);
      RowOfSelf(n, b, d, i);
      SumExt(n, y => if y != i && c(y) == d(i) then b(i, y) else 0.0,
             y => if y != i && d(y) == d(i) then b(i, y) else 0.0);
    }
  }

  /** Summing the row changes counts i's row difference twice. */
  lemma SumOfRowChanges(n: nat, b: (int, int) -> real, c: int -> int, d: int -> int, i: int)
    requires 0 <= i < n
    ensures Sum(n, x => RowChange(n, b, c, d, i, x)) == 2.0 * (RowInto(n, b, c, i, d(i)) - RowInto(n, b, c, i, c(i)))
  {
    var inD := y => if y != i && c(y) == d(i) then b(i, y) else 0.0;
    var inC := y => if y != i && c(y) == c(i) then b(i, y) else 0.0;
    SumSub(n, inD, inC, x => inD(x) - inC(x));
    SumPoint(n, i, x => inD(x) - inC(x), x => RowChange(n, b, c, d, i, x));
  }

  /** Relabelling i moves twice the difference of i's two row sums. */
  lemma BlocksAfterMove(n: nat, b: (int, int) -> real, c: int -> int, d: int -> int, i: int)
    requires 0 <= i < n
    requires forall y | 0 <= y < n :: b(i, y) == b(y, i)
    requires forall y | y != i :: c(y) == d(y)
    ensures Blocks(n, b, d) - Blocks(n, b, c) == 2.0 * (RowInto(n, b, c, i, d(i)) - RowInto(n, b, c, i, c(i)))
  {
    forall x | 0 <= x < n ensures RowSum(n, b, d, x) == RowSum(n, b, c, x) + RowChange(n, b, c, d, i, x) {
      RowAfterMove(n, b, c, d, i, x);
    }
    SumAdd(n, x => RowSum(n, b, c, x), x => RowChange(n, b, c, d, i, x), x => RowSum(n, b, d, x));
    SumOfRowChanges(n, b, c, d, i);
  }

  /** The weight of i's edges into a community, grouped by the neighbour. */
  lemma IntoByNeighbour(g: Graph, i: int, c: seq<nat>, l: int)
    requires |c| == g.n
    ensures g.Into(i, c, l) == Sum(g.n, y => if Label(c, y) == l then g.Weight(i, y) else 0.0)
  {
    var f := e => if g.Source(e) == i && Label(c, g.Target(e)) == l then g.WeightAt(e) else 0.0;
    var key := e => g.Target(e);
    var grouped := y => Sum(|g.edges|, e => if key(e) == y then f(e) else 0.0);
    SumByKey(g.n, |g.edges|, key, f);
    SumExt(|g.edges|, f, e => if 0 <= key(e) < g.n then f(e) else 0.0);
    forall y | 0 <= y < g.n ensures grouped(y) == if Label(c, y) == l then g.Weight(i, y) else 0.0 {
      if Label(c, y) == l {
        SumExt(|g.edges|, e => if key(e) == y then f(e) else 0.0,
               e => if g.Target(e) == y then (if g.Source(e) == i then g.WeightAt(e) else 0.0) else 0.0);
      } else {
        SumZero(|g.edges|, e => if key(e) == y then f(e) else 0.0);
      }
    }
    SumExt(g.n, grouped, y => if Label(c, y) == l then g.Weight(i, y) else 0.0);
  }

  /** No self-loop is counted. */
  lemma NoSelfWeight(g: Graph, i: int)
    ensures g.Weight(i, i) == 0.0
  {
    SumZero(|g.edges|, e => if g.Target(e) == i then (if g.Source(e) == i then g.WeightAt(e) else 0.0) else 0.0);
  }

  /** The observed part of row i over community l. */
  ghost function ObservedInto(g: Graph, c: seq<nat>, i: nat, l: int): real
    requires g.M() != 0.0
  {
    Sum(g.n, y => if Label(c, y) == l then g.Observed(i, y) else 0.0)
  }

  /** The expected part of row i over the others in community l. */
  ghost function ExpectedInto(g: Graph, c: seq<nat>, i: nat, l: int): real
    requires g.M() != 0.0
  {
    Sum(g.n, y => if y != i && Label(c, y) == l then g.Expected(i, y) else 0.0)
  }

  /** Row i of the modularity matrix over community l, observed and expected apart. */
  lemma RowSplit(g: Graph, c: seq<nat>, i: nat, l: int)
    requires |c| == g.n && i < g.n && g.M() != 0.0
    ensures RowInto(g.n, (x, y) => g.Entry(x, y), y => Label(c, y), i, l)
         == ObservedInto(g, c, i, l) - ExpectedInto(g, c, i, l)
  {
    var b, lab := (x, y) => g.Entry(x, y), y => Label(c, y);
    NoSelfWeight(g, i);
    ZeroOver(2.0 * g.M());
    assert g.Observed(i, i) == 0.0;
    var row := y => if y != i && lab(y) == l then b(i, y) else 0.0;
    SumSub(g.n, y => if Label(c, y) == l then g.Observed(i, y) else 0.0,
           y => if y != i && Label(c, y) == l then g.Expected(i, y) else 0.0, row);
    assert RowInto(g.n, b, lab, i, l) == Sum(g.n, row);
  }

  lemma ObservedRow(g: Graph, c: seq<nat>, i: nat, l: int)
    requires |c| == g.n && i < g.n && g.M() != 0.0
    ensures ObservedInto(g, c, i, l) == 1.0 / (2.0 * g.M()) * g.Into(i, c, l)
  {
    hide Graph.M, Graph.Into, ObservedInto;
    ObservedRowScaled(g, c, i, l, 1.0 / (2.0 * g.M()));
  }

  lemma ObservedRowScaled(g: Graph, c: seq<nat>, i: nat, l: int, r: real)
    requires |c| == g.n && i < g.n && g.M() != 0.0 && r == 1.0 / (2.0 * g.M())
    ensures ObservedInto(g, c, i, l) == Scaled(r, g.Into(i, c, l))
  {
    hide Graph.M, Graph.Weight, Graph.Observed, Graph.Into, Scaled;
    var f, h := y => if Label(c, y) == l then g.Weight(i, y) else 0.0,
                y => if Label(c, y) == l then g.Observed(i, y) else 0.0;
    forall y | 0 <= y < g.n ensures h(y) == Scaled(r, f(y)) { ObservedEntry(g, i, y); }
    IntoByNeighbour(g, i, c, l);
    SumScale(g.n, r, f, h);
  }

  lemma ObservedEntry(g: Graph, i: int, y: int)
    requires g.M() != 0.0
    ensures g.Observed(i, y) == Scaled(1.0 / (2.0 * g.M()), g.Weight(i, y))
    ensures Scaled(1.0 / (2.0 * g.M()), 0.0) == 0.0
  {
    hide Graph.M, Graph.Weight;
  }

  lemma ExpectedRow(g: Graph, c: seq<nat>, i: nat, l: int)
    requires |c| == g.n && i < g.n && g.M() != 0.0
    ensures SquareOfTwice(g.M()) > 0.0
    ensures ExpectedInto(g, c, i, l)
         == g.resolution * g.Strength(i) / SquareOfTwice(g.M()) * g.SigmaWithout(c, i, l)
  {
    SquarePositive(g.M());
    var q := g.resolution * g.Strength(i) / SquareOfTwice(g.M());
    forall y | 0 <= y < g.n ensures g.Expected(i, y) == q * g.Strength(y) {
      ExpectedEntry(g, i, y);
    }
    ExpectedRowScaled(g, c, i, l, q);
  }

  lemma ExpectedRowScaled(g: Graph, c: seq<nat>, i: nat, l: int, q: real)
    requires |c| == g.n && i < g.n && g.M() != 0.0
    requires forall y | 0 <= y < g.n :: g.Expected(i, y) == q * g.Strength(y)
    ensures ExpectedInto(g, c, i, l) == q * g.SigmaWithout(c, i, l)
  {
    SumScale(g.n, q, y => if y != i && Label(c, y) == l then g.Strength(y) else 0.0,
             y => if y != i && Label(c, y) == l then g.Expected(i, y) else 0.0);
  }

  lemma ExpectedEntry(g: Graph, i: int, y: int)
    requires g.M() != 0.0
    ensures SquareOfTwice(g.M()) > 0.0
    ensures g.Expected(i, y) == g.resolution * g.Strength(i) / SquareOfTwice(g.M()) * g.Strength(y)
  {
    SquarePositive(g.M());
    Reassociate(g.resolution, g.Strength(i), g.Strength(y), SquareOfTwice(g.M()));
  }

  lemma ZeroOver(d: real)
    requires d != 0.0
    ensures 0.0 / d == 0.0
  {
  }

  lemma PartsAreHalfGain(g: Graph, c: seq<nat>, i: nat, l: int)
    requires |c| == g.n && i < g.n && g.M() != 0.0
    ensures 2.0 * (ObservedInto(g, c, i, l) - ExpectedInto(g, c, i, l)) == g.Gain(c, i, l)
  {
    ObservedRow(g, c, i, l);
    ExpectedRow(g, c, i, l);
    HalfGainArithmetic(g.resolution, g.M(), g.Strength(i), g.Into(i, c, l), g.SigmaWithout(c, i, l),
                       ObservedInto(g, c, i, l), ExpectedInto(g, c, i, l));
  }

  /** Row i of the modularity matrix over community l is half of the gain formula. */
  lemma RowIsHalfGain(g: Graph, c: seq<nat>, i: nat, l: int)
    requires |c| == g.n && i < g.n && g.M() != 0.0
    ensures 2.0 * RowInto(g.n, (x, y) => g.Entry(x, y), y => Label(c, y), i, l) == g.Gain(c, i, l)
  {
    RowSplit(g, c, i, l);
    PartsAreHalfGain(g, c, i, l);
  }

  lemma Reassociate(r: real, k: real, s: real, d: real)
    requires d != 0.0
    ensures r * (k * s) / d == r * k / d * s
  {
    assert r * (k * s) == r * k * s;
  }

  lemma HalfGainArithmetic(r: real, m: real, k: real, into: real, sigma: real, observed: real, expected: real)
    requires m != 0.0 && SquareOfTwice(m) > 0.0
    requires observed == 1.0 / (2.0 * m) * into
    requires expected == r * k / SquareOfTwice(m) * sigma
    ensures 2.0 * (observed - expected) == GainFormula(r, m, k, into, sigma)
  {
    var d := 2.0 * m * m;
    assert r * k / SquareOfTwice(m) == r * k / d / 2.0 by { Halve(r * k, d); }
    assert r * k / d * sigma == r * sigma * k / d by { assert r * k * sigma == r * sigma * k; }
  }

  lemma Halve(a: real, d: real)
    requires d != 0.0
    ensures a / (2.0 * d) == a / d / 2.0
  {
  }

  /** The gain formula is exact: on a symmetric graph, moving node i into community l changes the
      modularity by the difference of the two gains, whatever the labelling. */
  lemma MoveGain(g: Graph, c: seq<nat>, i: nat, l: nat)
    requires |c| == g.n && i < g.n && g.M() != 0.0 && g.Symmetric()
    ensures g.Quality(c[i := l]) - g.Quality(c) == g.Gain(c, i, l) - g.Gain(c, i, c[i])
  {
    var b := (x, y) => g.Entry(x, y);
    forall y | 0 <= y < g.n ensures b(i, y) == b(y, i) {
      assert g.Strength(i) * g.Strength(y) == g.Strength(y) * g.Strength(i);
      assert g.Expected(i, y) == g.Expected(y, i);
    }
    BlocksAfterMove(g.n, b, y => Label(c, y), y => Label(c[i := l], y), i);
    RowIsHalfGain(g, c, i, l);
    RowIsHalfGain(g, c, i, c[i]);
  }

  // ---------- in terms of the edges ----------

  /** The graph's quantities, when w gives every edge between two different nodes its weight and every other edge, a
      self-loop or one that leaves the range, nothing. */
  lemma EdgesMeaning(g: Graph, w: int -> real, x: nat, y: nat)
    requires forall e | 0 <= e < |g.edges| ::
      w(e) == (if g.edges[e].src < g.n && g.edges[e].src != g.edges[e].dst < g.n then g.edges[e].weight else 0.0)
    ensures g.M() == Sum(|g.edges|, w) / 2.0
    ensures g.Strength(x) == Sum(|g.edges|, e => if 0 <= e < |g.edges| && g.edges[e].src == x then w(e) else 0.0)
    ensures g.Weight(x, y)
         == Sum(|g.edges|, e => if 0 <= e < |g.edges| && g.edges[e].src == x && g.edges[e].dst == y then w(e) else 0.0)
  {
    var n := |g.edges|;
    SumExt(n, w, e => g.WeightAt(e));
    SumExt(n, e => if g.Source(e) == x then g.WeightAt(e) else 0.0,
           e => if 0 <= e < |g.edges| && g.edges[e].src == x then w(e) else 0.0);
    SumExt(n, e => if g.Target(e) == y then (if g.Source(e) == x then g.WeightAt(e) else 0.0) else 0.0,
           e => if 0 <= e < |g.edges| && g.edges[e].src == x && g.edges[e].dst == y then w(e) else 0.0);
  }

  lemma EntryMeaning(g: Graph, x: int, y: int, total: real)
    requires g.M() != 0.0 && total == 2.0 * g.M()
    ensures g.Entry(x, y) == g.Weight(x, y) / total - g.resolution * (g.Strength(x) * g.Strength(y)) / (total * total)
  {
    hide Graph.Weight, Graph.Strength, Graph.M;
    assert SquareOfTwice(g.M()) == total * total;
  }

  /** Quality is the modularity of the literature, with resolution: over all pairs of nodes with the same label, the
      share of the weight between them less the share expected from their strengths. */
  lemma QualityMeaning(g: Graph, c: seq<nat>, total: real, p: (int, int) -> real)
    requires |c| == g.n && g.M() != 0.0 && total == 2.0 * g.M()
    requires forall x, y | 0 <= x < g.n && 0 <= y < g.n && c[x] == c[y] ::
      p(x, y) == g.Weight(x, y) / total - g.resolution * (g.Strength(x) * g.Strength(y)) / (total * total)
    requires forall x, y | 0 <= x < g.n && 0 <= y < g.n && c[x] != c[y] :: p(x, y) == 0.0
    ensures g.Quality(c) == Sum(g.n, x => Sum(g.n, y => p(x, y)))
  {
    hide Graph.Weight, Graph.Strength, Graph.M, Graph.Entry;
    var b, l := (x: int, y: int) => g.Entry(x, y), (y: int) => Label(c, y);
    forall x, y | 0 <= x < g.n && 0 <= y < g.n ensures (if l(x) == l(y) then b(x, y) else 0.0) == p(x, y) {
      EntryMeaning(g, x, y, total);
    }
    forall x | 0 <= x < g.n ensures RowSum(g.n, b, l, x) == Sum(g.n, y => p(x, y)) {
      SumExt(g.n, y => if l(x) == l(y) then b(x, y) else 0.0, y => p(x, y));
    }
    SumExt(g.n, x => RowSum(g.n, b, l, x), x => Sum(g.n, y => p(x, y)));
  }

  /** The gain formula, written out. */
  lemma GainFormulaMeaning(r: real, m: real, k: real, into: real, sigma: real, weighed: real, twice: real)
    requires m != 0.0 && weighed == r * sigma * k && twice == 2.0 * m * m
    ensures twice != 0.0 && GainFormula(r, m, k, into, sigma) == into / m - weighed / twice
  {
    SquarePositive(m);
    HalfTheSquare(m, twice);
  }

  lemma HalfTheSquare(m: real, twice: real)
    requires twice == 2.0 * m * m
    ensures SquareOfTwice(m) == 2.0 * twice
  {
  }

  /** What decides a move: the weight of the node's edges into the community, against the strength of its other
      members. */
  lemma GainMeaning(g: Graph, c: seq<nat>, i: nat, l: nat, w: int -> real, s: int -> real, into: real, sigma: real,
                    k: real, m: real, weighed: real, twice: real)
    requires |c| == g.n && g.M() != 0.0 && i < g.n
    requires forall e | 0 <= e < |g.edges| ::
      w(e) == (if g.edges[e].src == i != g.edges[e].dst < g.n && c[g.edges[e].dst] == l then g.edges[e].weight else 0.0)
    requires forall y | 0 <= y < g.n :: s(y) == if y != i && c[y] == l then g.Strength(y) else 0.0
    requires into == Sum(|g.edges|, w) && sigma == Sum(g.n, s) && k == g.Strength(i) && m == g.M()
    requires weighed == g.resolution * sigma * k && twice == 2.0 * m * m
    ensures twice != 0.0 && g.Gain(c, i, l) == into / m - weighed / twice
  {
    GainFormulaMeaning(g.resolution, m, k, into, sigma, weighed, twice);
    hide Graph.Strength, Graph.M, GainFormula;
    SumExt(|g.edges|, e => if g.Source(e) == i && Label(c, g.Target(e)) == l then g.WeightAt(e) else 0.0, w);
    SumExt(g.n, y => if y != i && Label(c, y) == l then g.Strength(y) else 0.0, s);
  }
}
