/** Exactly when banding misses no similar pair and the banded pass agrees with the quadratic greedy loop:
    for which settings, over all signatures. The default settings are not among them. */
module BandingExact {
  import opened Options
  import opened Leaders
  import opened Dedup

  // ---------- a pair that no band catches ----------

  /** The hash tells some two bands apart. A hash that does not puts everything into one bucket. */
  ghost predicate Distinguishes(bandHash: seq<nat> -> nat, rows: nat) {
    exists x, y :: Differ(bandHash, rows, x, y)
  }

  ghost predicate Differ(bandHash: seq<nat> -> nat, rows: nat, x: seq<nat>, y: seq<nat>) {
    |x| == |y| == rows && bandHash(x) != bandHash(y)
  }

  /** Two bands that differ in place k only. */
  ghost predicate DifferAt(u: seq<nat>, v: seq<nat>, k: nat) {
    k < |u| == |v| && u[k] != v[k] && forall j | 0 <= j < |u| && j != k :: u[j] == v[j]
  }

  /** The first m places of y and the others of x. */
  function Mixed(x: seq<nat>, y: seq<nat>, m: nat): (r: seq<nat>)
    requires m <= |x| == |y|
    ensures |r| == |x|
  {
    y[..m] + x[m..]
  }

  lemma OnePlaceOn(x: seq<nat>, y: seq<nat>, m: nat)
    requires m < |x| == |y|
    ensures Mixed(x, y, m) == Mixed(x, y, m + 1) || DifferAt(Mixed(x, y, m), Mixed(x, y, m + 1), m)
  {
    var u, v := Mixed(x, y, m), Mixed(x, y, m + 1);
    assert forall j | 0 <= j < |u| && j != m :: u[j] == v[j];
    assert u[m] == v[m] ==> u == v;
  }

  /** Going from one band to the other place by place, the hash changes at some place. */
  lemma {:induction false} OnePlaceMatters(bandHash: seq<nat> -> nat, x: seq<nat>, y: seq<nat>, m: nat)
    returns (u: seq<nat>, v: seq<nat>, k: nat)
    requires m <= |x| == |y| && bandHash(x) != bandHash(Mixed(x, y, m))
    ensures |u| == |x| && DifferAt(u, v, k) && bandHash(u) != bandHash(v)
  {
    assert Mixed(x, y, 0) == x;
    hide Mixed, DifferAt;
    if bandHash(x) != bandHash(Mixed(x, y, m - 1)) {
      u, v, k := OnePlaceMatters(bandHash, x, y, m - 1);
    } else {
      OnePlaceOn(x, y, m - 1);
      u, v, k := Mixed(x, y, m - 1), Mixed(x, y, m), m - 1;
    }
  }

  /** The same band over and over. */
  function Repeated(band: seq<nat>, bands: nat): Signature {
    if bands == 0 then [] else Repeated(band, bands - 1) + band
  }

  lemma {:induction false} RepeatedLength(band: seq<nat>, bands: nat)
    ensures |Repeated(band, bands)| == Start(|band|, bands)
  {
    hide Start;
    if bands == 0 { StartOfNone(|band|); }
    else {
      RepeatedLength(band, bands - 1);
      NextStart(|band|, bands - 1);
    }
  }

  lemma StartOfNone(rows: nat)
    ensures Start(rows, 0) == 0
  {
  }

  lemma {:induction false} RepeatedBand(band: seq<nat>, bands: nat, k: nat)
    requires k < bands
    ensures Start(|band|, k) + |band| <= |Repeated(band, bands)| && Band(Repeated(band, bands), |band|, k) == band
  {
    hide Start;
    RepeatedLength(band, bands);
    RepeatedLength(band, bands - 1);
    BandFits(bands, |band|, k);
    NextStart(|band|, bands - 1);
    if k < bands - 1 {
      RepeatedBand(band, bands - 1, k);
      assert Band(Repeated(band, bands), |band|, k) == Band(Repeated(band, bands - 1), |band|, k);
    }
  }

  lemma {:induction false} MatchingJoin(a: Signature, b: Signature, u: seq<nat>, v: seq<nat>, j: nat)
    requires |a| == |b| && j <= |u| == |v|
    ensures Matching(a + u, b + v, |a| + j) == Matching(a, b, |a|) + Matching(u, v, j)
  {
    if j == 0 { MatchingPrefix(a, b, u, v, |a|); }
    else { MatchingJoin(a, b, u, v, j - 1); }
  }

  lemma {:induction false} MatchingPrefix(a: Signature, b: Signature, u: seq<nat>, v: seq<nat>, j: nat)
    requires |a| == |b| && |u| == |v| && j <= |a|
    ensures Matching(a + u, b + v, j) == Matching(a, b, j)
  {
    if j > 0 { MatchingPrefix(a, b, u, v, j - 1); }
  }

  lemma {:induction false} MatchingBut(u: seq<nat>, v: seq<nat>, k: nat, j: nat)
    requires DifferAt(u, v, k) && j <= |u|
    ensures Matching(u, v, j) == j - if k < j then 1 else 0
  {
    if j > 0 { MatchingBut(u, v, k, j - 1); }
  }

  /** Repeated, the two bands differ in exactly one place of every band. */
  lemma {:induction false} MatchingRepeated(u: seq<nat>, v: seq<nat>, k: nat, bands: nat)
    requires DifferAt(u, v, k)
    ensures |Repeated(u, bands)| == |Repeated(v, bands)| == Start(|u|, bands)
    ensures Matching(Repeated(u, bands), Repeated(v, bands), Start(|u|, bands)) == Start(|u|, bands) - bands
  {
    hide Start, Matching;
    RepeatedLength(u, bands);
    RepeatedLength(v, bands);
    if bands == 0 {
      StartOfNone(|u|);
      NoneMatch(Repeated(u, 0), Repeated(v, 0));
    } else {
      MatchingRepeated(u, v, k, bands - 1);
      NextStart(|u|, bands - 1);
      MatchingJoin(Repeated(u, bands - 1), Repeated(v, bands - 1), u, v, |u|);
      MatchingBut(u, v, k, |u|);
    }
  }

  lemma NoneMatch(a: Signature, b: Signature)
    ensures Matching(a, b, 0) == 0
  {
  }

  ghost function Witness(u: seq<nat>, v: seq<nat>, bands: nat): (sigs: seq<Signature>)
    ensures |sigs| == 2
  {
    [Repeated(u, bands), Repeated(v, bands)]
  }

  /** As many places may differ as there are bands: then the pair is similar, and no band brings the two
      signatures together. */
  lemma WitnessMissed(u: seq<nat>, v: seq<nat>, k: nat, bands: nat, bandHash: seq<nat> -> nat, threshold: real)
    requires DifferAt(u, v, k) && bandHash(u) != bandHash(v)
    requires bands > 0 && (1.0 - threshold) * Start(|u|, bands) as real >= bands as real
    ensures var sigs := Witness(u, v, bands);
      Banded(sigs, bands, |u|) && Similar(sigs, threshold)(0, 1) && !Candidates(sigs, bands, |u|, bandHash)(0, 1)
  {
    var sigs, n := Witness(u, v, bands), Start(|u|, bands);
    MatchingRepeated(u, v, k, bands);
    EveryBandHasAPlace(|u|, bands);
    ShareIsEnough(n, n - bands, bands, threshold);
    if ShareBucket(sigs, bands, |u|, bandHash, 0, 1) {
      var j :| 0 <= j < bands && SameBand(sigs, bands, |u|, bandHash, 0, 1, j);
      RepeatedBand(u, bands, j);
      RepeatedBand(v, bands, j);
    }
  }

  lemma {:induction false} EveryBandHasAPlace(rows: nat, bands: nat)
    requires rows > 0
    ensures Start(rows, bands) >= bands
  {
    hide Start;
    if bands == 0 { StartOfNone(rows); }
    else {
      EveryBandHasAPlace(rows, bands - 1);
      NextStart(rows, bands - 1);
    }
  }

  lemma ShareIsEnough(n: nat, m: nat, bands: nat, threshold: real)
    requires n > 0 && m == n - bands && (1.0 - threshold) * n as real >= bands as real
    ensures m as real / n as real >= threshold
  {
    var share := m as real / n as real;
    assert share * n as real == m as real;
    Cancel(share, threshold, n as real);
  }

  lemma Cancel(x: real, y: real, n: real)
    requires n > 0.0 && x * n >= y * n
    ensures x >= y
  {
    assert x < y ==> x * n < y * n;
  }

  // ---------- the exact condition ----------

  /** The threshold leaves room for fewer mismatches than there are bands, or all bands look the same. */
  ghost predicate Suffices(bands: nat, rows: nat, bandHash: seq<nat> -> nat, threshold: real) {
    (1.0 - threshold) * Start(rows, bands) as real < bands as real || !Distinguishes(bandHash, rows)
  }

  lemma SufficientIsComplete(sigs: seq<Signature>, bands: nat, rows: nat, bandHash: seq<nat> -> nat, threshold: real)
    requires bands > 0 && Banded(sigs, bands, rows) && Suffices(bands, rows, bandHash, threshold)
    ensures Complete(Candidates(sigs, bands, rows, bandHash), Similar(sigs, threshold), |sigs|)
  {
    if Distinguishes(bandHash, rows) {
      HighThresholdIsComplete(sigs, bands, rows, bandHash, threshold);
    } else {
      forall a, b | 0 <= a < b < |sigs| ensures ShareBucket(sigs, bands, rows, bandHash, a, b) {
        BandFits(bands, rows, 0);
        assert !Differ(bandHash, rows, Band(sigs[a], rows, 0), Band(sigs[b], rows, 0));
        assert SameBand(sigs, bands, rows, bandHash, a, b, 0);
      }
    }
  }

  /** Where the condition fails, some two signatures are similar and never compared. */
  lemma InsufficientMisses(bands: nat, rows: nat, bandHash: seq<nat> -> nat, threshold: real)
    returns (sigs: seq<Signature>)
    requires bands > 0 && !Suffices(bands, rows, bandHash, threshold)
    ensures |sigs| == 2 && Banded(sigs, bands, rows)
    ensures Similar(sigs, threshold)(0, 1) && !Candidates(sigs, bands, rows, bandHash)(0, 1)
  {
    var x, y :| Differ(bandHash, rows, x, y);
    assert Mixed(x, y, rows) == y;
    var u, v, k := OnePlaceMatters(bandHash, x, y, rows);
    WitnessMissed(u, v, k, bands, bandHash, threshold);
    sigs := Witness(u, v, bands);
  }

  ghost predicate NoPairMissed(sigs: seq<Signature>, bands: nat, rows: nat, bandHash: seq<nat> -> nat, threshold: real)
    requires Banded(sigs, bands, rows)
  {
    Complete(Candidates(sigs, bands, rows, bandHash), Similar(sigs, threshold), |sigs|)
  }

  ghost predicate AgreesWithGreedy(sigs: seq<Signature>, bands: nat, rows: nat, bandHash: seq<nat> -> nat,
                                   threshold: real)
    requires Banded(sigs, bands, rows)
  {
    forall i: nat | i < |sigs| ::
      Leader(Candidates(sigs, bands, rows, bandHash), Similar(sigs, threshold), i)
        == Greedy(Similar(sigs, threshold), i)
  }

  /** No similar pair is missed, whatever the signatures, exactly under that condition. */
  lemma CompleteExactly(bands: nat, rows: nat, bandHash: seq<nat> -> nat, threshold: real)
    requires bands > 0
    ensures (forall sigs | Banded(sigs, bands, rows) :: NoPairMissed(sigs, bands, rows, bandHash, threshold))
            <==> Suffices(bands, rows, bandHash, threshold)
  {
    if Suffices(bands, rows, bandHash, threshold) {
      forall sigs | Banded(sigs, bands, rows) ensures NoPairMissed(sigs, bands, rows, bandHash, threshold) {
        SufficientIsComplete(sigs, bands, rows, bandHash, threshold);
      }
    } else {
      var sigs := InsufficientMisses(bands, rows, bandHash, threshold);
      assert !NoPairMissed(sigs, bands, rows, bandHash, threshold);
    }
  }

  /** A similar pair that is no candidate: the greedy loop marks its second signature, the banded pass does not. */
  lemma MissedPairStaysUnmarked(cand: Pairs, sim: Pairs)
    requires sim(0, 1) && !cand(0, 1)
    ensures Leader(cand, sim, 1) == None && Greedy(sim, 1) == Some(0)
  {
    assert LeaderAmong(cand, sim, 1, 0) == None && GreedyAmong(sim, 1, 0) == None && GreedyAmong(sim, 0, 0) == None;
  }

  /** The banded pass finds the greedy leaders, whatever the signatures, exactly under the same condition. */
  lemma GreedyExactly(bands: nat, rows: nat, bandHash: seq<nat> -> nat, threshold: real)
    requires bands > 0
    ensures (forall sigs | Banded(sigs, bands, rows) :: AgreesWithGreedy(sigs, bands, rows, bandHash, threshold))
            <==> Suffices(bands, rows, bandHash, threshold)
  {
    if Suffices(bands, rows, bandHash, threshold) {
      forall sigs | Banded(sigs, bands, rows) ensures AgreesWithGreedy(sigs, bands, rows, bandHash, threshold) {
        SufficientIsComplete(sigs, bands, rows, bandHash, threshold);
        LeaderIsGreedy(Candidates(sigs, bands, rows, bandHash), Similar(sigs, threshold), |sigs|);
      }
    } else {
      var sigs := InsufficientMisses(bands, rows, bandHash, threshold);
      MissedPairStaysUnmarked(Candidates(sigs, bands, rows, bandHash), Similar(sigs, threshold));
      assert !AgreesWithGreedy(sigs, bands, rows, bandHash, threshold);
    }
  }

  // ---------- the default settings ----------

  const DEFAULT_PERMUTATIONS: nat := 64

  const DEFAULT_THRESHOLD: real := 0.85

  function Pow(x: real, k: nat): real { if k == 0 then 1.0 else x * Pow(x, k - 1) }

  /** The estimate of a tiling's threshold: the root, of the order of the rows, of one over the bands. */
  ghost predicate IsRootEstimate(approx: (nat, nat) -> real) {
    forall bands: nat, rows: nat | bands > 0 && rows > 0 ::
      approx(bands, rows) >= 0.0 && Pow(approx(bands, rows), rows) * bands as real == 1.0
  }

  lemma {:induction false} PowSign(x: real, k: nat)
    requires x >= 0.0
    ensures Pow(x, k) >= 0.0
  {
    if k > 0 { PowSign(x, k - 1); ProductSign(x, Pow(x, k - 1)); }
  }

  lemma ProductSign(x: real, y: real)
    requires x >= 0.0 && y >= 0.0
    ensures x * y >= 0.0
  {
  }

  lemma ProductMono(a: real, b: real, x: real, y: real)
    requires 0.0 <= a <= b && 0.0 <= x <= y
    ensures a * x <= b * y
  {
    assert a * x <= b * x <= b * y;
  }

  lemma {:induction false} PowMono(x: real, y: real, k: nat)
    requires 0.0 <= x <= y
    ensures Pow(x, k) <= Pow(y, k)
  {
    if k > 0 {
      PowMono(x, y, k - 1);
      PowSign(x, k - 1);
      ProductMono(x, y, Pow(x, k - 1), Pow(y, k - 1));
    }
  }

  lemma {:induction false} PowAdd(x: real, j: nat, k: nat)
    ensures Pow(x, j + k) == Pow(x, j) * Pow(x, k)
  {
    if j > 0 {
      PowAdd(x, j - 1, k);
      assert Pow(x, j + k) == x * Pow(x, j - 1 + k);
      Regroup(x, Pow(x, j - 1), Pow(x, k));
    }
  }

  lemma Regroup(x: real, y: real, z: real)
    ensures x * (y * z) == (x * y) * z
  {
  }

  lemma PowTwice(x: real, k: nat, lo: real, hi: real)
    requires 0.0 <= lo <= Pow(x, k) <= hi
    ensures lo * lo <= Pow(x, k + k) <= hi * hi
  {
    PowAdd(x, k, k);
    ProductMono(lo, Pow(x, k), lo, Pow(x, k));
    ProductMono(Pow(x, k), hi, Pow(x, k), hi);
  }

  /** A root lies above every number whose power is too small, and below every one whose power is too large. */
  lemma RootBetween(approx: (nat, nat) -> real, bands: nat, rows: nat, c: real)
    requires IsRootEstimate(approx) && bands > 0 && rows > 0 && c >= 0.0
    ensures Pow(c, rows) * bands as real < 1.0 ==> approx(bands, rows) > c
    ensures Pow(c, rows) * bands as real > 1.0 ==> approx(bands, rows) < c
  {
    hide Pow;
    var x, y := approx(bands, rows), bands as real;
    var p, q := Pow(x, rows), Pow(c, rows);
    assert p * y == 1.0;
    if x <= c {
      PowMono(x, c, rows);
      TimesMono(p, q, y);
      assert q * y >= 1.0;
    }
    if c <= x {
      PowMono(c, x, rows);
      TimesMono(q, p, y);
      assert q * y <= 1.0;
    }
    assert Pow(c, rows) * bands as real == q * y;
  }

  lemma TimesMono(a: real, b: real, y: real)
    requires a <= b && y >= 0.0
    ensures a * y <= b * y
  {
  }

  lemma PowersOf92()
    ensures Pow(0.92, 16) > 0.25 && Pow(0.92, 32) < 0.5 && Pow(0.92, 64) < 1.0
  {
    PowTwice(0.92, 1, 0.92, 0.92);
    PowTwice(0.92, 2, 0.84, 0.85);
    PowTwice(0.92, 2, 0.846, 0.85);
    PowTwice(0.92, 4, 0.715, 0.73);
    PowTwice(0.92, 8, 0.511, 0.54);
    PowTwice(0.92, 16, 0.26, 0.3);
    PowTwice(0.92, 32, 0.0, 0.1);
  }

  lemma PowersOf78()
    ensures Pow(0.78, 1) > 0.5 && Pow(0.78, 2) > 0.5 && Pow(0.78, 4) > 0.25 && Pow(0.78, 8) > 0.125
      && Pow(0.78, 16) < 0.25
  {
    PowTwice(0.78, 1, 0.78, 0.78);
    PowTwice(0.78, 2, 0.608, 0.61);
    PowTwice(0.78, 4, 0.369, 0.38);
    PowTwice(0.78, 8, 0.136, 0.15);
  }

  lemma TilingsOf64(bands: nat)
    requires Tiles(64, bands)
    ensures bands in {1, 2, 4, 8, 16, 32, 64}
  {
    if bands > 8 {
      var rows := 64 / bands;
      assert rows <= 7;
      assert rows == 1 || rows == 2 || rows == 3 || rows == 4 || rows == 5 || rows == 6 || rows == 7;
    } else {
      assert bands == 1 || bands == 2 || bands == 3 || bands == 4 || bands == 5 || bands == 6 || bands == 7
        || bands == 8;
    }
  }

  /** With the defaults there are four bands of sixteen rows. */
  lemma DefaultBands(approx: (nat, nat) -> real, bands: nat)
    requires IsRootEstimate(approx) && IsBestTiling(DEFAULT_PERMUTATIONS, DEFAULT_THRESHOLD, approx, bands)
    ensures bands == 4
  {
    hide Pow, IsRootEstimate;
    PowersOf92();
    PowersOf78();
    TilingsOf64(bands);
    RootBetween(approx, 1, 64, 0.92);
    RootBetween(approx, 2, 32, 0.92);
    RootBetween(approx, 4, 16, 0.92);
    RootBetween(approx, 4, 16, 0.78);
    RootBetween(approx, 8, 8, 0.78);
    RootBetween(approx, 16, 4, 0.78);
    RootBetween(approx, 32, 2, 0.78);
    RootBetween(approx, 64, 1, 0.78);
    assert Tiles(64, 4) && Off(approx, 64, 4, 0.85) < 0.07;
  }

  /** They meet the condition for no hash that tells two bands apart; with four bands of sixteen the threshold
      would have to be above 0.9375. */
  lemma DefaultsInsufficient(bandHash: seq<nat> -> nat, threshold: real)
    ensures Suffices(4, 16, bandHash, threshold) <==> threshold > 0.9375 || !Distinguishes(bandHash, 16)
  {
  }

  function Zeros(): seq<nat> { seq(16, _ => 0) }

  function OneFirst(): seq<nat> { Zeros()[0 := 1] }

  /** The concrete pair: 60 of 64 places agree, the two are never compared, and the second stays unmarked, which
      the quadratic loop marks as a duplicate of the first. */
  lemma DefaultsMissPair(approx: (nat, nat) -> real, bands: nat, bandHash: seq<nat> -> nat)
    requires IsRootEstimate(approx) && IsBestTiling(DEFAULT_PERMUTATIONS, DEFAULT_THRESHOLD, approx, bands)
    requires bandHash(Zeros()) != bandHash(OneFirst())
    ensures var sigs := Witness(Zeros(), OneFirst(), bands);
      && bands == 4 && Banded(sigs, 4, 16) && |sigs[0]| == |sigs[1]| == 64
      && Matching(sigs[0], sigs[1], 64) as real / 64.0 == 0.9375
      && !Candidates(sigs, 4, 16, bandHash)(0, 1)
      && Leader(Candidates(sigs, 4, 16, bandHash), Similar(sigs, DEFAULT_THRESHOLD), 1) == None
      && Greedy(Similar(sigs, DEFAULT_THRESHOLD), 1) == Some(0)
  {
    hide Matching, Candidates, Similar, Repeated;
    DefaultBands(approx, bands);
    var sigs := Witness(Zeros(), OneFirst(), 4);
    assert DifferAt(Zeros(), OneFirst(), 0);
    MatchingRepeated(Zeros(), OneFirst(), 0, 4);
    WitnessMissed(Zeros(), OneFirst(), 0, 4, bandHash, DEFAULT_THRESHOLD);
    MissedPairStaysUnmarked(Candidates(sigs, 4, 16, bandHash), Similar(sigs, DEFAULT_THRESHOLD));
  }
}
