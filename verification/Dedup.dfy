/** Near-duplicate detection: signatures, band buckets, candidate pairs, and the pass that links
    duplicates, in the containers the program fills. The hash functions are arbitrary. */
module Dedup {
  import opened Options
  import opened Sorting
  import opened Leaders
  import Sizes

  type Signature = seq<nat>

  const MAX_HASH: nat := 0xFFFF_FFFF_FFFF_FFFF

  // ---------- signatures ----------

  function Join(words: seq<string>): string {
    if words == [] then ""
    else if |words| == 1 then words[0]
    else Join(words[..|words| - 1]) + " " + words[|words| - 1]
  }

  /** Sliding windows of n lowercased words, or all the words when there are fewer. */
  function WordNgrams(words: seq<string>, n: nat): seq<string>
    requires n > 0
  {
    if |words| < n then (if Join(words) == "" then [] else [Join(words)])
    else seq(|words| - n + 1, i requires 0 <= i <= |words| - n => Join(words[i..i + n]))
  }

  ghost predicate IsMinHash(ngrams: seq<string>, hash: (string, nat) -> nat, seed: nat, h: nat) {
    if ngrams == [] then h == MAX_HASH
    else (exists w :: w in ngrams && hash(w, seed) == h) && forall w | w in ngrams :: h <= hash(w, seed)
  }

  ghost predicate IsSignatureOf(words: seq<string>, numPerm: nat, hash: (string, nat) -> nat, sig: Signature) {
    |sig| == numPerm && forall seed | 0 <= seed < numPerm :: IsMinHash(WordNgrams(words, 3), hash, seed, sig[seed])
  }

  /** The n-grams of a text: with three words or more, every three words in a row with single blanks between them, in
      order; with fewer, the whole text if it is not empty. */
  lemma NgramsMeaning(words: seq<string>)
    ensures |words| >= 3 ==>
      && |WordNgrams(words, 3)| == |words| - 2
      && forall i | 0 <= i <= |words| - 3 ::
           WordNgrams(words, 3)[i] == words[i] + " " + words[i + 1] + " " + words[i + 2]
    ensures |words| == 2 ==> WordNgrams(words, 3) == [words[0] + " " + words[1]]
    ensures |words| == 1 ==> WordNgrams(words, 3) == if words[0] == "" then [] else [words[0]]
    ensures |words| == 0 ==> WordNgrams(words, 3) == []
  {
    if |words| == 2 { JoinTwo(words); }
    forall i | 0 <= i <= |words| - 3
      ensures Join(words[i..i + 3]) == words[i] + " " + words[i + 1] + " " + words[i + 2]
    {
      JoinThree(words[i..i + 3]);
    }
  }

  lemma JoinTwo(words: seq<string>)
    requires |words| == 2
    ensures Join(words) == words[0] + " " + words[1] != ""
  {
    assert Join(words[..1]) == words[0];
    assert |words[0] + " " + words[1]| > 0;
  }

  lemma JoinThree(words: seq<string>)
    requires |words| == 3
    ensures Join(words) == words[0] + " " + words[1] + " " + words[2]
  {
    JoinTwo(words[..2]);
  }

  /** What is known of a signature, written out: with three words or more the entry for a seed is the least hash,
      with that seed, of three words in a row; with one or two it is the hash of the text; and the largest 64-bit
      number for the empty text. */
  lemma SignatureMeaning(words: seq<string>, numPerm: nat, hash: (string, nat) -> nat, sig: Signature,
                         window: int -> string, seed: nat)
    requires IsSignatureOf(words, numPerm, hash, sig) && seed < numPerm
    requires forall i | 0 <= i <= |words| - 3 :: window(i) == words[i] + " " + words[i + 1] + " " + words[i + 2]
    ensures |sig| == numPerm
    ensures |words| >= 3 ==>
      && (exists i :: 0 <= i <= |words| - 3 && sig[seed] == hash(window(i), seed))
      && (forall i | 0 <= i <= |words| - 3 :: sig[seed] <= hash(window(i), seed))
    ensures |words| == 2 ==> sig[seed] == hash(words[0] + " " + words[1], seed)
    ensures |words| == 1 && words[0] != "" ==> sig[seed] == hash(words[0], seed)
    ensures words == [] || words == [""] ==> sig[seed] == 0xFFFF_FFFF_FFFF_FFFF
  {
    hide WordNgrams, IsMinHash;
    NgramsMeaning(words);
    assert IsMinHash(WordNgrams(words, 3), hash, seed, sig[seed]);
    if |words| >= 3 {
      forall i | 0 <= i <= |words| - 3 ensures WordNgrams(words, 3)[i] == window(i) {
        assert window(i) == words[i] + " " + words[i + 1] + " " + words[i + 2];
      }
      LeastHash(WordNgrams(words, 3), hash, seed, sig[seed], window);
    } else {
      OnlyHash(WordNgrams(words, 3), hash, seed, sig[seed]);
    }
  }

  lemma OnlyHash(ngrams: seq<string>, hash: (string, nat) -> nat, seed: nat, h: nat)
    requires |ngrams| <= 1 && IsMinHash(ngrams, hash, seed, h)
    ensures h == if ngrams == [] then MAX_HASH else hash(ngrams[0], seed)
  {
  }

  lemma LeastHash(ngrams: seq<string>, hash: (string, nat) -> nat, seed: nat, h: nat, window: int -> string)
    requires ngrams != [] && IsMinHash(ngrams, hash, seed, h)
    requires forall i | 0 <= i < |ngrams| :: ngrams[i] == window(i)
    ensures exists i :: 0 <= i < |ngrams| && h == hash(window(i), seed)
    ensures forall i | 0 <= i < |ngrams| :: h <= hash(window(i), seed)
  {
    var w :| w in ngrams && hash(w, seed) == h;
    var i :| 0 <= i < |ngrams| && ngrams[i] == w;
    assert w == window(i);
    forall j | 0 <= j < |ngrams| ensures h <= hash(window(j), seed) {
      assert ngrams[j] in ngrams;
    }
  }

  method ComputeMinHash(words: seq<string>, numPerm: nat, hash: (string, nat) -> nat) returns (sig: Signature)
    ensures IsSignatureOf(words, numPerm, hash, sig)
  {
    var ngrams := WordNgrams(words, 3);
    if ngrams == [] { return seq(numPerm, _ => MAX_HASH); }
    sig := [];
    for seed := 0 to numPerm
      invariant |sig| == seed && forall s | 0 <= s < seed :: IsMinHash(ngrams, hash, s, sig[s])
    {
      var least := hash(ngrams[0], seed);
      for i := 1 to |ngrams|
        invariant exists w :: w in ngrams && hash(w, seed) == least
        invariant forall j | 0 <= j < i :: least <= hash(ngrams[j], seed)
      {
        if hash(ngrams[i], seed) < least { least := hash(ngrams[i], seed); }
      }
      sig := sig + [least];
    }
  }

  /** A signature depends only on which n-grams a text has. */
  lemma SameNgramsSameHash(a: seq<string>, b: seq<string>, hash: (string, nat) -> nat, seed: nat, h: nat, k: nat)
    requires forall w :: w in a <==> w in b
    requires IsMinHash(a, hash, seed, h) && IsMinHash(b, hash, seed, k)
    ensures h == k
  {
    if a != [] {
      assert a[0] in b;
      var v :| v in a && hash(v, seed) == h;
      var w :| w in b && hash(w, seed) == k;
    } else if b != [] {
      var _ := MemberOf(b);
    }
  }

  lemma MemberOf(s: seq<string>) returns (w: string)
    requires s != []
    ensures w in s
  {
    w := s[0];
  }

  // ---------- similarity ----------

  /** Positions among the first k where the signatures agree. */
  function Matching(a: Signature, b: Signature, k: nat): nat
    requires k <= |a| && k <= |b|
  {
    if k == 0 then 0 else Matching(a, b, k - 1) + if a[k - 1] == b[k - 1] then 1 else 0
  }

  /** The share of agreeing positions reaches the threshold. Without positions there is no share. */
  predicate IsSimilar(a: Signature, b: Signature, threshold: real)
    requires |a| == |b|
  {
    |a| > 0 && Matching(a, b, |a|) as real / |a| as real >= threshold
  }

  lemma {:induction false} MatchingIsCount(a: Signature, b: Signature, k: nat, p: int -> bool)
    requires k <= |a| == |b| && forall i | 0 <= i < |a| :: p(i) <==> a[i] == b[i]
    ensures |set i | 0 <= i < k && p(i)| == Matching(a, b, k)
  {
    if k > 0 {
      MatchingIsCount(a, b, k - 1, p);
      Sizes.CountNext(k - 1, p);
    }
  }

  lemma ShareReaches(m: real, n: real, threshold: real)
    requires n > 0.0
    ensures m / n >= threshold <==> m >= threshold * n
  {
    assert m / n * n == m;
    if m / n >= threshold {
      assert (m / n - threshold) * n >= 0.0;
    } else {
      assert (threshold - m / n) * n > 0.0;
    }
  }

  // ---------- bands ----------

  /** A number of bands that tiles the signature. */
  predicate Tiles(numPerm: nat, bands: nat) {
    bands > 0 && bands * (numPerm / bands) == numPerm
  }

  function Off(approx: (nat, nat) -> real, numPerm: nat, bands: nat, threshold: real): real
    requires bands > 0
  {
    var d := approx(bands, numPerm / bands) - threshold;
    if d < 0.0 then -d else d
  }

  /** The tiling whose approximate threshold is closest to the target, with the fewest bands among
      equally close ones. */
  ghost predicate IsBestTiling(numPerm: nat, threshold: real, approx: (nat, nat) -> real, best: nat) {
    && Tiles(numPerm, best)
    && forall b | 1 <= b <= numPerm && Tiles(numPerm, b) ::
         Off(approx, numPerm, best, threshold) <= Off(approx, numPerm, b, threshold)
         && (b < best ==> Off(approx, numPerm, best, threshold) < Off(approx, numPerm, b, threshold))
  }

  /** Written out: the number of bands divides the number of positions, and for every other divisor the approximate
      threshold is at least as far from the target, and farther if there are fewer bands. */
  lemma TilingMeaning(numPerm: nat, threshold: real, approx: (nat, nat) -> real, best: nat, off: nat -> real)
    requires IsBestTiling(numPerm, threshold, approx, best)
    requires forall b: nat | b > 0 ::
      off(b) == (if approx(b, numPerm / b) < threshold then threshold - approx(b, numPerm / b)
                 else approx(b, numPerm / b) - threshold)
    ensures best > 0 && numPerm % best == 0
    ensures forall b: nat | 1 <= b <= numPerm && numPerm % b == 0 ::
      off(best) <= off(b) && (b < best ==> off(best) < off(b))
  {
    DividesExactly(numPerm, best);
    assert off(best) == Off(approx, numPerm, best, threshold);
    forall b: nat | 1 <= b <= numPerm && numPerm % b == 0
      ensures off(best) <= off(b) && (b < best ==> off(best) < off(b))
    {
      DividesExactly(numPerm, b);
      assert off(b) == Off(approx, numPerm, b, threshold);
    }
  }

  lemma DividesExactly(n: nat, b: nat)
    requires b > 0
    ensures Tiles(n, b) <==> n % b == 0
  {
    assert n == b * (n / b) + n % b;
  }

  /** The bands always tile the signature; among the tilings, the one whose approximate threshold is
      closest to the target wins, and of equally close ones the one with the fewest bands. */
  method OptimalBands(numPerm: nat, threshold: real, approx: (nat, nat) -> real) returns (best: nat)
    ensures numPerm == 0 ==> best == 1
    ensures numPerm > 0 ==> best <= numPerm
    ensures IsBestTiling(numPerm, threshold, approx, best)
  {
    best := 1;
    var bestDiff: Option<real> := None;
    for bands := 1 to numPerm + 1
      invariant bestDiff == None ==> bands == 1 && best == 1
      invariant bestDiff.Some? ==>
        1 <= best < bands && Tiles(numPerm, best) && bestDiff.value == Off(approx, numPerm, best, threshold)
      invariant forall b | 1 <= b < bands && Tiles(numPerm, b) ::
        bestDiff.Some? && bestDiff.value <= Off(approx, numPerm, b, threshold)
        && (b < best ==> bestDiff.value < Off(approx, numPerm, b, threshold))
    {
      assert bands == 1 ==> Tiles(numPerm, bands);
      var rows := numPerm / bands;
      if rows == 0 || bands * rows != numPerm { continue; }
      var diff := Off(approx, numPerm, bands, threshold);
      if bestDiff == None || diff < bestDiff.value {
        bestDiff := Some(diff);
        best := bands;
      }
    }
  }

  /** Where band k begins. */
  function Start(rows: nat, k: nat): nat { k * rows }

  /** Band k of a signature. */
  function Band(sig: Signature, rows: nat, k: nat): seq<nat>
    requires Start(rows, k) + rows <= |sig|
  {
    sig[Start(rows, k)..Start(rows, k) + rows]
  }

  lemma NextStart(rows: nat, k: nat)
    ensures Start(rows, k + 1) == Start(rows, k) + rows
  {
  }

  lemma {:induction false} BandFits(bands: nat, rows: nat, k: nat)
    requires k < bands
    ensures Start(rows, k) + rows <= Start(rows, bands)
  {
    hide Start;
    NextStart(rows, bands - 1);
    if k < bands - 1 { BandFits(bands - 1, rows, k); }
  }

  /** All signatures are cut into the same bands. */
  ghost predicate Banded(sigs: seq<Signature>, bands: nat, rows: nat) {
    forall i | 0 <= i < |sigs| :: |sigs[i]| == Start(rows, bands)
  }

  /** Whether positions a and b share a bucket in some band. */
  ghost predicate ShareBucket(sigs: seq<Signature>, bands: nat, rows: nat, bandHash: seq<nat> -> nat, a: nat, b: nat)
    requires Banded(sigs, bands, rows) && a < |sigs| && b < |sigs|
  {
    exists k :: 0 <= k < bands && SameBand(sigs, bands, rows, bandHash, a, b, k)
  }

  ghost predicate SameBand(sigs: seq<Signature>, bands: nat, rows: nat, bandHash: seq<nat> -> nat, a: nat, b: nat,
                           k: nat)
    requires Banded(sigs, bands, rows) && a < |sigs| && b < |sigs| && k < bands
  {
    BandFits(bands, rows, k);
    bandHash(Band(sigs[a], rows, k)) == bandHash(Band(sigs[b], rows, k))
  }

  // ---------- the pigeonhole ----------

  lemma {:induction false} MatchingSplit(a: Signature, b: Signature, j: nat, k: nat)
    requires j <= k && k <= |a| && k <= |b|
    ensures Matching(a, b, j) <= Matching(a, b, k) <= Matching(a, b, j) + (k - j)
    ensures a[j..k] != b[j..k] ==> Matching(a, b, k) < Matching(a, b, j) + (k - j)
  {
    if j < k {
      MatchingSplit(a, b, j, k - 1);
      assert a[j..k] == a[j..k - 1] + [a[k - 1]] && b[j..k] == b[j..k - 1] + [b[k - 1]];
    }
  }

  /** If each of the first m bands differs somewhere, at least m positions differ. */
  lemma {:induction false} OneMismatchPerBand(a: Signature, b: Signature, bands: nat, rows: nat, m: nat)
    requires |a| == |b| == Start(rows, bands) && m <= bands
    requires forall k | 0 <= k < m :: Start(rows, k) + rows <= |a| && Band(a, rows, k) != Band(b, rows, k)
    ensures Start(rows, m) <= |a| && Matching(a, b, Start(rows, m)) + m <= Start(rows, m)
  {
    if m > 0 {
      hide Start, Matching;
      OneMismatchPerBand(a, b, bands, rows, m - 1);
      NextStart(rows, m - 1);
      MatchingSplit(a, b, Start(rows, m - 1), Start(rows, m));
    }
  }

  /** Signatures that differ in fewer positions than there are bands agree on a whole band, so they
      share a bucket whatever the band hash is. */
  lemma FewMismatchesShareBucket(sigs: seq<Signature>, bands: nat, rows: nat, bandHash: seq<nat> -> nat, a: nat, b: nat)
    requires Banded(sigs, bands, rows) && a < |sigs| && b < |sigs|
    requires |sigs[a]| - Matching(sigs[a], sigs[b], |sigs[a]|) < bands
    ensures ShareBucket(sigs, bands, rows, bandHash, a, b)
  {
    if !ShareBucket(sigs, bands, rows, bandHash, a, b) {
      forall k | 0 <= k < bands
        ensures Start(rows, k) + rows <= |sigs[a]| && Band(sigs[a], rows, k) != Band(sigs[b], rows, k)
      {
        BandFits(bands, rows, k);
        assert !SameBand(sigs, bands, rows, bandHash, a, b, k);
      }
      OneMismatchPerBand(sigs[a], sigs[b], bands, rows, bands);
    }
  }

  ghost function Similar(sigs: seq<Signature>, threshold: real): Pairs {
    (a: nat, b: nat) => a < |sigs| && b < |sigs| && |sigs[a]| == |sigs[b]| && IsSimilar(sigs[a], sigs[b], threshold)
  }

  /** Two signatures of a length are similar when the positions at which they agree are at least the threshold's
      share of all positions. */
  lemma SimilarMeaning(sigs: seq<Signature>, threshold: real, a: nat, b: nat, agreeing: set<nat>)
    requires a < |sigs| && b < |sigs| && |sigs[a]| == |sigs[b]|
    requires agreeing == set i | 0 <= i < |sigs[a]| && sigs[a][i] == sigs[b][i]
    ensures Similar(sigs, threshold)(a, b) <==>
      |sigs[a]| > 0 && |agreeing| as real >= threshold * |sigs[a]| as real
  {
    var x, y := sigs[a], sigs[b];
    var p := i => 0 <= i < |x| && x[i] == y[i];
    MatchingIsCount(x, y, |x|, p);
    assert agreeing == set i | 0 <= i < |x| && p(i);
    if |x| > 0 { ShareReaches(|agreeing| as real, |x| as real, threshold); }
  }

  ghost function Candidates(sigs: seq<Signature>, bands: nat, rows: nat, bandHash: seq<nat> -> nat): Pairs
    requires Banded(sigs, bands, rows)
  {
    (a: nat, b: nat) => a < b < |sigs| && ShareBucket(sigs, bands, rows, bandHash, a, b)
  }

  /** Two signatures are compared when they agree on the hash of some band: of the same consecutive positions,
      as many as there are rows, starting at a multiple of that. */
  lemma CandidatesMeaning(sigs: seq<Signature>, bands: nat, rows: nat, bandHash: seq<nat> -> nat, a: nat, b: nat,
                          from: nat -> nat)
    requires Banded(sigs, bands, rows) && forall k: nat :: from(k) == k * rows
    ensures Candidates(sigs, bands, rows, bandHash)(a, b) <==>
      && a < b < |sigs|
      && exists k: nat :: k < bands && from(k) + rows <= |sigs[a]| && from(k) + rows <= |sigs[b]|
           && bandHash(sigs[a][from(k)..from(k) + rows]) == bandHash(sigs[b][from(k)..from(k) + rows])
  {
    if a < b < |sigs| {
      forall k: nat | k < bands
        ensures from(k) + rows <= |sigs[a]| && from(k) + rows <= |sigs[b]|
        ensures SameBand(sigs, bands, rows, bandHash, a, b, k)
          <==> bandHash(sigs[a][from(k)..from(k) + rows]) == bandHash(sigs[b][from(k)..from(k) + rows])
      {
        BandFits(bands, rows, k);
        assert from(k) == Start(rows, k);
      }
    }
  }

  /** When the threshold leaves room for fewer mismatches than there are bands, no similar pair is
      missed. */
  lemma HighThresholdIsComplete(sigs: seq<Signature>, bands: nat, rows: nat, bandHash: seq<nat> -> nat, threshold: real)
    requires Banded(sigs, bands, rows)
    requires (1.0 - threshold) * Start(rows, bands) as real < bands as real
    ensures Complete(Candidates(sigs, bands, rows, bandHash), Similar(sigs, threshold), |sigs|)
  {
    forall a, b | 0 <= a < b < |sigs| && Similar(sigs, threshold)(a, b)
      ensures Candidates(sigs, bands, rows, bandHash)(a, b)
    {
      var n, m := Start(rows, bands), Matching(sigs[a], sigs[b], Start(rows, bands));
      MismatchBound(n, m, bands, threshold);
      FewMismatchesShareBucket(sigs, bands, rows, bandHash, a, b);
    }
  }

  lemma MismatchBound(n: nat, m: nat, bands: nat, threshold: real)
    requires n > 0 && m as real / n as real >= threshold
    requires (1.0 - threshold) * n as real < bands as real
    ensures n - m < bands
  {
    var share := m as real / n as real;
    assert share * n as real == m as real;
    assert (1.0 - share) * n as real <= (1.0 - threshold) * n as real;
    assert (1.0 - share) * n as real == n as real - m as real;
  }

  // ---------- buckets and candidate pairs ----------

  type Buckets = map<(nat, nat), seq<nat>>

  function Members(buckets: Buckets, key: (nat, nat)): seq<nat> {
    if key in buckets then buckets[key] else []
  }

  /** Signature x has hash h in band k. */
  ghost predicate InBucket(sigs: seq<Signature>, bands: nat, rows: nat, bandHash: seq<nat> -> nat, x: nat,
                           key: (nat, nat))
    requires Banded(sigs, bands, rows)
  {
    x < |sigs| && key.0 < bands && (BandFits(bands, rows, key.0); bandHash(Band(sigs[x], rows, key.0)) == key.1)
  }

  predicate Increasing(s: seq<nat>) { forall i, j | 0 <= i < j < |s| :: s[i] < s[j] }

  /** The buckets hold what has been entered: all bands of the first n signatures, and the first m
      bands of the next one. */
  ghost predicate BucketsHold(sigs: seq<Signature>, bands: nat, rows: nat, bandHash: seq<nat> -> nat, buckets: Buckets,
                              n: nat, m: nat)
    requires Banded(sigs, bands, rows)
  {
    && (forall key: (nat, nat) :: Increasing(Members(buckets, key)))
    && (forall key: (nat, nat), x: nat :: x in Members(buckets, key) <==>
          InBucket(sigs, bands, rows, bandHash, x, key) && (x < n || (x == n && key.0 < m)))
  }

  method FillBuckets(sigs: seq<Signature>, bands: nat, rows: nat, bandHash: seq<nat> -> nat) returns (buckets: Buckets)
    requires Banded(sigs, bands, rows)
    ensures BucketsHold(sigs, bands, rows, bandHash, buckets, |sigs|, 0)
  {
    buckets := map[];
    for idx := 0 to |sigs|
      invariant BucketsHold(sigs, bands, rows, bandHash, buckets, idx, 0)
    {
      for k := 0 to bands
        invariant BucketsHold(sigs, bands, rows, bandHash, buckets, idx, k)
      {
        BandFits(bands, rows, k);
        var key := (k, bandHash(Band(sigs[idx], rows, k)));
        EnterBucket(sigs, bands, rows, bandHash, buckets, idx, k);
        buckets := buckets[key := Members(buckets, key) + [idx]];
      }
      NextSignature(sigs, bands, rows, bandHash, buckets, idx);
    }
  }

  lemma IncreasingAppend(s: seq<nat>, x: nat)
    requires Increasing(s) && forall y | y in s :: y < x
    ensures Increasing(s + [x])
  {
    forall i | 0 <= i < |s| ensures s[i] < x { assert s[i] in s; }
  }

  lemma EnterBucket(sigs: seq<Signature>, bands: nat, rows: nat, bandHash: seq<nat> -> nat, buckets: Buckets, n: nat,
                    m: nat)
    requires Banded(sigs, bands, rows) && n < |sigs| && m < bands
    requires BucketsHold(sigs, bands, rows, bandHash, buckets, n, m)
    ensures Start(rows, m) + rows <= |sigs[n]|
    ensures var key := (m, bandHash(Band(sigs[n], rows, m)));
      BucketsHold(sigs, bands, rows, bandHash, buckets[key := Members(buckets, key) + [n]], n, m + 1)
  {
    BandFits(bands, rows, m);
    var key := (m, bandHash(Band(sigs[n], rows, m)));
    var after := buckets[key := Members(buckets, key) + [n]];
    assert InBucket(sigs, bands, rows, bandHash, n, key);
    forall other: (nat, nat)
      ensures Members(after, other)
        == Members(buckets, other) + if InBucket(sigs, bands, rows, bandHash, n, other) && other.0 == m then [n] else []
    { }
    hide InBucket, Members;
    forall other: (nat, nat) ensures Increasing(Members(after, other)) {
      assert Increasing(Members(buckets, other));
      if other.0 == m { IncreasingAppend(Members(buckets, other), n); }
    }
  }

  lemma NextSignature(sigs: seq<Signature>, bands: nat, rows: nat, bandHash: seq<nat> -> nat, buckets: Buckets, n: nat)
    requires Banded(sigs, bands, rows) && n < |sigs|
    requires BucketsHold(sigs, bands, rows, bandHash, buckets, n, bands)
    ensures BucketsHold(sigs, bands, rows, bandHash, buckets, n + 1, 0)
  {
  }

  /** A pair of members of one bucket. */
  ghost predicate PairIn(members: seq<nat>, p: (nat, nat)) {
    p.0 in members && p.1 in members && p.0 < p.1
  }

  /** All pairs of one bucket. */
  method BucketPairs(members: seq<nat>) returns (pairs: set<(nat, nat)>)
    requires Increasing(members)
    ensures forall p :: p in pairs <==> PairIn(members, p)
  {
    pairs := {};
    if |members| < 2 { return; }
    for i := 0 to |members|
      invariant forall p :: p in pairs <==> PairIn(members, p) && p.0 in members[..i]
    {
      var a := members[i];
      for j := i + 1 to |members|
        invariant forall p ::
          p in pairs <==> PairIn(members, p) && (p.0 in members[..i] || (p.0 == a && p.1 in members[..j]))
      {
        var b := members[j];
        pairs := pairs + {if a < b then (a, b) else (b, a)};
        assert members[..j + 1] == members[..j] + [b];
      }
      assert members[..i + 1] == members[..i] + [a];
      assert members[..|members|] == members;
    }
    assert members[..|members|] == members;
  }

  /** Candidate pairs of all buckets, taken in any order. */
  method CollectPairs(sigs: seq<Signature>, bands: nat, rows: nat, bandHash: seq<nat> -> nat, buckets: Buckets)
    returns (pairs: set<(nat, nat)>)
    requires Banded(sigs, bands, rows) && BucketsHold(sigs, bands, rows, bandHash, buckets, |sigs|, 0)
    ensures forall p :: p in pairs <==> Candidates(sigs, bands, rows, bandHash)(p.0, p.1)
  {
    pairs := {};
    var rest := buckets.Keys;
    while rest != {}
      invariant rest <= buckets.Keys
      invariant forall p :: p in pairs <==> exists key :: key in buckets.Keys - rest && PairIn(buckets[key], p)
      decreases rest
    {
      var key :| key in rest;
      rest := rest - {key};
      assert Increasing(Members(buckets, key));
      var more := BucketPairs(buckets[key]);
      pairs := pairs + more;
    }
    forall p: (nat, nat)
      ensures (exists key :: key in buckets.Keys && PairIn(buckets[key], p))
          <==> Candidates(sigs, bands, rows, bandHash)(p.0, p.1)
    {
      PairsAreCandidates(sigs, bands, rows, bandHash, buckets, p);
    }
  }

  lemma PairsAreCandidates(sigs: seq<Signature>, bands: nat, rows: nat, bandHash: seq<nat> -> nat, buckets: Buckets,
                           p: (nat, nat))
    requires Banded(sigs, bands, rows) && BucketsHold(sigs, bands, rows, bandHash, buckets, |sigs|, 0)
    ensures (exists key :: key in buckets.Keys && PairIn(buckets[key], p))
        <==> Candidates(sigs, bands, rows, bandHash)(p.0, p.1)
  {
    if key :| key in buckets.Keys && PairIn(buckets[key], p) {
      assert p.0 in Members(buckets, key) && p.1 in Members(buckets, key);
      assert SameBand(sigs, bands, rows, bandHash, p.0, p.1, key.0);
    }
    if Candidates(sigs, bands, rows, bandHash)(p.0, p.1) {
      var k :| 0 <= k < bands && SameBand(sigs, bands, rows, bandHash, p.0, p.1, k);
      BandFits(bands, rows, k);
      var key := (k, bandHash(Band(sigs[p.0], rows, k)));
      assert InBucket(sigs, bands, rows, bandHash, p.0, key) && InBucket(sigs, bands, rows, bandHash, p.1, key);
      assert p.0 in Members(buckets, key) && p.1 in Members(buckets, key);
      assert key in buckets.Keys && PairIn(buckets[key], p);
    }
  }

  // ---------- linking duplicates ----------

  /** Smaller first position first, then smaller second position. */
  predicate PairBefore(p: (nat, nat), q: (nat, nat)) { p.0 < q.0 || (p.0 == q.0 && p.1 < q.1) }

  lemma PairBeforeIsTotal()
    ensures TotalOrder(PairBefore)
  {
  }

  /** The pairs of the set in order, each once. */
  ghost predicate Lists(pairs: seq<(nat, nat)>, s: set<(nat, nat)>) {
    && (forall p :: p in pairs <==> p in s)
    && forall i, j | 0 <= i < j < |pairs| :: PairBefore(pairs[i], pairs[j])
  }

  method SortPairs(s: set<(nat, nat)>) returns (pairs: seq<(nat, nat)>)
    ensures Lists(pairs, s)
  {
    var unsorted: seq<(nat, nat)> := [];
    var rest := s;
    while rest != {}
      invariant rest <= s && Distinct(unsorted) && forall p :: p in unsorted <==> p in s - rest
      decreases rest
    {
      var p :| p in rest;
      assert p !in unsorted;
      rest := rest - {p};
      unsorted := unsorted + [p];
    }
    pairs := Sort(PairBefore, unsorted);
    PairBeforeIsTotal();
    SortSorts(PairBefore, unsorted);
    RearrangedDistinct(unsorted, pairs);
    forall p ensures p in pairs <==> p in unsorted { assert p in pairs <==> p in multiset(pairs); }
  }

  /** How many first positions have been dealt with for y when the pass stands at (a, b). */
  function Dealt(a: nat, b: nat, y: nat): nat {
    var k := if y < b then a + 1 else a;
    if k < y then k else y
  }

  /** The links found when the pass stands at (a, b). */
  ghost predicate LinksAt(cand: Pairs, sim: Pairs, links: seq<Option<nat>>, a: nat, b: nat) {
    forall y | 0 <= y < |links| :: links[y] == LeaderAmong(cand, sim, y, Dealt(a, b, y))
  }

  /** Moving on over positions that are no candidates changes nothing. */
  lemma SkipTo(cand: Pairs, sim: Pairs, links: seq<Option<nat>>, a: nat, b: nat, a': nat, b': nat)
    requires LinksAt(cand, sim, links, a, b) && (a < a' || (a == a' && b <= b'))
    requires forall x: nat, y: nat | x < y < |links| && cand(x, y) ::
      PairBefore((x, y), (a, b)) || !PairBefore((x, y), (a', b'))
    ensures LinksAt(cand, sim, links, a', b')
  {
    forall y | 0 <= y < |links| ensures links[y] == LeaderAmong(cand, sim, y, Dealt(a', b', y)) {
      LeaderPersists(cand, sim, y, Dealt(a, b, y), Dealt(a', b', y));
    }
  }

  /** Following the links from a to its root. */
  method FollowLinks(links: array<Option<nat>>, a: nat, ghost cand: Pairs, ghost sim: Pairs, ghost b: nat)
    returns (c: nat)
    requires a < links.Length && LinksAt(cand, sim, links[..], a, b)
    ensures c == Root(cand, sim, a) <= a
  {
    LinksAreDepthOne(cand, sim, a, a);
    assert links[..][a] == Leader(cand, sim, a);
    c := a;
    while links[c].Some?
      invariant c <= a && (c == a || (Leader(cand, sim, a) == Some(c) && Leader(cand, sim, c) == None))
      decreases c
    {
      assert links[..][c] == Leader(cand, sim, c);
      c := links[c].value;
    }
    assert links[..][c] == Leader(cand, sim, c);
  }

  /** One candidate pair. */
  method TestPair(links: array<Option<nat>>, sigs: seq<Signature>, threshold: real, a: nat, b: nat, ghost cand: Pairs)
    requires links.Length == |sigs| && a < b < |sigs| && cand(a, b)
    requires forall i | 0 <= i < |sigs| :: |sigs[i]| == |sigs[0]|
    requires LinksAt(cand, Similar(sigs, threshold), links[..], a, b)
    modifies links
    ensures LinksAt(cand, Similar(sigs, threshold), links[..], a, b + 1)
  {
    ghost var sim := Similar(sigs, threshold);
    ghost var before := links[..];
    assert before[b] == LeaderAmong(cand, sim, b, a);
    if links[b] == None {
      var root := FollowLinks(links, a, cand, sim, b);
      if IsSimilar(sigs[root], sigs[b], threshold) { links[b] := Some(root); }
    }
    forall y | 0 <= y < |sigs| && y != b ensures links[y] == LeaderAmong(cand, sim, y, Dealt(a, b + 1, y)) {
      assert before[y] == LeaderAmong(cand, sim, y, Dealt(a, b, y));
    }
    assert links[b] == LeaderAmong(cand, sim, b, Dealt(a, b + 1, b));
  }

  /** The pass over the sorted pairs. */
  method MarkDuplicates(sigs: seq<Signature>, threshold: real, pairs: seq<(nat, nat)>, ghost s: set<(nat, nat)>,
                        ghost cand: Pairs)
    returns (links: array<Option<nat>>)
    requires forall i | 0 <= i < |sigs| :: |sigs[i]| == |sigs[0]|
    requires Lists(pairs, s) && forall p: (nat, nat) :: p in s <==> cand(p.0, p.1)
    requires forall p | p in s :: p.0 < p.1 < |sigs|
    ensures fresh(links) && links.Length == |sigs|
    ensures forall y | 0 <= y < |sigs| :: links[y] == Leader(cand, Similar(sigs, threshold), y)
  {
    links := new Option<nat>[|sigs|](_ => None);
    ghost var sim := Similar(sigs, threshold);
    ghost var a: nat, b: nat := 0, 0;
    for q := 0 to |pairs|
      invariant LinksAt(cand, sim, links[..], a, b)
      invariant forall j | q <= j < |pairs| :: !PairBefore(pairs[j], (a, b))
      invariant forall j | 0 <= j < q :: PairBefore(pairs[j], (a, b))
    {
      var (x, y) := pairs[q];
      assert pairs[q] in s;
      PassToNext(cand, pairs, s, q, a, b);
      SkipTo(cand, sim, links[..], a, b, x, y);
      TestPair(links, sigs, threshold, x, y, cand);
      a, b := x, y + 1;
    }
    forall x: nat, y: nat | cand(x, y) ensures PairBefore((x, y), (a, b)) {
      assert (x, y) in s && (x, y) in pairs;
    }
    FinishPass(cand, sim, links[..], a, b);
  }

  lemma PassToNext(cand: Pairs, pairs: seq<(nat, nat)>, s: set<(nat, nat)>, q: nat, a: nat, b: nat)
    requires Lists(pairs, s) && q < |pairs| && forall p: (nat, nat) :: p in s <==> cand(p.0, p.1)
    requires forall j | 0 <= j < q :: PairBefore(pairs[j], (a, b))
    requires !PairBefore(pairs[q], (a, b))
    ensures a < pairs[q].0 || (a == pairs[q].0 && b <= pairs[q].1)
    ensures forall x: nat, y: nat | cand(x, y) :: PairBefore((x, y), (a, b)) || !PairBefore((x, y), pairs[q])
  {
    forall x: nat, y: nat | cand(x, y) ensures PairBefore((x, y), (a, b)) || !PairBefore((x, y), pairs[q]) {
      assert (x, y) in s && (x, y) in pairs;
      var j :| 0 <= j < |pairs| && pairs[j] == (x, y);
      if j > q { assert PairBefore(pairs[q], pairs[j]); }
    }
  }

  /** After the last pair every link is final. */
  lemma FinishPass(cand: Pairs, sim: Pairs, links: seq<Option<nat>>, a: nat, b: nat)
    requires LinksAt(cand, sim, links, a, b)
    requires forall x: nat, y: nat | cand(x, y) :: PairBefore((x, y), (a, b))
    ensures forall y | 0 <= y < |links| :: links[y] == Leader(cand, sim, y)
  {
    forall y | 0 <= y < |links| ensures links[y] == Leader(cand, sim, y) {
      LeaderPersists(cand, sim, y, Dealt(a, b, y), y);
    }
  }

  /** Near-duplicates among chunks, given as their word lists: for each position the earlier position
      it duplicates, if any. */
  method DeduplicateChunks(chunks: seq<seq<string>>, threshold: real, numPerm: nat, hash: (string, nat) -> nat,
                           bandHash: seq<nat> -> nat, approx: (nat, nat) -> real)
    returns (result: seq<(nat, Option<nat>)>, sigs: seq<Signature>, bands: nat)
    ensures |result| == |sigs| == |chunks|
    ensures forall i | 0 <= i < |chunks| :: IsSignatureOf(chunks[i], numPerm, hash, sigs[i])
    ensures IsBestTiling(numPerm, threshold, approx, bands) && Banded(sigs, bands, numPerm / bands)
    ensures forall i | 0 <= i < |chunks| ::
      result[i] == (i, Leader(Candidates(sigs, bands, numPerm / bands, bandHash), Similar(sigs, threshold), i))
  {
    sigs := [];
    for i := 0 to |chunks|
      invariant |sigs| == i
      invariant forall k | 0 <= k < i :: IsSignatureOf(chunks[k], numPerm, hash, sigs[k])
    {
      var sig := ComputeMinHash(chunks[i], numPerm, hash);
      sigs := sigs + [sig];
    }
    bands := OptimalBands(numPerm, threshold, approx);
    if |chunks| == 0 { return [], sigs, bands; }
    result := LinkChunks(sigs, threshold, numPerm, bands, bandHash);
  }

  method LinkChunks(sigs: seq<Signature>, threshold: real, numPerm: nat, bands: nat, bandHash: seq<nat> -> nat)
    returns (result: seq<(nat, Option<nat>)>)
    requires Tiles(numPerm, bands) && forall i | 0 <= i < |sigs| :: |sigs[i]| == numPerm
    ensures Banded(sigs, bands, numPerm / bands) && |result| == |sigs|
    ensures forall i | 0 <= i < |sigs| ::
      result[i] == (i, Leader(Candidates(sigs, bands, numPerm / bands, bandHash), Similar(sigs, threshold), i))
  {
    var rows := numPerm / bands;
    assert Banded(sigs, bands, rows);
    var buckets := FillBuckets(sigs, bands, rows, bandHash);
    var candidates := CollectPairs(sigs, bands, rows, bandHash, buckets);
    var pairs := SortPairs(candidates);
    ghost var cand := Candidates(sigs, bands, rows, bandHash);
    var links := MarkDuplicates(sigs, threshold, pairs, candidates, cand);
    result := seq(|sigs|, i requires 0 <= i < links.Length reads links => (i, links[i]));
  }

  lemma {:induction false} MatchingSelf(a: Signature, k: nat)
    requires k <= |a|
    ensures Matching(a, a, k) == k
  {
    if k > 0 { MatchingSelf(a, k - 1); }
  }

  lemma SimilarToCopy(sigs: seq<Signature>, threshold: real, i: nat, j: nat)
    requires i < |sigs| && j < |sigs| && sigs[i] == sigs[j] && |sigs[i]| > 0 && threshold <= 1.0
    ensures Similar(sigs, threshold)(i, j)
  {
    var n := |sigs[i]|;
    MatchingSelf(sigs[i], n);
    assert n as real / n as real == 1.0;
  }

  lemma SameBandAsCopy(sigs: seq<Signature>, bands: nat, rows: nat, bandHash: seq<nat> -> nat, x: nat, i: nat, j: nat)
    requires Banded(sigs, bands, rows) && x < i < j < |sigs| && sigs[i] == sigs[j]
    ensures Candidates(sigs, bands, rows, bandHash)(x, i) == Candidates(sigs, bands, rows, bandHash)(x, j)
  {
    forall k | 0 <= k < bands
      ensures SameBand(sigs, bands, rows, bandHash, x, i, k) == SameBand(sigs, bands, rows, bandHash, x, j, k) { }
  }

  /** A chunk with the same signature as an earlier one, an exact copy for instance, is always marked,
      and as a duplicate of that one's root. */
  lemma CopiesAreMarked(sigs: seq<Signature>, threshold: real, numPerm: nat, bands: nat, bandHash: seq<nat> -> nat,
                        i: nat, j: nat)
    requires Tiles(numPerm, bands) && Banded(sigs, bands, numPerm / bands) && numPerm > 0 && threshold <= 1.0
    requires i < j < |sigs| && sigs[i] == sigs[j]
    ensures Leader(Candidates(sigs, bands, numPerm / bands, bandHash), Similar(sigs, threshold), j)
         == Some(Root(Candidates(sigs, bands, numPerm / bands, bandHash), Similar(sigs, threshold), i))
  {
    var rows := numPerm / bands;
    var cand, sim := Candidates(sigs, bands, rows, bandHash), Similar(sigs, threshold);
    SimilarToCopy(sigs, threshold, i, j);
    assert SameBand(sigs, bands, rows, bandHash, i, j, 0);
    forall x | 0 <= x < i ensures cand(x, i) == cand(x, j) && sim(x, i) == sim(x, j) {
      SameBandAsCopy(sigs, bands, rows, bandHash, x, i, j);
    }
    CopiesAreLinked(cand, sim, i, j);
  }

  /** The quadratic pass of the fallback: every item that has no link yet takes the later similar ones
      that have none. */
  method GreedyPass(sigs: seq<Signature>, threshold: real) returns (links: array<Option<nat>>)
    requires forall i | 0 <= i < |sigs| :: |sigs[i]| == |sigs[0]|
    ensures links.Length == |sigs|
    ensures forall j | 0 <= j < |sigs| :: links[j] == Greedy(Similar(sigs, threshold), j)
  {
    links := new Option<nat>[|sigs|](_ => None);
    ghost var sim := Similar(sigs, threshold);
    for i := 0 to |sigs|
      invariant forall j | 0 <= j < |sigs| :: links[j] == GreedyAmong(sim, j, if j < i then j else i)
    {
      if links[i].Some? { continue; }
      for j := i + 1 to |sigs|
        invariant forall y | 0 <= y < |sigs| ::
          links[y] == GreedyAmong(sim, y, if y <= i then y else if y < j then i + 1 else i)
      {
        if links[j] == None && IsSimilar(sigs[i], sigs[j], threshold) { links[j] := Some(i); }
      }
    }
  }
}
