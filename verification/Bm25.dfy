/** The BM25 index: what its tables say about the documents added, scoring one document, and searching
    through the inverted index. Texts come as the token lists that the tokenizer makes of them. */
module Bm25 {
  import opened Options
  import opened Signs
  import opened Sums
  import Sizes

  type Tokens = seq<string>

  // ---------- counting in the documents themselves ----------

  function CountOf(doc: Tokens, w: string): nat {
    if doc == [] then 0 else CountOf(doc[..|doc| - 1], w) + if doc[|doc| - 1] == w then 1 else 0
  }

  lemma {:induction false} CountPositive(doc: Tokens, w: string)
    ensures CountOf(doc, w) > 0 <==> w in doc
  {
    if doc != [] {
      CountPositive(doc[..|doc| - 1], w);
      assert doc == doc[..|doc| - 1] + [doc[|doc| - 1]];
    }
  }

  /** The documents that contain w, in the order they were added. */
  function Postings(docs: seq<Tokens>, w: string): seq<nat> {
    if docs == [] then []
    else Postings(docs[..|docs| - 1], w) + if w in docs[|docs| - 1] then [|docs| - 1] else []
  }

  lemma {:induction false} PostingsExact(docs: seq<Tokens>, w: string, d: nat)
    ensures d in Postings(docs, w) <==> d < |docs| && w in docs[d]
  {
    if docs != [] { PostingsExact(docs[..|docs| - 1], w, d); }
  }

  function Lengths(docs: seq<Tokens>): nat {
    if docs == [] then 0 else Lengths(docs[..|docs| - 1]) + |docs[|docs| - 1]|
  }

  /** New tokens get the next numbers in the order in which they first appear. */
  function Numbered(m: map<string, nat>, tokens: Tokens): map<string, nat> {
    if tokens == [] then m
    else
      var before := Numbered(m, tokens[..|tokens| - 1]);
      var w := tokens[|tokens| - 1];
      if w in before then before else before[w := |before|]
  }

  function Vocabulary(docs: seq<Tokens>): map<string, nat> {
    if docs == [] then map[] else Numbered(Vocabulary(docs[..|docs| - 1]), docs[|docs| - 1])
  }

  /** Different tokens have different numbers, all below the size of the vocabulary. */
  predicate IsNumbering(m: map<string, nat>) {
    (forall w | w in m :: m[w] < |m|) && forall v, w | v in m && w in m && m[v] == m[w] :: v == w
  }

  lemma NextNumber(m: map<string, nat>, w: string)
    requires IsNumbering(m) && w !in m
    ensures IsNumbering(m[w := |m|])
  {
  }

  lemma {:induction false} NumberedIsNumbering(m: map<string, nat>, tokens: Tokens)
    requires IsNumbering(m)
    ensures IsNumbering(Numbered(m, tokens))
    ensures forall w | w in m :: w in Numbered(m, tokens) && Numbered(m, tokens)[w] == m[w]
    ensures forall w :: w in Numbered(m, tokens) <==> w in m || w in tokens
  {
    hide IsNumbering;
    if tokens != [] {
      var before, w := Numbered(m, tokens[..|tokens| - 1]), tokens[|tokens| - 1];
      NumberedIsNumbering(m, tokens[..|tokens| - 1]);
      if w !in before { NextNumber(before, w); }
      assert tokens == tokens[..|tokens| - 1] + [tokens[|tokens| - 1]];
    }
  }

  // ---------- the tables ----------

  /** The term counts of one document, by token number. */
  ghost predicate FreqAgrees(doc: Tokens, numbers: map<string, nat>, freq: map<nat, nat>) {
    && (forall w | w in doc :: w in numbers && numbers[w] in freq && freq[numbers[w]] == CountOf(doc, w))
    && (forall t | t in freq :: exists w :: w in doc && w in numbers && numbers[w] == t)
  }

  function Listed(inverted: map<nat, seq<nat>>, t: nat): seq<nat> { if t in inverted then inverted[t] else [] }

  function Frequency(dfs: map<nat, nat>, t: nat): nat { if t in dfs then dfs[t] else 0 }

  /** The posting lists and document frequencies of all numbered tokens. */
  ghost predicate ListsAgree(docs: seq<Tokens>, numbers: map<string, nat>, inverted: map<nat, seq<nat>>,
                             dfs: map<nat, nat>) {
    forall w | w in numbers ::
      Listed(inverted, numbers[w]) == Postings(docs, w) && Frequency(dfs, numbers[w]) == |Postings(docs, w)|
  }

  /** No table mentions a number that has not been given out. */
  ghost predicate NumbersKnown(numbers: map<string, nat>, inverted: map<nat, seq<nat>>, dfs: map<nat, nat>) {
    (forall t | t in inverted :: t < |numbers|) && forall t | t in dfs :: t < |numbers|
  }

  function LastIndex(ids: seq<string>, id: string): Option<nat> {
    if ids == [] then None
    else if ids[|ids| - 1] == id then Some(|ids| - 1)
    else LastIndex(ids[..|ids| - 1], id)
  }

  function Max1(x: real): real { if x < 1.0 then 1.0 else x }

  /** Division as it is used here; the divisor is positive for every k1 ≥ 0 and b in [0, 1]. */
  function Over(x: real, y: real): real { if y == 0.0 then 0.0 else x / y }

  function Average(total: nat, count: nat): real { if count == 0 then 0.0 else total as real / count as real }

  /** The parameters of the ranking, with the logarithm. */
  datatype Params = Params(k1: real, b: real, ln: real -> real) {

    function Idf(n: nat, df: nat): real {
      if df == 0 then 0.0 else ln(Over(n as real - df as real + 0.5, df as real + 0.5) + 1.0)
    }

    /** What tf occurrences in a document of the given length add. */
    function TermScore(idf: real, tf: nat, length: nat, average: real): real {
      Over(idf * (tf as real * (k1 + 1.0)),
           tf as real + k1 * (1.0 - b + Over(b * length as real, Max1(average))))
    }

    /** The score of document d from the documents alone. */
    function Score(docs: seq<Tokens>, d: nat, query: Tokens): real
      requires d < |docs|
    {
      if query == [] then 0.0
      else
        var w := query[|query| - 1];
        Score(docs, d, query[..|query| - 1]) +
        if CountOf(docs[d], w) == 0 then 0.0
        else TermScore(Idf(|docs|, |Postings(docs, w)|), CountOf(docs[d], w), |docs[d]|, Average(Lengths(docs), |docs|))
    }
  }

  predicate SharesToken(doc: Tokens, query: Tokens) { exists w :: w in query && w in doc }

  /** A document without any token of the query scores 0. */
  lemma {:induction false} NoTokenNoScore(p: Params, docs: seq<Tokens>, d: nat, query: Tokens)
    requires d < |docs| && !SharesToken(docs[d], query)
    ensures p.Score(docs, d, query) == 0.0
  {
    if query != [] {
      var w := query[|query| - 1];
      assert w in query;
      CountPositive(docs[d], w);
      NoTokenNoScore(p, docs, d, query[..|query| - 1]);
    }
  }

  /** The parameters the index is meant for, with what is known of the logarithm. */
  ghost predicate Usual(p: Params) {
    p.k1 >= 0.0 && 0.0 <= p.b <= 1.0 && forall x | x > 1.0 :: p.ln(x) > 0.0
  }

  /** No division by zero arises. */
  lemma DenominatorPositive(tf: real, k1: real, b: real, length: real, average: real)
    requires k1 >= 0.0 && 0.0 <= b <= 1.0 && tf > 0.0 && length >= 0.0
    ensures tf + k1 * (1.0 - b + Over(b * length, Max1(average))) > 0.0
  {
    ProductSign(b, length);
    QuotientSign(b * length, Max1(average));
    ProductSign(k1, 1.0 - b + Over(b * length, Max1(average)));
  }

  /** A term that occurs adds something. */
  lemma TermScorePositive(p: Params, idf: real, tf: nat, length: nat, average: real)
    requires Usual(p) && idf > 0.0 && tf > 0
    ensures p.TermScore(idf, tf, length, average) > 0.0
  {
    hide Max1;
    DenominatorPositive(tf as real, p.k1, p.b, length as real, average);
    var x := tf as real * (p.k1 + 1.0);
    var y := tf as real + p.k1 * (1.0 - p.b + Over(p.b * length as real, Max1(average)));
    assert x > 0.0 by { ProductSign(tf as real, p.k1 + 1.0); }
    QuotientPositive(idf, x, y);
  }

  lemma QuotientPositive(idf: real, x: real, y: real)
    requires idf > 0.0 && x > 0.0 && y > 0.0
    ensures Over(idf * x, y) > 0.0
  {
    ProductSign(idf, x);
    QuotientSign(idf * x, y);
  }

  lemma IdfPositive(p: Params, n: nat, df: nat)
    requires Usual(p) && 0 < df <= n
    ensures p.Idf(n, df) > 0.0
  {
    QuotientSign(n as real - df as real + 0.5, df as real + 0.5);
  }

  lemma {:induction false} PostingsBounded(docs: seq<Tokens>, w: string)
    ensures |Postings(docs, w)| <= |docs|
  {
    if docs != [] { PostingsBounded(docs[..|docs| - 1], w); }
  }

  /** A document scores 0 or more, and more than 0 exactly when it has a token of the query. */
  lemma {:induction false} ScoreSigns(p: Params, docs: seq<Tokens>, d: nat, query: Tokens)
    requires Usual(p) && d < |docs|
    ensures p.Score(docs, d, query) >= 0.0
    ensures p.Score(docs, d, query) > 0.0 <==> SharesToken(docs[d], query)
  {
    hide Usual, Params.TermScore, Params.Idf, Postings;
    if query != [] {
      var front, w := query[..|query| - 1], query[|query| - 1];
      assert query == front + [w];
      ScoreSigns(p, docs, d, front);
      CountPositive(docs[d], w);
      if CountOf(docs[d], w) > 0 {
        PostingsExact(docs, w, d);
        PostingsBounded(docs, w);
        IdfPositive(p, |docs|, |Postings(docs, w)|);
        TermScorePositive(p, p.Idf(|docs|, |Postings(docs, w)|), CountOf(docs[d], w), |docs[d]|,
                          Average(Lengths(docs), |docs|));
      }
    }
  }

  // ---------- what the score rewards ----------

  /** For a logarithm that rises, the weight of a token falls as the number of documents with it grows. */
  lemma RarerWeighsMore(p: Params, n: nat, df: nat, df': nat)
    requires 0 < df < df' <= n
    requires forall x, y | 0.0 < x < y :: p.ln(x) < p.ln(y)
    ensures p.Idf(n, df) > p.Idf(n, df')
  {
    var x, y := n as real - df as real + 0.5, df as real + 0.5;
    var x', y' := n as real - df' as real + 0.5, df' as real + 0.5;
    CrossRarer(n as real, df as real, df' as real);
    QuotientLess(x', y', x, y);
    QuotientSign(x', y');
    assert 0.0 < Over(x', y') + 1.0 < Over(x, y) + 1.0;
  }

  lemma CrossRarer(n: real, df: real, df': real)
    requires 0.0 < df < df' <= n
    ensures (n - df' + 0.5) * (df + 0.5) < (n - df + 0.5) * (df' + 0.5)
  {
    ProductLess(n + 1.0, df, df');
    assert (n - df' + 0.5) * (df + 0.5) - (n - df + 0.5) * (df' + 0.5) == (n + 1.0) * df - (n + 1.0) * df';
  }

  /** What is added to the count in the divisor of a term's score. */
  function Norm(k1: real, b: real, length: real, average: real): real {
    Scaled(k1, 1.0 - b + Over(Scaled(b, length), Max1(average)))
  }

  /** What is divided. */
  function Raw(idf: real, k1: real, tf: real): real { Scaled(Scaled(idf, k1 + 1.0), tf) }

  lemma TermScoreIs(p: Params, idf: real, tf: nat, length: nat, average: real)
    requires p.k1 >= 0.0 && 0.0 <= p.b <= 1.0 && tf > 0
    ensures tf as real + Norm(p.k1, p.b, length as real, average) > 0.0
    ensures p.TermScore(idf, tf, length, average)
         == Raw(idf, p.k1, tf as real) / (tf as real + Norm(p.k1, p.b, length as real, average))
  {
    DenominatorPositive(tf as real, p.k1, p.b, length as real, average);
    Regroup(idf, tf as real, p.k1 + 1.0);
  }

  lemma Regroup(x: real, y: real, z: real)
    ensures x * (y * z) == x * z * y
  {
  }

  lemma ScaledLess(c: real, x: real, y: real)
    requires c > 0.0 && x < y
    ensures Scaled(c, x) < Scaled(c, y)
  {
    ProductLess(c, x, y);
  }

  /** A term of positive weight scores higher the more often it occurs. */
  lemma MoreOccurrencesScoreMore(p: Params, idf: real, tf: nat, tf': nat, length: nat, average: real)
    requires p.k1 > 0.0 && 0.0 <= p.b <= 1.0 && idf > 0.0 && 0 < tf < tf' && length > 0
    ensures p.TermScore(idf, tf, length, average) < p.TermScore(idf, tf', length, average)
  {
    hide Params.TermScore, Norm, Raw;
    var c := Norm(p.k1, p.b, length as real, average);
    NormPositive(p.k1, p.b, length as real, average);
    TermScoreIs(p, idf, tf, length, average);
    TermScoreIs(p, idf, tf', length, average);
    CrossOccurrences(idf, p.k1, tf as real, tf' as real, c);
    QuotientLess(Raw(idf, p.k1, tf as real), tf as real + c, Raw(idf, p.k1, tf' as real), tf' as real + c);
  }

  lemma NormPositive(k1: real, b: real, length: real, average: real)
    requires k1 > 0.0 && 0.0 <= b <= 1.0 && length > 0.0
    ensures Norm(k1, b, length, average) > 0.0
  {
    hide Scaled;
    ScaledSign(b, length);
    QuotientSign(Scaled(b, length), Max1(average));
    if b == 0.0 { ScaledZero(length); ScaledCommutes(b, length); }
    ScaledSign(k1, 1.0 - b + Over(Scaled(b, length), Max1(average)));
  }

  lemma CrossOccurrences(idf: real, k1: real, t: real, t': real, c: real)
    requires idf > 0.0 && k1 > 0.0 && 0.0 < t < t' && c > 0.0
    ensures Raw(idf, k1, t) * (t' + c) < Raw(idf, k1, t') * (t + c)
  {
    var w := Scaled(idf, k1 + 1.0);
    ScaledSign(idf, k1 + 1.0);
    ProductLess(c, t, t');
    ProductLess(w, t * t' + c * t, t * t' + c * t');
    CrossTerms(w, t, t', c);
  }

  lemma CrossTerms(w: real, t: real, t': real, c: real)
    ensures Scaled(w, t) * (t' + c) == w * (t * t' + c * t)
    ensures Scaled(w, t') * (t + c) == w * (t * t' + c * t')
  {
  }

  /** A term of positive weight scores lower in a longer document. */
  lemma LongerScoresLess(p: Params, idf: real, tf: nat, length: nat, length': nat, average: real)
    requires p.k1 > 0.0 && 0.0 < p.b <= 1.0 && idf > 0.0 && tf > 0 && length < length'
    ensures p.TermScore(idf, tf, length, average) > p.TermScore(idf, tf, length', average)
  {
    hide Params.TermScore, Norm, Raw;
    var x, t := Raw(idf, p.k1, tf as real), tf as real;
    var c, c' := Norm(p.k1, p.b, length as real, average), Norm(p.k1, p.b, length' as real, average);
    TermScoreIs(p, idf, tf, length, average);
    TermScoreIs(p, idf, tf, length', average);
    NormRises(p.k1, p.b, length as real, length' as real, average);
    RawPositive(idf, p.k1, t);
    ProductLess(x, t + c, t + c');
    QuotientLess(x, t + c', x, t + c);
  }

  lemma RawPositive(idf: real, k1: real, t: real)
    requires idf > 0.0 && k1 > 0.0 && t > 0.0
    ensures Raw(idf, k1, t) > 0.0
  {
    ScaledSign(idf, k1 + 1.0);
    ScaledSign(Scaled(idf, k1 + 1.0), t);
  }

  lemma NormRises(k1: real, b: real, length: real, length': real, average: real)
    requires k1 > 0.0 && b > 0.0 && length < length'
    ensures Norm(k1, b, length, average) < Norm(k1, b, length', average)
  {
    hide Scaled;
    var a := Max1(average);
    ScaledLess(b, length, length');
    SameDivisor(Scaled(b, length), Scaled(b, length'), a);
    ScaledLess(k1, 1.0 - b + Over(Scaled(b, length), a), 1.0 - b + Over(Scaled(b, length'), a));
  }

  lemma SameDivisor(x: real, x': real, y: real)
    requires x < x' && y > 0.0
    ensures x / y < x' / y
  {
    ProductLess(y, x, x');
    QuotientLess(x, y, x', y);
  }

  // ---------- the score written out ----------

  /** The score is added up token by token, repeated ones included. */
  lemma {:induction false} ScoreAddsUp(p: Params, docs: seq<Tokens>, d: nat, query: Tokens, more: Tokens)
    requires d < |docs|
    ensures p.Score(docs, d, query + more) == p.Score(docs, d, query) + p.Score(docs, d, more)
  {
    hide Params.TermScore, Params.Idf;
    if more == [] {
      assert query + more == query;
    } else {
      var front := more[..|more| - 1];
      assert (query + more)[..|query + more| - 1] == query + front;
      ScoreAddsUp(p, docs, d, query, front);
    }
  }

  lemma CountIsSize(doc: Tokens, w: string)
    ensures |set i | 0 <= i < |doc| && doc[i] == w| == CountOf(doc, w)
  {
    var p := i => 0 <= i < |doc| && doc[i] == w;
    CountBelow(doc, w, |doc|, p);
    hide CountOf;
    assert doc[..|doc|] == doc;
    assert (set i | 0 <= i < |doc| && doc[i] == w) == set i | 0 <= i < |doc| && p(i);
  }

  lemma {:induction false} CountBelow(doc: Tokens, w: string, n: nat, p: int -> bool)
    requires n <= |doc| && forall i | 0 <= i < |doc| :: p(i) <==> doc[i] == w
    ensures |set i | 0 <= i < n && p(i)| == CountOf(doc[..n], w)
  {
    if n > 0 {
      CountBelow(doc, w, n - 1, p);
      Sizes.CountNext(n - 1, p);
      assert doc[..n][..n - 1] == doc[..n - 1];
    }
  }

  lemma PostingsAreSize(docs: seq<Tokens>, w: string)
    ensures |set i | 0 <= i < |docs| && w in docs[i]| == |Postings(docs, w)|
  {
    var p := i => 0 <= i < |docs| && w in docs[i];
    PostingsBelow(docs, w, |docs|, p);
    hide Postings;
    assert docs[..|docs|] == docs;
    assert (set i | 0 <= i < |docs| && w in docs[i]) == set i | 0 <= i < |docs| && p(i);
  }

  lemma {:induction false} PostingsBelow(docs: seq<Tokens>, w: string, n: nat, p: int -> bool)
    requires n <= |docs| && forall i | 0 <= i < |docs| :: p(i) <==> w in docs[i]
    ensures |set i | 0 <= i < n && p(i)| == |Postings(docs[..n], w)|
  {
    if n > 0 {
      PostingsBelow(docs, w, n - 1, p);
      Sizes.CountNext(n - 1, p);
      assert docs[..n][..n - 1] == docs[..n - 1];
    }
  }

  lemma {:induction false} LengthsAreSum(docs: seq<Tokens>, lengths: int -> real)
    requires forall i | 0 <= i < |docs| :: lengths(i) == |docs[i]| as real
    ensures Lengths(docs) as real == Sum(|docs|, lengths)
  {
    if docs != [] { LengthsAreSum(docs[..|docs| - 1], lengths); }
  }

  /** The score for a single token, written out: with the number n of documents, the number df of those that have the
      token, its number tf of places in the document, the document's length, and the average length, taken as 1 if it
      is below. */
  lemma SingleTokenScore(p: Params, docs: seq<Tokens>, d: nat, w: string, places: set<int>, holders: set<int>,
                         lengths: int -> real, n: real, df: real, tf: real, length: real, average: real, idf: real,
                         norm: real)
    requires d < |docs| && p.k1 >= 0.0 && 0.0 <= p.b <= 1.0
    requires places == set i | 0 <= i < |docs[d]| && docs[d][i] == w
    requires holders == set i | 0 <= i < |docs| && w in docs[i]
    requires forall i | 0 <= i < |docs| :: lengths(i) == |docs[i]| as real
    requires n == |docs| as real && df == |holders| as real && tf == |places| as real && length == |docs[d]| as real
    requires average == if Sum(|docs|, lengths) / n < 1.0 then 1.0 else Sum(|docs|, lengths) / n
    requires idf == p.ln((n - df + 0.5) / (df + 0.5) + 1.0)
    requires norm == p.k1 * (1.0 - p.b + p.b * length / average)
    ensures tf == 0.0 ==> p.Score(docs, d, [w]) == 0.0
    ensures tf > 0.0 ==> tf + norm > 0.0 && p.Score(docs, d, [w]) == idf * (tf * (p.k1 + 1.0)) / (tf + norm)
  {
    hide Params.TermScore, Params.Idf, Params.Score;
    CountIsSize(docs[d], w);
    PostingsAreSize(docs, w);
    LengthsAreSum(docs, lengths);
    ScoreOfOne(p, docs, d, w);
    if tf > 0.0 {
      CountPositive(docs[d], w);
      PostingsOfHolder(docs, d, w);
      IdfFormula(p, |docs|, |Postings(docs, w)|, n, df);
      TermFormula(p, idf, CountOf(docs[d], w), |docs[d]|, Average(Lengths(docs), |docs|), tf, length, average, norm);
    }
  }

  lemma IdfFormula(p: Params, documents: nat, holding: nat, n: real, df: real)
    requires 0 < holding <= documents && n == documents as real && df == holding as real
    ensures p.Idf(documents, holding) == p.ln((n - df + 0.5) / (df + 0.5) + 1.0)
  {
  }

  lemma TermFormula(p: Params, idf: real, count: nat, size: nat, mean: real, tf: real, length: real, average: real,
                    norm: real)
    requires count > 0 && p.k1 >= 0.0 && 0.0 <= p.b <= 1.0
    requires tf == count as real && length == size as real && average == if mean < 1.0 then 1.0 else mean
    requires norm == p.k1 * (1.0 - p.b + p.b * length / average)
    ensures tf + norm > 0.0 && p.TermScore(idf, count, size, mean) == idf * (tf * (p.k1 + 1.0)) / (tf + norm)
  {
    hide Params.TermScore;
    NormFormula(p, length, mean, average, norm);
    TermOver(p, idf, count, size, mean, norm);
  }

  lemma NormFormula(p: Params, length: real, mean: real, average: real, norm: real)
    requires average == if mean < 1.0 then 1.0 else mean
    requires norm == p.k1 * (1.0 - p.b + p.b * length / average)
    ensures norm == p.k1 * (1.0 - p.b + Over(p.b * length, Max1(mean)))
  {
  }

  lemma TermOver(p: Params, idf: real, count: nat, size: nat, mean: real, norm: real)
    requires count > 0 && p.k1 >= 0.0 && 0.0 <= p.b <= 1.0
    requires norm == p.k1 * (1.0 - p.b + Over(p.b * size as real, Max1(mean)))
    ensures count as real + norm > 0.0
    ensures p.TermScore(idf, count, size, mean) == idf * (count as real * (p.k1 + 1.0)) / (count as real + norm)
  {
    hide Max1;
    DenominatorPositive(count as real, p.k1, p.b, size as real, mean);
  }

  lemma PostingsOfHolder(docs: seq<Tokens>, d: nat, w: string)
    requires d < |docs| && w in docs[d]
    ensures 0 < |Postings(docs, w)| <= |docs|
  {
    PostingsExact(docs, w, d);
    PostingsBounded(docs, w);
  }

  lemma ScoreOfOne(p: Params, docs: seq<Tokens>, d: nat, w: string)
    requires d < |docs|
    ensures p.Score(docs, d, [w])
      == if CountOf(docs[d], w) == 0 then 0.0
         else p.TermScore(p.Idf(|docs|, |Postings(docs, w)|), CountOf(docs[d], w), |docs[d]|,
                          Average(Lengths(docs), |docs|))
  {
    assert [w][..0] == [];
    assert p.Score(docs, d, []) == 0.0;
  }

  /** The document that an id is looked up at is the last one added under it. */
  lemma {:induction false} LastIndexMeaning(ids: seq<string>, id: string)
    ensures LastIndex(ids, id) == None <==> id !in ids
    ensures LastIndex(ids, id).Some? ==> var d := LastIndex(ids, id).value;
      d < |ids| && ids[d] == id && forall e | d < e < |ids| :: ids[e] != id
  {
    if ids != [] {
      LastIndexMeaning(ids[..|ids| - 1], id);
      assert ids == ids[..|ids| - 1] + [ids[|ids| - 1]];
    }
  }
}
