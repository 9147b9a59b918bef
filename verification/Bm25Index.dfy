/** The mutable index. */
module Bm25Index {
  import opened Options
  import opened Sizes
  import opened Sorting
  import opened Bm25

  // ---------- how the tables follow a new document ----------

  lemma FreqExtends(doc: Tokens, m: map<string, nat>, m': map<string, nat>, freq: map<nat, nat>)
    requires FreqAgrees(doc, m, freq)
    requires forall w | w in m :: w in m' && m'[w] == m[w]
    ensures FreqAgrees(doc, m', freq)
  {
  }

  ghost predicate AllKnown(docs: seq<Tokens>, m: map<string, nat>) {
    forall d, w | 0 <= d < |docs| && w in docs[d] :: w in m
  }

  lemma {:induction false} NoPostings(docs: seq<Tokens>, w: string)
    requires forall d | 0 <= d < |docs| :: w !in docs[d]
    ensures Postings(docs, w) == []
  {
    if docs != [] { NoPostings(docs[..|docs| - 1], w); }
  }

  /** Numbers given to new tokens occur in no table yet, as the tokens occur in no document. */
  lemma ListsExtend(docs: seq<Tokens>, m: map<string, nat>, doc: Tokens, inverted: map<nat, seq<nat>>,
                    dfs: map<nat, nat>)
    requires IsNumbering(m) && AllKnown(docs, m) && ListsAgree(docs, m, inverted, dfs) && NumbersKnown(m, inverted, dfs)
    ensures IsNumbering(Numbered(m, doc))
    ensures ListsAgree(docs, Numbered(m, doc), inverted, dfs)
  {
    var m' := Numbered(m, doc);
    NumberedIsNumbering(m, doc);
    forall w | w in m'
      ensures Listed(inverted, m'[w]) == Postings(docs, w) && Frequency(dfs, m'[w]) == |Postings(docs, w)|
    {
      if w !in m {
        NewNumber(m, doc, w);
        NoPostings(docs, w);
      }
    }
  }

  lemma {:induction false} NewNumber(m: map<string, nat>, doc: Tokens, w: string)
    requires w in Numbered(m, doc) && w !in m
    ensures Numbered(m, doc)[w] >= |m|
    ensures |Numbered(m, doc)| >= |m|
  {
    GrowsOnly(m, doc);
    if doc != [] {
      GrowsOnly(m, doc[..|doc| - 1]);
      if w in Numbered(m, doc[..|doc| - 1]) { NewNumber(m, doc[..|doc| - 1], w); }
    }
  }

  lemma {:induction false} GrowsOnly(m: map<string, nat>, doc: Tokens)
    ensures |Numbered(m, doc)| >= |m|
  {
    if doc != [] { GrowsOnly(m, doc[..|doc| - 1]); }
  }

  lemma KnownExtends(docs: seq<Tokens>, m: map<string, nat>, doc: Tokens, inverted: map<nat, seq<nat>>,
                     dfs: map<nat, nat>)
    requires IsNumbering(m) && AllKnown(docs, m) && NumbersKnown(m, inverted, dfs)
    ensures AllKnown(docs + [doc], Numbered(m, doc)) && NumbersKnown(Numbered(m, doc), inverted, dfs)
  {
    NumberedIsNumbering(m, doc);
    GrowsOnly(m, doc);
  }

  lemma NothingCounted(m: map<string, nat>)
    ensures FreqAgrees([], m, map[])
  {
  }

  /** Counts the tokens of one document. */
  method CountTokens(tokens: seq<nat>, ghost doc: Tokens, ghost m: map<string, nat>) returns (freq: map<nat, nat>)
    requires IsNumbering(m) && |tokens| == |doc|
    requires forall i | 0 <= i < |doc| :: doc[i] in m && tokens[i] == m[doc[i]]
    ensures FreqAgrees(doc, m, freq)
  {
    hide *;
    freq := map[];
    NothingCounted(m);
    for i := 0 to |tokens|
      invariant FreqAgrees(doc[..i], m, freq)
    {
      var t := tokens[i];
      ghost var before, w := doc[..i], doc[i];
      FreqNext(before, w, m, freq);
      assert doc[..i + 1] == before + [w];
      freq := freq[t := (if t in freq then freq[t] else 0) + 1];
    }
    assert doc[..|doc|] == doc;
  }

  lemma FreqNext(doc: Tokens, w: string, m: map<string, nat>, freq: map<nat, nat>)
    requires IsNumbering(m) && w in m && FreqAgrees(doc, m, freq)
    ensures FreqAgrees(doc + [w], m, freq[m[w] := (if m[w] in freq then freq[m[w]] else 0) + 1])
  {
    var t := m[w];
    var freq' := freq[t := (if t in freq then freq[t] else 0) + 1];
    assert (doc + [w])[..|doc|] == doc;
    assert t in freq <==> w in doc;
    CountPositive(doc, w);
    forall v | v in doc + [w] ensures v in m && m[v] in freq' && freq'[m[v]] == CountOf(doc + [w], v) {
      if v != w { assert v in doc && m[v] != t; }
    }
    forall u | u in freq' ensures exists v :: v in doc + [w] && v in m && m[v] == u {
      if u == t { assert w in doc + [w]; }
      else { var v :| v in doc && v in m && m[v] == u; assert v in doc + [w]; }
    }
  }

  lemma TermInFreq(doc: Tokens, m: map<string, nat>, freq: map<nat, nat>, w: string)
    requires IsNumbering(m) && FreqAgrees(doc, m, freq) && w in m
    ensures m[w] in freq <==> w in doc
  {
  }

  lemma FreqKeysKnown(doc: Tokens, m: map<string, nat>, freq: map<nat, nat>)
    requires IsNumbering(m) && FreqAgrees(doc, m, freq)
    ensures forall t | t in freq :: t < |m|
  {
  }

  lemma PostingsNext(docs: seq<Tokens>, doc: Tokens, w: string)
    ensures Postings(docs + [doc], w) == Postings(docs, w) + if w in doc then [|docs|] else []
  {
    assert (docs + [doc])[..|docs|] == docs;
  }

  /** Entering the terms of a document under its number keeps the lists exact. */
  lemma TermsEntered(freq: map<nat, nat>, inverted: map<nat, seq<nat>>, dfs: map<nat, nat>,
                     inverted': map<nat, seq<nat>>, dfs': map<nat, nat>,
                     docs: seq<Tokens>, doc: Tokens, m: map<string, nat>)
    requires IsNumbering(m) && FreqAgrees(doc, m, freq) && ListsAgree(docs, m, inverted, dfs)
    requires forall t :: Listed(inverted', t) == Listed(inverted, t) + if t in freq then [|docs|] else []
    requires forall t :: Frequency(dfs', t) == Frequency(dfs, t) + if t in freq then 1 else 0
    ensures ListsAgree(docs + [doc], m, inverted', dfs')
  {
    hide FreqAgrees, Postings, IsNumbering, Listed, Frequency;
    forall w | w in m
      ensures Listed(inverted', m[w]) == Postings(docs + [doc], w)
        && Frequency(dfs', m[w]) == |Postings(docs + [doc], w)|
    {
      PostingsNext(docs, doc, w);
      TermInFreq(doc, m, freq, w);
    }
  }

  /** Enters the document with number d under each of its terms, taken in any order. */
  method EnterTerms(freq: map<nat, nat>, d: nat, inverted: map<nat, seq<nat>>, dfs: map<nat, nat>,
                    ghost docs: seq<Tokens>, ghost doc: Tokens, ghost m: map<string, nat>)
    returns (inverted': map<nat, seq<nat>>, dfs': map<nat, nat>)
    requires IsNumbering(m) && FreqAgrees(doc, m, freq) && d == |docs|
    requires ListsAgree(docs, m, inverted, dfs) && NumbersKnown(m, inverted, dfs)
    ensures ListsAgree(docs + [doc], m, inverted', dfs') && NumbersKnown(m, inverted', dfs')
  {
    hide FreqAgrees, Postings, IsNumbering, ListsAgree;
    FreqKeysKnown(doc, m, freq);
    inverted', dfs' := inverted, dfs;
    var rest := freq.Keys;
    while rest != {}
      invariant rest <= freq.Keys && NumbersKnown(m, inverted', dfs')
      invariant forall t :: Listed(inverted', t) == Listed(inverted, t) + if t in freq.Keys - rest then [d] else []
      invariant forall t :: Frequency(dfs', t) == Frequency(dfs, t) + if t in freq.Keys - rest then 1 else 0
      decreases rest
    {
      var t :| t in rest;
      rest := rest - {t};
      dfs' := dfs'[t := Frequency(dfs', t) + 1];
      inverted' := inverted'[t := Listed(inverted', t) + [d]];
    }
    TermsEntered(freq, inverted, dfs, inverted', dfs', docs, doc, m);
  }

  /** The parts of the query that the index knows. */
  function Known(query: Tokens, m: map<string, nat>): Tokens {
    if query == [] then []
    else Known(query[..|query| - 1], m) + if query[|query| - 1] in m then [query[|query| - 1]] else []
  }

  lemma {:induction false} KnownExact(query: Tokens, m: map<string, nat>, w: string)
    ensures w in Known(query, m) <==> w in query && w in m
  {
    if query != [] {
      KnownExact(query[..|query| - 1], m, w);
      assert query == query[..|query| - 1] + [query[|query| - 1]];
    }
  }

  /** What one token of the query adds to document d. */
  ghost function Added(p: Params, docs: seq<Tokens>, d: nat, w: string): real
    requires d < |docs|
  {
    if CountOf(docs[d], w) == 0 then 0.0
    else p.TermScore(p.Idf(|docs|, |Postings(docs, w)|), CountOf(docs[d], w), |docs[d]|, Average(Lengths(docs), |docs|))
  }

  lemma ScoreNext(p: Params, docs: seq<Tokens>, d: nat, query: Tokens, w: string)
    requires d < |docs|
    ensures p.Score(docs, d, query + [w]) == p.Score(docs, d, query) + Added(p, docs, d, w)
  {
    assert (query + [w])[..|query|] == query;
  }

  /** Unknown tokens add nothing. */
  lemma {:induction false} KnownScore(p: Params, docs: seq<Tokens>, d: nat, query: Tokens, m: map<string, nat>)
    requires d < |docs| && AllKnown(docs, m)
    ensures p.Score(docs, d, Known(query, m)) == p.Score(docs, d, query)
  {
    if query != [] {
      var front, w := query[..|query| - 1], query[|query| - 1];
      KnownScore(p, docs, d, front, m);
      CountPositive(docs[d], w);
      ScoreNext(p, docs, d, front, w);
      ScoreNext(p, docs, d, Known(front, m), w);
      assert query == front + [w] && Known(front, m) + [] == Known(front, m);
    }
  }

  /** Length and term counts of every document. */
  ghost predicate DocTables(docs: seq<Tokens>, m: map<string, nat>, lengths: seq<nat>, freqs: seq<map<nat, nat>>) {
    && |lengths| == |freqs| == |docs|
    && forall d | 0 <= d < |docs| :: lengths[d] == |docs[d]| && FreqAgrees(docs[d], m, freqs[d])
  }

  lemma DocTablesNext(docs: seq<Tokens>, m: map<string, nat>, lengths: seq<nat>, freqs: seq<map<nat, nat>>,
                      doc: Tokens, m': map<string, nat>, freq: map<nat, nat>)
    requires DocTables(docs, m, lengths, freqs) && FreqAgrees(doc, m', freq)
    requires forall w | w in m :: w in m' && m'[w] == m[w]
    ensures DocTables(docs + [doc], m', lengths + [|doc|], freqs + [freq])
  {
    hide FreqAgrees;
    forall d | 0 <= d < |docs| ensures FreqAgrees(docs[d], m', freqs[d]) {
      FreqExtends(docs[d], m, m', freqs[d]);
    }
  }

  /** Each id is looked up at its last document. */
  ghost predicate IdTables(ids: seq<string>, idMap: map<string, nat>) {
    forall id :: (if id in idMap then Some(idMap[id]) else None) == LastIndex(ids, id)
  }

  lemma IdTablesNext(ids: seq<string>, idMap: map<string, nat>, id: string)
    requires IdTables(ids, idMap)
    ensures IdTables(ids + [id], idMap[id := |ids|])
  {
    assert (ids + [id])[..|ids|] == ids;
  }

  /** The vocabulary and the lengths after one more document. */
  lemma OneMoreDocument(docs: seq<Tokens>, doc: Tokens)
    ensures Vocabulary(docs + [doc]) == Numbered(Vocabulary(docs), doc)
    ensures Lengths(docs + [doc]) == Lengths(docs) + |doc|
  {
    assert (docs + [doc])[..|docs|] == docs;
  }

  function TextsOf(documents: seq<(string, Tokens)>): seq<Tokens> {
    if documents == [] then [] else TextsOf(documents[..|documents| - 1]) + [documents[|documents| - 1].1]
  }

  function IdsOf(documents: seq<(string, Tokens)>): seq<string> {
    if documents == [] then [] else IdsOf(documents[..|documents| - 1]) + [documents[|documents| - 1].0]
  }

  /** What the documents and ids are after some have been entered on top of those before. */
  ghost predicate Entered(docs: seq<Tokens>, ids: seq<string>, docs0: seq<Tokens>, ids0: seq<string>,
                          documents: seq<(string, Tokens)>) {
    docs == docs0 + TextsOf(documents) && ids == ids0 + IdsOf(documents)
  }

  lemma NoneEntered(docs: seq<Tokens>, ids: seq<string>)
    ensures Entered(docs, ids, docs, ids, [])
  {
  }

  lemma OneMoreEntered(docs: seq<Tokens>, ids: seq<string>, docs0: seq<Tokens>, ids0: seq<string>,
                       documents: seq<(string, Tokens)>, next: (string, Tokens))
    requires Entered(docs, ids, docs0, ids0, documents)
    ensures Entered(docs + [next.1], ids + [next.0], docs0, ids0, documents + [next])
  {
    assert (documents + [next])[..|documents|] == documents;
  }

  /** Entering documents puts their texts and ids behind those before, in the order given. */
  lemma EnteredMeaning(docs: seq<Tokens>, ids: seq<string>, docs0: seq<Tokens>, ids0: seq<string>,
                                          documents: seq<(string, Tokens)>)
    requires Entered(docs, ids, docs0, ids0, documents)
    ensures |docs| == |docs0| + |documents| && |ids| == |ids0| + |documents|
    ensures docs[..|docs0|] == docs0 && ids[..|ids0|] == ids0
    ensures forall i | 0 <= i < |documents| ::
      docs[|docs0| + i] == documents[i].1 && ids[|ids0| + i] == documents[i].0
  {
    TextsAndIds(documents);
  }

  lemma {:induction false} TextsAndIds(documents: seq<(string, Tokens)>)
    ensures |TextsOf(documents)| == |IdsOf(documents)| == |documents|
    ensures forall i | 0 <= i < |documents| ::
      TextsOf(documents)[i] == documents[i].1 && IdsOf(documents)[i] == documents[i].0
  {
    if documents != [] { TextsAndIds(documents[..|documents| - 1]); }
  }

  lemma {:induction false} LastIndexInRange(ids: seq<string>, id: string)
    ensures LastIndex(ids, id).Some? ==> LastIndex(ids, id).value < |ids|
  {
    if ids != [] { LastIndexInRange(ids[..|ids| - 1], id); }
  }

  datatype Hit = Hit(d: nat, score: real)

  /** Higher score first; ties stay in the order in which they come. */
  predicate HitBefore(a: Hit, b: Hit) { a.score > b.score }

  lemma HitBeforeIsWeak()
    ensures WeakOrder(HitBefore)
  {
  }

  /** Sorting keeps the hits and their documents apart. */
  lemma RankedHits(hits: seq<Hit>, ranked: seq<Hit>)
    requires multiset(ranked) == multiset(hits)
    requires forall i, j | 0 <= i < j < |hits| :: hits[i].d != hits[j].d
    ensures forall h :: h in ranked <==> h in hits
    ensures forall i, j | 0 <= i < j < |ranked| :: ranked[i].d != ranked[j].d
  {
    RearrangedDistinct(hits, ranked);
    forall h ensures h in ranked <==> h in hits { assert h in ranked <==> h in multiset(ranked); }
    forall i, j | 0 <= i < j < |ranked| ensures ranked[i].d != ranked[j].d {
      assert ranked[i] in hits && ranked[j] in hits;
    }
  }

  /** The tables say what the documents added say, the tokens being numbered by m. */
  ghost predicate Agree(docs: seq<Tokens>, m: map<string, nat>, ids: seq<string>, idMap: map<string, nat>,
                        lengths: seq<nat>,
                        freqs: seq<map<nat, nat>>, inverted: map<nat, seq<nat>>, dfs: map<nat, nat>, total: nat)
  {
    && m == Vocabulary(docs) && IsNumbering(m) && AllKnown(docs, m)
    && |ids| == |docs| && IdTables(ids, idMap) && DocTables(docs, m, lengths, freqs)
    && ListsAgree(docs, m, inverted, dfs) && NumbersKnown(m, inverted, dfs)
    && total == Lengths(docs)
  }

  lemma AgreeNext(docs: seq<Tokens>, m: map<string, nat>, ids: seq<string>, idMap: map<string, nat>, lengths: seq<nat>,
                  freqs: seq<map<nat, nat>>, inverted: map<nat, seq<nat>>, dfs: map<nat, nat>, total: nat,
                  doc: Tokens, id: string, freq: map<nat, nat>, inverted': map<nat, seq<nat>>, dfs': map<nat, nat>)
    requires Agree(docs, m, ids, idMap, lengths, freqs, inverted, dfs, total)
    requires FreqAgrees(doc, Numbered(m, doc), freq)
    requires ListsAgree(docs + [doc], Numbered(m, doc), inverted', dfs')
      && NumbersKnown(Numbered(m, doc), inverted', dfs')
    ensures Agree(docs + [doc], Numbered(m, doc), ids + [id], idMap[id := |ids|], lengths + [|doc|], freqs + [freq],
                  inverted', dfs', total + |doc|)
  {
    hide FreqAgrees, ListsAgree, NumbersKnown, IsNumbering, Numbered;
    hide IdTables, DocTables, Vocabulary, AllKnown, Lengths;
    NumberedIsNumbering(m, doc);
    KnownExtends(docs, m, doc, inverted, dfs);
    OneMoreDocument(docs, doc);
    IdTablesNext(ids, idMap, id);
    DocTablesNext(docs, m, lengths, freqs, doc, Numbered(m, doc), freq);
  }

  /** A document shares a token with a query exactly when it shares one that the index knows. */
  lemma KnownShares(docs: seq<Tokens>, d: nat, query: Tokens, m: map<string, nat>)
    requires d < |docs| && AllKnown(docs, m)
    ensures SharesToken(docs[d], Known(query, m)) <==> SharesToken(docs[d], query)
  {
    forall w ensures w in Known(query, m) <==> w in query && w in m { KnownExact(query, m, w); }
  }

  function WithIds(top: seq<Hit>, ids: seq<string>): seq<(string, real)>
    requires forall h | h in top :: h.d < |ids|
  {
    seq(|top|, i requires 0 <= i < |top| => (ids[top[i].d], top[i].score))
  }

  class Index {
    const p: Params
    var tokenToIdx: map<string, nat>
    var docIdToIdx: map<string, nat>
    var docIds: seq<string>
    var docLengths: seq<nat>
    var docFreqs: seq<map<nat, nat>>
    var termDocFreqs: map<nat, nat>
    var invertedIndex: map<nat, seq<nat>>
    var totalLength: nat
    var totalDocs: nat
    var avgDocLength: real
    ghost var docs: seq<Tokens>

    ghost predicate TablesFor(m: map<string, nat>)
      reads `docIdToIdx, `docIds, `docLengths, `docFreqs, `termDocFreqs, `invertedIndex, `totalLength, `totalDocs, `docs
    {
      Agree(docs, m, docIds, docIdToIdx, docLengths, docFreqs, invertedIndex, termDocFreqs, totalLength)
        && totalDocs == |docs|
    }

    ghost predicate Tables() reads this { TablesFor(tokenToIdx) }

    ghost predicate Valid() reads this { Tables() && avgDocLength == Average(totalLength, totalDocs) }

    constructor (p: Params)
      ensures Valid() && docs == [] && docIds == [] && this.p == p
    {
      this.p := p;
      tokenToIdx, docIdToIdx, docIds, docLengths, docFreqs := map[], map[], [], [], [];
      termDocFreqs, invertedIndex, totalLength, totalDocs, avgDocLength := map[], map[], 0, 0, 0.0;
      docs := [];
    }

    /** Numbers the tokens of a text, giving new tokens new numbers. */
    method TokenizeIndexed(text: Tokens) returns (indices: seq<nat>)
      requires IsNumbering(tokenToIdx)
      modifies `tokenToIdx
      ensures tokenToIdx == Numbered(old(tokenToIdx), text)
      ensures |indices| == |text| && forall i | 0 <= i < |text| ::
        text[i] in tokenToIdx && indices[i] == tokenToIdx[text[i]]
    {
      indices := [];
      for i := 0 to |text|
        invariant tokenToIdx == Numbered(old(tokenToIdx), text[..i])
        invariant |indices| == i
        invariant forall j | 0 <= j < i :: text[j] in tokenToIdx && indices[j] == tokenToIdx[text[j]]
      {
        assert text[..i + 1][..i] == text[..i];
        var w := text[i];
        if w !in tokenToIdx { tokenToIdx := tokenToIdx[w := |tokenToIdx|]; }
        indices := indices + [tokenToIdx[w]];
      }
      assert text[..|text|] == text;
    }

    /** Enters a tokenized document whose tokens have been numbered. */
    method AddDocumentTokens(id: string, tokens: seq<nat>, ghost doc: Tokens, ghost was: map<string, nat>)
      requires TablesFor(was) && tokenToIdx == Numbered(was, doc)
      requires |tokens| == |doc| && forall i | 0 <= i < |doc| :: doc[i] in tokenToIdx && tokens[i] == tokenToIdx[doc[i]]
      modifies this
      ensures Tables() && docs == old(docs) + [doc] && docIds == old(docIds) + [id]
      ensures avgDocLength == old(avgDocLength)
    {
      hide FreqAgrees, ListsAgree, IsNumbering, NumbersKnown, Numbered;
      hide Vocabulary, AllKnown, IdTables, DocTables, Lengths;
      ghost var docs0, numbers := docs, tokenToIdx;
      ListsExtend(docs, was, doc, invertedIndex, termDocFreqs);
      KnownExtends(docs, was, doc, invertedIndex, termDocFreqs);
      var docIdx := |docIds|;
      var freq := CountTokens(tokens, doc, numbers);
      var inverted, dfs := EnterTerms(freq, docIdx, invertedIndex, termDocFreqs, docs0, doc, numbers);
      AgreeNext(docs, was, docIds, docIdToIdx, docLengths, docFreqs, invertedIndex, termDocFreqs, totalLength,
                doc, id, freq, inverted, dfs);
      docIdToIdx := docIdToIdx[id := docIdx];
      docIds := docIds + [id];
      docLengths := docLengths + [|tokens|];
      invertedIndex, termDocFreqs := inverted, dfs;
      docFreqs := docFreqs + [freq];
      totalDocs := totalDocs + 1;
      totalLength := totalLength + |tokens|;
      docs := docs0 + [doc];
    }

    method UpdateAvgLength()
      requires Tables() && (totalDocs == 0 ==> avgDocLength == 0.0)
      modifies `avgDocLength
      ensures Valid()
    {
      if totalDocs > 0 { avgDocLength := totalLength as real / totalDocs as real; }
    }

    method AddDocument(id: string, text: Tokens)
      requires Valid()
      modifies this
      ensures Valid() && docs == old(docs) + [text] && docIds == old(docIds) + [id]
    {
      EnterOne(id, text);
      UpdateAvgLength();
    }

    /** Adds the documents one by one and brings the average up to date once. */
    method AddDocuments(documents: seq<(string, Tokens)>)
      requires Valid()
      modifies this
      ensures Valid()
      ensures Entered(docs, docIds, old(docs), old(docIds), documents)
    {
      assert totalDocs == 0 ==> avgDocLength == 0.0;
      hide Index.TablesFor, Index.Tables, Index.Valid, Agree, Average, Entered;
      NoneEntered(docs, docIds);
      for i := 0 to |documents|
        invariant Tables() && (totalDocs == 0 ==> avgDocLength == 0.0)
        invariant Entered(docs, docIds, old(docs), old(docIds), documents[..i])
      {
        OneMoreEntered(docs, docIds, old(docs), old(docIds), documents[..i], documents[i]);
        assert documents[..i + 1] == documents[..i] + [documents[i]];
        EnterOne(documents[i].0, documents[i].1);
      }
      assert documents[..|documents|] == documents;
      UpdateAvgLength();
    }

    /** Tokenizes and enters one document, leaving the average behind. */
    method EnterOne(id: string, text: Tokens)
      requires Tables()
      modifies this
      ensures Tables() && docs == old(docs) + [text] && docIds == old(docIds) + [id]
      ensures avgDocLength == old(avgDocLength) && totalDocs > 0
    {
      hide Index.TablesFor;
      ghost var was := tokenToIdx;
      NumberingOf();
      var tokens := TokenizeIndexed(text);
      AddDocumentTokens(id, tokens, text, was);
      NumberingOf();
    }

    lemma NumberingOf()
      requires Tables()
      ensures IsNumbering(tokenToIdx) && |docs| == totalDocs
    {
    }

    /** What the tables hold for token w and document d. */
    lemma Lookup(d: nat, w: string)
      requires Valid() && d < |docs|
      ensures |docFreqs| == |docLengths| == |docs| && docLengths[d] == |docs[d]|
        && avgDocLength == Average(Lengths(docs), |docs|)
      ensures w !in tokenToIdx ==> CountOf(docs[d], w) == 0
      ensures w in tokenToIdx ==>
        (tokenToIdx[w] in docFreqs[d] <==> CountOf(docs[d], w) != 0)
        && (tokenToIdx[w] in docFreqs[d] ==> docFreqs[d][tokenToIdx[w]] == CountOf(docs[d], w))
        && Frequency(termDocFreqs, tokenToIdx[w]) == |Postings(docs, w)|
        && Listed(invertedIndex, tokenToIdx[w]) == Postings(docs, w)
      ensures totalDocs == |docs|
    {
      CountPositive(docs[d], w);
      if w in tokenToIdx { TermInFreq(docs[d], tokenToIdx, docFreqs[d], w); }
    }

    /** Sums the terms of the query for one document. */
    method ScoreDoc(d: nat, query: Tokens) returns (score: real)
      requires Valid() && d < |docs|
      ensures score == p.Score(docs, d, query)
    {
      hide Index.Valid, Params.TermScore, Params.Idf, Postings;
      score := 0.0;
      Nothing(d);
      for i := 0 to |query|
        invariant score == p.Score(docs, d, query[..i])
      {
        var w := query[i];
        Lookup(d, w);
        ScoreNext(p, docs, d, query[..i], w);
        assert query[..i + 1] == query[..i] + [w];
        if w !in tokenToIdx { continue; }
        var t := tokenToIdx[w];
        if t !in docFreqs[d] { continue; }
        var idf := p.Idf(totalDocs, Frequency(termDocFreqs, t));
        score := score + p.TermScore(idf, docFreqs[d][t], docLengths[d], avgDocLength);
      }
      assert query[..|query|] == query;
    }

    lemma Nothing(d: nat)
      requires d < |docs|
      ensures p.Score(docs, d, []) == 0.0
    {
    }

    lemma IdLookup(id: string)
      requires Valid()
      ensures (if id in docIdToIdx then Some(docIdToIdx[id]) else None) == LastIndex(docIds, id)
      ensures id in docIdToIdx ==> docIdToIdx[id] < |docs|
    {
      LastIndexInRange(docIds, id);
    }

    /** The score of the document last added under an id, and 0 for an unknown id. */
    method Score(query: Tokens, id: string) returns (score: real)
      requires Valid()
      ensures match LastIndex(docIds, id)
              case None => score == 0.0
              case Some(d) => d < |docs| && score == p.Score(docs, d, query)
    {
      IdLookup(id);
      if id !in docIdToIdx { return 0.0; }
      score := ScoreDoc(docIdToIdx[id], query);
    }

    /** The numbers of the query's tokens that the index knows. */
    method ResolveQuery(query: Tokens) returns (indices: seq<nat>, ghost known: Tokens)
      requires Valid()
      ensures known == Known(query, tokenToIdx) && |indices| == |known|
      ensures forall i | 0 <= i < |known| :: known[i] in tokenToIdx && indices[i] == tokenToIdx[known[i]]
    {
      indices, known := [], [];
      for i := 0 to |query|
        invariant known == Known(query[..i], tokenToIdx) && |indices| == |known|
        invariant forall j | 0 <= j < |known| :: known[j] in tokenToIdx && indices[j] == tokenToIdx[known[j]]
      {
        assert query[..i + 1][..i] == query[..i];
        if query[i] in tokenToIdx { indices, known := indices + [tokenToIdx[query[i]]], known + [query[i]]; }
      }
      assert query[..|query|] == query;
    }

    /** The documents that the posting lists give for the query. */
    method GatherCandidates(indices: seq<nat>, ghost known: Tokens) returns (candidates: set<nat>)
      requires Valid() && |indices| == |known|
      requires forall i | 0 <= i < |known| :: known[i] in tokenToIdx && indices[i] == tokenToIdx[known[i]]
      ensures forall d: nat :: d in candidates <==> d < |docs| && SharesToken(docs[d], known)
    {
      hide Index.Valid;
      candidates := {};
      for i := 0 to |indices|
        invariant forall d: nat :: d in candidates <==> d < |docs| && SharesToken(docs[d], known[..i])
      {
        ghost var w := known[i];
        assert known[..i + 1] == known[..i] + [w];
        ListedExactly(w);
        var listed := Listed(invertedIndex, indices[i]);
        candidates := candidates + set d | d in listed;
      }
      assert known[..|known|] == known;
    }

    lemma ListedExactly(w: string)
      requires Valid() && w in tokenToIdx
      ensures forall d: nat :: d in Listed(invertedIndex, tokenToIdx[w]) <==> d < |docs| && w in docs[d]
    {
      forall d: nat ensures d in Postings(docs, w) <==> d < |docs| && w in docs[d] { PostingsExact(docs, w, d); }
    }

    method PrecomputeIdfs(indices: seq<nat>) returns (idfs: seq<real>)
      ensures |idfs| == |indices|
      ensures forall i | 0 <= i < |indices| :: idfs[i] == p.Idf(totalDocs, Frequency(termDocFreqs, indices[i]))
    {
      idfs := [];
      for i := 0 to |indices|
        invariant |idfs| == i
        invariant forall j | 0 <= j < i :: idfs[j] == p.Idf(totalDocs, Frequency(termDocFreqs, indices[j]))
      {
        idfs := idfs + [p.Idf(totalDocs, Frequency(termDocFreqs, indices[i]))];
      }
    }

    /** Scores a candidate from the resolved tokens and the logarithms computed beforehand. */
    method ScoreCandidate(d: nat, indices: seq<nat>, idfs: seq<real>, ghost known: Tokens) returns (score: real)
      requires Valid() && d < |docs| && |indices| == |known| == |idfs|
      requires forall i | 0 <= i < |known| :: known[i] in tokenToIdx && indices[i] == tokenToIdx[known[i]]
      requires forall i | 0 <= i < |indices| :: idfs[i] == p.Idf(totalDocs, Frequency(termDocFreqs, indices[i]))
      ensures score == p.Score(docs, d, known)
    {
      hide Index.Valid, Params.TermScore, Params.Idf, Postings;
      score := 0.0;
      Nothing(d);
      for i := 0 to |indices|
        invariant score == p.Score(docs, d, known[..i])
      {
        Lookup(d, known[i]);
        ScoreNext(p, docs, d, known[..i], known[i]);
        assert known[..i + 1] == known[..i] + [known[i]];
        var t := indices[i];
        if t !in docFreqs[d] { continue; }
        score := score + p.TermScore(idfs[i], docFreqs[d][t], docLengths[d], avgDocLength);
      }
      assert known[..|known|] == known;
    }

    /** Whether document d is a result of the query. */
    ghost predicate Qualifies(d: nat, query: Tokens, minScore: real)
      reads `docs
    {
      d < |docs| && SharesToken(docs[d], query) && p.Score(docs, d, query) >= minScore
    }

    /** The hits are the qualifying documents, each once and with its score. */
    ghost predicate HitsOf(hits: seq<Hit>, query: Tokens, minScore: real)
      reads `docs
    {
      && (forall h | h in hits :: Qualifies(h.d, query, minScore) && h.score == p.Score(docs, h.d, query))
      && (forall d | Qualifies(d, query, minScore) :: Hit(d, p.Score(docs, d, query)) in hits)
      && (forall i, j | 0 <= i < j < |hits| :: hits[i].d != hits[j].d)
    }

    /** The scores of the candidates that reach the minimum, in the order in which the set hands them out. */
    method ScoreCandidates(candidates: set<nat>, indices: seq<nat>, idfs: seq<real>, minScore: real,
                           ghost known: Tokens)
      returns (hits: seq<Hit>)
      requires Valid() && |indices| == |known| == |idfs|
      requires forall i | 0 <= i < |known| :: known[i] in tokenToIdx && indices[i] == tokenToIdx[known[i]]
      requires forall i | 0 <= i < |indices| :: idfs[i] == p.Idf(totalDocs, Frequency(termDocFreqs, indices[i]))
      requires forall d: nat :: d in candidates <==> d < |docs| && SharesToken(docs[d], known)
      ensures HitsOf(hits, known, minScore)
    {
      hide Index.Valid, Params.Score, SharesToken, Params.Idf;
      hits := [];
      var rest := candidates;
      while rest != {}
        invariant rest <= candidates
        invariant forall h | h in hits :: h.d in candidates - rest && h.score == p.Score(docs, h.d, known) >= minScore
        invariant forall d | d in candidates - rest && p.Score(docs, d, known) >= minScore ::
          Hit(d, p.Score(docs, d, known)) in hits
        invariant forall i, j | 0 <= i < j < |hits| :: hits[i].d != hits[j].d
        decreases rest
      {
        var d :| d in rest;
        rest := rest - {d};
        var score := ScoreCandidate(d, indices, idfs, known);
        if score >= minScore { hits := hits + [Hit(d, score)]; }
      }
    }

    /** Dropping the unknown tokens of the query changes neither who qualifies nor the scores. */
    lemma KnownHits(hits: seq<Hit>, query: Tokens, minScore: real)
      requires Valid() && HitsOf(hits, Known(query, tokenToIdx), minScore)
      ensures HitsOf(hits, query, minScore)
    {
      var known := Known(query, tokenToIdx);
      forall d: nat | d < |docs|
        ensures Qualifies(d, query, minScore) <==> Qualifies(d, known, minScore)
        ensures p.Score(docs, d, query) == p.Score(docs, d, known)
      {
        KnownShares(docs, d, query, tokenToIdx);
        KnownScore(p, docs, d, query, tokenToIdx);
      }
    }

    ghost function Qualifying(query: Tokens, minScore: real): (members: set<nat>)
      reads `docs
      ensures forall d | d in members :: d < |docs|
    {
      set d: nat | d < |docs| && Qualifies(d, query, minScore)
    }

    /** The documents that reach the minimum, whether they share a token with the query or not. */
    ghost function Reaching(query: Tokens, minScore: real): (members: set<nat>)
      reads `docs
      ensures forall d | d in members :: d < |docs|
    {
      set d: nat | d < |docs| && p.Score(docs, d, query) >= minScore
    }

    /** The best of the members: at most limit, in falling order, and nothing better left out. */
    ghost predicate BestAmong(found: seq<nat>, query: Tokens, limit: nat, members: set<nat>)
      requires forall d | d in members :: d < |docs|
      reads `docs
    {
      && |found| <= limit && (forall d | d in found :: d in members)
      && (forall i, j | 0 <= i < j < |found| ::
            found[i] in members && found[j] in members && found[i] != found[j]
            && p.Score(docs, found[i], query) >= p.Score(docs, found[j], query))
      && (forall d | d in members && d !in found ::
            |found| == limit && forall f | f in found ::
              f in members && p.Score(docs, f, query) >= p.Score(docs, d, query))
    }

    /** The best hits. */
    ghost predicate BestOf(found: seq<nat>, query: Tokens, limit: nat, minScore: real)
      reads `docs
    {
      BestAmong(found, query, limit, Qualifying(query, minScore))
    }

    /** The same over all documents. */
    ghost predicate BestOfAll(found: seq<nat>, query: Tokens, limit: nat, minScore: real)
      reads `docs
    {
      BestAmong(found, query, limit, Reaching(query, minScore))
    }

    /** The front of the ranked hits. */
    lemma FrontIsBest(hits: seq<Hit>, ranked: seq<Hit>, found: seq<nat>, query: Tokens, limit: nat, minScore: real)
      requires HitsOf(hits, query, minScore) && SortedBy(HitBefore, ranked)
      requires forall h :: h in ranked <==> h in hits
      requires forall i, j | 0 <= i < j < |ranked| :: ranked[i].d != ranked[j].d
      requires |found| == if |ranked| <= limit then |ranked| else limit
      requires forall i | 0 <= i < |found| :: found[i] == ranked[i].d
      ensures BestOf(found, query, limit, minScore)
    {
      hide Params.Score, SharesToken, SortedBy;
      var members := Qualifying(query, minScore);
      forall i | 0 <= i < |ranked|
        ensures ranked[i].d in members && ranked[i].score == p.Score(docs, ranked[i].d, query)
      {
        assert ranked[i] in hits;
      }
      forall d | d in members
        ensures Hit(d, p.Score(docs, d, query)) in ranked
      {
        assert Qualifies(d, query, minScore);
      }
      forall i, j | 0 <= i < j < |ranked| ensures ranked[i].score >= ranked[j].score { InOrder(ranked, i, j); }
      RankedFront(ranked, found, query, limit, members);
    }

    lemma RankedFront(ranked: seq<Hit>, found: seq<nat>, query: Tokens, limit: nat, members: set<nat>)
      requires forall d | d in members :: d < |docs| && Hit(d, p.Score(docs, d, query)) in ranked
      requires forall i | 0 <= i < |ranked| ::
        ranked[i].d in members && ranked[i].score == p.Score(docs, ranked[i].d, query)
      requires forall i, j | 0 <= i < j < |ranked| :: ranked[i].d != ranked[j].d && ranked[i].score >= ranked[j].score
      requires |found| == if |ranked| <= limit then |ranked| else limit
      requires forall i | 0 <= i < |found| :: found[i] == ranked[i].d
      ensures BestAmong(found, query, limit, members)
    {
      hide Params.Score;
      forall d | d in members && d !in found
        ensures |found| == limit && forall f | f in found ::
          f in members && p.Score(docs, f, query) >= p.Score(docs, d, query)
      {
        var j :| 0 <= j < |ranked| && ranked[j] == Hit(d, p.Score(docs, d, query));
        assert j >= |found|;
        forall f | f in found ensures f in members && p.Score(docs, f, query) >= p.Score(docs, d, query) {
          var i :| 0 <= i < |found| && found[i] == f;
          assert ranked[i].score >= ranked[j].score;
        }
      }
    }

    lemma InOrder(ranked: seq<Hit>, i: nat, j: nat)
      requires SortedBy(HitBefore, ranked) && i < j < |ranked|
      ensures ranked[i].score >= ranked[j].score
    {
      assert !HitBefore(ranked[j], ranked[i]);
    }

    /** Without a known token no document shares a token with the query. */
    lemma NothingKnown(query: Tokens, limit: nat, minScore: real)
      requires Valid() && (query == [] || Known(query, tokenToIdx) == [])
      ensures BestOf([], query, limit, minScore)
    {
      hide Params.Score;
      forall d: nat | d < |docs| ensures !SharesToken(docs[d], query) {
        if query != [] { KnownShares(docs, d, query, tokenToIdx); }
      }
      assert Qualifying(query, minScore) == {};
    }

    /** The results are the ids and scores of the documents found. */
    ghost predicate Reports(results: seq<(string, real)>, found: seq<nat>, query: Tokens)
      reads `docs, `docIds
    {
      && |results| == |found| && |docs| == |docIds|
      && forall i | 0 <= i < |found| ::
           found[i] < |docs| && results[i] == (docIds[found[i]], p.Score(docs, found[i], query))
    }

    /** The results report the best qualifying documents, and for a positive minimum the best of all. */
    ghost predicate IsAnswer(results: seq<(string, real)>, found: seq<nat>, query: Tokens, limit: nat, minScore: real)
      reads `docs, `docIds
    {
      && BestOf(found, query, limit, minScore) && Reports(results, found, query)
      && (minScore > 0.0 ==> BestOfAll(found, query, limit, minScore))
    }

    lemma NothingFound(query: Tokens, limit: nat, minScore: real)
      requires Valid() && (query == [] || Known(query, tokenToIdx) == [])
      ensures IsAnswer([], [], query, limit, minScore)
    {
      NothingKnown(query, limit, minScore);
      if minScore > 0.0 { PositiveMinimum([], query, limit, minScore); }
    }

    /** An answer written out: at most limit results, of different documents, in falling order of score, each with a
        token of the query and a score that reaches the minimum; and any other such document is left out only
        because there are limit results, none of a lower score. */
    lemma AnswerMeaning(results: seq<(string, real)>, found: seq<nat>, query: Tokens, limit: nat, minScore: real)
      requires IsAnswer(results, found, query, limit, minScore)
      ensures |results| == |found| <= limit
      ensures forall i | 0 <= i < |found| ::
        && found[i] < |docs| == |docIds| && results[i].0 == docIds[found[i]]
        && results[i].1 == p.Score(docs, found[i], query) >= minScore
        && exists w :: w in query && w in docs[found[i]]
      ensures forall i, j | 0 <= i < j < |found| :: found[i] != found[j] && results[i].1 >= results[j].1
      ensures forall d: nat | d < |docs| && d !in found && (exists w :: w in query && w in docs[d])
                              && p.Score(docs, d, query) >= minScore ::
        |results| == limit && forall i | 0 <= i < |results| :: results[i].1 >= p.Score(docs, d, query)
    {
      hide Params.Score;
      var members := Qualifying(query, minScore);
      forall i | 0 <= i < |found|
        ensures found[i] < |docs| && Qualifies(found[i], query, minScore)
      {
        assert found[i] in members;
      }
      forall d: nat | d < |docs| && d !in found && (exists w :: w in query && w in docs[d])
                      && p.Score(docs, d, query) >= minScore
        ensures |results| == limit && forall i | 0 <= i < |results| :: results[i].1 >= p.Score(docs, d, query)
      {
        assert Qualifies(d, query, minScore) && d in members;
        forall i | 0 <= i < |results| ensures results[i].1 >= p.Score(docs, d, query) { assert found[i] in found; }
      }
    }

    /** The ids and scores of the best documents for the query, at most limit of them. */
    method Search(query: Tokens, limit: nat, minScore: real) returns (results: seq<(string, real)>)
      requires Valid()
      ensures exists found :: IsAnswer(results, found, query, limit, minScore)
    {
      hide Index.Valid, Params.Score, Params.Idf, Sort, Known;
      hide Index.HitsOf, Index.BestOf, Index.BestOfAll, SharesToken, HitBefore;
      if query == [] { NothingFound(query, limit, minScore); return []; }
      var indices, known := ResolveQuery(query);
      if indices == [] { NothingFound(query, limit, minScore); return []; }
      var candidates := GatherCandidates(indices, known);
      var idfs := PrecomputeIdfs(indices);
      var hits := ScoreCandidates(candidates, indices, idfs, minScore, known);
      KnownHits(hits, query, minScore);
      var ranked := Sort(HitBefore, hits);
      var top := if |ranked| <= limit then ranked else ranked[..limit];
      ghost var found := seq(|top|, i requires 0 <= i < |top| => top[i].d);
      HitBeforeIsWeak();
      SortSorts(HitBefore, hits);
      RankedHits(hits, ranked);
      FrontIsBest(hits, ranked, found, query, limit, minScore);
      RankedScores(hits, query, minScore);
      results := WithIds(top, docIds);
      if minScore > 0.0 { PositiveMinimum(found, query, limit, minScore); }
      assert IsAnswer(results, found, query, limit, minScore);
    }

    lemma RankedScores(hits: seq<Hit>, query: Tokens, minScore: real)
      requires Valid() && HitsOf(hits, query, minScore)
      ensures |docs| == |docIds|
      ensures forall h | h in Sort(HitBefore, hits) :: h.d < |docs| && h.score == p.Score(docs, h.d, query)
    {
      var ranked := Sort(HitBefore, hits);
      forall h | h in ranked ensures h in hits { assert h in multiset(ranked); }
    }

    /** For a positive minimum the two are the same, as a document without a shared token scores 0. */
    lemma PositiveMinimum(found: seq<nat>, query: Tokens, limit: nat, minScore: real)
      requires minScore > 0.0
      ensures BestOf(found, query, limit, minScore) <==> BestOfAll(found, query, limit, minScore)
    {
      hide Params.Score, SharesToken, Index.BestAmong;
      forall d: nat | d < |docs| ensures Qualifies(d, query, minScore) <==> p.Score(docs, d, query) >= minScore {
        if !SharesToken(docs[d], query) { NoTokenNoScore(p, docs, d, query); }
      }
      assert Qualifying(query, minScore) == Reaching(query, minScore);
    }

    /** With room for all documents, the best of the members are all of them. */
    lemma RoomForAll(found: seq<nat>, query: Tokens, limit: nat, members: set<nat>)
      requires (forall d | d in members :: d < |docs|) && BestAmong(found, query, limit, members) && |docs| <= limit
      ensures forall d :: d in found <==> d in members
    {
      hide Params.Score;
      forall d | d in members ensures d in found {
        if d !in found { RoomForMore(found, |docs|, d); }
      }
    }

    /** With room for all documents, a search finds every document whose score reaches the minimum exactly
        when the minimum is positive or every document shares a token with the query. */
    lemma NothingMissedExactly(found: seq<nat>, query: Tokens, limit: nat, minScore: real)
      requires BestOf(found, query, limit, minScore) && |docs| <= limit
      ensures (forall d: nat | d < |docs| && p.Score(docs, d, query) >= minScore :: d in found)
              <==> (minScore > 0.0 || forall d: nat | d < |docs| :: SharesToken(docs[d], query))
    {
      hide Params.Score, SharesToken, Index.BestAmong;
      RoomForAll(found, query, limit, Qualifying(query, minScore));
      forall d: nat | d < |docs|
        ensures d in found <==> SharesToken(docs[d], query) && p.Score(docs, d, query) >= minScore
      {
        assert d in Qualifying(query, minScore) <==> Qualifies(d, query, minScore);
      }
      forall d: nat | d < |docs| && !SharesToken(docs[d], query) ensures p.Score(docs, d, query) == 0.0 {
        NoTokenNoScore(p, docs, d, query);
      }
      if d: nat :| d < |docs| && !SharesToken(docs[d], query) && minScore <= 0.0 {
        assert p.Score(docs, d, query) >= minScore && d !in found;
      }
    }

    /** A search for one of two words with minimum 0, although the other document scores 0 as well. */
    lemma MissedDocument(found: seq<nat>)
      requires docs == [["apple"], ["pear"]] && BestOf(found, ["apple"], 10, 0.0)
      ensures p.Score(docs, 1, ["apple"]) == 0.0 && 1 !in found && |found| < 10
    {
      hide Params.Score;
      assert "pear" != "apple" by { assert "pear"[0] != "apple"[0]; }
      assert !SharesToken(docs[1], ["apple"]);
      NoTokenNoScore(p, docs, 1, ["apple"]);
      assert !Qualifies(1, ["apple"], 0.0);
      RoomForMore(found, 2, 1);
    }
  }

  lemma FreqDetermined(doc: Tokens, m: map<string, nat>, freq: map<nat, nat>, freq': map<nat, nat>)
    requires FreqAgrees(doc, m, freq) && FreqAgrees(doc, m, freq')
    ensures freq == freq'
  {
    forall t ensures t in freq <==> t in freq' {
      if t in freq { var w :| w in doc && w in m && m[w] == t; }
      if t in freq' { var w :| w in doc && w in m && m[w] == t; }
    }
    forall t | t in freq ensures freq[t] == freq'[t] { var w :| w in doc && w in m && m[w] == t; }
  }

  /** The documents and their ids determine everything the index holds, so it makes no difference whether
      they were added one at a time or together. */
  lemma DeterminedByDocuments(a: Index, b: Index)
    requires a.Valid() && b.Valid() && a.docs == b.docs && a.docIds == b.docIds
    ensures a.tokenToIdx == b.tokenToIdx && a.docIdToIdx == b.docIdToIdx
    ensures a.docLengths == b.docLengths && a.docFreqs == b.docFreqs
    ensures a.totalDocs == b.totalDocs && a.totalLength == b.totalLength && a.avgDocLength == b.avgDocLength
    ensures forall w | w in a.tokenToIdx ::
      Listed(a.invertedIndex, a.tokenToIdx[w]) == Listed(b.invertedIndex, a.tokenToIdx[w])
      && Frequency(a.termDocFreqs, a.tokenToIdx[w]) == Frequency(b.termDocFreqs, a.tokenToIdx[w])
  {
    hide FreqAgrees, Vocabulary, IsNumbering, AllKnown, NumbersKnown, Postings;
    forall d: nat | d < |a.docs| ensures a.docFreqs[d] == b.docFreqs[d] {
      FreqDetermined(a.docs[d], a.tokenToIdx, a.docFreqs[d], b.docFreqs[d]);
    }
    IdsDetermined(a.docIds, a.docIdToIdx, b.docIdToIdx);
  }

  lemma IdsDetermined(ids: seq<string>, idMap: map<string, nat>, idMap': map<string, nat>)
    requires IdTables(ids, idMap) && IdTables(ids, idMap')
    ensures idMap == idMap'
  {
    hide LastIndex;
    forall id ensures id in idMap <==> id in idMap' && (id in idMap ==> idMap[id] == idMap'[id]) {
      assert (if id in idMap then Some(idMap[id]) else None) == LastIndex(ids, id);
    }
  }
}
