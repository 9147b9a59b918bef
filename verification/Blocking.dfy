/** Cutting names into tokens, and scoring the pairs of rows whose names share the start of a token. */
module Blocking {
  import opened Sorting
  import opened Vectors

  /** What the character tables say; a character may have several characters as its lower-case form. */
  datatype Alphabet = Alphabet(isAlnum: char -> bool, lower: char -> string)

  const TOKEN_PREFIX_LEN := 3

  function Lowered(c: Alphabet, s: string): string {
    if s == [] then [] else Lowered(c, s[..|s| - 1]) + c.lower(s[|s| - 1])
  }

  // ---------- tokens ----------

  /** name[a..b] is a maximal run of alphanumeric characters. */
  ghost predicate IsRun(c: Alphabet, name: string, a: nat, b: nat) {
    && a < b <= |name| && (forall k | a <= k < b :: c.isAlnum(name[k]))
    && (a == 0 || !c.isAlnum(name[a - 1])) && (b == |name| || !c.isAlnum(name[b]))
  }

  /** Where the run that reaches up to i starts; i itself when there is none. */
  function OpenAt(c: Alphabet, name: string, i: nat): (a: nat)
    requires i <= |name|
    ensures a <= i && (forall k | a <= k < i :: c.isAlnum(name[k])) && (a == 0 || !c.isAlnum(name[a - 1]))
  {
    if i == 0 || !c.isAlnum(name[i - 1]) then i else OpenAt(c, name, i - 1)
  }

  /** The runs that have ended before i. */
  function ClosedBefore(c: Alphabet, name: string, i: nat): seq<(nat, nat)>
    requires i <= |name|
  {
    if i == 0 then []
    else if c.isAlnum(name[i - 1]) then ClosedBefore(c, name, i - 1)
    else ClosedBefore(c, name, i - 1) + RunBetween(OpenAt(c, name, i - 1), i - 1)
  }

  function RunBetween(a: nat, b: nat): seq<(nat, nat)> { if a < b then [(a, b)] else [] }

  function Runs(c: Alphabet, name: string): seq<(nat, nat)> {
    ClosedBefore(c, name, |name|) + RunBetween(OpenAt(c, name, |name|), |name|)
  }

  /** A run is found from where it ends. */
  lemma RunEndingAt(c: Alphabet, name: string, a: nat, b: nat)
    requires b <= |name| && (b == |name| || !c.isAlnum(name[b]))
    ensures IsRun(c, name, a, b) <==> a == OpenAt(c, name, b) && a < b
  {
    var o := OpenAt(c, name, b);
    if IsRun(c, name, a, b) {
      assert o == 0 || !c.isAlnum(name[o - 1]);
      assert a == 0 || !c.isAlnum(name[a - 1]);
    }
  }

  lemma {:induction false} ClosedExact(c: Alphabet, name: string, i: nat, a: nat, b: nat)
    requires i <= |name|
    ensures (a, b) in ClosedBefore(c, name, i) <==> b < i && IsRun(c, name, a, b)
  {
    hide OpenAt;
    if i > 0 {
      ClosedExact(c, name, i - 1, a, b);
      if !c.isAlnum(name[i - 1]) { RunEndingAt(c, name, a, i - 1); }
    }
  }

  /** From left to right with a gap in between. */
  ghost predicate InOrder(runs: seq<(nat, nat)>) {
    forall k, l | 0 <= k < l < |runs| :: runs[k].1 < runs[l].0
  }

  lemma OneMoreRun(c: Alphabet, name: string, i: nat)
    requires i <= |name| && InOrder(ClosedBefore(c, name, i))
    ensures InOrder(ClosedBefore(c, name, i) + RunBetween(OpenAt(c, name, i), i))
  {
    var runs, o := ClosedBefore(c, name, i), OpenAt(c, name, i);
    forall k | 0 <= k < |runs| ensures o < i ==> runs[k].1 < o {
      ClosedExact(c, name, i, runs[k].0, runs[k].1);
      assert runs[k] == (runs[k].0, runs[k].1) && runs[k] in runs;
    }
  }

  lemma {:induction false} ClosedInOrder(c: Alphabet, name: string, i: nat)
    requires i <= |name|
    ensures InOrder(ClosedBefore(c, name, i))
  {
    hide OpenAt;
    if i > 0 {
      ClosedInOrder(c, name, i - 1);
      OneMoreRun(c, name, i - 1);
    }
  }

  /** The runs listed are exactly the maximal alphanumeric runs, from left to right. */
  lemma RunsExact(c: Alphabet, name: string)
    ensures forall a: nat, b: nat :: (a, b) in Runs(c, name) <==> IsRun(c, name, a, b)
    ensures InOrder(Runs(c, name))
  {
    ClosedInOrder(c, name, |name|);
    OneMoreRun(c, name, |name|);
    forall a: nat, b: nat ensures (a, b) in Runs(c, name) <==> IsRun(c, name, a, b) {
      ClosedExact(c, name, |name|, a, b);
      RunEndingAt(c, name, a, |name|);
    }
  }

  /** The lower-case runs of two characters or more. */
  function Kept(c: Alphabet, name: string, runs: seq<(nat, nat)>): seq<string>
    requires forall k | 0 <= k < |runs| :: runs[k].0 <= runs[k].1 <= |name|
  {
    if runs == [] then []
    else
      var (a, b) := runs[|runs| - 1];
      Kept(c, name, runs[..|runs| - 1]) + IfLong(Lowered(c, name[a..b]))
  }

  function IfLong(token: string): seq<string> { if |token| >= 2 then [token] else [] }

  lemma {:induction false} ClosedInRange(c: Alphabet, name: string, i: nat)
    requires i <= |name|
    ensures forall k | 0 <= k < |ClosedBefore(c, name, i)| ::
      ClosedBefore(c, name, i)[k].0 < ClosedBefore(c, name, i)[k].1 <= |name|
  {
    if i > 0 { ClosedInRange(c, name, i - 1); }
  }

  lemma RunsInRange(c: Alphabet, name: string)
    ensures forall k | 0 <= k < |Runs(c, name)| :: Runs(c, name)[k].0 < Runs(c, name)[k].1 <= |name|
  {
    ClosedInRange(c, name, |name|);
  }

  function Tokens(c: Alphabet, name: string): seq<string> {
    RunsInRange(c, name);
    Kept(c, name, Runs(c, name))
  }

  /** The tokens are exactly the lower-case forms, if long enough, of the maximal alphanumeric runs. */
  lemma {:induction false} KeptExact(c: Alphabet, name: string, runs: seq<(nat, nat)>, t: string)
    requires forall k | 0 <= k < |runs| :: runs[k].0 <= runs[k].1 <= |name|
    ensures t in Kept(c, name, runs)
        <==> |t| >= 2 && exists r :: r in runs && r.0 <= r.1 <= |name| && t == Lowered(c, name[r.0..r.1])
  {
    hide Lowered;
    if runs != [] {
      var front, last := runs[..|runs| - 1], runs[|runs| - 1];
      KeptExact(c, name, front, t);
      assert runs == front + [last];
      assert t in Kept(c, name, runs)
          <==> t in Kept(c, name, front) || (|t| >= 2 && t == Lowered(c, name[last.0..last.1]));
    }
  }

  lemma TokensExact(c: Alphabet, name: string, t: string)
    ensures t in Tokens(c, name) <==>
      |t| >= 2 && exists a: nat, b: nat :: IsRun(c, name, a, b) && t == Lowered(c, name[a..b])
  {
    RunsExact(c, name);
    RunsInRange(c, name);
    KeptExact(c, name, Runs(c, name), t);
    if |t| >= 2 && exists a: nat, b: nat :: IsRun(c, name, a, b) && t == Lowered(c, name[a..b]) {
      var a: nat, b: nat :| IsRun(c, name, a, b) && t == Lowered(c, name[a..b]);
      var r := (a, b);
      assert r in Runs(c, name) && t == Lowered(c, name[r.0..r.1]);
    }
    if t in Tokens(c, name) {
      var r :| r in Runs(c, name) && r.0 <= r.1 <= |name| && t == Lowered(c, name[r.0..r.1]);
      assert (r.0, r.1) in Runs(c, name);
    }
  }

  lemma LoweredNext(c: Alphabet, name: string, a: nat, i: nat)
    requires a <= i < |name|
    ensures Lowered(c, name[a..i + 1]) == Lowered(c, name[a..i]) + c.lower(name[i])
  {
    assert name[a..i + 1] == name[a..i] + [name[i]];
  }

  lemma KeptNext(c: Alphabet, name: string, runs: seq<(nat, nat)>, a: nat, b: nat)
    requires forall k | 0 <= k < |runs| :: runs[k].0 <= runs[k].1 <= |name|
    requires a <= b <= |name|
    ensures forall k | 0 <= k < |runs + RunBetween(a, b)| ::
      (runs + RunBetween(a, b))[k].0 <= (runs + RunBetween(a, b))[k].1 <= |name|
    ensures Kept(c, name, runs + RunBetween(a, b)) == Kept(c, name, runs) + IfLong(Lowered(c, name[a..b]))
  {
    if a < b { assert (runs + [(a, b)])[..|runs|] == runs; }
    else { assert runs + [] == runs && name[a..b] == []; }
  }

  lemma OneMoreCharacter(c: Alphabet, name: string, i: nat)
    requires i < |name|
    ensures c.isAlnum(name[i]) ==>
      OpenAt(c, name, i + 1) == OpenAt(c, name, i) && ClosedBefore(c, name, i + 1) == ClosedBefore(c, name, i)
    ensures !c.isAlnum(name[i]) ==>
      OpenAt(c, name, i + 1) == i + 1
        && ClosedBefore(c, name, i + 1) == ClosedBefore(c, name, i) + RunBetween(OpenAt(c, name, i), i)
  {
  }

  lemma NoCharacter(c: Alphabet, name: string, i: nat)
    requires i <= |name|
    ensures name[i..i] == [] && Lowered(c, name[i..i]) == []
    ensures OpenAt(c, name, 0) == 0 && ClosedBefore(c, name, 0) == [] && Kept(c, name, []) == []
  {
  }

  ghost predicate InRange(name: string, runs: seq<(nat, nat)>) {
    forall k | 0 <= k < |runs| :: runs[k].0 <= runs[k].1 <= |name|
  }

  /** An alphanumeric character goes on with the run. */
  lemma RunGoesOn(c: Alphabet, name: string, i: nat)
    requires i < |name| && c.isAlnum(name[i])
    ensures ClosedBefore(c, name, i + 1) == ClosedBefore(c, name, i)
    ensures Lowered(c, name[OpenAt(c, name, i + 1)..i + 1])
         == Lowered(c, name[OpenAt(c, name, i)..i]) + c.lower(name[i])
  {
    OneMoreCharacter(c, name, i);
    LoweredNext(c, name, OpenAt(c, name, i), i);
  }

  /** Any other ends it. */
  lemma RunEnds(c: Alphabet, name: string, i: nat)
    requires i < |name| && !c.isAlnum(name[i]) && InRange(name, ClosedBefore(c, name, i))
    ensures InRange(name, ClosedBefore(c, name, i + 1))
    ensures Kept(c, name, ClosedBefore(c, name, i + 1))
         == Kept(c, name, ClosedBefore(c, name, i)) + IfLong(Lowered(c, name[OpenAt(c, name, i)..i]))
    ensures Lowered(c, name[OpenAt(c, name, i + 1)..i + 1]) == []
  {
    hide OpenAt, ClosedBefore, Kept, Lowered;
    OneMoreCharacter(c, name, i);
    NoCharacter(c, name, i + 1);
    KeptNext(c, name, ClosedBefore(c, name, i), OpenAt(c, name, i), i);
  }

  lemma LastRunEnds(c: Alphabet, name: string)
    requires InRange(name, ClosedBefore(c, name, |name|))
    ensures Tokens(c, name)
         == Kept(c, name, ClosedBefore(c, name, |name|)) + IfLong(Lowered(c, name[OpenAt(c, name, |name|)..|name|]))
  {
    hide OpenAt, ClosedBefore, Kept, Lowered;
    KeptNext(c, name, ClosedBefore(c, name, |name|), OpenAt(c, name, |name|), |name|);
  }

  /** Cuts a name into tokens in one pass. */
  method Tokenize(c: Alphabet, name: string) returns (tokens: seq<string>)
    ensures tokens == Tokens(c, name)
  {
    hide OpenAt, ClosedBefore, Kept, Lowered, Tokens;
    tokens := [];
    var current: string := [];
    NoCharacter(c, name, 0);
    for i := 0 to |name|
      invariant current == Lowered(c, name[OpenAt(c, name, i)..i])
      invariant InRange(name, ClosedBefore(c, name, i)) && tokens == Kept(c, name, ClosedBefore(c, name, i))
    {
      if c.isAlnum(name[i]) {
        RunGoesOn(c, name, i);
        current := current + c.lower(name[i]);
      } else {
        RunEnds(c, name, i);
        hide InRange;
        if current != [] {
          if |current| >= 2 { tokens := tokens + [current]; }
          current := [];
        }
      }
    }
    LastRunEnds(c, name);
    if current != [] && |current| >= 2 { tokens := tokens + [current]; }
  }

  // ---------- keys ----------

  function PrefixKey(token: string): string {
    if |token| <= TOKEN_PREFIX_LEN then token else token[..TOKEN_PREFIX_LEN]
  }

  function Keys(c: Alphabet, name: string): set<string> { set t | t in Tokens(c, name) :: PrefixKey(t) }

  predicate SharesKey(c: Alphabet, x: string, y: string) { Keys(c, x) * Keys(c, y) != {} }

  method RowKeys(c: Alphabet, name: string) returns (keys: set<string>)
    ensures keys == Keys(c, name)
  {
    keys := {};
    var tokens := Tokenize(c, name);
    for i := 0 to |tokens|
      invariant keys == set t | t in tokens[..i] :: PrefixKey(t)
    {
      assert tokens[..i + 1] == tokens[..i] + [tokens[i]];
      keys := keys + {PrefixKey(tokens[i])};
    }
    assert tokens[..|tokens|] == tokens;
  }

  // ---------- pairs ----------

  datatype Pair = Pair(i: nat, j: nat, sim: real)

  datatype Result = Ok(pairs: seq<Pair>) | LengthMismatch(names: nat, rows: nat)

  function Filter(pairs: seq<Pair>, keep: Pair -> bool): seq<Pair> {
    if pairs == [] then []
    else Filter(pairs[..|pairs| - 1], keep) + if keep(pairs[|pairs| - 1]) then [pairs[|pairs| - 1]] else []
  }

  lemma {:induction false} FilterJoin(x: seq<Pair>, y: seq<Pair>, keep: Pair -> bool)
    ensures Filter(x + y, keep) == Filter(x, keep) + Filter(y, keep)
  {
    if y == [] { assert x + y == x; }
    else {
      FilterJoin(x, y[..|y| - 1], keep);
      assert (x + y)[..|x + y| - 1] == x + y[..|y| - 1];
    }
  }

  /** The numbers of the rows and the threshold. */
  datatype Problem = Problem(rows: seq<Vector>, threshold: real) {

    /** Row i against row j, if that reaches the threshold. */
    function One(i: nat, j: nat): seq<Pair>
      requires i < |rows| && j < |rows|
    {
      var sim := Dot(rows[i], rows[j]);
      if sim >= threshold then [Pair(i, j, sim)] else []
    }

    /** Row i against each of the rows js. */
    function Scored(i: nat, js: seq<nat>): seq<Pair>
      requires i < |rows| && forall k | 0 <= k < |js| :: js[k] < |rows|
    {
      if js == [] then [] else Scored(i, js[..|js| - 1]) + One(i, js[|js| - 1])
    }

    /** Every pair at or above the threshold with its first row below i, row by row. */
    function PairsBelow(i: nat): seq<Pair>
      requires i <= |rows|
    {
      if i == 0 then [] else PairsBelow(i - 1) + Scored(i - 1, Upto(i, |rows|))
    }

    function AllPairs(): seq<Pair> { PairsBelow(|rows|) }
  }

  function Upto(a: nat, b: nat): (r: seq<nat>)
    requires a <= b
    ensures |r| == b - a && forall k | 0 <= k < |r| :: r[k] == a + k
  {
    seq(b - a, k requires 0 <= k => a + k)
  }

  function Where(js: seq<nat>, p: nat -> bool): (r: seq<nat>)
    ensures forall j :: j in r <==> j in js && p(j)
  {
    if js == [] then []
    else
      assert js == js[..|js| - 1] + [js[|js| - 1]];
      Where(js[..|js| - 1], p) + if p(js[|js| - 1]) then [js[|js| - 1]] else []
  }

  ghost predicate Increasing(js: seq<nat>) { forall k, l | 0 <= k < l < |js| :: js[k] < js[l] }

  lemma {:induction false} WhereIncreasing(js: seq<nat>, p: nat -> bool)
    requires Increasing(js)
    ensures Increasing(Where(js, p))
  {
    if js != [] {
      var front := js[..|js| - 1];
      WhereIncreasing(front, p);
      forall k | 0 <= k < |Where(front, p)| ensures Where(front, p)[k] < js[|js| - 1] {
        assert Where(front, p)[k] in front;
      }
    }
  }

  lemma LastIsLargest(x: seq<nat>)
    requires Increasing(x) && x != []
    ensures Increasing(x[..|x| - 1]) && x[|x| - 1] in x
    ensures forall j :: j in x ==> j <= x[|x| - 1]
    ensures forall j :: j in x[..|x| - 1] <==> j in x && j != x[|x| - 1]
  {
    assert x == x[..|x| - 1] + [x[|x| - 1]];
  }

  /** An increasing list is determined by its members. */
  lemma {:induction false} IncreasingUnique(x: seq<nat>, y: seq<nat>)
    requires Increasing(x) && Increasing(y) && forall j :: j in x <==> j in y
    ensures x == y
  {
    hide Increasing;
    assert x == [] || x[0] in y;
    assert y == [] || y[0] in x;
    if x != [] && y != [] {
      LastIsLargest(x);
      LastIsLargest(y);
      assert x[|x| - 1] in y && y[|y| - 1] in x;
      assert x[|x| - 1] == y[|y| - 1];
      var x', y' := x[..|x| - 1], y[..|y| - 1];
      forall j ensures j in x' <==> j in y' {
        assert j in x' <==> j in x && j != x[|x| - 1];
        assert j in y' <==> j in y && j != y[|y| - 1];
      }
      IncreasingUnique(x', y');
      assert x == x' + [x[|x| - 1]] && y == y' + [y[|y| - 1]];
    }
  }

  predicate Less(a: nat, b: nat) { a < b }

  /** The members of a set in increasing order. */
  method SortedMembers(members: set<nat>) returns (js: seq<nat>)
    ensures Increasing(js) && forall j :: j in js <==> j in members
  {
    var list: seq<nat> := [];
    var rest := members;
    while rest != {}
      invariant rest <= members && forall j :: j in list <==> j in members - rest
      invariant Distinct(list)
      decreases rest
    {
      var j :| j in rest;
      rest := rest - {j};
      list := list + [j];
    }
    js := Sort(Less, list);
    SortSorts(Less, list);
    RearrangedDistinct(list, js);
    forall j ensures j in js <==> j in members {
      assert j in js <==> j in multiset(js);
      assert j in list <==> j in multiset(list);
    }
    forall k, l | 0 <= k < l < |js| ensures js[k] < js[l] { assert !Less(js[l], js[k]) && js[k] != js[l]; }
  }

  // ---------- blocking ----------

  /** Whether a pair of rows has names that share a key. */
  function Sharing(c: Alphabet, names: seq<string>): Pair -> bool {
    (pr: Pair) => pr.i < |names| && pr.j < |names| && SharesKey(c, names[pr.i], names[pr.j])
  }

  function PartnerOf(c: Alphabet, names: seq<string>, i: nat): nat -> bool
    requires i < |names|
  {
    (j: nat) => j < |names| && SharesKey(c, names[i], names[j])
  }

  lemma WhereNext(js: seq<nat>, j: nat, p: nat -> bool)
    ensures Where(js + [j], p) == if p(j) then Where(js, p) + [j] else Where(js, p)
  {
    assert (js + [j])[..|js|] == js;
  }

  lemma ScoredNext(p: Problem, i: nat, js: seq<nat>, j: nat)
    requires i < |p.rows| && j < |p.rows| && forall k | 0 <= k < |js| :: js[k] < |p.rows|
    ensures p.Scored(i, js + [j]) == p.Scored(i, js) + p.One(i, j)
  {
    hide Problem.One;
    assert (js + [j])[..|js|] == js;
  }

  /** Keeping the scored rows that share a key, with one row more. */
  lemma FilterNext(p: Problem, c: Alphabet, names: seq<string>, i: nat, scored: seq<Pair>, j: nat)
    requires i < |p.rows| == |names| && j < |p.rows|
    ensures Filter(scored + p.One(i, j), Sharing(c, names))
         == Filter(scored, Sharing(c, names)) + if PartnerOf(c, names, i)(j) then p.One(i, j) else []
  {
    hide SharesKey, Dot;
    FilterJoin(scored, p.One(i, j), Sharing(c, names));
    assert p.One(i, j) != [] ==> p.One(i, j)[..0] == [];
  }

  lemma PartnersInRange(js: seq<nat>, p: nat -> bool, n: nat)
    requires forall k | 0 <= k < |js| :: js[k] < n
    ensures forall k | 0 <= k < |Where(js, p)| :: Where(js, p)[k] < n
  {
    forall k | 0 <= k < |Where(js, p)| ensures Where(js, p)[k] < n { assert Where(js, p)[k] in js; }
  }

  /** Scoring the partners of a row and keeping the partners among the scored rows are the same. */
  lemma {:induction false} ScoredPartners(p: Problem, c: Alphabet, names: seq<string>, i: nat, js: seq<nat>)
    requires i < |p.rows| == |names| && forall k | 0 <= k < |js| :: js[k] < |p.rows|
    ensures forall k | 0 <= k < |Where(js, PartnerOf(c, names, i))| :: Where(js, PartnerOf(c, names, i))[k] < |p.rows|
    ensures Filter(p.Scored(i, js), Sharing(c, names)) == p.Scored(i, Where(js, PartnerOf(c, names, i)))
  {
    var partner, keep := PartnerOf(c, names, i), Sharing(c, names);
    PartnersInRange(js, partner, |p.rows|);
    if js != [] {
      hide *;
      var front, j := js[..|js| - 1], js[|js| - 1];
      assert js == front + [j];
      ScoredPartners(p, c, names, i, front);
      ScoredNext(p, i, front, j);
      FilterNext(p, c, names, i, p.Scored(i, front), j);
      WhereNext(front, j, partner);
      if partner(j) { ScoredNext(p, i, Where(front, partner), j); }
    }
  }

  /** The rows, in order, that have the key. */
  function RowsWith(rowKeys: seq<set<string>>, key: string): seq<nat> {
    if rowKeys == [] then []
    else RowsWith(rowKeys[..|rowKeys| - 1], key) + if key in rowKeys[|rowKeys| - 1] then [|rowKeys| - 1] else []
  }

  lemma {:induction false} RowsWithExact(rowKeys: seq<set<string>>, key: string, j: nat)
    ensures j in RowsWith(rowKeys, key) <==> j < |rowKeys| && key in rowKeys[j]
  {
    if rowKeys != [] { RowsWithExact(rowKeys[..|rowKeys| - 1], key, j); }
  }

  function Listed(inverted: map<string, seq<nat>>, key: string): seq<nat> {
    if key in inverted then inverted[key] else []
  }

  /** Lists row i under each of its keys, taken in any order. */
  method EnterKeys(inverted: map<string, seq<nat>>, i: nat, keys: set<string>)
    returns (inverted': map<string, seq<nat>>)
    ensures forall key :: Listed(inverted', key) == Listed(inverted, key) + if key in keys then [i] else []
  {
    inverted' := inverted;
    var rest := keys;
    while rest != {}
      invariant rest <= keys
      invariant forall key :: Listed(inverted', key) == Listed(inverted, key) + if key in keys - rest then [i] else []
      decreases rest
    {
      var key :| key in rest;
      rest := rest - {key};
      inverted' := inverted'[key := Listed(inverted', key) + [i]];
    }
  }

  lemma RowsWithNext(rowKeys: seq<set<string>>, i: nat, key: string)
    requires i < |rowKeys|
    ensures RowsWith(rowKeys[..i + 1], key) == RowsWith(rowKeys[..i], key) + if key in rowKeys[i] then [i] else []
  {
    assert rowKeys[..i + 1][..i] == rowKeys[..i];
  }

  method BuildInverted(rowKeys: seq<set<string>>) returns (inverted: map<string, seq<nat>>)
    ensures forall key :: Listed(inverted, key) == RowsWith(rowKeys, key)
  {
    inverted := map[];
    for i := 0 to |rowKeys|
      invariant forall key :: Listed(inverted, key) == RowsWith(rowKeys[..i], key)
    {
      inverted := EnterKeys(inverted, i, rowKeys[i]);
      forall key { RowsWithNext(rowKeys, i, key); }
    }
    assert rowKeys[..|rowKeys|] == rowKeys;
  }

  /** The rows after i that have a key of row i. */
  method GatherCandidates(rowKeys: seq<set<string>>, inverted: map<string, seq<nat>>, i: nat)
    returns (candidates: set<nat>)
    requires i < |rowKeys| && forall key :: Listed(inverted, key) == RowsWith(rowKeys, key)
    ensures forall j: nat :: j in candidates <==> i < j < |rowKeys| && rowKeys[i] * rowKeys[j] != {}
  {
    candidates := {};
    var rest := rowKeys[i];
    while rest != {}
      invariant rest <= rowKeys[i]
      invariant forall j: nat :: j in candidates <==> i < j < |rowKeys| && (rowKeys[i] - rest) * rowKeys[j] != {}
      decreases rest
    {
      var key :| key in rest;
      ghost var seen := rowKeys[i] - rest;
      rest := rest - {key};
      forall j: nat
        ensures j in Listed(inverted, key) <==> j < |rowKeys| && key in rowKeys[j]
      {
        RowsWithExact(rowKeys, key, j);
      }
      assert rowKeys[i] - rest == seen + {key};
      forall j: nat | j < |rowKeys|
        ensures (seen + {key}) * rowKeys[j] != {} <==> seen * rowKeys[j] != {} || key in rowKeys[j]
      {
        if key in rowKeys[j] { assert key in (seen + {key}) * rowKeys[j]; }
        else { assert (seen + {key}) * rowKeys[j] == seen * rowKeys[j]; }
      }
      var listed := Listed(inverted, key);
      candidates := candidates + set j | j in listed && j > i;
    }
    assert rowKeys[i] - {} == rowKeys[i];
  }

  /** Scores row i against the rows js, one after the other. */
  method ScoreRow(p: Problem, i: nat, js: seq<nat>) returns (local: seq<Pair>)
    requires i < |p.rows| && forall k | 0 <= k < |js| :: js[k] < |p.rows|
    ensures local == p.Scored(i, js)
  {
    local := [];
    for k := 0 to |js|
      invariant local == p.Scored(i, js[..k])
    {
      ScoredNext(p, i, js[..k], js[k]);
      assert js[..k + 1] == js[..k] + [js[k]];
      var sim := Dot(p.rows[i], p.rows[js[k]]);
      if sim >= p.threshold { local := local + [Pair(i, js[k], sim)]; }
    }
    assert js[..|js|] == js;
  }

  method ScoreAll(p: Problem) returns (pairs: seq<Pair>)
    ensures pairs == p.AllPairs()
  {
    pairs := [];
    for i := 0 to |p.rows|
      invariant pairs == p.PairsBelow(i)
    {
      var local := ScoreRow(p, i, Upto(i + 1, |p.rows|));
      pairs := pairs + local;
    }
  }

  /** The candidates of a row in increasing order are its partners among the later rows. */
  lemma CandidatesArePartners(c: Alphabet, names: seq<string>, rowKeys: seq<set<string>>, i: nat, js: seq<nat>)
    requires i < |rowKeys| == |names| && forall j | 0 <= j < |names| :: rowKeys[j] == Keys(c, names[j])
    requires Increasing(js) && forall j: nat :: j in js <==> i < j < |rowKeys| && rowKeys[i] * rowKeys[j] != {}
    ensures js == Where(Upto(i + 1, |names|), PartnerOf(c, names, i))
  {
    hide Keys;
    var later := Upto(i + 1, |names|);
    var partners := Where(later, PartnerOf(c, names, i));
    WhereIncreasing(later, PartnerOf(c, names, i));
    forall j: nat ensures j in js <==> j in partners {
      if i < j < |names| { assert later[j - i - 1] == j; }
    }
    IncreasingUnique(js, partners);
  }

  /** Scores only the candidates that the inverted index of keys gives. */
  method ScoreBlocked(p: Problem, c: Alphabet, names: seq<string>) returns (pairs: seq<Pair>)
    requires |names| == |p.rows|
    ensures pairs == Filter(p.AllPairs(), Sharing(c, names))
  {
    hide Keys, Problem.Scored, SharesKey, Where, Sharing, PartnerOf;
    var rowKeys: seq<set<string>> := [];
    for i := 0 to |names|
      invariant |rowKeys| == i && forall j | 0 <= j < i :: rowKeys[j] == Keys(c, names[j])
    {
      var keys := RowKeys(c, names[i]);
      rowKeys := rowKeys + [keys];
    }
    var inverted := BuildInverted(rowKeys);
    pairs := [];
    for i := 0 to |p.rows|
      invariant pairs == Filter(p.PairsBelow(i), Sharing(c, names))
    {
      var candidates := GatherCandidates(rowKeys, inverted, i);
      var js := SortedMembers(candidates);
      assert forall k | 0 <= k < |js| :: js[k] in js;
      var local := ScoreRow(p, i, js);
      CandidatesArePartners(c, names, rowKeys, i, js);
      ScoredPartners(p, c, names, i, Upto(i + 1, |p.rows|));
      FilterJoin(p.PairsBelow(i), p.Scored(i, Upto(i + 1, |p.rows|)), Sharing(c, names));
      pairs := pairs + local;
    }
  }

  /** All pairs of rows at or above the threshold, with blocking only those whose names share a key. */
  method BlockAndScorePairs(p: Problem, c: Alphabet, names: seq<string>, blocking: bool) returns (r: Result)
    ensures r == if |names| != |p.rows| then LengthMismatch(|names|, |p.rows|)
                 else Ok(if blocking then Filter(p.AllPairs(), Sharing(c, names)) else p.AllPairs())
  {
    if |names| != |p.rows| { return LengthMismatch(|names|, |p.rows|); }
    if |p.rows| < 2 { FewRows(p); return Ok([]); }
    var pairs;
    if blocking { pairs := ScoreBlocked(p, c, names); } else { pairs := ScoreAll(p); }
    r := Ok(pairs);
  }

  lemma FewRows(p: Problem)
    requires |p.rows| < 2
    ensures p.AllPairs() == []
  {
    if |p.rows| == 1 { assert p.PairsBelow(1) == p.PairsBelow(0) + p.Scored(0, []); }
  }

  // ---------- what the pairs are ----------

  /** Row by row, and within a row by the other row: no pair is repeated. */
  ghost predicate RowMajor(pairs: seq<Pair>) {
    forall k, l | 0 <= k < l < |pairs| ::
      pairs[k].i < pairs[l].i || (pairs[k].i == pairs[l].i && pairs[k].j < pairs[l].j)
  }

  lemma RowMajorNext(pairs: seq<Pair>, more: seq<Pair>)
    requires RowMajor(pairs) && |more| <= 1
    requires forall x, y | x in pairs && y in more :: x.i < y.i || (x.i == y.i && x.j < y.j)
    ensures RowMajor(pairs + more)
  {
  }

  lemma {:induction false} ScoredExact(p: Problem, i: nat, js: seq<nat>)
    requires i < |p.rows| && (forall k | 0 <= k < |js| :: js[k] < |p.rows|) && Increasing(js)
    ensures RowMajor(p.Scored(i, js))
    ensures forall pr :: pr in p.Scored(i, js) <==>
      pr.i == i && pr.j in js && pr.sim == Dot(p.rows[i], p.rows[pr.j]) >= p.threshold
  {
    if js != [] {
      hide Dot, Problem.Scored, RowMajor, Increasing;
      var front, j := js[..|js| - 1], js[|js| - 1];
      LastIsLargest(js);
      ScoredExact(p, i, front);
      assert js == front + [j];
      ScoredNext(p, i, front, j);
      forall pr | pr in p.Scored(i, front) ensures pr.i == i && pr.j < j { assert pr.j in front; }
      RowMajorNext(p.Scored(i, front), p.One(i, j));
    }
  }

  lemma {:induction false} PairsExact(p: Problem, i: nat)
    requires i <= |p.rows|
    ensures RowMajor(p.PairsBelow(i))
    ensures forall pr :: pr in p.PairsBelow(i) <==>
      pr.i < i && pr.i < pr.j < |p.rows| && pr.sim == Dot(p.rows[pr.i], p.rows[pr.j]) >= p.threshold
  {
    hide Dot, Problem.Scored;
    if i > 0 {
      PairsExact(p, i - 1);
      var later := Upto(i, |p.rows|);
      ScoredExact(p, i - 1, later);
      forall j: nat ensures j in later <==> i <= j < |p.rows| {
        if i <= j < |p.rows| { assert later[j - i] == j; }
      }
      var before, row := p.PairsBelow(i - 1), p.Scored(i - 1, later);
      forall k | 0 <= k < |before| ensures before[k].i < i - 1 { assert before[k] in before; }
      forall k | 0 <= k < |row| ensures row[k].i == i - 1 { assert row[k] in row; }
    }
  }

  lemma {:induction false} FilterExact(pairs: seq<Pair>, keep: Pair -> bool)
    requires RowMajor(pairs)
    ensures RowMajor(Filter(pairs, keep))
    ensures forall pr :: pr in Filter(pairs, keep) <==> pr in pairs && keep(pr)
  {
    if pairs != [] {
      var front, last := pairs[..|pairs| - 1], pairs[|pairs| - 1];
      FilterExact(front, keep);
      assert pairs == front + [last];
      forall k | 0 <= k < |Filter(front, keep)|
        ensures Filter(front, keep)[k].i < last.i
          || (Filter(front, keep)[k].i == last.i && Filter(front, keep)[k].j < last.j)
      {
        assert Filter(front, keep)[k] in front;
      }
    }
  }

  /** Without blocking all pairs of different rows at or above the threshold are returned, with blocking those of them
      whose names share a key; each once, by the first row and then by the second. */
  lemma BlockedExact(p: Problem, c: Alphabet, names: seq<string>)
    requires |names| == |p.rows|
    ensures forall pr :: pr in p.AllPairs() <==>
      pr.i < pr.j < |p.rows| && pr.sim == Dot(p.rows[pr.i], p.rows[pr.j]) >= p.threshold
    ensures forall pr :: pr in Filter(p.AllPairs(), Sharing(c, names)) <==>
      pr.i < pr.j < |p.rows| && SharesKey(c, names[pr.i], names[pr.j])
      && pr.sim == Dot(p.rows[pr.i], p.rows[pr.j]) >= p.threshold
    ensures forall k, l | 0 <= k < l < |p.AllPairs()| ::
      var x, y := p.AllPairs()[k], p.AllPairs()[l];
      x.i < y.i || (x.i == y.i && x.j < y.j)
    ensures var kept := Filter(p.AllPairs(), Sharing(c, names));
      forall k, l | 0 <= k < l < |kept| ::
        kept[k].i < kept[l].i || (kept[k].i == kept[l].i && kept[k].j < kept[l].j)
  {
    hide Dot, SharesKey;
    PairsExact(p, |p.rows|);
    FilterExact(p.AllPairs(), Sharing(c, names));
    hide Filter, Problem.AllPairs, Problem.PairsBelow;
  }

  /** What a name is cut into, written out: the lower-case forms, if they have two characters or more, of the stretches
      of alphanumeric characters that cannot be made longer. */
  lemma TokensMeaning(c: Alphabet, name: string, t: string)
    ensures t in Tokens(c, name) <==> |t| >= 2 && exists a: nat, b: nat ::
      && a < b <= |name| && t == Lowered(c, name[a..b])
      && (forall k | a <= k < b :: c.isAlnum(name[k]))
      && (a > 0 ==> !c.isAlnum(name[a - 1])) && (b < |name| ==> !c.isAlnum(name[b]))
  {
    hide Tokens, Lowered;
    TokensExact(c, name, t);
    if a: nat, b: nat :| (a < b <= |name| && t == Lowered(c, name[a..b])
      && (forall k | a <= k < b :: c.isAlnum(name[k]))
      && (a > 0 ==> !c.isAlnum(name[a - 1])) && (b < |name| ==> !c.isAlnum(name[b])))
    {
      assert IsRun(c, name, a, b);
    }
  }

  /** The lower-case form of a name is that of its characters, one after the other. */
  lemma LoweredMeaning(c: Alphabet, s: string, x: char)
    ensures Lowered(c, "") == "" && Lowered(c, s + [x]) == Lowered(c, s) + c.lower(x)
  {
    assert (s + [x])[..|s|] == s;
  }

  /** Two names share a key exactly when each has a token and the two tokens are the same, or agree in their first
      three characters. */
  lemma SharesKeyMeaning(c: Alphabet, x: string, y: string)
    ensures SharesKey(c, x, y) <==> exists s, t ::
      && s in Tokens(c, x) && t in Tokens(c, y)
      && (s == t || (|s| >= 3 && |t| >= 3 && s[0] == t[0] && s[1] == t[1] && s[2] == t[2]))
  {
    hide Tokens, PrefixKey;
    forall s, t
      ensures PrefixKey(s) == PrefixKey(t)
        <==> s == t || (|s| >= 3 && |t| >= 3 && s[0] == t[0] && s[1] == t[1] && s[2] == t[2])
    {
      PrefixesAgree(s, t);
    }
    if SharesKey(c, x, y) {
      var key :| key in Keys(c, x) * Keys(c, y);
      var s :| s in Tokens(c, x) && PrefixKey(s) == key;
      var t :| t in Tokens(c, y) && PrefixKey(t) == key;
    }
    if s, t :| s in Tokens(c, x) && t in Tokens(c, y) && PrefixKey(s) == PrefixKey(t) {
      assert PrefixKey(s) in Keys(c, x) * Keys(c, y);
    }
  }

  lemma PrefixesAgree(s: string, t: string)
    ensures PrefixKey(s) == PrefixKey(t)
      <==> s == t || (|s| >= 3 && |t| >= 3 && s[0] == t[0] && s[1] == t[1] && s[2] == t[2])
  {
    if |s| >= 3 && |t| >= 3 && s[0] == t[0] && s[1] == t[1] && s[2] == t[2] { assert s[..3] == t[..3]; }
    if |s| >= 3 { assert PrefixKey(s) == s[..3]; }
    if |t| >= 3 { assert PrefixKey(t) == t[..3]; }
    if PrefixKey(s) == PrefixKey(t) && |s| >= 3 && |t| >= 3 {
      assert s[..3][0] == s[0] && s[..3][1] == s[1] && s[..3][2] == s[2];
    }
  }
}
