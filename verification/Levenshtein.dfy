/** Levenshtein similarity: the single-row computation, the distance it computes, and what that
    distance means. */
module Levenshtein {
  import opened Options
  import opened Sizes

  function Max(a: nat, b: nat): nat { if a <= b then b else a }

  function Init(s: string): string
    requires s != ""
  {
    s[..|s| - 1]
  }

  function Last(s: string): char
    requires s != ""
  {
    s[|s| - 1]
  }

  function Change(x: char, y: char): nat { if x == y then 0 else 1 }

  /** The recursive distance. */
  ghost function Distance(a: string, b: string): nat
    decreases |a| + |b|
  {
    if a == "" then |b|
    else if b == "" then |a|
    else Min(Min(Distance(Init(a), b) + 1, Distance(a, Init(b)) + 1),
             Distance(Init(a), Init(b)) + Change(Last(a), Last(b)))
  }

  // ---------- the distance as edits ----------

  datatype Edit = Keep | Replace(c: char) | Delete | Add(c: char)

  /** What a script makes of a; its last edit works on a's end. None when it does not fit. */
  function Edited(script: seq<Edit>, a: string): Option<string>
    decreases |script|
  {
    if script == [] then (if a == "" then Some("") else None)
    else
      var rest := script[..|script| - 1];
      match script[|script| - 1]
      case Keep => if a == "" then None else Then(Edited(rest, Init(a)), [Last(a)])
      case Replace(c) => if a == "" then None else Then(Edited(rest, Init(a)), [c])
      case Delete => if a == "" then None else Edited(rest, Init(a))
      case Add(c) => Then(Edited(rest, a), [c])
  }

  function Then(s: Option<string>, t: string): Option<string> {
    match s
    case None => None
    case Some(v) => Some(v + t)
  }

  /** Every edit but Keep counts. */
  function Cost(script: seq<Edit>): nat {
    if script == [] then 0 else Cost(script[..|script| - 1]) + if script[|script| - 1] == Keep then 0 else 1
  }

  lemma SplitEnd(b: string, v: string, c: char)
    requires b == v + [c]
    ensures b != "" && Init(b) == v && Last(b) == c
  {
  }

  /** No script from a to b is cheaper than the distance. */
  lemma {:induction false} NoCheaperScript(script: seq<Edit>, a: string, b: string)
    requires Edited(script, a) == Some(b)
    ensures Distance(a, b) <= Cost(script)
    decreases |script|
  {
    if script != [] {
      var rest := script[..|script| - 1];
      match script[|script| - 1] {
        case Keep =>
          var v := Edited(rest, Init(a)).value;
          SplitEnd(b, v, Last(a));
          NoCheaperScript(rest, Init(a), v);
        case Replace(c) =>
          var v := Edited(rest, Init(a)).value;
          SplitEnd(b, v, c);
          NoCheaperScript(rest, Init(a), v);
        case Delete =>
          NoCheaperScript(rest, Init(a), b);
          OneDeleted(a, b);
        case Add(c) =>
          var v := Edited(rest, a).value;
          SplitEnd(b, v, c);
          NoCheaperScript(rest, a, v);
          OneAdded(a, b);
      }
    }
  }

  /** Taking a character off an end changes the distance by at most one. */
  lemma OneDeleted(a: string, b: string)
    requires a != ""
    ensures Distance(a, b) <= Distance(Init(a), b) + 1
  {
  }

  lemma OneAdded(a: string, b: string)
    requires b != ""
    ensures Distance(a, b) <= Distance(a, Init(b)) + 1
  {
  }

  lemma ScriptEnd(rest: seq<Edit>, e: Edit)
    ensures (rest + [e])[..|rest + [e]| - 1] == rest && (rest + [e])[|rest + [e]| - 1] == e
  {
  }

  /** Some script reaches the distance. */
  lemma {:induction false} CheapestScript(a: string, b: string) returns (script: seq<Edit>)
    ensures Edited(script, a) == Some(b) && Cost(script) == Distance(a, b)
    decreases |a| + |b|
  {
    if a == "" && b == "" {
      script := [];
    } else if a != "" && (b == "" || Distance(a, b) == Distance(Init(a), b) + 1) {
      var rest := CheapestScript(Init(a), b);
      ScriptEnd(rest, Delete);
      script := rest + [Delete];
    } else if b != "" && (a == "" || Distance(a, b) == Distance(a, Init(b)) + 1) {
      var rest := CheapestScript(a, Init(b));
      ScriptEnd(rest, Add(Last(b)));
      script := rest + [Add(Last(b))];
      assert b == Init(b) + [Last(b)];
    } else {
      var rest := CheapestScript(Init(a), Init(b));
      var e := if Last(a) == Last(b) then Keep else Replace(Last(b));
      ScriptEnd(rest, e);
      script := rest + [e];
      assert b == Init(b) + [Last(b)];
    }
  }

  // ---------- it is a metric ----------

  lemma {:induction false} Symmetric(a: string, b: string)
    ensures Distance(a, b) == Distance(b, a)
    decreases |a| + |b|
  {
    if a != "" && b != "" {
      Symmetric(Init(a), b);
      Symmetric(a, Init(b));
      Symmetric(Init(a), Init(b));
    }
  }

  lemma {:induction false} Bounds(a: string, b: string)
    ensures Distance(a, b) <= Max(|a|, |b|)
    ensures |a| <= |b| + Distance(a, b) && |b| <= |a| + Distance(a, b)
    decreases |a| + |b|
  {
    if a != "" && b != "" {
      Bounds(Init(a), b);
      Bounds(a, Init(b));
      Bounds(Init(a), Init(b));
    }
  }

  lemma {:induction false} ZeroMeansEqual(a: string, b: string)
    ensures Distance(a, b) == 0 <==> a == b
    decreases |a| + |b|
  {
    if a != "" && b != "" {
      ZeroMeansEqual(Init(a), Init(b));
      assert a == Init(a) + [Last(a)] && b == Init(b) + [Last(b)];
    }
  }

  /** The ways in which a distance can arise. */
  lemma AtEnd(a: string, b: string)
    requires a != "" && b != ""
    ensures Distance(a, b) <= Distance(Init(a), Init(b)) + Change(Last(a), Last(b))
    ensures Distance(a, b) in {Distance(Init(a), b) + 1, Distance(a, Init(b)) + 1,
                               Distance(Init(a), Init(b)) + Change(Last(a), Last(b))}
  {
  }

  lemma {:induction false} Triangle(a: string, b: string, c: string)
    ensures Distance(a, c) <= Distance(a, b) + Distance(b, c)
    decreases |a| + |b| + |c|
  {
    if a == "" || c == "" {
      Bounds(b, c);
      Bounds(a, b);
    } else if b == "" {
      Bounds(a, c);
    } else {
      OneDeleted(a, c);
      OneAdded(a, c);
      if Distance(a, b) == Distance(Init(a), b) + 1 {
        Triangle(Init(a), b, c);
      } else if Distance(b, c) == Distance(b, Init(c)) + 1 {
        Triangle(a, b, Init(c));
      } else {
        AtEnd(a, b);
        AtEnd(b, c);
        AtEnd(a, c);
        Triangle(a, Init(b), c);
        Triangle(a, Init(b), Init(c));
        Triangle(Init(a), Init(b), c);
        Triangle(Init(a), Init(b), Init(c));
      }
    }
  }

  /** The distance written out: from or to the empty string it is the length; and for two strings with a last
      character it is the least of three distances of shorter ones, with one more for taking the last character of
      either off, or for replacing it where the two differ. */
  lemma DistanceMeaning(a: string, x: char, b: string, y: char, change: nat)
    requires change == if x == y then 0 else 1
    ensures Distance("", b) == |b| && Distance(a, "") == |a|
    ensures var d := Distance(a + [x], b + [y]);
      && d <= Distance(a, b + [y]) + 1 && d <= Distance(a + [x], b) + 1 && d <= Distance(a, b) + change
      && (d == Distance(a, b + [y]) + 1 || d == Distance(a + [x], b) + 1 || d == Distance(a, b) + change)
  {
    SplitEnd(a + [x], a, x);
    SplitEnd(b + [y], b, y);
    AtEnd(a + [x], b + [y]);
    OneDeleted(a + [x], b + [y]);
    OneAdded(a + [x], b + [y]);
  }

  /** What an edit does to a string is done at its end, and every edit but keeping a character costs one. */
  lemma EditMeaning(script: seq<Edit>, a: string, x: char, c: char)
    requires Edited(script, a).Some?
    ensures var b := Edited(script, a).value;
      && Edited(script + [Keep], a + [x]) == Some(b + [x])
      && Edited(script + [Replace(c)], a + [x]) == Some(b + [c])
      && Edited(script + [Delete], a + [x]) == Some(b)
      && Edited(script + [Add(c)], a) == Some(b + [c])
    ensures Cost(script + [Keep]) == Cost(script)
    ensures Cost(script + [Replace(c)]) == Cost(script + [Delete]) == Cost(script + [Add(c)]) == Cost(script) + 1
    ensures Edited([], "") == Some("") && Cost([]) == 0
  {
    SplitEnd(a + [x], a, x);
    ScriptEnd(script, Keep);
    ScriptEnd(script, Replace(c));
    ScriptEnd(script, Delete);
    ScriptEnd(script, Add(c));
  }

  // ---------- the computation ----------

  /** Entry (i, j) of the table: the distance of the first i and the first j characters. */
  ghost function Cell(a: string, b: string, i: nat, j: nat): nat
    requires i <= |a| && j <= |b|
  {
    Distance(a[..i], b[..j])
  }

  lemma CellEdges(a: string, b: string)
    ensures forall j | 0 <= j <= |b| :: Cell(a, b, 0, j) == j
    ensures forall i | 0 <= i <= |a| :: Cell(a, b, i, 0) == i
  {
  }

  lemma CellNext(a: string, b: string, i: nat, j: nat)
    requires 0 < i <= |a| && 0 < j <= |b|
    ensures Cell(a, b, i, j) ==
      Min(Min(Cell(a, b, i - 1, j) + 1, Cell(a, b, i, j - 1) + 1),
          Cell(a, b, i - 1, j - 1) + Change(a[i - 1], b[j - 1]))
  {
    var p, q := a[..i], b[..j];
    assert Init(p) == a[..i - 1] && Init(q) == b[..j - 1] && Last(p) == a[i - 1] && Last(q) == b[j - 1];
  }

  /** The rows of the table, one at a time. */
  method ComputeDistance(a: string, b: string) returns (distance: nat)
    ensures distance == Distance(a, b)
  {
    CellEdges(a, b);
    assert Cell(a, b, |a|, |b|) == Distance(a, b) by { assert a[..|a|] == a && b[..|b|] == b; }
    hide Cell, Distance;
    var prev := new nat[|b| + 1](j => j);
    for i := 1 to |a| + 1
      invariant fresh(prev) && prev.Length == |b| + 1
      invariant forall j | 0 <= j <= |b| :: prev[j] == Cell(a, b, i - 1, j)
    {
      var curr := new nat[|b| + 1](_ => 0);
      curr[0] := i;
      for j := 1 to |b| + 1
        invariant forall k | 0 <= k < j :: curr[k] == Cell(a, b, i, k)
        invariant forall k | 0 <= k <= |b| :: prev[k] == Cell(a, b, i - 1, k)
      {
        CellNext(a, b, i, j);
        curr[j] := Min(Min(prev[j] + 1, curr[j - 1] + 1), prev[j - 1] + Change(a[i - 1], b[j - 1]));
      }
      prev := curr;
    }
    distance := prev[|b|];
  }

  /** The distance as a share of the longer string, taken from 1. */
  ghost function Similarity(a: string, b: string): real {
    if a == b then 1.0
    else if Max(|a|, |b|) == 0 then 1.0
    else 1.0 - Distance(a, b) as real / Max(|a|, |b|) as real
  }

  lemma ShareBounds(d: nat, m: nat)
    requires d <= m && m > 0
    ensures 0.0 <= 1.0 - d as real / m as real <= 1.0
    ensures 1.0 - d as real / m as real == 1.0 <==> d == 0
    ensures 1.0 - d as real / m as real == 0.0 <==> d == m
  {
    var q := d as real / m as real;
    assert q * m as real == d as real;
    if q == 1.0 { assert q * m as real == m as real; }
    if d == m { assert q == 1.0; }
  }

  /** Similarity of two strings after lowercasing: between 0 and 1, 1 exactly for strings that are
      equal then, and always the distance's share. */
  method LevenshteinSimilarity(s1: string, s2: string, lower: string -> string) returns (r: real)
    ensures r == Similarity(lower(s1), lower(s2))
    ensures 0.0 <= r <= 1.0
    ensures r == 1.0 <==> lower(s1) == lower(s2)
  {
    var a, b := lower(s1), lower(s2);
    Bounds(a, b);
    ZeroMeansEqual(a, b);
    if a == b { return 1.0; }
    ShareBounds(Distance(a, b), Max(|a|, |b|));
    if a == "" || b == "" { return 0.0; }
    var distance := ComputeDistance(a, b);
    r := 1.0 - distance as real / Max(|a|, |b|) as real;
  }

  /** Similarity times the longer length, and the distance, make up the longer length; and empty strings are alike. */
  lemma SimilarityMeaning(a: string, b: string, longer: nat)
    requires longer == if |a| < |b| then |b| else |a|
    ensures Similarity(a, b) * longer as real + Distance(a, b) as real == longer as real
    ensures longer == 0 ==> Similarity(a, b) == 1.0
  {
    hide Distance;
    ZeroMeansEqual(a, b);
    Bounds(a, b);
    if a != b { ShareOf(Distance(a, b) as real, longer as real); }
  }

  lemma ShareOf(d: real, m: real)
    requires m > 0.0
    ensures (1.0 - d / m) * m + d == m
  {
    assert d / m * m == d;
    assert (1.0 - d / m) * m == m - d / m * m;
  }

  /** The order of the strings does not matter. */
  lemma SimilaritySymmetric(a: string, b: string)
    ensures Similarity(a, b) == Similarity(b, a)
  {
    Symmetric(a, b);
  }
}
