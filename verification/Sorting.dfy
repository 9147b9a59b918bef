/** Stable insertion sort by a strict order, and why its result does not depend on how a sort is
    carried out. */
module Sorting {

  /** A strict weak order: ties are allowed. */
  ghost predicate WeakOrder<T(!new)>(before: (T, T) -> bool) {
    && (forall x :: !before(x, x))
    && (forall x, y, z :: before(x, y) && before(y, z) ==> before(x, z))
    && (forall x, y, z :: before(x, z) ==> before(x, y) || before(y, z))
  }

  /** A strict total order: only equal elements tie. */
  ghost predicate TotalOrder<T(!new)>(before: (T, T) -> bool) {
    WeakOrder(before) && forall x, y :: x != y ==> before(x, y) || before(y, x)
  }

  ghost predicate SortedBy<T>(before: (T, T) -> bool, s: seq<T>) {
    forall i, j | 0 <= i < j < |s| :: !before(s[j], s[i])
  }

  /** Puts x in front of the first element that it comes before. */
  function Insert<T>(before: (T, T) -> bool, s: seq<T>, x: T): (r: seq<T>)
    ensures multiset(r) == multiset(s) + multiset{x} && |r| == |s| + 1
  {
    if s == [] then [x]
    else if before(x, s[|s| - 1]) then
      assert s == s[..|s| - 1] + [s[|s| - 1]];
      Insert(before, s[..|s| - 1], x) + [s[|s| - 1]]
    else s + [x]
  }

  function Sort<T>(before: (T, T) -> bool, s: seq<T>): (r: seq<T>)
    ensures multiset(r) == multiset(s) && |r| == |s|
  {
    if s == [] then []
    else
      assert s == s[..|s| - 1] + [s[|s| - 1]];
      Insert(before, Sort(before, s[..|s| - 1]), s[|s| - 1])
  }

  lemma {:induction false} InsertSorted<T(!new)>(before: (T, T) -> bool, s: seq<T>, x: T)
    requires WeakOrder(before) && SortedBy(before, s)
    ensures SortedBy(before, Insert(before, s, x))
  {
    if s != [] && before(x, s[|s| - 1]) {
      var last, front := s[|s| - 1], s[..|s| - 1];
      InsertSorted(before, front, x);
      var r := Insert(before, front, x);
      forall y | y in r ensures !before(last, y) {
        InsertMembers(before, front, x, y);
      }
    } else {
      NoneAfter(before, s, x);
    }
  }

  lemma InsertMembers<T>(before: (T, T) -> bool, s: seq<T>, x: T, y: T)
    requires y in Insert(before, s, x)
    ensures y == x || y in s
  {
    hide Insert;
    assert y in multiset(Insert(before, s, x));
    assert y == x || y in multiset(s);
  }

  /** What does not come before the last element comes before none. */
  lemma NoneAfter<T(!new)>(before: (T, T) -> bool, s: seq<T>, x: T)
    requires WeakOrder(before) && SortedBy(before, s) && (s == [] || !before(x, s[|s| - 1]))
    ensures forall i | 0 <= i < |s| :: !before(x, s[i])
  {
    forall i | 0 <= i < |s| ensures !before(x, s[i]) {
      assert i < |s| - 1 ==> !before(s[|s| - 1], s[i]);
    }
  }

  lemma {:induction false} SortSorts<T(!new)>(before: (T, T) -> bool, s: seq<T>)
    requires WeakOrder(before)
    ensures SortedBy(before, Sort(before, s))
  {
    if s != [] {
      SortSorts(before, s[..|s| - 1]);
      InsertSorted(before, Sort(before, s[..|s| - 1]), s[|s| - 1]);
    }
  }

  lemma HeadsEqual<T(!new)>(before: (T, T) -> bool, a: seq<T>, b: seq<T>)
    requires TotalOrder(before) && SortedBy(before, a) && SortedBy(before, b) && multiset(a) == multiset(b)
    requires a != [] && b != []
    ensures a[0] == b[0]
  {
    assert a[0] in multiset(b) && b[0] in multiset(a);
    var i :| 0 <= i < |b| && b[i] == a[0];
    var j :| 0 <= j < |a| && a[j] == b[0];
    assert !before(a[0], b[0]) && !before(b[0], a[0]);
  }

  lemma SameTails<T>(a: seq<T>, b: seq<T>)
    requires multiset(a) == multiset(b) && a != [] && b != [] && a[0] == b[0]
    ensures multiset(a[1..]) == multiset(b[1..])
  {
    assert a == [a[0]] + a[1..] && b == [b[0]] + b[1..];
    assert multiset(a[1..]) == multiset(a) - multiset{a[0]} && multiset(b[1..]) == multiset(b) - multiset{a[0]};
  }

  lemma FromParts<T>(a: seq<T>, b: seq<T>)
    requires a != [] && b != [] && a[0] == b[0] && a[1..] == b[1..]
    ensures a == b
  {
    assert a == [a[0]] + a[1..] && b == [b[0]] + b[1..];
  }

  lemma SameLength<T>(a: seq<T>, b: seq<T>)
    requires multiset(a) == multiset(b)
    ensures |a| == |b|
  {
    assert |multiset(a)| == |a| && |multiset(b)| == |b|;
  }

  lemma SortedTail<T>(before: (T, T) -> bool, s: seq<T>)
    requires SortedBy(before, s) && s != []
    ensures SortedBy(before, s[1..])
  {
  }

  /** There is one way to arrange a collection in a total order. */
  lemma {:induction false} SortedUnique<T(!new)>(before: (T, T) -> bool, a: seq<T>, b: seq<T>)
    requires TotalOrder(before) && SortedBy(before, a) && SortedBy(before, b) && multiset(a) == multiset(b)
    ensures a == b
  {
    hide *;
    SameLength(a, b);
    if a != [] {
      HeadsEqual(before, a, b);
      SameTails(a, b);
      SortedTail(before, a);
      SortedTail(before, b);
      SortedUnique(before, a[1..], b[1..]);
      FromParts(a, b);
    }
  }

  /** s rearranged so that no later element comes before one of the first k. */
  ghost predicate IsSelection<T>(before: (T, T) -> bool, s: seq<T>, r: seq<T>, k: nat) {
    && multiset(r) == multiset(s) && |r| == |s| && k <= |r|
    && forall i, j | 0 <= i < k <= j < |r| :: !before(r[j], r[i])
  }

  /** Selecting the first k in any way and sorting just those gives the first k of the full sort. */
  lemma SelectionSorts<T(!new)>(before: (T, T) -> bool, s: seq<T>, r: seq<T>, k: nat)
    requires TotalOrder(before) && IsSelection(before, s, r, k)
    ensures Sort(before, r[..k]) == Sort(before, s)[..k]
  {
    assert WeakOrder(before) && k <= |r| && multiset(r) == multiset(s);
    hide *;
    var low, high := Sort(before, r[..k]), Sort(before, r[k..]);
    SortSorts(before, r[..k]);
    SortSorts(before, r[k..]);
    SortSorts(before, s);
    forall x, y | x in low && y in high ensures !before(y, x) { LowBeforeHigh(before, s, r, k, x, y); }
    SortedJoin(before, low, high);
    assert r == r[..k] + r[k..];
    assert multiset(low + high) == multiset(s);
    SortedUnique(before, low + high, Sort(before, s));
  }

  lemma LowBeforeHigh<T>(before: (T, T) -> bool, s: seq<T>, r: seq<T>, k: nat, x: T, y: T)
    requires IsSelection(before, s, r, k) && x in Sort(before, r[..k]) && y in Sort(before, r[k..])
    ensures !before(y, x)
  {
    hide Sort;
    assert x in multiset(Sort(before, r[..k])) && y in multiset(Sort(before, r[k..]));
    assert x in r[..k] && y in r[k..];
  }

  lemma SortedJoin<T>(before: (T, T) -> bool, low: seq<T>, high: seq<T>)
    requires SortedBy(before, low) && SortedBy(before, high) && forall x, y | x in low && y in high :: !before(y, x)
    ensures SortedBy(before, low + high)
  {
  }

  ghost predicate Distinct<T>(s: seq<T>) {
    forall i, j | 0 <= i < j < |s| :: s[i] != s[j]
  }

  lemma OnceIfDistinct<T>(s: seq<T>, i: nat)
    requires Distinct(s) && i < |s|
    ensures multiset(s)[s[i]] == 1
  {
    assert s == s[..i] + [s[i]] + s[i + 1..];
    assert s[i] !in s[..i] && s[i] !in s[i + 1..];
  }

  /** A rearrangement of distinct elements has distinct elements. */
  lemma RearrangedDistinct<T>(s: seq<T>, r: seq<T>)
    requires Distinct(s) && multiset(r) == multiset(s)
    ensures Distinct(r)
  {
    forall i, j | 0 <= i < j < |r| ensures r[i] != r[j] {
      assert r[j] in multiset(s);
      var k :| 0 <= k < |s| && s[k] == r[j];
      OnceIfDistinct(s, k);
      assert r == r[..j] + [r[j]] + r[j + 1..];
      assert multiset(r) == multiset(r[..j]) + multiset{r[j]} + multiset(r[j + 1..]);
      assert r[i] in r[..j];
    }
  }
}
