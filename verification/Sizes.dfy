/** Counting members of sets and lists, and the smaller of two counts. */
module Sizes {
  import opened Sorting

  function Min(a: nat, b: nat): nat { if a <= b then a else b }

  lemma {:induction false} SubsetSize<T>(a: set<T>, b: set<T>)
    requires a <= b
    ensures |a| <= |b|
  {
    if x :| x in a {
      SubsetSize(a - {x}, b - {x});
    }
  }

  /** Counting the numbers below n + 1 with p, one more than below n if n is one. */
  lemma CountNext(n: nat, p: int -> bool)
    ensures |set i | 0 <= i < n + 1 && p(i)| == |set i | 0 <= i < n && p(i)| + if p(n) then 1 else 0
  {
    var before := set i | 0 <= i < n && p(i);
    assert (set i | 0 <= i < n + 1 && p(i)) == if p(n) then before + {n} else before;
  }

  lemma {:induction false} IntervalSize(a: set<nat>, from: nat, count: nat)
    requires forall t: nat :: t in a <==> from <= t < from + count
    ensures |a| == count
  {
    if count == 0 {
      assert a == {};
    } else {
      IntervalSize(a - {from + count - 1}, from, count - 1);
    }
  }

  ghost function Below(n: nat): (numbers: set<nat>)
    ensures forall x: nat :: x in numbers <==> x < n
    ensures |numbers| == n
  {
    if n == 0 then {} else Below(n - 1) + {n - 1}
  }

  function Members<T>(s: seq<T>): set<T> { set x | x in s }

  /** A list has at least as many places as members, and as many if nothing is repeated. */
  lemma {:induction false} MembersSize<T>(s: seq<T>)
    ensures |Members(s)| <= |s|
    ensures Distinct(s) ==> |Members(s)| == |s|
  {
    if s == [] {
      assert Members(s) == {};
    } else {
      var front, last := s[..|s| - 1], s[|s| - 1];
      MembersSize(front);
      assert s == front + [last];
      assert Members(s) == Members(front) + {last};
    }
  }

  /** Different numbers below n that leave one out are fewer than n. */
  lemma RoomForMore(s: seq<nat>, n: nat, d: nat)
    requires Distinct(s) && (forall x | x in s :: x < n) && d < n && d !in s
    ensures |s| < n
  {
    MembersSize(s);
    SubsetSize(Members(s) + {d}, Below(n));
  }

  /** A list shorter than n leaves a number below n out. */
  lemma SomethingLeft(s: seq<nat>, n: nat)
    requires |s| < n
    ensures exists i :: 0 <= i < n && i !in s
  {
    if forall i | 0 <= i < n :: i in s {
      MembersSize(s);
      SubsetSize(Below(n), Members(s));
    }
  }

  /** Place i of a list, counted from a given number on, holds a member with p. */
  predicate AtPlace<T>(s: seq<T>, from: nat, p: T -> bool, i: nat) { from <= i < from + |s| && p(s[i - from]) }

  ghost function Places<T>(s: seq<T>, from: nat, p: T -> bool): (places: set<nat>)
    ensures forall i: nat :: i in places <==> AtPlace(s, from, p, i)
  {
    if s == [] then {}
    else
      assert s == s[..|s| - 1] + [s[|s| - 1]];
      Places(s[..|s| - 1], from, p) + if p(s[|s| - 1]) then {from + |s| - 1} else {}
  }

  ghost function MembersWith<T(!new)>(s: seq<T>, p: T -> bool): (members: set<T>)
    ensures forall x :: x in members <==> x in s && p(x)
  {
    if s == [] then {}
    else
      assert s == s[..|s| - 1] + [s[|s| - 1]];
      MembersWith(s[..|s| - 1], p) + if p(s[|s| - 1]) then {s[|s| - 1]} else {}
  }

  /** Choosing places of a list without repeats and choosing its members amounts to the same. */
  lemma {:induction false} PlacesAndMembers<T(!new)>(s: seq<T>, from: nat, p: T -> bool)
    requires Distinct(s)
    ensures |Places(s, from, p)| == |MembersWith(s, p)|
  {
    if s != [] {
      var front, last := s[..|s| - 1], s[|s| - 1];
      PlacesAndMembers(front, from, p);
      assert !AtPlace(front, from, p, from + |front|);
      assert last !in front;
    }
  }
}
