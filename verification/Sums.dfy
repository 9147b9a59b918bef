/** Finite sums of reals indexed by 0..n, and the few rearrangements the graph
    modules need. */
module Sums {

  /** f(0) + f(1) + ... + f(n - 1) */
  ghost function Sum(n: nat, f: int -> real): real {
    if n == 0 then 0.0 else Sum(n - 1, f) + f(n - 1)
  }

  lemma {:induction false} SumExt(n: nat, f: int -> real, g: int -> real)
    requires forall i | 0 <= i < n :: f(i) == g(i)
    ensures Sum(n, f) == Sum(n, g)
  {
    if n > 0 { SumExt(n - 1, f, g); }
  }

  lemma {:induction false} SumAdd(n: nat, f: int -> real, g: int -> real, h: int -> real)
    requires forall i | 0 <= i < n :: h(i) == f(i) + g(i)
    ensures Sum(n, h) == Sum(n, f) + Sum(n, g)
  {
    if n > 0 { SumAdd(n - 1, f, g, h); }
  }

  lemma {:induction false} SumSub(n: nat, f: int -> real, g: int -> real, h: int -> real)
    requires forall i | 0 <= i < n :: h(i) == f(i) - g(i)
    ensures Sum(n, h) == Sum(n, f) - Sum(n, g)
  {
    if n > 0 { SumSub(n - 1, f, g, h); }
  }

  /** x scaled by c. Products are named, so that proofs about sums of them stay linear. */
  function Scaled(c: real, x: real): real { c * x }

  lemma ScaledAdds(c: real, x: real, y: real)
    ensures Scaled(c, x + y) == Scaled(c, x) + Scaled(c, y)
  {
  }

  lemma ScaledZero(c: real)
    ensures Scaled(c, 0.0) == 0.0
  {
  }

  lemma ScaledOne(x: real)
    ensures Scaled(1.0, x) == x
  {
  }

  lemma ScaledCommutes(c: real, x: real)
    ensures Scaled(c, x) == Scaled(x, c)
  {
  }

  lemma ScaledTwice(b: real, c: real, x: real)
    ensures Scaled(b, Scaled(c, x)) == Scaled(c, Scaled(b, x))
  {
    assert b * (c * x) == c * (b * x);
  }

  lemma ScaledSign(c: real, x: real)
    requires c >= 0.0 && x >= 0.0
    ensures Scaled(c, x) >= 0.0
    ensures c > 0.0 && x > 0.0 ==> Scaled(c, x) > 0.0
  {
  }

  lemma ScaledMono(c: real, x: real, y: real)
    requires x <= y && 0.0 <= c
    ensures Scaled(c, x) <= Scaled(c, y)
  {
    ScaledSign(c, y - x);
    ScaledAdds(c, x, y - x);
  }

  lemma {:induction false} SumScale(n: nat, c: real, f: int -> real, g: int -> real)
    requires forall i | 0 <= i < n :: g(i) == Scaled(c, f(i))
    ensures Sum(n, g) == Scaled(c, Sum(n, f))
  {
    hide Scaled;
    if n == 0 {
      ScaledZero(c);
    } else {
      SumScale(n - 1, c, f, g);
      ScaledAdds(c, Sum(n - 1, f), f(n - 1));
    }
  }

  lemma {:induction false} SumMono(n: nat, f: int -> real, g: int -> real)
    requires forall i | 0 <= i < n :: f(i) <= g(i)
    ensures Sum(n, f) <= Sum(n, g)
  {
    if n > 0 { SumMono(n - 1, f, g); }
  }

  lemma {:induction false} SumZero(n: nat, f: int -> real)
    requires forall i | 0 <= i < n :: f(i) == 0.0
    ensures Sum(n, f) == 0.0
  {
    if n > 0 { SumZero(n - 1, f); }
  }

  /** Only the term at k can be non-zero. */
  lemma {:induction false} SumSingle(n: nat, k: int, f: int -> real)
    requires forall i | 0 <= i < n && i != k :: f(i) == 0.0
    ensures Sum(n, f) == if 0 <= k < n then f(k) else 0.0
  {
    if n > 0 { SumSingle(n - 1, k, f); }
  }

  /** f and g differ at k only. */
  lemma {:induction false} SumPoint(n: nat, k: int, f: int -> real, g: int -> real)
    requires 0 <= k < n
    requires forall i | 0 <= i < n && i != k :: f(i) == g(i)
    ensures Sum(n, g) == Sum(n, f) + g(k) - f(k)
  {
    if k == n - 1 { SumExt(n - 1, f, g); } else { SumPoint(n - 1, k, f, g); }
  }

  lemma {:induction false} SumSwap(n: nat, m: nat, f: (int, int) -> real)
    ensures Sum(n, i => Sum(m, j => f(i, j))) == Sum(m, j => Sum(n, i => f(i, j)))
  {
    if n == 0 {
      SumZero(m, j => Sum(n, i => f(i, j)));
    } else {
      SumSwap(n - 1, m, f);
      SumAdd(m, j => Sum(n - 1, i => f(i, j)), j => f(n - 1, j), j => Sum(n, i => f(i, j)));
    }
  }

  /** Grouping the terms by key: summing each group and then the groups covers exactly
      the terms whose key is in range. */
  lemma {:induction false} SumByKey(n: nat, m: nat, key: int -> int, f: int -> real)
    ensures Sum(n, k => Sum(m, e => if key(e) == k then f(e) else 0.0))
         == Sum(m, e => if 0 <= key(e) < n then f(e) else 0.0)
  {
    var cell := (k, e) => if key(e) == k then f(e) else 0.0;
    var group := k => Sum(m, e => if key(e) == k then f(e) else 0.0);
    var column := e => Sum(n, k => cell(k, e));
    SumSwap(n, m, cell);
    forall k | 0 <= k < n ensures group(k) == Sum(m, e => cell(k, e)) {
      SumExt(m, e => if key(e) == k then f(e) else 0.0, e => cell(k, e));
    }
    SumExt(n, group, k => Sum(m, e => cell(k, e)));
    forall e | 0 <= e < m ensures column(e) == if 0 <= key(e) < n then f(e) else 0.0 {
      SumSingle(n, key(e), k => cell(k, e));
    }
    SumExt(m, column, e => if 0 <= key(e) < n then f(e) else 0.0);
  }

  function Abs(x: real): real { if x < 0.0 then -x else x }

  lemma {:induction false} SumAbs(n: nat, f: int -> real, g: int -> real)
    requires forall i | 0 <= i < n :: Abs(f(i)) <= g(i)
    ensures Abs(Sum(n, f)) <= Sum(n, g)
  {
    if n > 0 { SumAbs(n - 1, f, g); }
  }

  /** A term is at most the sum of non-negative terms. */
  lemma {:induction false} SumAtLeast(n: nat, k: int, f: int -> real)
    requires 0 <= k < n && forall i | 0 <= i < n :: f(i) >= 0.0
    ensures f(k) <= Sum(n, f)
  {
    if k < n - 1 {
      SumAtLeast(n - 1, k, f);
    } else {
      SumMono(n - 1, i => 0.0, f);
      SumZero(n - 1, i => 0.0);
    }
  }
}
