/** Embedding vectors and their products. */
module Vectors {
  import opened Sums

  type Vector = seq<real>

  /** The sum of the products of entries paired off; entries without a partner are ignored. */
  function Dot(x: Vector, y: Vector): real {
    if x == [] || y == [] then 0.0 else x[0] * y[0] + Dot(x[1..], y[1..])
  }

  lemma {:induction false} DotCommutes(x: Vector, y: Vector)
    ensures Dot(x, y) == Dot(y, x)
  {
    if x != [] && y != [] { DotCommutes(x[1..], y[1..]); }
  }

  /** The product of two vectors of a length is the sum of the products of their entries. */
  lemma DotMeaning(x: Vector, y: Vector, products: int -> real)
    requires |x| == |y| && forall i | 0 <= i < |x| :: products(i) == x[i] * y[i]
    ensures Dot(x, y) == Sum(|x|, products)
  {
    DotIsSum(x, y, products);
  }

  lemma {:induction false} DotIsSum(x: Vector, y: Vector, products: int -> real)
    requires |x| == |y| && forall i | 0 <= i < |x| :: products(i) == Scaled(x[i], y[i])
    ensures Dot(x, y) == Sum(|x|, products)
  {
    if x != [] {
      var rest := i => products(i + 1);
      DotFront(x, y);
      hide Dot, Scaled;
      DotIsSum(x[1..], y[1..], rest);
      SumFront(|x| - 1, products, rest);
    }
  }

  lemma DotFront(x: Vector, y: Vector)
    requires |x| == |y| > 0
    ensures Dot(x, y) == Scaled(x[0], y[0]) + Dot(x[1..], y[1..])
  {
  }

  lemma {:induction false} SumFront(n: nat, f: int -> real, g: int -> real)
    requires forall i | 0 <= i < n :: g(i) == f(i + 1)
    ensures Sum(n + 1, f) == f(0) + Sum(n, g)
  {
    if n > 0 { SumFront(n - 1, f, g); }
  }
}
