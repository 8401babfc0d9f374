/** Small functions on reals. A product is a named function, so that proofs about equal
    factors need no nonlinear reasoning. */
module Reals {

  function Min(a: real, b: real): (r: real)
    ensures r <= a && r <= b && (r == a || r == b)
  {
    if b < a then b else a
  }

  function Max(a: real, b: real): (r: real)
    ensures r >= a && r >= b && (r == a || r == b)
  {
    if a >= b then a else b
  }

  function Abs(x: real): (r: real)
    ensures r >= 0.0 && (r == x || r == -x)
  {
    if x < 0.0 then -x else x
  }

  function Sum(xs: seq<real>): real
    decreases |xs|
  {
    if xs == [] then 0.0 else Sum(xs[..|xs| - 1]) + xs[|xs| - 1]
  }

  function Product(a: real, b: real): real { a * b }

  lemma ProductIs(a: real, b: real)
    ensures Product(a, b) == a * b == Product(b, a)
  {
  }

  lemma ProductLe(x: real, y: real, p: real)
    requires x <= y && p >= 0.0
    ensures Product(x, p) <= Product(y, p)
  {
  }

  lemma ProductLeInverse(x: real, y: real, p: real)
    requires p > 0.0 && Product(x, p) <= Product(y, p)
    ensures x <= y
  {
  }

  lemma Regroup(a: real, b: real, f: real)
    ensures Product(Product(a, b), f) == Product(Product(a, f), b) == Product(a, Product(b, f))
  {
  }

  lemma Distribute(a: real, b: real, f: real)
    ensures Product(a + b, f) == Product(a, f) + Product(b, f)
    ensures Product(f, a + b) == Product(f, a) + Product(f, b)
  {
  }

  lemma PositiveProduct(x: real, y: real)
    requires x > 0.0 && y > 0.0
    ensures Product(x, y) > 0.0
  {
  }

  lemma NegatedProduct(x: real)
    ensures Product(-x, -x) == Product(x, x)
  {
  }

  lemma DivideBack(n: real, x: real)
    requires n > 0.0
    ensures Product(n, x / n) == x
  {
  }
}
