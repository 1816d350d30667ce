/**
 Cosine similarity (datasets/ranking.py) over the reals: it lies between -1 and 1 by the
 Cauchy-Schwarz inequality. `root` is the square root; floating-point rounding is not modelled.
 */
module Cosine {
  import opened Domain

  type Vector = seq<real>

  function Dot(a: Vector, b: Vector): real
    requires |a| == |b|
  {
    if a == [] then 0.0 else a[0] * b[0] + Dot(a[1..], b[1..])
  }

  function SquareSum(a: Vector): (r: real)
    ensures r >= 0.0
  {
    if a == [] then 0.0 else
    Square(a[0]);
    a[0] * a[0] + SquareSum(a[1..])
  }

  ghost predicate IsRoot(root: real -> real) {
    forall x: real :: x >= 0.0 ==> IsNorm(root(x), x)
  }

  predicate IsNorm(n: real, x: real) {
    n >= 0.0 && n * n == x
  }

  /** None where the source raises: lengths differ and neither norm is zero. */
  function CosineSimilarity(root: real -> real, left: Vector, right: Vector): Option<real>
    requires IsRoot(root)
  {
    var l, r := root(SquareSum(left)), root(SquareSum(right));
    if l == 0.0 || r == 0.0 then Some(0.0)
    else if |left| != |right| then None
    else
      RootFacts(root, SquareSum(left));
      RootFacts(root, SquareSum(right));
      Some(Quotient(Dot(left, right), l, r))
  }

  function Quotient(d: real, l: real, r: real): real
    requires l > 0.0 && r > 0.0
  {
    ProductPositive(l, r);
    d / (l * r)
  }

  lemma Square(x: real)
    ensures x * x >= 0.0
  {
  }

  lemma RootIsMonotone(p: real, q: real)
    requires p >= 0.0 && q * q <= p * p
    ensures -p <= q <= p
  {
    if q > p { Product(q, p); }
    if -q > p { Product(-q, p); }
  }

  lemma Product(q: real, p: real)
    requires q > p >= 0.0
    ensures q * q > p * p
  {
    ProductPositive(q - p, q + p);
    assert q * q - p * p == (q - p) * (q + p);
  }

  /** 4uv is at most (u + v) squared. */
  lemma MeansInequality(u: real, v: real)
    ensures 4.0 * (u * v) <= (u + v) * (u + v)
  {
    Square(u - v);
    assert (u - v) * (u - v) == (u + v) * (u + v) - 4.0 * (u * v);
  }

  lemma ProductMonotone(a: real, b: real, c: real)
    requires a <= b && c >= 0.0
    ensures a * c <= b * c
  {
  }

  lemma ProductSign(a: real, b: real)
    requires a >= 0.0 && b >= 0.0
    ensures a * b >= 0.0
  {
  }

  /** The cross term of the induction step: 2xyd <= xx.b + yy.a whenever dd <= ab. */
  lemma CrossTerm(x: real, y: real, d: real, a: real, b: real)
    requires a >= 0.0 && b >= 0.0 && d * d <= a * b
    ensures 2.0 * ((x * y) * d) <= (x * x) * b + (y * y) * a
  {
    var u, v, w := (x * x) * b, (y * y) * a, (x * y) * d;
    Square(x);
    Square(y);
    Square(x * y);
    ProductSign(x * x, b);
    ProductSign(y * y, a);
    MeansInequality(u, v);
    ProductMonotone(d * d, a * b, (x * y) * (x * y));
    assert w * w == (d * d) * ((x * y) * (x * y)) by { Rearrange(x * y, d); }
    assert u * v == (a * b) * ((x * y) * (x * y)) by { RearrangeFour(x, y, a, b); }
    assert (2.0 * w) * (2.0 * w) == 4.0 * (w * w) by { Rearrange(2.0, w); }
    RootIsMonotone(u + v, 2.0 * w);
  }

  lemma Rearrange(p: real, q: real)
    ensures (p * q) * (p * q) == (q * q) * (p * p)
  {
  }

  lemma RearrangeFour(x: real, y: real, a: real, b: real)
    ensures ((x * x) * b) * ((y * y) * a) == (a * b) * ((x * y) * (x * y))
  {
    Rearrange(x, y);
    var p, q := x * x, y * y;
    assert (p * b) * (q * a) == (a * b) * (q * p);
  }

  /** Cauchy-Schwarz. */
  lemma {:induction false} CauchySchwarz(left: Vector, right: Vector)
    requires |left| == |right|
    ensures Dot(left, right) * Dot(left, right) <= SquareSum(left) * SquareSum(right)
  {
    if left != [] {
      CauchySchwarz(left[1..], right[1..]);
      var x, y := left[0], right[0];
      var d, a, b := Dot(left[1..], right[1..]), SquareSum(left[1..]), SquareSum(right[1..]);
      CrossTerm(x, y, d, a, b);
      InductionStep(x, y, d, a, b);
    }
  }

  lemma InductionStep(x: real, y: real, d: real, a: real, b: real)
    requires d * d <= a * b && 2.0 * ((x * y) * d) <= (x * x) * b + (y * y) * a
    ensures (x * y + d) * (x * y + d) <= (x * x + a) * (y * y + b)
  {
    var p := x * y;
    assert (p + d) * (p + d) == p * p + 2.0 * (p * d) + d * d;
    Rearrange(x, y);
    assert (x * x + a) * (y * y + b) == (x * x) * (y * y) + (x * x) * b + (y * y) * a + a * b;
  }

  lemma DivisionBounds(d: real, m: real)
    requires m > 0.0 && -m <= d <= m
    ensures -1.0 <= d / m <= 1.0
  {
  }

  /** The quotient of the product of the norms, given Cauchy-Schwarz. */
  lemma QuotientBounded(d: real, l: real, r: real, a: real, b: real)
    requires l > 0.0 && r > 0.0 && IsNorm(l, a) && IsNorm(r, b) && d * d <= a * b
    ensures -1.0 <= Quotient(d, l, r) <= 1.0
  {
    ProductPositive(l, r);
    Rearrange(l, r);
    RootIsMonotone(l * r, d);
    DivisionBounds(d, l * r);
  }

  lemma PositiveProduct(p: real, q: real, x: real)
    requires p > 0.0 && q > 0.0 && p * q == x
    ensures x > 0.0
  {
    ProductPositive(p, q);
  }

  lemma RootFacts(root: real -> real, x: real)
    requires IsRoot(root) && x >= 0.0
    ensures IsNorm(root(x), x) && (root(x) == 0.0 <==> x == 0.0)
  {
    var r := root(x);
    assert r >= 0.0 && r * r == x;
    if r != 0.0 { PositiveProduct(r, r, x); }
  }

  lemma DotWithinNorms(left: Vector, right: Vector, l: real, r: real)
    requires |left| == |right| && l > 0.0 && r > 0.0
    requires IsNorm(l, SquareSum(left)) && IsNorm(r, SquareSum(right))
    ensures -1.0 <= Quotient(Dot(left, right), l, r) <= 1.0
  {
    CauchySchwarz(left, right);
    QuotientBounded(Dot(left, right), l, r, SquareSum(left), SquareSum(right));
  }

  /**
   The similarity is a number in [-1, 1], and 0 next to a zero vector, except on non-zero
   vectors of different lengths, where it is refused.
   */
  lemma CosineBounded(root: real -> real, left: Vector, right: Vector)
    requires IsRoot(root)
    ensures
      var c := CosineSimilarity(root, left, right);
      && (c.Some? ==> -1.0 <= c.value <= 1.0)
      && (SquareSum(left) == 0.0 || SquareSum(right) == 0.0 ==> c == Some(0.0))
      && (c.None? <==> |left| != |right| && SquareSum(left) != 0.0 && SquareSum(right) != 0.0)
  {
    RootFacts(root, SquareSum(left));
    RootFacts(root, SquareSum(right));
    if |left| == |right| && root(SquareSum(left)) != 0.0 && root(SquareSum(right)) != 0.0 {
      DotWithinNorms(left, right, root(SquareSum(left)), root(SquareSum(right)));
    }
  }

  lemma ProductPositive(a: real, b: real)
    requires a > 0.0 && b > 0.0
    ensures a * b > 0.0
  {
  }

  /** The zero norm is the zero vector's. */
  lemma {:induction false} SquareSumZero(a: Vector)
    ensures SquareSum(a) == 0.0 <==> forall i :: 0 <= i < |a| ==> a[i] == 0.0
  {
    if a != [] {
      var t := a[1..];
      SquareSumZero(t);
      assert SquareSum(a) == a[0] * a[0] + SquareSum(t);
      assert forall i :: 1 <= i < |a| ==> a[i] == t[i - 1];
      assert forall i :: 0 <= i < |t| ==> t[i] == a[i + 1];
      if a[0] > 0.0 {
        PositiveProduct(a[0], a[0], a[0] * a[0]);
      } else if a[0] < 0.0 {
        PositiveProduct(-a[0], -a[0], a[0] * a[0]);
      }
    }
  }
}
