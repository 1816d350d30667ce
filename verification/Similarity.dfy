/**
 What the similarity measures (datasets/ranking.py): the cosine of the angle. It is the dot
 product over the product of the norms, sees neither the order of the two vectors nor their
 lengths, orders candidates by that quotient, and reaches 1 and -1 on parallel vectors alone.
 */
module Similarity {
  import opened Domain
  import opened Cosine

  /** Vectors on which the source divides. */
  predicate Comparable(left: Vector, right: Vector) {
    |left| == |right| && SquareSum(left) != 0.0 && SquareSum(right) != 0.0
  }

  function Norm(root: real -> real, a: Vector): (n: real)
    requires IsRoot(root)
    ensures IsNorm(n, SquareSum(a)) && (n == 0.0 <==> SquareSum(a) == 0.0)
  {
    RootFacts(root, SquareSum(a));
    root(SquareSum(a))
  }

  /** `c` is the cosine that the dot product `d` gives at norms `l` and `r`. */
  predicate IsCosine(c: real, l: real, r: real, d: real) {
    c * (l * r) == d
  }

  function Times(x: real, y: real): real {
    x * y
  }

  lemma Divided(d: real, m: real)
    requires m > 0.0
    ensures (d / m) * m == d
  {
  }

  lemma QuotientIsCosine(d: real, l: real, r: real)
    requires l > 0.0 && r > 0.0
    ensures IsCosine(Quotient(d, l, r), l, r, d)
  {
    ProductPositive(l, r);
    Divided(d, l * r);
  }

  /** The similarity of comparable vectors is the dot product over the product of the norms. */
  lemma SimilarityIsCosine(root: real -> real, left: Vector, right: Vector)
    requires IsRoot(root) && Comparable(left, right)
    ensures
      var c := CosineSimilarity(root, left, right);
      c.Some? && IsCosine(c.value, Norm(root, left), Norm(root, right), Dot(left, right))
  {
    QuotientIsCosine(Dot(left, right), Norm(root, left), Norm(root, right));
  }

  lemma {:induction false} DotSymmetric(a: Vector, b: Vector)
    requires |a| == |b|
    ensures Dot(a, b) == Dot(b, a)
  {
    if a != [] { DotSymmetric(a[1..], b[1..]); }
  }

  lemma SimilaritySymmetric(root: real -> real, left: Vector, right: Vector)
    requires IsRoot(root)
    ensures CosineSimilarity(root, left, right) == CosineSimilarity(root, right, left)
  {
    var l, r := Norm(root, left), Norm(root, right);
    if Comparable(left, right) {
      DotSymmetric(left, right);
      Exchange(l, r, Dot(left, right));
    }
  }

  lemma Exchange(l: real, r: real, d: real)
    requires l > 0.0 && r > 0.0
    ensures Quotient(d, l, r) == Quotient(d, r, l)
  {
    assert l * r == r * l;
  }

  // -------------------------------------------------------------------------------------
  // The dot product is linear.
  // -------------------------------------------------------------------------------------

  /** The difference p.a - q.b. */
  function Difference(p: real, a: Vector, q: real, b: Vector): (r: Vector)
    requires |a| == |b|
    ensures |r| == |a| && forall i :: 0 <= i < |a| ==> IsDifference(r[i], p, a[i], q, b[i])
  {
    if a == [] then [] else [p * a[0] - q * b[0]] + Difference(p, a[1..], q, b[1..])
  }

  predicate IsDifference(d: real, p: real, u: real, q: real, w: real) {
    d == p * u - q * w
  }

  lemma {:induction false} DotLinear(p: real, a: Vector, q: real, b: Vector, c: Vector)
    requires |a| == |b| == |c|
    ensures IsDifference(Dot(Difference(p, a, q, b), c), p, Dot(a, c), q, Dot(b, c))
  {
    if a != [] {
      var diff, s, t := Difference(p, a, q, b), Dot(a[1..], c[1..]), Dot(b[1..], c[1..]);
      DotLinear(p, a[1..], q, b[1..], c[1..]);
      assert diff[1..] == Difference(p, a[1..], q, b[1..]);
      Distribute(p, a[0], c[0], s);
      Distribute(q, b[0], c[0], t);
    }
  }

  lemma Distribute(k: real, x: real, y: real, d: real)
    ensures (k * x) * y + k * d == k * (x * y + d)
  {
  }

  lemma {:induction false} SquareIsDot(a: Vector)
    ensures SquareSum(a) == Dot(a, a)
  {
    if a != [] { SquareIsDot(a[1..]); }
  }

  // -------------------------------------------------------------------------------------
  // Lengths do not matter, and a turn by half a circle negates.
  // -------------------------------------------------------------------------------------

  function Scaled(k: real, a: Vector): (r: Vector)
    ensures |r| == |a| && forall i :: 0 <= i < |a| ==> r[i] == k * a[i]
  {
    if a == [] then [] else [k * a[0]] + Scaled(k, a[1..])
  }

  lemma {:induction false} ScaledProducts(k: real, a: Vector, b: Vector)
    requires |a| == |b|
    ensures Dot(Scaled(k, a), b) == Times(k, Dot(a, b))
  {
    if a != [] {
      ScaledProducts(k, a[1..], b[1..]);
      assert Scaled(k, a)[1..] == Scaled(k, a[1..]);
      Distribute(k, a[0], b[0], Dot(a[1..], b[1..]));
    }
  }

  lemma {:induction false} ScaledSquares(k: real, a: Vector)
    ensures SquareSum(Scaled(k, a)) == Times(k * k, SquareSum(a))
  {
    if a != [] {
      ScaledSquares(k, a[1..]);
      assert Scaled(k, a)[1..] == Scaled(k, a[1..]);
      Rearrange(k, a[0]);
      Distribute(k * k, a[0], a[0], SquareSum(a[1..]));
    }
  }

  function Abs(k: real): real {
    if k >= 0.0 then k else -k
  }

  /** A number has one non-negative root. */
  lemma RootUnique(p: real, q: real, x: real)
    requires IsNorm(p, x) && IsNorm(q, x)
    ensures p == q
  {
    RootIsMonotone(p, q);
    RootIsMonotone(q, p);
  }

  lemma ScaledRoot(k: real, n: real, x: real)
    requires IsNorm(n, x)
    ensures IsNorm(Times(Abs(k), n), Times(k * k, x))
  {
    var m := Abs(k);
    ProductSign(m, n);
    Rearrange(m, n);
    assert m * m == k * k;
    assert (n * n) * (m * m) == x * (k * k);
  }

  lemma NormScaled(root: real -> real, k: real, a: Vector)
    requires IsRoot(root)
    ensures Norm(root, Scaled(k, a)) == Times(Abs(k), Norm(root, a))
  {
    ScaledSquares(k, a);
    ScaledRoot(k, Norm(root, a), SquareSum(a));
    RootUnique(Norm(root, Scaled(k, a)), Times(Abs(k), Norm(root, a)), SquareSum(Scaled(k, a)));
  }

  lemma QuotientScaled(k: real, d: real, l: real, r: real)
    requires k != 0.0 && l > 0.0 && r > 0.0
    ensures Times(Abs(k), l) > 0.0
    ensures Quotient(Times(k, d), Times(Abs(k), l), r) == if k > 0.0 then Quotient(d, l, r) else -Quotient(d, l, r)
  {
    var m := Abs(k);
    ProductPositive(m, l);
    ProductPositive(l, r);
    ProductPositive(m, l * r);
    var q := Quotient(d, l, r);
    Divided(d, l * r);
    assert (m * l) * r == m * (l * r);
    var s := if k > 0.0 then q else -q;
    assert s * (m * (l * r)) == k * (q * (l * r));
    QuotientUnique(k * d, m * (l * r), s);
  }

  lemma QuotientUnique(d: real, m: real, c: real)
    requires m > 0.0 && c * m == d
    ensures d / m == c
  {
  }

  /** A positive factor changes nothing, and a negative one the sign alone. */
  lemma SimilarityScaled(root: real -> real, k: real, left: Vector, right: Vector)
    requires IsRoot(root) && k != 0.0
    ensures
      var c, scaled := CosineSimilarity(root, left, right), CosineSimilarity(root, Scaled(k, left), right);
      && (scaled.Some? <==> c.Some?)
      && (c.Some? ==> scaled.value == if k > 0.0 then c.value else -c.value)
  {
    var l, r, m := Norm(root, left), Norm(root, right), Norm(root, Scaled(k, left));
    NormScaled(root, k, left);
    if l != 0.0 {
      ProductPositive(Abs(k), l);
      if |left| == |right| && r != 0.0 {
        ScaledProducts(k, left, right);
        QuotientScaled(k, Dot(left, right), l, r);
      }
    }
  }

  // -------------------------------------------------------------------------------------
  // The order of two candidates.
  // -------------------------------------------------------------------------------------

  lemma Spread(x: real, y: real, m: real)
    ensures Times(y, m) == Times(x, m) + (y - x) * m
  {
  }

  lemma FactorKeeps(x: real, y: real, m: real)
    requires m > 0.0
    ensures x < y ==> Times(x, m) < Times(y, m)
  {
    Spread(x, y, m);
    if x < y { ProductPositive(y - x, m); }
  }

  lemma CommonFactor(x: real, y: real, m: real)
    requires m > 0.0
    ensures Times(x, m) <= Times(y, m) <==> x <= y
  {
    FactorKeeps(x, y, m);
    FactorKeeps(y, x, m);
  }

  /** Candidates are ordered by dot product over norm. */
  lemma SimilarityOrder(root: real -> real, v: Vector, a: Vector, b: Vector)
    requires IsRoot(root) && Comparable(v, a) && Comparable(v, b)
    ensures CosineSimilarity(root, v, a).Some? && CosineSimilarity(root, v, b).Some?
    ensures CosineSimilarity(root, v, a).value <= CosineSimilarity(root, v, b).value <==>
            Times(Dot(v, a), Norm(root, b)) <= Times(Dot(v, b), Norm(root, a))
  {
    SimilarityIsCosine(root, v, a);
    SimilarityIsCosine(root, v, b);
    var c, d := CosineSimilarity(root, v, a).value, CosineSimilarity(root, v, b).value;
    QuotientOrder(c, d, Norm(root, v), Norm(root, a), Norm(root, b), Dot(v, a), Dot(v, b));
  }

  lemma QuotientOrder(c: real, d: real, n: real, p: real, q: real, x: real, y: real)
    requires n > 0.0 && p > 0.0 && q > 0.0 && IsCosine(c, n, p, x) && IsCosine(d, n, q, y)
    ensures c <= d <==> Times(x, q) <= Times(y, p)
  {
    ProductPositive(p, q);
    ProductPositive(n, p * q);
    CommonFactor(c, d, n * (p * q));
    Regroup(c, n, p, q);
    Regroup(d, n, q, p);
    assert p * q == q * p;
  }

  lemma Regroup(c: real, n: real, p: real, q: real)
    ensures (c * (n * p)) * q == c * (n * (p * q))
  {
  }

  /** Of two candidates of the same norm the larger dot product is the higher score. */
  lemma LargerDotWins(root: real -> real, v: Vector, a: Vector, b: Vector)
    requires IsRoot(root) && Comparable(v, a) && Comparable(v, b) && SquareSum(a) == SquareSum(b)
    ensures CosineSimilarity(root, v, a).Some? && CosineSimilarity(root, v, b).Some?
    ensures CosineSimilarity(root, v, a).value <= CosineSimilarity(root, v, b).value <==> Dot(v, a) <= Dot(v, b)
  {
    SimilarityOrder(root, v, a, b);
    assert Norm(root, a) == Norm(root, b);
    CommonFactor(Dot(v, a), Dot(v, b), Norm(root, a));
  }

  // -------------------------------------------------------------------------------------
  // The extremes.
  // -------------------------------------------------------------------------------------

  /** The square of the norm of p.a - q.b, expanded. */
  function Expanded(p: real, q: real, a: real, b: real, d: real): real {
    (p * p) * a - 2.0 * ((p * q) * d) + (q * q) * b
  }

  lemma DifferenceSquares(p: real, a: Vector, q: real, b: Vector)
    requires |a| == |b|
    ensures SquareSum(Difference(p, a, q, b)) == Expanded(p, q, SquareSum(a), SquareSum(b), Dot(a, b))
  {
    var diff := Difference(p, a, q, b);
    SquareIsDot(diff);
    SquareIsDot(a);
    SquareIsDot(b);
    DotSymmetric(a, diff);
    DotSymmetric(b, diff);
    DotSymmetric(a, b);
    DotLinear(p, a, q, b, diff);
    DotLinear(p, a, q, b, a);
    DotLinear(p, a, q, b, b);
    Expand(p, q, Dot(a, a), Dot(b, b), Dot(a, b), Dot(a, diff), Dot(b, diff), Dot(diff, diff));
  }

  lemma Expand(p: real, q: real, a: real, b: real, d: real, u: real, w: real, s: real)
    requires IsDifference(s, p, u, q, w) && IsDifference(u, p, a, q, d) && IsDifference(w, p, d, q, b)
    ensures s == Expanded(p, q, a, b, d)
  {
    assert p * (p * a - q * d) == (p * p) * a - (p * q) * d;
    assert q * (p * d - q * b) == (p * q) * d - (q * q) * b;
  }

  predicate Matches(sign: real, x: real, l: real, y: real, r: real) {
    r * x == sign * (l * y)
  }

  /** `a` at length `r` is `sign` times `b` at length `l`. */
  ghost predicate Parallel(sign: real, a: Vector, l: real, b: Vector, r: real)
    requires |a| == |b|
  {
    forall i :: 0 <= i < |a| ==> Matches(sign, a[i], l, b[i], r)
  }

  /** Both vectors are non-zero, of one length, and point the same way, or for `sign` -1 opposite ways. */
  ghost predicate Aligned(root: real -> real, sign: real, left: Vector, right: Vector)
    requires IsRoot(root)
  {
    Comparable(left, right) && Parallel(sign, left, Norm(root, left), right, Norm(root, right))
  }

  /** The similarity is 1 on vectors of one direction alone, and -1 on opposite ones alone. */
  lemma ExtremeIffAligned(root: real -> real, sign: real, left: Vector, right: Vector)
    requires IsRoot(root) && (sign == 1.0 || sign == -1.0)
    ensures CosineSimilarity(root, left, right) == Some(sign) <==> Aligned(root, sign, left, right)
  {
    var l, r := Norm(root, left), Norm(root, right);
    if Comparable(left, right) {
      SimilarityIsCosine(root, left, right);
      ExtremeWithNorms(CosineSimilarity(root, left, right).value, sign, left, l, right, r);
    }
  }

  lemma ExtremeWithNorms(c: real, sign: real, a: Vector, l: real, b: Vector, r: real)
    requires |a| == |b| && l > 0.0 && r > 0.0 && (sign == 1.0 || sign == -1.0)
    requires IsNorm(l, SquareSum(a)) && IsNorm(r, SquareSum(b)) && IsCosine(c, l, r, Dot(a, b))
    ensures c == sign <==> Parallel(sign, a, l, b, r)
  {
    DifferenceSquares(r, a, Times(sign, l), b);
    SquaresOfExtreme(c, sign, l, r, SquareSum(a), SquareSum(b), Dot(a, b));
    ParallelIffNoDifference(r, a, sign, l, b);
  }

  lemma ParallelIffNoDifference(p: real, a: Vector, sign: real, q: real, b: Vector)
    requires |a| == |b|
    ensures SquareSum(Difference(p, a, Times(sign, q), b)) == 0.0 <==> Parallel(sign, a, q, b, p)
  {
    var diff := Difference(p, a, Times(sign, q), b);
    SquareSumZero(diff);
    forall i | 0 <= i < |a| ensures diff[i] == 0.0 <==> Matches(sign, a[i], q, b[i], p) {
      NoDifference(diff[i], p, a[i], sign, q, b[i]);
    }
  }

  lemma NoDifference(d: real, p: real, x: real, sign: real, q: real, y: real)
    requires IsDifference(d, p, x, Times(sign, q), y)
    ensures d == 0.0 <==> Matches(sign, x, q, y, p)
  {
    assert (sign * q) * y == sign * (q * y);
  }

  lemma SquaresOfExtreme(c: real, sign: real, l: real, r: real, a: real, b: real, d: real)
    requires l > 0.0 && r > 0.0 && (sign == 1.0 || sign == -1.0)
    requires IsNorm(l, a) && IsNorm(r, b) && IsCosine(c, l, r, d)
    ensures Expanded(r, Times(sign, l), a, b, d) == 0.0 <==> c == sign
  {
    var m := l * r;
    var z := m * m;
    ProductPositive(l, r);
    PositiveProduct(m, m, z);
    Rearrange(l, r);
    SignedSquares(sign, l, r);
    assert (sign * m) * (c * m) == (sign * c) * z by { Interchange(sign, c, m); }
    ExtremeFactor(sign * c, z);
    assert sign * c == 1.0 <==> c == sign;
  }

  lemma SignedSquares(sign: real, l: real, r: real)
    requires sign == 1.0 || sign == -1.0
    ensures (sign * l) * (sign * l) == l * l && r * (sign * l) == sign * (l * r)
  {
  }

  lemma Interchange(s: real, c: real, m: real)
    ensures (s * m) * (c * m) == (s * c) * (m * m)
  {
  }

  lemma ExtremeFactor(e: real, z: real)
    requires z > 0.0
    ensures z - 2.0 * (e * z) + z == 0.0 <==> e == 1.0
  {
    assert z - 2.0 * (e * z) + z == 2.0 * ((1.0 - e) * z);
    if e != 1.0 { NonZeroProduct(1.0 - e, z); }
  }

  lemma NonZeroProduct(a: real, z: real)
    requires a != 0.0 && z > 0.0
    ensures a * z != 0.0
  {
    if a > 0.0 { ProductPositive(a, z); } else { ProductPositive(-a, z); }
  }
}
