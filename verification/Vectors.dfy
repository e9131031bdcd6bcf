/** Cosine similarity (app/cache/semantic_cache.py:107-115) over real vectors.
    The square root is a parameter; Roots says what is assumed of it. */
module Vectors {

  type Vector = seq<real>

  ghost predicate Roots(sqrt: real -> real) {
    forall x: real {:trigger sqrt(x)} :: x >= 0.0 ==> sqrt(x) >= 0.0 && sqrt(x) * sqrt(x) == x
  }

  function Dot(a: Vector, b: Vector): real
    requires |a| == |b|
  {
    if a == [] then 0.0 else Dot(a[..|a| - 1], b[..|b| - 1]) + a[|a| - 1] * b[|b| - 1]
  }

  function Norm(sqrt: real -> real, a: Vector): real {
    sqrt(Dot(a, a))
  }

  function Quotient(d: real, x: real, y: real): real {
    if x == 0.0 || y == 0.0 then 0.0
    else
      ProductNonZero(x, y);
      d / (x * y)
  }

  function Cosine(sqrt: real -> real, a: Vector, b: Vector): real {
    if |a| != |b| || a == [] then 0.0 else Quotient(Dot(a, b), Norm(sqrt, a), Norm(sqrt, b))
  }

  lemma ProductNonZero(x: real, y: real)
    requires x != 0.0 && y != 0.0
    ensures x * y != 0.0
  {}

  lemma ProductLess(x: real, y: real, z: real)
    requires x < y && 0.0 < z
    ensures x * z < y * z
  {}

  function Scaled(k: real, a: Vector): (r: Vector)
    ensures |r| == |a| && forall i :: 0 <= i < |a| ==> r[i] == k * a[i]
  {
    seq(|a|, i requires 0 <= i < |a| => k * a[i])
  }

  lemma {:induction false} DotSymmetric(a: Vector, b: Vector)
    requires |a| == |b|
    ensures Dot(a, b) == Dot(b, a)
  {
    if a != [] {
      DotSymmetric(a[..|a| - 1], b[..|b| - 1]);
    }
  }

  lemma {:induction false} SquareNonNegative(a: Vector)
    ensures Dot(a, a) >= 0.0
  {
    if a != [] {
      SquareNonNegative(a[..|a| - 1]);
      assert a[|a| - 1] * a[|a| - 1] >= 0.0;
    }
  }

  lemma {:induction false} DotScaled(k: real, a: Vector, b: Vector)
    requires |a| == |b|
    ensures Dot(Scaled(k, a), b) == k * Dot(a, b)
  {
    if a != [] {
      var n := |a| - 1;
      forall i | 0 <= i < n ensures Scaled(k, a)[..n][i] == Scaled(k, a[..n])[i] {
        assert a[..n][i] == a[i];
      }
      assert Scaled(k, a)[..n] == Scaled(k, a[..n]);
      DotScaled(k, a[..n], b[..n]);
      assert k * (Dot(a[..n], b[..n]) + a[n] * b[n]) == k * Dot(a[..n], b[..n]) + k * a[n] * b[n];
    }
  }

  /** The mixed term of one more coordinate is bounded by the squares. */
  lemma MixedTerm(aa: real, ab: real, bb: real, x: real, y: real)
    requires aa >= 0.0 && bb >= 0.0 && ab * ab <= aa * bb
    ensures 2.0 * ab * (x * y) <= aa * (y * y) + bb * (x * x)
  {
    var gap := aa * (y * y) + bb * (x * x) - 2.0 * ab * (x * y);
    if aa == 0.0 {
      if ab != 0.0 {
        SquarePositive(ab);
      }
      SquareSign(x);
      ProductSign(bb, x * x);
    } else {
      SquareSign(aa * y - ab * x);
      SquareSign(x);
      ProductSign(aa * bb - ab * ab, x * x);
      assert aa * gap == (aa * y - ab * x) * (aa * y - ab * x) + (aa * bb - ab * ab) * (x * x);
      if gap < 0.0 {
        ProductLess(gap, 0.0, aa);
      }
    }
  }

  lemma SquareSign(x: real)
    ensures x * x >= 0.0
  {}

  lemma ProductSign(x: real, y: real)
    requires x >= 0.0 && y >= 0.0
    ensures x * y >= 0.0
  {}

  lemma SquarePositive(x: real)
    requires x != 0.0
    ensures x * x > 0.0
  {
    if x > 0.0 {
      ProductLess(0.0, x, x);
    } else {
      var y := -x;
      ProductLess(0.0, y, y);
      assert y * y == x * x;
    }
  }

  /** One more coordinate keeps the Cauchy-Schwarz inequality. */
  lemma CauchySchwarzStep(aa: real, ab: real, bb: real, x: real, y: real, aa': real, ab': real, bb': real)
    requires aa >= 0.0 && bb >= 0.0 && ab * ab <= aa * bb
    requires aa' == aa + x * x && ab' == ab + x * y && bb' == bb + y * y
    ensures ab' * ab' <= aa' * bb'
  {
    MixedTerm(aa, ab, bb, x, y);
    assert ab' * ab' == ab * ab + 2.0 * ab * (x * y) + (x * y) * (x * y);
    assert aa' * bb' == aa * bb + aa * (y * y) + bb * (x * x) + (x * x) * (y * y);
    assert (x * y) * (x * y) == (x * x) * (y * y);
  }

  /** Cauchy-Schwarz. */
  lemma {:induction false} CauchySchwarz(a: Vector, b: Vector)
    requires |a| == |b|
    ensures Dot(a, b) * Dot(a, b) <= Dot(a, a) * Dot(b, b)
  {
    if a != [] {
      var a', b' := a[..|a| - 1], b[..|b| - 1];
      CauchySchwarz(a', b');
      SquareNonNegative(a');
      SquareNonNegative(b');
      CauchySchwarzStep(Dot(a', a'), Dot(a', b'), Dot(b', b'), a[|a| - 1], b[|b| - 1], Dot(a, a), Dot(a, b), Dot(b, b));
    }
  }

  lemma SquareLess(x: real, y: real)
    requires 0.0 <= x < y
    ensures x * x < y * y
  {
    ProductLess(0.0, y - x, y + x);
    assert (y - x) * (y + x) == y * y - x * x;
  }

  lemma SquareBound(x: real, y: real)
    requires y >= 0.0 && x * x <= y * y
    ensures -y <= x <= y
  {
    if x > y {
      SquareLess(y, x);
    }
    if x < -y {
      SquareLess(y, -x);
    }
  }

  lemma SquareOfProduct(x: real, y: real, a: real, b: real)
    requires x * x == a && y * y == b
    ensures (x * y) * (x * y) == a * b
  {
    assert (x * y) * (x * y) == (x * x) * (y * y);
  }

  lemma NormIsRoot(sqrt: real -> real, a: Vector)
    requires Roots(sqrt)
    ensures Norm(sqrt, a) >= 0.0 && Norm(sqrt, a) * Norm(sqrt, a) == Dot(a, a)
  {
    SquareNonNegative(a);
  }

  lemma QuotientBounded(d: real, x: real, y: real)
    requires -(x * y) <= d <= x * y
    ensures -1.0 <= Quotient(d, x, y) <= 1.0
  {
    if x != 0.0 && y != 0.0 {
      ProductNonZero(x, y);
      var m, q := x * y, d / (x * y);
      assert q * m == d;
      if q > 1.0 {
        ProductLess(1.0, q, m);
      }
      if q < -1.0 {
        ProductLess(q, -1.0, m);
      }
    }
  }

  lemma RootsBoundQuotient(d: real, x: real, y: real, xx: real, yy: real)
    requires x >= 0.0 && y >= 0.0 && x * x == xx && y * y == yy && d * d <= xx * yy
    ensures -1.0 <= Quotient(d, x, y) <= 1.0
  {
    ProductSign(x, y);
    SquareOfProduct(x, y, xx, yy);
    SquareBound(d, x * y);
    QuotientBounded(d, x, y);
  }

  /** Cosine similarity lies in [-1, 1], for all vectors. */
  lemma CosineBounded(sqrt: real -> real, a: Vector, b: Vector)
    requires Roots(sqrt)
    ensures -1.0 <= Cosine(sqrt, a, b) <= 1.0
  {
    if |a| == |b| && a != [] {
      NormIsRoot(sqrt, a);
      NormIsRoot(sqrt, b);
      CauchySchwarz(a, b);
      RootsBoundQuotient(Dot(a, b), Norm(sqrt, a), Norm(sqrt, b), Dot(a, a), Dot(b, b));
    }
  }

  lemma QuotientSwap(d: real, x: real, y: real)
    ensures Quotient(d, x, y) == Quotient(d, y, x)
  {
    assert x * y == y * x;
  }

  lemma CosineSymmetric(sqrt: real -> real, a: Vector, b: Vector)
    ensures Cosine(sqrt, a, b) == Cosine(sqrt, b, a)
  {
    if |a| == |b| && a != [] {
      DotSymmetric(a, b);
      QuotientSwap(Dot(a, b), Norm(sqrt, a), Norm(sqrt, b));
    }
  }

  lemma QuotientSelf(d: real, x: real)
    requires x * x == d && d != 0.0
    ensures Quotient(d, x, x) == 1.0
  {
    if x != 0.0 {
      ProductNonZero(x, x);
      var m := x * x;
      assert d / m == 1.0;
    }
  }

  /** A non-zero vector has similarity 1 with itself. */
  lemma CosineSelf(sqrt: real -> real, a: Vector)
    requires Roots(sqrt) && Dot(a, a) != 0.0
    ensures Cosine(sqrt, a, a) == 1.0
  {
    NormIsRoot(sqrt, a);
    QuotientSelf(Dot(a, a), Norm(sqrt, a));
  }

  lemma ScaledRoot(k: real, x: real, y: real, xx: real, yy: real)
    requires k > 0.0 && x >= 0.0 && y >= 0.0 && x * x == xx && y * y == yy && xx == k * (k * yy)
    ensures x == k * y
  {
    ProductSign(k, y);
    assert (k * y) * (k * y) == k * (k * (y * y));
    RootUnique(x, k * y);
  }

  lemma NormScaled(sqrt: real -> real, k: real, a: Vector)
    requires Roots(sqrt) && k > 0.0
    ensures Norm(sqrt, Scaled(k, a)) == k * Norm(sqrt, a)
  {
    DotScaled(k, a, Scaled(k, a));
    DotSymmetric(a, Scaled(k, a));
    DotScaled(k, a, a);
    NormIsRoot(sqrt, a);
    NormIsRoot(sqrt, Scaled(k, a));
    ScaledRoot(k, Norm(sqrt, Scaled(k, a)), Norm(sqrt, a), Dot(Scaled(k, a), Scaled(k, a)), Dot(a, a));
  }

  lemma RootUnique(x: real, y: real)
    requires x >= 0.0 && y >= 0.0 && x * x == y * y
    ensures x == y
  {
    if x < y {
      SquareLess(x, y);
    }
    if y < x {
      SquareLess(y, x);
    }
  }

  lemma QuotientScaled(k: real, d: real, x: real, y: real, dk: real, xk: real)
    requires k > 0.0 && dk == k * d && xk == k * x
    ensures Quotient(dk, xk, y) == Quotient(d, x, y)
  {
    if x != 0.0 && y != 0.0 {
      ProductNonZero(x, y);
      ProductNonZero(k, x);
      ProductNonZero(xk, y);
      var q := d / (x * y);
      assert q * (x * y) == d;
      assert xk * y == k * (x * y);
      assert q * (k * (x * y)) == k * (q * (x * y));
    }
  }

  /** Scaling a vector by a positive factor does not change its similarity with any other. */
  lemma CosineScaleInvariant(sqrt: real -> real, k: real, a: Vector, b: Vector)
    requires Roots(sqrt) && k > 0.0
    ensures Cosine(sqrt, Scaled(k, a), b) == Cosine(sqrt, a, b)
  {
    if |a| == |b| && a != [] {
      NormScaled(sqrt, k, a);
      DotScaled(k, a, b);
      QuotientScaled(k, Dot(a, b), Norm(sqrt, a), Norm(sqrt, b), Dot(Scaled(k, a), b), Norm(sqrt, Scaled(k, a)));
    }
  }
}
