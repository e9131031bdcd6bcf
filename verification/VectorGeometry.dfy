/** What the dot product and the cosine are: sums over every coordinate, with similarity 1 exactly for vectors of one
    direction. */
module VectorGeometry {
  import opened Vectors

  // ---------------------------------------------------------------- the dot product reads every coordinate

  lemma DotSingle(x: real, y: real)
    ensures Dot([x], [y]) == x * y
  {
    assert [x][..0] == [] && [y][..0] == [];
  }

  /** The dot product of concatenated vectors is the sum of the parts' dot products. */
  lemma {:induction false} DotConcat(a: Vector, c: Vector, b: Vector, d: Vector)
    requires |a| == |b| && |c| == |d|
    ensures Dot(a + c, b + d) == Dot(a, b) + Dot(c, d)
  {
    if c == [] {
      assert a + c == a && b + d == b;
    } else {
      var n := |c| - 1;
      DotConcat(a, c[..n], b, d[..n]);
      assert (a + c)[..|a| + n] == a + c[..n] && (b + d)[..|a| + n] == b + d[..n];
    }
  }

  /** Changing one coordinate changes the dot product by that coordinate's share and nothing else. */
  lemma {:induction false} DotUpdate(a: Vector, b: Vector, i: nat, x: real)
    requires |a| == |b| && i < |a|
    ensures Dot(a[i := x], b) - x * b[i] == Dot(a, b) - a[i] * b[i]
  {
    var n := |a| - 1;
    if i == n {
      assert a[i := x][..n] == a[..n];
    } else {
      DotUpdate(a[..n], b[..n], i, x);
      assert a[i := x][..n] == a[..n][i := x];
    }
  }

  ghost predicate IsZero(a: Vector) {
    forall i :: 0 <= i < |a| ==> a[i] == 0.0
  }

  lemma NonZeroProduct(x: real, y: real, z: real)
    requires x * y == z && x != 0.0 && y != 0.0
    ensures z != 0.0
  {}

  lemma ZeroRoot(x: real, xx: real)
    requires x * x == xx
    ensures xx >= 0.0
    ensures xx == 0.0 <==> x == 0.0
  {
    SquareSign(x);
    if x != 0.0 {
      NonZeroProduct(x, x, xx);
    }
  }

  /** A vector has norm zero exactly when all its coordinates are zero. */
  lemma {:induction false} NormDefinite(a: Vector)
    ensures Dot(a, a) == 0.0 <==> IsZero(a)
  {
    if a != [] {
      var n := |a| - 1;
      NormDefinite(a[..n]);
      SquareNonNegative(a[..n]);
      ZeroRoot(a[n], a[n] * a[n]);
      forall i | 0 <= i < n ensures a[..n][i] == a[i] {}
    }
  }

  // ---------------------------------------------------------------- the cosine is the normalised dot product

  lemma QuotientTimes(d: real, x: real, y: real)
    requires x != 0.0 && y != 0.0
    ensures Quotient(d, x, y) * (x * y) == d
  {
    ProductNonZero(x, y);
    var q := d / (x * y);
    assert q * (x * y) == d;
  }

  lemma PositiveRoot(sqrt: real -> real, a: Vector)
    requires Roots(sqrt) && !IsZero(a)
    ensures Norm(sqrt, a) > 0.0 && Norm(sqrt, a) * Norm(sqrt, a) == Dot(a, a)
  {
    NormIsRoot(sqrt, a);
    NormDefinite(a);
  }

  /** With any lengths x and y of two non-zero vectors, similarity times lengths is the dot product; vectors of
      different dimension and zero vectors have similarity 0. */
  lemma CosineIsNormalisedDot(sqrt: real -> real, a: Vector, b: Vector, x: real, y: real)
    requires Roots(sqrt) && x >= 0.0 && x * x == Dot(a, a) && y >= 0.0 && y * y == Dot(b, b)
    ensures |a| == |b| && !IsZero(a) && !IsZero(b) ==> Cosine(sqrt, a, b) * (x * y) == Dot(a, b)
    ensures |a| != |b| || IsZero(a) || IsZero(b) ==> Cosine(sqrt, a, b) == 0.0
  {
    NormIsRoot(sqrt, a);
    NormIsRoot(sqrt, b);
    RootUnique(x, Norm(sqrt, a));
    RootUnique(y, Norm(sqrt, b));
    NormDefinite(a);
    NormDefinite(b);
    if |a| == |b| && !IsZero(a) && !IsZero(b) {
      PositiveRoot(sqrt, a);
      PositiveRoot(sqrt, b);
      QuotientTimes(Dot(a, b), x, y);
    } else if |a| == |b| && a != [] {
      ZeroRoot(x, Dot(a, a));
      ZeroRoot(y, Dot(b, b));
    }
  }

  // ---------------------------------------------------------------- similarity 1

  ghost predicate SameDirection(a: Vector, b: Vector) {
    exists k: real :: k > 0.0 && b == Scaled(k, a)
  }

  /** When the dot product is the product of the lengths, the remainder of b along a has length zero. */
  lemma NoRemainder(aa: real, ab: real, bb: real, ac: real, bc: real, cc: real, x: real, y: real, k: real)
    requires x * x == aa && y * y == bb && ab == x * y && k * x == y
    requires ac == ab - k * aa && bc == bb - k * ab && cc == bc - k * ac
    ensures cc == 0.0
  {
    assert k * aa == (k * x) * x;
    assert k * ab == (k * x) * y;
    assert ac == 0.0 && bc == 0.0;
  }

  function Minus(a: Vector, b: Vector): (r: Vector)
    requires |a| == |b|
    ensures |r| == |a| && forall i :: 0 <= i < |a| ==> r[i] == a[i] - b[i]
  {
    seq(|a|, i requires 0 <= i < |a| => a[i] - b[i])
  }

  lemma {:induction false} DotMinus(a: Vector, b: Vector, c: Vector)
    requires |a| == |b| == |c|
    ensures Dot(Minus(a, b), c) == Dot(a, c) - Dot(b, c)
  {
    if a != [] {
      var n := |a| - 1;
      assert Minus(a, b)[..n] == Minus(a[..n], b[..n]);
      DotMinus(a[..n], b[..n], c[..n]);
      assert (a[n] - b[n]) * c[n] == a[n] * c[n] - b[n] * c[n];
    }
  }

  /** What is left of b after taking k times a out of it. */
  function Remainder(a: Vector, b: Vector, k: real): (r: Vector)
    requires |a| == |b|
    ensures |r| == |a|
  {
    Minus(b, Scaled(k, a))
  }

  lemma RemainderWith(a: Vector, b: Vector, k: real, v: Vector, c: Vector)
    requires |a| == |b| == |v| && c == Remainder(a, b, k)
    ensures Dot(v, c) == Dot(b, v) - k * Dot(a, v)
  {
    DotMinus(b, Scaled(k, a), v);
    DotScaled(k, a, v);
    DotSymmetric(v, c);
  }

  lemma Ratio(x: real, y: real) returns (k: real)
    requires x > 0.0 && y > 0.0
    ensures k > 0.0 && k * x == y
  {
    k := y / x;
    assert k * x == y;
    if k <= 0.0 {
      ProductSign(-k, x);
    }
  }

  lemma OneMeansSameDirection(sqrt: real -> real, a: Vector, b: Vector)
    requires Roots(sqrt) && |a| == |b| && !IsZero(a) && !IsZero(b) && Cosine(sqrt, a, b) == 1.0
    ensures SameDirection(a, b)
  {
    PositiveRoot(sqrt, a);
    PositiveRoot(sqrt, b);
    var x, y := Norm(sqrt, a), Norm(sqrt, b);
    CosineIsNormalisedDot(sqrt, a, b, x, y);
    var k := Ratio(x, y);
    var c := Remainder(a, b, k);
    RemainderWith(a, b, k, a, c);
    RemainderWith(a, b, k, b, c);
    RemainderWith(a, b, k, c, c);
    DotSymmetric(a, b);
    NoRemainder(Dot(a, a), Dot(a, b), Dot(b, b), Dot(a, c), Dot(b, c), Dot(c, c), x, y, k);
    NormDefinite(c);
    ZeroRemainder(a, b, k);
  }

  lemma ZeroRemainder(a: Vector, b: Vector, k: real)
    requires |a| == |b| && IsZero(Remainder(a, b, k))
    ensures b == Scaled(k, a)
  {
    forall i | 0 <= i < |b| ensures b[i] == Scaled(k, a)[i] {
      assert Remainder(a, b, k)[i] == 0.0;
    }
  }

  /** Two non-zero vectors of one dimension have similarity 1 exactly when one is a positive multiple of the other. */
  lemma CosineOneIff(sqrt: real -> real, a: Vector, b: Vector)
    requires Roots(sqrt) && |a| == |b| && !IsZero(a) && !IsZero(b)
    ensures Cosine(sqrt, a, b) == 1.0 <==> SameDirection(a, b)
  {
    if Cosine(sqrt, a, b) == 1.0 {
      OneMeansSameDirection(sqrt, a, b);
    }
    if k: real :| k > 0.0 && b == Scaled(k, a) {
      NormDefinite(a);
      CosineScaleInvariant(sqrt, k, a, a);
      CosineSelf(sqrt, a);
      CosineSymmetric(sqrt, a, b);
    }
  }

  /** Orthogonal vectors have similarity 0, and only they do. */
  lemma CosineZeroIff(sqrt: real -> real, a: Vector, b: Vector)
    requires Roots(sqrt) && |a| == |b| && !IsZero(a) && !IsZero(b)
    ensures Cosine(sqrt, a, b) == 0.0 <==> Dot(a, b) == 0.0
  {
    PositiveRoot(sqrt, a);
    PositiveRoot(sqrt, b);
    CosineIsNormalisedDot(sqrt, a, b, Norm(sqrt, a), Norm(sqrt, b));
    ProductNonZero(Norm(sqrt, a), Norm(sqrt, b));
    if Cosine(sqrt, a, b) != 0.0 {
      ProductNonZero(Cosine(sqrt, a, b), Norm(sqrt, a) * Norm(sqrt, b));
    }
  }
}
