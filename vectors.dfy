/**
 * Three-dimensional real vectors, the scalar functions the source takes from numpy
 * (square root, cosine, tangent, arc cosine) as parameters with stated laws, and
 * sums, means, minima and maxima of real sequences (numpy reductions).
 */
module Vectors {

  type NonNeg = x: real | x >= 0.0

  datatype Vec3 = Vec3(x: real, y: real, z: real)

  const Zero: Vec3 := Vec3(0.0, 0.0, 0.0)

  function Add(a: Vec3, b: Vec3): Vec3 { Vec3(a.x + b.x, a.y + b.y, a.z + b.z) }
  function Sub(a: Vec3, b: Vec3): Vec3 { Vec3(a.x - b.x, a.y - b.y, a.z - b.z) }
  function Scale(k: real, v: Vec3): Vec3 { Vec3(k * v.x, k * v.y, k * v.z) }
  function Neg(v: Vec3): Vec3 { Vec3(-v.x, -v.y, -v.z) }
  function Dot(a: Vec3, b: Vec3): real { a.x * b.x + a.y * b.y + a.z * b.z }
  function Cross(a: Vec3, b: Vec3): Vec3 {
    Vec3(a.y * b.z - a.z * b.y, a.z * b.x - a.x * b.z, a.x * b.y - a.y * b.x)
  }

  /** Componentwise division, `v / d` in numpy. */
  function DivBy(v: Vec3, d: real): Vec3
    requires d != 0.0
  {
    Vec3(v.x / d, v.y / d, v.z / d)
  }

  function Abs(x: real): NonNeg { if x < 0.0 then -x else x }
  function MaxReal(a: real, b: real): real { if a < b then b else a }
  function MinReal(a: real, b: real): real { if a < b then a else b }

  /**
   * The transcendental functions of numpy, as parameters. `sqrt` is typed to return a
   * non-negative value; its squaring law is the predicate SqrtLaw, required only where used.
   */
  datatype RealMath = RealMath(
    sqrt: real -> NonNeg,
    cos: real -> real,
    tan: real -> real,
    arccos: real -> real)

  ghost predicate SqrtLaw(m: RealMath) {
    forall x: real :: x >= 0.0 ==> m.sqrt(x) * m.sqrt(x) == x
  }

  /** numpy.linalg.norm of a vector: the square root of its dot product with itself. */
  function Norm(m: RealMath, v: Vec3): NonNeg { m.sqrt(Dot(v, v)) }

  lemma MulPos(a: real, b: real)
    requires a > 0.0 && b > 0.0
    ensures a * b > 0.0
  {}

  lemma MulNonNeg(a: real, b: real)
    requires a >= 0.0 && b >= 0.0
    ensures a * b >= 0.0
  {}

  lemma DiffSquares(a: real, b: real)
    ensures (b - a) * (b + a) == b * b - a * a
  {}

  lemma NegSquare(x: real)
    ensures (-x) * (-x) == x * x
  {}

  /** Squaring is strictly increasing on the non-negative reals. */
  lemma SquareMono(a: real, b: real)
    requires 0.0 <= a < b
    ensures a * a < b * b
  {
    MulPos(b - a, b + a);
    DiffSquares(a, b);
  }

  lemma SquarePos(a: real)
    ensures a * a >= 0.0
    ensures a != 0.0 ==> a * a > 0.0
  {
    if a > 0.0 {
      SquareMono(0.0, a);
    } else if a < 0.0 {
      NegSquare(a);
      SquareMono(0.0, -a);
    }
  }

  /** Multiplying both sides of an inequality by a positive factor. */
  lemma MulLt(a: real, b: real, c: real)
    requires a < b && c > 0.0
    ensures a * c < b * c
  {
    MulPos(b - a, c);
    assert (b - a) * c == b * c - a * c;
  }

  /** Two non-negative reals with the same square are equal. */
  lemma SameSquare(s: real, b: real)
    requires s >= 0.0 && b >= 0.0
    requires s * s == b * b
    ensures s == b
  {
    if s < b {
      SquareMono(s, b);
    } else if b < s {
      SquareMono(b, s);
    }
  }

  lemma SqrtSquared(m: RealMath, x: real)
    requires SqrtLaw(m)
    requires x >= 0.0
    ensures m.sqrt(x) * m.sqrt(x) == x
  {
  }

  /** The square root of a square is the absolute value. */
  lemma SqrtOfSquare(m: RealMath, a: real)
    requires SqrtLaw(m)
    ensures m.sqrt(a * a) == Abs(a)
  {
    SquarePos(a);
    var s := m.sqrt(a * a);
    SqrtSquared(m, a * a);
    var b := Abs(a);
    if a < 0.0 { NegSquare(a); }
    SameSquare(s, b);
  }

  lemma SquareZero(a: real)
    requires a * a == 0.0
    ensures a == 0.0
  {
    if a > 0.0 {
      SquareMono(0.0, a);
    } else if a < 0.0 {
      NegSquare(a);
      SquareMono(0.0, -a);
    }
  }

  lemma DotSelfNonNeg(v: Vec3)
    ensures Dot(v, v) >= 0.0
    ensures Dot(v, v) == 0.0 <==> v == Zero
  {
    SquarePos(v.x);
    SquarePos(v.y);
    SquarePos(v.z);
    if Dot(v, v) == 0.0 {
      SquareZero(v.x);
      SquareZero(v.y);
      SquareZero(v.z);
    }
  }

  /** The square root of 0 is 0. */
  lemma SqrtZero(m: RealMath)
    requires SqrtLaw(m)
    ensures m.sqrt(0.0) == 0.0
  {
    SqrtSquared(m, 0.0);
    SquareZero(m.sqrt(0.0));
  }

  /** A vector has norm 0 exactly when it is the zero vector. */
  lemma NormZeroIff(m: RealMath, v: Vec3)
    requires SqrtLaw(m)
    ensures Norm(m, v) == 0.0 <==> v == Zero
  {
    DotSelfNonNeg(v);
    var d := Dot(v, v);
    SqrtSquared(m, d);
    if v == Zero {
      SqrtZero(m);
    }
  }

  lemma SquareOfProduct(a: real, b: real)
    ensures (a * b) * (a * b) == (a * a) * (b * b)
  {}

  lemma DotScale(k: real, v: Vec3)
    ensures Dot(Scale(k, v), Scale(k, v)) == (k * k) * Dot(v, v)
  {
    SquareOfProduct(k, v.x);
    SquareOfProduct(k, v.y);
    SquareOfProduct(k, v.z);
  }

  /** Norm(k v) = |k| Norm(v). */
  lemma NormScale(m: RealMath, k: real, v: Vec3)
    requires SqrtLaw(m)
    ensures Norm(m, Scale(k, v)) == Abs(k) * Norm(m, v)
  {
    DotSelfNonNeg(v);
    DotSelfNonNeg(Scale(k, v));
    DotScale(k, v);
    var n := Norm(m, v);
    var s := Norm(m, Scale(k, v));
    var a := Abs(k);
    SqrtSquared(m, Dot(v, v));
    SqrtSquared(m, Dot(Scale(k, v), Scale(k, v)));
    if k < 0.0 { NegSquare(k); }
    assert a * a == k * k;
    SquareOfProduct(a, n);
    MulNonNeg(a, n);
    SameSquare(s, a * n);
  }

  lemma DivIsScale(v: Vec3, n: real)
    requires n != 0.0
    ensures DivBy(v, n) == Scale(1.0 / n, v)
  {}

  lemma InverseTimes(n: real)
    requires n > 0.0
    ensures Abs(1.0 / n) * n == 1.0
  {}

  // ---------------------------------------------------------------------------
  // Reductions over real sequences
  // ---------------------------------------------------------------------------

  function Sum(s: seq<real>): real
    decreases |s|
  {
    if |s| == 0 then 0.0 else Sum(s[..|s| - 1]) + s[|s| - 1]
  }

  /** numpy.mean; the source never takes the mean of an empty selection where it matters. */
  function Mean(s: seq<real>): real
    requires |s| > 0
  {
    Sum(s) / (|s| as real)
  }

  function MinOf(s: seq<real>): (r: real)
    requires |s| > 0
    ensures forall i :: 0 <= i < |s| ==> r <= s[i]
    ensures exists i :: 0 <= i < |s| && s[i] == r
    decreases |s|
  {
    if |s| == 1 then s[0]
    else
      var rest := MinOf(s[1..]);
      assert forall i :: 1 <= i < |s| ==> s[i] == s[1..][i - 1];
      if s[0] <= rest then s[0] else rest
  }

  function MaxOf(s: seq<real>): (r: real)
    requires |s| > 0
    ensures forall i :: 0 <= i < |s| ==> s[i] <= r
    ensures exists i :: 0 <= i < |s| && s[i] == r
    decreases |s|
  {
    if |s| == 1 then s[0]
    else
      var rest := MaxOf(s[1..]);
      assert forall i :: 1 <= i < |s| ==> s[i] == s[1..][i - 1];
      if rest <= s[0] then s[0] else rest
  }

  lemma {:induction false} SumBounds(s: seq<real>, lo: real, hi: real)
    requires forall i :: 0 <= i < |s| ==> lo <= s[i] <= hi
    ensures (|s| as real) * lo <= Sum(s) <= (|s| as real) * hi
    decreases |s|
  {
    if |s| > 0 {
      var n := |s| as real;
      var p := s[..|s| - 1];
      SumBounds(p, lo, hi);
      assert |p| as real == n - 1.0;
      assert Sum(s) == Sum(p) + s[|s| - 1];
      assert (n - 1.0) * hi + hi == n * hi;
      assert (n - 1.0) * lo + lo == n * lo;
    }
  }

  lemma DivBounds(a: real, n: real, lo: real, hi: real)
    requires n > 0.0
    requires n * lo <= a <= n * hi
    ensures lo <= a / n <= hi
  {
    var q := a / n;
    assert q * n == a;
    if q > hi {
      MulLt(hi, q, n);
    }
    if q < lo {
      MulLt(q, lo, n);
    }
  }

  /** A mean of values within [lo, hi] lies within [lo, hi]. */
  lemma MeanBounds(s: seq<real>, lo: real, hi: real)
    requires |s| > 0
    requires forall i :: 0 <= i < |s| ==> lo <= s[i] <= hi
    ensures lo <= Mean(s) <= hi
  {
    SumBounds(s, lo, hi);
    DivBounds(Sum(s), |s| as real, lo, hi);
  }

  /** The mean lies between the minimum and the maximum. */
  lemma MeanBetweenMinMax(s: seq<real>)
    requires |s| > 0
    ensures MinOf(s) <= Mean(s) <= MaxOf(s)
  {
    MeanBounds(s, MinOf(s), MaxOf(s));
  }

  lemma MeanNonNeg(s: seq<real>)
    requires |s| > 0
    requires forall i :: 0 <= i < |s| ==> s[i] >= 0.0
    ensures Mean(s) >= 0.0
  {
    MeanBetweenMinMax(s);
  }
}
