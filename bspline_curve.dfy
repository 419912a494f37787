/**
 * `BSplineCurve`, the edge representation: control points, a degree and a knot vector that
 * defaults to a uniform clamped one, and `fit_to_points`, which parameterises ordered
 * points by chord length and interpolates control points at evenly spaced parameters.
 * The one-dimensional interpolation is a library call and enters as a parameter.
 */
module BSplineCurves {
  import opened Wrappers
  import opened Vectors
  import opened Mesh
  import SurfaceFitting

  datatype BSplineCurve = BSplineCurve(controlPoints: seq<Vec3>, degree: nat, knots: seq<real>)

  /** The error `np.linspace` raises when degree > n + 1 asks for a negative number of samples. */
  const NegativeSamples: string := "Number of samples must be non-negative"

  // ---------------------------------------------------------------------------
  // The default knot vector
  // ---------------------------------------------------------------------------

  /**
   * Entry i of the default knots for n control points: 1 on the last `degree` slots, the
   * `n + 1 - degree` evenly spaced values of [0, 1] from slot `degree` on, 0 before.
   */
  function UniformKnot(n: nat, degree: nat, i: nat): real
    requires degree <= n + 1 && i < n + degree + 1
  {
    if i >= n + 1 then 1.0
    else if i >= degree then SurfaceFitting.Linspace(i - degree, n + 1 - degree)
    else 0.0
  }

  /** The intended default: `linspace(0, 1, n + 1 - degree)` on slots degree .. n, ones after. */
  function DefaultKnots(n: nat, degree: nat): (r: seq<real>)
    requires degree <= n + 1
    ensures |r| == n + degree + 1
  {
    seq(n + degree + 1, i requires 0 <= i < n + degree + 1 => UniformKnot(n, degree, i))
  }

  /** The default knots, or the linspace error when the degree exceeds n + 1. */
  function ClampedKnots(n: nat, degree: nat): Result<seq<real>> {
    if degree > n + 1 then Failure(NegativeSamples) else Success(DefaultKnots(n, degree))
  }

  /**
   * The default knots as the slice assignments compute them. With degree 0 the slice
   * `[degree:-degree]` is `[0:0]`, which is empty, so `linspace(0, 1, n + 1)` cannot be
   * broadcast into it unless it has one element; `[-degree:]` is then the whole array.
   */
  function KnotsAsWritten(n: nat, degree: nat): Result<seq<real>> {
    if degree > n + 1 then Failure(NegativeSamples)
    else if degree == 0 then
      if n == 0 then Success([1.0])
      else Failure("could not broadcast input array into an empty slice")
    else Success(DefaultKnots(n, degree))
  }

  /** From degree 1 on, the slices compute the intended knots. */
  lemma AsWrittenAgrees(n: nat, degree: nat)
    requires degree >= 1
    ensures KnotsAsWritten(n, degree) == ClampedKnots(n, degree)
  {
  }

  /**
   * With degree 0 and at least one control point, the constructor as written raises, while
   * the intended knots exist and are the clamped vector 0, 1/n, ..., 1.
   */
  lemma DegreeZeroRaises(n: nat)
    requires n >= 1
    ensures KnotsAsWritten(n, 0).Failure?
    ensures ClampedKnots(n, 0).Success?
    ensures SurfaceFitting.FullyClamped(ClampedKnots(n, 0).value, 0)
  {
    DefaultKnotsShape(n, 0);
  }

  /**
   * With at least degree + 1 control points the default knots are fully clamped (degree + 1
   * zeros and degree + 1 ones) and non-decreasing within [0, 1].
   */
  lemma DefaultKnotsShape(n: nat, degree: nat)
    requires n >= degree + 1
    ensures SurfaceFitting.FullyClamped(DefaultKnots(n, degree), degree)
    ensures SurfaceFitting.NonDecreasing(DefaultKnots(n, degree))
    ensures SurfaceFitting.WithinUnit(DefaultKnots(n, degree))
  {
    var r := DefaultKnots(n, degree);
    var m := n + 1 - degree;
    SurfaceFitting.LinspaceBounds(0, m - 1, m);
    forall i, j | 0 <= i <= j < |r|
      ensures 0.0 <= r[i] <= r[j] <= 1.0
    {
      if degree <= i <= n {
        SurfaceFitting.LinspaceBounds(i - degree, if j <= n then j - degree else i - degree, m);
      } else if degree <= j <= n {
        SurfaceFitting.LinspaceBounds(j - degree, j - degree, m);
      }
    }
  }

  /** From slot degree to slot n the default knots step evenly by 1 / (n - degree). */
  lemma DefaultKnotsUniform(n: nat, degree: nat)
    requires n >= degree + 1
    ensures forall i :: degree <= i <= n ==> DefaultKnots(n, degree)[i] * (n - degree) as real == (i - degree) as real
  {
    var r := DefaultKnots(n, degree);
    forall i | degree <= i <= n
      ensures r[i] * (n - degree) as real == (i - degree) as real
    {
      assert r[i] == (i - degree) as real / (n - degree) as real;
    }
  }

  /**
   * `__init__` without knots: a zeroed array, the linspace written over slots degree .. n,
   * then ones over the last `degree` slots.
   */
  method CreateKnots(n: nat, degree: nat) returns (r: Result<seq<real>>)
    ensures r == ClampedKnots(n, degree)
  {
    var nKnots := n + degree + 1;
    if degree > n + 1 {
      return Failure(NegativeSamples);
    }
    var m := nKnots - 2 * degree;
    var knots := new real[nKnots](_ => 0.0);
    for k := 0 to m
      invariant forall j :: 0 <= j < nKnots ==>
        knots[j] == (if degree <= j < degree + k then UniformKnot(n, degree, j) else 0.0)
    {
      knots[degree + k] := SurfaceFitting.Linspace(k, m);
    }
    for j := nKnots - degree to nKnots
      invariant forall i :: 0 <= i < nKnots ==>
        knots[i] == (if i < j || i < nKnots - degree then UniformKnot(n, degree, i) else 0.0)
    {
      knots[j] := 1.0;
    }
    assert knots[..] == DefaultKnots(n, degree);
    r := Success(knots[..]);
  }

  /** `BSplineCurve(control_points, degree, knots)`: given knots are kept, else the defaults. */
  function NewCurve(controlPoints: seq<Vec3>, degree: nat, knots: Option<seq<real>>): (r: Result<BSplineCurve>)
    ensures r.Success? <==> knots.Some? || degree <= |controlPoints| + 1
    ensures r.Success? ==> r.value.controlPoints == controlPoints && r.value.degree == degree
    ensures r.Success? && knots.Some? ==> r.value.knots == knots.value
    ensures r.Success? && knots.None? ==> |r.value.knots| == |controlPoints| + degree + 1
    ensures knots.None? && |controlPoints| >= degree + 1 ==> SurfaceFitting.FullyClamped(r.value.knots, degree)
  {
    if knots.Some? then Success(BSplineCurve(controlPoints, degree, knots.value))
    else
      var k := ClampedKnots(|controlPoints|, degree);
      if k.Failure? then Failure(k.error)
      else if |controlPoints| >= degree + 1 then
        DefaultKnotsShape(|controlPoints|, degree);
        Success(BSplineCurve(controlPoints, degree, k.value))
      else Success(BSplineCurve(controlPoints, degree, k.value))
  }

  /** `__init__`: the knot array is built only when none is given. */
  method Init(controlPoints: seq<Vec3>, degree: nat, knots: Option<seq<real>>) returns (r: Result<BSplineCurve>)
    ensures r == NewCurve(controlPoints, degree, knots)
  {
    if knots.Some? {
      return Success(BSplineCurve(controlPoints, degree, knots.value));
    }
    var k := CreateKnots(|controlPoints|, degree);
    if k.Failure? {
      return Failure(k.error);
    }
    r := Success(BSplineCurve(controlPoints, degree, k.value));
  }

  // ---------------------------------------------------------------------------
  // fit_to_points
  // ---------------------------------------------------------------------------

  /** `min(len(points), max(4, len(points) // 3))`. */
  function NControl(len: nat): (r: nat)
    ensures r <= len
    ensures len <= 4 ==> r == len
    ensures len >= 4 ==> 4 <= r && 3 * r <= len + 12
  {
    var wanted := if len / 3 > 4 then len / 3 else 4;
    if len < wanted then len else wanted
  }

  /** The distances between consecutive points. */
  function Chords(rm: RealMath, points: seq<Vec3>): (ds: seq<real>)
    requires |points| > 0
    ensures |ds| == |points| - 1
    ensures forall k :: 0 <= k < |ds| ==> ds[k] == Norm(rm, Sub(points[k + 1], points[k])) >= 0.0
  {
    seq(|points| - 1, k requires 0 <= k < |points| - 1 => Norm(rm, Sub(points[k + 1], points[k])))
  }

  predicate AllNonNeg(ds: seq<real>) {
    forall k :: 0 <= k < |ds| ==> ds[k] >= 0.0
  }

  /** A longer prefix of non-negative lengths sums to at least as much. */
  lemma {:induction false} PrefixSumMonotone(ds: seq<real>, i: nat, j: nat)
    requires AllNonNeg(ds) && i <= j <= |ds|
    ensures Sum(ds[..i]) <= Sum(ds[..j])
    decreases j
  {
    if i < j {
      PrefixSumMonotone(ds, i, j - 1);
      assert ds[..j][..j - 1] == ds[..j - 1];
    }
  }

  /** Non-negative lengths sum to 0 exactly when every one is 0. */
  lemma {:induction false} SumZeroIff(ds: seq<real>)
    requires AllNonNeg(ds)
    ensures Sum(ds) == 0.0 <==> forall k :: 0 <= k < |ds| ==> ds[k] == 0.0
    decreases |ds|
  {
    if |ds| > 0 {
      var init := ds[..|ds| - 1];
      SumZeroIff(init);
      PrefixSumMonotone(init, 0, |init|);
      assert init[..0] == [] && init[..|init|] == init;
    }
  }

  /**
   * The chord-length parameters: the cumulative distance to each point over the total.
   * No points make `params[-1]` raise; a total of 0 makes every parameter 0/0, which the
   * model reports as an error rather than carrying NaN on.
   */
  function ChordParams(rm: RealMath, points: seq<Vec3>): (r: Result<seq<real>>)
    ensures r.Success? ==> |r.value| == |points|
  {
    if |points| == 0 then Failure("index -1 is out of bounds for axis 0 with size 0")
    else
      var ds := Chords(rm, points);
      var total := Sum(ds);
      if total == 0.0 then Failure("chord lengths sum to 0: parameters are not a number")
      else Success(seq(|points|, i requires 0 <= i < |points| => Sum(ds[..i]) / total))
  }

  /**
   * The parameters exist exactly when there are points and not all consecutive points
   * coincide (with a true square root); they then run non-decreasing from 0 to 1.
   */
  lemma ChordParamsSpec(rm: RealMath, points: seq<Vec3>)
    requires SqrtLaw(rm)
    ensures ChordParams(rm, points).Success? <==>
      |points| > 0 && exists k :: 0 <= k < |points| - 1 && points[k + 1] != points[k]
    ensures ChordParams(rm, points).Success? ==>
      var ps := ChordParams(rm, points).value;
      ps[0] == 0.0 && ps[|ps| - 1] == 1.0 && SurfaceFitting.NonDecreasing(ps) && SurfaceFitting.WithinUnit(ps)
  {
    if |points| > 0 {
      var ds := Chords(rm, points);
      var total := Sum(ds);
      SumZeroIff(ds);
      forall k | 0 <= k < |ds|
        ensures ds[k] == 0.0 <==> points[k + 1] == points[k]
      {
        NormZeroIff(rm, Sub(points[k + 1], points[k]));
        assert Sub(points[k + 1], points[k]) == Zero <==> points[k + 1] == points[k];
      }
      if total != 0.0 {
        ChordParamsOrdered(ds, total);
      }
    }
  }

  /** Prefix sums over the total lie in [0, 1], start at 0, end at 1 and never decrease. */
  lemma ChordParamsOrdered(ds: seq<real>, total: real)
    requires AllNonNeg(ds) && total == Sum(ds) && total != 0.0
    ensures var ps := seq(|ds| + 1, i requires 0 <= i < |ds| + 1 => Sum(ds[..i]) / total);
      ps[0] == 0.0 && ps[|ps| - 1] == 1.0 && SurfaceFitting.NonDecreasing(ps) && SurfaceFitting.WithinUnit(ps)
  {
    var ps := seq(|ds| + 1, i requires 0 <= i < |ds| + 1 => Sum(ds[..i]) / total);
    assert ds[..0] == [] && ds[..|ds|] == ds;
    PrefixSumMonotone(ds, 0, |ds|);
    DivBounds(total, total, 1.0, 1.0);
    forall i, j | 0 <= i <= j < |ps|
      ensures 0.0 <= ps[i] <= ps[j] <= 1.0
    {
      PrefixSumMonotone(ds, 0, i);
      PrefixSumMonotone(ds, i, j);
      PrefixSumMonotone(ds, j, |ds|);
      DivBounds(Sum(ds[..i]), total, 0.0, 1.0);
      DivBounds(Sum(ds[..j]), total, 0.0, 1.0);
      SurfaceFitting.DivMonotone(Sum(ds[..i]), Sum(ds[..j]), total);
    }
  }

  /** `interp1d(params, values, kind='linear')` evaluated at one parameter. */
  type Interpolator = (seq<real>, seq<real>, real) -> real

  /** The control points: each coordinate interpolated at `linspace(0, 1, n_control)`. */
  function ControlPointsAt(interp: Interpolator, params: seq<real>, points: seq<Vec3>, nControl: nat): (cs: seq<Vec3>)
    ensures |cs| == nControl
  {
    seq(nControl, k requires 0 <= k < nControl =>
      var t := SurfaceFitting.Linspace(k, nControl);
      Vec3(interp(params, Column(points, 0), t), interp(params, Column(points, 1), t), interp(params, Column(points, 2), t)))
  }

  /** `BSplineCurve.fit_to_points`. */
  function FitToPoints(rm: RealMath, interp: Interpolator, points: seq<Vec3>, degree: nat): Result<BSplineCurve> {
    var params := ChordParams(rm, points);
    if params.Failure? then Failure(params.error)
    else NewCurve(ControlPointsAt(interp, params.value, points, NControl(|points|)), degree, None)
  }

  /**
   * `fit_to_points` succeeds exactly when the chord parameters exist and the degree is at
   * most n_control + 1; the curve has n_control control points, the given degree and the
   * default knots, which are fully clamped when n_control >= degree + 1.
   */
  lemma FitToPointsSpec(rm: RealMath, interp: Interpolator, points: seq<Vec3>, degree: nat)
    ensures FitToPoints(rm, interp, points, degree).Success? <==>
      ChordParams(rm, points).Success? && degree <= NControl(|points|) + 1
    ensures FitToPoints(rm, interp, points, degree).Success? ==>
      var c := FitToPoints(rm, interp, points, degree).value;
      && |c.controlPoints| == NControl(|points|) <= |points|
      && c.degree == degree
      && c.knots == DefaultKnots(NControl(|points|), degree)
      && (NControl(|points|) >= degree + 1 ==> SurfaceFitting.FullyClamped(c.knots, degree))
  {
  }
}
