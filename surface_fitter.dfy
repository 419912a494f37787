/**
 * The freeform surface fitter: PCA parameterisation of the points onto [0, 1)², a control
 * grid sized from the point count and the parameter spread, clamped knot vectors placed
 * at parameter percentiles, unit weights, and per-point errors against the fitted surface.
 * The SVD, percentile, scattered-data interpolation and spline evaluation are library
 * calls and enter as parameters (FitOracles).
 */
module SurfaceFitting {
  import opened Wrappers
  import opened Vectors
  import opened Config
  import opened Mesh
  import RansacGeometry

  /** The 1e-10 the source adds to every normalising denominator. */
  const Eps: real := 0.0000000001

  /** `NURBSSurface`: an n_u × n_v control grid with weights, two knot vectors and two degrees. */
  datatype NurbsSurface = NurbsSurface(
    controlPoints: seq<seq<Vec3>>,
    weights: seq<seq<real>>,
    knotsU: seq<real>,
    knotsV: seq<real>,
    degreeU: int,
    degreeV: int)

  /** `FittedSurface`: the surface with the indices of the fitted points and quality metrics. */
  datatype FittedSurface = FittedSurface(
    surface: NurbsSurface,
    pointIndices: seq<nat>,
    fittingError: real,
    maxError: real,
    coverage: real)

  /** `FittedSurface.is_acceptable`: the largest point error is within the tolerance. */
  predicate IsAcceptable(f: FittedSurface, tolerance: real) {
    f.maxError <= tolerance
  }

  /** A surface acceptable at one tolerance is acceptable at every looser one. */
  lemma AcceptableMonotone(f: FittedSurface, t1: real, t2: real)
    requires t1 <= t2
    ensures IsAcceptable(f, t1) ==> IsAcceptable(f, t2)
    ensures !IsAcceptable(f, t2) ==> f.maxError > t2 >= t1
  {
  }

  /**
   * The library calls. `principalAxes` gives the first two rows of the SVD's `vh` for the
   * centred points; `percentile(s, q)` is `np.percentile`; `controlValue(points, u, v,
   * n_u, n_v, i, j)` is the interpolated control point at grid cell (i, j), after the NaN
   * filling; `triangulates(u, v)` says whether Qhull's Delaunay triangulation of the (u, v)
   * parameter points succeeds, which both the cubic and the fallback linear `griddata` need,
   * so when it is false the fallback raises too; `evaluate(surface, u, v)` is the spline
   * evaluation, None when it raises.
   */
  datatype FitOracles = FitOracles(
    rm: RealMath,
    principalAxes: seq<Vec3> -> (Vec3, Vec3),
    percentile: (seq<real>, real) -> real,
    controlValue: (seq<Vec3>, seq<real>, seq<real>, nat, nat, nat, nat) -> Vec3,
    triangulates: (seq<real>, seq<real>) -> bool,
    evaluate: (NurbsSurface, real, real) -> Option<Vec3>)

  /** The (u, v) parameter points all lie on one line (fewer than three points always do). */
  predicate Collinear(u: seq<real>, v: seq<real>) {
    && |u| == |v|
    && forall i, j, k | 0 <= i < |u| && 0 <= j < |u| && 0 <= k < |u| ::
      (u[j] - u[i]) * (v[k] - v[i]) == (u[k] - u[i]) * (v[j] - v[i])
  }

  /** Qhull cannot triangulate a flat set of points: it raises on collinear input. */
  ghost predicate QhullLaw(triangulates: (seq<real>, seq<real>) -> bool) {
    forall u: seq<real>, v: seq<real> | Collinear(u, v) :: !triangulates(u, v)
  }

  /** What both `griddata` calls raise on parameters Qhull cannot triangulate. */
  const QhullFlat: string := "QhullError: initial simplex is flat"

  /** One or two parameter points are always collinear. */
  lemma FewPointsCollinear(u: seq<real>, v: seq<real>)
    requires |u| == |v| < 3
    ensures Collinear(u, v)
  {
    forall i, j, k | 0 <= i < |u| && 0 <= j < |u| && 0 <= k < |u|
      ensures (u[j] - u[i]) * (v[k] - v[i]) == (u[k] - u[i]) * (v[j] - v[i])
    {
      if i == j {
        assert u[j] - u[i] == 0.0 && v[j] - v[i] == 0.0;
      } else if i == k {
        assert u[k] - u[i] == 0.0 && v[k] - v[i] == 0.0;
      } else {
        assert j == k;
      }
    }
  }

  /** A percentile of a non-empty sample lies within its range and grows with q. */
  ghost predicate PercentileLaw(pct: (seq<real>, real) -> real) {
    && (forall s: seq<real>, q: real | |s| > 0 && 0.0 <= q <= 100.0 :: MinOf(s) <= pct(s, q) <= MaxOf(s))
    && (forall s: seq<real>, q1: real, q2: real | |s| > 0 && 0.0 <= q1 <= q2 <= 100.0 :: pct(s, q1) <= pct(s, q2))
  }

  // ---------------------------------------------------------------------------
  // Integer helpers
  // ---------------------------------------------------------------------------

  /** Python's `int(x)` on a finite float: truncation toward zero. */
  function Trunc(x: real): (r: int)
    ensures Abs(r as real) <= Abs(x) < Abs(r as real) + 1.0
    ensures x >= 0.0 ==> r >= 0
    ensures x <= 0.0 ==> r <= 0
  {
    if x >= 0.0 then x.Floor else -((-x).Floor)
  }

  /** `max(lo, min(x, hi))`. */
  function Clamp(x: int, lo: int, hi: int): (r: int)
    requires lo <= hi
    ensures lo <= r <= hi
    ensures lo <= x <= hi ==> r == x
    ensures x < lo ==> r == lo
    ensures x > hi ==> r == hi
  {
    var m := if x < hi then x else hi;
    if lo < m then m else lo
  }

  /** `np.linspace(0, 1, n)[i]`: a single sample is 0, otherwise i / (n - 1). */
  function Linspace(i: nat, n: nat): real
    requires i < n
  {
    if n == 1 then 0.0 else (i as real) / ((n - 1) as real)
  }

  lemma LinspaceBounds(i: nat, j: nat, n: nat)
    requires i <= j < n
    ensures 0.0 <= Linspace(i, n) <= Linspace(j, n) <= 1.0
    ensures Linspace(0, n) == 0.0 && (n > 1 ==> Linspace(n - 1, n) == 1.0)
  {
    if n > 1 {
      var d := (n - 1) as real;
      DivBounds(i as real, d, 0.0, 1.0);
      DivBounds(j as real, d, 0.0, 1.0);
      assert Linspace(i, n) <= Linspace(j, n) by {
        DivBounds(i as real, d, 0.0, j as real / d);
      }
    }
  }

  function Range(n: nat): (r: seq<nat>)
    ensures |r| == n && forall i :: 0 <= i < n ==> r[i] == i
  {
    seq(n, i requires 0 <= i < n => i)
  }

  // ---------------------------------------------------------------------------
  // _parameterize
  // ---------------------------------------------------------------------------

  predicate InUnit(ps: seq<real>) {
    forall i :: 0 <= i < |ps| ==> 0.0 <= ps[i] < 1.0
  }

  function Coords(centered: seq<Vec3>, dir: Vec3): (r: seq<real>)
    ensures |r| == |centered| && forall i :: 0 <= i < |r| ==> r[i] == Dot(centered[i], dir)
  {
    seq(|centered|, i requires 0 <= i < |centered| => Dot(centered[i], dir))
  }

  /** One coordinate's offset from `lo` over the range `hi - lo + 1e-10`. */
  function Fraction(x: real, lo: real, hi: real): real
    requires lo <= hi
  {
    (x - lo) / (hi - lo + Eps)
  }

  /** `(c - c.min()) / (c.max() - c.min() + 1e-10)`. */
  function Normalize(cs: seq<real>): (r: seq<real>)
    requires |cs| > 0
    ensures MinOf(cs) <= MaxOf(cs)
    ensures |r| == |cs|
    ensures forall i :: 0 <= i < |r| ==> r[i] == Fraction(cs[i], MinOf(cs), MaxOf(cs))
  {
    var lo, hi := MinOf(cs), MaxOf(cs);
    assert lo <= cs[0] <= hi;
    seq(|cs|, i requires 0 <= i < |cs| => Fraction(cs[i], lo, hi))
  }

  /** Each normalised value lies in [0, 1). */
  lemma NormalizeInUnit(cs: seq<real>)
    requires |cs| > 0
    ensures InUnit(Normalize(cs))
  {
    var lo, hi := MinOf(cs), MaxOf(cs);
    var r := Normalize(cs);
    forall i | 0 <= i < |cs|
      ensures 0.0 <= r[i] < 1.0
    {
      UnitFraction(cs[i], lo, hi);
    }
  }

  /** Normalising keeps the order of the coordinates and maps the smallest to 0. */
  lemma NormalizeMonotone(cs: seq<real>, i: nat, j: nat)
    requires i < |cs| && j < |cs|
    ensures cs[i] <= cs[j] ==> Normalize(cs)[i] <= Normalize(cs)[j]
    ensures cs[i] == MinOf(cs) ==> Normalize(cs)[i] == 0.0
  {
    var lo, hi := MinOf(cs), MaxOf(cs);
    var r := Normalize(cs);
    assert r[i] == Fraction(cs[i], lo, hi) && r[j] == Fraction(cs[j], lo, hi);
    if cs[i] <= cs[j] {
      OrderedFractions(cs[i], cs[j], lo, hi);
    }
    if cs[i] == lo {
      ZeroFraction(lo, hi);
    }
  }

  lemma OrderedFractions(x: real, y: real, lo: real, hi: real)
    requires x <= y && lo <= hi
    ensures Fraction(x, lo, hi) <= Fraction(y, lo, hi)
  {
    DivMonotone(x - lo, y - lo, hi - lo + Eps);
  }

  lemma ZeroFraction(lo: real, hi: real)
    requires lo <= hi
    ensures Fraction(lo, lo, hi) == 0.0
  {
  }

  lemma UnitFraction(x: real, lo: real, hi: real)
    requires lo <= x <= hi
    ensures 0.0 <= Fraction(x, lo, hi) < 1.0
  {
    FractionBelowOne(x - lo, hi - lo + Eps);
  }

  lemma FractionBelowOne(a: real, d: real)
    requires 0.0 <= a < d
    ensures 0.0 <= a / d < 1.0
  {
    var q := a / d;
    assert q * d == a;
    if q >= 1.0 {
      MulNonNeg(q - 1.0, d);
    }
    if q < 0.0 {
      MulNonNeg(-q, d);
    }
  }

  lemma DivMonotone(a: real, b: real, d: real)
    requires a <= b && d > 0.0
    ensures a / d <= b / d
  {
    if a < b {
      FractionLess(a, b, d);
    }
  }

  lemma FractionLess(a: real, b: real, d: real)
    requires a < b && d > 0.0
    ensures a / d < b / d
  {
    var p, q := a / d, b / d;
    assert p * d == a && q * d == b;
    if p >= q {
      MulNonNeg(p - q, d);
    }
  }

  /**
   * `_parameterize`: centre the points, project them onto the first two principal
   * directions, and normalise each coordinate. No points is the zero-size reduction the
   * source raises on.
   */
  function Parameterize(o: FitOracles, points: seq<Vec3>): (r: Result<(seq<real>, seq<real>)>)
    ensures r.Success? <==> |points| > 0
    ensures r.Success? ==> |r.value.0| == |points| && |r.value.1| == |points|
  {
    if |points| == 0 then Failure("zero-size array to reduction operation minimum which has no identity")
    else
      var centroid := RansacGeometry.MeanVec(points);
      var centered := seq(|points|, i requires 0 <= i < |points| => Sub(points[i], centroid));
      var dirs := o.principalAxes(centered);
      Success((Normalize(Coords(centered, dirs.0)), Normalize(Coords(centered, dirs.1))))
  }

  /** Every parameter `_parameterize` returns lies in [0, 1). */
  lemma ParameterizeInUnit(o: FitOracles, points: seq<Vec3>)
    requires |points| > 0
    ensures InUnit(Parameterize(o, points).value.0) && InUnit(Parameterize(o, points).value.1)
  {
    var centroid := RansacGeometry.MeanVec(points);
    var centered := seq(|points|, i requires 0 <= i < |points| => Sub(points[i], centroid));
    var dirs := o.principalAxes(centered);
    NormalizeInUnit(Coords(centered, dirs.0));
    NormalizeInUnit(Coords(centered, dirs.1));
  }

  // ---------------------------------------------------------------------------
  // _compute_grid_size
  // ---------------------------------------------------------------------------

  function Spread(ps: seq<real>): (r: real)
    requires |ps| > 0
    ensures r >= 0.0
  {
    assert MinOf(ps) <= ps[0] <= MaxOf(ps);
    MaxOf(ps) - MinOf(ps)
  }

  /** The total control count: `int(sqrt(n) * density * 0.5)` clamped to [4, 30]. */
  function NTotal(rm: RealMath, n: nat, density: real): (r: int)
    ensures 4 <= r <= 30
  {
    Clamp(Trunc(rm.sqrt(n as real) * density * 0.5), 4, 30)
  }

  /**
   * `_compute_grid_size`: the total split by the square root of the spread ratio, each
   * side clamped to [4, 20]. A zero root makes `n_total / sqrt(ratio)` infinite and
   * `int` of it raises; empty inputs raise in the reductions.
   */
  function GridSize(rm: RealMath, cfg: SurfaceFittingConfig, points: seq<Vec3>, u: seq<real>, v: seq<real>): (r: Result<(int, int)>)
  {
    if |points| == 0 || |u| == 0 || |v| == 0 then Failure("zero-size array to reduction operation")
    else
      var nTotal := NTotal(rm, |points|, cfg.controlPointsDensity);
      var root := rm.sqrt(Spread(u) / (Spread(v) + Eps));
      if root == 0.0 then Failure("cannot convert float infinity to integer")
      else Success((Clamp(Trunc(nTotal as real * root), 4, 20), Clamp(Trunc(nTotal as real / root), 4, 20)))
  }

  /** The spread ratio is non-negative and 0 exactly when the u spread is. */
  lemma SpreadRatioZero(u: seq<real>, v: seq<real>)
    requires |u| > 0 && |v| > 0
    ensures Spread(u) / (Spread(v) + Eps) >= 0.0
    ensures Spread(u) / (Spread(v) + Eps) == 0.0 <==> Spread(u) == 0.0
  {
    var d := Spread(v) + Eps;
    DivBounds(Spread(u), d, 0.0, Spread(u) / d);
    if Spread(u) / d == 0.0 {
      assert Spread(u) == (Spread(u) / d) * d;
    }
  }

  /** Both sides of a computed grid lie in [4, 20], whatever the density. */
  lemma GridSizeBounds(rm: RealMath, cfg: SurfaceFittingConfig, points: seq<Vec3>, u: seq<real>, v: seq<real>)
    requires GridSize(rm, cfg, points, u, v).Success?
    ensures var g := GridSize(rm, cfg, points, u, v).value; 4 <= g.0 <= 20 && 4 <= g.1 <= 20
  {
  }

  /**
   * With a true square root, the grid size fails on non-empty inputs exactly when every u
   * parameter is the same, and never because of the density.
   */
  lemma GridSizeFailsIff(rm: RealMath, cfg: SurfaceFittingConfig, points: seq<Vec3>, u: seq<real>, v: seq<real>, density: real)
    requires SqrtLaw(rm)
    requires |points| > 0 && |u| > 0 && |v| > 0
    ensures GridSize(rm, cfg, points, u, v).Failure? <==> Spread(u) == 0.0
    ensures GridSize(rm, cfg, points, u, v).Failure? == GridSize(rm, cfg.(controlPointsDensity := density), points, u, v).Failure?
  {
    var ratio := Spread(u) / (Spread(v) + Eps);
    var root := rm.sqrt(ratio);
    SpreadRatioZero(u, v);
    assert root * root == ratio;
    if ratio == 0.0 {
      SquareZero(root);
    }
  }

  // ---------------------------------------------------------------------------
  // _create_knot_vector
  // ---------------------------------------------------------------------------

  /** The percentile of the k-th interior knot (k from 1): `linspace(0, 1, nInternal + 2)[k] * 100`. */
  function InteriorPercent(k: nat, nInternal: nat): real
    requires k <= nInternal + 1
  {
    Linspace(k, nInternal + 2) * 100.0
  }

  /** Entry i of the knot vector: ones from n_control on, percentiles between, zeros first. */
  function KnotValue(pct: (seq<real>, real) -> real, params: seq<real>, nControl: nat, degree: nat, i: nat): real {
    if i >= nControl then 1.0
    else if i >= degree + 1 then pct(params, InteriorPercent(i - degree, nControl - degree - 1))
    else 0.0
  }

  /** The knot vector `_create_knot_vector` builds. */
  function KnotVector(pct: (seq<real>, real) -> real, params: seq<real>, nControl: nat, degree: nat): (r: seq<real>)
    ensures |r| == nControl + degree + 1
  {
    seq(nControl + degree + 1, i requires 0 <= i < nControl + degree + 1 => KnotValue(pct, params, nControl, degree, i))
  }

  /**
   * `_create_knot_vector`: a zeroed array, ones written over the last degree + 1 slots,
   * then the interior slots written with percentiles of the parameters.
   */
  method CreateKnotVector(pct: (seq<real>, real) -> real, params: seq<real>, nControl: nat, degree: nat)
    returns (knots: array<real>)
    ensures fresh(knots)
    ensures knots[..] == KnotVector(pct, params, nControl, degree)
  {
    var nKnots := nControl + degree + 1;
    var nInternal := nKnots - 2 * (degree + 1);
    knots := new real[nKnots](_ => 0.0);
    for i := nControl to nKnots
      invariant forall j :: 0 <= j < nKnots ==> knots[j] == (if nControl <= j < i then 1.0 else 0.0)
    {
      knots[i] := 1.0;
    }
    if nInternal > 0 {
      for k := 0 to nInternal
        invariant forall j :: 0 <= j < nKnots ==>
          knots[j] == (if degree + 1 <= j < degree + 1 + k then KnotValue(pct, params, nControl, degree, j)
                       else if j >= nControl then 1.0 else 0.0)
      {
        knots[degree + 1 + k] := pct(params, InteriorPercent(k + 1, nInternal));
      }
    }
  }

  /**
   * The last degree + 1 knots are 1. When n_control >= degree + 1 the first degree + 1 are
   * 0 and the n_control - degree - 1 interior knots sit at strictly increasing percentiles
   * in (0, 100).
   */
  lemma KnotVectorShape(pct: (seq<real>, real) -> real, params: seq<real>, nControl: nat, degree: nat)
    ensures forall i :: nControl <= i < nControl + degree + 1 ==> KnotVector(pct, params, nControl, degree)[i] == 1.0
    ensures nControl >= degree + 1 ==>
      && FullyClamped(KnotVector(pct, params, nControl, degree), degree)
      && InteriorAtPercentiles(KnotVector(pct, params, nControl, degree), pct, params, degree, nControl - degree - 1)
    ensures nControl >= degree + 1 ==>
      var nInternal := nControl - degree - 1;
      forall k1, k2 :: 1 <= k1 < k2 <= nInternal ==>
        0.0 < InteriorPercent(k1, nInternal) < InteriorPercent(k2, nInternal) < 100.0
  {
    if nControl >= degree + 1 {
      var nInternal := nControl - degree - 1;
      forall k1, k2 | 1 <= k1 < k2 <= nInternal
        ensures 0.0 < InteriorPercent(k1, nInternal) < InteriorPercent(k2, nInternal) < 100.0
      {
        var d := (nInternal + 1) as real;
        assert Linspace(k1, nInternal + 2) == k1 as real / d;
        assert Linspace(k2, nInternal + 2) == k2 as real / d;
        FractionBelowOne(k2 as real, d);
        FractionLess(k1 as real, k2 as real, d);
        FractionPositive(k1 as real, d);
      }
    }
  }

  /** The first and the last degree + 1 knots are 0 and 1. */
  predicate FullyClamped(knots: seq<real>, degree: nat) {
    && degree < |knots|
    && (forall i :: 0 <= i <= degree ==> knots[i] == 0.0)
    && (forall i :: |knots| - 1 - degree <= i < |knots| ==> knots[i] == 1.0)
  }

  /** The k-th knot after the leading degree + 1 (k from 1) is the k-th interior percentile. */
  predicate InteriorAtPercentiles(knots: seq<real>, pct: (seq<real>, real) -> real, params: seq<real>, degree: nat, nInternal: nat) {
    forall k :: 1 <= k <= nInternal ==>
      degree + k < |knots| && knots[degree + k] == pct(params, InteriorPercent(k, nInternal))
  }

  lemma FractionPositive(a: real, d: real)
    requires a > 0.0 && d > 0.0
    ensures a / d > 0.0
  {
    var q := a / d;
    assert q * d == a;
    if q <= 0.0 {
      MulNonNeg(-q, d);
    }
  }

  predicate NonDecreasing(r: seq<real>) {
    forall i, j :: 0 <= i <= j < |r| ==> r[i] <= r[j]
  }

  predicate WithinUnit(r: seq<real>) {
    forall i :: 0 <= i < |r| ==> 0.0 <= r[i] <= 1.0
  }

  /** Under the percentile law, knots over parameters in [0, 1) are non-decreasing within [0, 1]. */
  lemma KnotVectorSorted(pct: (seq<real>, real) -> real, params: seq<real>, nControl: nat, degree: nat)
    requires PercentileLaw(pct)
    requires |params| > 0 && InUnit(params)
    ensures NonDecreasing(KnotVector(pct, params, nControl, degree))
    ensures WithinUnit(KnotVector(pct, params, nControl, degree))
  {
    var r := KnotVector(pct, params, nControl, degree);
    var nInternal := nControl - degree - 1;
    assert 0.0 <= MinOf(params) && MaxOf(params) <= 1.0 by {
      var a :| 0 <= a < |params| && params[a] == MinOf(params);
      var b :| 0 <= b < |params| && params[b] == MaxOf(params);
    }
    forall i | degree + 1 <= i < nControl
      ensures 0.0 <= r[i] <= 1.0
    {
      LinspaceBounds(i - degree, i - degree, nInternal + 2);
    }
    forall i, j | 0 <= i <= j < |r|
      ensures r[i] <= r[j]
    {
      if degree + 1 <= i && j < nControl {
        LinspaceBounds(i - degree, j - degree, nInternal + 2);
      }
    }
  }

  // ---------------------------------------------------------------------------
  // _fit_control_points, _compute_errors and fit
  // ---------------------------------------------------------------------------

  /** The n_u × n_v control grid interpolated from the points, on parameters Qhull can triangulate. */
  function ControlGrid(o: FitOracles, points: seq<Vec3>, u: seq<real>, v: seq<real>, nU: nat, nV: nat): (g: seq<seq<Vec3>>)
    requires o.triangulates(u, v)
    ensures |g| == nU && forall i :: 0 <= i < nU ==> |g[i]| == nV
  {
    seq(nU, i requires 0 <= i < nU =>
      seq(nV, j requires 0 <= j < nV => o.controlValue(points, u, v, nU, nV, i, j)))
  }

  /** `np.ones((n_u, n_v))`. */
  function Ones(nU: nat, nV: nat): (w: seq<seq<real>>)
    ensures |w| == nU && forall i :: 0 <= i < nU ==> |w[i]| == nV && forall j :: 0 <= j < nV ==> w[i][j] == 1.0
  {
    seq(nU, i requires 0 <= i < nU => seq(nV, j requires 0 <= j < nV => 1.0))
  }

  /** The error at one point: its distance to the surface point, 0 when evaluation raises. */
  function DistanceError(o: FitOracles, s: NurbsSurface, p: Vec3, u: real, v: real): NonNeg {
    match o.evaluate(s, u, v)
    case None => 0.0
    case Some(q) => Norm(o.rm, Sub(p, q))
  }

  /** The errors `_compute_errors` returns: one per point, 0 past the end of the parameters. */
  function Errors(o: FitOracles, s: NurbsSurface, points: seq<Vec3>, u: seq<real>, v: seq<real>): (r: seq<real>)
    ensures |r| == |points| && forall i :: 0 <= i < |r| ==> r[i] >= 0.0
    ensures forall i :: 0 <= i < |r| && i < |u| && i < |v| ==> r[i] == DistanceError(o, s, points[i], u[i], v[i])
  {
    seq(|points|, i requires 0 <= i < |points| =>
      if i < |u| && i < |v| then DistanceError(o, s, points[i], u[i], v[i]) else 0.0)
  }

  /** `_compute_errors`: a zeroed array filled along the zipped parameters and points. */
  method ComputeErrors(o: FitOracles, s: NurbsSurface, points: seq<Vec3>, u: seq<real>, v: seq<real>)
    returns (errors: array<real>)
    ensures fresh(errors)
    ensures errors[..] == Errors(o, s, points, u, v)
  {
    errors := new real[|points|](_ => 0.0);
    var n := if |u| < |v| then |u| else |v|;
    n := if n < |points| then n else |points|;
    for i := 0 to n
      invariant forall j :: 0 <= j < |points| ==>
        errors[j] == (if j < i then DistanceError(o, s, points[j], u[j], v[j]) else 0.0)
    {
      var e: real;
      match o.evaluate(s, u[i], v[i]) {
        case None =>
          e := 0.0;
        case Some(q) =>
          e := Norm(o.rm, Sub(points[i], q));
      }
      errors[i] := e;
    }
  }

  predicate DegreesValid(cfg: SurfaceFittingConfig) {
    cfg.nurbsDegreeU >= 0 && cfg.nurbsDegreeV >= 0
  }

  /** The surface `fit` builds from the parameters and grid size. */
  function BuildSurface(o: FitOracles, cfg: SurfaceFittingConfig, points: seq<Vec3>, u: seq<real>, v: seq<real>, nU: nat, nV: nat): NurbsSurface
    requires DegreesValid(cfg) && o.triangulates(u, v)
  {
    NurbsSurface(
      ControlGrid(o, points, u, v, nU, nV),
      Ones(nU, nV),
      KnotVector(o.percentile, u, nU, cfg.nurbsDegreeU),
      KnotVector(o.percentile, v, nV, cfg.nurbsDegreeV),
      cfg.nurbsDegreeU,
      cfg.nurbsDegreeV)
  }

  /** The fitted surface and its metrics on a computed grid. */
  function FitFrom(o: FitOracles, cfg: SurfaceFittingConfig, points: seq<Vec3>, u: seq<real>, v: seq<real>, nU: nat, nV: nat): FittedSurface
    requires DegreesValid(cfg) && |points| > 0 && o.triangulates(u, v)
  {
    var s := BuildSurface(o, cfg, points, u, v, nU, nV);
    var errors := Errors(o, s, points, u, v);
    FittedSurface(s, Range(|points|), Mean(errors), MaxOf(errors), 1.0)
  }

  /** `SurfaceFitter.fit` with the fitter's configuration `cfg`. */
  function FitSurface(o: FitOracles, cfg: SurfaceFittingConfig, points: seq<Vec3>): Result<FittedSurface>
    requires DegreesValid(cfg)
  {
    var uv := Parameterize(o, points);
    if uv.Failure? then Failure(uv.error)
    else
      var grid := GridSize(o.rm, cfg, points, uv.value.0, uv.value.1);
      if grid.Failure? then Failure(grid.error)
      else if !o.triangulates(uv.value.0, uv.value.1) then Failure(QhullFlat)
      else Success(FitFrom(o, cfg, points, uv.value.0, uv.value.1, grid.value.0, grid.value.1))
  }

  /** The shape of a fitted surface: an n_u × n_v grid of unit weights, sides in [4, 20]. */
  predicate SurfaceShape(s: NurbsSurface, cfg: SurfaceFittingConfig) {
    && 4 <= |s.controlPoints| <= 20
    && 4 <= |s.controlPoints[0]| <= 20
    && (forall i :: 0 <= i < |s.controlPoints| ==> |s.controlPoints[i]| == |s.controlPoints[0]|)
    && |s.weights| == |s.controlPoints|
    && (forall i :: 0 <= i < |s.weights| ==> |s.weights[i]| == |s.controlPoints[0]|)
    && (forall i, j :: 0 <= i < |s.weights| && 0 <= j < |s.weights[i]| ==> s.weights[i][j] == 1.0)
    && |s.knotsU| == |s.controlPoints| + cfg.nurbsDegreeU + 1
    && |s.knotsV| == |s.controlPoints[0]| + cfg.nurbsDegreeV + 1
    && s.degreeU == cfg.nurbsDegreeU && s.degreeV == cfg.nurbsDegreeV
  }

  /**
   * On any parameters and grid: indices 0..n-1, coverage 1, the surface's shape, a mean
   * error between 0 and the maximum error, and that maximum bounds every point's error.
   */
  lemma FitFromFields(o: FitOracles, cfg: SurfaceFittingConfig, points: seq<Vec3>, u: seq<real>, v: seq<real>, nU: nat, nV: nat)
    requires DegreesValid(cfg) && |points| > 0 && o.triangulates(u, v)
    requires 4 <= nU <= 20 && 4 <= nV <= 20
    ensures var f := FitFrom(o, cfg, points, u, v, nU, nV);
      && f.pointIndices == Range(|points|)
      && f.coverage == 1.0
      && SurfaceShape(f.surface, cfg)
      && 0.0 <= f.fittingError <= f.maxError
      && (forall i :: 0 <= i < |points| && i < |u| && i < |v| ==> DistanceError(o, f.surface, points[i], u[i], v[i]) <= f.maxError)
  {
    var s := BuildSurface(o, cfg, points, u, v, nU, nV);
    BuildSurfaceShape(o, cfg, points, u, v, nU, nV);
    var errors := Errors(o, s, points, u, v);
    ErrorMetrics(errors);
    forall i | 0 <= i < |points| && i < |u| && i < |v|
      ensures DistanceError(o, s, points[i], u[i], v[i]) <= MaxOf(errors)
    {
      assert errors[i] == DistanceError(o, s, points[i], u[i], v[i]);
    }
  }

  lemma BuildSurfaceShape(o: FitOracles, cfg: SurfaceFittingConfig, points: seq<Vec3>, u: seq<real>, v: seq<real>, nU: nat, nV: nat)
    requires DegreesValid(cfg) && o.triangulates(u, v)
    requires 4 <= nU <= 20 && 4 <= nV <= 20
    ensures SurfaceShape(BuildSurface(o, cfg, points, u, v, nU, nV), cfg)
  {
  }

  /** The mean of non-negative errors is non-negative and at most their maximum, which bounds each. */
  lemma ErrorMetrics(errors: seq<real>)
    requires |errors| > 0 && forall i :: 0 <= i < |errors| ==> errors[i] >= 0.0
    ensures 0.0 <= Mean(errors) <= MaxOf(errors)
  {
    MeanNonNeg(errors);
    MeanBetweenMinMax(errors);
  }

  /** A successful `fit` had points, a grid and a triangulation, and is the fit from them. */
  lemma FitSuccessValue(o: FitOracles, cfg: SurfaceFittingConfig, points: seq<Vec3>)
    requires DegreesValid(cfg)
    requires FitSurface(o, cfg, points).Success?
    ensures |points| > 0
    ensures var uv := Parameterize(o, points).value;
      && GridSize(o.rm, cfg, points, uv.0, uv.1).Success?
      && o.triangulates(uv.0, uv.1)
      && var g := GridSize(o.rm, cfg, points, uv.0, uv.1).value;
      && 4 <= g.0 <= 20 && 4 <= g.1 <= 20
      && FitSurface(o, cfg, points).value == FitFrom(o, cfg, points, uv.0, uv.1, g.0, g.1)
  {
    var uv := Parameterize(o, points).value;
    GridSizeBounds(o.rm, cfg, points, uv.0, uv.1);
  }

  /**
   * A successful `fit` covers every point: indices 0..n-1, coverage 1, unit weights on a
   * grid with sides in [4, 20], and a mean error between 0 and the maximum error.
   */
  lemma FitFields(o: FitOracles, cfg: SurfaceFittingConfig, points: seq<Vec3>)
    requires DegreesValid(cfg)
    requires FitSurface(o, cfg, points).Success?
    ensures var f := FitSurface(o, cfg, points).value;
      && f.pointIndices == Range(|points|)
      && f.coverage == 1.0
      && SurfaceShape(f.surface, cfg)
      && 0.0 <= f.fittingError <= f.maxError
  {
    FitSuccessValue(o, cfg, points);
    var uv := Parameterize(o, points).value;
    var grid := GridSize(o.rm, cfg, points, uv.0, uv.1).value;
    FitFromFields(o, cfg, points, uv.0, uv.1, grid.0, grid.1);
  }

  /**
   * With degrees at most 3 every knot vector `fit` builds is fully clamped: degree + 1
   * zeros, degree + 1 ones, and, under the percentile law, non-decreasing within [0, 1].
   */
  lemma FitKnotsClamped(o: FitOracles, cfg: SurfaceFittingConfig, points: seq<Vec3>)
    requires DegreesValid(cfg) && cfg.nurbsDegreeU <= 3 && cfg.nurbsDegreeV <= 3
    requires FitSurface(o, cfg, points).Success?
    ensures var s := FitSurface(o, cfg, points).value.surface;
      FullyClamped(s.knotsU, cfg.nurbsDegreeU) && FullyClamped(s.knotsV, cfg.nurbsDegreeV)
    ensures PercentileLaw(o.percentile) ==>
      var s := FitSurface(o, cfg, points).value.surface;
      NonDecreasing(s.knotsU) && WithinUnit(s.knotsU) && NonDecreasing(s.knotsV) && WithinUnit(s.knotsV)
  {
    FitSuccessValue(o, cfg, points);
    var uv := Parameterize(o, points).value;
    var grid := GridSize(o.rm, cfg, points, uv.0, uv.1).value;
    KnotVectorShape(o.percentile, uv.0, grid.0, cfg.nurbsDegreeU);
    KnotVectorShape(o.percentile, uv.1, grid.1, cfg.nurbsDegreeV);
    if PercentileLaw(o.percentile) {
      ParameterizeInUnit(o, points);
      KnotVectorSorted(o.percentile, uv.0, grid.0, cfg.nurbsDegreeU);
      KnotVectorSorted(o.percentile, uv.1, grid.1, cfg.nurbsDegreeV);
    }
  }

  /**
   * `fit` fails exactly on no points or, with a true square root, when every u parameter
   * is the same or the parameters cannot be triangulated; the density never decides it.
   */
  lemma FitFailsIff(o: FitOracles, cfg: SurfaceFittingConfig, points: seq<Vec3>, density: real)
    requires DegreesValid(cfg)
    requires SqrtLaw(o.rm)
    ensures FitSurface(o, cfg, points).Failure? <==>
      || |points| == 0
      || Spread(Parameterize(o, points).value.0) == 0.0
      || !o.triangulates(Parameterize(o, points).value.0, Parameterize(o, points).value.1)
    ensures FitSurface(o, cfg, points).Failure? == FitSurface(o, cfg.(controlPointsDensity := density), points).Failure?
  {
    if |points| > 0 {
      var uv := Parameterize(o, points).value;
      GridSizeFailsIff(o.rm, cfg, points, uv.0, uv.1, density);
    }
  }

  /** Under Qhull's law, `fit` raises on points whose parameters are collinear. */
  lemma FitCollinearFails(o: FitOracles, cfg: SurfaceFittingConfig, points: seq<Vec3>)
    requires DegreesValid(cfg) && QhullLaw(o.triangulates)
    requires |points| > 0 && Collinear(Parameterize(o, points).value.0, Parameterize(o, points).value.1)
    ensures FitSurface(o, cfg, points).Failure?
  {
    var uv := Parameterize(o, points).value;
    assert !o.triangulates(uv.0, uv.1);
    if FitSurface(o, cfg, points).Success? {
      FitSuccessValue(o, cfg, points);
    }
  }

  /** Under Qhull's law, `fit` raises on one or two points, whatever they are. */
  lemma FitFewPointsFails(o: FitOracles, cfg: SurfaceFittingConfig, points: seq<Vec3>)
    requires DegreesValid(cfg) && QhullLaw(o.triangulates)
    requires 0 < |points| < 3
    ensures FitSurface(o, cfg, points).Failure?
  {
    var uv := Parameterize(o, points).value;
    FewPointsCollinear(uv.0, uv.1);
    FitCollinearFails(o, cfg, points);
  }

  // ---------------------------------------------------------------------------
  // fit_with_refinement
  // ---------------------------------------------------------------------------

  /**
   * A fit as `fit_with_refinement` sees it: a function of the fitter's configuration, defined
   * at least for non-negative degrees. FitterFor is the `fit` above on fixed points.
   */
  type Fitter = SurfaceFittingConfig --> Result<FittedSurface>

  ghost predicate FitterTotal(fit: Fitter) {
    forall c: SurfaceFittingConfig :: DegreesValid(c) ==> fit.requires(c)
  }

  /** `fit` computes `SurfaceFitter.fit` on the points for every configuration with non-negative degrees. */
  ghost predicate Implements(fit: Fitter, o: FitOracles, points: seq<Vec3>) {
    && FitterTotal(fit)
    && forall c {:trigger FitSurface(o, c, points)} :: DegreesValid(c) ==> fit(c) == FitSurface(o, c, points)
  }

  function FitterFor(o: FitOracles, points: seq<Vec3>): (fit: Fitter)
    ensures Implements(fit, o, points)
  {
    c requires DegreesValid(c) => FitSurface(o, c, points)
  }

  /** What a refinement run leaves: its result, the fitter's configuration, and the number of fits. */
  datatype Refinement = Refinement(result: Result<FittedSurface>, config: SurfaceFittingConfig, fits: nat)

  /** `self.config.control_points_density *= 1.5`. */
  function Grow(cfg: SurfaceFittingConfig): SurfaceFittingConfig {
    cfg.(controlPointsDensity := cfg.controlPointsDensity * 1.5)
  }

  /** `range(max_refinements)` has no iterations for a negative argument. */
  function Iterations(maxRefinements: int): nat {
    if maxRefinements > 0 then maxRefinements else 0
  }

  /** The refinement loop from a current fit, with `left` iterations to go. */
  function RefineLoop(fit: Fitter, cfg: SurfaceFittingConfig, target: real, fitted: FittedSurface, left: nat): Refinement
    requires FitterTotal(fit) && DegreesValid(cfg)
    decreases left
  {
    if left == 0 || fitted.maxError <= target then Refinement(Success(fitted), cfg, 0)
    else
      var next := Grow(cfg);
      var refit := fit(next);
      if refit.Failure? then Refinement(refit, next, 1)
      else
        var rest := RefineLoop(fit, next, target, refit.value, left - 1);
        rest.(fits := rest.fits + 1)
  }

  /** `fit_with_refinement`: one fit, then up to `max_refinements` denser refits. */
  function Refine(fit: Fitter, cfg: SurfaceFittingConfig, target: real, maxRefinements: int): Refinement
    requires FitterTotal(fit) && DegreesValid(cfg)
  {
    var first := fit(cfg);
    if first.Failure? then Refinement(first, cfg, 1)
    else
      var rest := RefineLoop(fit, cfg, target, first.value, Iterations(maxRefinements));
      rest.(fits := rest.fits + 1)
  }

  function Pow(b: real, n: nat): real
    decreases n
  {
    if n == 0 then 1.0 else Pow(b, n - 1) * b
  }

  /** The configuration with another density. */
  function WithDensity(cfg: SurfaceFittingConfig, density: real): SurfaceFittingConfig {
    cfg.(controlPointsDensity := density)
  }

  /** The configuration after j refinements: density d0 · 1.5^j. */
  function At(base: SurfaceFittingConfig, j: nat): SurfaceFittingConfig {
    WithDensity(base, base.controlPointsDensity * Pow(1.5, j))
  }

  lemma GrowAt(base: SurfaceFittingConfig, j: nat)
    ensures Grow(At(base, j)) == At(base, j + 1)
  {
    var d := base.controlPointsDensity;
    assert d * Pow(1.5, j) * 1.5 == d * (Pow(1.5, j) * 1.5);
  }

  /** The fit at refinement j succeeds without an acceptable surface. */
  predicate Rejected(fit: Fitter, base: SurfaceFittingConfig, target: real, j: nat)
    requires FitterTotal(fit) && DegreesValid(base)
  {
    fit(At(base, j)).Success? && !IsAcceptable(fit(At(base, j)).value, target)
  }

  lemma {:induction false} RefineLoopCharacterized(fit: Fitter, base: SurfaceFittingConfig, target: real, j: nat, f: FittedSurface, left: nat)
    requires FitterTotal(fit) && DegreesValid(base)
    requires fit(At(base, j)) == Success(f)
    ensures var r := RefineLoop(fit, At(base, j), target, f, left);
      && r.fits <= left
      && r.config == At(base, j + r.fits)
      && r.result == fit(r.config)
      && (forall i :: j <= i < j + r.fits ==> Rejected(fit, base, target, i))
      && (r.result.Success? && !IsAcceptable(r.result.value, target) ==> r.fits == left)
    decreases left
  {
    if left > 0 && f.maxError > target {
      GrowAt(base, j);
      var next := fit(At(base, j + 1));
      if next.Success? {
        RefineLoopCharacterized(fit, base, target, j + 1, next.value, left - 1);
      }
    }
  }

  /** Two runs that end with the same result and configuration. */
  predicate SameOutcome(a: Refinement, b: Refinement) {
    a.result == b.result && a.config == b.config
  }

  /** After a successful first fit, the run is the loop over all its iterations. */
  lemma RefineStart(fit: Fitter, cfg: SurfaceFittingConfig, target: real, maxRefinements: int, f: FittedSurface, done: int)
    requires FitterTotal(fit) && DegreesValid(cfg) && fit(cfg) == Success(f) && done == 0
    ensures SameOutcome(RefineLoop(fit, cfg, target, f, Iterations(maxRefinements) - done), Refine(fit, cfg, target, maxRefinements))
  {
  }

  /** An unacceptable fit with iterations left is followed by a refit at 1.5 times the density. */
  lemma RefineStep(fit: Fitter, cfg: SurfaceFittingConfig, target: real, f: FittedSurface, left: nat)
    requires FitterTotal(fit) && DegreesValid(cfg)
    requires left > 0 && f.maxError > target
    ensures fit(Grow(cfg)).Failure? ==>
      SameOutcome(RefineLoop(fit, cfg, target, f, left), Refinement(fit(Grow(cfg)), Grow(cfg), 1))
    ensures fit(Grow(cfg)).Success? ==>
      SameOutcome(RefineLoop(fit, cfg, target, f, left), RefineLoop(fit, Grow(cfg), target, fit(Grow(cfg)).value, left - 1))
  {
  }

  /**
   * `fit_with_refinement` performs between 1 and max_refinements + 1 fits; its result is
   * the fit at density d0 · 1.5^(fits-1), which persists on the configuration; every
   * earlier fit was unacceptable; and an unacceptable final result means the refinements
   * ran out.
   */
  lemma RefineCharacterized(fit: Fitter, cfg: SurfaceFittingConfig, target: real, maxRefinements: int)
    requires FitterTotal(fit) && DegreesValid(cfg)
    ensures var r := Refine(fit, cfg, target, maxRefinements);
      && 1 <= r.fits <= Iterations(maxRefinements) + 1
      && r.config == At(cfg, r.fits - 1)
      && r.result == fit(r.config)
      && (forall i :: 0 <= i < r.fits - 1 ==> Rejected(fit, cfg, target, i))
      && (r.result.Success? && !IsAcceptable(r.result.value, target) ==> r.fits == Iterations(maxRefinements) + 1)
  {
    assert At(cfg, 0) == cfg;
    var first := fit(cfg);
    if first.Success? {
      RefineLoopCharacterized(fit, cfg, target, 0, first.value, Iterations(maxRefinements));
    }
  }

  /** Whether a fit fails does not depend on the density. */
  ghost predicate FailureIgnoresDensity(fit: Fitter)
    requires FitterTotal(fit)
  {
    forall c: SurfaceFittingConfig, d: real :: DegreesValid(c) ==> (fit(WithDensity(c, d)).Failure? <==> fit(c).Failure?)
  }

  /** With a true square root, `fit` on fixed points fails or not whatever the density. */
  lemma FitIgnoresDensity(fit: Fitter, o: FitOracles, points: seq<Vec3>)
    requires SqrtLaw(o.rm) && Implements(fit, o, points)
    ensures FailureIgnoresDensity(fit)
  {
    forall c: SurfaceFittingConfig, d: real | DegreesValid(c)
      ensures fit(WithDensity(c, d)).Failure? <==> fit(c).Failure?
    {
      FitterFailsIff(fit, o, points, c);
      FitterFailsIff(fit, o, points, WithDensity(c, d));
    }
  }

  /** A fitter that implements `fit` fails exactly where `fit` does, for any valid configuration. */
  lemma FitterFailsIff(fit: Fitter, o: FitOracles, points: seq<Vec3>, c: SurfaceFittingConfig)
    requires SqrtLaw(o.rm) && Implements(fit, o, points) && DegreesValid(c)
    ensures fit(c).Failure? <==>
      || |points| == 0
      || Spread(Parameterize(o, points).value.0) == 0.0
      || !o.triangulates(Parameterize(o, points).value.0, Parameterize(o, points).value.1)
  {
    assert fit(c) == FitSurface(o, c, points);
    FitFailsIff(o, c, points, c.controlPointsDensity);
  }

  /** A fitter known only by what it computes. */
  lemma SomeImplementation(o: FitOracles, points: seq<Vec3>) returns (fit: Fitter)
    ensures Implements(fit, o, points)
  {
    fit := FitterFor(o, points);
  }

  /** Two fitters that agree on every configuration with non-negative degrees. */
  ghost predicate SameFits(f: Fitter, g: Fitter)
    requires FitterTotal(f) && FitterTotal(g)
  {
    forall c :: DegreesValid(c) ==> f(c) == g(c)
  }

  /** Two fitters implementing `fit` on the same points agree. */
  lemma ImplementsUnique(f: Fitter, g: Fitter, o: FitOracles, points: seq<Vec3>)
    requires Implements(f, o, points) && Implements(g, o, points)
    ensures SameFits(f, g)
  {
    forall c | DegreesValid(c)
      ensures f(c) == g(c)
    {
      assert f(c) == FitSurface(o, c, points);
    }
  }

  lemma {:induction false} RefineLoopAgrees(f: Fitter, g: Fitter, cfg: SurfaceFittingConfig, target: real, fitted: FittedSurface, left: nat)
    requires FitterTotal(f) && FitterTotal(g) && SameFits(f, g) && DegreesValid(cfg)
    ensures RefineLoop(f, cfg, target, fitted, left) == RefineLoop(g, cfg, target, fitted, left)
    decreases left
  {
    if left > 0 && fitted.maxError > target {
      var next := Grow(cfg);
      if f(next).Success? {
        RefineLoopAgrees(f, g, next, target, f(next).value, left - 1);
      }
    }
  }

  /** Agreeing fitters refine alike. */
  lemma RefineAgrees(f: Fitter, g: Fitter, cfg: SurfaceFittingConfig, target: real, maxRefinements: int)
    requires FitterTotal(f) && FitterTotal(g) && SameFits(f, g) && DegreesValid(cfg)
    ensures Refine(f, cfg, target, maxRefinements) == Refine(g, cfg, target, maxRefinements)
  {
    if f(cfg).Success? {
      RefineLoopAgrees(f, g, cfg, target, f(cfg).value, Iterations(maxRefinements));
    }
  }

  /**
   * When failure ignores the density, a refinement run fails only when the first fit does:
   * the exception then escapes before any density change.
   */
  lemma RefineFailsOnlyFirst(fit: Fitter, cfg: SurfaceFittingConfig, target: real, maxRefinements: int)
    requires FitterTotal(fit) && DegreesValid(cfg) && FailureIgnoresDensity(fit)
    ensures var r := Refine(fit, cfg, target, maxRefinements);
      r.result.Failure? <==> fit(cfg).Failure?
    ensures var r := Refine(fit, cfg, target, maxRefinements);
      r.result.Failure? ==> r.fits == 1 && r.config == cfg
  {
    RefineCharacterized(fit, cfg, target, maxRefinements);
    var r := Refine(fit, cfg, target, maxRefinements);
    assert At(cfg, 0) == cfg;
    if r.fits > 1 {
      assert Rejected(fit, cfg, target, 0);
      assert r.config == WithDensity(cfg, r.config.controlPointsDensity);
    }
  }

  // ---------------------------------------------------------------------------
  // NURBSSurface.evaluate_grid
  // ---------------------------------------------------------------------------

  /** Every grid sample evaluates. */
  predicate GridEvaluates(o: FitOracles, s: NurbsSurface, nU: nat, nV: nat) {
    forall i, j :: 0 <= i < nU && 0 <= j < nV ==> o.evaluate(s, Linspace(i, nU), Linspace(j, nV)).Some?
  }

  /**
   * `evaluate_grid`: the surface at the n_u × n_v linspace samples. A negative count is
   * the ValueError of `linspace`; an evaluation that raises escapes.
   */
  function EvaluateGridSpec(o: FitOracles, s: NurbsSurface, nU: int, nV: int): Result<seq<seq<Vec3>>> {
    if nU < 0 || nV < 0 then Failure("Number of samples must be non-negative")
    else if !GridEvaluates(o, s, nU, nV) then Failure("surface evaluation raised")
    else Success(seq(nU, i requires 0 <= i < nU => GridRow(o, s, i, nU, nV)))
  }

  /** Row i of the grid, when all its samples evaluate. */
  function GridRow(o: FitOracles, s: NurbsSurface, i: nat, nU: nat, nV: nat): (row: seq<Vec3>)
    requires i < nU
    requires forall j :: 0 <= j < nV ==> o.evaluate(s, Linspace(i, nU), Linspace(j, nV)).Some?
    ensures |row| == nV
  {
    seq(nV, j requires 0 <= j < nV => o.evaluate(s, Linspace(i, nU), Linspace(j, nV)).value)
  }

  /** A successful grid is n_u × n_v and holds the surface at each sample. */
  lemma EvaluateGridShape(o: FitOracles, s: NurbsSurface, nU: int, nV: int)
    ensures EvaluateGridSpec(o, s, nU, nV).Success? <==> nU >= 0 && nV >= 0 && GridEvaluates(o, s, nU, nV)
    ensures EvaluateGridSpec(o, s, nU, nV).Success? ==>
      var g := EvaluateGridSpec(o, s, nU, nV).value;
      && |g| == nU
      && (forall i :: 0 <= i < nU ==> |g[i]| == nV)
      && (forall i, j :: 0 <= i < nU && 0 <= j < nV ==> Some(g[i][j]) == o.evaluate(s, Linspace(i, nU), Linspace(j, nV)))
  {
    if EvaluateGridSpec(o, s, nU, nV).Success? {
      var g := EvaluateGridSpec(o, s, nU, nV).value;
      forall i, j | 0 <= i < nU && 0 <= j < nV
        ensures Some(g[i][j]) == o.evaluate(s, Linspace(i, nU), Linspace(j, nV))
      {
        assert g[i] == GridRow(o, s, i, nU, nV);
      }
    }
  }

  /** The row loop of `evaluate_grid` for row i; None when an evaluation raises. */
  method EvaluateRow(o: FitOracles, s: NurbsSurface, i: nat, nU: nat, nV: nat) returns (row: Option<seq<Vec3>>)
    requires i < nU
    ensures row.Some? <==> forall j :: 0 <= j < nV ==> o.evaluate(s, Linspace(i, nU), Linspace(j, nV)).Some?
    ensures row.Some? ==> row.value == GridRow(o, s, i, nU, nV)
  {
    var acc: seq<Vec3> := [];
    for j := 0 to nV
      invariant |acc| == j
      invariant forall k :: 0 <= k < j ==> Some(acc[k]) == o.evaluate(s, Linspace(i, nU), Linspace(k, nV))
    {
      var p := o.evaluate(s, Linspace(i, nU), Linspace(j, nV));
      if p.None? {
        return None;
      }
      acc := acc + [p.value];
    }
    row := Some(acc);
    assert acc == GridRow(o, s, i, nU, nV);
  }

  /** `evaluate_grid`: fills the grid row by row. */
  method EvaluateGrid(o: FitOracles, s: NurbsSurface, nU: int, nV: int) returns (r: Result<seq<seq<Vec3>>>)
    ensures r == EvaluateGridSpec(o, s, nU, nV)
  {
    if nU < 0 || nV < 0 {
      return Failure("Number of samples must be non-negative");
    }
    var rows: seq<seq<Vec3>> := [];
    for i := 0 to nU
      invariant |rows| == i
      invariant forall a, j :: 0 <= a < i && 0 <= j < nV ==> o.evaluate(s, Linspace(a, nU), Linspace(j, nV)).Some?
      invariant forall a :: 0 <= a < i ==> rows[a] == GridRow(o, s, a, nU, nV)
    {
      var row := EvaluateRow(o, s, i, nU, nV);
      if row.None? {
        var j :| 0 <= j < nV && o.evaluate(s, Linspace(i, nU), Linspace(j, nV)).None?;
        assert !GridEvaluates(o, s, nU, nV);
        return Failure("surface evaluation raised");
      }
      rows := rows + [row.value];
    }
    assert GridEvaluates(o, s, nU, nV);
    ghost var want := EvaluateGridSpec(o, s, nU, nV).value;
    forall a | 0 <= a < nU
      ensures rows[a] == want[a]
    {
    }
    assert rows == want;
    r := Success(rows);
  }

  // ---------------------------------------------------------------------------
  // The fitter object
  // ---------------------------------------------------------------------------

  /** `SurfaceFitter`: holds a configuration that `fit_with_refinement` updates. */
  class SurfaceFitter {
    var config: SurfaceFittingConfig

    /** `config or SurfaceFittingConfig()`: a passed configuration, else the defaults. */
    constructor (config: Option<SurfaceFittingConfig>)
      ensures this.config == (if config.Some? then config.value else SurfaceFittingConfig())
    {
      this.config := if config.Some? then config.value else SurfaceFittingConfig();
    }

    /** `fit`: parameterise, size the grid, build the knot arrays, fit and measure errors. */
    method Fit(o: FitOracles, points: seq<Vec3>) returns (r: Result<FittedSurface>)
      requires DegreesValid(config)
      ensures r == FitSurface(o, config, points)
    {
      var uv := Parameterize(o, points);
      if uv.Failure? {
        return Failure(uv.error);
      }
      var u, v := uv.value.0, uv.value.1;
      var grid := GridSize(o.rm, config, points, u, v);
      if grid.Failure? {
        return Failure(grid.error);
      }
      var nU: nat, nV: nat := grid.value.0, grid.value.1;
      var knotsU := CreateKnotVector(o.percentile, u, nU, config.nurbsDegreeU);
      var knotsV := CreateKnotVector(o.percentile, v, nV, config.nurbsDegreeV);
      if !o.triangulates(u, v) {
        return Failure(QhullFlat);
      }
      var surface := NurbsSurface(ControlGrid(o, points, u, v, nU, nV), Ones(nU, nV), knotsU[..], knotsV[..],
                                  config.nurbsDegreeU, config.nurbsDegreeV);
      assert surface == BuildSurface(o, config, points, u, v, nU, nV);
      var errors := ComputeErrors(o, surface, points, u, v);
      r := Success(FittedSurface(surface, Range(|points|), Mean(errors[..]), MaxOf(errors[..]), 1.0));
    }

    /** `fit` through a fitter that implements it. */
    method FitVia(o: FitOracles, points: seq<Vec3>, ghost fit: Fitter) returns (r: Result<FittedSurface>)
      requires DegreesValid(config) && Implements(fit, o, points)
      ensures r == fit(config)
    {
      r := Fit(o, points);
    }

    /** `fit_with_refinement`: refits with 1.5 times the density until acceptable or out of refinements. */
    method FitWithRefinement(o: FitOracles, points: seq<Vec3>, target: real, maxRefinements: int)
      returns (r: Result<FittedSurface>)
      requires DegreesValid(config)
      modifies this
      ensures var out := Refine(FitterFor(o, points), old(config), target, maxRefinements);
        r == out.result && config == out.config
    {
      var cur := config;
      ghost var fit := SomeImplementation(o, points);
      ghost var want := Refine(fit, cur, target, maxRefinements);
      r := FitVia(o, points, fit);
      var i := 0;
      if r.Success? {
        RefineStart(fit, cur, target, maxRefinements, r.value, i);
      }
      while i < maxRefinements && r.Success? && r.value.maxError > target
        invariant 0 <= i <= Iterations(maxRefinements)
        invariant config == cur && DegreesValid(cur)
        invariant r.Success? ==> SameOutcome(RefineLoop(fit, cur, target, r.value, Iterations(maxRefinements) - i), want)
        invariant r.Failure? ==> r == want.result && cur == want.config
        decreases maxRefinements - i
      {
        RefineStep(fit, cur, target, r.value, Iterations(maxRefinements) - i);
        cur := Grow(cur);
        config := cur;
        r := FitVia(o, points, fit);
        i := i + 1;
      }
      ImplementsUnique(fit, FitterFor(o, points), o, points);
      RefineAgrees(fit, FitterFor(o, points), old(config), target, maxRefinements);
    }
  }
}
