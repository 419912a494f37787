/**
 * The geometry the feature recogniser computes inside and after its RANSAC trials: face
 * centroids, inlier masks, the vectorised surface distances, the four-point sphere fit,
 * the cone apex system, the torus estimate, and the plane and cylinder refinements.
 * Linear solvers, the SVD and the least-squares optimiser are parameters (Solvers), each
 * with the law it is relied on for stated as a predicate.
 */
module RansacGeometry {
  import opened Wrappers
  import opened Vectors
  import opened Mesh
  import opened Primitives

  // ---------------------------------------------------------------------------
  // Points of the faces
  // ---------------------------------------------------------------------------

  /** `(v0 + v1 + v2) / 3` for face `f`. */
  function Centroid(m: StlMesh, f: nat): Vec3
    requires f < |m.faces| && IndicesInRange(|m.vertices|, m.faces)
  {
    var fc := m.faces[f];
    assert fc.Corner(0) < |m.vertices| && fc.Corner(1) < |m.vertices| && fc.Corner(2) < |m.vertices|;
    DivBy(Add(Add(m.vertices[fc.a], m.vertices[fc.b]), m.vertices[fc.c]), 3.0)
  }

  /** Each coordinate of a centroid is the mean of the face's three corner coordinates. */
  lemma CentroidIsMean(m: StlMesh, f: nat, axis: nat)
    requires f < |m.faces| && IndicesInRange(|m.vertices|, m.faces) && axis < 3
    ensures var fc := m.faces[f];
      fc.Corner(0) < |m.vertices| && fc.Corner(1) < |m.vertices| && fc.Corner(2) < |m.vertices| &&
      var corners := [Component(m.vertices[fc.a], axis), Component(m.vertices[fc.b], axis),
                      Component(m.vertices[fc.c], axis)];
      Component(Centroid(m, f), axis) == Mean(corners)
      && MinOf(corners) <= Component(Centroid(m, f), axis) <= MaxOf(corners)
  {
    var fc := m.faces[f];
    assert fc.Corner(0) < |m.vertices| && fc.Corner(1) < |m.vertices| && fc.Corner(2) < |m.vertices|;
    var corners := [Component(m.vertices[fc.a], axis), Component(m.vertices[fc.b], axis),
                    Component(m.vertices[fc.c], axis)];
    assert corners[..2][..1] == corners[..1] && corners[..1][..0] == [];
    assert Sum(corners[..1]) == corners[0];
    assert Sum(corners[..2]) == corners[0] + corners[1];
    assert Sum(corners) == corners[0] + corners[1] + corners[2];
    MeanBetweenMinMax(corners);
  }

  /** `_get_face_points`: the centroids and stored normals of the listed faces. */
  function FacePoints(m: StlMesh, faceIdx: seq<nat>): (r: (seq<Vec3>, seq<Vec3>))
    requires Indexable(m)
    requires forall k :: 0 <= k < |faceIdx| ==> faceIdx[k] < |m.faces|
    ensures |r.0| == |faceIdx| && |r.1| == |faceIdx|
    ensures forall k :: 0 <= k < |faceIdx| ==> r.0[k] == Centroid(m, faceIdx[k]) && r.1[k] == m.normals[faceIdx[k]]
  {
    (seq(|faceIdx|, k requires 0 <= k < |faceIdx| => Centroid(m, faceIdx[k])),
     seq(|faceIdx|, k requires 0 <= k < |faceIdx| => m.normals[faceIdx[k]]))
  }

  // ---------------------------------------------------------------------------
  // Inlier masks
  // ---------------------------------------------------------------------------

  /** Strictly increasing indices, all below `n`. */
  predicate IndexList(s: seq<nat>, n: nat) {
    (forall j :: 0 <= j < |s| ==> s[j] < n) && (forall j, k :: 0 <= j < k < |s| ==> s[j] < s[k])
  }

  /** `np.where(distances < threshold)[0]`. */
  function InlierIndices(dist: seq<real>, threshold: real): (r: seq<nat>)
    ensures IndexList(r, |dist|)
    ensures forall i :: 0 <= i < |dist| ==> (i in r <==> dist[i] < threshold)
    ensures |r| <= |dist|
    decreases |dist|
  {
    if |dist| == 0 then []
    else
      var n := |dist| - 1;
      var prev := InlierIndices(dist[..n], threshold);
      assert forall i :: 0 <= i < n ==> dist[..n][i] == dist[i];
      if dist[n] < threshold then prev + [n] else prev
  }

  /** The points at the given indices (`points[best_inliers]`). */
  function Select(pts: seq<Vec3>, idx: seq<nat>): (r: seq<Vec3>)
    requires forall j :: 0 <= j < |idx| ==> idx[j] < |pts|
    ensures |r| == |idx| && forall j :: 0 <= j < |idx| ==> r[j] == pts[idx[j]]
  {
    seq(|idx|, j requires 0 <= j < |idx| => pts[idx[j]])
  }

  // ---------------------------------------------------------------------------
  // Vectorised distances
  // ---------------------------------------------------------------------------

  const Floor: real := 0.0000000001

  /** `|(points - point_on_plane) . normal|`. */
  function PlaneDistances(pts: seq<Vec3>, p0: Vec3, n: Vec3): (r: seq<real>)
    ensures |r| == |pts|
  {
    seq(|pts|, i requires 0 <= i < |pts| => Abs(Dot(Sub(pts[i], p0), n)))
  }

  /** The recogniser's plane distances are the plane primitive's. */
  lemma PlaneDistancesAgree(pts: seq<Vec3>, p0: Vec3, n: Vec3, i: nat)
    requires i < |pts|
    ensures PlaneDistances(pts, p0, n)[i] == PlaneDistance(n, p0, pts[i])
  {
    assert Dot(Sub(pts[i], p0), n) == Dot(n, Sub(pts[i], p0));
  }

  /** `_cylinder_distances`: `v - outer(v . axis, axis)` row by row. */
  function CylinderDistances(rm: RealMath, pts: seq<Vec3>, c: Vec3, axis: Vec3, radius: real): (r: seq<real>)
    ensures |r| == |pts|
  {
    seq(|pts|, i requires 0 <= i < |pts| =>
      var v := Sub(pts[i], c);
      Abs(Norm(rm, Sub(v, Scale(Dot(v, axis), axis))) - radius))
  }

  /** Row for row, the recogniser's cylinder distance is the cylinder primitive's. */
  lemma CylinderDistancesAgree(rm: RealMath, pts: seq<Vec3>, c: Vec3, axis: Vec3, radius: real, i: nat)
    requires i < |pts|
    ensures CylinderDistances(rm, pts, c, axis, radius)[i] == CylinderDistance(rm, c, axis, radius, pts[i])
  {
  }

  function SphereDistances(rm: RealMath, pts: seq<Vec3>, c: Vec3, radius: real): (r: seq<real>)
    ensures |r| == |pts|
    ensures forall i :: 0 <= i < |pts| ==> r[i] == SphereDistance(rm, c, radius, pts[i])
  {
    seq(|pts|, i requires 0 <= i < |pts| => Abs(Norm(rm, Sub(pts[i], c)) - radius))
  }

  /** `_cone_distances`: the axial projection is clamped to `1e-10` from below. */
  function ConeDistances(rm: RealMath, pts: seq<Vec3>, apex: Vec3, axis: Vec3, halfAngle: real): (r: seq<real>)
    ensures |r| == |pts|
  {
    seq(|pts|, i requires 0 <= i < |pts| => ClampedConeDistance(rm, apex, axis, halfAngle, pts[i]))
  }

  function ClampedConeDistance(rm: RealMath, apex: Vec3, axis: Vec3, halfAngle: real, x: Vec3): real {
    var v := Sub(x, apex);
    var t := MaxReal(Dot(v, axis), Floor);
    Abs(Norm(rm, Sub(v, Scale(t, axis))) - t * rm.tan(halfAngle)) * rm.cos(halfAngle)
  }

  /** Past the clamp, the recogniser's cone distance is the cone primitive's. */
  lemma ConeDistancesAgree(rm: RealMath, pts: seq<Vec3>, apex: Vec3, axis: Vec3, halfAngle: real, i: nat)
    requires i < |pts| && Dot(Sub(pts[i], apex), axis) >= Floor
    ensures ConeDistances(rm, pts, apex, axis, halfAngle)[i] == ConeDistance(rm, apex, axis, halfAngle, pts[i])
  {
    var v := Sub(pts[i], apex);
    var t := Dot(v, axis);
    assert MaxReal(t, Floor) == t;
  }

  /**
   * Behind the apex the two disagree: the recogniser measures against the clamped axial
   * point, the primitive against the apex. At the apex itself, with a zero half-angle,
   * the recogniser reports `1e-10` where the primitive reports 0.
   */
  lemma ConeDistancesDisagreeAtApex(rm: RealMath, axis: Vec3, x: Vec3)
    requires SqrtLaw(rm) && Dot(axis, axis) == 1.0 && rm.cos(0.0) == 1.0 && rm.tan(0.0) == 0.0
    ensures ConeDistances(rm, [x], x, axis, 0.0)[0] == Floor
    ensures ConeDistance(rm, x, axis, 0.0, x) == 0.0
  {
    var v := Sub(x, x);
    assert v == Zero;
    assert Sub(v, Scale(Floor, axis)) == Scale(-Floor, axis);
    NormScale(rm, -Floor, axis);
    SqrtOne(rm);
    SqrtZero(rm);
  }

  /** `_torus_distances`: the in-plane distance is clamped to `1e-10` from below. */
  function TorusDistances(rm: RealMath, pts: seq<Vec3>, c: Vec3, axis: Vec3, major: real, minor: real): (r: seq<real>)
    ensures |r| == |pts|
  {
    seq(|pts|, i requires 0 <= i < |pts| =>
      var v := Sub(pts[i], c);
      var inPlane := Sub(v, Scale(Dot(v, axis), axis));
      var d := MaxReal(Norm(rm, inPlane), Floor);
      Abs(Norm(rm, Sub(pts[i], MajorPoint(c, major, inPlane, d))) - minor))
  }

  /** Off the axis, the recogniser's torus distance is the torus primitive's. */
  lemma TorusDistancesAgree(rm: RealMath, pts: seq<Vec3>, c: Vec3, axis: Vec3, major: real, minor: real, i: nat)
    requires i < |pts| && Norm(rm, Perp(Sub(pts[i], c), axis)) >= Floor
    ensures TorusDistances(rm, pts, c, axis, major, minor)[i] == TorusDistance(rm, c, axis, major, minor, pts[i])
  {
  }

  // ---------------------------------------------------------------------------
  // Outside solvers
  // ---------------------------------------------------------------------------

  /** A row `[2px, 2py, 2pz, -1] | px² + py² + pz²` of the four-point sphere system. */
  datatype SphereRow = SphereRow(coef: Vec3, kCoef: real, rhs: real)

  datatype Mat3 = Mat3(r0: Vec3, r1: Vec3, r2: Vec3)

  function MatVec(a: Mat3, x: Vec3): Vec3 { Vec3(Dot(a.r0, x), Dot(a.r1, x), Dot(a.r2, x)) }
  function MatSub(a: Mat3, b: Mat3): Mat3 { Mat3(Sub(a.r0, b.r0), Sub(a.r1, b.r1), Sub(a.r2, b.r2)) }
  /** `np.outer(n, n)`. */
  function Outer(n: Vec3): Mat3 { Mat3(Scale(n.x, n), Scale(n.y, n), Scale(n.z, n)) }
  /** `np.eye(3) * k`. */
  function ScaledIdentity(k: real): Mat3 { Mat3(Vec3(k, 0.0, 0.0), Vec3(0.0, k, 0.0), Vec3(0.0, 0.0, k)) }

  /**
   * `np.linalg.solve` on the sphere and cone systems (None where it raises LinAlgError),
   * the last right singular vector of `np.linalg.svd`, and `scipy.optimize.least_squares`
   * on the cylinder and sphere residuals (None where it raises).
   */
  datatype Solvers = Solvers(
    rm: RealMath,
    solveSphere: seq<SphereRow> -> Option<(Vec3, real)>,
    solveCone: (Mat3, Vec3) -> Option<Vec3>,
    svdLast: seq<Vec3> -> Vec3,
    fitCylinder: (seq<Vec3>, Vec3, Vec3, real) -> Option<(Vec3, Vec3, real)>,
    fitSphere: (seq<Vec3>, Vec3, real) -> Option<(Vec3, real)>)

  predicate SolvesRows(rows: seq<SphereRow>, c: Vec3, k: real) {
    forall i :: 0 <= i < |rows| ==> Dot(rows[i].coef, c) + rows[i].kCoef * k == rows[i].rhs
  }

  /** A solution the solvers return satisfies the system they were given. */
  ghost predicate SolverLaws(o: Solvers) {
    && (forall rows :: o.solveSphere(rows).Some? ==>
          SolvesRows(rows, o.solveSphere(rows).value.0, o.solveSphere(rows).value.1))
    && (forall a, b :: o.solveCone(a, b).Some? ==> MatVec(a, o.solveCone(a, b).value) == b)
  }

  /** The rows of an SVD's `vh` are unit vectors. */
  ghost predicate SvdLaw(o: Solvers) {
    forall pts :: Dot(o.svdLast(pts), o.svdLast(pts)) == 1.0
  }

  // ---------------------------------------------------------------------------
  // Four-point sphere
  // ---------------------------------------------------------------------------

  function SphereRowOf(p: Vec3): SphereRow {
    SphereRow(Scale(2.0, p), -1.0, Dot(p, p))
  }

  function SphereSystem(pts: seq<Vec3>): (rows: seq<SphereRow>)
    ensures |rows| == |pts| && forall i :: 0 <= i < |pts| ==> rows[i] == SphereRowOf(pts[i])
  {
    seq(|pts|, i requires 0 <= i < |pts| => SphereRowOf(pts[i]))
  }

  /** The loop that fills `A` and `b` row by row. */
  method FillSphereSystem(pts: seq<Vec3>) returns (rows: seq<SphereRow>)
    ensures rows == SphereSystem(pts)
  {
    var a := new SphereRow[|pts|];
    for i := 0 to |pts|
      invariant forall j :: 0 <= j < i ==> a[j] == SphereRowOf(pts[j])
    {
      a[i] := SphereRow(Scale(2.0, pts[i]), -1.0, pts[i].x * pts[i].x + pts[i].y * pts[i].y + pts[i].z * pts[i].z);
    }
    rows := a[..];
  }

  /**
   * `_fit_sphere_4points`: centre and `k = |c|² - r²` from the solver, radius
   * `sqrt(|c|² - k)`. A singular system, and a negative `|c|² - k` (a NaN radius, which
   * no point can be within the threshold of), give no sphere.
   */
  function FitSphere4(o: Solvers, pts: seq<Vec3>): (r: Option<(Vec3, real)>)
    ensures r.Some? ==> r.value.1 >= 0.0
  {
    match o.solveSphere(SphereSystem(pts))
    case None => None
    case Some(sol) =>
      var q := Dot(sol.0, sol.0) - sol.1;
      if q < 0.0 then None else Some((sol.0, o.rm.sqrt(q)))
  }

  method FitSphere4Points(o: Solvers, pts: seq<Vec3>) returns (r: Option<(Vec3, real)>)
    ensures r == FitSphere4(o, pts)
  {
    var rows := FillSphereSystem(pts);
    var sol := o.solveSphere(rows);
    if sol.None? {
      r := None;
    } else {
      var c := sol.value.0;
      var q := Dot(c, c) - sol.value.1;
      r := if q < 0.0 then None else Some((c, o.rm.sqrt(q)));
    }
  }

  /** A point whose row is satisfied is at squared distance `|c|² - k` from the centre. */
  lemma SphereRowDistance(p: Vec3, c: Vec3, k: real)
    requires Dot(SphereRowOf(p).coef, c) + SphereRowOf(p).kCoef * k == SphereRowOf(p).rhs
    ensures Dot(Sub(p, c), Sub(p, c)) == Dot(c, c) - k
  {
  }

  /** Every sample point lies on the sphere fitted through it. */
  lemma FitSphere4OnSamples(o: Solvers, pts: seq<Vec3>, i: nat)
    requires SolverLaws(o) && SqrtLaw(o.rm)
    requires FitSphere4(o, pts).Some? && i < |pts|
    ensures var s := FitSphere4(o, pts).value; SphereDistance(o.rm, s.0, s.1, pts[i]) == 0.0
  {
    var rows := SphereSystem(pts);
    var sol := o.solveSphere(rows).value;
    assert rows[i] == SphereRowOf(pts[i]);
    SphereRowDistance(pts[i], sol.0, sol.1);
  }

  // ---------------------------------------------------------------------------
  // Cone apex
  // ---------------------------------------------------------------------------

  /** `A` and `b` after the first `k` rounds: `A = k0 I - Σ n nᵀ`, `b = Σ (p - n nᵀ p)`. */
  function ConeSystem(pts: seq<Vec3>, ns: seq<Vec3>, k: nat): (Mat3, Vec3)
    requires k <= |pts| && k <= |ns|
  {
    if k == 0 then (ScaledIdentity(|pts| as real), Zero)
    else
      var prev := ConeSystem(pts, ns, k - 1);
      var o := Outer(ns[k - 1]);
      (MatSub(prev.0, o), Add(prev.1, Sub(pts[k - 1], MatVec(o, pts[k - 1]))))
  }

  /** The loop of `_estimate_cone_from_samples` over the sample points and normals. */
  method FillConeSystem(pts: seq<Vec3>, ns: seq<Vec3>) returns (a: Mat3, b: Vec3)
    requires |pts| == |ns|
    ensures (a, b) == ConeSystem(pts, ns, |pts|)
  {
    a := ScaledIdentity(|pts| as real);
    b := Zero;
    var i := 0;
    while i < |pts|
      invariant i <= |pts|
      invariant (a, b) == ConeSystem(pts, ns, i)
    {
      var o := Outer(ns[i]);
      a := MatSub(a, o);
      b := Add(b, Sub(pts[i], MatVec(o, pts[i])));
      i := i + 1;
    }
  }

  /** The component of `x - p` off the line through `p` along `n` (for a unit `n`). */
  function OffLine(x: Vec3, p: Vec3, n: Vec3): Vec3 {
    Sub(Sub(x, p), MatVec(Outer(n), Sub(x, p)))
  }

  function OffLineSum(x: Vec3, pts: seq<Vec3>, ns: seq<Vec3>, k: nat): Vec3
    requires k <= |pts| && k <= |ns|
  {
    if k == 0 then Zero else Add(OffLineSum(x, pts, ns, k - 1), OffLine(x, pts[k - 1], ns[k - 1]))
  }

  lemma MatVecSub(a: Mat3, b: Mat3, x: Vec3)
    ensures MatVec(MatSub(a, b), x) == Sub(MatVec(a, x), MatVec(b, x))
  {
  }

  lemma MatVecLinear(a: Mat3, x: Vec3, p: Vec3)
    ensures MatVec(a, Sub(x, p)) == Sub(MatVec(a, x), MatVec(a, p))
  {
  }

  lemma ResidualStep(ax: Vec3, ox: Vec3, b: Vec3, p: Vec3, op: Vec3, x: Vec3, sum: Vec3, c: real)
    requires Sub(ax, b) == Add(Scale(c + 1.0, x), sum)
    ensures Sub(Sub(ax, ox), Add(b, Sub(p, op))) == Add(Scale(c, x), Add(sum, Sub(Sub(x, p), Sub(ox, op))))
  {
  }

  /** After `k` rounds, `A x - b = (n0 - k) x + Σ_{i<k} offline_i(x)`. */
  lemma {:induction false} ConeSystemResidual(pts: seq<Vec3>, ns: seq<Vec3>, k: nat, x: Vec3)
    requires k <= |pts| && k <= |ns|
    ensures var s := ConeSystem(pts, ns, k);
      Sub(MatVec(s.0, x), s.1) == Add(Scale((|pts| - k) as real, x), OffLineSum(x, pts, ns, k))
  {
    if k > 0 {
      ConeSystemResidual(pts, ns, k - 1, x);
      var prev := ConeSystem(pts, ns, k - 1);
      var o := Outer(ns[k - 1]);
      var p := pts[k - 1];
      MatVecSub(prev.0, o, x);
      MatVecLinear(o, x, p);
      var c := (|pts| - k) as real;
      assert (|pts| - (k - 1)) as real == c + 1.0;
      ResidualStep(MatVec(prev.0, x), MatVec(o, x), prev.1, p, MatVec(o, p), x, OffLineSum(x, pts, ns, k - 1), c);
    }
  }

  /**
   * A solved apex is the stationary point of the summed squared distances to the sample
   * normal lines: the off-line components of the apex cancel.
   */
  lemma ConeApexStationary(o: Solvers, pts: seq<Vec3>, ns: seq<Vec3>)
    requires SolverLaws(o) && |pts| == |ns|
    requires var s := ConeSystem(pts, ns, |pts|); o.solveCone(s.0, s.1).Some?
    ensures var s := ConeSystem(pts, ns, |pts|);
      OffLineSum(o.solveCone(s.0, s.1).value, pts, ns, |pts|) == Zero
  {
    var s := ConeSystem(pts, ns, |pts|);
    var apex := o.solveCone(s.0, s.1).value;
    ConeSystemResidual(pts, ns, |pts|, apex);
  }

  /** `np.mean(vs, axis=0)`. */
  function MeanVec(vs: seq<Vec3>): Vec3
    requires |vs| > 0
  {
    Vec3(Mean(Column(vs, 0)), Mean(Column(vs, 1)), Mean(Column(vs, 2)))
  }

  /** The mean of a set of points lies inside their bounding box. */
  lemma MeanVecInBox(vs: seq<Vec3>, axis: nat)
    requires |vs| > 0 && axis < 3
    ensures MinOf(Column(vs, axis)) <= Component(MeanVec(vs), axis) <= MaxOf(Column(vs, axis))
  {
    MeanBetweenMinMax(Column(vs, axis));
  }

  /** `np.clip(x, lo, hi)`. */
  function Clip(x: real, lo: real, hi: real): real { MinReal(MaxReal(x, lo), hi) }

  /**
   * `_estimate_cone_from_samples`: apex from the solver, axis the normalised mean
   * direction from the apex to the points, half-angle the mean angle to the axis. A
   * singular system (the ValueError the trial catches) and a zero mean direction (a NaN
   * axis, which no point can be within the threshold of) give no cone.
   */
  function ConeEstimate(o: Solvers, pts: seq<Vec3>, ns: seq<Vec3>): (r: Option<(Vec3, Vec3, real)>)
    requires |pts| == |ns| && |pts| > 0
  {
    var s := ConeSystem(pts, ns, |pts|);
    match o.solveCone(s.0, s.1)
    case None => None
    case Some(apex) =>
      var dirs := seq(|pts|, i requires 0 <= i < |pts| =>
        DivBy(Sub(pts[i], apex), Norm(o.rm, Sub(pts[i], apex)) + Floor));
      var mean := MeanVec(dirs);
      var nm := Norm(o.rm, mean);
      if nm == 0.0 then None
      else
        var axis := DivBy(mean, nm);
        var angles := seq(|pts|, i requires 0 <= i < |pts| => o.rm.arccos(Clip(Dot(dirs[i], axis), -1.0, 1.0)));
        Some((apex, axis, Mean(angles)))
  }

  /** An estimated cone has a unit axis and the apex the solver found. */
  lemma ConeEstimateAxis(o: Solvers, pts: seq<Vec3>, ns: seq<Vec3>)
    requires SqrtLaw(o.rm) && |pts| == |ns| && |pts| > 0
    requires ConeEstimate(o, pts, ns).Some?
    ensures var s := ConeSystem(pts, ns, |pts|);
      o.solveCone(s.0, s.1) == Some(ConeEstimate(o, pts, ns).value.0)
    ensures Norm(o.rm, ConeEstimate(o, pts, ns).value.1) == 1.0
  {
    var s := ConeSystem(pts, ns, |pts|);
    var apex := o.solveCone(s.0, s.1).value;
    var dirs := seq(|pts|, i requires 0 <= i < |pts| =>
      DivBy(Sub(pts[i], apex), Norm(o.rm, Sub(pts[i], apex)) + Floor));
    DivByNormIsUnit(o.rm, MeanVec(dirs));
  }

  // ---------------------------------------------------------------------------
  // Torus estimate
  // ---------------------------------------------------------------------------

  /**
   * `_estimate_torus`: centre the mean, axis the last singular vector of the centred
   * points, major radius the mean in-plane distance, minor radius the mean distance from
   * the major-circle points (divided by `norm + 1e-10`, so never by zero).
   */
  function TorusEstimate(o: Solvers, pts: seq<Vec3>): (r: (Vec3, Vec3, real, real))
    requires |pts| > 0
    ensures r.2 >= 0.0 && r.3 >= 0.0
  {
    var center := MeanVec(pts);
    var centered := seq(|pts|, i requires 0 <= i < |pts| => Sub(pts[i], center));
    var axis := o.svdLast(centered);
    var perp := seq(|pts|, i requires 0 <= i < |pts| => Sub(centered[i], Scale(Dot(centered[i], axis), axis)));
    var norms := Norms(o.rm, perp);
    MeanNonNeg(norms);
    var major := Mean(norms);
    var minors := MinorDistances(o.rm, centered, perp, norms, major);
    MeanNonNeg(minors);
    (center, axis, major, Mean(minors))
  }

  /** The length of each vector. */
  function Norms(rm: RealMath, vs: seq<Vec3>): (r: seq<real>)
    ensures |r| == |vs|
    ensures forall i :: 0 <= i < |r| ==> r[i] == Norm(rm, vs[i]) && r[i] >= 0.0
  {
    seq(|vs|, i requires 0 <= i < |vs| => Norm(rm, vs[i]) as real)
  }

  /** The distance of each centred point from its nearest point on the major circle. */
  function MinorDistances(rm: RealMath, centered: seq<Vec3>, perp: seq<Vec3>, norms: seq<real>, major: real): (r: seq<real>)
    requires |perp| == |centered| && |norms| == |centered|
    requires forall i :: 0 <= i < |norms| ==> norms[i] >= 0.0
    ensures |r| == |centered|
    ensures forall i :: 0 <= i < |r| ==> r[i] >= 0.0
  {
    seq(|centered|, i requires 0 <= i < |centered| =>
      Norm(rm, Sub(centered[i], Scale(major, DivBy(perp[i], norms[i] + Floor)))) as real)
  }

  // ---------------------------------------------------------------------------
  // Plane refinement and bounds
  // ---------------------------------------------------------------------------

  /** `_refine_plane_fit`: centroid and SVD normal, flipped to a non-negative z. */
  function RefinePlane(o: Solvers, pts: seq<Vec3>): (r: (Vec3, Vec3))
    requires |pts| > 0
    ensures r.0 == MeanVec(pts)
    ensures r.1.z >= 0.0
    ensures var n := o.svdLast(seq(|pts|, i requires 0 <= i < |pts| => Sub(pts[i], MeanVec(pts))));
      r.1 == n || r.1 == Neg(n)
  {
    var centroid := MeanVec(pts);
    var n := o.svdLast(seq(|pts|, i requires 0 <= i < |pts| => Sub(pts[i], centroid)));
    (centroid, if n.z < 0.0 then Neg(n) else n)
  }

  /** Under the SVD law the refined normal is a unit vector. */
  lemma RefinePlaneUnit(o: Solvers, pts: seq<Vec3>)
    requires SvdLaw(o) && |pts| > 0
    ensures Dot(RefinePlane(o, pts).1, RefinePlane(o, pts).1) == 1.0
  {
    var n := o.svdLast(seq(|pts|, i requires 0 <= i < |pts| => Sub(pts[i], MeanVec(pts))));
    assert Dot(Neg(n), Neg(n)) == Dot(n, n);
  }

  /** The in-plane `u` direction before normalisation. */
  function BoundsAxisRaw(n: Vec3): Vec3 {
    if Abs(n.z) < 0.9 then Cross(n, Vec3(0.0, 0.0, 1.0)) else Cross(n, Vec3(1.0, 0.0, 0.0))
  }

  /** For a unit normal, the raw `u` direction is never zero, so normalising it never divides by zero. */
  lemma BoundsAxisNonZero(rm: RealMath, n: Vec3)
    requires SqrtLaw(rm) && Dot(n, n) == 1.0
    ensures Norm(rm, BoundsAxisRaw(n)) != 0.0
  {
    BoundsAxisRawNonZero(n);
    NormZeroIff(rm, BoundsAxisRaw(n));
  }

  lemma BoundsAxisRawNonZero(n: Vec3)
    requires Dot(n, n) == 1.0
    ensures BoundsAxisRaw(n) != Zero
  {
    var a := Abs(n.z);
    if a < 0.9 {
      SquareMono(a, 0.9);
      if n.z < 0.0 {
        assert a == -n.z;
        NegSquare(n.z);
      } else {
        assert a == n.z;
      }
      assert a * a < 0.81;
      assert n.z * n.z == a * a;
      var raw := Cross(n, Vec3(0.0, 0.0, 1.0));
      assert raw == Vec3(n.y, -n.x, 0.0);
    } else {
      var raw := Cross(n, Vec3(1.0, 0.0, 0.0));
      assert raw == Vec3(0.0, n.z, -n.y);
    }
  }

  /**
   * `_compute_plane_bounds`: the extent of the points along `u` and `v = n x u`, with a
   * zero third component. A zero raw `u` (impossible for a unit normal) is left unscaled.
   */
  function PlaneBounds(rm: RealMath, pts: seq<Vec3>, center: Vec3, n: Vec3): (b: (Vec3, Vec3))
    requires |pts| > 0
    ensures b.0.x <= b.1.x && b.0.y <= b.1.y && b.0.z == 0.0 && b.1.z == 0.0
  {
    var raw := BoundsAxisRaw(n);
    var nu := Norm(rm, raw);
    var u := if nu == 0.0 then raw else DivBy(raw, nu);
    var v := Cross(n, u);
    var lu := seq(|pts|, i requires 0 <= i < |pts| => Dot(Sub(pts[i], center), u));
    var lv := seq(|pts|, i requires 0 <= i < |pts| => Dot(Sub(pts[i], center), v));
    (Vec3(MinOf(lu), MinOf(lv), 0.0), Vec3(MaxOf(lu), MaxOf(lv), 0.0))
  }

  /** Every point's local coordinates lie within the bounds. */
  lemma PlaneBoundsContain(rm: RealMath, pts: seq<Vec3>, center: Vec3, n: Vec3, i: nat)
    requires i < |pts|
    ensures var b := PlaneBounds(rm, pts, center, n);
      var raw := BoundsAxisRaw(n);
      var u := if Norm(rm, raw) == 0.0 then raw else DivBy(raw, Norm(rm, raw));
      var q := Sub(pts[i], center);
      b.0.x <= Dot(q, u) <= b.1.x && b.0.y <= Dot(q, Cross(n, u)) <= b.1.y
  {
    var raw := BoundsAxisRaw(n);
    var nu := Norm(rm, raw);
    var u := if nu == 0.0 then raw else DivBy(raw, nu);
    var v := Cross(n, u);
    var lu := seq(|pts|, i requires 0 <= i < |pts| => Dot(Sub(pts[i], center), u));
    var lv := seq(|pts|, i requires 0 <= i < |pts| => Dot(Sub(pts[i], center), v));
    assert PlaneBounds(rm, pts, center, n) == (Vec3(MinOf(lu), MinOf(lv), 0.0), Vec3(MaxOf(lu), MaxOf(lv), 0.0));
    assert lu[i] == Dot(Sub(pts[i], center), u) && lv[i] == Dot(Sub(pts[i], center), v);
  }

  // ---------------------------------------------------------------------------
  // Cylinder and sphere refinement
  // ---------------------------------------------------------------------------

  /**
   * `_refine_cylinder_fit`: the optimiser's centre, its axis normalised and the absolute
   * value of its radius; where the optimiser raises, the sample's own parameters. A zero
   * optimised axis (a NaN axis in the source) is left unscaled.
   */
  function RefineCylinder(o: Solvers, pts: seq<Vec3>, c: Vec3, a: Vec3, r: real): (f: (Vec3, Vec3, real))
    ensures o.fitCylinder(pts, c, a, r).None? ==> f == (c, a, r)
    ensures o.fitCylinder(pts, c, a, r).Some? ==> f.0 == o.fitCylinder(pts, c, a, r).value.0 && f.2 >= 0.0
  {
    match o.fitCylinder(pts, c, a, r)
    case None => (c, a, r)
    case Some(fit) =>
      var n := Norm(o.rm, fit.1);
      (fit.0, if n == 0.0 then fit.1 else DivBy(fit.1, n), Abs(fit.2))
  }

  /** An optimised non-zero axis comes back as a unit vector. */
  lemma RefineCylinderUnit(o: Solvers, pts: seq<Vec3>, c: Vec3, a: Vec3, r: real)
    requires SqrtLaw(o.rm) && o.fitCylinder(pts, c, a, r).Some?
    requires o.fitCylinder(pts, c, a, r).value.1 != Zero
    ensures Norm(o.rm, RefineCylinder(o, pts, c, a, r).1) == 1.0
  {
    var fit := o.fitCylinder(pts, c, a, r).value;
    NormZeroIff(o.rm, fit.1);
    DivByNormIsUnit(o.rm, fit.1);
  }

  /** `_refine_sphere_fit`: the optimiser's centre and absolute radius, or the sample's. */
  function RefineSphere(o: Solvers, pts: seq<Vec3>, c: Vec3, r: real): (f: (Vec3, real))
    ensures o.fitSphere(pts, c, r).None? ==> f == (c, r)
    ensures o.fitSphere(pts, c, r).Some? ==> f.0 == o.fitSphere(pts, c, r).value.0 && f.1 >= 0.0
  {
    match o.fitSphere(pts, c, r)
    case None => (c, r)
    case Some(fit) => (fit.0, Abs(fit.1))
  }

  /** The inlier projections on the axis (`np.dot(inlier_points - center, axis)`). */
  function AxialProjections(pts: seq<Vec3>, c: Vec3, a: Vec3): (p: seq<real>)
    ensures |p| == |pts|
  {
    seq(|pts|, i requires 0 <= i < |pts| => Dot(Sub(pts[i], c), a))
  }

  /** The cylinder's height and its start and end points on the axis. */
  function CylinderExtent(pts: seq<Vec3>, c: Vec3, a: Vec3): (e: (real, Vec3, Vec3))
    requires |pts| > 0
    ensures e.0 >= 0.0
  {
    var proj := AxialProjections(pts, c, a);
    (MaxOf(proj) - MinOf(proj), Add(c, Scale(MinOf(proj), a)), Add(c, Scale(MaxOf(proj), a)))
  }

  /** Along a unit axis, the end point lies one height from the start. */
  lemma CylinderExtentLength(rm: RealMath, pts: seq<Vec3>, c: Vec3, a: Vec3)
    requires SqrtLaw(rm) && Dot(a, a) == 1.0 && |pts| > 0
    ensures var e := CylinderExtent(pts, c, a); Norm(rm, Sub(e.2, e.1)) == e.0
  {
    var proj := AxialProjections(pts, c, a);
    var lo := MinOf(proj);
    var hi := MaxOf(proj);
    SubScales(c, a, hi, lo);
    NormAlongUnit(rm, hi - lo, a);
  }

  lemma SubScales(c: Vec3, a: Vec3, hi: real, lo: real)
    ensures Sub(Add(c, Scale(hi, a)), Add(c, Scale(lo, a))) == Scale(hi - lo, a)
  {
    assert (hi - lo) * a.x == hi * a.x - lo * a.x;
    assert (hi - lo) * a.y == hi * a.y - lo * a.y;
    assert (hi - lo) * a.z == hi * a.z - lo * a.z;
  }

  lemma NormAlongUnit(rm: RealMath, k: real, a: Vec3)
    requires SqrtLaw(rm) && Dot(a, a) == 1.0
    ensures Norm(rm, Scale(k, a)) == Abs(k)
  {
    NormScale(rm, k, a);
    SqrtOne(rm);
  }

  /** Along a unit axis, every inlier projects between the start and the end point. */
  lemma CylinderExtentContains(pts: seq<Vec3>, c: Vec3, a: Vec3, i: nat)
    requires Dot(a, a) == 1.0 && i < |pts|
    ensures var e := CylinderExtent(pts, c, a);
      Dot(Sub(e.1, c), a) <= Dot(Sub(pts[i], c), a) <= Dot(Sub(e.2, c), a)
  {
    var proj := AxialProjections(pts, c, a);
    var lo := MinOf(proj);
    var hi := MaxOf(proj);
    assert proj[i] == Dot(Sub(pts[i], c), a);
    assert Sub(Add(c, Scale(lo, a)), c) == Scale(lo, a);
    assert Sub(Add(c, Scale(hi, a)), c) == Scale(hi, a);
    DotScaleLeft(lo, a, a);
    DotScaleLeft(hi, a, a);
  }
}
