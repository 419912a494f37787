/**
 * `FeatureRecognizer`: per feature type a RANSAC detector over the centroids of the
 * remaining faces, and `recognize`, which runs the detectors in a fixed order and removes
 * the faces of every detected feature before looking for the next one.
 *
 * The random samples are the parameter `rng`: `rng(c, t, n, k)` is what
 * `np.random.choice(n, k, replace=False)` draws in trial `t` of the `c`-th detector call.
 */
module Recognizer {
  import opened Wrappers
  import opened Vectors
  import opened Config
  import opened Mesh
  import opened Primitives
  import opened Ransac
  import opened RansacGeometry

  const Pi: real := 3.141592653589793
  const Degenerate: real := 0.0000000001

  datatype Env = Env(solvers: Solvers, rng: (nat, nat, nat, nat) -> seq<nat>)

  /** `k` distinct indices below `n`. */
  predicate IsSample(s: seq<nat>, n: nat, k: nat) {
    && |s| == k
    && (forall j :: 0 <= j < k ==> s[j] < n)
    && (forall j, l :: 0 <= j < l < k ==> s[j] != s[l])
  }

  ghost predicate ValidRng(rng: (nat, nat, nat, nat) -> seq<nat>) {
    forall c: nat, t: nat, n: nat, k: nat :: k <= n ==> IsSample(rng(c, t, n, k), n, k)
  }

  function Draw(env: Env, call: nat, trial: nat, n: nat, k: nat): (s: seq<nat>)
    requires ValidRng(env.rng) && k <= n
    ensures IsSample(s, n, k)
  {
    env.rng(call, trial, n, k)
  }

  // ---------------------------------------------------------------------------
  // Results
  // ---------------------------------------------------------------------------

  datatype RecognizedFeature = RecognizedFeature(primitive: Primitive, faceIndices: seq<nat>, coverageRatio: real)

  /** A detector returns a feature, returns None, or raises. */
  datatype Detection = NoFeature | Found(feature: RecognizedFeature) | Raised(error: string)

  const FloatIndexError: string := "arrays used as indices must be of integer (or boolean) type"
  const EmptyReduction: string := "zero-size array to reduction operation minimum which has no identity"
  const UnpackNone: string := "cannot unpack non-iterable NoneType object"

  /** `_min_points_for_type`, with its fallback of 10 for a type without an entry. */
  function MinPointsForType(cfg: FeatureRecognitionConfig, t: FeatureType): int {
    match t
    case Plane => cfg.minPointsPlane
    case Cylinder => cfg.minPointsCylinder
    case Sphere => cfg.minPointsSphere
    case Cone => cfg.minPointsCone
    case Torus => 50
    case Freeform => 10
  }

  function Ratio(a: nat, b: nat): real
    requires b > 0
  {
    (a as real) / (b as real)
  }

  lemma RatioBounds(a: nat, b: nat)
    requires 0 < a <= b
    ensures 0.0 < Ratio(a, b) <= 1.0
  {
    DivBounds(a as real, b as real, 0.0, 1.0);
    assert a as real > 0.0;
  }

  /** `face_indices[best_inliers]` and `len(best_inliers) / num_faces`. */
  function Package(prim: Primitive, inl: seq<nat>, faceIdx: seq<nat>, numFaces: nat): RecognizedFeature
    requires forall j :: 0 <= j < |inl| ==> inl[j] < |faceIdx|
    requires numFaces > 0
  {
    RecognizedFeature(prim, seq(|inl|, j requires 0 <= j < |inl| => faceIdx[inl[j]]), Ratio(|inl|, numFaces))
  }

  /**
   * What every detected feature satisfies: its type, at least the type's minimum and at
   * least one inlier, confidence and coverage as the inlier fractions of the points and
   * of the mesh, and face indices that are the inliers' faces.
   */
  ghost predicate FoundOk(f: RecognizedFeature, cfg: FeatureRecognitionConfig, t: FeatureType,
                          nPoints: nat, faceIdx: seq<nat>, numFaces: nat)
  {
    var inl := f.primitive.common.pointIndices;
    && FeatureTypeOf(f.primitive) == t
    && IndexList(inl, nPoints) && nPoints <= |faceIdx|
    && |inl| >= 1 && |inl| >= MinPointsForType(cfg, t)
    && nPoints > 0 && numFaces > 0
    && f.primitive.common.confidence == Ratio(|inl|, nPoints)
    && f.coverageRatio == Ratio(|inl|, numFaces)
    && |f.faceIndices| == |inl|
    && (forall j :: 0 <= j < |inl| ==> f.faceIndices[j] == faceIdx[inl[j]])
  }

  // ---------------------------------------------------------------------------
  // Hypotheses and trials
  // ---------------------------------------------------------------------------

  datatype PlaneHyp = PlaneHyp(point: Vec3, normal: Vec3)
  datatype CylinderHyp = CylinderHyp(center: Vec3, axis: Vec3, radius: real)
  datatype SphereHyp = SphereHyp(center: Vec3, radius: real)
  datatype ConeHyp = ConeHyp(apex: Vec3, axis: Vec3, halfAngle: real)
  datatype TorusHyp = TorusHyp(center: Vec3, axis: Vec3, major: real, minor: real)

  /** `range(ransac_iterations)` runs no trial for a negative count. */
  function Iterations(cfg: FeatureRecognitionConfig): nat {
    if cfg.ransacIterations < 0 then 0 else cfg.ransacIterations
  }

  /** `ransac_iterations // 2` (floor division, so a negative count gives no trial). */
  function TorusIterations(cfg: FeatureRecognitionConfig): nat {
    if cfg.ransacIterations < 0 then 0 else cfg.ransacIterations / 2
  }

  /** The mean of `|n . normal|` over the inliers' normals. */
  function NormalAgreement(ns: seq<Vec3>, inl: seq<nat>, normal: Vec3): real
    requires |inl| > 0 && forall j :: 0 <= j < |inl| ==> inl[j] < |ns|
  {
    Mean(seq(|inl|, j requires 0 <= j < |inl| => Abs(Dot(ns[inl[j]], normal)) as real))
  }

  /** The mean of `|n . radial|`, the radial direction divided by `norm + 1e-10`. */
  function RadialAgreement(rm: RealMath, pts: seq<Vec3>, ns: seq<Vec3>, inl: seq<nat>, c: Vec3): real
    requires |pts| == |ns| && |inl| > 0 && forall j :: 0 <= j < |inl| ==> inl[j] < |pts|
  {
    Mean(seq(|inl|, j requires 0 <= j < |inl| =>
      var radial := Sub(pts[inl[j]], c);
      Abs(Dot(ns[inl[j]], DivBy(radial, Norm(rm, radial) + Degenerate))) as real))
  }

  /**
   * One plane trial: the normal of the three sampled points unless they are collinear,
   * the inliers within the threshold, rejected when the inliers' normals disagree.
   */
  function PlaneTrial(env: Env, cfg: FeatureRecognitionConfig, pts: seq<Vec3>, ns: seq<Vec3>, s: seq<nat>)
    : (r: Option<Candidate<PlaneHyp>>)
    requires |pts| == |ns| && IsSample(s, |pts|, 3)
    ensures r.Some? ==> r.value.hyp.point == pts[s[0]]
    ensures r.Some? ==> r.value.inliers == InlierIndices(PlaneDistances(pts, r.value.hyp.point, r.value.hyp.normal), cfg.ransacThreshold)
    ensures r.Some? && |r.value.inliers| > 0 ==> NormalAgreement(ns, r.value.inliers, r.value.hyp.normal) > cfg.normalConsistencyThreshold
  {
    var rm := env.solvers.rm;
    var p0 := pts[s[0]];
    var raw := Cross(Sub(pts[s[1]], p0), Sub(pts[s[2]], p0));
    var nn := Norm(rm, raw);
    if nn < Degenerate then None
    else
      var normal := DivBy(raw, nn);
      var inl := InlierIndices(PlaneDistances(pts, p0, normal), cfg.ransacThreshold);
      if |inl| > 0 && !(NormalAgreement(ns, inl, normal) > cfg.normalConsistencyThreshold) then None
      else Some(Candidate(PlaneHyp(p0, normal), inl))
  }

  lemma CrossOrthogonal(a: Vec3, b: Vec3)
    ensures Dot(a, Cross(a, b)) == 0.0 && Dot(b, Cross(a, b)) == 0.0
  {
  }

  lemma DotDivBy(a: Vec3, v: Vec3, d: real)
    requires d != 0.0
    ensures Dot(a, DivBy(v, d)) == Dot(a, v) / d
  {
  }

  /** A plane hypothesis passes through its three sampled points, whatever the inliers. */
  lemma PlaneTrialThroughSample(env: Env, cfg: FeatureRecognitionConfig, pts: seq<Vec3>, ns: seq<Vec3>, s: seq<nat>, j: nat)
    requires |pts| == |ns| && IsSample(s, |pts|, 3) && j < 3
    requires PlaneTrial(env, cfg, pts, ns, s).Some?
    ensures var h := PlaneTrial(env, cfg, pts, ns, s).value.hyp;
      PlaneDistances(pts, h.point, h.normal)[s[j]] == 0.0
  {
    var rm := env.solvers.rm;
    var p0 := pts[s[0]];
    var e1 := Sub(pts[s[1]], p0);
    var e2 := Sub(pts[s[2]], p0);
    var raw := Cross(e1, e2);
    var nn := Norm(rm, raw);
    CrossOrthogonal(e1, e2);
    DotDivBy(e1, raw, nn);
    DotDivBy(e2, raw, nn);
    assert Sub(pts[s[0]], p0) == Zero;
  }

  /**
   * One cylinder trial: the axis from the cross product of the two sampled normals (or,
   * for parallel normals, the points' difference), the centre midway between the points
   * projected along the axis, rejected unless the radius lies in [1e-6, 1000].
   */
  function CylinderTrial(env: Env, cfg: FeatureRecognitionConfig, pts: seq<Vec3>, ns: seq<Vec3>, s: seq<nat>)
    : (r: Option<Candidate<CylinderHyp>>)
    requires |pts| == |ns| && IsSample(s, |pts|, 2)
    ensures r.Some? ==> 0.000001 <= r.value.hyp.radius <= 1000.0
    ensures r.Some? ==> (r.value.inliers ==
      InlierIndices(CylinderDistances(env.solvers.rm, pts, r.value.hyp.center, r.value.hyp.axis, r.value.hyp.radius), cfg.ransacThreshold))
  {
    var rm := env.solvers.rm;
    var p1 := pts[s[0]];
    var p2 := pts[s[1]];
    var n1 := ns[s[0]];
    var n2 := ns[s[1]];
    var cr := Cross(n1, n2);
    var parallel := Norm(rm, cr) < Degenerate;
    if parallel && Norm(rm, Sub(p2, p1)) < Degenerate then None
    else
      var raw := if parallel then Sub(p2, p1) else cr;
      var axis := DivBy(raw, Norm(rm, raw));
      var proj1 := Sub(p1, Scale(Dot(p1, axis), axis));
      var proj2 := Sub(p2, Scale(Dot(p2, axis), axis));
      var d1 := Sub(n1, Scale(Dot(n1, axis), axis));
      var d2 := Sub(n2, Scale(Dot(n2, axis), axis));
      if Norm(rm, d1) < Degenerate || Norm(rm, d2) < Degenerate then None
      else
        var center := DivBy(Add(proj1, proj2), 2.0);
        var radius := Norm(rm, Sub(proj1, center));
        if radius < 0.000001 || radius > 1000.0 then None
        else Some(Candidate(CylinderHyp(center, axis, radius),
                            InlierIndices(CylinderDistances(rm, pts, center, axis, radius), cfg.ransacThreshold)))
  }

  /**
   * One sphere trial: the sphere through the four sampled points, rejected unless the
   * radius lies in [1e-6, 1000], or when more than `min_points_sphere` inliers have
   * normals that are not radial enough.
   */
  function SphereTrial(env: Env, cfg: FeatureRecognitionConfig, pts: seq<Vec3>, ns: seq<Vec3>, s: seq<nat>)
    : (r: Option<Candidate<SphereHyp>>)
    requires |pts| == |ns| && IsSample(s, |pts|, 4)
    ensures r.Some? ==> FitSphere4(env.solvers, Select(pts, s)) == Some((r.value.hyp.center, r.value.hyp.radius))
    ensures r.Some? ==> 0.000001 <= r.value.hyp.radius <= 1000.0
    ensures r.Some? ==> (r.value.inliers ==
      InlierIndices(SphereDistances(env.solvers.rm, pts, r.value.hyp.center, r.value.hyp.radius), cfg.ransacThreshold))
    ensures r.Some? && |r.value.inliers| > cfg.minPointsSphere && |r.value.inliers| > 0 ==>
      RadialAgreement(env.solvers.rm, pts, ns, r.value.inliers, r.value.hyp.center) >= cfg.normalConsistencyThreshold
  {
    var rm := env.solvers.rm;
    match FitSphere4(env.solvers, Select(pts, s))
    case None => None
    case Some(fit) =>
      var c := fit.0;
      var radius := fit.1;
      if radius < 0.000001 || radius > 1000.0 then None
      else
        var inl := InlierIndices(SphereDistances(rm, pts, c, radius), cfg.ransacThreshold);
        // With no inliers the mean is NaN, and the comparison with NaN does not reject.
        if |inl| > cfg.minPointsSphere && |inl| > 0 && RadialAgreement(rm, pts, ns, inl, c) < cfg.normalConsistencyThreshold then None
        else Some(Candidate(SphereHyp(c, radius), inl))
  }

  /** With a positive threshold, the four sampled points are inliers of the sphere they fix. */
  lemma SphereTrialThroughSample(env: Env, cfg: FeatureRecognitionConfig, pts: seq<Vec3>, ns: seq<Vec3>, s: seq<nat>, j: nat)
    requires SolverLaws(env.solvers) && SqrtLaw(env.solvers.rm)
    requires |pts| == |ns| && IsSample(s, |pts|, 4) && j < 4 && cfg.ransacThreshold > 0.0
    requires SphereTrial(env, cfg, pts, ns, s).Some?
    ensures s[j] in SphereTrial(env, cfg, pts, ns, s).value.inliers
  {
    var q := Select(pts, s);
    FitSphere4OnSamples(env.solvers, q, j);
  }

  /** One cone trial: apex, axis and half-angle estimated from the samples, rejected unless the half-angle lies in [0.01, π/2 - 0.01]. */
  function ConeTrial(env: Env, cfg: FeatureRecognitionConfig, pts: seq<Vec3>, ns: seq<Vec3>, s: seq<nat>)
    : (r: Option<Candidate<ConeHyp>>)
    requires |pts| == |ns| && IsSample(s, |pts|, 3)
    ensures r.Some? ==> 0.01 <= r.value.hyp.halfAngle <= Pi / 2.0 - 0.01
    ensures r.Some? ==> (ConeEstimate(env.solvers, Select(pts, s), Select(ns, s)) ==
      Some((r.value.hyp.apex, r.value.hyp.axis, r.value.hyp.halfAngle)))
    ensures r.Some? ==> (r.value.inliers ==
      InlierIndices(ConeDistances(env.solvers.rm, pts, r.value.hyp.apex, r.value.hyp.axis, r.value.hyp.halfAngle), cfg.ransacThreshold))
  {
    match ConeEstimate(env.solvers, Select(pts, s), Select(ns, s))
    case None => None
    case Some(est) =>
      var halfAngle := est.2;
      if halfAngle < 0.01 || halfAngle > Pi / 2.0 - 0.01 then None
      else Some(Candidate(ConeHyp(est.0, est.1, halfAngle),
                          InlierIndices(ConeDistances(env.solvers.rm, pts, est.0, est.1, halfAngle), cfg.ransacThreshold)))
  }

  /** One torus trial on twenty sampled points, with twice the threshold; rejected when R < r, r < 0.1 or R > 100. */
  function TorusTrial(env: Env, cfg: FeatureRecognitionConfig, pts: seq<Vec3>, s: seq<nat>)
    : (r: Option<Candidate<TorusHyp>>)
    requires IsSample(s, |pts|, 20)
    ensures r.Some? ==> 0.1 <= r.value.hyp.minor <= r.value.hyp.major <= 100.0
    ensures r.Some? ==> (r.value.inliers ==
      InlierIndices(TorusDistances(env.solvers.rm, pts, r.value.hyp.center, r.value.hyp.axis, r.value.hyp.major, r.value.hyp.minor),
                    2.0 * cfg.ransacThreshold))
  {
    var est := TorusEstimate(env.solvers, Select(pts, s));
    var major := est.2;
    var minor := est.3;
    if major < minor || minor < 0.1 || major > 100.0 then None
    else Some(Candidate(TorusHyp(est.0, est.1, major, minor),
                        InlierIndices(TorusDistances(env.solvers.rm, pts, est.0, est.1, major, minor), 2.0 * cfg.ransacThreshold)))
  }

  // ---------------------------------------------------------------------------
  // The trial sequences
  // ---------------------------------------------------------------------------

  /** True of a trial sequence whose kept candidates list valid point indices. */
  predicate Indexed<H>(ts: seq<Option<Candidate<H>>>, n: nat) {
    forall j :: 0 <= j < |ts| && ts[j].Some? ==> IndexList(ts[j].value.inliers, n)
  }

  /** The plane trials; with fewer than three points the loop stops at once. */
  function PlaneTrials(env: Env, cfg: FeatureRecognitionConfig, call: nat, pts: seq<Vec3>, ns: seq<Vec3>)
    : (ts: seq<Option<Candidate<PlaneHyp>>>)
    requires ValidRng(env.rng) && |pts| == |ns|
    ensures Indexed(ts, |pts|)
    ensures |ts| == if |pts| < 3 then 0 else Iterations(cfg)
  {
    if |pts| < 3 then [] else
      seq(Iterations(cfg), t requires 0 <= t < Iterations(cfg) =>
        PlaneTrial(env, cfg, pts, ns, Draw(env, call, t, |pts|, 3)))
  }

  function CylinderTrials(env: Env, cfg: FeatureRecognitionConfig, call: nat, pts: seq<Vec3>, ns: seq<Vec3>)
    : (ts: seq<Option<Candidate<CylinderHyp>>>)
    requires ValidRng(env.rng) && |pts| == |ns|
    ensures Indexed(ts, |pts|)
    ensures |ts| == if |pts| < 2 then 0 else Iterations(cfg)
  {
    if |pts| < 2 then [] else
      seq(Iterations(cfg), t requires 0 <= t < Iterations(cfg) =>
        CylinderTrial(env, cfg, pts, ns, Draw(env, call, t, |pts|, 2)))
  }

  function SphereTrials(env: Env, cfg: FeatureRecognitionConfig, call: nat, pts: seq<Vec3>, ns: seq<Vec3>)
    : (ts: seq<Option<Candidate<SphereHyp>>>)
    requires ValidRng(env.rng) && |pts| == |ns|
    ensures Indexed(ts, |pts|)
    ensures |ts| == if |pts| < 4 then 0 else Iterations(cfg)
  {
    if |pts| < 4 then [] else
      seq(Iterations(cfg), t requires 0 <= t < Iterations(cfg) =>
        SphereTrial(env, cfg, pts, ns, Draw(env, call, t, |pts|, 4)))
  }

  function ConeTrials(env: Env, cfg: FeatureRecognitionConfig, call: nat, pts: seq<Vec3>, ns: seq<Vec3>)
    : (ts: seq<Option<Candidate<ConeHyp>>>)
    requires ValidRng(env.rng) && |pts| == |ns|
    ensures Indexed(ts, |pts|)
    ensures |ts| == if |pts| < 3 then 0 else Iterations(cfg)
  {
    if |pts| < 3 then [] else
      seq(Iterations(cfg), t requires 0 <= t < Iterations(cfg) =>
        ConeTrial(env, cfg, pts, ns, Draw(env, call, t, |pts|, 3)))
  }

  /** The torus trials, drawn only once there are 50 points or more. */
  function TorusTrials(env: Env, cfg: FeatureRecognitionConfig, call: nat, pts: seq<Vec3>)
    : (ts: seq<Option<Candidate<TorusHyp>>>)
    requires ValidRng(env.rng) && |pts| >= 50
    ensures Indexed(ts, |pts|)
    ensures |ts| == TorusIterations(cfg)
  {
    seq(TorusIterations(cfg), t requires 0 <= t < TorusIterations(cfg) =>
      TorusTrial(env, cfg, pts, Draw(env, call, t, |pts|, 20)))
  }

  // ---------------------------------------------------------------------------
  // Finishing a detection
  // ---------------------------------------------------------------------------

  function Count<H>(best: Option<Candidate<H>>): nat {
    if best.None? then 0 else |best.value.inliers|
  }

  /** A best candidate: valid, non-empty inliers. */
  predicate BestOk<H>(best: Option<Candidate<H>>, n: nat) {
    best.Some? ==> IndexList(best.value.inliers, n) && |best.value.inliers| > 0
  }

  /** Planes: the SVD refit of the inliers, its mean distance and the local bounds. */
  function FinishPlane(env: Env, cfg: FeatureRecognitionConfig, pts: seq<Vec3>, faceIdx: seq<nat>, numFaces: nat,
                       best: Option<Candidate<PlaneHyp>>): (d: Detection)
    requires |faceIdx| == |pts| && numFaces >= |pts| && BestOk(best, |pts|)
    ensures d.Found? ==> FoundOk(d.feature, cfg, Plane, |pts|, faceIdx, numFaces)
    ensures d.NoFeature? <==> Count(best) < MinPointsForType(cfg, Plane)
    ensures d.Raised? ==> MinPointsForType(cfg, Plane) <= 0
  {
    if Count(best) < cfg.minPointsPlane then NoFeature
    else if best.None? then Raised(EmptyReduction)
    else
      var inl := best.value.inliers;
      var q := Select(pts, inl);
      var refined := RefinePlane(env.solvers, q);
      var err := Mean(PlaneDistances(q, refined.0, refined.1));
      var bounds := PlaneBounds(env.solvers.rm, q, refined.0, refined.1);
      Found(Package(PlaneFeature(Common(inl, err, Ratio(|inl|, |pts|)), refined.0, refined.1, Some(bounds)),
                    inl, faceIdx, numFaces))
  }

  /** Cylinders: the least-squares refit, the height and end points along the refined axis. */
  function FinishCylinder(env: Env, cfg: FeatureRecognitionConfig, pts: seq<Vec3>, faceIdx: seq<nat>, numFaces: nat,
                          best: Option<Candidate<CylinderHyp>>): (d: Detection)
    requires |faceIdx| == |pts| && numFaces >= |pts| && BestOk(best, |pts|)
    ensures d.Found? ==> FoundOk(d.feature, cfg, Cylinder, |pts|, faceIdx, numFaces)
    ensures d.NoFeature? <==> Count(best) < MinPointsForType(cfg, Cylinder)
    ensures d.Found? ==> d.feature.primitive.height.Some? && d.feature.primitive.height.value >= 0.0
    ensures d.Raised? ==> MinPointsForType(cfg, Cylinder) <= 0
  {
    if Count(best) < cfg.minPointsCylinder then NoFeature
    else if best.None? then Raised(UnpackNone)
    else
      var inl := best.value.inliers;
      var h := best.value.hyp;
      var q := Select(pts, inl);
      var refined := RefineCylinder(env.solvers, q, h.center, h.axis, h.radius);
      var extent := CylinderExtent(q, refined.0, refined.1);
      var err := Mean(CylinderDistances(env.solvers.rm, q, refined.0, refined.1, refined.2));
      Found(Package(CylinderFeature(Common(inl, err, Ratio(|inl|, |pts|)), refined.0, refined.1, refined.2,
                                    Some(extent.0), Some(extent.1), Some(extent.2)),
                    inl, faceIdx, numFaces))
  }

  /** Spheres: the least-squares refit and its mean distance. */
  function FinishSphere(env: Env, cfg: FeatureRecognitionConfig, pts: seq<Vec3>, faceIdx: seq<nat>, numFaces: nat,
                        best: Option<Candidate<SphereHyp>>): (d: Detection)
    requires |faceIdx| == |pts| && numFaces >= |pts| && BestOk(best, |pts|)
    ensures d.Found? ==> FoundOk(d.feature, cfg, Sphere, |pts|, faceIdx, numFaces)
    ensures d.NoFeature? <==> Count(best) < MinPointsForType(cfg, Sphere)
    ensures d.Raised? ==> MinPointsForType(cfg, Sphere) <= 0
  {
    if Count(best) < cfg.minPointsSphere then NoFeature
    else if best.None? then Raised(UnpackNone)
    else
      var inl := best.value.inliers;
      var h := best.value.hyp;
      var q := Select(pts, inl);
      var refined := RefineSphere(env.solvers, q, h.center, h.radius);
      var err := Mean(SphereDistances(env.solvers.rm, q, refined.0, refined.1));
      Found(Package(SphereFeature(Common(inl, err, Ratio(|inl|, |pts|)), refined.0, refined.1),
                    inl, faceIdx, numFaces))
  }

  /** Cones: no refit; the height is the largest axial projection of an inlier. */
  function FinishCone(env: Env, cfg: FeatureRecognitionConfig, pts: seq<Vec3>, faceIdx: seq<nat>, numFaces: nat,
                      best: Option<Candidate<ConeHyp>>): (d: Detection)
    requires |faceIdx| == |pts| && numFaces >= |pts| && BestOk(best, |pts|)
    ensures d.Found? ==> FoundOk(d.feature, cfg, Cone, |pts|, faceIdx, numFaces)
    ensures d.NoFeature? <==> Count(best) < MinPointsForType(cfg, Cone)
    ensures d.Raised? ==> MinPointsForType(cfg, Cone) <= 0
  {
    if Count(best) < cfg.minPointsCone then NoFeature
    else if best.None? then Raised(UnpackNone)
    else
      var inl := best.value.inliers;
      var h := best.value.hyp;
      var q := Select(pts, inl);
      var height := MaxOf(AxialProjections(q, h.apex, h.axis));
      var err := Mean(ConeDistances(env.solvers.rm, q, h.apex, h.axis, h.halfAngle));
      Found(Package(ConeFeature(Common(inl, err, Ratio(|inl|, |pts|)), h.apex, h.axis, h.halfAngle, Some(height)),
                    inl, faceIdx, numFaces))
  }

  /** Tori: no refit; at least 50 inliers. */
  function FinishTorus(env: Env, cfg: FeatureRecognitionConfig, pts: seq<Vec3>, faceIdx: seq<nat>, numFaces: nat,
                       best: Option<Candidate<TorusHyp>>): (d: Detection)
    requires |faceIdx| == |pts| && numFaces >= |pts| && BestOk(best, |pts|)
    ensures d.Found? ==> FoundOk(d.feature, cfg, Torus, |pts|, faceIdx, numFaces)
    ensures !d.Raised?
    ensures d.NoFeature? <==> Count(best) < 50
  {
    if Count(best) < 50 then NoFeature
    else
      var inl := best.value.inliers;
      var h := best.value.hyp;
      var q := Select(pts, inl);
      var err := Mean(TorusDistances(env.solvers.rm, q, h.center, h.axis, h.major, h.minor));
      Found(Package(TorusFeature(Common(inl, err, Ratio(|inl|, |pts|)), h.center, h.axis, h.major, h.minor),
                    inl, faceIdx, numFaces))
  }

  lemma BestIsOk<H>(ts: seq<Option<Candidate<H>>>, n: nat)
    requires Indexed(ts, n)
    ensures BestOk(Strip(Best(ts)), n)
  {
    if Best(ts).Some? {
      var k := Best(ts).value.0;
      assert ts[k].Some?;
    }
  }

  /** `_detect_<type>` on the points of the remaining faces `faceIdx`. */
  function Detect(env: Env, cfg: FeatureRecognitionConfig, t: FeatureType, call: nat,
                  pts: seq<Vec3>, ns: seq<Vec3>, faceIdx: seq<nat>, numFaces: nat): (d: Detection)
    requires ValidRng(env.rng) && |pts| == |ns| == |faceIdx| && numFaces >= |pts| && t != Freeform
    ensures d.Found? ==> FoundOk(d.feature, cfg, t, |pts|, faceIdx, numFaces)
    ensures d.Raised? ==> MinPointsForType(cfg, t) <= 0
  {
    match t
    case Plane =>
      var ts := PlaneTrials(env, cfg, call, pts, ns);
      BestIsOk(ts, |pts|);
      FinishPlane(env, cfg, pts, faceIdx, numFaces, Strip(Best(ts)))
    case Cylinder =>
      var ts := CylinderTrials(env, cfg, call, pts, ns);
      BestIsOk(ts, |pts|);
      FinishCylinder(env, cfg, pts, faceIdx, numFaces, Strip(Best(ts)))
    case Sphere =>
      var ts := SphereTrials(env, cfg, call, pts, ns);
      BestIsOk(ts, |pts|);
      FinishSphere(env, cfg, pts, faceIdx, numFaces, Strip(Best(ts)))
    case Cone =>
      var ts := ConeTrials(env, cfg, call, pts, ns);
      BestIsOk(ts, |pts|);
      FinishCone(env, cfg, pts, faceIdx, numFaces, Strip(Best(ts)))
    case Torus =>
      if |pts| < 50 then NoFeature
      else
        var ts := TorusTrials(env, cfg, call, pts);
        BestIsOk(ts, |pts|);
        FinishTorus(env, cfg, pts, faceIdx, numFaces, Strip(Best(ts)))
  }

  /** The inlier count of the best trial a detector finds (none for a torus below 50 points). */
  function BestCount(env: Env, cfg: FeatureRecognitionConfig, t: FeatureType, call: nat,
                     pts: seq<Vec3>, ns: seq<Vec3>): nat
    requires ValidRng(env.rng) && |pts| == |ns| && t != Freeform
  {
    match t
    case Plane => Count(Strip(Best(PlaneTrials(env, cfg, call, pts, ns))))
    case Cylinder => Count(Strip(Best(CylinderTrials(env, cfg, call, pts, ns))))
    case Sphere => Count(Strip(Best(SphereTrials(env, cfg, call, pts, ns))))
    case Cone => Count(Strip(Best(ConeTrials(env, cfg, call, pts, ns))))
    case Torus => if |pts| < 50 then 0 else Count(Strip(Best(TorusTrials(env, cfg, call, pts))))
  }

  /** A detector returns None exactly when its best trial has fewer inliers than the type's minimum. */
  lemma DetectNoFeature(env: Env, cfg: FeatureRecognitionConfig, t: FeatureType, call: nat,
                        pts: seq<Vec3>, ns: seq<Vec3>, faceIdx: seq<nat>, numFaces: nat)
    requires ValidRng(env.rng) && |pts| == |ns| == |faceIdx| && numFaces >= |pts| && t != Freeform
    ensures Detect(env, cfg, t, call, pts, ns, faceIdx, numFaces).NoFeature?
      <==> BestCount(env, cfg, t, call, pts, ns) < MinPointsForType(cfg, t)
  {
  }

  /** The detector with its trial loop. */
  method DetectFeature(env: Env, cfg: FeatureRecognitionConfig, t: FeatureType, call: nat,
                       pts: seq<Vec3>, ns: seq<Vec3>, faceIdx: seq<nat>, numFaces: nat) returns (d: Detection)
    requires ValidRng(env.rng) && |pts| == |ns| == |faceIdx| && numFaces >= |pts| && t != Freeform
    ensures d == Detect(env, cfg, t, call, pts, ns, faceIdx, numFaces)
  {
    match t
    case Plane =>
      var ts := PlaneTrials(env, cfg, call, pts, ns);
      BestIsOk(ts, |pts|);
      var best := SelectBest(ts);
      d := FinishPlane(env, cfg, pts, faceIdx, numFaces, best);
    case Cylinder =>
      var ts := CylinderTrials(env, cfg, call, pts, ns);
      BestIsOk(ts, |pts|);
      var best := SelectBest(ts);
      d := FinishCylinder(env, cfg, pts, faceIdx, numFaces, best);
    case Sphere =>
      var ts := SphereTrials(env, cfg, call, pts, ns);
      BestIsOk(ts, |pts|);
      var best := SelectBest(ts);
      d := FinishSphere(env, cfg, pts, faceIdx, numFaces, best);
    case Cone =>
      var ts := ConeTrials(env, cfg, call, pts, ns);
      BestIsOk(ts, |pts|);
      var best := SelectBest(ts);
      d := FinishCone(env, cfg, pts, faceIdx, numFaces, best);
    case Torus =>
      if |pts| < 50 {
        d := NoFeature;
      } else {
        var ts := TorusTrials(env, cfg, call, pts);
        BestIsOk(ts, |pts|);
        var best := SelectBest(ts);
        d := FinishTorus(env, cfg, pts, faceIdx, numFaces, best);
      }
  }

  /** A detected feature's confidence and coverage are fractions in (0, 1], and its faces are among the given ones. */
  lemma FoundBounds(f: RecognizedFeature, cfg: FeatureRecognitionConfig, t: FeatureType,
                    nPoints: nat, faceIdx: seq<nat>, numFaces: nat)
    requires FoundOk(f, cfg, t, nPoints, faceIdx, numFaces) && numFaces >= nPoints
    ensures 0.0 < f.primitive.common.confidence <= 1.0
    ensures 0.0 < f.coverageRatio <= 1.0
    ensures forall x :: x in f.faceIndices ==> x in faceIdx
  {
    var inl := f.primitive.common.pointIndices;
    IndexListLength(inl, nPoints);
    RatioBounds(|inl|, nPoints);
    RatioBounds(|inl|, numFaces);
    forall x | x in f.faceIndices
      ensures x in faceIdx
    {
      var j :| 0 <= j < |f.faceIndices| && f.faceIndices[j] == x;
      assert faceIdx[inl[j]] == x;
    }
  }

  /** A strictly increasing list of indices below `n` has at most `n` entries. */
  lemma {:induction false} IndexListLength(s: seq<nat>, n: nat)
    requires IndexList(s, n)
    ensures |s| <= n
    decreases |s|
  {
    if |s| > 0 {
      var p := s[..|s| - 1];
      assert IndexList(p, s[|s| - 1]);
      IndexListLength(p, s[|s| - 1]);
    }
  }

  /** Picking increasing positions of an increasing list gives an increasing list. */
  lemma FoundFacesIncreasing(f: RecognizedFeature, cfg: FeatureRecognitionConfig, t: FeatureType,
                             nPoints: nat, faceIdx: seq<nat>, numFaces: nat)
    requires FoundOk(f, cfg, t, nPoints, faceIdx, numFaces) && IndexList(faceIdx, numFaces)
    ensures IndexList(f.faceIndices, numFaces)
  {
  }

  // ---------------------------------------------------------------------------
  // The recognition loop
  // ---------------------------------------------------------------------------

  const DetectionOrder: seq<FeatureType> := [Plane, Cylinder, Sphere, Cone, Torus]

  /** The position of a type in the detection order. */
  function Rank(t: FeatureType): nat {
    match t
    case Plane => 0
    case Cylinder => 1
    case Sphere => 2
    case Cone => 3
    case Torus => 4
    case Freeform => 5
  }

  predicate Increasing(s: seq<nat>) {
    forall j, k :: 0 <= j < k < |s| ==> s[j] < s[k]
  }

  /** `remaining_faces -= detected_faces`, keeping the ascending order. */
  function Remove(remaining: seq<nat>, detected: seq<nat>): (r: seq<nat>)
    ensures forall x :: x in r <==> x in remaining && x !in detected
    ensures |r| <= |remaining|
    ensures Increasing(remaining) ==> Increasing(r)
    ensures (exists x :: x in remaining && x in detected) ==> |r| < |remaining|
    decreases |remaining|
  {
    if |remaining| == 0 then []
    else
      var last := remaining[|remaining| - 1];
      var p := remaining[..|remaining| - 1];
      var r0 := Remove(p, detected);
      assert forall x :: x in remaining <==> x in p || x == last;
      assert Increasing(remaining) ==> Increasing(p) && forall x :: x in p ==> x < last;
      if last in detected then r0
      else
        assert forall j :: 0 <= j < |r0| ==> r0[j] in r0;
        r0 + [last]
  }

  /** What is left of a list of valid face indices is a list of valid face indices. */
  lemma RemoveIndexList(remaining: seq<nat>, detected: seq<nat>, n: nat)
    requires IndexList(remaining, n)
    ensures IndexList(Remove(remaining, detected), n)
  {
    var r := Remove(remaining, detected);
    assert Increasing(remaining);
    forall j | 0 <= j < |r|
      ensures r[j] < n
    {
      assert r[j] in r;
    }
  }

  datatype RecState = RecState(features: seq<RecognizedFeature>, remaining: seq<nat>, calls: nat)

  /**
   * `detect_fn(points, point_normals, face_indices)`, given also the number of detector
   * calls before this one (its place in the random stream) and the mesh's face count.
   */
  type Detector = (nat, seq<Vec3>, seq<Vec3>, seq<nat>, nat) --> Detection

  /** The contract every `_detect_<type>` keeps, for its feature type `t`. */
  ghost predicate DetectorContract(det: Detector, cfg: FeatureRecognitionConfig, t: FeatureType) {
    forall call: nat, pts: seq<Vec3>, ns: seq<Vec3>, idx: seq<nat>, n: nat
      | |pts| == |ns| == |idx| && n >= |pts| ::
      && det.requires(call, pts, ns, idx, n)
      && (det(call, pts, ns, idx, n).Found? ==> FoundOk(det(call, pts, ns, idx, n).feature, cfg, t, |pts|, idx, n))
      && (det(call, pts, ns, idx, n).Raised? ==> MinPointsForType(cfg, t) <= 0)
  }

  /** An entry of `detection_order`: the type, its detector and whether it is enabled. */
  datatype Stage = Stage(t: FeatureType, det: Detector, enabled: bool)

  ghost predicate StagesOk(stages: seq<Stage>, cfg: FeatureRecognitionConfig) {
    forall k :: 0 <= k < |stages| ==> stages[k].t != Freeform && DetectorContract(stages[k].det, cfg, stages[k].t)
  }

  function DetectorFor(env: Env, cfg: FeatureRecognitionConfig, t: FeatureType): Detector
    requires t != Freeform
  {
    (call: nat, pts: seq<Vec3>, ns: seq<Vec3>, idx: seq<nat>, n: nat)
      requires ValidRng(env.rng) && |pts| == |ns| == |idx| && n >= |pts| =>
      Detect(env, cfg, t, call, pts, ns, idx, n)
  }

  /** `detection_order`: planes, cylinders, spheres, cones, tori, each with its switch. */
  function DetectionStages(env: Env, cfg: FeatureRecognitionConfig): (stages: seq<Stage>)
    ensures |stages| == 5
    ensures forall k :: 0 <= k < 5 ==> stages[k].t == DetectionOrder[k] && stages[k].enabled == Enabled(cfg, DetectionOrder[k])
  {
    [Stage(Plane, DetectorFor(env, cfg, Plane), cfg.detectPlanes),
     Stage(Cylinder, DetectorFor(env, cfg, Cylinder), cfg.detectCylinders),
     Stage(Sphere, DetectorFor(env, cfg, Sphere), cfg.detectSpheres),
     Stage(Cone, DetectorFor(env, cfg, Cone), cfg.detectCones),
     Stage(Torus, DetectorFor(env, cfg, Torus), cfg.detectTori)]
  }

  /** Each detector of the detection order keeps the detector contract. */
  lemma DetectionStagesOk(env: Env, cfg: FeatureRecognitionConfig)
    requires ValidRng(env.rng)
    ensures StagesOk(DetectionStages(env, cfg), cfg)
  {
    var stages := DetectionStages(env, cfg);
    forall k | 0 <= k < 5
      ensures DetectorContract(stages[k].det, cfg, stages[k].t)
    {
      var t := stages[k].t;
      var det := DetectorFor(env, cfg, t);
      forall call: nat, pts: seq<Vec3>, ns: seq<Vec3>, idx: seq<nat>, n: nat
        | |pts| == |ns| == |idx| && n >= |pts|
        ensures det.requires(call, pts, ns, idx, n)
        ensures det(call, pts, ns, idx, n) == Detect(env, cfg, t, call, pts, ns, idx, n)
      {
      }
    }
  }

  /** How one pass of a type's while loop ends: the loop's result, or the state it goes on from. */
  datatype Pass = Done(result: Result<RecState>) | Next(next: RecState)

  /** One pass of the while loop for one feature type. */
  function TypePass(cfg: FeatureRecognitionConfig, m: StlMesh, s: Stage, st: RecState): (p: Pass)
    requires Indexable(m) && IndexList(st.remaining, |m.faces|) && DetectorContract(s.det, cfg, s.t)
    ensures p.Done? && p.result.Success? ==> IndexList(p.result.value.remaining, |m.faces|)
    ensures p.Next? ==> IndexList(p.next.remaining, |m.faces|) && |p.next.remaining| < |st.remaining|
  {
    if |st.remaining| as int <= cfg.minPointsPlane then Done(Success(st))
    else if |st.remaining| == 0 then Done(Failure(FloatIndexError))
    else
      var pn := FacePoints(m, st.remaining);
      if |pn.0| < MinPointsForType(cfg, s.t) then Done(Success(st))
      else
        IndexListLength(st.remaining, |m.faces|);
        match s.det(st.calls, pn.0, pn.1, st.remaining, |m.faces|)
        case Raised(e) => Done(Failure(e))
        case NoFeature => Done(Success(RecState(st.features, st.remaining, st.calls + 1)))
        case Found(f) =>
          FoundBounds(f, cfg, s.t, |pn.0|, st.remaining, |m.faces|);
          assert f.faceIndices[0] in st.remaining;
          RemoveIndexList(st.remaining, f.faceIndices, |m.faces|);
          Next(RecState(st.features + [f], Remove(st.remaining, f.faceIndices), st.calls + 1))
  }

  /** The while loop for one feature type. */
  function TypeLoop(cfg: FeatureRecognitionConfig, m: StlMesh, s: Stage, st: RecState): (r: Result<RecState>)
    requires Indexable(m) && IndexList(st.remaining, |m.faces|) && DetectorContract(s.det, cfg, s.t)
    ensures r.Success? ==> IndexList(r.value.remaining, |m.faces|)
    decreases |st.remaining|
  {
    match TypePass(cfg, m, s, st)
    case Done(r) => r
    case Next(next) => TypeLoop(cfg, m, s, next)
  }

  /** The detection order from position `k` on, skipping disabled types. */
  function RecognizeFrom(cfg: FeatureRecognitionConfig, m: StlMesh, stages: seq<Stage>, k: nat, st: RecState): Result<RecState>
    requires Indexable(m) && IndexList(st.remaining, |m.faces|) && k <= |stages| && StagesOk(stages, cfg)
    decreases |stages| - k, 1
  {
    if k == |stages| then Success(st)
    else if !stages[k].enabled then RecognizeFrom(cfg, m, stages, k + 1, st)
    else AfterType(cfg, m, stages, k, TypeLoop(cfg, m, stages[k], st))
  }

  function AfterType(cfg: FeatureRecognitionConfig, m: StlMesh, stages: seq<Stage>, k: nat, r: Result<RecState>): Result<RecState>
    requires Indexable(m) && k < |stages| && StagesOk(stages, cfg)
    requires r.Success? ==> IndexList(r.value.remaining, |m.faces|)
    decreases |stages| - k, 0
  {
    match r
    case Failure(e) => Failure(e)
    case Success(st) => RecognizeFrom(cfg, m, stages, k + 1, st)
  }

  function AllFaces(n: nat): (r: seq<nat>)
    ensures IndexList(r, n) && |r| == n
    ensures forall x: nat :: x in r <==> x < n
  {
    var r := seq(n, i requires 0 <= i < n => i);
    assert forall x: nat :: x < n ==> x in r by {
      forall x: nat | x < n
        ensures x in r
      {
        assert r[x] == x;
      }
    }
    r
  }

  function Start(m: StlMesh): RecState {
    RecState([], AllFaces(|m.faces|), 0)
  }

  /** `recognize`: the IndexError of the vertex normals, or the features in the order found. */
  function Recognize(env: Env, cfg: FeatureRecognitionConfig, m: StlMesh): (r: Result<seq<RecognizedFeature>>)
    requires ValidRng(env.rng)
    ensures r.Success? ==> Indexable(m)
  {
    match VertexNormals(env.solvers.rm, m)
    case Failure(e) => Failure(e)
    case Success(_) =>
      DetectionStagesOk(env, cfg);
      match RecognizeFrom(cfg, m, DetectionStages(env, cfg), 0, Start(m))
      case Failure(e) => Failure(e)
      case Success(st) => Success(st.features)
  }

  // ---------------------------------------------------------------------------
  // Properties of a recognition run
  // ---------------------------------------------------------------------------

  /**
   * The faces are split between the remaining list and the features: every face is in
   * one of them, and in no two.
   */
  ghost predicate Partition(st: RecState, n: nat) {
    && IndexList(st.remaining, n)
    && (forall k :: 0 <= k < |st.features| ==> IndexList(st.features[k].faceIndices, n))
    && (forall x: nat :: x < n ==> x in st.remaining || exists k :: 0 <= k < |st.features| && x in st.features[k].faceIndices)
    && (forall k, x :: 0 <= k < |st.features| && x in st.features[k].faceIndices ==> x !in st.remaining)
    && (forall k, l, x :: 0 <= k < l < |st.features| && x in st.features[k].faceIndices ==> x !in st.features[l].faceIndices)
  }

  /** What each recognised feature satisfies on its own. */
  ghost predicate FeatureOk(f: RecognizedFeature, cfg: FeatureRecognitionConfig) {
    var t := FeatureTypeOf(f.primitive);
    && Enabled(cfg, t)
    && |f.faceIndices| >= 1 && |f.faceIndices| >= MinPointsForType(cfg, t)
    && |f.faceIndices| == |f.primitive.common.pointIndices|
    && 0.0 < f.primitive.common.confidence <= 1.0
    && 0.0 < f.coverageRatio <= 1.0
  }

  /** The stages come in detection order and are switched on as the configuration says. */
  ghost predicate StagesFollow(stages: seq<Stage>, cfg: FeatureRecognitionConfig) {
    forall k :: 0 <= k < |stages| ==> Rank(stages[k].t) == k && stages[k].enabled == Enabled(cfg, stages[k].t)
  }

  lemma DetectionStagesFollow(env: Env, cfg: FeatureRecognitionConfig)
    ensures StagesFollow(DetectionStages(env, cfg), cfg)
  {
  }

  /** Features appended after position `from` are well formed and ordered by detection rank, from rank `k` on. */
  ghost predicate Appended(fs: seq<RecognizedFeature>, from: nat, cfg: FeatureRecognitionConfig, k: nat) {
    && from <= |fs|
    && (forall j :: from <= j < |fs| ==> FeatureOk(fs[j], cfg) && Rank(FeatureTypeOf(fs[j].primitive)) >= k)
    && (forall a, b :: from <= a < b < |fs| ==>
          Rank(FeatureTypeOf(fs[a].primitive)) <= Rank(FeatureTypeOf(fs[b].primitive)))
  }

  lemma PartitionStart(m: StlMesh)
    ensures Partition(Start(m), |m.faces|)
  {
  }

  /** Detecting a feature among the remaining faces keeps the partition. */
  lemma PartitionStep(st: RecState, n: nat, f: RecognizedFeature)
    requires Partition(st, n)
    requires IndexList(f.faceIndices, n)
    requires forall x :: x in f.faceIndices ==> x in st.remaining
    ensures Partition(RecState(st.features + [f], Remove(st.remaining, f.faceIndices), st.calls + 1), n)
  {
    var fs := st.features + [f];
    var rem := Remove(st.remaining, f.faceIndices);
    RemoveIndexList(st.remaining, f.faceIndices, n);
    forall x: nat | x < n
      ensures x in rem || exists k :: 0 <= k < |fs| && x in fs[k].faceIndices
    {
      if x in st.remaining {
        if x in f.faceIndices {
          assert fs[|fs| - 1] == f;
        }
      } else {
        var k :| 0 <= k < |st.features| && x in st.features[k].faceIndices;
        assert fs[k] == st.features[k];
      }
    }
    forall k, l, x | 0 <= k < l < |fs| && x in fs[k].faceIndices
      ensures x !in fs[l].faceIndices
    {
      assert fs[k] == st.features[k];
      if l < |st.features| {
        assert fs[l] == st.features[l];
      }
    }
  }

  /** A detected feature, read on its own and against the faces it was detected among. */
  lemma FoundFeatureOk(f: RecognizedFeature, cfg: FeatureRecognitionConfig, t: FeatureType,
                       nPoints: nat, faceIdx: seq<nat>, numFaces: nat)
    requires FoundOk(f, cfg, t, nPoints, faceIdx, numFaces) && IndexList(faceIdx, numFaces) && Enabled(cfg, t)
    ensures FeatureOk(f, cfg) && FeatureTypeOf(f.primitive) == t
    ensures IndexList(f.faceIndices, numFaces)
    ensures forall x :: x in f.faceIndices ==> x in faceIdx
  {
    IndexListLength(faceIdx, numFaces);
    FoundBounds(f, cfg, t, nPoints, faceIdx, numFaces);
    FoundFacesIncreasing(f, cfg, t, nPoints, faceIdx, numFaces);
  }

  /** What one type's loop guarantees of its result `r`, started from `st`. */
  ghost predicate LoopOk(st: RecState, r: RecState, n: nat, cfg: FeatureRecognitionConfig, t: FeatureType) {
    && Partition(r, n)
    && |st.features| <= |r.features| && r.features[..|st.features|] == st.features
    && forall j :: |st.features| <= j < |r.features| ==>
         FeatureOk(r.features[j], cfg) && FeatureTypeOf(r.features[j].primitive) == t
  }

  /** A loop result good for the state after a detection is good for the state before it. */
  lemma LoopOkStep(st: RecState, f: RecognizedFeature, r: RecState, n: nat, cfg: FeatureRecognitionConfig, t: FeatureType)
    requires FeatureOk(f, cfg) && FeatureTypeOf(f.primitive) == t
    requires LoopOk(RecState(st.features + [f], Remove(st.remaining, f.faceIndices), st.calls + 1), r, n, cfg, t)
    ensures LoopOk(st, r, n, cfg, t)
  {
    var k := |st.features|;
    assert r.features[..k] == r.features[..k + 1][..k];
    assert r.features[k] == r.features[..k + 1][k];
  }

  /** How one pass of a type's loop ends when it does not go on with a detected feature. */
  lemma TypeLoopStep(cfg: FeatureRecognitionConfig, m: StlMesh, s: Stage, st: RecState)
    requires Indexable(m) && IndexList(st.remaining, |m.faces|) && DetectorContract(s.det, cfg, s.t)
    ensures |st.remaining| as int <= cfg.minPointsPlane ==> TypeLoop(cfg, m, s, st) == Success(st)
    ensures |st.remaining| as int > cfg.minPointsPlane && |st.remaining| == 0 ==>
      TypeLoop(cfg, m, s, st) == Failure(FloatIndexError)
    ensures (|st.remaining| as int > cfg.minPointsPlane && |st.remaining| > 0 &&
             |FacePoints(m, st.remaining).0| < MinPointsForType(cfg, s.t)) ==> TypeLoop(cfg, m, s, st) == Success(st)
    ensures (|st.remaining| as int > cfg.minPointsPlane && |st.remaining| > 0 &&
             |FacePoints(m, st.remaining).0| >= MinPointsForType(cfg, s.t)) ==>
      var pn := FacePoints(m, st.remaining);
      && |pn.0| == |pn.1| == |st.remaining| <= |m.faces|
      && var d := s.det(st.calls, pn.0, pn.1, st.remaining, |m.faces|);
      && (d.Raised? ==> TypeLoop(cfg, m, s, st) == Failure(d.error))
      && (d.NoFeature? ==> TypeLoop(cfg, m, s, st) == Success(RecState(st.features, st.remaining, st.calls + 1)))
  {
    if |st.remaining| > 0 {
      IndexListLength(st.remaining, |m.faces|);
    }
  }

  /** After a detection, the loop goes on from the faces the feature leaves. */
  lemma TypeLoopFound(cfg: FeatureRecognitionConfig, m: StlMesh, s: Stage, st: RecState, f: RecognizedFeature)
    requires Indexable(m) && IndexList(st.remaining, |m.faces|) && DetectorContract(s.det, cfg, s.t)
    requires |st.remaining| as int > cfg.minPointsPlane && |st.remaining| > 0 && |st.remaining| <= |m.faces|
    requires |FacePoints(m, st.remaining).0| >= MinPointsForType(cfg, s.t)
    requires s.det(st.calls, FacePoints(m, st.remaining).0, FacePoints(m, st.remaining).1, st.remaining, |m.faces|) == Found(f)
    requires IndexList(Remove(st.remaining, f.faceIndices), |m.faces|)
    ensures TypeLoop(cfg, m, s, st) == TypeLoop(cfg, m, s, RecState(st.features + [f], Remove(st.remaining, f.faceIndices), st.calls + 1))
  {
    assert TypePass(cfg, m, s, st) == Next(RecState(st.features + [f], Remove(st.remaining, f.faceIndices), st.calls + 1));
  }

  /** One type's loop keeps the partition and appends well-formed features of that type. */
  lemma {:induction false} TypeLoopProps(cfg: FeatureRecognitionConfig, m: StlMesh, s: Stage, st: RecState)
    requires Indexable(m) && DetectorContract(s.det, cfg, s.t) && Enabled(cfg, s.t)
    requires Partition(st, |m.faces|)
    requires TypeLoop(cfg, m, s, st).Success?
    ensures LoopOk(st, TypeLoop(cfg, m, s, st).value, |m.faces|, cfg, s.t)
    decreases |st.remaining|
  {
    if |st.remaining| as int <= cfg.minPointsPlane || |st.remaining| == 0 {
    } else {
      var pn := FacePoints(m, st.remaining);
      if |pn.0| >= MinPointsForType(cfg, s.t) {
        IndexListLength(st.remaining, |m.faces|);
        var d := s.det(st.calls, pn.0, pn.1, st.remaining, |m.faces|);
        if d.Found? {
          var f := d.feature;
          FoundFeatureOk(f, cfg, s.t, |pn.0|, st.remaining, |m.faces|);
          assert f.faceIndices[0] in st.remaining;
          PartitionStep(st, |m.faces|, f);
          RemoveIndexList(st.remaining, f.faceIndices, |m.faces|);
          TypeLoopFound(cfg, m, s, st, f);
          var next := RecState(st.features + [f], Remove(st.remaining, f.faceIndices), st.calls + 1);
          TypeLoopProps(cfg, m, s, next);
          LoopOkStep(st, f, TypeLoop(cfg, m, s, next).value, |m.faces|, cfg, s.t);
        }
      }
    }
  }

  /** The stages from position `k` on keep the partition and append features in detection order. */
  lemma {:induction false} RecognizeFromProps(cfg: FeatureRecognitionConfig, m: StlMesh, stages: seq<Stage>, k: nat, st: RecState)
    requires Indexable(m) && k <= |stages| && StagesOk(stages, cfg) && StagesFollow(stages, cfg)
    requires Partition(st, |m.faces|)
    requires RecognizeFrom(cfg, m, stages, k, st).Success?
    ensures var r := RecognizeFrom(cfg, m, stages, k, st).value;
      && Partition(r, |m.faces|)
      && |st.features| <= |r.features| && r.features[..|st.features|] == st.features
      && Appended(r.features, |st.features|, cfg, k)
    decreases |stages| - k
  {
    if k < |stages| {
      if !stages[k].enabled {
        RecognizeFromProps(cfg, m, stages, k + 1, st);
      } else {
        TypeLoopProps(cfg, m, stages[k], st);
        var mid := TypeLoop(cfg, m, stages[k], st).value;
        RecognizeFromProps(cfg, m, stages, k + 1, mid);
        var r := RecognizeFrom(cfg, m, stages, k + 1, mid).value;
        assert r.features[..|st.features|] == r.features[..|mid.features|][..|st.features|];
        forall j | |st.features| <= j < |mid.features|
          ensures r.features[j] == mid.features[j]
        {
          assert r.features[..|mid.features|][j] == mid.features[j];
        }
      }
    }
  }

  /**
   * A successful run returns features in detection order (planes, cylinders, spheres,
   * cones, tori), each of an enabled type, with at least the type's minimum of faces and
   * confidence and coverage in (0, 1]; their face lists are valid and pairwise disjoint.
   */
  lemma RecognizeSound(env: Env, cfg: FeatureRecognitionConfig, m: StlMesh)
    requires ValidRng(env.rng)
    requires Recognize(env, cfg, m).Success?
    ensures var fs := Recognize(env, cfg, m).value;
      && (forall j :: 0 <= j < |fs| ==> FeatureOk(fs[j], cfg) && IndexList(fs[j].faceIndices, |m.faces|))
      && (forall a, b :: 0 <= a < b < |fs| ==>
            Rank(FeatureTypeOf(fs[a].primitive)) <= Rank(FeatureTypeOf(fs[b].primitive)))
      && (forall a, b, x :: 0 <= a < b < |fs| && x in fs[a].faceIndices ==> x !in fs[b].faceIndices)
  {
    PartitionStart(m);
    DetectionStagesOk(env, cfg);
    DetectionStagesFollow(env, cfg);
    RecognizeFromProps(cfg, m, DetectionStages(env, cfg), 0, Start(m));
  }

  /** One type's loop fails only when a minimum count the code compares against is not positive. */
  lemma {:induction false} TypeLoopFailure(cfg: FeatureRecognitionConfig, m: StlMesh, s: Stage, st: RecState)
    requires Indexable(m) && IndexList(st.remaining, |m.faces|) && DetectorContract(s.det, cfg, s.t)
    requires TypeLoop(cfg, m, s, st).Failure?
    ensures cfg.minPointsPlane < 0 || MinPointsForType(cfg, s.t) <= 0
    decreases |st.remaining|
  {
    if |st.remaining| > 0 {
      var pn := FacePoints(m, st.remaining);
      IndexListLength(st.remaining, |m.faces|);
      var d := s.det(st.calls, pn.0, pn.1, st.remaining, |m.faces|);
      if d.Found? {
        var f := d.feature;
        FoundBounds(f, cfg, s.t, |pn.0|, st.remaining, |m.faces|);
        assert f.faceIndices[0] in st.remaining;
        RemoveIndexList(st.remaining, f.faceIndices, |m.faces|);
        TypeLoopFound(cfg, m, s, st, f);
        TypeLoopFailure(cfg, m, s, RecState(st.features + [f], Remove(st.remaining, f.faceIndices), st.calls + 1));
      }
    }
  }

  /** Every minimum count the recogniser compares with is positive. */
  predicate PositiveMinimums(cfg: FeatureRecognitionConfig) {
    cfg.minPointsPlane > 0 && cfg.minPointsCylinder > 0 && cfg.minPointsSphere > 0 && cfg.minPointsCone > 0
  }

  lemma {:induction false} RecognizeFromSucceeds(cfg: FeatureRecognitionConfig, m: StlMesh, stages: seq<Stage>, k: nat, st: RecState)
    requires Indexable(m) && IndexList(st.remaining, |m.faces|) && k <= |stages| && StagesOk(stages, cfg)
    requires PositiveMinimums(cfg)
    ensures RecognizeFrom(cfg, m, stages, k, st).Success?
    decreases |stages| - k
  {
    if k < |stages| {
      if !stages[k].enabled {
        RecognizeFromSucceeds(cfg, m, stages, k + 1, st);
      } else {
        var r := TypeLoop(cfg, m, stages[k], st);
        if r.Failure? {
          TypeLoopFailure(cfg, m, stages[k], st);
        } else {
          RecognizeFromSucceeds(cfg, m, stages, k + 1, r.value);
        }
      }
    }
  }

  /**
   * With positive minimum counts (the defaults among them) recognition raises exactly when
   * the mesh has an out-of-range face index or fewer normals than faces.
   */
  lemma RecognizeFailsOnlyOnBadMesh(env: Env, cfg: FeatureRecognitionConfig, m: StlMesh)
    requires ValidRng(env.rng) && PositiveMinimums(cfg)
    ensures Recognize(env, cfg, m).Success? <==> Indexable(m)
  {
    if Indexable(m) {
      DetectionStagesOk(env, cfg);
      RecognizeFromSucceeds(cfg, m, DetectionStages(env, cfg), 0, Start(m));
    }
  }

  lemma DefaultMinimumsPositive()
    ensures PositiveMinimums(FeatureRecognitionConfig())
  {
  }

  // ---------------------------------------------------------------------------
  // The loops as code
  // ---------------------------------------------------------------------------

  /** The while loop for one feature type. */
  method RunTypeLoop(cfg: FeatureRecognitionConfig, m: StlMesh, s: Stage, st0: RecState)
    returns (r: Result<RecState>)
    requires Indexable(m) && IndexList(st0.remaining, |m.faces|) && DetectorContract(s.det, cfg, s.t)
    ensures r == TypeLoop(cfg, m, s, st0)
  {
    var st := st0;
    var go := true;
    while go && |st.remaining| as int > cfg.minPointsPlane
      invariant IndexList(st.remaining, |m.faces|)
      invariant go ==> TypeLoop(cfg, m, s, st) == TypeLoop(cfg, m, s, st0)
      invariant !go ==> Success(st) == TypeLoop(cfg, m, s, st0)
      decreases |st.remaining|, go
    {
      TypeLoopStep(cfg, m, s, st);
      if |st.remaining| == 0 {
        return Failure(FloatIndexError);
      }
      var pn := FacePoints(m, st.remaining);
      if |pn.0| < MinPointsForType(cfg, s.t) {
        go := false;
      } else {
        var d := s.det(st.calls, pn.0, pn.1, st.remaining, |m.faces|);
        match d
        case Raised(e) =>
          return Failure(e);
        case NoFeature =>
          st := RecState(st.features, st.remaining, st.calls + 1);
          go := false;
        case Found(f) =>
          FoundBounds(f, cfg, s.t, |pn.0|, st.remaining, |m.faces|);
          assert f.faceIndices[0] in st.remaining;
          RemoveIndexList(st.remaining, f.faceIndices, |m.faces|);
          TypeLoopFound(cfg, m, s, st, f);
          st := RecState(st.features + [f], Remove(st.remaining, f.faceIndices), st.calls + 1);
      }
    }
    TypeLoopStep(cfg, m, s, st);
    r := Success(st);
  }

  /** The for loop over the detection order. */
  method RunDetectors(cfg: FeatureRecognitionConfig, m: StlMesh, stages: seq<Stage>) returns (r: Result<RecState>)
    requires Indexable(m) && StagesOk(stages, cfg)
    ensures r == RecognizeFrom(cfg, m, stages, 0, Start(m))
  {
    var st := Start(m);
    for k := 0 to |stages|
      invariant IndexList(st.remaining, |m.faces|)
      invariant RecognizeFrom(cfg, m, stages, k, st) == RecognizeFrom(cfg, m, stages, 0, Start(m))
    {
      if stages[k].enabled {
        var res := RunTypeLoop(cfg, m, stages[k], st);
        if res.Failure? {
          return Failure(res.error);
        }
        st := res.value;
      }
    }
    r := Success(st);
  }

  /** `recognize`: vertex normals first, then the detectors. */
  method RecognizeFeatures(env: Env, cfg: FeatureRecognitionConfig, m: StlMesh) returns (r: Result<seq<RecognizedFeature>>)
    requires ValidRng(env.rng)
    ensures r == Recognize(env, cfg, m)
  {
    var normals := ComputeVertexNormals(env.solvers.rm, m);
    if normals.Failure? {
      return Failure(normals.error);
    }
    var stages := DetectionStages(env, cfg);
    DetectionStagesOk(env, cfg);
    var res := RunDetectors(cfg, m, stages);
    r := if res.Failure? then Failure(res.error) else Success(res.value.features);
  }
}
