/**
 * The geometric primitives a recognised feature is fitted to: plane, cylinder, sphere,
 * cone and torus, each with its point-to-surface distance, plus the plane's projection
 * and the cone's base radius. `norm`, `sqrt`, `tan` and `cos` come from the RealMath
 * parameter.
 */
module Primitives {
  import opened Wrappers
  import opened Vectors
  import opened Config

  const UnitZ: Vec3 := Vec3(0.0, 0.0, 1.0)

  /** The fields every primitive shares: the indices of its points, its error and confidence. */
  datatype Common = Common(pointIndices: seq<nat>, fittingError: real := 0.0, confidence: real := 1.0)

  datatype Primitive =
    | PlaneFeature(common: Common, point: Vec3 := Zero, normal: Vec3 := UnitZ,
                   bounds: Option<(Vec3, Vec3)> := None)
    | CylinderFeature(common: Common, axisPoint: Vec3 := Zero, axisDirection: Vec3 := UnitZ,
                      radius: real := 1.0, height: Option<real> := None,
                      startPoint: Option<Vec3> := None, endPoint: Option<Vec3> := None)
    | SphereFeature(common: Common, center: Vec3 := Zero, radius: real := 1.0)
    | ConeFeature(common: Common, apex: Vec3 := Zero, axisDirection: Vec3 := UnitZ,
                  halfAngle: real := 0.5, height: Option<real> := None)
    | TorusFeature(common: Common, center: Vec3 := Zero, axis: Vec3 := UnitZ,
                   majorRadius: real := 2.0, minorRadius: real := 0.5)

  /** The `feature_type` each class fixes (it is not a constructor argument). */
  function FeatureTypeOf(p: Primitive): FeatureType {
    match p
    case PlaneFeature(_, _, _, _) => Plane
    case CylinderFeature(_, _, _, _, _, _, _) => Cylinder
    case SphereFeature(_, _, _) => Sphere
    case ConeFeature(_, _, _, _, _) => Cone
    case TorusFeature(_, _, _, _, _) => Torus
  }

  /** The `"type"` entry of each class's dictionary form. */
  function TypeTag(p: Primitive): string {
    match p
    case PlaneFeature(_, _, _, _) => "plane"
    case CylinderFeature(_, _, _, _, _, _, _) => "cylinder"
    case SphereFeature(_, _, _) => "sphere"
    case ConeFeature(_, _, _, _, _) => "cone"
    case TorusFeature(_, _, _, _, _) => "torus"
  }

  /** The dictionary tag is the string value of the feature type, and never "freeform". */
  lemma TypeTagMatches(p: Primitive)
    ensures TypeTag(p) == FeatureTypeValue(FeatureTypeOf(p))
    ensures FeatureTypeOf(p) != Freeform
  {
  }

  // ---------------------------------------------------------------------------
  // Plane
  // ---------------------------------------------------------------------------

  /** `|n . (x - p0)|`. */
  function PlaneDistance(n: Vec3, p0: Vec3, x: Vec3): NonNeg {
    Abs(Dot(n, Sub(x, p0)))
  }

  /** `x - (n . (x - p0)) n`. */
  function ProjectPoint(n: Vec3, p0: Vec3, x: Vec3): Vec3 {
    Sub(x, Scale(Dot(n, Sub(x, p0)), n))
  }

  lemma DotSubScale(n: Vec3, a: Vec3, d: real)
    ensures Dot(n, Sub(a, Scale(d, n))) == Dot(n, a) - d * Dot(n, n)
  {
  }

  /**
   * For a unit normal, a projected point lies on the plane, and projecting it again
   * leaves it where it is.
   */
  lemma ProjectOntoPlane(n: Vec3, p0: Vec3, x: Vec3)
    requires Dot(n, n) == 1.0
    ensures PlaneDistance(n, p0, ProjectPoint(n, p0, x)) == 0.0
    ensures ProjectPoint(n, p0, ProjectPoint(n, p0, x)) == ProjectPoint(n, p0, x)
  {
    var d := Dot(n, Sub(x, p0));
    var y := ProjectPoint(n, p0, x);
    assert Sub(y, p0) == Sub(Sub(x, p0), Scale(d, n));
    DotSubScale(n, Sub(x, p0), d);
    assert Dot(n, Sub(y, p0)) == 0.0;
  }

  lemma SqrtOne(rm: RealMath)
    requires SqrtLaw(rm)
    ensures rm.sqrt(1.0) == 1.0
  {
    SqrtSquared(rm, 1.0);
    SameSquare(rm.sqrt(1.0), 1.0);
  }

  /** For a unit normal, the plane distance is how far projection moves the point. */
  lemma PlaneDistanceIsGap(rm: RealMath, n: Vec3, p0: Vec3, x: Vec3)
    requires SqrtLaw(rm) && Dot(n, n) == 1.0
    ensures PlaneDistance(n, p0, x) == Norm(rm, Sub(x, ProjectPoint(n, p0, x)))
  {
    var d := Dot(n, Sub(x, p0));
    assert Sub(x, ProjectPoint(n, p0, x)) == Scale(d, n);
    NormScale(rm, d, n);
    SqrtOne(rm);
  }

  // ---------------------------------------------------------------------------
  // Cylinder and sphere
  // ---------------------------------------------------------------------------

  /** The part of `v` perpendicular to `axis`: `v - (v . axis) axis`. */
  function Perp(v: Vec3, axis: Vec3): Vec3 {
    Sub(v, Scale(Dot(v, axis), axis))
  }

  /** For a unit axis, the perpendicular part is orthogonal to the axis. */
  lemma PerpOrthogonal(v: Vec3, axis: Vec3)
    requires Dot(axis, axis) == 1.0
    ensures Dot(Perp(v, axis), axis) == 0.0
  {
    DotSubScale(axis, v, Dot(v, axis));
    assert Dot(axis, Perp(v, axis)) == Dot(Perp(v, axis), axis);
  }

  /** `|‖perp(x - axis_point)‖ - radius|`. */
  function CylinderDistance(rm: RealMath, axisPoint: Vec3, axisDirection: Vec3, radius: real, x: Vec3): NonNeg {
    Abs(Norm(rm, Perp(Sub(x, axisPoint), axisDirection)) - radius)
  }

  /** `|‖x - center‖ - radius|`. */
  function SphereDistance(rm: RealMath, center: Vec3, radius: real, x: Vec3): NonNeg {
    Abs(Norm(rm, Sub(x, center)) - radius)
  }

  /** A point is on the cylinder exactly when its distance from the axis is the radius. */
  lemma CylinderOnSurface(rm: RealMath, axisPoint: Vec3, axisDirection: Vec3, radius: real, x: Vec3)
    ensures CylinderDistance(rm, axisPoint, axisDirection, radius, x) == 0.0
      <==> Norm(rm, Perp(Sub(x, axisPoint), axisDirection)) == radius
  {
  }

  /** A point is on the sphere exactly when its distance from the centre is the radius. */
  lemma SphereOnSurface(rm: RealMath, center: Vec3, radius: real, x: Vec3)
    ensures SphereDistance(rm, center, radius, x) == 0.0 <==> Norm(rm, Sub(x, center)) == radius
  {
  }

  /** Moving `radius` along a unit direction from the centre reaches the sphere. */
  lemma SpherePointOnSurface(rm: RealMath, center: Vec3, radius: real, u: Vec3)
    requires SqrtLaw(rm) && Dot(u, u) == 1.0 && radius >= 0.0
    ensures SphereDistance(rm, center, radius, Add(center, Scale(radius, u))) == 0.0
  {
    assert Sub(Add(center, Scale(radius, u)), center) == Scale(radius, u);
    NormScale(rm, radius, u);
    SqrtOne(rm);
  }

  // ---------------------------------------------------------------------------
  // Cone
  // ---------------------------------------------------------------------------

  /**
   * `ConeFeature.distance_to_point`: behind the apex (axial projection `t <= 0`) the
   * distance to the apex, otherwise the radial error scaled by `cos(half_angle)`.
   */
  function ConeDistance(rm: RealMath, apex: Vec3, axisDirection: Vec3, halfAngle: real, x: Vec3): (d: real)
    ensures rm.cos(halfAngle) >= 0.0 ==> d >= 0.0
  {
    var v := Sub(x, apex);
    var t := Dot(v, axisDirection);
    if t <= 0.0 then Norm(rm, v)
    else
      var expected := t * rm.tan(halfAngle);
      var actual := Norm(rm, Sub(v, Scale(t, axisDirection)));
      MulNonNegIf(Abs(actual - expected), rm.cos(halfAngle));
      Abs(actual - expected) * rm.cos(halfAngle)
  }

  lemma MulNonNegIf(a: NonNeg, c: real)
    ensures c >= 0.0 ==> a * c >= 0.0
  {
    if c >= 0.0 {
      MulNonNeg(a, c);
    }
  }

  /** Behind the apex, or at it, the cone distance is the distance to the apex. */
  lemma ConeBehindApex(rm: RealMath, apex: Vec3, axisDirection: Vec3, halfAngle: real, x: Vec3)
    requires Dot(Sub(x, apex), axisDirection) <= 0.0
    ensures ConeDistance(rm, apex, axisDirection, halfAngle, x) == Norm(rm, Sub(x, apex))
  {
  }

  /**
   * In front of the apex, a point whose distance from the axis is `t tan(half_angle)` is
   * on the cone.
   */
  lemma ConeOnSurface(rm: RealMath, apex: Vec3, axisDirection: Vec3, halfAngle: real, x: Vec3)
    requires Dot(Sub(x, apex), axisDirection) > 0.0
    requires var v := Sub(x, apex); var t := Dot(v, axisDirection);
      Norm(rm, Sub(v, Scale(t, axisDirection))) == t * rm.tan(halfAngle)
    ensures ConeDistance(rm, apex, axisDirection, halfAngle, x) == 0.0
  {
  }

  /** `base_radius`: absent exactly when the height is, otherwise `height * tan(half_angle)`. */
  function BaseRadius(rm: RealMath, cone: Primitive): (r: Option<real>)
    requires cone.ConeFeature?
    ensures r.None? <==> cone.height.None?
    ensures r.Some? ==> r.value == cone.height.value * rm.tan(cone.halfAngle)
  {
    match cone.height
    case None => None
    case Some(h) => Some(h * rm.tan(cone.halfAngle))
  }

  // ---------------------------------------------------------------------------
  // Torus
  // ---------------------------------------------------------------------------

  const OnAxisEpsilon: real := 0.0000000001

  /** The point at distance `majorRadius` from the centre in the direction of `inPlane`. */
  function MajorPoint(center: Vec3, majorRadius: real, inPlane: Vec3, d: real): Vec3
    requires d != 0.0
  {
    Add(center, Scale(majorRadius, DivBy(inPlane, d)))
  }

  /** `|sqrt(R^2 + h^2) - r|`: how far the tube is from a point at height `h` on the axis. */
  function OnAxisDistance(rm: RealMath, majorRadius: real, minorRadius: real, h: real): NonNeg {
    SquarePos(majorRadius);
    SquarePos(h);
    Abs(rm.sqrt(majorRadius * majorRadius + h * h) - minorRadius)
  }

  /**
   * `TorusFeature.distance_to_point`: on the axis (in-plane distance below 1e-10) the
   * distance from the whole major circle, otherwise from the nearest point of it.
   */
  function TorusDistance(rm: RealMath, center: Vec3, axis: Vec3, majorRadius: real, minorRadius: real,
                         x: Vec3): NonNeg
  {
    var v := Sub(x, center);
    var inPlane := Perp(v, axis);
    var d := Norm(rm, inPlane);
    if d < OnAxisEpsilon then OnAxisDistance(rm, majorRadius, minorRadius, Dot(v, axis))
    else
      Abs(Norm(rm, Sub(x, MajorPoint(center, majorRadius, inPlane, d))) - minorRadius)
  }

  /** Dividing a non-zero vector by its norm gives a unit-norm vector. */
  lemma DivByNormIsUnit(rm: RealMath, w: Vec3)
    requires SqrtLaw(rm) && Norm(rm, w) > 0.0
    ensures Norm(rm, DivBy(w, Norm(rm, w))) == 1.0
  {
    var d := Norm(rm, w);
    DivIsScale(w, d);
    NormScale(rm, 1.0 / d, w);
    InverseTimes(d);
  }

  /** Off the axis, the major-circle point lies at distance `|R|` from the centre. */
  lemma MajorPointOnCircle(rm: RealMath, center: Vec3, axis: Vec3, majorRadius: real, x: Vec3)
    requires SqrtLaw(rm)
    requires Norm(rm, Perp(Sub(x, center), axis)) >= OnAxisEpsilon
    ensures var w := Perp(Sub(x, center), axis);
      Norm(rm, Sub(MajorPoint(center, majorRadius, w, Norm(rm, w)), center)) == Abs(majorRadius)
  {
    var w := Perp(Sub(x, center), axis);
    var d := Norm(rm, w);
    var u := DivBy(w, d);
    assert Sub(MajorPoint(center, majorRadius, w, d), center) == Scale(majorRadius, u);
    NormScale(rm, majorRadius, u);
    DivByNormIsUnit(rm, w);
  }

  /** For a unit axis, the major-circle point lies in the plane through the centre perpendicular to the axis. */
  lemma MajorPointInPlane(rm: RealMath, center: Vec3, axis: Vec3, majorRadius: real, x: Vec3)
    requires Dot(axis, axis) == 1.0
    requires Norm(rm, Perp(Sub(x, center), axis)) >= OnAxisEpsilon
    ensures var w := Perp(Sub(x, center), axis);
      Dot(Sub(MajorPoint(center, majorRadius, w, Norm(rm, w)), center), axis) == 0.0
  {
    var w := Perp(Sub(x, center), axis);
    var d := Norm(rm, w);
    var k := majorRadius * (1.0 / d);
    assert Sub(MajorPoint(center, majorRadius, w, d), center) == Scale(k, w);
    PerpOrthogonal(Sub(x, center), axis);
    DotScaleLeft(k, w, axis);
  }

  lemma DotScaleLeft(k: real, w: Vec3, a: Vec3)
    ensures Dot(Scale(k, w), a) == k * Dot(w, a)
  {
  }

  /**
   * A point at height `h` on a unit axis takes the on-axis branch: its distance is how far
   * the tube radius is from `sqrt(R^2 + h^2)`, the distance to every point of the major circle.
   */
  lemma TorusOnAxis(rm: RealMath, center: Vec3, axis: Vec3, majorRadius: real, minorRadius: real, h: real)
    requires SqrtLaw(rm) && Dot(axis, axis) == 1.0
    ensures TorusDistance(rm, center, axis, majorRadius, minorRadius, Add(center, Scale(h, axis)))
      == OnAxisDistance(rm, majorRadius, minorRadius, h)
  {
    var v := Sub(Add(center, Scale(h, axis)), center);
    assert v == Scale(h, axis);
    AxisMultiple(h, axis);
    SqrtZero(rm);
    assert Norm(rm, Perp(v, axis)) == 0.0;
  }

  /** A multiple of a unit axis has height `h` along it and no perpendicular part. */
  lemma AxisMultiple(h: real, axis: Vec3)
    requires Dot(axis, axis) == 1.0
    ensures Dot(Scale(h, axis), axis) == h
    ensures Perp(Scale(h, axis), axis) == Zero
  {
    DotScaleLeft(h, axis, axis);
  }

  /** Every primitive's `distance_to_point`; the cone's is non-negative when `cos(half_angle) >= 0`. */
  function Distance(rm: RealMath, p: Primitive, x: Vec3): (d: real)
    ensures !p.ConeFeature? || rm.cos(p.halfAngle) >= 0.0 ==> d >= 0.0
  {
    match p
    case PlaneFeature(_, point, normal, _) => PlaneDistance(normal, point, x)
    case CylinderFeature(_, axisPoint, axisDirection, radius, _, _, _) =>
      CylinderDistance(rm, axisPoint, axisDirection, radius, x)
    case SphereFeature(_, center, radius) => SphereDistance(rm, center, radius, x)
    case ConeFeature(_, apex, axisDirection, halfAngle, _) => ConeDistance(rm, apex, axisDirection, halfAngle, x)
    case TorusFeature(_, center, axis, majorRadius, minorRadius) =>
      TorusDistance(rm, center, axis, majorRadius, minorRadius, x)
  }
}
