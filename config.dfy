/**
 * Configuration records of the STL-to-CAD converter: tolerances, feature-recognition
 * settings, surface-fitting settings and the top-level conversion configuration, with
 * their default values and the two presets `HighPrecision` and `Fast`.
 */
module Config {
  import opened Wrappers

  datatype OutputFormat = Kcl | Step | Iges | Json

  /** The recognised geometric feature types, in the order the recognizer tries them. */
  datatype FeatureType = Plane | Cylinder | Sphere | Cone | Torus | Freeform

  /** The enum's string value, as used in the `"type"` tag of a feature's dictionary form. */
  function FeatureTypeValue(t: FeatureType): string {
    match t
    case Plane => "plane"
    case Cylinder => "cylinder"
    case Sphere => "sphere"
    case Cone => "cone"
    case Torus => "torus"
    case Freeform => "freeform"
  }

  function OutputFormatValue(f: OutputFormat): string {
    match f
    case Kcl => "kcl"
    case Step => "step"
    case Iges => "iges"
    case Json => "json"
  }

  /** Distinct feature types have distinct string values. */
  lemma FeatureTypeValueInjective(a: FeatureType, b: FeatureType)
    ensures FeatureTypeValue(a) == FeatureTypeValue(b) <==> a == b
  {
    if a != b {
      assert FeatureTypeValue(a)[0] != FeatureTypeValue(b)[0] || FeatureTypeValue(a)[1] != FeatureTypeValue(b)[1];
    }
  }

  datatype ToleranceConfig = ToleranceConfig(
    surfaceFitting: real := 0.01,
    angular: real := 0.01,
    pointMerge: real := 0.001,
    edgeAngleThreshold: real := 30.0,
    minFeatureSize: real := 0.1)

  datatype FeatureRecognitionConfig = FeatureRecognitionConfig(
    detectPlanes: bool := true,
    detectCylinders: bool := true,
    detectSpheres: bool := true,
    detectCones: bool := true,
    detectTori: bool := true,
    ransacIterations: int := 1000,
    ransacThreshold: real := 0.01,
    minPointsPlane: int := 10,
    minPointsCylinder: int := 20,
    minPointsSphere: int := 20,
    minPointsCone: int := 30,
    regionGrowingThreshold: real := 0.02,
    normalConsistencyThreshold: real := 0.95)

  datatype SurfaceFittingConfig = SurfaceFittingConfig(
    nurbsDegreeU: int := 3,
    nurbsDegreeV: int := 3,
    controlPointsDensity: real := 0.1,
    maxIterations: int := 100,
    convergenceThreshold: real := 0.000001,
    smoothingWeight: real := 0.1)

  datatype ConversionConfig = ConversionConfig(
    outputFormat: OutputFormat := Kcl,
    tolerance: ToleranceConfig := ToleranceConfig(),
    featureRecognition: FeatureRecognitionConfig := FeatureRecognitionConfig(),
    surfaceFitting: SurfaceFittingConfig := SurfaceFittingConfig(),
    autoOrientNormals: bool := true,
    removeDuplicateVertices: bool := true,
    fillHoles: bool := false,
    simplifyMesh: bool := false,
    simplifyRatio: real := 0.9,
    verbose: bool := false,
    saveIntermediate: bool := false,
    intermediateDir: Option<string> := None)

  /** `ConversionConfig()` with every field at its default. */
  function Default(): (c: ConversionConfig)
    ensures c.outputFormat == Kcl
    ensures c.removeDuplicateVertices && c.autoOrientNormals
    ensures !c.fillHoles && !c.simplifyMesh && !c.verbose && !c.saveIntermediate
    ensures c.intermediateDir.None?
  {
    ConversionConfig()
  }

  /** Every feature type except Freeform has its detector switched on by default. */
  predicate Enabled(rc: FeatureRecognitionConfig, t: FeatureType) {
    match t
    case Plane => rc.detectPlanes
    case Cylinder => rc.detectCylinders
    case Sphere => rc.detectSpheres
    case Cone => rc.detectCones
    case Torus => rc.detectTori
    case Freeform => false
  }

  lemma RecognitionDefaults()
    ensures var rc := FeatureRecognitionConfig();
      && (forall t :: t != Freeform ==> Enabled(rc, t))
      && rc.ransacIterations == 1000 && rc.ransacThreshold == 0.01
      && rc.minPointsPlane == 10 && rc.minPointsCylinder == 20
      && rc.minPointsSphere == 20 && rc.minPointsCone == 30
      && rc.normalConsistencyThreshold == 0.95
  {
  }

  lemma ConversionDefaults()
    ensures var c := Default();
      && c.surfaceFitting.nurbsDegreeU == 3 && c.surfaceFitting.nurbsDegreeV == 3
      && c.surfaceFitting.controlPointsDensity == 0.1
      && c.tolerance.pointMerge == 0.001
  {
  }

  /** The high-precision preset: tighter tolerances and more RANSAC trials and iterations. */
  function HighPrecision(): (c: ConversionConfig)
    ensures c.featureRecognition.ransacIterations == 5000
    ensures c.featureRecognition.ransacThreshold == 0.001
    ensures c.tolerance.surfaceFitting == 0.001 && c.tolerance.angular == 0.001
    ensures c.tolerance.pointMerge == 0.0001
    ensures c.surfaceFitting.maxIterations == 500
    ensures c.surfaceFitting.convergenceThreshold == 0.00000001
  {
    ConversionConfig(
      tolerance := ToleranceConfig(surfaceFitting := 0.001, angular := 0.001, pointMerge := 0.0001),
      featureRecognition := FeatureRecognitionConfig(ransacIterations := 5000, ransacThreshold := 0.001),
      surfaceFitting := SurfaceFittingConfig(maxIterations := 500, convergenceThreshold := 0.00000001))
  }

  /** The fast preset: looser tolerances, fewer trials, and mesh simplification switched on. */
  function Fast(): (c: ConversionConfig)
    ensures c.featureRecognition.ransacIterations == 200
    ensures c.featureRecognition.ransacThreshold == 0.1
    ensures c.tolerance.surfaceFitting == 0.1 && c.tolerance.angular == 0.05
    ensures c.surfaceFitting.maxIterations == 20
    ensures c.simplifyMesh && c.simplifyRatio == 0.5
  {
    ConversionConfig(
      tolerance := ToleranceConfig(surfaceFitting := 0.1, angular := 0.05),
      featureRecognition := FeatureRecognitionConfig(ransacIterations := 200, ransacThreshold := 0.1),
      surfaceFitting := SurfaceFittingConfig(maxIterations := 20),
      simplifyMesh := true,
      simplifyRatio := 0.5)
  }

  /** High precision overrides exactly the named fields; everything else is the default. */
  lemma HighPrecisionOverridesOnly()
    ensures var d := Default();
      HighPrecision() == d.(
        tolerance := d.tolerance.(surfaceFitting := 0.001, angular := 0.001, pointMerge := 0.0001),
        featureRecognition := d.featureRecognition.(ransacIterations := 5000, ransacThreshold := 0.001),
        surfaceFitting := d.surfaceFitting.(maxIterations := 500, convergenceThreshold := 0.00000001))
    ensures var h := HighPrecision();
      && (forall t :: Enabled(h.featureRecognition, t) == Enabled(Default().featureRecognition, t))
      && h.featureRecognition.minPointsPlane == 10 && h.featureRecognition.minPointsCone == 30
      && h.tolerance.edgeAngleThreshold == 30.0 && h.tolerance.minFeatureSize == 0.1
      && h.surfaceFitting.nurbsDegreeU == 3 && h.surfaceFitting.nurbsDegreeV == 3
      && !h.simplifyMesh
  {
  }

  /** The fast preset overrides exactly the named fields; in particular point merging keeps 0.001. */
  lemma FastOverridesOnly()
    ensures var d := Default();
      Fast() == d.(
        tolerance := d.tolerance.(surfaceFitting := 0.1, angular := 0.05),
        featureRecognition := d.featureRecognition.(ransacIterations := 200, ransacThreshold := 0.1),
        surfaceFitting := d.surfaceFitting.(maxIterations := 20),
        simplifyMesh := true,
        simplifyRatio := 0.5)
    ensures Fast().tolerance.pointMerge == 0.001
  {
  }
}
