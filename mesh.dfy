/**
 * The parsed triangle mesh (`STLMesh`): vertex coordinates, faces as triples of vertex
 * indices, one normal per face and a name, with its bounding box, centre, size and the
 * per-vertex normals obtained by summing incident face normals.
 */
module Mesh {
  import opened Wrappers
  import opened Vectors

  datatype Face = Face(a: nat, b: nat, c: nat) {
    function Corner(j: nat): nat
      requires j < 3
    {
      if j == 0 then a else if j == 1 then b else c
    }
  }

  datatype StlMesh = StlMesh(vertices: seq<Vec3>, faces: seq<Face>, normals: seq<Vec3>, name: string := "mesh")

  /** Every corner of every face names an existing vertex. */
  predicate IndicesInRange(vertexCount: nat, faces: seq<Face>) {
    forall i, j :: 0 <= i < |faces| && 0 <= j < 3 ==> faces[i].Corner(j) < vertexCount
  }

  /** What `compute_vertex_normals` indexes without an IndexError. */
  predicate Indexable(m: StlMesh) {
    IndicesInRange(|m.vertices|, m.faces) && |m.faces| <= |m.normals|
  }

  /** The faces both decoders build for `n` triangles: `np.arange(3n).reshape(-1, 3)`. */
  function FaceLayout(n: nat): (fs: seq<Face>)
    ensures |fs| == n
    ensures forall i :: 0 <= i < n ==> fs[i] == Face(3 * i, 3 * i + 1, 3 * i + 2)
  {
    seq(n, i requires 0 <= i < n => Face(3 * i, 3 * i + 1, 3 * i + 2))
  }

  /** Every index of the standard layout names one of the `3n` vertices. */
  lemma FaceLayoutInRange(n: nat)
    ensures IndicesInRange(3 * n, FaceLayout(n))
  {
    forall i, j | 0 <= i < n && 0 <= j < 3
      ensures FaceLayout(n)[i].Corner(j) < 3 * n
    {
      assert FaceLayout(n)[i].Corner(j) <= 3 * i + 2;
    }
  }

  // ---------------------------------------------------------------------------
  // Bounding box
  // ---------------------------------------------------------------------------

  function Component(v: Vec3, axis: nat): real
    requires axis < 3
  {
    if axis == 0 then v.x else if axis == 1 then v.y else v.z
  }

  function Column(vs: seq<Vec3>, axis: nat): (col: seq<real>)
    requires axis < 3
    ensures |col| == |vs| && forall i :: 0 <= i < |vs| ==> col[i] == Component(vs[i], axis)
  {
    seq(|vs|, i requires 0 <= i < |vs| => Component(vs[i], axis))
  }

  /** Componentwise `a <= b`. */
  predicate LeAll(a: Vec3, b: Vec3) {
    a.x <= b.x && a.y <= b.y && a.z <= b.z
  }

  /** The componentwise minimum of a non-empty vertex list. */
  function MinCorner(vs: seq<Vec3>): Vec3
    requires |vs| > 0
  {
    Vec3(MinOf(Column(vs, 0)), MinOf(Column(vs, 1)), MinOf(Column(vs, 2)))
  }

  /** The componentwise maximum of a non-empty vertex list. */
  function MaxCorner(vs: seq<Vec3>): Vec3
    requires |vs| > 0
  {
    Vec3(MaxOf(Column(vs, 0)), MaxOf(Column(vs, 1)), MaxOf(Column(vs, 2)))
  }

  lemma CornersBound(vs: seq<Vec3>, i: nat)
    requires 0 <= i < |vs|
    ensures LeAll(MinCorner(vs), vs[i]) && LeAll(vs[i], MaxCorner(vs))
  {
    assert Column(vs, 0)[i] == vs[i].x;
    assert Column(vs, 1)[i] == vs[i].y;
    assert Column(vs, 2)[i] == vs[i].z;
  }

  /** Each coordinate of the box corners is attained by some vertex. */
  lemma CornersAttained(vs: seq<Vec3>, axis: nat)
    requires |vs| > 0 && axis < 3
    ensures exists i :: 0 <= i < |vs| && Component(vs[i], axis) == Component(MinCorner(vs), axis)
    ensures exists i :: 0 <= i < |vs| && Component(vs[i], axis) == Component(MaxCorner(vs), axis)
  {
    var col := Column(vs, axis);
    assert Component(MinCorner(vs), axis) == MinOf(col);
    assert Component(MaxCorner(vs), axis) == MaxOf(col);
    var i :| 0 <= i < |col| && col[i] == MinOf(col);
    var k :| 0 <= k < |col| && col[k] == MaxOf(col);
    assert Component(vs[i], axis) == MinOf(col);
    assert Component(vs[k], axis) == MaxOf(col);
  }

  /**
   * `bounds`: the componentwise minimum and maximum of the vertices; numpy refuses the
   * reduction of an empty array, which is the failure case.
   */
  function Bounds(m: StlMesh): (r: Result<(Vec3, Vec3)>)
    ensures r.Success? <==> |m.vertices| > 0
    ensures r.Success? ==> forall i :: 0 <= i < |m.vertices| ==>
      LeAll(r.value.0, m.vertices[i]) && LeAll(m.vertices[i], r.value.1)
  {
    var vs := m.vertices;
    if |vs| == 0 then Failure("zero-size array to reduction operation minimum")
    else
      assert forall i :: 0 <= i < |vs| ==> LeAll(MinCorner(vs), vs[i]) && LeAll(vs[i], MaxCorner(vs)) by {
        forall i | 0 <= i < |vs| {
          CornersBound(vs, i);
        }
      }
      Success((MinCorner(vs), MaxCorner(vs)))
  }

  /** The box is tight: each of its six faces touches a vertex. */
  lemma BoundsTight(m: StlMesh, axis: nat)
    requires |m.vertices| > 0 && axis < 3
    ensures exists i :: 0 <= i < |m.vertices| && Component(m.vertices[i], axis) == Component(Bounds(m).value.0, axis)
    ensures exists i :: 0 <= i < |m.vertices| && Component(m.vertices[i], axis) == Component(Bounds(m).value.1, axis)
  {
    CornersAttained(m.vertices, axis);
  }

  /** `size`: the extent of the bounding box, non-negative on every axis. */
  function Size(m: StlMesh): (r: Result<Vec3>)
    ensures r.Success? <==> |m.vertices| > 0
    ensures r.Success? ==> LeAll(Zero, r.value)
    ensures r.Success? ==> r.value == Sub(Bounds(m).value.1, Bounds(m).value.0)
  {
    match Bounds(m)
    case Failure(e) => Failure(e)
    case Success(b) =>
      assert LeAll(b.0, m.vertices[0]) && LeAll(m.vertices[0], b.1);
      Success(Sub(b.1, b.0))
  }

  /** `center`: the midpoint of the bounding box, which lies inside the box. */
  function Center(m: StlMesh): (r: Result<Vec3>)
    ensures r.Success? <==> |m.vertices| > 0
    ensures r.Success? ==> LeAll(Bounds(m).value.0, r.value) && LeAll(r.value, Bounds(m).value.1)
  {
    match Bounds(m)
    case Failure(e) => Failure(e)
    case Success(b) =>
      assert LeAll(b.0, m.vertices[0]) && LeAll(m.vertices[0], b.1);
      var s := Add(b.0, b.1);
      Success(Vec3(s.x / 2.0, s.y / 2.0, s.z / 2.0))
  }

  // ---------------------------------------------------------------------------
  // Vertex normals
  // ---------------------------------------------------------------------------

  /** The normal `n` added once for each of the first `j` corners of `f` that is `w`. */
  function CornerContribution(f: Face, j: nat, w: nat, n: Vec3): Vec3
    requires j <= 3
  {
    if j == 0 then Zero
    else Add(CornerContribution(f, j - 1, w, n), if f.Corner(j - 1) == w then n else Zero)
  }

  /** The sum, over the first `k` faces, of the face normal once per corner at vertex `w`. */
  function NormalSum(m: StlMesh, k: nat, w: nat): Vec3
    requires k <= |m.faces| && k <= |m.normals|
  {
    if k == 0 then Zero
    else Add(NormalSum(m, k - 1, w), CornerContribution(m.faces[k - 1], 3, w, m.normals[k - 1]))
  }

  /** Division by the norm, with a zero norm replaced by 1 so that zero vectors stay zero. */
  function NormalizeOrKeep(rm: RealMath, v: Vec3): Vec3 {
    var n := Norm(rm, v);
    DivBy(v, if n == 0.0 then 1.0 else n)
  }

  /** What `compute_vertex_normals` returns, or the IndexError it raises. */
  function VertexNormals(rm: RealMath, m: StlMesh): (r: Result<seq<Vec3>>)
    ensures r.Success? <==> Indexable(m)
    ensures r.Success? ==> |r.value| == |m.vertices|
  {
    if !Indexable(m) then Failure("index out of bounds")
    else Success(seq(|m.vertices|, w requires 0 <= w < |m.vertices| =>
      NormalizeOrKeep(rm, NormalSum(m, |m.faces|, w))))
  }

  lemma ContributionZero(f: Face, j: nat, w: nat, n: Vec3)
    requires j <= 3
    requires forall c :: 0 <= c < j ==> f.Corner(c) != w
    ensures CornerContribution(f, j, w, n) == Zero
  {
    if j > 0 {
      ContributionZero(f, j - 1, w, n);
    }
  }

  /** A vertex that no face mentions accumulates nothing. */
  lemma {:induction false} NormalSumIsolated(m: StlMesh, k: nat, w: nat)
    requires k <= |m.faces| && k <= |m.normals|
    requires forall i, c :: 0 <= i < |m.faces| && 0 <= c < 3 ==> m.faces[i].Corner(c) != w
    ensures NormalSum(m, k, w) == Zero
  {
    if k > 0 {
      NormalSumIsolated(m, k - 1, w);
      ContributionZero(m.faces[k - 1], 3, w, m.normals[k - 1]);
    }
  }

  lemma ZeroDividedBy(d: real)
    requires d != 0.0
    ensures 0.0 / d == 0.0
  {}

  lemma NormalizeZero(rm: RealMath)
    ensures NormalizeOrKeep(rm, Zero) == Zero
  {
    var n := Norm(rm, Zero);
    ZeroDividedBy(if n == 0.0 then 1.0 else n);
  }

  /** A vertex in no face keeps the zero vector, because of the norm-0 guard. */
  lemma IsolatedVertexNormal(rm: RealMath, m: StlMesh, w: nat)
    requires Indexable(m) && w < |m.vertices|
    requires forall i, c :: 0 <= i < |m.faces| && 0 <= c < 3 ==> m.faces[i].Corner(c) != w
    ensures VertexNormals(rm, m).value[w] == Zero
  {
    var s := NormalSum(m, |m.faces|, w);
    assert VertexNormals(rm, m).value[w] == NormalizeOrKeep(rm, s);
    NormalSumIsolated(m, |m.faces|, w);
    NormalizeZero(rm);
  }

  /** A vertex whose incident normals do not cancel gets a unit normal in their direction. */
  lemma VertexNormalIsUnit(rm: RealMath, m: StlMesh, w: nat)
    requires SqrtLaw(rm)
    requires Indexable(m) && w < |m.vertices|
    requires NormalSum(m, |m.faces|, w) != Zero
    ensures Norm(rm, VertexNormals(rm, m).value[w]) == 1.0
  {
    var v := NormalSum(m, |m.faces|, w);
    NormZeroIff(rm, v);
    var n := Norm(rm, v);
    DivIsScale(v, n);
    NormScale(rm, 1.0 / n, v);
    InverseTimes(n);
  }

  lemma AddAssoc(a: Vec3, b: Vec3, c: Vec3)
    ensures Add(Add(a, b), c) == Add(a, Add(b, c))
  {}

  lemma ContributionStep(f: Face, j: nat, w: nat, n: Vec3)
    requires j < 3
    ensures CornerContribution(f, j + 1, w, n) ==
      if f.Corner(j) == w then Add(CornerContribution(f, j, w, n), n) else CornerContribution(f, j, w, n)
  {}

  /** The inner loop `for v_idx in face: vertex_normals[v_idx] += normal`. */
  method AddToCorners(face: Face, n: Vec3, acc: array<Vec3>) returns (ok: bool)
    modifies acc
    ensures ok <==> forall c :: 0 <= c < 3 ==> face.Corner(c) < acc.Length
    ensures ok ==> forall w :: 0 <= w < acc.Length ==> acc[w] == Add(old(acc[w]), CornerContribution(face, 3, w, n))
  {
    var j := 0;
    while j < 3
      invariant 0 <= j <= 3
      invariant forall c :: 0 <= c < j ==> face.Corner(c) < acc.Length
      invariant forall w :: 0 <= w < acc.Length ==> acc[w] == Add(old(acc[w]), CornerContribution(face, j, w, n))
    {
      var idx := face.Corner(j);
      if idx >= acc.Length {
        return false;
      }
      forall w | 0 <= w < acc.Length {
        ContributionStep(face, j, w, n);
      }
      AddAssoc(old(acc[idx]), CornerContribution(face, j, idx, n), n);
      acc[idx] := Add(acc[idx], n);
      j := j + 1;
    }
    return true;
  }

  /** The outer loop over the faces, accumulating into a zeroed array. */
  method AccumulateNormals(m: StlMesh, acc: array<Vec3>) returns (ok: bool)
    requires acc.Length == |m.vertices|
    requires forall w :: 0 <= w < acc.Length ==> acc[w] == Zero
    modifies acc
    ensures ok <==> Indexable(m)
    ensures ok ==> forall w :: 0 <= w < acc.Length ==> acc[w] == NormalSum(m, |m.faces|, w)
  {
    var i := 0;
    while i < |m.faces|
      invariant 0 <= i <= |m.faces| && i <= |m.normals|
      invariant forall k, c :: 0 <= k < i && 0 <= c < 3 ==> m.faces[k].Corner(c) < acc.Length
      invariant forall w :: 0 <= w < acc.Length ==> acc[w] == NormalSum(m, i, w)
    {
      if i >= |m.normals| {
        return false;
      }
      var cornersOk := AddToCorners(m.faces[i], m.normals[i], acc);
      if !cornersOk {
        return false;
      }
      i := i + 1;
    }
    return true;
  }

  /** `vertex_normals /= norms`, row by row, with zero norms replaced by 1. */
  method NormalizeRows(rm: RealMath, acc: array<Vec3>)
    modifies acc
    ensures forall u :: 0 <= u < acc.Length ==> acc[u] == NormalizeOrKeep(rm, old(acc[u]))
  {
    var w := 0;
    while w < acc.Length
      invariant 0 <= w <= acc.Length
      invariant forall u :: 0 <= u < w ==> acc[u] == NormalizeOrKeep(rm, old(acc[u]))
      invariant forall u :: w <= u < acc.Length ==> acc[u] == old(acc[u])
    {
      var n := Norm(rm, acc[w]);
      if n == 0.0 {
        n := 1.0;
      }
      acc[w] := DivBy(acc[w], n);
      w := w + 1;
    }
  }

  /**
   * `compute_vertex_normals`: accumulates each face's normal into the entries of its three
   * corners, then divides every entry by its norm (a zero norm counts as 1).
   */
  method ComputeVertexNormals(rm: RealMath, m: StlMesh) returns (r: Result<seq<Vec3>>)
    ensures r == VertexNormals(rm, m)
  {
    var acc := new Vec3[|m.vertices|](_ => Zero);
    var ok := AccumulateNormals(m, acc);
    if !ok {
      return Failure("index out of bounds");
    }
    NormalizeRows(rm, acc);
    assert acc[..] == VertexNormals(rm, m).value;
    r := Success(acc[..]);
  }
}
