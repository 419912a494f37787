/**
 * Merging duplicate vertices (`_merge_duplicate_vertices`): each vertex is scaled by
 * `1 / tolerance` and rounded to an integer triple, its key; the distinct keys are sorted
 * lexicographically (`np.unique(..., axis=0)`); each distinct key keeps the first vertex
 * that has it as its representative, and every face corner is rewritten to the position
 * of its vertex's key among the distinct keys. The componentwise rounding is the
 * parameter `round`.
 */
module Welding {
  import opened Wrappers
  import opened Vectors
  import opened Mesh

  datatype Key = Key(x: int, y: int, z: int)

  /** Lexicographic order on keys, the row order `np.unique` sorts by. */
  predicate KeyLt(a: Key, b: Key) {
    a.x < b.x || (a.x == b.x && (a.y < b.y || (a.y == b.y && a.z < b.z)))
  }

  /** Distinct keys are ordered one way or the other, never both. */
  lemma KeyLtTotal(a: Key, b: Key)
    ensures a == b || KeyLt(a, b) || KeyLt(b, a)
    ensures !(KeyLt(a, b) && KeyLt(b, a)) && !KeyLt(a, a)
  {
  }

  predicate StrictlySorted(s: seq<Key>) {
    forall i, j :: 0 <= i < j < |s| ==> KeyLt(s[i], s[j])
  }

  /** `np.round(v * scale).astype(np.int64)` for one vertex. */
  function KeyOf(round: real -> int, scale: real, v: Vec3): Key {
    Key(round(v.x * scale), round(v.y * scale), round(v.z * scale))
  }

  function Keys(round: real -> int, scale: real, vs: seq<Vec3>): (ks: seq<Key>)
    ensures |ks| == |vs| && forall i :: 0 <= i < |vs| ==> ks[i] == KeyOf(round, scale, vs[i])
  {
    seq(|vs|, i requires 0 <= i < |vs| => KeyOf(round, scale, vs[i]))
  }

  // ---------------------------------------------------------------------------
  // The sorted distinct keys
  // ---------------------------------------------------------------------------

  /** Adds `k` to a strictly sorted list of keys, unless it is already there. */
  function Insert(s: seq<Key>, k: Key): (r: seq<Key>)
    requires StrictlySorted(s)
    ensures StrictlySorted(r)
    ensures forall x :: x in r <==> x in s || x == k
    ensures |r| <= |s| + 1
    decreases |s|
  {
    if |s| == 0 then [k]
    else if k == s[0] then s
    else if KeyLt(k, s[0]) then
      assert forall j :: 0 < j < |s| ==> KeyLt(s[0], s[j]);
      [k] + s
    else
      KeyLtTotal(k, s[0]);
      var rest := Insert(s[1..], k);
      assert forall x :: x in rest ==> KeyLt(s[0], x);
      [s[0]] + rest
  }

  /** The distinct keys of `ks`, in ascending order: the first result of `np.unique`. */
  function Unique(ks: seq<Key>): (u: seq<Key>)
    ensures StrictlySorted(u)
    ensures forall x :: x in u <==> x in ks
    ensures |u| <= |ks|
    decreases |ks|
  {
    if |ks| == 0 then []
    else
      var p := Unique(ks[..|ks| - 1]);
      assert ks == ks[..|ks| - 1] + [ks[|ks| - 1]];
      Insert(p, ks[|ks| - 1])
  }

  /** The index of the first occurrence of `k`: the `return_index` result. */
  function FirstIndex(ks: seq<Key>, k: Key): (i: nat)
    requires k in ks
    ensures i < |ks| && ks[i] == k
    ensures forall j :: 0 <= j < i ==> ks[j] != k
    decreases |ks|
  {
    if ks[0] == k then 0 else 1 + FirstIndex(ks[1..], k)
  }

  /** The position of `k` among the sorted distinct keys: the `return_inverse` result. */
  function Position(u: seq<Key>, k: Key): (i: nat)
    requires k in u
    ensures i < |u| && u[i] == k
    decreases |u|
  {
    if u[0] == k then 0 else 1 + Position(u[1..], k)
  }

  /** In a strictly sorted list a key occurs once, so its position is its index. */
  lemma PositionOfSorted(u: seq<Key>, r: nat)
    requires StrictlySorted(u) && r < |u|
    ensures Position(u, u[r]) == r
  {
  }

  // ---------------------------------------------------------------------------
  // The merge
  // ---------------------------------------------------------------------------

  function Remap(inverse: seq<nat>, f: Face): Face
    requires f.Corner(0) < |inverse| && f.Corner(1) < |inverse| && f.Corner(2) < |inverse|
  {
    Face(inverse[f.a], inverse[f.b], inverse[f.c])
  }

  /**
   * `_merge_duplicate_vertices`: fails when `1.0 / tolerance` divides by zero, and when a
   * face names a vertex that does not exist (`inverse_indices[mesh.faces]` raises).
   */
  function Weld(round: real -> int, tolerance: real, m: StlMesh): (r: Result<StlMesh>)
    ensures r.Success? <==> tolerance != 0.0 && IndicesInRange(|m.vertices|, m.faces)
    ensures r.Success? ==> r.value.normals == m.normals && r.value.name == m.name
    ensures r.Success? ==> |r.value.faces| == |m.faces| && |r.value.vertices| <= |m.vertices|
  {
    if tolerance == 0.0 then Failure("float division by zero")
    else if !IndicesInRange(|m.vertices|, m.faces) then Failure("index out of bounds")
    else
      var scale := 1.0 / tolerance;
      var ks := Keys(round, scale, m.vertices);
      var u := Unique(ks);
      var reps := seq(|u|, r requires 0 <= r < |u| => m.vertices[FirstIndex(ks, u[r])]);
      var inverse := seq(|ks|, i requires 0 <= i < |ks| => Position(u, ks[i]));
      assert forall i, j :: 0 <= i < |m.faces| && 0 <= j < 3 ==> m.faces[i].Corner(j) < |inverse|;
      var faces := seq(|m.faces|, f requires 0 <= f < |m.faces| => Remap(inverse, m.faces[f]));
      Success(StlMesh(reps, faces, m.normals, m.name))
  }

  /** Every rewritten corner names one of the new vertices. */
  lemma WeldInRange(round: real -> int, tolerance: real, m: StlMesh)
    requires Weld(round, tolerance, m).Success?
    ensures var w := Weld(round, tolerance, m).value; IndicesInRange(|w.vertices|, w.faces)
  {
    var w := Weld(round, tolerance, m).value;
    var ks := Keys(round, 1.0 / tolerance, m.vertices);
    var u := Unique(ks);
    assert |w.vertices| == |u|;
    forall f, c | 0 <= f < |w.faces| && 0 <= c < 3 ensures w.faces[f].Corner(c) < |w.vertices| {
      assert w.faces[f].Corner(c) == Position(u, ks[m.faces[f].Corner(c)]);
    }
  }

  /** Each face corner is rewritten to a vertex with the same key as the one it named before. */
  lemma WeldKeepsKeys(round: real -> int, tolerance: real, m: StlMesh, i: nat, j: nat)
    requires Weld(round, tolerance, m).Success? && i < |m.faces| && j < 3
    ensures var w := Weld(round, tolerance, m).value;
      && w.faces[i].Corner(j) < |w.vertices|
      && KeyOf(round, 1.0 / tolerance, w.vertices[w.faces[i].Corner(j)])
         == KeyOf(round, 1.0 / tolerance, m.vertices[m.faces[i].Corner(j)])
  {
    var w := Weld(round, tolerance, m).value;
    var ks := Keys(round, 1.0 / tolerance, m.vertices);
    var u := Unique(ks);
    WeldInRange(round, tolerance, m);
    var old_ := m.faces[i].Corner(j);
    var p := w.faces[i].Corner(j);
    assert p == Position(u, ks[old_]);
    assert w.vertices[p] == m.vertices[FirstIndex(ks, u[p])];
  }

  /** Distinct representatives have distinct keys, and they come in ascending key order. */
  lemma WeldDistinctKeys(round: real -> int, tolerance: real, m: StlMesh, r: nat, s: nat)
    requires Weld(round, tolerance, m).Success?
    requires var w := Weld(round, tolerance, m).value; r < s < |w.vertices|
    ensures var w := Weld(round, tolerance, m).value;
      KeyLt(KeyOf(round, 1.0 / tolerance, w.vertices[r]), KeyOf(round, 1.0 / tolerance, w.vertices[s]))
  {
    var ks := Keys(round, 1.0 / tolerance, m.vertices);
    var u := Unique(ks);
    var w := Weld(round, tolerance, m).value;
    assert w.vertices[r] == m.vertices[FirstIndex(ks, u[r])];
    assert w.vertices[s] == m.vertices[FirstIndex(ks, u[s])];
  }

  /** The keys of the representatives are exactly the sorted distinct keys. */
  lemma RepresentativeKeys(round: real -> int, tolerance: real, m: StlMesh)
    requires Weld(round, tolerance, m).Success?
    ensures Keys(round, 1.0 / tolerance, Weld(round, tolerance, m).value.vertices)
         == Unique(Keys(round, 1.0 / tolerance, m.vertices))
  {
    var ks := Keys(round, 1.0 / tolerance, m.vertices);
    var u := Unique(ks);
    var w := Weld(round, tolerance, m).value;
    forall r | 0 <= r < |u| ensures KeyOf(round, 1.0 / tolerance, w.vertices[r]) == u[r] {
      assert w.vertices[r] == m.vertices[FirstIndex(ks, u[r])];
    }
  }

  /** Inserting a key above every key of the list appends it. */
  lemma InsertGreatest(s: seq<Key>, k: Key)
    requires StrictlySorted(s)
    requires forall x :: x in s ==> KeyLt(x, k)
    ensures Insert(s, k) == s + [k]
    decreases |s|
  {
    if |s| > 0 {
      KeyLtTotal(s[0], k);
      InsertGreatest(s[1..], k);
      assert [s[0]] + (s[1..] + [k]) == s + [k];
    }
  }

  /** The distinct keys of a strictly sorted list are the list itself. */
  lemma {:induction false} UniqueOfSorted(s: seq<Key>)
    requires StrictlySorted(s)
    ensures Unique(s) == s
    decreases |s|
  {
    if |s| > 0 {
      var p := s[..|s| - 1];
      UniqueOfSorted(p);
      assert forall x :: x in p ==> KeyLt(x, s[|s| - 1]);
      InsertGreatest(p, s[|s| - 1]);
      assert p + [s[|s| - 1]] == s;
    }
  }

  /** In a strictly sorted list, the first occurrence of its r-th key is at r. */
  lemma FirstIndexOfSorted(u: seq<Key>, r: nat)
    requires StrictlySorted(u) && r < |u|
    ensures FirstIndex(u, u[r]) == r
  {
  }

  /** A mesh whose vertex keys are already distinct and ascending welds to itself. */
  lemma WeldOfSortedKeys(round: real -> int, tolerance: real, w: StlMesh)
    requires tolerance != 0.0 && IndicesInRange(|w.vertices|, w.faces)
    requires StrictlySorted(Keys(round, 1.0 / tolerance, w.vertices))
    ensures Weld(round, tolerance, w) == Success(w)
  {
    var u := Keys(round, 1.0 / tolerance, w.vertices);
    UniqueOfSorted(u);
    var w2 := Weld(round, tolerance, w).value;
    forall r | 0 <= r < |u| ensures w2.vertices[r] == w.vertices[r] {
      FirstIndexOfSorted(u, r);
    }
    forall f | 0 <= f < |w.faces| ensures w2.faces[f] == w.faces[f] {
      var fc := w.faces[f];
      PositionOfSorted(u, fc.Corner(0));
      PositionOfSorted(u, fc.Corner(1));
      PositionOfSorted(u, fc.Corner(2));
    }
    assert w2.vertices == w.vertices;
    assert w2.faces == w.faces;
  }

  /** Welding the output of a weld again changes nothing. */
  lemma WeldIdempotent(round: real -> int, tolerance: real, m: StlMesh)
    requires Weld(round, tolerance, m).Success?
    ensures Weld(round, tolerance, Weld(round, tolerance, m).value) == Weld(round, tolerance, m)
  {
    var w := Weld(round, tolerance, m).value;
    WeldInRange(round, tolerance, m);
    RepresentativeKeys(round, tolerance, m);
    WeldOfSortedKeys(round, tolerance, w);
  }

  /** A mesh from either decoder welds without error whenever the tolerance is non-zero. */
  lemma WeldLayout(round: real -> int, tolerance: real, m: StlMesh)
    requires tolerance != 0.0
    requires |m.vertices| == 3 * |m.faces| && m.faces == FaceLayout(|m.faces|)
    ensures Weld(round, tolerance, m).Success?
  {
    FaceLayoutInRange(|m.faces|);
  }
}
