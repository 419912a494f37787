/**
 * ASCII STL: the format-detection heuristic that decides between the ASCII and the
 * binary decoder, and the line-by-line decoder (`facet normal` / `vertex` / `endfacet` /
 * `solid`). Decimal-number parsing (`float(...)`) is the parameter `parseFloat`, which
 * answers None where Python raises ValueError.
 */
module StlAscii {
  import opened Wrappers
  import opened Vectors
  import opened StlText
  import opened Mesh

  // ---------------------------------------------------------------------------
  // Format detection
  // ---------------------------------------------------------------------------

  function Prefix(data: seq<byte>, n: nat): seq<byte> {
    if |data| <= n then data else data[..n]
  }

  /** The `f.read(80)` window. */
  function HeaderWindow(data: seq<byte>): seq<byte> { Prefix(data, 80) }

  /** The `f.read(1000)` window, re-read from offset 0. */
  function ContentWindow(data: seq<byte>): seq<byte> { Prefix(data, 1000) }

  /** `_is_ascii`, following its nested try/except structure. */
  function IsAsciiStl(data: seq<byte>): bool {
    match DecodeAscii(HeaderWindow(data))
    case None => false
    case Some(header) =>
      if StartsWith(Lower(Strip(header)), "solid") then
        match DecodeAscii(ContentWindow(data))
        case None => false
        case Some(content) =>
          var lowered := Lower(content);
          Contains(lowered, "facet") || Contains(lowered, "vertex")
      else false
  }

  /** The header window is a prefix of the content window. */
  lemma HeaderInsideContent(data: seq<byte>)
    ensures HeaderWindow(data) == ContentWindow(data)[..|HeaderWindow(data)|]
  {
  }

  /**
   * The heuristic answers True exactly when the first 1000 bytes are ASCII, the stripped
   * and lower-cased first 80 bytes start with "solid", and the lower-cased first 1000
   * bytes contain "facet" or "vertex". A byte of 128 or more in either window gives False.
   */
  lemma IsAsciiStlIff(data: seq<byte>)
    ensures IsAsciiStl(data) <==>
      && AllAscii(ContentWindow(data))
      && StartsWith(Lower(Strip(DecodeIgnore(HeaderWindow(data)))), "solid")
      && (Contains(Lower(DecodeIgnore(ContentWindow(data))), "facet")
          || Contains(Lower(DecodeIgnore(ContentWindow(data))), "vertex"))
    ensures !AllAscii(HeaderWindow(data)) ==> !IsAsciiStl(data)
  {
    var h, c := HeaderWindow(data), ContentWindow(data);
    HeaderInsideContent(data);
    if AllAscii(c) {
      assert AllAscii(h);
      DecodeIgnoreOfAscii(h);
      DecodeIgnoreOfAscii(c);
    }
  }

  /** On ASCII bytes, decoding with errors ignored is the strict decoding. */
  lemma DecodeIgnoreOfAscii(bs: seq<byte>)
    requires AllAscii(bs)
    ensures DecodeAscii(bs) == Some(DecodeIgnore(bs))
  {
    assert DecodeAscii(bs).value == DecodeIgnore(bs);
  }

  /** Only the first 1000 bytes take part in the decision. */
  lemma IsAsciiStlLocal(data: seq<byte>, rest: seq<byte>)
    requires |data| >= 1000
    ensures IsAsciiStl(data + rest) == IsAsciiStl(data)
  {
    assert HeaderWindow(data + rest) == HeaderWindow(data);
    assert ContentWindow(data + rest) == ContentWindow(data);
  }

  // ---------------------------------------------------------------------------
  // The line state machine
  // ---------------------------------------------------------------------------

  /** The local variables of `_parse_ascii`'s loop. */
  datatype AsciiState = AsciiState(
    triangles: seq<seq<Vec3>>,
    normals: seq<Vec3>,
    currentNormal: Option<Vec3>,
    currentVertices: seq<Vec3>,
    name: string)

  function Initial(stem: string): AsciiState {
    AsciiState([], [], None, [], stem)
  }

  /** Three `float(...)` conversions; the first failure raises. */
  function ParseVec(parseFloat: string -> Option<real>, a: string, b: string, c: string): (r: Option<Vec3>)
    ensures r.Some? <==> parseFloat(a).Some? && parseFloat(b).Some? && parseFloat(c).Some?
  {
    match parseFloat(a)
    case None => None
    case Some(x) =>
      match parseFloat(b)
      case None => None
      case Some(y) =>
        match parseFloat(c)
        case None => None
        case Some(z) => Some(Vec3(x, y, z))
  }

  /** Tokens of a line as the loop computes them: `line.strip().split()`. */
  function LineParts(line: string): seq<string> {
    Tokens(Strip(line))
  }

  /** One iteration of the loop over the lines. */
  function Step(parseFloat: string -> Option<real>, st: AsciiState, line: string): Result<AsciiState> {
    StepParts(parseFloat, st, LineParts(line))
  }

  /** The loop body once the line is split into `parts`. */
  function StepParts(parseFloat: string -> Option<real>, st: AsciiState, parts: seq<string>): Result<AsciiState> {
    if |parts| == 0 then Success(st)
    else
      var keyword := Lower(parts[0]);
      if keyword == "facet" && |parts| >= 5 && Lower(parts[1]) == "normal" then
        match ParseVec(parseFloat, parts[2], parts[3], parts[4])
        case None => Failure("could not convert string to float")
        case Some(n) => Success(st.(currentNormal := Some(n)))
      else if keyword == "vertex" && |parts| >= 4 then
        match ParseVec(parseFloat, parts[1], parts[2], parts[3])
        case None => Failure("could not convert string to float")
        case Some(v) => Success(st.(currentVertices := st.currentVertices + [v]))
      else if keyword == "endfacet" then
        var emitted :=
          if |st.currentVertices| == 3 && st.currentNormal.Some? then
            st.(triangles := st.triangles + [st.currentVertices],
                normals := st.normals + [st.currentNormal.value])
          else st;
        Success(emitted.(currentVertices := [], currentNormal := None))
      else if keyword == "solid" && |parts| > 1 then
        Success(st.(name := Join(parts[1..], " ")))
      else Success(st)
  }

  /** The loop over the first lines, stopping at the first exception. */
  function Run(parseFloat: string -> Option<real>, st: AsciiState, lines: seq<string>): Result<AsciiState>
    decreases |lines|
  {
    if |lines| == 0 then Success(st)
    else
      match Run(parseFloat, st, lines[..|lines| - 1])
      case Failure(e) => Failure(e)
      case Success(s) => Step(parseFloat, s, lines[|lines| - 1])
  }

  /** `content.strip().split("\n")`. */
  function Lines(content: string): seq<string> {
    SplitOn(Strip(content), '\n')
  }

  /** `triangles.reshape(-1, 3)`: the triangles' vertices, in order. */
  function Flatten(tris: seq<seq<Vec3>>): seq<Vec3>
    decreases |tris|
  {
    if |tris| == 0 then [] else Flatten(tris[..|tris| - 1]) + tris[|tris| - 1]
  }

  predicate AllTriples(tris: seq<seq<Vec3>>) {
    forall i :: 0 <= i < |tris| ==> |tris[i]| == 3
  }

  lemma {:induction false} FlattenTriples(tris: seq<seq<Vec3>>)
    requires AllTriples(tris)
    ensures |Flatten(tris)| == 3 * |tris|
    ensures forall i, j :: 0 <= i < |tris| && 0 <= j < 3 ==> Flatten(tris)[3 * i + j] == tris[i][j]
    decreases |tris|
  {
    if |tris| > 0 {
      var p := tris[..|tris| - 1];
      assert AllTriples(p) by {
        forall i | 0 <= i < |p| ensures |p[i]| == 3 {
          assert p[i] == tris[i];
        }
      }
      FlattenTriples(p);
      forall i, j | 0 <= i < |tris| && 0 <= j < 3
        ensures Flatten(tris)[3 * i + j] == tris[i][j]
      {
        if i < |p| {
          assert Flatten(tris)[3 * i + j] == Flatten(p)[3 * i + j];
          assert tris[i] == p[i];
        }
      }
    }
  }

  function MeshOf(st: AsciiState): StlMesh {
    StlMesh(Flatten(st.triangles), FaceLayout(|st.triangles|), st.normals, st.name)
  }

  /** `_parse_ascii`: the whole file must decode as ASCII, then the line loop runs. */
  function AsciiDecode(parseFloat: string -> Option<real>, data: seq<byte>, stem: string): Result<StlMesh> {
    match DecodeAscii(data)
    case None => Failure("'ascii' codec can't decode byte")
    case Some(content) =>
      match Run(parseFloat, Initial(stem), Lines(content))
      case Failure(e) => Failure(e)
      case Success(st) => Success(MeshOf(st))
  }

  // ---------------------------------------------------------------------------
  // The decoder as the loop the source runs
  // ---------------------------------------------------------------------------

  /** Running one more line is one more step. */
  lemma RunSnoc(parseFloat: string -> Option<real>, st: AsciiState, lines: seq<string>, i: nat)
    requires i < |lines|
    ensures Run(parseFloat, st, lines[..i + 1]) ==
      match Run(parseFloat, st, lines[..i])
      case Failure(e) => Failure(e)
      case Success(s) => Step(parseFloat, s, lines[i])
  {
    assert lines[..i + 1][..i] == lines[..i];
  }

  /** Once a line raises, the loop's outcome is that exception. */
  lemma {:induction false} RunFailureSticks(parseFloat: string -> Option<real>, st: AsciiState, lines: seq<string>, k: nat)
    requires k <= |lines|
    requires Run(parseFloat, st, lines[..k]).Failure?
    ensures Run(parseFloat, st, lines) == Run(parseFloat, st, lines[..k])
    decreases |lines| - k
  {
    if k == |lines| {
      assert lines[..k] == lines;
    } else {
      RunSnoc(parseFloat, st, lines, k);
      RunFailureSticks(parseFloat, st, lines, k + 1);
    }
  }

  method ParseAscii(parseFloat: string -> Option<real>, data: seq<byte>, stem: string) returns (r: Result<StlMesh>)
    ensures r == AsciiDecode(parseFloat, data, stem)
  {
    var decoded := DecodeAscii(data);
    if decoded.None? {
      return Failure("'ascii' codec can't decode byte");
    }
    var lines := Lines(decoded.value);
    var triangles: seq<seq<Vec3>> := [];
    var normals: seq<Vec3> := [];
    var currentNormal: Option<Vec3> := None;
    var currentVertices: seq<Vec3> := [];
    var name := stem;
    var i := 0;
    while i < |lines|
      invariant 0 <= i <= |lines|
      invariant Run(parseFloat, Initial(stem), lines[..i]) ==
        Success(AsciiState(triangles, normals, currentNormal, currentVertices, name))
    {
      var line := lines[i];
      ghost var before := AsciiState(triangles, normals, currentNormal, currentVertices, name);
      RunSnoc(parseFloat, Initial(stem), lines, i);
      var parts := Tokens(Strip(line));
      if |parts| == 0 {
        i := i + 1;
        continue;
      }
      var keyword := Lower(parts[0]);
      if keyword == "facet" && |parts| >= 5 && Lower(parts[1]) == "normal" {
        var n := ParseVec(parseFloat, parts[2], parts[3], parts[4]);
        if n.None? {
          RunFailureSticks(parseFloat, Initial(stem), lines, i + 1);
          return Failure("could not convert string to float");
        }
        currentNormal := n;
      } else if keyword == "vertex" && |parts| >= 4 {
        var v := ParseVec(parseFloat, parts[1], parts[2], parts[3]);
        if v.None? {
          RunFailureSticks(parseFloat, Initial(stem), lines, i + 1);
          return Failure("could not convert string to float");
        }
        currentVertices := currentVertices + [v.value];
      } else if keyword == "endfacet" {
        if |currentVertices| == 3 && currentNormal.Some? {
          triangles := triangles + [currentVertices];
          normals := normals + [currentNormal.value];
        }
        currentVertices := [];
        currentNormal := None;
      } else if keyword == "solid" && |parts| > 1 {
        name := Join(parts[1..], " ");
      }
      i := i + 1;
    }
    assert lines[..i] == lines;
    r := Success(MeshOf(AsciiState(triangles, normals, currentNormal, currentVertices, name)));
  }

  // ---------------------------------------------------------------------------
  // Properties of the decoder
  // ---------------------------------------------------------------------------

  /** Every emitted triangle has three vertices and comes with one normal. */
  predicate Consistent(st: AsciiState) {
    |st.triangles| == |st.normals| && AllTriples(st.triangles)
  }

  lemma StepConsistent(parseFloat: string -> Option<real>, st: AsciiState, line: string)
    requires Consistent(st)
    ensures Step(parseFloat, st, line).Success? ==> Consistent(Step(parseFloat, st, line).value)
  {
    StepPartsConsistent(parseFloat, st, LineParts(line));
  }

  lemma StepPartsConsistent(parseFloat: string -> Option<real>, st: AsciiState, parts: seq<string>)
    requires Consistent(st)
    ensures StepParts(parseFloat, st, parts).Success? ==> Consistent(StepParts(parseFloat, st, parts).value)
  {
    if |parts| > 0 {
      var keyword := Lower(parts[0]);
      if keyword == "facet" && |parts| >= 5 && Lower(parts[1]) == "normal" {
      } else if keyword == "vertex" && |parts| >= 4 {
      } else if keyword == "endfacet" {
        if |st.currentVertices| == 3 && st.currentNormal.Some? {
          TriplesAppend(st.triangles, st.currentVertices);
        }
      }
    }
  }

  lemma TriplesAppend(tris: seq<seq<Vec3>>, t: seq<Vec3>)
    requires AllTriples(tris) && |t| == 3
    ensures AllTriples(tris + [t])
  {
    forall i | 0 <= i < |tris| + 1 ensures |(tris + [t])[i]| == 3 {
      if i < |tris| {
        assert (tris + [t])[i] == tris[i];
      }
    }
  }

  lemma {:induction false} RunConsistent(parseFloat: string -> Option<real>, st: AsciiState, lines: seq<string>)
    requires Consistent(st)
    ensures Run(parseFloat, st, lines).Success? ==> Consistent(Run(parseFloat, st, lines).value)
    decreases |lines|
  {
    if |lines| > 0 {
      RunConsistent(parseFloat, st, lines[..|lines| - 1]);
      var prev := Run(parseFloat, st, lines[..|lines| - 1]);
      if prev.Success? {
        StepConsistent(parseFloat, prev.value, lines[|lines| - 1]);
      }
    }
  }

  /**
   * The decoded mesh has n normals, 3n vertices and the standard face layout, so every
   * face index names a vertex.
   */
  lemma AsciiLayout(parseFloat: string -> Option<real>, data: seq<byte>, stem: string)
    requires AsciiDecode(parseFloat, data, stem).Success?
    ensures var m := AsciiDecode(parseFloat, data, stem).value;
      && |m.vertices| == 3 * |m.normals|
      && m.faces == FaceLayout(|m.normals|)
      && IndicesInRange(|m.vertices|, m.faces)
  {
    var content := DecodeAscii(data).value;
    RunConsistent(parseFloat, Initial(stem), Lines(content));
    var st := Run(parseFloat, Initial(stem), Lines(content)).value;
    FlattenTriples(st.triangles);
    FaceLayoutInRange(|st.triangles|);
  }

  /** A file with a byte of 128 or more anywhere is rejected by the ASCII decoder. */
  lemma AsciiDecodeRejectsHighBytes(parseFloat: string -> Option<real>, data: seq<byte>, stem: string, i: nat)
    requires i < |data| && data[i] >= 128
    ensures AsciiDecode(parseFloat, data, stem).Failure?
  {
  }

  /** A line whose first token is `endfacet`, in any letter case. */
  predicate IsEndfacetLine(line: string) {
    |LineParts(line)| >= 1 && Lower(LineParts(line)[0]) == "endfacet"
  }

  /** A `facet normal x y z` line whose three numbers parse to `n`. */
  predicate IsFacetLine(parseFloat: string -> Option<real>, line: string, n: Vec3) {
    var p := LineParts(line);
    |p| >= 5 && Lower(p[0]) == "facet" && Lower(p[1]) == "normal" && ParseVec(parseFloat, p[2], p[3], p[4]) == Some(n)
  }

  /** A `vertex x y z` line whose three numbers parse to `v`. */
  predicate IsVertexLine(parseFloat: string -> Option<real>, line: string, v: Vec3) {
    var p := LineParts(line);
    |p| >= 4 && Lower(p[0]) == "vertex" && ParseVec(parseFloat, p[1], p[2], p[3]) == Some(v)
  }

  /** `endfacet` always clears the pending vertices and the pending normal, and emits a
      triangle exactly when three vertices and a normal are pending. */
  lemma EndfacetStep(parseFloat: string -> Option<real>, st: AsciiState, line: string)
    requires IsEndfacetLine(line)
    ensures var r := Step(parseFloat, st, line);
      && r.Success?
      && r.value.currentVertices == [] && r.value.currentNormal == None
      && r.value.name == st.name
      && (if |st.currentVertices| == 3 && st.currentNormal.Some? then
            r.value.triangles == st.triangles + [st.currentVertices]
            && r.value.normals == st.normals + [st.currentNormal.value]
          else r.value.triangles == st.triangles && r.value.normals == st.normals)
  {
    var k := Lower(LineParts(line)[0]);
    assert k != "facet" by { assert k[1] != "facet"[1]; }
    assert k != "vertex" by { assert k[0] != "vertex"[0]; }
  }

  /** Only `endfacet` lines emit triangles: any other line leaves triangles, normals unchanged. */
  lemma OnlyEndfacetEmits(parseFloat: string -> Option<real>, st: AsciiState, line: string)
    requires !IsEndfacetLine(line)
    requires Step(parseFloat, st, line).Success?
    ensures Step(parseFloat, st, line).value.triangles == st.triangles
    ensures Step(parseFloat, st, line).value.normals == st.normals
  {
  }

  /** Running the vertex lines of a block appends their vertices to the pending ones. */
  lemma RunVertexLines(parseFloat: string -> Option<real>, st: AsciiState, lines: seq<string>, vs: seq<Vec3>)
    requires AllVertexLines(parseFloat, lines, vs)
    ensures Run(parseFloat, st, lines) == Success(st.(currentVertices := st.currentVertices + vs))
  {
    RunVertexPrefix(parseFloat, st, lines, vs, |lines|);
    assert lines[..|lines|] == lines && vs[..|vs|] == vs;
  }

  /** Each line is a vertex line for the matching vertex. */
  predicate AllVertexLines(parseFloat: string -> Option<real>, lines: seq<string>, vs: seq<Vec3>) {
    |lines| == |vs| && forall k :: 0 <= k < |lines| ==> IsVertexLine(parseFloat, lines[k], vs[k])
  }

  /** The first n vertex lines append the first n vertices. */
  lemma {:induction false} RunVertexPrefix(parseFloat: string -> Option<real>, st: AsciiState,
                                           lines: seq<string>, vs: seq<Vec3>, n: nat)
    requires AllVertexLines(parseFloat, lines, vs) && n <= |lines|
    ensures Run(parseFloat, st, lines[..n]) == Success(st.(currentVertices := st.currentVertices + vs[..n]))
    decreases n
  {
    if n == 0 {
      assert lines[..0] == [] && st.currentVertices + vs[..0] == st.currentVertices;
    } else {
      RunVertexPrefix(parseFloat, st, lines, vs, n - 1);
      RunSnoc(parseFloat, st, lines, n - 1);
      var mid := st.(currentVertices := st.currentVertices + vs[..n - 1]);
      VertexStep(parseFloat, mid, lines[n - 1], vs[n - 1]);
      AppendTake(st.currentVertices, vs, n);
    }
  }

  lemma AppendTake<T>(a: seq<T>, s: seq<T>, n: nat)
    requires 0 < n <= |s|
    ensures a + s[..n] == (a + s[..n - 1]) + [s[n - 1]]
  {
    assert s[..n] == s[..n - 1] + [s[n - 1]];
  }

  /** A vertex line appends its vertex to the pending ones and changes nothing else. */
  lemma VertexStep(parseFloat: string -> Option<real>, st: AsciiState, line: string, v: Vec3)
    requires IsVertexLine(parseFloat, line, v)
    ensures Step(parseFloat, st, line) == Success(st.(currentVertices := st.currentVertices + [v]))
  {
    var p := LineParts(line);
    assert Lower(p[0]) != "facet" by { assert Lower(p[0])[0] != "facet"[0]; }
  }

  lemma RunAppend(parseFloat: string -> Option<real>, st: AsciiState, a: seq<string>, b: seq<string>)
    ensures Run(parseFloat, st, a + b) ==
      match Run(parseFloat, st, a)
      case Failure(e) => Failure(e)
      case Success(s) => Run(parseFloat, s, b)
    decreases |b|
  {
    if |b| == 0 {
      assert a + b == a;
    } else {
      assert (a + b)[..|a + b| - 1] == a + b[..|b| - 1];
      assert (a + b)[|a + b| - 1] == b[|b| - 1];
      RunAppend(parseFloat, st, a, b[..|b| - 1]);
    }
  }

  /**
   * A facet block read from a state with nothing pending (the start of the file, or just
   * after an `endfacet`): `facet normal`, k vertex lines, `endfacet`. It emits one triangle
   * with that normal when k is 3, and nothing when k is any other number; either way it
   * leaves nothing pending.
   */
  lemma FacetBlock(parseFloat: string -> Option<real>, st: AsciiState, facet: string, n: Vec3,
                   vertexLines: seq<string>, vs: seq<Vec3>, endfacet: string)
    requires st.currentVertices == []
    requires IsFacetLine(parseFloat, facet, n)
    requires |vertexLines| == |vs|
    requires forall k :: 0 <= k < |vertexLines| ==> IsVertexLine(parseFloat, vertexLines[k], vs[k])
    requires IsEndfacetLine(endfacet)
    ensures var r := Run(parseFloat, st, [facet] + vertexLines + [endfacet]);
      && r.Success?
      && r.value.currentVertices == [] && r.value.currentNormal == None
      && r.value.name == st.name
      && (if |vs| == 3 then r.value.triangles == st.triangles + [vs] && r.value.normals == st.normals + [n]
          else r.value.triangles == st.triangles && r.value.normals == st.normals)
  {
    var afterFacet := st.(currentNormal := Some(n));
    assert Run(parseFloat, st, [facet]) == Success(afterFacet) by {
      assert [facet][..0] == [];
    }
    RunVertexLines(parseFloat, afterFacet, vertexLines, vs);
    var afterVertices := afterFacet.(currentVertices := vs);
    assert afterFacet.currentVertices + vs == vs;
    RunAppend(parseFloat, st, [facet], vertexLines);
    RunAppend(parseFloat, st, [facet] + vertexLines, [endfacet]);
    assert Run(parseFloat, afterVertices, [endfacet]) == Step(parseFloat, afterVertices, endfacet) by {
      assert [endfacet][..0] == [];
    }
    EndfacetStep(parseFloat, afterVertices, endfacet);
  }

  // ---------------------------------------------------------------------------
  // The mesh name
  // ---------------------------------------------------------------------------

  /** A `solid` line with at least one argument. */
  predicate IsNamingLine(line: string) {
    var p := LineParts(line);
    |p| > 1 && Lower(p[0]) == "solid"
  }

  /** Reference definition: the arguments of the last naming line, else the file stem. */
  function LastSolidName(lines: seq<string>, stem: string): string
    decreases |lines|
  {
    if |lines| == 0 then stem
    else
      var last := lines[|lines| - 1];
      if IsNamingLine(last) then Join(LineParts(last)[1..], " ")
      else LastSolidName(lines[..|lines| - 1], stem)
  }

  lemma StepName(parseFloat: string -> Option<real>, st: AsciiState, line: string)
    requires Step(parseFloat, st, line).Success?
    ensures Step(parseFloat, st, line).value.name ==
      if IsNamingLine(line) then Join(LineParts(line)[1..], " ") else st.name
  {
    var p := LineParts(line);
    if |p| > 0 {
      var k := Lower(p[0]);
      if k == "solid" {
        assert k != "facet" && k != "vertex" && k != "endfacet" by {
          assert k[0] != "facet"[0] && k[0] != "vertex"[0] && k[0] != "endfacet"[0];
        }
      }
    }
  }

  /** The name after the loop is the one the last naming line gives, else the file stem. */
  lemma {:induction false} RunName(parseFloat: string -> Option<real>, stem: string, lines: seq<string>)
    requires Run(parseFloat, Initial(stem), lines).Success?
    ensures Run(parseFloat, Initial(stem), lines).value.name == LastSolidName(lines, stem)
    decreases |lines|
  {
    if |lines| > 0 {
      var init := lines[..|lines| - 1];
      RunName(parseFloat, stem, init);
      StepName(parseFloat, Run(parseFloat, Initial(stem), init).value, lines[|lines| - 1]);
    }
  }

  /** The name a `solid` line sets splits back into the line's arguments. */
  lemma NameTokens(line: string)
    requires IsNamingLine(line)
    ensures Tokens(Join(LineParts(line)[1..], " ")) == LineParts(line)[1..]
  {
    TokensOfJoin(LineParts(line)[1..]);
  }
}
