# STL-to-CAD core and KCL version store, modelled in Dafny

This project models the algorithmic core of the STL-to-CAD converter, plus the in-memory KCL version store of the drawing-to-KCL backend. The converter reads an STL mesh, optionally welds duplicate vertices, and recognises planes, cylinders, spheres, cones and tori by RANSAC. It fits NURBS surfaces and B-spline curves to what remains. The model keeps the discrete, sequential logic of these steps and proves what it promises. The numerical library calls and the random sampler are parameters, each with the law the model relies on stated as a predicate.

Modules, one per file:

- `Wrappers` (wrappers.dfy): `Option` and `Result`. A `Failure` stands for a Python exception.
- `Vectors` (vectors.dfy): `Vec3` and the vector algebra. It also holds the numpy reductions (sum, mean, minimum, maximum) and `RealMath`, the square root, cosine, tangent and arc cosine supplied as parameters.
- `Config` (config.dfy): the configuration records with their defaults, and the `high_precision` and `fast` presets.
- `Mesh` (mesh.dfy): `STLMesh`, covering bounds, centre, size and per-vertex normals. `ComputeVertexNormals` is a nested accumulation loop.
- `StlText` (stl_text.dfy): the Python `bytes`/`str` operations the decoders use.
- `StlAscii` (stl_ascii.dfy): the ASCII/binary detection heuristic and the ASCII line state machine.
- `StlBinary` (stl_binary.dfy): the fixed-offset binary layout and the record loop that fills the arrays.
- `Welding` (welding.dfy): the duplicate-vertex merge, a remap through sorted rounded keys.
- `StlParser` (stl_parser.dfy): `parse`, which puts detection, decoding and merging together.
- `Primitives` (primitives.dfy): the five feature primitives, with their distances, the plane projection and the cone base radius.
- `Ransac` (ransac.dfy): the best-of-N bookkeeping. Only a strictly larger inlier count replaces the best.
- `RansacGeometry` (ransac_geometry.dfy): the recogniser's geometry:
  - centroids, inlier masks and vectorised distances;
  - the four-point sphere system and the cone apex system;
  - the torus estimate;
  - plane refinement and bounds, and cylinder refinement.
- `Recognizer` (recognizer.dfy): the per-type detectors and the greedy `recognize` loop over a shrinking set of remaining faces.
- `SurfaceFitting` (surface_fitter.dfy): parameterisation, grid sizing, clamped knot vectors, fit results and errors, grid evaluation, and `fit_with_refinement` on a `SurfaceFitter` class whose configuration it mutates.
- `BSplineCurves` (bspline_curve.dfy): the default knot vector of `BSplineCurve`, and `fit_to_points` with chord-length parameters.
- `KclStorage` (storage.dfy): `InMemoryKclStorage` as a class with a counter, a map and an order list. A ghost list of the saved codes states its contract.

Parameters stand for everything the model does not compute itself:

- `RealMath`: `norm`, `sqrt`, `tan`, `cos` and `arccos`. `SqrtLaw` states the square-root law where a proof needs it.
- `Solvers` and `FitOracles`: SVD, `np.linalg.solve`, `least_squares`, `np.percentile`, `griddata` and spline evaluation.
- `rng(call, trial, n, k)`: the index tuples `np.random.choice` draws.
- `parseFloat` and `f32`: decimal and float32 decoding.
- An abstract rounding-key function for the welding step.

## Model

| member | source | states |
|---|---|---|
| StlText.DecodeAscii | stl-to-cad/src/stl_to_cad/parsers/stl_parser.py:111 | strict ASCII decoding succeeds exactly when every byte is below 128, and then yields one character per byte with the same code |
| StlText.DecodeIgnore | stl-to-cad/src/stl_to_cad/parsers/stl_parser.py:182 | decoding with errors ignored never fails, keeps only characters below 128, and on all-ASCII input equals the strict decoding |
| StlText.RStripNul | stl-to-cad/src/stl_to_cad/parsers/stl_parser.py:182 | stripping trailing NULs yields a prefix that does not end in NUL, and every removed byte was NUL |
| StlText.Lower | stl-to-cad/src/stl_to_cad/parsers/stl_parser.py:111 | lower-casing keeps the length and maps each character independently |
| StlText.LStrip | stl-to-cad/src/stl_to_cad/parsers/stl_parser.py:137 | left-stripping removes exactly a whitespace prefix and leaves a string that does not start with whitespace |
| StlText.RStrip | stl-to-cad/src/stl_to_cad/parsers/stl_parser.py:137 | right-stripping removes exactly a whitespace suffix and leaves a string that does not end with whitespace |
| StlText.Strip | stl-to-cad/src/stl_to_cad/parsers/stl_parser.py:111 | a non-empty stripped string begins and ends with a non-whitespace character |
| StlText.SplitOn | stl-to-cad/src/stl_to_cad/parsers/stl_parser.py:129 | splitting on a one-character separator always gives at least one piece and no piece contains the separator |
| StlText.JoinSplitOn | stl-to-cad/src/stl_to_cad/parsers/stl_parser.py:129 | joining the pieces of a split on the separator rebuilds the original text |
| StlText.Word | stl-to-cad/src/stl_to_cad/parsers/stl_parser.py:137 | the first word is the longest whitespace-free prefix: it contains no whitespace and is followed by whitespace or the end |
| StlText.Tokens | stl-to-cad/src/stl_to_cad/parsers/stl_parser.py:137 | whitespace splitting yields only non-empty, whitespace-free tokens |
| StlText.WordOfToken | stl-to-cad/src/stl_to_cad/parsers/stl_parser.py:137 | a token followed by whitespace or the end is read back as the first word |
| StlText.TokensAfterSpace | stl-to-cad/src/stl_to_cad/parsers/stl_parser.py:137 | leading whitespace does not change the tokens |
| StlText.TokensOfJoin | stl-to-cad/src/stl_to_cad/parsers/stl_parser.py:158 | splitting the single-space join of tokens gives the tokens back, so the name a solid line sets splits into its words |
| StlText.TokensNoSpace | stl-to-cad/src/stl_to_cad/parsers/stl_parser.py:137 | whitespace-free text is one token, or none when empty |
| StlText.TokensLStrip | stl-to-cad/src/stl_to_cad/parsers/stl_parser.py:137 | stripping before splitting does not change the tokens |
| StlAscii.HeaderInsideContent | stl-to-cad/src/stl_to_cad/parsers/stl_parser.py:106-114 | the 80-byte header window is a prefix of the 1000-byte content window, both read from offset 0 |
| StlAscii.IsAsciiStlIff | stl-to-cad/src/stl_to_cad/parsers/stl_parser.py:104-124 | the detector answers true exactly when the 1000-byte window is ASCII, the stripped lower-cased header starts with "solid", and the lower-cased window contains "facet" or "vertex"; a non-ASCII header gives false |
| StlAscii.DecodeIgnoreOfAscii | stl-to-cad/src/stl_to_cad/parsers/stl_parser.py:111-117 | on ASCII bytes the two decodings agree |
| StlAscii.IsAsciiStlLocal | stl-to-cad/src/stl_to_cad/parsers/stl_parser.py:106-114 | bytes after the first 1000 never change the format decision |
| StlAscii.ParseVec | stl-to-cad/src/stl_to_cad/parsers/stl_parser.py:144-147 | three float conversions succeed exactly when each of the three does; any failure raises |
| StlAscii.FlattenTriples | stl-to-cad/src/stl_to_cad/parsers/stl_parser.py:160-165 | flattening n triangles gives 3n vertices, with corner j of triangle i at index 3i+j |
| StlAscii.RunSnoc | stl-to-cad/src/stl_to_cad/parsers/stl_parser.py:136 | running one more line is one more step of the loop, and an earlier exception propagates |
| StlAscii.RunFailureSticks | stl-to-cad/src/stl_to_cad/parsers/stl_parser.py:136-158 | once a line raises, the outcome of the whole loop is that exception |
| StlAscii.ParseAscii | stl-to-cad/src/stl_to_cad/parsers/stl_parser.py:126-173 | the imperative line loop returns exactly the functional decoding of the file |
| StlAscii.StepConsistent | stl-to-cad/src/stl_to_cad/parsers/stl_parser.py:141-158 | one line keeps the invariant that every stored triangle has three vertices and there is one normal per triangle |
| StlAscii.StepPartsConsistent | stl-to-cad/src/stl_to_cad/parsers/stl_parser.py:141-158 | the same invariant for one line's tokens |
| StlAscii.TriplesAppend | stl-to-cad/src/stl_to_cad/parsers/stl_parser.py:152 | appending a three-vertex triangle keeps every triangle a triple |
| StlAscii.RunConsistent | stl-to-cad/src/stl_to_cad/parsers/stl_parser.py:136-158 | the whole loop keeps the triangle/normal invariant |
| StlAscii.AsciiLayout | stl-to-cad/src/stl_to_cad/parsers/stl_parser.py:160-166 | a decoded ASCII mesh has n normals, 3n vertices and faces [3i, 3i+1, 3i+2], so every face index is in range |
| StlAscii.AsciiDecodeRejectsHighBytes | stl-to-cad/src/stl_to_cad/parsers/stl_parser.py:128 | any byte of 128 or more anywhere in the file makes the ASCII decoder raise |
| StlAscii.EndfacetStep | stl-to-cad/src/stl_to_cad/parsers/stl_parser.py:150-155 | an endfacet line emits the pending triangle and normal exactly when three vertices and a normal are pending, and always resets both |
| StlAscii.OnlyEndfacetEmits | stl-to-cad/src/stl_to_cad/parsers/stl_parser.py:143-158 | every line other than endfacet leaves the triangles and normals unchanged |
| StlAscii.RunVertexLines | stl-to-cad/src/stl_to_cad/parsers/stl_parser.py:146-148 | a run of vertex lines appends their vertices, in order, to the pending ones |
| StlAscii.RunVertexPrefix | stl-to-cad/src/stl_to_cad/parsers/stl_parser.py:146-148 | the first n vertex lines of a block append exactly the first n vertices to the pending ones and change nothing else |
| StlAscii.VertexStep | stl-to-cad/src/stl_to_cad/parsers/stl_parser.py:146-148 | a vertex line with at least four tokens appends its vertex and changes nothing else |
| StlAscii.RunAppend | stl-to-cad/src/stl_to_cad/parsers/stl_parser.py:136 | running two blocks of lines is running the second from where the first ended, unless the first raised |
| StlAscii.FacetBlock | stl-to-cad/src/stl_to_cad/parsers/stl_parser.py:143-155 | a facet/vertex.../endfacet block read with nothing pending emits its triangle and normal when it has exactly 3 vertices and nothing otherwise (2 or 4 are dropped), leaving nothing pending and the name unchanged |
| StlAscii.StepName | stl-to-cad/src/stl_to_cad/parsers/stl_parser.py:157-158 | a solid line with arguments sets the name to its arguments joined by single spaces; every other line keeps the name |
| StlAscii.RunName | stl-to-cad/src/stl_to_cad/parsers/stl_parser.py:95-158 | after the loop the name is the one given by the last naming solid line, or the file stem when there is none |
| StlAscii.NameTokens | stl-to-cad/src/stl_to_cad/parsers/stl_parser.py:158 | the name a solid line sets splits back into that line's arguments |
| StlBinary.Le32 | stl-to-cad/src/stl_to_cad/parsers/stl_parser.py:189 | a little-endian uint32 is below 2^32 |
| StlBinary.EncodeLe32 | stl-to-cad/src/stl_to_cad/parsers/stl_parser.py:189 | a count encodes as four bytes |
| StlBinary.Le32RoundTrip | stl-to-cad/src/stl_to_cad/parsers/stl_parser.py:189 | reading the four encoded bytes back gives the count |
| StlBinary.HeaderName | stl-to-cad/src/stl_to_cad/parsers/stl_parser.py:182-184 | the name is the stem, or a non-empty header string that starts and ends with a non-whitespace character |
| StlBinary.RecordInFile | stl-to-cad/src/stl_to_cad/parsers/stl_parser.py:197-205 | in a file long enough for its count, triangle i's normal and each vertex lie inside the file |
| StlBinary.Vertices | stl-to-cad/src/stl_to_cad/parsers/stl_parser.py:192-205 | the vertex array holds 3 entries per announced triangle |
| StlBinary.Normals | stl-to-cad/src/stl_to_cad/parsers/stl_parser.py:193-200 | the normal array holds one entry per announced triangle |
| StlBinary.BinaryDecode | stl-to-cad/src/stl_to_cad/parsers/stl_parser.py:175-215 | binary decoding succeeds exactly when the file holds the 84-byte prelude and every 12-byte read of every announced record |
| StlBinary.ReadAt | stl-to-cad/src/stl_to_cad/parsers/stl_parser.py:189-204 | a read of k bytes returns at most k bytes, and exactly k exactly when they are all in the file |
| StlBinary.ParseBinary | stl-to-cad/src/stl_to_cad/parsers/stl_parser.py:175-215 | the imperative decoder with preallocated arrays returns exactly the offset-based decoding |
| StlBinary.ReadRecords | stl-to-cad/src/stl_to_cad/parsers/stl_parser.py:197-208 | the record loop succeeds exactly when the file is long enough, and then fills the arrays with the values at the record offsets |
| StlBinary.ReadRecord | stl-to-cad/src/stl_to_cad/parsers/stl_parser.py:198-208 | one record reads the normal at 84+50i and vertex c at 84+50i+12+12c, fails exactly when a 12-byte read is short, and touches no other entry |
| StlBinary.ReadVertices | stl-to-cad/src/stl_to_cad/parsers/stl_parser.py:203-205 | the three vertex reads fill entries 3i..3i+2 from their offsets, fail exactly when the file ends first, and touch no other entry |
| StlBinary.VerticesByOffset | stl-to-cad/src/stl_to_cad/parsers/stl_parser.py:204-205 | an array holding the value at every vertex offset is the decoded vertex array |
| StlBinary.NormalsByOffset | stl-to-cad/src/stl_to_cad/parsers/stl_parser.py:199-200 | an array holding the value at every normal offset is the decoded normal array |
| StlBinary.BinaryLayout | stl-to-cad/src/stl_to_cad/parsers/stl_parser.py:189-194 | a decoded binary mesh has as many normals as the header count, 3n vertices and faces [3i, 3i+1, 3i+2], all in range |
| StlBinary.BinaryVertexOffset | stl-to-cad/src/stl_to_cad/parsers/stl_parser.py:204-205 | vertex j of triangle i is the 12 bytes at 84+50i+12+12j |
| StlBinary.Vec3AtPrefix | stl-to-cad/src/stl_to_cad/parsers/stl_parser.py:199-204 | a value read from a prefix of the file equals the value read from the whole file |
| StlBinary.PrefixSameRecords | stl-to-cad/src/stl_to_cad/parsers/stl_parser.py:197-205 | a long-enough prefix with the same count decodes to the same vertices and normals |
| StlBinary.AttributeBytesUnchecked | stl-to-cad/src/stl_to_cad/parsers/stl_parser.py:208 | the last record's two attribute bytes are never checked: dropping them gives the same result |
| StlBinary.TruncationFails | stl-to-cad/src/stl_to_cad/parsers/stl_parser.py:199-204 | a file one byte short of the end of its last vertex (missing that byte and the two attribute bytes) fails instead of being truncated |
| StlParser.Parse | stl-to-cad/src/stl_to_cad/parsers/stl_parser.py:78-102 | without merging the result is the decoder's; a parsed mesh always comes from a successful decoding |
| StlParser.DecodeLayout | stl-to-cad/src/stl_to_cad/parsers/stl_parser.py:94-194 | whichever decoder the detector picks, the mesh has n faces over 3n vertices in the standard layout and one normal per face |
| StlParser.ParseSucceeds | stl-to-cad/src/stl_to_cad/parsers/stl_parser.py:94-220 | parsing succeeds exactly when decoding succeeds and, with merging on, the tolerance is non-zero; the result keeps one normal per face and every index in range |
| StlParser.ParseMerged | stl-to-cad/src/stl_to_cad/parsers/stl_parser.py:217-236 | with merging on, merging the parsed mesh again changes nothing |
| StlParser.NoBinaryFallback | stl-to-cad/src/stl_to_cad/parsers/stl_parser.py:94-128 | a file detected as ASCII is never retried as binary: a non-ASCII byte anywhere makes the parse fail |
| Welding.KeyLtTotal | stl-to-cad/src/stl_to_cad/parsers/stl_parser.py:224-226 | the lexicographic order on rounded keys is a strict total order |
| Welding.Keys | stl-to-cad/src/stl_to_cad/parsers/stl_parser.py:220-221 | there is one rounded key per vertex, computed from vertex * (1/tolerance) |
| Welding.Insert | stl-to-cad/src/stl_to_cad/parsers/stl_parser.py:224-226 | inserting into a strictly sorted key list keeps it strictly sorted and adds exactly the new key |
| Welding.Unique | stl-to-cad/src/stl_to_cad/parsers/stl_parser.py:224-226 | the unique keys are strictly sorted and are exactly the keys present |
| Welding.FirstIndex | stl-to-cad/src/stl_to_cad/parsers/stl_parser.py:224-226 | the index result names the first vertex with the key |
| Welding.Position | stl-to-cad/src/stl_to_cad/parsers/stl_parser.py:224-226 | the inverse result names the slot of the key among the unique keys |
| Welding.PositionOfSorted | stl-to-cad/src/stl_to_cad/parsers/stl_parser.py:224-226 | in a strictly sorted list a key's position is its index |
| Welding.Weld | stl-to-cad/src/stl_to_cad/parsers/stl_parser.py:217-236 | welding fails exactly on a zero tolerance (division by zero) or an out-of-range face index, and otherwise keeps the normals, the name and the face count and never adds vertices |
| Welding.WeldInRange | stl-to-cad/src/stl_to_cad/parsers/stl_parser.py:228-229 | every rewritten face index names one of the representatives |
| Welding.WeldKeepsKeys | stl-to-cad/src/stl_to_cad/parsers/stl_parser.py:228-229 | each face corner is rewritten to a representative with the same rounded key as its old vertex |
| Welding.WeldDistinctKeys | stl-to-cad/src/stl_to_cad/parsers/stl_parser.py:224-228 | representatives have pairwise distinct keys, in ascending order |
| Welding.RepresentativeKeys | stl-to-cad/src/stl_to_cad/parsers/stl_parser.py:224-228 | the representatives' keys are exactly the sorted distinct keys of the input |
| Welding.InsertGreatest | stl-to-cad/src/stl_to_cad/parsers/stl_parser.py:224-226 | inserting a key above all others appends it |
| Welding.UniqueOfSorted | stl-to-cad/src/stl_to_cad/parsers/stl_parser.py:224-226 | the unique keys of a strictly sorted list are the list itself |
| Welding.FirstIndexOfSorted | stl-to-cad/src/stl_to_cad/parsers/stl_parser.py:224-226 | in a strictly sorted list the first occurrence of the r-th key is at r |
| Welding.WeldOfSortedKeys | stl-to-cad/src/stl_to_cad/parsers/stl_parser.py:217-236 | a mesh whose vertex keys are already distinct and ascending welds to itself |
| Welding.WeldIdempotent | stl-to-cad/src/stl_to_cad/parsers/stl_parser.py:217-236 | welding a welded mesh again changes nothing |
| Welding.WeldLayout | stl-to-cad/src/stl_to_cad/parsers/stl_parser.py:99-194 | a mesh from either decoder always welds when the tolerance is non-zero |
| Mesh.FaceLayout | stl-to-cad/src/stl_to_cad/parsers/stl_parser.py:166-194 | the standard layout has one face [3i, 3i+1, 3i+2] per triangle |
| Mesh.FaceLayoutInRange | stl-to-cad/src/stl_to_cad/parsers/stl_parser.py:166-194 | every index of the standard layout is below 3n |
| Mesh.Column | stl-to-cad/src/stl_to_cad/parsers/stl_parser.py:35 | a column holds one coordinate per vertex |
| Mesh.CornersBound | stl-to-cad/src/stl_to_cad/parsers/stl_parser.py:35 | every vertex lies between the minimum and maximum corners |
| Mesh.CornersAttained | stl-to-cad/src/stl_to_cad/parsers/stl_parser.py:35 | each coordinate of both corners is reached by some vertex |
| Mesh.Bounds | stl-to-cad/src/stl_to_cad/parsers/stl_parser.py:33-35 | bounds fail exactly on an empty mesh, and otherwise every vertex lies componentwise between the two corners |
| Mesh.BoundsTight | stl-to-cad/src/stl_to_cad/parsers/stl_parser.py:33-35 | each face of the bounding box touches a vertex |
| Mesh.Size | stl-to-cad/src/stl_to_cad/parsers/stl_parser.py:43-47 | size is the box extent max - min, non-negative on every axis, and fails only on an empty mesh |
| Mesh.Center | stl-to-cad/src/stl_to_cad/parsers/stl_parser.py:37-41 | the center lies inside the bounding box, and fails only on an empty mesh |
| Mesh.VertexNormals | stl-to-cad/src/stl_to_cad/parsers/stl_parser.py:49-60 | vertex normals are computed exactly when every face index is in range, with one normal per vertex |
| Mesh.ContributionZero | stl-to-cad/src/stl_to_cad/parsers/stl_parser.py:53-54 | a face whose corners do not name a vertex adds nothing to it |
| Mesh.NormalSumIsolated | stl-to-cad/src/stl_to_cad/parsers/stl_parser.py:52-54 | a vertex in no face accumulates the zero vector |
| Mesh.NormalizeZero | stl-to-cad/src/stl_to_cad/parsers/stl_parser.py:57-59 | the zero vector survives normalisation because a zero norm is replaced by 1 |
| Mesh.IsolatedVertexNormal | stl-to-cad/src/stl_to_cad/parsers/stl_parser.py:57-59 | a vertex in no face keeps the zero normal |
| Mesh.VertexNormalIsUnit | stl-to-cad/src/stl_to_cad/parsers/stl_parser.py:52-59 | a vertex whose incident face normals do not cancel gets a unit normal |
| Mesh.ContributionStep | stl-to-cad/src/stl_to_cad/parsers/stl_parser.py:53-54 | one more corner adds the face normal exactly when that corner names the vertex |
| Mesh.AddToCorners | stl-to-cad/src/stl_to_cad/parsers/stl_parser.py:53-54 | the inner loop adds the face normal once per corner naming each vertex, and raises exactly on an out-of-range corner |
| Mesh.AccumulateNormals | stl-to-cad/src/stl_to_cad/parsers/stl_parser.py:51-54 | the outer loop leaves each entry equal to the sum of its incident face normals, and fails exactly when some index is out of range |
| Mesh.NormalizeRows | stl-to-cad/src/stl_to_cad/parsers/stl_parser.py:57-59 | each row is divided by its norm, a zero norm counting as 1 |
| Mesh.ComputeVertexNormals | stl-to-cad/src/stl_to_cad/parsers/stl_parser.py:49-60 | the imperative array loops return exactly the functional vertex normals |
| Primitives.TypeTagMatches | stl-to-cad/src/stl_to_cad/recognition/primitives.py:43-271 | each class's fixed feature type has the same string value as the "type" tag of its dictionary form, and no primitive is freeform |
| Primitives.ProjectOntoPlane | stl-to-cad/src/stl_to_cad/recognition/primitives.py:48-55 | for a unit normal a projected point has plane distance 0, and projecting it again leaves it unchanged |
| Primitives.PlaneDistanceIsGap | stl-to-cad/src/stl_to_cad/recognition/primitives.py:48-55 | for a unit normal the plane distance equals how far projection moves the point |
| Primitives.PerpOrthogonal | stl-to-cad/src/stl_to_cad/recognition/primitives.py:96-101 | for a unit axis the perpendicular component is orthogonal to the axis |
| Primitives.CylinderOnSurface | stl-to-cad/src/stl_to_cad/recognition/primitives.py:93-104 | the cylinder distance is 0 exactly when the perpendicular distance from the axis equals the radius |
| Primitives.SphereOnSurface | stl-to-cad/src/stl_to_cad/recognition/primitives.py:143-145 | the sphere distance is 0 exactly when the distance from the centre equals the radius |
| Primitives.SpherePointOnSurface | stl-to-cad/src/stl_to_cad/recognition/primitives.py:143-145 | moving a non-negative radius along a unit direction from the centre lands on the sphere |
| Primitives.ConeDistance | stl-to-cad/src/stl_to_cad/recognition/primitives.py:181-202 | the cone distance is non-negative whenever cos(half_angle) is |
| Primitives.ConeBehindApex | stl-to-cad/src/stl_to_cad/recognition/primitives.py:188-191 | when the axial projection t is at most 0 the cone distance is the distance to the apex |
| Primitives.ConeOnSurface | stl-to-cad/src/stl_to_cad/recognition/primitives.py:193-202 | in front of the apex, a point whose distance from the axis is t tan(half_angle) has cone distance 0 |
| Primitives.BaseRadius | stl-to-cad/src/stl_to_cad/recognition/primitives.py:174-179 | the base radius is absent exactly when the height is, and otherwise equals height * tan(half_angle) |
| Primitives.DivByNormIsUnit | stl-to-cad/src/stl_to_cad/recognition/primitives.py:261 | dividing a non-zero vector by its norm gives a unit vector |
| Primitives.MajorPointOnCircle | stl-to-cad/src/stl_to_cad/recognition/primitives.py:260-261 | off the axis, the nearest major-circle point lies at distance abs(R) from the centre |
| Primitives.MajorPointInPlane | stl-to-cad/src/stl_to_cad/recognition/primitives.py:249-261 | for a unit axis the major-circle point lies in the plane through the centre perpendicular to the axis |
| Primitives.TorusOnAxis | stl-to-cad/src/stl_to_cad/recognition/primitives.py:256-258 | a point at height h on a unit axis takes the on-axis branch, with distance abs(sqrt(R^2 + h^2) - r) |
| Primitives.AxisMultiple | stl-to-cad/src/stl_to_cad/recognition/primitives.py:250-251 | a multiple of a unit axis has that height along the axis and no in-plane part |
| Primitives.Distance | stl-to-cad/src/stl_to_cad/recognition/primitives.py:50-267 | every primitive's point distance is non-negative, the cone's whenever cos(half_angle) is non-negative |
| Ransac.Best | stl-to-cad/src/stl_to_cad/recognition/feature_recognizer.py:182-185 | the selected trial is one of the trials, taken unchanged, and has at least one inlier |
| Ransac.BestIsMaximal | stl-to-cad/src/stl_to_cad/recognition/feature_recognizer.py:182-185 | no kept trial has more inliers than the selected one |
| Ransac.BestIsEarliest | stl-to-cad/src/stl_to_cad/recognition/feature_recognizer.py:182-185 | every kept trial before the selected one has strictly fewer inliers, so a tie keeps the earliest |
| Ransac.BestNoneIff | stl-to-cad/src/stl_to_cad/recognition/feature_recognizer.py:143-185 | nothing is selected exactly when every trial is rejected or has no inliers |
| Ransac.BestSatisfies | stl-to-cad/src/stl_to_cad/recognition/feature_recognizer.py:162-185 | a property every kept (non-rejected) hypothesis has is a property of the selected one, so rejected samples never become best |
| Ransac.SelectBest | stl-to-cad/src/stl_to_cad/recognition/feature_recognizer.py:150-185 | the imperative trial loop, replacing only on a strictly larger inlier count, returns the selected trial |
| RansacGeometry.CentroidIsMean | stl-to-cad/src/stl_to_cad/recognition/feature_recognizer.py:129-132 | each coordinate of a face point is the mean of its three corner coordinates and lies between their minimum and maximum |
| RansacGeometry.FacePoints | stl-to-cad/src/stl_to_cad/recognition/feature_recognizer.py:124-137 | the face points are the centroids and the stored normals of the listed faces, one per face, in order |
| RansacGeometry.InlierIndices | stl-to-cad/src/stl_to_cad/recognition/feature_recognizer.py:170-183 | the inlier indices are increasing, in range, and contain exactly the indices whose distance is below the threshold |
| RansacGeometry.Select | stl-to-cad/src/stl_to_cad/recognition/feature_recognizer.py:192 | selecting by an index list keeps its length and takes the point at each index |
| RansacGeometry.PlaneDistances | stl-to-cad/src/stl_to_cad/recognition/feature_recognizer.py:169 | there is one plane distance per point |
| RansacGeometry.PlaneDistancesAgree | stl-to-cad/src/stl_to_cad/recognition/feature_recognizer.py:169 | each plane distance the recognizer computes is the plane primitive's distance |
| RansacGeometry.CylinderDistances | stl-to-cad/src/stl_to_cad/recognition/feature_recognizer.py:357-366 | there is one cylinder distance per point |
| RansacGeometry.CylinderDistancesAgree | stl-to-cad/src/stl_to_cad/recognition/feature_recognizer.py:357-366 | row by row the recognizer's cylinder distance equals the cylinder primitive's |
| RansacGeometry.SphereDistances | stl-to-cad/src/stl_to_cad/recognition/feature_recognizer.py:419 | the recognizer's sphere distances are the sphere primitive's, one per point |
| RansacGeometry.ConeDistances | stl-to-cad/src/stl_to_cad/recognition/feature_recognizer.py:606-622 | there is one cone distance per point |
| RansacGeometry.ConeDistancesAgree | stl-to-cad/src/stl_to_cad/recognition/feature_recognizer.py:606-622 | when the axial projection is at least 1e-10 the recognizer's cone distance equals the primitive's |
| RansacGeometry.ConeDistancesDisagreeAtApex | stl-to-cad/src/stl_to_cad/recognition/feature_recognizer.py:614 | at the apex with a zero half-angle the recognizer reports 1e-10 where the primitive reports 0, because the projection is clamped instead of branched |
| RansacGeometry.TorusDistances | stl-to-cad/src/stl_to_cad/recognition/feature_recognizer.py:713-728 | there is one torus distance per point |
| RansacGeometry.TorusDistancesAgree | stl-to-cad/src/stl_to_cad/recognition/feature_recognizer.py:713-728 | off the axis (in-plane distance at least 1e-10) the recognizer's torus distance equals the primitive's |
| RansacGeometry.SphereSystem | stl-to-cad/src/stl_to_cad/recognition/feature_recognizer.py:475-477 | there is one row per sample point: twice the point, then -1, with right-hand side the squared norm of the point |
| RansacGeometry.FillSphereSystem | stl-to-cad/src/stl_to_cad/recognition/feature_recognizer.py:472-477 | the loop filling A and b builds exactly those rows |
| RansacGeometry.FitSphere4 | stl-to-cad/src/stl_to_cad/recognition/feature_recognizer.py:479-482 | a fitted sphere has a non-negative radius; a singular system or a negative radicand gives none |
| RansacGeometry.FitSphere4Points | stl-to-cad/src/stl_to_cad/recognition/feature_recognizer.py:465-484 | the imperative four-point fit returns the functional one |
| RansacGeometry.SphereRowDistance | stl-to-cad/src/stl_to_cad/recognition/feature_recognizer.py:467-470 | a point whose row is satisfied lies at squared distance ‖c‖² - k from the centre c |
| RansacGeometry.FitSphere4OnSamples | stl-to-cad/src/stl_to_cad/recognition/feature_recognizer.py:465-484 | when x solves A x = b every sample point lies exactly on the fitted sphere (‖p - c‖² = ‖c‖² - k = r²) |
| RansacGeometry.FillConeSystem | stl-to-cad/src/stl_to_cad/recognition/feature_recognizer.py:580-586 | the loop accumulating A and b builds exactly the cone system |
| RansacGeometry.ConeSystemResidual | stl-to-cad/src/stl_to_cad/recognition/feature_recognizer.py:580-586 | after k rounds, A x - b is (n - k) x plus the sum of the off-line components of x for the first k normal lines |
| RansacGeometry.ConeApexStationary | stl-to-cad/src/stl_to_cad/recognition/feature_recognizer.py:579-589 | a solved apex makes the off-line components towards all sample normal lines cancel, so it is the least-squares meeting point |
| RansacGeometry.MeanVecInBox | stl-to-cad/src/stl_to_cad/recognition/feature_recognizer.py:597 | the mean of the points lies inside their bounding box |
| RansacGeometry.ConeEstimateAxis | stl-to-cad/src/stl_to_cad/recognition/feature_recognizer.py:588-604 | an estimated cone has the solver's apex and a unit axis |
| RansacGeometry.TorusEstimate | stl-to-cad/src/stl_to_cad/recognition/feature_recognizer.py:687-711 | the estimated major and minor radii are non-negative |
| RansacGeometry.Norms | stl-to-cad/src/stl_to_cad/recognition/feature_recognizer.py:705 | each row norm is the vector's norm, and non-negative |
| RansacGeometry.MinorDistances | stl-to-cad/src/stl_to_cad/recognition/feature_recognizer.py:708-709 | the distances from the major-circle points are non-negative, one per point |
| RansacGeometry.RefinePlane | stl-to-cad/src/stl_to_cad/recognition/feature_recognizer.py:217-230 | plane refinement returns the centroid of the inliers and the SVD normal or its negation, whichever has a non-negative z component |
| RansacGeometry.RefinePlaneUnit | stl-to-cad/src/stl_to_cad/recognition/feature_recognizer.py:223-228 | under the SVD law the refined normal has unit length |
| RansacGeometry.BoundsAxisNonZero | stl-to-cad/src/stl_to_cad/recognition/feature_recognizer.py:237-241 | for a unit normal the raw in-plane direction is never zero, so normalising it never divides by zero |
| RansacGeometry.BoundsAxisRawNonZero | stl-to-cad/src/stl_to_cad/recognition/feature_recognizer.py:237-240 | the cross product with (0,0,1) or (1,0,0), chosen by the 0.9 test, is non-zero for a unit normal |
| RansacGeometry.PlaneBounds | stl-to-cad/src/stl_to_cad/recognition/feature_recognizer.py:232-252 | the plane bounds have min <= max in both local coordinates and a zero third component |
| RansacGeometry.PlaneBoundsContain | stl-to-cad/src/stl_to_cad/recognition/feature_recognizer.py:245-250 | every point's local (u, v) coordinates lie within the bounds |
| RansacGeometry.RefineCylinder | stl-to-cad/src/stl_to_cad/recognition/feature_recognizer.py:368-389 | when the optimiser raises, the sample's parameters come back; otherwise its centre and a non-negative radius |
| RansacGeometry.RefineCylinderUnit | stl-to-cad/src/stl_to_cad/recognition/feature_recognizer.py:385 | an optimised non-zero axis comes back with unit length |
| RansacGeometry.RefineSphere | stl-to-cad/src/stl_to_cad/recognition/feature_recognizer.py:486-501 | when the optimiser raises, the sample's centre and radius come back; otherwise its centre and a non-negative radius |
| RansacGeometry.AxialProjections | stl-to-cad/src/stl_to_cad/recognition/feature_recognizer.py:328 | there is one axial projection per inlier |
| RansacGeometry.CylinderExtent | stl-to-cad/src/stl_to_cad/recognition/feature_recognizer.py:328-331 | the cylinder height, max - min of the projections, is non-negative |
| RansacGeometry.CylinderExtentLength | stl-to-cad/src/stl_to_cad/recognition/feature_recognizer.py:328-331 | along a unit axis the end point lies exactly one height from the start point |
| RansacGeometry.CylinderExtentContains | stl-to-cad/src/stl_to_cad/recognition/feature_recognizer.py:328-331 | along a unit axis every inlier projects between the start and end points |
| Recognizer.Draw | stl-to-cad/src/stl_to_cad/recognition/feature_recognizer.py:154 | every draw is k distinct indices below n, as np.random.choice without replacement gives |
| Recognizer.RatioBounds | stl-to-cad/src/stl_to_cad/recognition/feature_recognizer.py:208-214 | an inlier fraction a/b with 0 < a <= b lies in (0, 1] |
| Recognizer.PlaneTrial | stl-to-cad/src/stl_to_cad/recognition/feature_recognizer.py:152-185 | a kept plane trial passes through the first sample, its inliers are exactly the points within the threshold, and when it has inliers their mean normal agreement exceeds the consistency threshold |
| Recognizer.PlaneTrialThroughSample | stl-to-cad/src/stl_to_cad/recognition/feature_recognizer.py:158-169 | the three sampled points have plane distance 0 from the hypothesis they fix |
| Recognizer.CylinderTrial | stl-to-cad/src/stl_to_cad/recognition/feature_recognizer.py:266-314 | a kept cylinder trial has radius in [1e-6, 1000] and its inliers are exactly the points within the threshold |
| Recognizer.SphereTrial | stl-to-cad/src/stl_to_cad/recognition/feature_recognizer.py:402-436 | a kept sphere trial is the four-point fit of its sample, has radius in [1e-6, 1000], its inliers are the points within the threshold, and with more than min_points_sphere inliers their radial agreement reaches the threshold |
| Recognizer.SphereTrialThroughSample | stl-to-cad/src/stl_to_cad/recognition/feature_recognizer.py:411-420 | with a positive threshold the four sampled points are inliers of the sphere they fix |
| Recognizer.ConeTrial | stl-to-cad/src/stl_to_cad/recognition/feature_recognizer.py:514-540 | a kept cone trial is the estimate from its sample, has half-angle in [0.01, pi/2 - 0.01], and its inliers are the points within the threshold |
| Recognizer.TorusTrial | stl-to-cad/src/stl_to_cad/recognition/feature_recognizer.py:642-660 | a kept torus trial has 0.1 <= r <= R <= 100 and its inliers are the points within twice the threshold |
| Recognizer.PlaneTrials | stl-to-cad/src/stl_to_cad/recognition/feature_recognizer.py:150-154 | ransac_iterations plane trials are run (none for a negative count), or none with fewer than 3 points, each with valid inliers |
| Recognizer.CylinderTrials | stl-to-cad/src/stl_to_cad/recognition/feature_recognizer.py:265-267 | ransac_iterations cylinder trials are run, or none with fewer than 2 points |
| Recognizer.SphereTrials | stl-to-cad/src/stl_to_cad/recognition/feature_recognizer.py:401-403 | ransac_iterations sphere trials are run, or none with fewer than 4 points |
| Recognizer.ConeTrials | stl-to-cad/src/stl_to_cad/recognition/feature_recognizer.py:513-515 | ransac_iterations cone trials are run, or none with fewer than 3 points |
| Recognizer.TorusTrials | stl-to-cad/src/stl_to_cad/recognition/feature_recognizer.py:640-642 | ransac_iterations // 2 torus trials are run, each on min(20, n) = 20 sampled points |
| Recognizer.FinishPlane | stl-to-cad/src/stl_to_cad/recognition/feature_recognizer.py:187-215 | None exactly below min_points_plane; a found plane has its type, at least the minimum of inliers, confidence inliers/points, coverage inliers/faces and the inliers' faces; it raises only when the minimum is not positive |
| Recognizer.FinishCylinder | stl-to-cad/src/stl_to_cad/recognition/feature_recognizer.py:316-355 | None exactly below min_points_cylinder; a found cylinder carries the detection bookkeeping and a non-negative height; it raises only when the minimum is not positive |
| Recognizer.FinishSphere | stl-to-cad/src/stl_to_cad/recognition/feature_recognizer.py:438-463 | None exactly below min_points_sphere; a found sphere carries the detection bookkeeping; it raises only when the minimum is not positive |
| Recognizer.FinishCone | stl-to-cad/src/stl_to_cad/recognition/feature_recognizer.py:542-570 | None exactly below min_points_cone; a found cone carries the detection bookkeeping; it raises only when the minimum is not positive |
| Recognizer.FinishTorus | stl-to-cad/src/stl_to_cad/recognition/feature_recognizer.py:662-685 | None exactly below 50 inliers; a found torus carries the detection bookkeeping; it never raises |
| Recognizer.BestIsOk | stl-to-cad/src/stl_to_cad/recognition/feature_recognizer.py:182-183 | the selected trial's inliers are valid and non-empty |
| Recognizer.Detect | stl-to-cad/src/stl_to_cad/recognition/feature_recognizer.py:139-685 | any detector's found feature satisfies the detection bookkeeping, and a detector raises only when the type's minimum is not positive |
| Recognizer.DetectNoFeature | stl-to-cad/src/stl_to_cad/recognition/feature_recognizer.py:188-189 | a detector returns None exactly when its best trial has fewer inliers than the type's minimum (a torus also with fewer than 50 points) |
| Recognizer.DetectFeature | stl-to-cad/src/stl_to_cad/recognition/feature_recognizer.py:139-685 | the imperative detectors with their trial loops return exactly the functional detection |
| Recognizer.FoundBounds | stl-to-cad/src/stl_to_cad/recognition/feature_recognizer.py:208-214 | a found feature's confidence and coverage lie in (0, 1] and its faces are among the remaining faces |
| Recognizer.IndexListLength | stl-to-cad/src/stl_to_cad/recognition/feature_recognizer.py:183 | a strictly increasing index list below n has at most n entries |
| Recognizer.FoundFacesIncreasing | stl-to-cad/src/stl_to_cad/recognition/feature_recognizer.py:213 | picking increasing inlier positions of the increasing remaining faces gives increasing valid face indices |
| Recognizer.Remove | stl-to-cad/src/stl_to_cad/recognition/feature_recognizer.py:106-107 | removing the detected faces keeps exactly the remaining faces not detected, keeps ascending order, and strictly shrinks the set when a detected face was remaining |
| Recognizer.RemoveIndexList | stl-to-cad/src/stl_to_cad/recognition/feature_recognizer.py:107 | what remains of valid face indices is valid |
| Recognizer.DetectionStages | stl-to-cad/src/stl_to_cad/recognition/feature_recognizer.py:81-87 | the detection order has five stages, plane, cylinder, sphere, cone, torus, each with its config switch |
| Recognizer.DetectionStagesOk | stl-to-cad/src/stl_to_cad/recognition/feature_recognizer.py:81-87 | each detector of the detection order keeps the detector contract |
| Recognizer.TypeLoop | stl-to-cad/src/stl_to_cad/recognition/feature_recognizer.py:93-110 | one type's while loop keeps the remaining faces a valid index list |
| Recognizer.TypePass | stl-to-cad/src/stl_to_cad/recognition/feature_recognizer.py:93-108 | one pass of the while loop either ends it, leaving a valid index list, or goes on with strictly fewer remaining faces |
| Recognizer.AllFaces | stl-to-cad/src/stl_to_cad/recognition/feature_recognizer.py:78 | the initial remaining set holds exactly the face indices 0..num_faces-1, ascending |
| Recognizer.Recognize | stl-to-cad/src/stl_to_cad/recognition/feature_recognizer.py:63-112 | recognition succeeds only on a mesh whose face indices and normals can be indexed |
| Recognizer.DetectionStagesFollow | stl-to-cad/src/stl_to_cad/recognition/feature_recognizer.py:81-91 | disabled stages are skipped and the stages follow the fixed type order |
| Recognizer.PartitionStart | stl-to-cad/src/stl_to_cad/recognition/feature_recognizer.py:77-78 | the initial state has no features and all faces remaining |
| Recognizer.PartitionStep | stl-to-cad/src/stl_to_cad/recognition/feature_recognizer.py:104-108 | removing a detected feature's faces from the remaining set keeps features and remaining faces pairwise disjoint |
| Recognizer.FoundFeatureOk | stl-to-cad/src/stl_to_cad/recognition/feature_recognizer.py:104-108 | a found feature of an enabled type is well-formed and its faces are valid and among the remaining faces |
| Recognizer.LoopOkStep | stl-to-cad/src/stl_to_cad/recognition/feature_recognizer.py:93-110 | a loop result valid after a detection is valid from before it |
| Recognizer.TypeLoopFound | stl-to-cad/src/stl_to_cad/recognition/feature_recognizer.py:104-108 | after a detection, the loop continues from the faces the feature leaves |
| Recognizer.TypeLoopStep | stl-to-cad/src/stl_to_cad/recognition/feature_recognizer.py:93-110 | the loop stops with the features unchanged at or below min_points_plane, with too few points or with no detection; it fails with an index error when no faces are left above a negative min_points_plane, and passes a detector error on |
| Recognizer.TypeLoopProps | stl-to-cad/src/stl_to_cad/recognition/feature_recognizer.py:93-110 | one type's loop keeps the partition and appends only well-formed features of that type |
| Recognizer.RecognizeFromProps | stl-to-cad/src/stl_to_cad/recognition/feature_recognizer.py:89-110 | the stages from position k on keep the partition and append features in detection order |
| Recognizer.RecognizeSound | stl-to-cad/src/stl_to_cad/recognition/feature_recognizer.py:63-112 | a successful run returns well-formed features of enabled types, grouped in the order plane, cylinder, sphere, cone, torus, with valid and pairwise disjoint face lists |
| Recognizer.TypeLoopFailure | stl-to-cad/src/stl_to_cad/recognition/feature_recognizer.py:93-122 | one type's loop raises only when min_points_plane is negative or the type's minimum is not positive |
| Recognizer.RecognizeFromSucceeds | stl-to-cad/src/stl_to_cad/recognition/feature_recognizer.py:89-110 | with positive minimums the stages never raise |
| Recognizer.RecognizeFailsOnlyOnBadMesh | stl-to-cad/src/stl_to_cad/recognition/feature_recognizer.py:73-112 | with positive minimums recognition raises exactly when the vertex normals raise, on an out-of-range face index or missing normals |
| Recognizer.DefaultMinimumsPositive | stl-to-cad/src/stl_to_cad/recognition/feature_recognizer.py:58 | the default configuration's minimum counts are positive |
| Recognizer.RunTypeLoop | stl-to-cad/src/stl_to_cad/recognition/feature_recognizer.py:93-110 | the imperative while loop returns exactly the functional loop |
| Recognizer.RunDetectors | stl-to-cad/src/stl_to_cad/recognition/feature_recognizer.py:89-110 | the imperative for loop over the detection order returns exactly the functional run |
| Recognizer.RecognizeFeatures | stl-to-cad/src/stl_to_cad/recognition/feature_recognizer.py:63-112 | the imperative recognize returns exactly the functional recognition |
| Config.FeatureTypeValueInjective | stl-to-cad/src/stl_to_cad/config.py:18-25 | distinct feature types have distinct string values |
| Config.Default | stl-to-cad/src/stl_to_cad/config.py:86-115 | the default conversion config outputs KCL, removes duplicate vertices, auto-orients normals, does not fill holes or simplify, is not verbose and keeps no intermediates |
| Config.RecognitionDefaults | stl-to-cad/src/stl_to_cad/config.py:43-65 | by default all five detect flags are on, 1000 RANSAC iterations with threshold 0.01, minimum points 10/20/20/30 and normal consistency 0.95 |
| Config.ConversionDefaults | stl-to-cad/src/stl_to_cad/config.py:68-110 | by default the NURBS degrees are 3 and 3, the control-point density 0.1 and the point-merge tolerance 0.001 |
| Config.HighPrecision | stl-to-cad/src/stl_to_cad/config.py:117-134 | high precision uses 5000 iterations, threshold 0.001, surface and angular tolerances 0.001, point merge 0.0001, 500 fitting iterations and convergence 1e-8 |
| Config.Fast | stl-to-cad/src/stl_to_cad/config.py:136-153 | fast uses 200 iterations, threshold 0.1, surface tolerance 0.1, angular 0.05, 20 fitting iterations, and simplifies with ratio 0.5 |
| Config.HighPrecisionOverridesOnly | stl-to-cad/src/stl_to_cad/config.py:117-134 | high precision is the default with exactly the named fields overridden, so detect flags, minimum counts, edge angle, minimum feature size, NURBS degrees and simplification stay at their defaults |
| Config.FastOverridesOnly | stl-to-cad/src/stl_to_cad/config.py:136-153 | fast is the default with exactly the named fields overridden; in particular point merging keeps 0.001 |
| Vectors.MinOf | stl-to-cad/src/stl_to_cad/parsers/stl_parser.py:35 | the minimum of a non-empty column is at most every entry and is one of them |
| Vectors.MaxOf | stl-to-cad/src/stl_to_cad/parsers/stl_parser.py:35 | the maximum of a non-empty column is at least every entry and is one of them |
| Vectors.MeanBetweenMinMax | stl-to-cad/src/stl_to_cad/fitting/surface_fitter.py:178-184 | a mean lies between the minimum and the maximum, so the mean fitting error never exceeds the maximum error |
| Vectors.NormZeroIff | stl-to-cad/src/stl_to_cad/parsers/stl_parser.py:57-58 | a vector has norm 0 exactly when it is the zero vector |
| KclStorage.NatToString | drawing-to-kcl/backend/storage/in_memory.py:28 | the id text is a non-empty run of decimal digits with no leading zero |
| KclStorage.DecimalRoundTrip | drawing-to-kcl/backend/storage/in_memory.py:28 | reading the id text back as a decimal number gives the counter it came from |
| KclStorage.NatToStringInjective | drawing-to-kcl/backend/storage/in_memory.py:27-28 | two counter values give the same id exactly when they are equal |
| KclStorage.InMemoryKclStorage.constructor | drawing-to-kcl/backend/storage/in_memory.py:21-24 | a new store has no versions, an empty order and counter 0 |
| KclStorage.InMemoryKclStorage.SaveCode | drawing-to-kcl/backend/storage/in_memory.py:26-31 | saving increments the counter, returns its decimal text as a new id, maps that id to the code, appends it to the order and changes nothing else |
| KclStorage.InMemoryKclStorage.GetCodeSpec | drawing-to-kcl/backend/storage/in_memory.py:33-34 | an id is found exactly when it is the text of some save's counter, and it then returns that save's code |
| KclStorage.InMemoryKclStorage.ListVersions | drawing-to-kcl/backend/storage/in_memory.py:36-37 | the listing has one version per save, in save order, pairing the k-th id with the k-th saved code |
| KclStorage.InMemoryKclStorage.UnknownIdNotFound | drawing-to-kcl/backend/tests/test_storage.py:28-33 | an id containing a non-digit, such as does-not-exist, is never found |
| KclStorage.Entries | drawing-to-kcl/backend/storage/in_memory.py:37 | the entries pair each id in order with the code stored under it |
| KclStorage.TwoSaves | drawing-to-kcl/backend/tests/test_storage.py:4-25 | two saves return distinct ids 1 and 2, each reads back its own code, an unknown id gives None, and the listing is both versions in order |
| SurfaceFitting.AcceptableMonotone | stl-to-cad/src/stl_to_cad/fitting/surface_fitter.py:114-116 | a surface acceptable at one tolerance is acceptable at every looser one |
| SurfaceFitting.Trunc | stl-to-cad/src/stl_to_cad/fitting/surface_fitter.py:226 | Python int() truncates toward zero: the result has the sign of the input and is less than 1 away from it in magnitude |
| SurfaceFitting.Clamp | stl-to-cad/src/stl_to_cad/fitting/surface_fitter.py:227 | max(lo, min(x, hi)) lies in [lo, hi], is x when x is already inside and the nearer bound otherwise |
| SurfaceFitting.LinspaceBounds | stl-to-cad/src/stl_to_cad/fitting/surface_fitter.py:58-59 | linspace(0, 1, n) values are non-decreasing in [0, 1] and run from 0 to 1 |
| SurfaceFitting.Range | stl-to-cad/src/stl_to_cad/fitting/surface_fitter.py:180 | np.arange(n) is the n indices 0 .. n-1 in order |
| SurfaceFitting.Coords | stl-to-cad/src/stl_to_cad/fitting/surface_fitter.py:203-204 | each projected coordinate is the dot product of the centred point with the direction |
| SurfaceFitting.Normalize | stl-to-cad/src/stl_to_cad/fitting/surface_fitter.py:207-208 | each normalised coordinate is its offset from the minimum over the range plus 1e-10 |
| SurfaceFitting.NormalizeInUnit | stl-to-cad/src/stl_to_cad/fitting/surface_fitter.py:206-208 | every normalised coordinate lies in [0, 1) |
| SurfaceFitting.NormalizeMonotone | stl-to-cad/src/stl_to_cad/fitting/surface_fitter.py:206-208 | normalising keeps the order of the coordinates and maps the minimum to 0 |
| SurfaceFitting.Parameterize | stl-to-cad/src/stl_to_cad/fitting/surface_fitter.py:186-210 | parameterisation succeeds exactly when there are points and then gives one u and one v per point |
| SurfaceFitting.ParameterizeInUnit | stl-to-cad/src/stl_to_cad/fitting/surface_fitter.py:206-210 | every u and v parameter lies in [0, 1) |
| SurfaceFitting.Spread | stl-to-cad/src/stl_to_cad/fitting/surface_fitter.py:230-231 | the parameter spread max - min is non-negative |
| SurfaceFitting.NTotal | stl-to-cad/src/stl_to_cad/fitting/surface_fitter.py:226-227 | the total control count is clamped to [4, 30] |
| SurfaceFitting.GridSizeBounds | stl-to-cad/src/stl_to_cad/fitting/surface_fitter.py:235-241 | both sides of a computed control grid lie in [4, 20] |
| SurfaceFitting.GridSizeFailsIff | stl-to-cad/src/stl_to_cad/fitting/surface_fitter.py:230-236 | on non-empty input the grid size fails exactly when the u spread is 0, and the density never decides whether it fails |
| SurfaceFitting.SpreadRatioZero | stl-to-cad/src/stl_to_cad/fitting/surface_fitter.py:230-233 | the spread ratio is never negative and is 0 exactly when the u spread is |
| SurfaceFitting.KnotVector | stl-to-cad/src/stl_to_cad/fitting/surface_fitter.py:247-251 | the knot vector has n_control + degree + 1 entries |
| SurfaceFitting.CreateKnotVector | stl-to-cad/src/stl_to_cad/fitting/surface_fitter.py:243-260 | the array built by overwriting zeros with trailing ones and interior percentiles is the knot vector |
| SurfaceFitting.KnotVectorShape | stl-to-cad/src/stl_to_cad/fitting/surface_fitter.py:250-258 | the last degree + 1 knots are 1; with enough control points the first degree + 1 are 0 and the interior knots are percentiles at strictly increasing positions in (0, 100) |
| SurfaceFitting.KnotVectorSorted | stl-to-cad/src/stl_to_cad/fitting/surface_fitter.py:250-258 | under a monotone percentile the knots over unit parameters are non-decreasing within [0, 1] |
| SurfaceFitting.ControlGrid | stl-to-cad/src/stl_to_cad/fitting/surface_fitter.py:279-305 | the interpolated control grid exists only on parameters Qhull can triangulate, and is then n_u rows of n_v points |
| SurfaceFitting.Ones | stl-to-cad/src/stl_to_cad/fitting/surface_fitter.py:165 | the weights are an n_u by n_v grid of ones |
| SurfaceFitting.Errors | stl-to-cad/src/stl_to_cad/fitting/surface_fitter.py:315-324 | there is one non-negative error per point, the distance to the surface at its parameters, or 0 when evaluation raises or past the end of the parameters |
| SurfaceFitting.ComputeErrors | stl-to-cad/src/stl_to_cad/fitting/surface_fitter.py:307-324 | the array filled along the zipped parameters and points is exactly the error sequence |
| SurfaceFitting.FitFromFields | stl-to-cad/src/stl_to_cad/fitting/surface_fitter.py:164-184 | the fitted result covers every index with coverage 1, has the configured surface shape, a mean error between 0 and the max error, and the max error bounds every point's error |
| SurfaceFitting.BuildSurfaceShape | stl-to-cad/src/stl_to_cad/fitting/surface_fitter.py:165-173 | the built surface has unit weights over the n_u by n_v grid, knot vectors of matching length and the configured degrees |
| SurfaceFitting.ErrorMetrics | stl-to-cad/src/stl_to_cad/fitting/surface_fitter.py:181-182 | the mean of non-negative errors is between 0 and their maximum |
| SurfaceFitting.FitFields | stl-to-cad/src/stl_to_cad/fitting/surface_fitter.py:132-184 | a successful fit covers every point with coverage 1, has the configured surface shape with sides in [4, 20] and a mean error between 0 and the max error |
| SurfaceFitting.FitKnotsClamped | stl-to-cad/src/stl_to_cad/fitting/surface_fitter.py:155-157 | with degrees up to 3 every knot vector of a fit is fully clamped, and non-decreasing within [0, 1] under a monotone percentile |
| SurfaceFitting.FitFailsIff | stl-to-cad/src/stl_to_cad/fitting/surface_fitter.py:149-153 | fit fails exactly on no points, when every u parameter is the same, or when Qhull cannot triangulate the (u, v) parameters for griddata, and the density never decides whether it fails |
| SurfaceFitting.FitCollinearFails | stl-to-cad/src/stl_to_cad/fitting/surface_fitter.py:289-297 | when the (u, v) parameters are collinear, both the cubic and the linear griddata raise, so fit fails |
| SurfaceFitting.FitFewPointsFails | stl-to-cad/src/stl_to_cad/fitting/surface_fitter.py:289-297 | fit on one or two points always fails, because Qhull cannot triangulate them |
| SurfaceFitting.FewPointsCollinear | stl-to-cad/src/stl_to_cad/fitting/surface_fitter.py:289-297 | one or two parameter points always lie on a line |
| SurfaceFitting.FitSuccessValue | stl-to-cad/src/stl_to_cad/fitting/surface_fitter.py:149-184 | a successful fit had points, a grid with sides in [4, 20] and a triangulation, and is the surface and metrics built from them |
| SurfaceFitting.FitterFor | stl-to-cad/src/stl_to_cad/fitting/surface_fitter.py:132-184 | the fitter on fixed points computes fit for every configuration |
| SurfaceFitting.GrowAt | stl-to-cad/src/stl_to_cad/fitting/surface_fitter.py:342 | one growth step after j steps is the configuration after j + 1 steps |
| SurfaceFitting.RefineLoopCharacterized | stl-to-cad/src/stl_to_cad/fitting/surface_fitter.py:337-345 | the loop refits at most its bound, every refit before the last was unacceptable, the result is the fit at the grown density, and an unacceptable result means the bound was used up |
| SurfaceFitting.RefineStart | stl-to-cad/src/stl_to_cad/fitting/surface_fitter.py:335-337 | after a successful first fit the run is the loop over all its iterations |
| SurfaceFitting.RefineStep | stl-to-cad/src/stl_to_cad/fitting/surface_fitter.py:338-343 | an unacceptable fit with iterations left is followed by a refit at 1.5 times the density, and a failing refit ends the run |
| SurfaceFitting.RefineCharacterized | stl-to-cad/src/stl_to_cad/fitting/surface_fitter.py:326-345 | the run makes between 1 and max_refinements + 1 fits, returns the fit at density d0 times 1.5 to the number of refits which persists in the config, every earlier fit was unacceptable, and an unacceptable result means the refinements ran out |
| SurfaceFitting.FitIgnoresDensity | stl-to-cad/src/stl_to_cad/fitting/surface_fitter.py:132-184 | the fit on fixed points fails or not whatever the density |
| SurfaceFitting.FitterFailsIff | stl-to-cad/src/stl_to_cad/fitting/surface_fitter.py:149-153 | a fitter fails on a valid configuration exactly when there are no points, every u parameter is the same, or the parameters cannot be triangulated |
| SurfaceFitting.SomeImplementation | stl-to-cad/src/stl_to_cad/fitting/surface_fitter.py:132-184 | some fitter computes fit on the given points |
| SurfaceFitting.ImplementsUnique | stl-to-cad/src/stl_to_cad/fitting/surface_fitter.py:132-184 | two fitters that compute fit on the same points agree on every configuration |
| SurfaceFitting.RefineLoopAgrees | stl-to-cad/src/stl_to_cad/fitting/surface_fitter.py:337-345 | agreeing fitters run the refinement loop alike |
| SurfaceFitting.RefineAgrees | stl-to-cad/src/stl_to_cad/fitting/surface_fitter.py:326-345 | agreeing fitters refine alike |
| SurfaceFitting.RefineFailsOnlyFirst | stl-to-cad/src/stl_to_cad/fitting/surface_fitter.py:335-343 | a refinement run fails exactly when the first fit fails, and then no density change has happened |
| SurfaceFitting.GridRow | stl-to-cad/src/stl_to_cad/fitting/surface_fitter.py:62-64 | a row of the evaluated grid has n_v points |
| SurfaceFitting.EvaluateGridShape | stl-to-cad/src/stl_to_cad/fitting/surface_fitter.py:56-66 | the grid evaluates exactly when the sizes are non-negative and every sample evaluates, and it is then n_u by n_v with the surface at each linspace sample |
| SurfaceFitting.EvaluateRow | stl-to-cad/src/stl_to_cad/fitting/surface_fitter.py:63-64 | a row exists exactly when every sample of it evaluates, and it is the surface at those samples |
| SurfaceFitting.EvaluateGrid | stl-to-cad/src/stl_to_cad/fitting/surface_fitter.py:56-66 | the nested loop computes the grid specification |
| SurfaceFitting.SurfaceFitter.constructor | stl-to-cad/src/stl_to_cad/fitting/surface_fitter.py:129-130 | the fitter keeps a passed configuration, else the default one |
| SurfaceFitting.SurfaceFitter.Fit | stl-to-cad/src/stl_to_cad/fitting/surface_fitter.py:132-184 | the imperative fit returns exactly the functional fit: failure with no points, a zero u spread or parameters Qhull cannot triangulate, and otherwise the surface and metrics built from the grid |
| SurfaceFitting.SurfaceFitter.FitVia | stl-to-cad/src/stl_to_cad/fitting/surface_fitter.py:132-184 | fit returns what any fitter implementing it computes for the current configuration |
| SurfaceFitting.SurfaceFitter.FitWithRefinement | stl-to-cad/src/stl_to_cad/fitting/surface_fitter.py:326-345 | the refinement method returns the characterised refinement result and leaves the config at the final grown density |
| BSplineCurves.DefaultKnots | stl-to-cad/src/stl_to_cad/fitting/surface_fitter.py:363-366 | the default knot vector has n + degree + 1 entries |
| BSplineCurves.AsWrittenAgrees | stl-to-cad/src/stl_to_cad/fitting/surface_fitter.py:363-366 | from degree 1 on the slice assignments compute the clamped knots |
| BSplineCurves.DegreeZeroRaises | stl-to-cad/src/stl_to_cad/fitting/surface_fitter.py:365-366 | with degree 0 and at least one control point the slices as written raise, while the intended knots exist and are fully clamped |
| BSplineCurves.DefaultKnotsShape | stl-to-cad/src/stl_to_cad/fitting/surface_fitter.py:362-366 | with at least degree + 1 control points the default knots are fully clamped and non-decreasing within [0, 1] |
| BSplineCurves.DefaultKnotsUniform | stl-to-cad/src/stl_to_cad/fitting/surface_fitter.py:365 | between slots degree and n the default knots step evenly by 1 / (n - degree) |
| BSplineCurves.CreateKnots | stl-to-cad/src/stl_to_cad/fitting/surface_fitter.py:361-366 | the zeroed array with the linspace and trailing ones written over it is the clamped knot vector |
| BSplineCurves.NewCurve | stl-to-cad/src/stl_to_cad/fitting/surface_fitter.py:351-368 | a curve keeps its control points and degree, keeps given knots, and otherwise gets n + degree + 1 default knots that are fully clamped when n is at least degree + 1 |
| BSplineCurves.Init | stl-to-cad/src/stl_to_cad/fitting/surface_fitter.py:351-368 | the constructor computes the curve specification |
| BSplineCurves.NControl | stl-to-cad/src/stl_to_cad/fitting/surface_fitter.py:392 | the control count is at most the point count, all points when there are at most 4, and otherwise between 4 and about a third of the points |
| BSplineCurves.Chords | stl-to-cad/src/stl_to_cad/fitting/surface_fitter.py:395 | there is one non-negative chord length per consecutive pair, the norm of their difference |
| BSplineCurves.PrefixSumMonotone | stl-to-cad/src/stl_to_cad/fitting/surface_fitter.py:397 | cumulative chord sums never decrease |
| BSplineCurves.SumZeroIff | stl-to-cad/src/stl_to_cad/fitting/surface_fitter.py:398 | non-negative chord lengths sum to 0 exactly when every one is 0 |
| BSplineCurves.ChordParams | stl-to-cad/src/stl_to_cad/fitting/surface_fitter.py:395-398 | there is one chord parameter per point |
| BSplineCurves.ChordParamsSpec | stl-to-cad/src/stl_to_cad/fitting/surface_fitter.py:395-398 | the chord parameters exist exactly when there are points and two consecutive points differ, and they then run non-decreasing from 0 to 1 |
| BSplineCurves.ChordParamsOrdered | stl-to-cad/src/stl_to_cad/fitting/surface_fitter.py:396-398 | cumulative sums over the total start at 0, end at 1 and never decrease within [0, 1] |
| BSplineCurves.ControlPointsAt | stl-to-cad/src/stl_to_cad/fitting/surface_fitter.py:403-408 | there are n_control interpolated control points |
| BSplineCurves.FitToPointsSpec | stl-to-cad/src/stl_to_cad/fitting/surface_fitter.py:389-410 | fitting succeeds exactly when the chord parameters exist and the degree fits, and the curve has n_control points, the given degree and the default knots, fully clamped when n_control is at least degree + 1 |

## Left out

- File I/O: the existence check and the file read in `STLParser.parse` are left out. The model decodes a given byte sequence, and the file stem is a parameter.
- Floating point: float32 decoding is the parameter `f32`, and the model computes on unbounded reals. The 1e-10 and 1e-6 epsilons are kept as real constants.
- Welding: `np.round` is the abstract key function of the welding step, so rounding itself is not modelled.
- Numerical library calls are oracles with stated laws. They are not algorithms:
  - `np.linalg.svd`, `np.linalg.solve`, `scipy.optimize.least_squares`, `np.percentile`;
  - `griddata` with its cubic-then-linear fallback and NaN filling. Whether Qhull can triangulate the (u, v) parameters is the oracle `triangulates`. Its only stated law is that collinear parameters fail, which covers fewer than three points; other Qhull failures are possible but not characterised;
  - `RectBivariateSpline`, `BSpline`, `interp1d`, `KDTree`.
- Randomness: `np.random.choice` is the input function `rng`. That the draws are uniform is not modelled.
- Set iteration order: `remaining_faces` is modelled as an ascending sequence, the order CPython gives small-integer sets. The source does not promise this order.
- NaN sample hypotheses are modelled as rejections. This covers only two cases: a sphere sample whose squared radius is negative, and a cone sample whose axis has zero norm. The source gives each NaN parameters with no inliers. The model rejects such samples, which has the same effect on the best hypothesis. Other NaN results are not covered by this; see the RansacGeometry.RefineCylinder line.
- RansacGeometry.RefineCylinder: a zero axis from the optimiser is kept unscaled. The source divides it by its zero norm (feature_recognizer.py:385), which gives a NaN axis and, through feature_recognizer.py:328-331, a NaN height and NaN start and end points. The model instead yields a cylinder with a zero axis, height 0 and start = end = the centre.
- Empty plane inliers: a plane detector whose best is still empty but passes a cut-off of 0 or less is modelled as raising, like the cylinder, sphere and cone detectors. The source would call SVD on an empty array there.
- BSplineCurves.ChordParams: a zero chord total, where all points coincide, is reported as a failure. The source carries NaN parameters on instead.
- SurfaceFitting.GridSizeFailsIff: a parameter spread of 0 makes `int(inf)` raise OverflowError in the source. The model reports it as a failure.
- KclStorage.InMemoryKclStorage.GetCodeSpec: `get_code` is a function read through this lemma, and a ghost list of saved codes states the contract. Aliasing of the store by other objects is not modelled.
- SurfaceFitting.SurfaceFitter.FitWithRefinement: the shared configuration object is a field of the fitter. Aliasing the same configuration from other objects is not modelled.
- SurfaceFitting.SurfaceFitter.FitWithRefinement: the proof goes through an abstract fitter that implements `fit` on the given points (`SomeImplementation`, `ImplementsUnique`). The result is stated with `Refine(FitterFor(o, points), ...)` rather than by unfolding `fit` for every density.
- BSplineCurves.CreateKnots: models the intended clamped knots at degree 0. As written, the source raises there (see ## Findings); `KnotsAsWritten` and `DegreeZeroRaises` model that behaviour.
- BSplineCurves.NewCurve: succeeds at degree 0 with n >= 1 control points using the intended knots, where the source's constructor raises a broadcast ValueError (see ## Findings).
- BSplineCurves.Init: computes `NewCurve`, so it has the same intended behaviour at degree 0.
- BSplineCurves.FitToPointsSpec: its success condition does not exclude degree 0, where `fit_to_points` raises through the constructor (see ## Findings).
- Mesh.VertexNormals: face indices are `nat`, so negative indices cannot occur. numpy would wrap a negative index to the end of the array in `vertex_normals[face]` (stl_parser.py:53-54). The decoders only produce non-negative indices.
- Welding.Weld: with `nat` face indices, the wrap-around of a negative index in `inverse_indices[mesh.faces]` (stl_parser.py:229) is not modelled.
- Recognizer.RecognizeFailsOnlyOnBadMesh: "fails exactly on an out-of-range index" is stated for non-negative indices only; numpy's wrap-around of negative indices in the vertex lookups (feature_recognizer.py:129-131) is not modelled.
- Default arguments are not defaults in the model; callers pass every argument. The defaults are `target_error=0.01` and `max_refinements=5` of `fit_with_refinement` (surface_fitter.py:329-330), `degree=3` of `BSplineCurve` and `fit_to_points` (:354, :390), and the 20 × 20 resolution of `evaluate_grid` (:56).
- SurfaceFitting.FitFields: this lemma does not state that the maximum error bounds each point's error. That fact is proved at the level of `FitFromFields`, for any parameters and grid sizes.
- Primitives.ConeDistance: the result is proved non-negative only when `cos(half_angle) >= 0`. The source's `abs(...) * cos(half_angle)` is negative otherwise, and the accepted half-angles always have a positive cosine.
- Negative degrees: the fitter's lemmas and methods require `DegreesValid`, which asks for non-negative configured degrees, and `BSplineCurve` degrees are `nat`. Python code given a negative degree is not modelled.
- Text and JSON output: `to_kcl` and `to_dict` of the primitives and surfaces are left out. So are `evaluate` of `BSplineCurve` and the converter's `convert`/`export_kcl`/`get_mesh_info` in stl-to-cad/src/stl_to_cad/core.py. They are string formatting and file writes.
- The click CLI (stl-to-cad/src/stl_to_cad/cli.py) is not part of this model.
- The drawing-to-KCL HTTP service, its LLM clients and the KCL runtime subprocess are not part of this model. They are external collaborators.
- Package `__init__.py` files are re-exports. They are not part of this model.

## Findings

| source | as written | input that shows it | evidently intended | confidence | as-written member | corrected member |
|---|---|---|---|---|---|---|
| stl-to-cad/src/stl_to_cad/fitting/surface_fitter.py:365-366 | with degree 0 the slices `knots[0:-0]` and `knots[-0:]` are empty and the whole array, so assigning `linspace(0, 1, n + 1)` to an empty slice raises a broadcast ValueError for n >= 1 | `BSplineCurve` with 4 control points and degree 0, or `fit_to_points` with degree 0 | the clamped uniform knot vector 0, 1/n, ..., 1 of n + 1 entries | not executed | BSplineCurves.DegreeZeroRaises | BSplineCurves.DefaultKnotsShape |
