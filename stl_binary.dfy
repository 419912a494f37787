/**
 * Binary STL: an 80-byte header, a little-endian unsigned 32-bit triangle count at bytes
 * 80..83, then one 50-byte record per triangle (normal, three vertices, each three
 * little-endian float32 values, and a 2-byte attribute count that is skipped). Decoding
 * of one float32 is the parameter `f32`, applied to its four bytes.
 */
module StlBinary {
  import opened Wrappers
  import opened Vectors
  import opened StlText
  import opened Mesh

  const HeaderSize: nat := 80
  const RecordSize: nat := 50

  /** `struct.unpack("<I", ...)`. */
  function Le32(b0: byte, b1: byte, b2: byte, b3: byte): (n: nat)
    ensures n < 0x1_0000_0000
  {
    b0 + 0x100 * b1 + 0x1_0000 * b2 + 0x100_0000 * b3
  }

  /** The little-endian bytes of a 32-bit count. */
  function EncodeLe32(n: nat): (bs: seq<byte>)
    requires n < 0x1_0000_0000
    ensures |bs| == 4
  {
    [n % 0x100, (n / 0x100) % 0x100, (n / 0x1_0000) % 0x100, n / 0x100_0000]
  }

  /** Decoding the encoded count gives it back. */
  lemma Le32RoundTrip(n: nat)
    requires n < 0x1_0000_0000
    ensures var bs := EncodeLe32(n); Le32(bs[0], bs[1], bs[2], bs[3]) == n
  {
    var q1, q2, q3 := n / 0x100, n / 0x1_0000, n / 0x100_0000;
    assert n == n % 0x100 + 0x100 * q1;
    assert q1 == q1 % 0x100 + 0x100 * q2;
    assert q2 == q2 % 0x100 + 0x100 * q3;
  }

  /** The triangle count in bytes 80..83. */
  function Count(data: seq<byte>): nat
    requires |data| >= HeaderSize + 4
  {
    Le32(data[80], data[81], data[82], data[83])
  }

  function NormalOffset(i: nat): nat { HeaderSize + 4 + RecordSize * i }
  function VertexOffset(i: nat, j: nat): nat { HeaderSize + 4 + RecordSize * i + 12 + 12 * j }

  /** `struct.unpack("<3f", chunk)` on the 12 bytes at `off`. */
  function Vec3At(f32: seq<byte> -> real, data: seq<byte>, off: nat): Vec3
    requires off + 12 <= |data|
  {
    Vec3(f32(data[off..off + 4]), f32(data[off + 4..off + 8]), f32(data[off + 8..off + 12]))
  }

  /** The name taken from the header: trailing NULs removed, non-ASCII bytes dropped, stripped. */
  function HeaderName(header: seq<byte>, stem: string): (name: string)
    ensures name == stem || (|name| > 0 && !IsSpace(name[0]) && !IsSpace(name[|name| - 1]))
  {
    var s := Strip(DecodeIgnore(RStripNul(header)));
    if |s| > 0 then s else stem
  }

  /** Whether every read the decoder makes returns all the bytes it asks for. */
  predicate LongEnough(data: seq<byte>) {
    |data| >= HeaderSize + 4 && (Count(data) == 0 || |data| >= NormalOffset(Count(data)) - 2)
  }

  lemma DivMod3(k: nat, n: nat)
    requires k < 3 * n
    ensures k / 3 < n && k % 3 < 3 && k == 3 * (k / 3) + k % 3
  {
  }

  /** Every record the count announces lies inside a file that is long enough. */
  lemma RecordInFile(data: seq<byte>, i: nat, j: nat)
    requires LongEnough(data) && i < Count(data) && j < 3
    ensures NormalOffset(i) + 12 <= |data| && VertexOffset(i, j) + 12 <= |data|
  {
  }

  /** Vertex `k` of the flattened vertex array: vertex `k % 3` of triangle `k / 3`. */
  function VertexAt(f32: seq<byte> -> real, data: seq<byte>, k: nat): Vec3
    requires LongEnough(data) && k < 3 * Count(data)
  {
    DivMod3(k, Count(data));
    RecordInFile(data, k / 3, k % 3);
    Vec3At(f32, data, VertexOffset(k / 3, k % 3))
  }

  function NormalAt(f32: seq<byte> -> real, data: seq<byte>, i: nat): Vec3
    requires LongEnough(data) && i < Count(data)
  {
    RecordInFile(data, i, 0);
    Vec3At(f32, data, NormalOffset(i))
  }

  /** The flattened vertex array: three per triangle, in file order. */
  function Vertices(f32: seq<byte> -> real, data: seq<byte>): (vs: seq<Vec3>)
    requires LongEnough(data)
    ensures |vs| == 3 * Count(data)
  {
    seq(3 * Count(data), k requires 0 <= k < 3 * Count(data) => VertexAt(f32, data, k))
  }

  function Normals(f32: seq<byte> -> real, data: seq<byte>): (ns: seq<Vec3>)
    requires LongEnough(data)
    ensures |ns| == Count(data)
  {
    seq(Count(data), i requires 0 <= i < Count(data) => NormalAt(f32, data, i))
  }

  /** The first 80 bytes, or the whole file when it is shorter. */
  function Header(data: seq<byte>): seq<byte> {
    if |data| <= HeaderSize then data else data[..HeaderSize]
  }

  /** `_parse_binary`, by offsets: where each value lives in the file. */
  function BinaryDecode(f32: seq<byte> -> real, data: seq<byte>, stem: string): (r: Result<StlMesh>)
    ensures r.Success? <==> LongEnough(data)
  {
    if |data| < HeaderSize + 4 then Failure("unpack requires a buffer of 4 bytes")
    else if Count(data) > 0 && |data| < NormalOffset(Count(data)) - 2 then
      Failure("unpack requires a buffer of 12 bytes")
    else
      Success(StlMesh(Vertices(f32, data), FaceLayout(Count(data)), Normals(f32, data),
                      HeaderName(Header(data), stem)))
  }

  // ---------------------------------------------------------------------------
  // The decoder as the sequential reads the source makes
  // ---------------------------------------------------------------------------

  /** `f.read(k)` at `pos`: at most `k` bytes, fewer at the end of the file. */
  function ReadAt(data: seq<byte>, pos: nat, k: nat): (chunk: seq<byte>)
    requires pos <= |data|
    ensures |chunk| <= k && pos + |chunk| <= |data|
    ensures |chunk| == k <==> pos + k <= |data|
  {
    if pos + k <= |data| then data[pos..pos + k] else data[pos..]
  }

  function MinNat(a: nat, b: nat): nat { if a <= b then a else b }

  method ParseBinary(f32: seq<byte> -> real, data: seq<byte>, stem: string) returns (r: Result<StlMesh>)
    ensures r == BinaryDecode(f32, data, stem)
  {
    var pos := 0;
    var header := ReadAt(data, pos, HeaderSize);
    pos := pos + |header|;
    var name := stem;
    var headerStr := Strip(DecodeIgnore(RStripNul(header)));
    if |headerStr| > 0 {
      name := headerStr;
    }
    var countBytes := ReadAt(data, pos, 4);
    pos := pos + |countBytes|;
    if |countBytes| != 4 {
      return Failure("unpack requires a buffer of 4 bytes");
    }
    var n := Le32(countBytes[0], countBytes[1], countBytes[2], countBytes[3]);
    assert n == Count(data);
    var vertices := new Vec3[3 * n](_ => Zero);
    var normals := new Vec3[n](_ => Zero);
    var ok := ReadRecords(f32, data, vertices, normals);
    if !ok {
      return Failure("unpack requires a buffer of 12 bytes");
    }
    assert header == Header(data);
    r := Success(StlMesh(vertices[..], FaceLayout(n), normals[..], name));
  }

  /** The record loop: reads `Count(data)` records from offset 84 into the two arrays. */
  method ReadRecords(f32: seq<byte> -> real, data: seq<byte>, vertices: array<Vec3>, normals: array<Vec3>)
    returns (ok: bool)
    requires |data| >= HeaderSize + 4
    requires normals.Length == Count(data) && vertices.Length == 3 * Count(data) && vertices != normals
    modifies vertices, normals
    ensures ok <==> LongEnough(data)
    ensures ok ==> vertices[..] == Vertices(f32, data) && normals[..] == Normals(f32, data)
  {
    var n := Count(data);
    var pos := NormalOffset(0);
    var i := 0;
    while i < n
      invariant 0 <= i <= n
      invariant pos == MinNat(NormalOffset(i), |data|)
      invariant i > 0 ==> NormalOffset(i) - 2 <= |data|
      invariant forall t :: 0 <= t < i ==> normals[t] == Vec3At(f32, data, NormalOffset(t))
      invariant forall t, c :: 0 <= t < i && 0 <= c < 3 ==>
        vertices[3 * t + c] == Vec3At(f32, data, VertexOffset(t, c))
    {
      ok, pos := ReadRecord(f32, data, pos, i, vertices, normals);
      if !ok {
        assert !LongEnough(data);
        return;
      }
      i := i + 1;
    }
    ok := true;
    VerticesByOffset(f32, data, vertices[..]);
    NormalsByOffset(f32, data, normals[..]);
  }

  /**
   * One iteration of the record loop: the normal, three vertices and the attribute
   * bytes of triangle `i`; fails exactly when one of the 12-byte reads comes up short.
   */
  method ReadRecord(f32: seq<byte> -> real, data: seq<byte>, pos0: nat, i: nat,
                    vertices: array<Vec3>, normals: array<Vec3>) returns (ok: bool, pos: nat)
    requires pos0 == MinNat(NormalOffset(i), |data|)
    requires i < normals.Length && 3 * i + 2 < vertices.Length && vertices != normals
    modifies vertices, normals
    ensures ok <==> NormalOffset(i) + 48 <= |data|
    ensures ok ==> pos == MinNat(NormalOffset(i + 1), |data|)
    ensures ok ==> normals[i] == Vec3At(f32, data, NormalOffset(i))
    ensures ok ==> forall c :: 0 <= c < 3 ==> vertices[3 * i + c] == Vec3At(f32, data, VertexOffset(i, c))
    ensures forall t :: 0 <= t < normals.Length && t != i ==> normals[t] == old(normals[t])
    ensures forall k :: 0 <= k < vertices.Length && !(3 * i <= k < 3 * i + 3) ==> vertices[k] == old(vertices[k])
  {
    pos := pos0;
    var chunk := ReadAt(data, pos, 12);
    pos := pos + |chunk|;
    if |chunk| != 12 {
      return false, pos;
    }
    normals[i] := Vec3At(f32, data, pos - 12);
    ok, pos := ReadVertices(f32, data, pos, i, vertices);
    if !ok {
      return;
    }
    var attribute := ReadAt(data, pos, 2);
    pos := pos + |attribute|;
  }

  /** The three vertices of triangle `i`, read from `pos0`, just after its normal. */
  method ReadVertices(f32: seq<byte> -> real, data: seq<byte>, pos0: nat, i: nat, vertices: array<Vec3>)
    returns (ok: bool, pos: nat)
    requires pos0 == VertexOffset(i, 0) && pos0 <= |data|
    requires 3 * i + 2 < vertices.Length
    modifies vertices
    ensures ok <==> VertexOffset(i, 3) <= |data|
    ensures ok ==> pos == VertexOffset(i, 3)
    ensures !ok ==> pos == |data|
    ensures ok ==> forall c :: 0 <= c < 3 ==> vertices[3 * i + c] == Vec3At(f32, data, VertexOffset(i, c))
    ensures forall k :: 0 <= k < vertices.Length && !(3 * i <= k < 3 * i + 3) ==> vertices[k] == old(vertices[k])
  {
    pos := pos0;
    var j := 0;
    while j < 3
      invariant 0 <= j <= 3
      invariant pos == VertexOffset(i, j) && pos <= |data|
      invariant forall c :: 0 <= c < j ==> vertices[3 * i + c] == Vec3At(f32, data, VertexOffset(i, c))
      invariant forall k :: 0 <= k < vertices.Length && !(3 * i <= k < 3 * i + 3) ==> vertices[k] == old(vertices[k])
    {
      var chunk := ReadAt(data, pos, 12);
      pos := pos + |chunk|;
      if |chunk| != 12 {
        return false, pos;
      }
      vertices[3 * i + j] := Vec3At(f32, data, pos - 12);
      j := j + 1;
    }
    ok := true;
  }

  lemma VerticesByOffset(f32: seq<byte> -> real, data: seq<byte>, vs: seq<Vec3>)
    requires LongEnough(data) && |vs| == 3 * Count(data)
    requires forall t, c :: 0 <= t < Count(data) && 0 <= c < 3 ==>
      VertexOffset(t, c) + 12 <= |data| && vs[3 * t + c] == Vec3At(f32, data, VertexOffset(t, c))
    ensures vs == Vertices(f32, data)
  {
    forall k | 0 <= k < 3 * Count(data) ensures vs[k] == VertexAt(f32, data, k) {
      DivMod3(k, Count(data));
      var t, c := k / 3, k % 3;
      assert vs[3 * t + c] == Vec3At(f32, data, VertexOffset(t, c));
    }
  }

  lemma NormalsByOffset(f32: seq<byte> -> real, data: seq<byte>, ns: seq<Vec3>)
    requires LongEnough(data) && |ns| == Count(data)
    requires forall t :: 0 <= t < Count(data) ==>
      NormalOffset(t) + 12 <= |data| && ns[t] == Vec3At(f32, data, NormalOffset(t))
    ensures ns == Normals(f32, data)
  {
  }

  // ---------------------------------------------------------------------------
  // Properties of the decoder
  // ---------------------------------------------------------------------------

  /** n normals, 3n vertices and the standard face layout, so every face index is in range. */
  lemma BinaryLayout(f32: seq<byte> -> real, data: seq<byte>, stem: string)
    requires BinaryDecode(f32, data, stem).Success?
    ensures var m := BinaryDecode(f32, data, stem).value;
      && |m.normals| == Count(data)
      && |m.vertices| == 3 * |m.normals|
      && m.faces == FaceLayout(|m.normals|)
      && IndicesInRange(|m.vertices|, m.faces)
  {
    FaceLayoutInRange(Count(data));
  }

  /** Vertex j of triangle i is the 12 bytes at 84 + 50i + 12 + 12j. */
  lemma BinaryVertexOffset(f32: seq<byte> -> real, data: seq<byte>, stem: string, i: nat, j: nat)
    requires BinaryDecode(f32, data, stem).Success?
    requires i < Count(data) && j < 3
    ensures VertexOffset(i, j) + 12 <= |data|
    ensures BinaryDecode(f32, data, stem).value.vertices[3 * i + j] == Vec3At(f32, data, VertexOffset(i, j))
  {
    RecordInFile(data, i, j);
    var m := BinaryDecode(f32, data, stem).value;
    var k := 3 * i + j;
    assert k < 3 * Count(data);
    assert m.vertices == Vertices(f32, data);
    assert m.vertices[k] == VertexAt(f32, data, k);
    DivMod3Exact(i, j);
  }

  lemma DivMod3Exact(i: nat, j: nat)
    requires j < 3
    ensures (3 * i + j) / 3 == i && (3 * i + j) % 3 == j
  {
  }

  /** A value read from a prefix of the file is the value read from the file. */
  lemma Vec3AtPrefix(f32: seq<byte> -> real, p: seq<byte>, data: seq<byte>, off: nat)
    requires p <= data && off + 12 <= |p|
    ensures Vec3At(f32, p, off) == Vec3At(f32, data, off)
  {
    assert p[off..off + 4] == data[off..off + 4];
    assert p[off + 4..off + 8] == data[off + 4..off + 8];
    assert p[off + 8..off + 12] == data[off + 8..off + 12];
  }

  /** A long-enough prefix of a file decodes to the same vertices and normals. */
  lemma PrefixSameRecords(f32: seq<byte> -> real, p: seq<byte>, data: seq<byte>)
    requires p <= data && LongEnough(p) && LongEnough(data) && Count(p) == Count(data)
    ensures Vertices(f32, p) == Vertices(f32, data)
    ensures Normals(f32, p) == Normals(f32, data)
  {
    var n := Count(p);
    forall k | 0 <= k < 3 * n ensures VertexAt(f32, p, k) == VertexAt(f32, data, k) {
      DivMod3(k, n);
      RecordInFile(p, k / 3, k % 3);
      Vec3AtPrefix(f32, p, data, VertexOffset(k / 3, k % 3));
    }
    forall t | 0 <= t < n ensures NormalAt(f32, p, t) == NormalAt(f32, data, t) {
      RecordInFile(p, t, 0);
      Vec3AtPrefix(f32, p, data, NormalOffset(t));
    }
  }

  /** The last record's 2 attribute bytes are never checked: dropping them changes nothing. */
  lemma AttributeBytesUnchecked(f32: seq<byte> -> real, data: seq<byte>, stem: string)
    requires |data| >= HeaderSize + 4 && Count(data) > 0
    requires |data| == NormalOffset(Count(data))
    ensures BinaryDecode(f32, data[..|data| - 2], stem) == BinaryDecode(f32, data, stem)
  {
    var short := data[..|data| - 2];
    assert short[80] == data[80] && short[81] == data[81] && short[82] == data[82] && short[83] == data[83];
    assert Count(short) == Count(data);
    PrefixSameRecords(f32, short, data);
    assert Header(short) == Header(data);
  }

  /** One byte short of the last vertex makes the decoder fail instead of truncating. */
  lemma TruncationFails(f32: seq<byte> -> real, data: seq<byte>, stem: string)
    requires |data| >= HeaderSize + 4 && Count(data) > 0
    requires |data| == NormalOffset(Count(data)) - 3
    ensures BinaryDecode(f32, data, stem).Failure?
  {
  }
}
