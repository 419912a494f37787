/**
 * `STLParser.parse`: detects the format from the first bytes, runs the ASCII or the binary
 * decoder, and then, when `merge_vertices` is set, merges duplicate vertices.
 */
module StlParser {
  import opened Wrappers
  import opened Vectors
  import opened StlText
  import opened Mesh
  import opened StlAscii
  import opened StlBinary
  import opened Welding

  /** The parser's constructor arguments and their defaults. */
  datatype ParserOptions = ParserOptions(mergeVertices: bool := true, mergeTolerance: real := 0.000001)

  /** The decoder the format detection picks, before any merging. */
  function Decode(parseFloat: string -> Option<real>, f32: seq<byte> -> real, data: seq<byte>, stem: string): Result<StlMesh> {
    if IsAsciiStl(data) then AsciiDecode(parseFloat, data, stem) else BinaryDecode(f32, data, stem)
  }

  /** `parse` on the file's bytes; `stem` is the file name without its extension. */
  function Parse(parseFloat: string -> Option<real>, f32: seq<byte> -> real, round: real -> int,
                 opts: ParserOptions, data: seq<byte>, stem: string): (r: Result<StlMesh>)
    ensures !opts.mergeVertices ==> r == Decode(parseFloat, f32, data, stem)
    ensures r.Success? ==> Decode(parseFloat, f32, data, stem).Success?
  {
    match Decode(parseFloat, f32, data, stem)
    case Failure(e) => Failure(e)
    case Success(m) => if opts.mergeVertices then Weld(round, opts.mergeTolerance, m) else Success(m)
  }

  /** Every mesh either decoder produces has the standard layout of n faces over 3n vertices. */
  lemma DecodeLayout(parseFloat: string -> Option<real>, f32: seq<byte> -> real, data: seq<byte>, stem: string)
    requires Decode(parseFloat, f32, data, stem).Success?
    ensures var m := Decode(parseFloat, f32, data, stem).value;
      && |m.vertices| == 3 * |m.faces|
      && m.faces == FaceLayout(|m.faces|)
      && |m.normals| == |m.faces|
      && Indexable(m)
  {
    if IsAsciiStl(data) {
      AsciiLayout(parseFloat, data, stem);
    } else {
      BinaryLayout(f32, data, stem);
    }
  }

  /**
   * Parsing fails only where decoding fails, or where merging is on with a zero
   * tolerance; a parsed mesh keeps one normal per face and every index in range.
   */
  lemma ParseSucceeds(parseFloat: string -> Option<real>, f32: seq<byte> -> real, round: real -> int,
                      opts: ParserOptions, data: seq<byte>, stem: string)
    ensures Parse(parseFloat, f32, round, opts, data, stem).Success?
      <==> Decode(parseFloat, f32, data, stem).Success? && (opts.mergeVertices ==> opts.mergeTolerance != 0.0)
    ensures var r := Parse(parseFloat, f32, round, opts, data, stem);
      r.Success? ==> |r.value.normals| == |r.value.faces| && Indexable(r.value)
  {
    var d := Decode(parseFloat, f32, data, stem);
    if d.Success? {
      DecodeLayout(parseFloat, f32, data, stem);
      var m := d.value;
      if opts.mergeVertices && opts.mergeTolerance != 0.0 {
        WeldLayout(round, opts.mergeTolerance, m);
        WeldInRange(round, opts.mergeTolerance, m);
      }
    }
  }

  /** With merging on, the parsed mesh is already merged: merging it again changes nothing. */
  lemma ParseMerged(parseFloat: string -> Option<real>, f32: seq<byte> -> real, round: real -> int,
                    opts: ParserOptions, data: seq<byte>, stem: string)
    requires opts.mergeVertices
    requires Parse(parseFloat, f32, round, opts, data, stem).Success?
    ensures var m := Parse(parseFloat, f32, round, opts, data, stem).value;
      Weld(round, opts.mergeTolerance, m) == Success(m)
  {
    var m := Decode(parseFloat, f32, data, stem).value;
    WeldIdempotent(round, opts.mergeTolerance, m);
  }

  /**
   * A file detected as ASCII is never handed to the binary decoder: a byte of 128 or
   * more after the first 1000 makes the whole parse fail.
   */
  lemma NoBinaryFallback(parseFloat: string -> Option<real>, f32: seq<byte> -> real, round: real -> int,
                         opts: ParserOptions, data: seq<byte>, stem: string, i: nat)
    requires IsAsciiStl(data) && i < |data| && data[i] >= 128
    ensures Parse(parseFloat, f32, round, opts, data, stem).Failure?
  {
    AsciiDecodeRejectsHighBytes(parseFloat, data, stem, i);
  }
}
