/**
 * The parts of Python's `bytes`/`str` behaviour the STL decoders rely on, over ASCII
 * text: `bytes.decode("ascii")` (strict and with `errors="ignore"`), `str.isspace`,
 * `strip`, `lower`, `startswith`, the `in` substring test, `split()` on whitespace runs,
 * `split("\n")` and `" ".join`.
 */
module StlText {
  import opened Wrappers

  type byte = x: int | 0 <= x < 256

  /** Every byte is below 128, so `decode("ascii")` succeeds. */
  predicate AllAscii(bs: seq<byte>) {
    forall i :: 0 <= i < |bs| ==> bs[i] < 128
  }

  function ByteChar(b: byte): char
    requires b < 128
  {
    b as char
  }

  /** `bs.decode("ascii")`: fails on the first byte that is 128 or more. */
  function DecodeAscii(bs: seq<byte>): (r: Option<string>)
    ensures r.Some? <==> AllAscii(bs)
    ensures r.Some? ==> |r.value| == |bs| && forall i :: 0 <= i < |bs| ==> r.value[i] as int == bs[i]
  {
    if AllAscii(bs) then Some(seq(|bs|, i requires 0 <= i < |bs| => ByteChar(bs[i]))) else None
  }

  /** `bs.decode("ascii", errors="ignore")`: drops every byte that is 128 or more. */
  function DecodeIgnore(bs: seq<byte>): (r: string)
    ensures |r| <= |bs|
    ensures forall i :: 0 <= i < |r| ==> (r[i] as int) < 128
    ensures AllAscii(bs) ==> |r| == |bs| && forall i :: 0 <= i < |bs| ==> r[i] as int == bs[i]
    decreases |bs|
  {
    if |bs| == 0 then ""
    else
      var rest := DecodeIgnore(bs[1..]);
      if bs[0] < 128 then [ByteChar(bs[0])] + rest else rest
  }

  /** `bytes.rstrip(b"\x00")`: removes trailing NUL bytes. */
  function RStripNul(bs: seq<byte>): (r: seq<byte>)
    ensures r <= bs
    ensures |r| > 0 ==> r[|r| - 1] != 0
    ensures forall i :: |r| <= i < |bs| ==> bs[i] == 0
    decreases |bs|
  {
    if |bs| == 0 then bs
    else if bs[|bs| - 1] == 0 then RStripNul(bs[..|bs| - 1])
    else bs
  }

  /** `str.isspace()` on a one-character ASCII string: tab, newline, vertical tab, form
      feed, carriage return, the four information separators 0x1c-0x1f, and space. */
  predicate IsSpace(c: char) {
    (9 <= c as int <= 13) || (28 <= c as int <= 32)
  }

  function LowerChar(c: char): char {
    if 'A' <= c <= 'Z' then (c as int + 32) as char else c
  }

  /** `str.lower()` on ASCII text. */
  function Lower(s: string): (r: string)
    ensures |r| == |s|
    ensures forall i :: 0 <= i < |s| ==> r[i] == LowerChar(s[i])
  {
    seq(|s|, i requires 0 <= i < |s| => LowerChar(s[i]))
  }

  function LStrip(s: string): (r: string)
    ensures |r| <= |s| && r == s[|s| - |r|..]
    ensures |r| > 0 ==> !IsSpace(r[0])
    ensures forall i :: 0 <= i < |s| - |r| ==> IsSpace(s[i])
    decreases |s|
  {
    if |s| > 0 && IsSpace(s[0]) then LStrip(s[1..]) else s
  }

  function RStrip(s: string): (r: string)
    ensures r <= s
    ensures |r| > 0 ==> !IsSpace(r[|r| - 1])
    ensures forall i :: |r| <= i < |s| ==> IsSpace(s[i])
    decreases |s|
  {
    if |s| > 0 && IsSpace(s[|s| - 1]) then RStrip(s[..|s| - 1]) else s
  }

  /** `str.strip()`: removes leading and trailing whitespace. */
  function Strip(s: string): (r: string)
    ensures |r| > 0 ==> !IsSpace(r[0]) && !IsSpace(r[|r| - 1])
  {
    RStrip(LStrip(s))
  }

  predicate StartsWith(s: string, p: string) {
    |p| <= |s| && s[..|p|] == p
  }

  /** `p in s` for strings: `p` occurs in `s` at some offset. */
  predicate Contains(s: string, p: string)
    decreases |s|
  {
    StartsWith(s, p) || (|s| > 0 && Contains(s[1..], p))
  }

  // ---------------------------------------------------------------------------
  // str.split("\n") and its inverse "\n".join
  // ---------------------------------------------------------------------------

  /** `s.split(sep)` for a one-character separator: always at least one piece. */
  function SplitOn(s: string, sep: char): (r: seq<string>)
    ensures |r| >= 1
    ensures forall k :: 0 <= k < |r| ==> sep !in r[k]
    decreases |s|
  {
    if |s| == 0 then [""]
    else
      var rest := SplitOn(s[1..], sep);
      if s[0] == sep then [""] + rest
      else [[s[0]] + rest[0]] + rest[1..]
  }

  /** `sep.join(parts)`. */
  function Join(parts: seq<string>, sep: string): string
    decreases |parts|
  {
    if |parts| == 0 then ""
    else if |parts| == 1 then parts[0]
    else parts[0] + sep + Join(parts[1..], sep)
  }

  /** Joining the pieces of a split with the separator gives back the text. */
  lemma {:induction false} JoinSplitOn(s: string, sep: char)
    ensures Join(SplitOn(s, sep), [sep]) == s
    decreases |s|
  {
    if |s| > 0 {
      var rest := SplitOn(s[1..], sep);
      JoinSplitOn(s[1..], sep);
      if s[0] == sep {
        assert SplitOn(s, sep) == [""] + rest;
        assert ([""] + rest)[1..] == rest;
      } else {
        var r := [[s[0]] + rest[0]] + rest[1..];
        if |rest| == 1 {
          assert Join(r, [sep]) == [s[0]] + rest[0];
        } else {
          assert r[1..] == rest[1..];
          assert Join(rest, [sep]) == rest[0] + [sep] + Join(rest[1..], [sep]);
        }
      }
    }
  }

  // ---------------------------------------------------------------------------
  // str.split() with no argument: maximal runs of non-whitespace
  // ---------------------------------------------------------------------------

  /** The longest prefix of `s` without whitespace. */
  function Word(s: string): (w: string)
    ensures w <= s
    ensures forall i :: 0 <= i < |w| ==> !IsSpace(w[i])
    ensures |w| < |s| ==> IsSpace(s[|w|])
    decreases |s|
  {
    if |s| == 0 || IsSpace(s[0]) then "" else [s[0]] + Word(s[1..])
  }

  predicate IsToken(w: string) {
    |w| > 0 && forall i :: 0 <= i < |w| ==> !IsSpace(w[i])
  }

  /** `s.split()`: the maximal whitespace-free runs of `s`, in order. */
  function Tokens(s: string): (r: seq<string>)
    ensures forall k :: 0 <= k < |r| ==> IsToken(r[k])
    decreases |s|
  {
    if |s| == 0 then []
    else if IsSpace(s[0]) then Tokens(s[1..])
    else
      var w := Word(s);
      [w] + Tokens(s[|w|..])
  }

  lemma WordOfToken(w: string, rest: string)
    requires IsToken(w)
    requires |rest| == 0 || IsSpace(rest[0])
    ensures Word(w + rest) == w
    decreases |w|
  {
    if |w| > 1 {
      assert (w + rest)[1..] == w[1..] + rest;
      WordOfToken(w[1..], rest);
    } else {
      assert (w + rest)[1..] == rest;
    }
  }

  lemma TokensAfterSpace(s: string)
    requires |s| > 0 && IsSpace(s[0])
    ensures Tokens(s) == Tokens(s[1..])
  {
  }

  /**
   * Splitting the single-space join of tokens gives back the tokens: the name a `solid`
   * line sets can be split again into the words that formed it.
   */
  lemma {:induction false} TokensOfJoin(words: seq<string>)
    requires forall k :: 0 <= k < |words| ==> IsToken(words[k])
    ensures Tokens(Join(words, " ")) == words
    decreases |words|
  {
    if |words| == 1 {
      TokensNoSpace(words[0]);
    } else if |words| > 1 {
      var w := words[0];
      var tail := Join(words[1..], " ");
      var s := w + " " + tail;
      assert Join(words, " ") == s;
      assert s == w + (" " + tail);
      WordOfToken(w, " " + tail);
      assert s[|w|..] == " " + tail;
      TokensAfterSpace(" " + tail);
      assert (" " + tail)[1..] == tail;
      TokensOfJoin(words[1..]);
    }
  }

  /** Text with no whitespace at all is a single token, or none if it is empty. */
  lemma TokensNoSpace(s: string)
    requires forall i :: 0 <= i < |s| ==> !IsSpace(s[i])
    ensures Tokens(s) == if |s| == 0 then [] else [s]
  {
    if |s| > 0 {
      WordOfToken(s, "");
      assert s + "" == s;
      assert s[|s|..] == "";
    }
  }

  /** Stripping first does not change the tokens. */
  lemma {:induction false} TokensLStrip(s: string)
    ensures Tokens(LStrip(s)) == Tokens(s)
    decreases |s|
  {
    if |s| > 0 && IsSpace(s[0]) {
      TokensLStrip(s[1..]);
    }
  }
}
