/** UTF-8, as far as the part-name length check needs it. `encoding/json`
    turns the characters of a JSON string into a Go string holding their
    UTF-8 encoding, and the handler then limits `len` of that string, which
    counts bytes. This module relates the two lengths. */
module Utf8 {
  import opened Base

  /** A Unicode scalar value: a code point that is not a surrogate. */
  type CodePoint = c: int | 0 <= c < 0x11_0000 && !(0xD800 <= c < 0xE000)

  /** The UTF-8 encoding of one code point: one byte below U+0080, two below
      U+0800, three below U+10000, four otherwise. */
  function EncodeRune(c: CodePoint): (r: Bytes)
    ensures 1 <= |r| <= 4
    ensures |r| == 1 <==> c < 0x80
    ensures |r| == 4 <==> 0x1_0000 <= c
    ensures forall i :: 1 <= i < |r| ==> 0x80 <= r[i] < 0xC0
  {
    if c < 0x80 then
      [c as byte]
    else if c < 0x800 then
      [(0xC0 + c / 64) as byte, (0x80 + c % 64) as byte]
    else if c < 0x1_0000 then
      [(0xE0 + c / 4096) as byte, (0x80 + (c / 64) % 64) as byte, (0x80 + c % 64) as byte]
    else
      [(0xF0 + c / 262144) as byte, (0x80 + (c / 4096) % 64) as byte,
       (0x80 + (c / 64) % 64) as byte, (0x80 + c % 64) as byte]
  }

  /** The UTF-8 encoding of a string of code points: at least one byte and at
      most four bytes per code point. */
  function Encode(s: seq<CodePoint>): (r: Bytes)
    ensures |s| <= |r| <= 4 * |s|
    ensures r == [] <==> s == []
    ensures (forall i :: 0 <= i < |s| ==> s[i] < 0x80) ==> |r| == |s|
  {
    if s == [] then [] else EncodeRune(s[0]) + Encode(s[1..])
  }

  /** A string whose encoding is non-empty and shorter than `limit` bytes is
      non-empty and has fewer than `limit` characters. */
  lemma ByteLimitBoundsCharacters(s: seq<CodePoint>, limit: int)
    requires 0 < |Encode(s)| < limit
    ensures 0 < |s| < limit
  {
  }

  /** A string of `n` code points at or above U+10000 takes exactly `4 * n`
      bytes. */
  lemma {:induction false} AstralLength(s: seq<CodePoint>)
    requires forall i :: 0 <= i < |s| ==> 0x1_0000 <= s[i]
    ensures |Encode(s)| == 4 * |s|
  {
    if s != [] {
      AstralLength(s[1..]);
    }
  }
}
