/**
 JavaScript strings are sequences of UTF-16 code units: `password.length` counts
 code units, and a regular expression without the `u` flag matches one code unit
 at a time. This module defines the code-unit type the password model works on,
 and the UTF-16 encoding that turns a text of Unicode scalar values (Dafny's
 `string`) into the code units JavaScript sees.
 */
module CodeUnits {

  /** One UTF-16 code unit. */
  newtype CodeUnit = x: int | 0 <= x < 0x1_0000

  /** A character of the Basic Multilingual Plane is encoded as a single code unit. */
  predicate InBmp(c: char) {
    (c as int) < 0x1_0000
  }

  predicate IsHighSurrogate(u: CodeUnit) {
    0xD800 <= u as int < 0xDC00
  }

  predicate IsLowSurrogate(u: CodeUnit) {
    0xDC00 <= u as int < 0xE000
  }

  /** The scalar value a surrogate pair stands for. */
  function DecodePair(hi: CodeUnit, lo: CodeUnit): int
    requires IsHighSurrogate(hi) && IsLowSurrogate(lo)
  {
    0x1_0000 + (hi as int - 0xD800) * 0x400 + (lo as int - 0xDC00)
  }

  /** The UTF-16 encoding of one character: itself when it lies in the BMP,
      otherwise a high/low surrogate pair that decodes back to it. */
  function EncodeChar(c: char): (u: seq<CodeUnit>)
    ensures |u| == 1 <==> InBmp(c)
    ensures |u| == 1 || |u| == 2
    ensures |u| == 1 ==> u[0] as int == c as int
    ensures |u| == 2 ==>
              && IsHighSurrogate(u[0]) && IsLowSurrogate(u[1])
              && DecodePair(u[0], u[1]) == c as int
  {
    if InBmp(c) then
      [c as int as CodeUnit]
    else
      var v := c as int - 0x1_0000;
      [(0xD800 + v / 0x400) as CodeUnit, (0xDC00 + v % 0x400) as CodeUnit]
  }

  /** The number of characters of `s` outside the BMP. */
  function AstralCount(s: string): nat
  {
    if |s| == 0 then 0 else (if InBmp(s[0]) then 0 else 1) + AstralCount(s[1..])
  }

  /** The code units JavaScript holds for the text `s`. Its length, the value of
      `password.length`, is the number of characters plus one per character
      outside the BMP; a text entirely in the BMP is its own encoding. */
  function Utf16(s: string): (u: seq<CodeUnit>)
    ensures |u| == |s| + AstralCount(s)
    ensures |s| <= |u| <= 2 * |s|
    ensures (forall i :: 0 <= i < |s| ==> InBmp(s[i])) ==>
              |u| == |s| && forall i :: 0 <= i < |s| ==> u[i] as int == s[i] as int
  {
    if |s| == 0 then []
    else
      var head := EncodeChar(s[0]);
      var tail := Utf16(s[1..]);
      assert forall i :: 1 <= i < |s| ==> s[1..][i - 1] == s[i];
      head + tail
  }

  /** Encoding distributes over concatenation, so typing one more character
      appends exactly that character's code units. */
  lemma {:induction false} Utf16Append(s: string, t: string)
    ensures Utf16(s + t) == Utf16(s) + Utf16(t)
  {
    if |s| == 0 {
      assert s + t == t;
    } else {
      assert (s + t)[1..] == s[1..] + t;
      Utf16Append(s[1..], t);
    }
  }
}
