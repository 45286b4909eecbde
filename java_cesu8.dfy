/**
 * Java's "modified UTF-8" (CESU-8 with NUL written as C0 80), the string
 * encoding of NBT.
 *
 * The model keeps every NBT string in this encoded form. Writing a string
 * (`to_java_cesu8`) is then the identity, and reading one (`from_java_cesu8`)
 * is the question whether the bytes are well-formed, answered by the
 * predicate below.
 */
module JavaCesu8 {
  import opened Numeric

  /** A string as the bytes of its Java modified UTF-8 encoding. */
  type JavaString = seq<u8>

  predicate Continuation(b: u8) {
    0x80 <= b <= 0xBF
  }

  /** One code unit below U+0080 other than NUL: a single byte. */
  predicate OneByteUnit(b: u8) {
    0x01 <= b <= 0x7F
  }

  /** One code unit in U+0080..U+07FF, or NUL as C0 80. */
  predicate TwoByteUnit(b0: u8, b1: u8) {
    Continuation(b1) && ((0xC2 <= b0 <= 0xDF) || (b0 == 0xC0 && b1 == 0x80))
  }

  /** One code unit in U+0800..U+FFFF that is not a surrogate. */
  predicate ThreeByteUnit(b0: u8, b1: u8, b2: u8) {
    0xE0 <= b0 <= 0xEF && Continuation(b1) && Continuation(b2)
    && (b0 == 0xE0 ==> b1 >= 0xA0)
    && (b0 == 0xED ==> b1 < 0xA0)
  }

  /** A supplementary code point as a high surrogate followed by a low one, three bytes each. */
  predicate SurrogatePair(s: seq<u8>)
    requires |s| == 6
  {
    s[0] == 0xED && 0xA0 <= s[1] <= 0xAF && Continuation(s[2])
    && s[3] == 0xED && 0xB0 <= s[4] <= 0xBF && Continuation(s[5])
  }

  /** The bytes are a sequence of well-formed code units. */
  predicate IsJavaCesu8(s: seq<u8>)
    decreases |s|
  {
    if s == [] then true
    else if OneByteUnit(s[0]) then IsJavaCesu8(s[1..])
    else if |s| >= 2 && TwoByteUnit(s[0], s[1]) then IsJavaCesu8(s[2..])
    else if |s| >= 6 && SurrogatePair(s[..6]) then IsJavaCesu8(s[6..])
    else if |s| >= 3 && ThreeByteUnit(s[0], s[1], s[2]) then IsJavaCesu8(s[3..])
    else false
  }

  /** The encoding of a string of characters U+0001..U+007F: one byte per character. */
  function Ascii(s: string): (r: JavaString)
    requires forall i :: 0 <= i < |s| ==> 0 < s[i] as int < 0x80
    ensures |r| == |s|
    ensures forall i :: 0 <= i < |s| ==> r[i] == s[i] as int
    ensures IsJavaCesu8(r)
  {
    if s == [] then []
    else
      var r := [s[0] as int as u8] + Ascii(s[1..]);
      assert r[1..] == Ascii(s[1..]);
      r
  }
}
