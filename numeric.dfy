/**
 * Fixed-width integers of the Rust source and their big-endian byte forms
 * (`to_be_bytes` / `from_be_bytes`, `put_i32`, `get_i32`, ...).
 *
 * Integers are unbounded in Dafny; the Rust widths are subset types, and the
 * casts the source performs (`len() as i32`, `len() as u16`, `u8 as i8`) are
 * written out as explicit wrap-around or truncation.
 */
module Numeric {

  type u8 = x: int | 0 <= x < 0x100
  type u16 = x: int | 0 <= x < 0x1_0000
  type u32 = x: int | 0 <= x < 0x1_0000_0000
  type u64 = x: int | 0 <= x < 0x1_0000_0000_0000_0000
  type i8 = x: int | -0x80 <= x < 0x80
  type i16 = x: int | -0x8000 <= x < 0x8000
  type i32 = x: int | -0x8000_0000 <= x < 0x8000_0000
  type i64 = x: int | -0x8000_0000_0000_0000 <= x < 0x8000_0000_0000_0000

  /** `usize` on a 64-bit target; its arithmetic is overflow-checked, so a sum of 2^64 or more panics. */
  type usize = u64
  const USIZE_LIMIT: int := 0x1_0000_0000_0000_0000
  /** The longest a Rust slice can be: `isize::MAX` bytes. */
  const MAX_SLICE_LEN: int := 0x7FFF_FFFF_FFFF_FFFF

  /** IEEE-754 values are carried as their raw bit patterns and copied verbatim. */
  type f32 = u32
  type f64 = u64

  /** 256 to the n-th power: the number of distinct n-byte values. */
  function Pow256(n: nat): (p: int)
    ensures p >= 1
  {
    if n == 0 then 1 else 256 * Pow256(n - 1)
  }

  lemma Pow256Widths()
    ensures Pow256(1) == 0x100
    ensures Pow256(2) == 0x1_0000
    ensures Pow256(4) == 0x1_0000_0000
    ensures Pow256(8) == 0x1_0000_0000_0000_0000
  {
    assert Pow256(2) == 256 * Pow256(1);
    assert Pow256(4) == 256 * (256 * Pow256(2));
    assert Pow256(8) == 256 * (256 * (256 * (256 * Pow256(4))));
  }

  /** The n-byte big-endian form of v. */
  function BeBytes(v: nat, n: nat): (r: seq<u8>)
    requires v < Pow256(n)
    ensures |r| == n
  {
    if n == 0 then [] else BeBytes(v / 256, n - 1) + [v % 256]
  }

  /** The unsigned value whose big-endian form is s. */
  function FromBe(s: seq<u8>): (v: nat)
    ensures v < Pow256(|s|)
  {
    if s == [] then 0 else FromBe(s[..|s| - 1]) * 256 + s[|s| - 1]
  }

  lemma {:induction false} FromBeOfBeBytes(v: nat, n: nat)
    requires v < Pow256(n)
    ensures FromBe(BeBytes(v, n)) == v
  {
    if n > 0 {
      var b := BeBytes(v, n);
      assert b[..n - 1] == BeBytes(v / 256, n - 1);
      FromBeOfBeBytes(v / 256, n - 1);
    }
  }

  lemma {:induction false} BeBytesOfFromBe(s: seq<u8>)
    ensures BeBytes(FromBe(s), |s|) == s
  {
    if s != [] {
      var p := s[..|s| - 1];
      BeBytesOfFromBe(p);
      assert FromBe(s) / 256 == FromBe(p);
      assert s == p + [s[|s| - 1]];
    }
  }

  /** Two's-complement bit pattern of v at n bytes. */
  function Unsigned(v: int, n: nat): (u: nat)
    requires -Pow256(n) <= 2 * v < Pow256(n)
    ensures u < Pow256(n)
    ensures u == v || u == v + Pow256(n)
  {
    if v < 0 then v + Pow256(n) else v
  }

  /** The signed value of an n-byte two's-complement bit pattern. */
  function Signed(u: nat, n: nat): (v: int)
    requires u < Pow256(n)
    ensures -Pow256(n) <= 2 * v < Pow256(n)
    ensures v == u || v == u - Pow256(n)
  {
    if 2 * u >= Pow256(n) then u - Pow256(n) else u
  }

  lemma SignedOfUnsigned(v: int, n: nat)
    requires -Pow256(n) <= 2 * v < Pow256(n)
    ensures Signed(Unsigned(v, n), n) == v
  {
  }

  // Big-endian writers (`put_*` of `BufMut`).

  function I8Bytes(v: i8): (r: seq<u8>)
    ensures |r| == 1
  {
    Pow256Widths();
    BeBytes(Unsigned(v, 1), 1)
  }

  function I16Bytes(v: i16): (r: seq<u8>)
    ensures |r| == 2
  {
    Pow256Widths();
    BeBytes(Unsigned(v, 2), 2)
  }

  function U16Bytes(v: u16): (r: seq<u8>)
    ensures |r| == 2
  {
    Pow256Widths();
    BeBytes(v, 2)
  }

  function I32Bytes(v: i32): (r: seq<u8>)
    ensures |r| == 4
  {
    Pow256Widths();
    BeBytes(Unsigned(v, 4), 4)
  }

  function U32Bytes(v: u32): (r: seq<u8>)
    ensures |r| == 4
  {
    Pow256Widths();
    BeBytes(v, 4)
  }

  function I64Bytes(v: i64): (r: seq<u8>)
    ensures |r| == 8
  {
    Pow256Widths();
    BeBytes(Unsigned(v, 8), 8)
  }

  function U64Bytes(v: u64): (r: seq<u8>)
    ensures |r| == 8
  {
    Pow256Widths();
    BeBytes(v, 8)
  }

  // Big-endian readers (`from_be_bytes`).

  function BeI8(s: seq<u8>): i8
    requires |s| == 1
  {
    Pow256Widths();
    Signed(FromBe(s), 1)
  }

  function BeI16(s: seq<u8>): i16
    requires |s| == 2
  {
    Pow256Widths();
    Signed(FromBe(s), 2)
  }

  function BeU16(s: seq<u8>): u16
    requires |s| == 2
  {
    Pow256Widths();
    FromBe(s)
  }

  function BeI32(s: seq<u8>): i32
    requires |s| == 4
  {
    Pow256Widths();
    Signed(FromBe(s), 4)
  }

  function BeU32(s: seq<u8>): u32
    requires |s| == 4
  {
    Pow256Widths();
    FromBe(s)
  }

  function BeI64(s: seq<u8>): i64
    requires |s| == 8
  {
    Pow256Widths();
    Signed(FromBe(s), 8)
  }

  function BeU64(s: seq<u8>): u64
    requires |s| == 8
  {
    Pow256Widths();
    FromBe(s)
  }

  // Every fixed-width reader inverts the writer of the same width.

  lemma I8RoundTrip(v: i8)
    ensures BeI8(I8Bytes(v)) == v
  {
    Pow256Widths();
    FromBeOfBeBytes(Unsigned(v, 1), 1);
  }

  lemma I16RoundTrip(v: i16)
    ensures BeI16(I16Bytes(v)) == v
  {
    Pow256Widths();
    FromBeOfBeBytes(Unsigned(v, 2), 2);
  }

  lemma U16RoundTrip(v: u16)
    ensures BeU16(U16Bytes(v)) == v
  {
    Pow256Widths();
    FromBeOfBeBytes(v, 2);
  }

  lemma I32RoundTrip(v: i32)
    ensures BeI32(I32Bytes(v)) == v
  {
    Pow256Widths();
    FromBeOfBeBytes(Unsigned(v, 4), 4);
  }

  lemma U32RoundTrip(v: u32)
    ensures BeU32(U32Bytes(v)) == v
  {
    Pow256Widths();
    FromBeOfBeBytes(v, 4);
  }

  lemma I64RoundTrip(v: i64)
    ensures BeI64(I64Bytes(v)) == v
  {
    Pow256Widths();
    FromBeOfBeBytes(Unsigned(v, 8), 8);
  }

  lemma U64RoundTrip(v: u64)
    ensures BeU64(U64Bytes(v)) == v
  {
    Pow256Widths();
    FromBeOfBeBytes(v, 8);
  }

  /** The one-byte case of `BeBytesOfReaders`. */
  lemma BeI8Inverse(s: seq<u8>)
    requires |s| == 1
    ensures I8Bytes(BeI8(s)) == s
  {
    BeBytesOfReaders(s);
  }

  /** Every fixed-width writer inverts the reader of the same width. */
  lemma BeBytesOfReaders(s: seq<u8>)
    ensures |s| == 1 ==> I8Bytes(BeI8(s)) == s
    ensures |s| == 2 ==> I16Bytes(BeI16(s)) == s && U16Bytes(BeU16(s)) == s
    ensures |s| == 4 ==> I32Bytes(BeI32(s)) == s && U32Bytes(BeU32(s)) == s
    ensures |s| == 8 ==> I64Bytes(BeI64(s)) == s && U64Bytes(BeU64(s)) == s
  {
    Pow256Widths();
    BeBytesOfFromBe(s);
  }

  /** `n as i32` for a length n: keeps the low 32 bits, read as two's complement. */
  function LenAsI32(n: nat): (r: i32)
    ensures n < 0x8000_0000 ==> r == n
  {
    Pow256Widths();
    Signed(n % 0x1_0000_0000, 4)
  }

  /** `n as u16` for a length n: keeps the low 16 bits. */
  function LenAsU16(n: nat): (r: u16)
    ensures n < 0x1_0000 ==> r == n
    ensures n >= 0x1_0000 ==> r != n
  {
    n % 0x1_0000
  }

  /** `b as i8` for a byte b: the same bit pattern read as two's complement. */
  function U8AsI8(b: u8): (r: i8)
    ensures 0 <= r ==> r == b
    ensures r < 0 ==> r == b - 256
  {
    if b < 0x80 then b else b - 256
  }

  /** `v as u8` for an i8 v: the bit pattern of v. */
  function I8AsU8(v: i8): (r: u8)
    ensures U8AsI8(r) == v
  {
    if v < 0 then v + 256 else v
  }
}
