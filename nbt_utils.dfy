/**
 * Tag ids and the two shared readers of the codec: the length-prefixed
 * string (`get_nbt_string`) and the fixed-width array reader (`read_array`).
 */
module NbtUtils {
  import opened Numeric
  import opened Errors
  import opened ByteBuf
  import opened JavaCesu8

  const END_ID: u8 := 0
  const BYTE_ID: u8 := 1
  const SHORT_ID: u8 := 2
  const INT_ID: u8 := 3
  const LONG_ID: u8 := 4
  const FLOAT_ID: u8 := 5
  const DOUBLE_ID: u8 := 6
  const BYTE_ARRAY_ID: u8 := 7
  const STRING_ID: u8 := 8
  const LIST_ID: u8 := 9
  const COMPOUND_ID: u8 := 10
  const INT_ARRAY_ID: u8 := 11
  const LONG_ARRAY_ID: u8 := 12

  /** The ids in the order the tag variants are declared. */
  const TAG_IDS: seq<u8> := [END_ID, BYTE_ID, SHORT_ID, INT_ID, LONG_ID, FLOAT_ID, DOUBLE_ID,
                            BYTE_ARRAY_ID, STRING_ID, LIST_ID, COMPOUND_ID, INT_ARRAY_ID, LONG_ARRAY_ID]

  /** The ids are 0..12 in variant order, hence pairwise distinct. */
  lemma TagIdsFollowVariantOrder()
    ensures |TAG_IDS| == 13
    ensures forall i :: 0 <= i < |TAG_IDS| ==> TAG_IDS[i] == i
    ensures forall i, j :: 0 <= i < j < |TAG_IDS| ==> TAG_IDS[i] != TAG_IDS[j]
  {
  }

  /** The string framing as written: the u16 big-endian length, then the bytes. */
  function StringPayload(s: JavaString): (r: seq<u8>)
    ensures |r| == 2 + |s|
    ensures r[2..] == s
  {
    U16Bytes(LenAsU16(|s|)) + s
  }

  /** `get_nbt_string` on the input. */
  function NbtString(input: seq<u8>): (r: Parse<JavaString>)
    ensures r.Panicked? <==> |input| < 2 || |input| < 2 + BeU16(input[..2])
    ensures r.Done? ==> IsJavaCesu8(r.value) && StringPayload(r.value) + r.rest == input
    ensures r.Failed? ==> r.error == InvalidJavaString && |r.rest| <= |input| - 2
    ensures r.Failed? ==> !IsJavaCesu8(input[2..|input| - |r.rest|])
  {
    if |input| < 2 then Panicked
    else
      var len := BeU16(input[..2]);
      if |input| < 2 + len then Panicked
      else
        var s := input[2..2 + len];
        BeBytesOfReaders(input[..2]);
        assert StringPayload(s) + input[2 + len..] == input;
        if IsJavaCesu8(s) then Done(s, input[2 + len..]) else Failed(InvalidJavaString, input[2 + len..])
  }

  /** Reading a framed string back gives the string and leaves the rest. */
  lemma NbtStringOfPayload(s: JavaString, rest: seq<u8>)
    requires |s| < 0x1_0000 && IsJavaCesu8(s)
    ensures NbtString(StringPayload(s) + rest) == Done(s, rest)
  {
    var input := StringPayload(s) + rest;
    assert input[..2] == U16Bytes(|s|);
    U16RoundTrip(|s|);
    assert input[2..2 + |s|] == s;
    assert input[2 + |s|..] == rest;
  }

  /** `get_nbt_string(bytes)`: the u16 length, that many bytes, then the validity check. */
  method GetNbtString(buf: Buf) returns (r: Result<JavaString>)
    modifies buf
    ensures Observe(r, buf.data) == NbtString(old(buf.data))
  {
    ghost var input := buf.data;
    var len := buf.GetU16();
    if !len.Ok? {
      return Panic;
    }
    var stringBytes := buf.CopyToBytes(len.value);
    if !stringBytes.Ok? {
      return Panic;
    }
    assert stringBytes.value == input[2..2 + len.value];
    if !IsJavaCesu8(stringBytes.value) {
      return Err(InvalidJavaString);
    }
    r := Ok(stringBytes.value);
  }

  /** i * n, computed by repeated addition so that chunk arithmetic stays linear. */
  function Offset(i: nat, n: nat): nat
  {
    if i == 0 then 0 else Offset(i - 1, n) + n
  }

  lemma {:induction false} OffsetIsProduct(i: nat, n: nat)
    ensures Offset(i, n) == i * n
  {
    if i > 0 {
      OffsetIsProduct(i - 1, n);
      assert (i - 1) * n + n == i * n;
    }
  }

  /** The `chunks_exact(n)` / `map(from_be)` / `collect` pipeline on `count * n` bytes. */
  function Chunks<T>(s: seq<u8>, n: nat, count: nat, fromBe: seq<u8> -> T): (r: seq<T>)
    requires |s| == Offset(count, n)
    ensures |r| == count
  {
    if count == 0 then [] else [fromBe(s[..n])] + Chunks(s[n..], n, count - 1, fromBe)
  }

  /** Element i of the chunked result is `from_be` of bytes [i * n, (i + 1) * n): order is kept. */
  lemma {:induction false} ChunksAt<T>(s: seq<u8>, n: nat, count: nat, fromBe: seq<u8> -> T, i: nat)
    requires |s| == Offset(count, n)
    requires i < count
    ensures Offset(i, n) + n <= |s|
    ensures Chunks(s, n, count, fromBe)[i] == fromBe(s[Offset(i, n)..Offset(i, n) + n])
  {
    if i > 0 {
      ChunksAt(s[n..], n, count - 1, fromBe, i - 1);
      assert s[n..][Offset(i - 1, n)..Offset(i - 1, n) + n] == s[Offset(i, n)..Offset(i, n) + n];
    }
  }

  /**
   * `read_array(bytes, count, from_be)` for elements of n bytes: one
   * `copy_to_bytes(count * n)`, then the chunking pipeline, which panics
   * for a chunk size of zero.
   */
  method ReadArray<T>(buf: Buf, count: nat, n: nat, fromBe: seq<u8> -> T) returns (r: Result<seq<T>>)
    modifies buf
    ensures r.Ok? <==> n > 0 && Offset(count, n) <= |old(buf.data)|
    ensures r.Ok? ==> buf.data == old(buf.data)[Offset(count, n)..]
    ensures r.Ok? ==> r.value == Chunks(old(buf.data)[..Offset(count, n)], n, count, fromBe)
    ensures !r.Ok? ==> r.Panic?
  {
    OffsetIsProduct(count, n);
    var bytes := buf.CopyToBytes(count * n);
    if !bytes.Ok? {
      return Panic;
    }
    if n == 0 {
      return Panic;
    }
    r := Ok(Chunks(bytes.value, n, count, fromBe));
  }
}
