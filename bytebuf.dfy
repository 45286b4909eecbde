/**
 * The consuming side of the `bytes` crate as the codec uses it: a `Buf`
 * whose readers (`get_u8`, `get_i32`, `copy_to_bytes`, `advance`, ...) take
 * bytes off the front and panic when too few remain.
 *
 * Each reader is specified by a function on the remaining input that returns
 * a `Parse`: the value read together with the input left behind. Decoders
 * further up are written twice in the same way: as a method over a `Buf`
 * that follows the source's statements, and as a function on the input that
 * the method is proved to agree with and about which the properties are
 * proved.
 */
module ByteBuf {
  import opened Numeric
  import opened Errors

  /**
   * The outcome of decoding from a byte sequence: a value and the unread
   * rest, an error and the rest at the point of failure, or a panic.
   */
  datatype Parse<T> = Done(value: T, rest: seq<u8>) | Failed(error: Error, rest: seq<u8>) | Panicked
  {
    predicate IsFailure() {
      !Done?
    }

    function PropagateFailure<U>(): Parse<U>
      requires !Done?
    {
      if Failed? then Failed(error, rest) else Panicked
    }

    function Extract(): (T, seq<u8>)
      requires Done?
    {
      (value, rest)
    }
  }

  /** The `Parse` that a method's result and the buffer it leaves behind amount to. */
  function Observe<T>(r: Result<T>, rest: seq<u8>): (p: Parse<T>)
    ensures p.Done? <==> r.Ok?
    ensures p.Failed? <==> r.Err?
  {
    match r
    case Ok(v) => Done(v, rest)
    case Err(e) => Failed(e, rest)
    case Panic => Panicked
  }

  /** `copy_to_bytes(n)` on the input: the first n bytes, or a panic when fewer remain. */
  function Take(input: seq<u8>, n: nat): (r: Parse<seq<u8>>)
    ensures r.Done? <==> n <= |input|
    ensures r.Done? ==> |r.value| == n && r.value + r.rest == input
    ensures !r.Done? ==> r.Panicked?
  {
    if n <= |input| then Done(input[..n], input[n..]) else Panicked
  }

  function TakeU8(input: seq<u8>): (r: Parse<u8>)
    ensures r.Done? <==> 1 <= |input|
    ensures r.Done? ==> [r.value] + r.rest == input
    ensures !r.Done? ==> r.Panicked?
  {
    if |input| < 1 then Panicked else Done(input[0], input[1..])
  }

  function TakeI8(input: seq<u8>): (r: Parse<i8>)
    ensures r.Done? <==> 1 <= |input|
    ensures r.Done? ==> I8Bytes(r.value) + r.rest == input
    ensures !r.Done? ==> r.Panicked?
  {
    if |input| < 1 then Panicked
    else
      BeBytesOfReaders(input[..1]);
      Done(BeI8(input[..1]), input[1..])
  }

  function TakeU16(input: seq<u8>): (r: Parse<u16>)
    ensures r.Done? <==> 2 <= |input|
    ensures r.Done? ==> U16Bytes(r.value) + r.rest == input
    ensures !r.Done? ==> r.Panicked?
  {
    if |input| < 2 then Panicked
    else
      BeBytesOfReaders(input[..2]);
      Done(BeU16(input[..2]), input[2..])
  }

  function TakeI16(input: seq<u8>): (r: Parse<i16>)
    ensures r.Done? <==> 2 <= |input|
    ensures r.Done? ==> I16Bytes(r.value) + r.rest == input
    ensures !r.Done? ==> r.Panicked?
  {
    if |input| < 2 then Panicked
    else
      BeBytesOfReaders(input[..2]);
      Done(BeI16(input[..2]), input[2..])
  }

  function TakeU32(input: seq<u8>): (r: Parse<u32>)
    ensures r.Done? <==> 4 <= |input|
    ensures r.Done? ==> U32Bytes(r.value) + r.rest == input
    ensures !r.Done? ==> r.Panicked?
  {
    if |input| < 4 then Panicked
    else
      BeBytesOfReaders(input[..4]);
      Done(BeU32(input[..4]), input[4..])
  }

  function TakeI32(input: seq<u8>): (r: Parse<i32>)
    ensures r.Done? <==> 4 <= |input|
    ensures r.Done? ==> I32Bytes(r.value) + r.rest == input
    ensures !r.Done? ==> r.Panicked?
  {
    if |input| < 4 then Panicked
    else
      BeBytesOfReaders(input[..4]);
      Done(BeI32(input[..4]), input[4..])
  }

  function TakeU64(input: seq<u8>): (r: Parse<u64>)
    ensures r.Done? <==> 8 <= |input|
    ensures r.Done? ==> U64Bytes(r.value) + r.rest == input
    ensures !r.Done? ==> r.Panicked?
  {
    if |input| < 8 then Panicked
    else
      BeBytesOfReaders(input[..8]);
      Done(BeU64(input[..8]), input[8..])
  }

  function TakeI64(input: seq<u8>): (r: Parse<i64>)
    ensures r.Done? <==> 8 <= |input|
    ensures r.Done? ==> I64Bytes(r.value) + r.rest == input
    ensures !r.Done? ==> r.Panicked?
  {
    if |input| < 8 then Panicked
    else
      BeBytesOfReaders(input[..8]);
      Done(BeI64(input[..8]), input[8..])
  }

  // Reading back what a writer wrote gives the value and leaves the rest.

  lemma TakeI8OfPut(v: i8, rest: seq<u8>)
    ensures TakeI8(I8Bytes(v) + rest) == Done(v, rest)
  {
    I8RoundTrip(v);
    assert (I8Bytes(v) + rest)[..1] == I8Bytes(v);
    assert (I8Bytes(v) + rest)[1..] == rest;
  }

  lemma TakeU16OfPut(v: u16, rest: seq<u8>)
    ensures TakeU16(U16Bytes(v) + rest) == Done(v, rest)
  {
    U16RoundTrip(v);
    assert (U16Bytes(v) + rest)[..2] == U16Bytes(v);
    assert (U16Bytes(v) + rest)[2..] == rest;
  }

  lemma TakeI16OfPut(v: i16, rest: seq<u8>)
    ensures TakeI16(I16Bytes(v) + rest) == Done(v, rest)
  {
    I16RoundTrip(v);
    assert (I16Bytes(v) + rest)[..2] == I16Bytes(v);
    assert (I16Bytes(v) + rest)[2..] == rest;
  }

  lemma TakeU32OfPut(v: u32, rest: seq<u8>)
    ensures TakeU32(U32Bytes(v) + rest) == Done(v, rest)
  {
    U32RoundTrip(v);
    assert (U32Bytes(v) + rest)[..4] == U32Bytes(v);
    assert (U32Bytes(v) + rest)[4..] == rest;
  }

  lemma TakeI32OfPut(v: i32, rest: seq<u8>)
    ensures TakeI32(I32Bytes(v) + rest) == Done(v, rest)
  {
    I32RoundTrip(v);
    assert (I32Bytes(v) + rest)[..4] == I32Bytes(v);
    assert (I32Bytes(v) + rest)[4..] == rest;
  }

  lemma TakeU64OfPut(v: u64, rest: seq<u8>)
    ensures TakeU64(U64Bytes(v) + rest) == Done(v, rest)
  {
    U64RoundTrip(v);
    assert (U64Bytes(v) + rest)[..8] == U64Bytes(v);
    assert (U64Bytes(v) + rest)[8..] == rest;
  }

  lemma TakeI64OfPut(v: i64, rest: seq<u8>)
    ensures TakeI64(I64Bytes(v) + rest) == Done(v, rest)
  {
    I64RoundTrip(v);
    assert (I64Bytes(v) + rest)[..8] == I64Bytes(v);
    assert (I64Bytes(v) + rest)[8..] == rest;
  }

  /** A `bytes::Bytes` being read from the front. */
  class Buf {
    var data: seq<u8>

    constructor (bytes: seq<u8>)
      ensures data == bytes
    {
      data := bytes;
    }

    method GetU8() returns (r: Result<u8>)
      modifies this
      ensures Observe(r, data) == TakeU8(old(data))
    {
      if |data| < 1 {
        return Panic;
      }
      r := Ok(data[0]);
      data := data[1..];
    }

    method GetI8() returns (r: Result<i8>)
      modifies this
      ensures Observe(r, data) == TakeI8(old(data))
    {
      if |data| < 1 {
        return Panic;
      }
      r := Ok(BeI8(data[..1]));
      data := data[1..];
    }

    method GetU16() returns (r: Result<u16>)
      modifies this
      ensures Observe(r, data) == TakeU16(old(data))
    {
      if |data| < 2 {
        return Panic;
      }
      r := Ok(BeU16(data[..2]));
      data := data[2..];
    }

    method GetI16() returns (r: Result<i16>)
      modifies this
      ensures Observe(r, data) == TakeI16(old(data))
    {
      if |data| < 2 {
        return Panic;
      }
      r := Ok(BeI16(data[..2]));
      data := data[2..];
    }

    method GetU32() returns (r: Result<u32>)
      modifies this
      ensures Observe(r, data) == TakeU32(old(data))
    {
      if |data| < 4 {
        return Panic;
      }
      r := Ok(BeU32(data[..4]));
      data := data[4..];
    }

    method GetI32() returns (r: Result<i32>)
      modifies this
      ensures Observe(r, data) == TakeI32(old(data))
    {
      if |data| < 4 {
        return Panic;
      }
      r := Ok(BeI32(data[..4]));
      data := data[4..];
    }

    /** `get_f32()`: the bit pattern of the next four bytes. */
    method GetF32() returns (r: Result<f32>)
      modifies this
      ensures Observe(r, data) == TakeU32(old(data))
    {
      r := GetU32();
    }

    method GetI64() returns (r: Result<i64>)
      modifies this
      ensures Observe(r, data) == TakeI64(old(data))
    {
      if |data| < 8 {
        return Panic;
      }
      r := Ok(BeI64(data[..8]));
      data := data[8..];
    }

    /** `get_f64()`: the bit pattern of the next eight bytes. */
    method GetF64() returns (r: Result<f64>)
      modifies this
      ensures Observe(r, data) == TakeU64(old(data))
    {
      if |data| < 8 {
        return Panic;
      }
      r := Ok(BeU64(data[..8]));
      data := data[8..];
    }

    /** `copy_to_bytes(n)`, and equally `self[..n].to_vec()` followed by `advance(n)`. */
    method CopyToBytes(n: nat) returns (r: Result<seq<u8>>)
      modifies this
      ensures Observe(r, data) == Take(old(data), n)
    {
      if |data| < n {
        return Panic;
      }
      r := Ok(data[..n]);
      data := data[n..];
    }

    /** `advance(n)`: drops n bytes, panicking when fewer remain. */
    method Advance(n: nat) returns (r: Result<()>)
      modifies this
      ensures r.Ok? <==> n <= |old(data)|
      ensures r.Ok? ==> data == old(data)[n..]
      ensures !r.Ok? ==> r.Panic?
    {
      if |data| < n {
        return Panic;
      }
      data := data[n..];
      r := Ok(());
    }
  }
}
