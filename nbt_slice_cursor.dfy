/**
 * The crate-private `BinarySliceCursor` of the NBT module: the same
 * bounds-checked reads as the public cursor, without `set_pos`, and with a
 * checked `skip` that fails with `InvalidSkip`. Nothing moves the position
 * past the end here, so `pos <= |inner|` holds from construction on.
 * Positions are `usize`: a sum that reaches 2^64 panics.
 */
module NbtSliceCursor {
  import opened Numeric
  import opened Errors

  class BinarySliceCursor {
    const inner: seq<u8>
    var pos: usize

    /** The position is inside the slice, and the slice is at most `isize::MAX` bytes long. */
    ghost predicate Valid()
      reads this
    {
      pos <= |inner| <= MAX_SLICE_LEN
    }

    /** `new(slice)`: a cursor at the start of the slice. */
    constructor (slice: seq<u8>)
      requires |slice| <= MAX_SLICE_LEN
      ensures inner == slice && pos == 0
      ensures Valid()
    {
      inner := slice;
      pos := 0;
    }

    /** `position()`: the number of bytes consumed so far. */
    function Position(): (p: usize)
      reads this
      ensures p == pos
    {
      pos
    }

    /**
     * `skip(amount)`: moves forward only when the new position stays strictly
     * inside the slice; otherwise reports the slice's whole length. The sum
     * `pos + amount` panics when it does not fit a `usize`.
     */
    method Skip(amount: usize) returns (r: Result<()>)
      requires Valid()
      modifies this
      ensures Valid()
      ensures r.Panic? <==> old(pos) + amount >= USIZE_LIMIT
      ensures r.Ok? <==> old(pos) + amount < |inner|
      ensures r.Ok? ==> pos == old(pos) + amount
      ensures r.Err? ==> r == Err(InvalidSkip(amount, |inner|))
      ensures !r.Ok? ==> pos == old(pos)
    {
      if pos + amount >= USIZE_LIMIT {
        return Panic;
      }
      var newPos := pos + amount;
      if newPos >= |inner| {
        return Err(InvalidSkip(amount, |inner|));
      }
      pos := newPos;
      return Ok(());
    }

    /** `has_remaining()`: some byte is left to read. */
    function HasRemaining(): (b: bool)
      reads this
      requires Valid()
      ensures b <==> |inner[pos..]| > 0
    {
      pos < |inner|
    }

    /**
     * `read(count)`: the next count bytes, or `NotEnoughBytes` with the
     * position unchanged; a `pos + count` that does not fit a `usize` panics,
     * in a release build as well, where the wrapped `end_index` lies below
     * `pos` and the slice panics.
     */
    method Read(count: usize) returns (r: Result<seq<u8>>)
      requires Valid()
      modifies this
      ensures Valid()
      ensures r.Ok? <==> old(pos) + count <= |inner|
      ensures r.Ok? ==> r.value == inner[old(pos)..old(pos) + count] && pos == old(pos) + count
      ensures r.Panic? <==> old(pos) + count >= USIZE_LIMIT
      ensures r.Err? ==> r == Err(NotEnoughBytes(count, |inner| - old(pos)))
      ensures !r.Ok? ==> pos == old(pos)
    {
      var len := |inner|;
      if pos + count >= USIZE_LIMIT {
        return Panic;
      }
      var endIndex := pos + count;
      if endIndex <= len {
        var slice := inner[pos..endIndex];
        pos := pos + count;
        return Ok(slice);
      } else {
        return Err(NotEnoughBytes(count, len - pos));
      }
    }

    /** `read_array::<n>()`: exactly n bytes. */
    method ReadArray(n: usize) returns (r: Result<seq<u8>>)
      requires Valid()
      modifies this
      ensures Valid()
      ensures r.Ok? <==> old(pos) + n <= |inner|
      ensures r.Ok? ==> pos == old(pos) + n && r.value == inner[old(pos)..pos]
      ensures r.Panic? <==> old(pos) + n >= USIZE_LIMIT
      ensures r.Err? ==> r == Err(NotEnoughBytes(n, |inner| - old(pos)))
      ensures !r.Ok? ==> pos == old(pos)
    {
      r := Read(n);
    }

    method ReadU8() returns (r: Result<u8>)
      requires Valid()
      modifies this
      ensures Valid()
      ensures r.Ok? <==> old(pos) + 1 <= |inner|
      ensures r.Ok? ==> pos == old(pos) + 1 && [r.value] == inner[old(pos)..pos]
      ensures !r.Ok? ==> r == Err(NotEnoughBytes(1, |inner| - old(pos))) && pos == old(pos)
    {
      var a :- ReadArray(1);
      return Ok(a[0]);
    }

    method ReadU16Be() returns (r: Result<u16>)
      requires Valid()
      modifies this
      ensures Valid()
      ensures r.Ok? <==> old(pos) + 2 <= |inner|
      ensures r.Ok? ==> pos == old(pos) + 2 && U16Bytes(r.value) == inner[old(pos)..pos]
      ensures !r.Ok? ==> r == Err(NotEnoughBytes(2, |inner| - old(pos))) && pos == old(pos)
    {
      var a :- ReadArray(2);
      BeBytesOfReaders(a);
      return Ok(BeU16(a));
    }

    method ReadI8() returns (r: Result<i8>)
      requires Valid()
      modifies this
      ensures Valid()
      ensures r.Ok? <==> old(pos) + 1 <= |inner|
      ensures r.Ok? ==> pos == old(pos) + 1 && I8Bytes(r.value) == inner[old(pos)..pos]
      ensures !r.Ok? ==> r == Err(NotEnoughBytes(1, |inner| - old(pos))) && pos == old(pos)
    {
      var a :- ReadArray(1);
      assert |a| == 1 && a == inner[old(pos)..pos];
      BeI8Inverse(a);
      r := Ok(BeI8(a));
    }

    method ReadI16Be() returns (r: Result<i16>)
      requires Valid()
      modifies this
      ensures Valid()
      ensures r.Ok? <==> old(pos) + 2 <= |inner|
      ensures r.Ok? ==> pos == old(pos) + 2 && I16Bytes(r.value) == inner[old(pos)..pos]
      ensures !r.Ok? ==> r == Err(NotEnoughBytes(2, |inner| - old(pos))) && pos == old(pos)
    {
      var a :- ReadArray(2);
      BeBytesOfReaders(a);
      return Ok(BeI16(a));
    }

    method ReadI32Be() returns (r: Result<i32>)
      requires Valid()
      modifies this
      ensures Valid()
      ensures r.Ok? <==> old(pos) + 4 <= |inner|
      ensures r.Ok? ==> pos == old(pos) + 4 && I32Bytes(r.value) == inner[old(pos)..pos]
      ensures !r.Ok? ==> r == Err(NotEnoughBytes(4, |inner| - old(pos))) && pos == old(pos)
    {
      var a :- ReadArray(4);
      BeBytesOfReaders(a);
      return Ok(BeI32(a));
    }

    method ReadI64Be() returns (r: Result<i64>)
      requires Valid()
      modifies this
      ensures Valid()
      ensures r.Ok? <==> old(pos) + 8 <= |inner|
      ensures r.Ok? ==> pos == old(pos) + 8 && I64Bytes(r.value) == inner[old(pos)..pos]
      ensures !r.Ok? ==> r == Err(NotEnoughBytes(8, |inner| - old(pos))) && pos == old(pos)
    {
      var a :- ReadArray(8);
      BeBytesOfReaders(a);
      return Ok(BeI64(a));
    }

    /** `read_f32_be()`: the bit pattern of the next four bytes. */
    method ReadF32Be() returns (r: Result<f32>)
      requires Valid()
      modifies this
      ensures Valid()
      ensures r.Ok? <==> old(pos) + 4 <= |inner|
      ensures r.Ok? ==> pos == old(pos) + 4 && U32Bytes(r.value) == inner[old(pos)..pos]
      ensures !r.Ok? ==> r == Err(NotEnoughBytes(4, |inner| - old(pos))) && pos == old(pos)
    {
      var a :- ReadArray(4);
      BeBytesOfReaders(a);
      return Ok(BeU32(a));
    }

    /** `read_f64_be()`: the bit pattern of the next eight bytes. */
    method ReadF64Be() returns (r: Result<f64>)
      requires Valid()
      modifies this
      ensures Valid()
      ensures r.Ok? <==> old(pos) + 8 <= |inner|
      ensures r.Ok? ==> pos == old(pos) + 8 && U64Bytes(r.value) == inner[old(pos)..pos]
      ensures !r.Ok? ==> r == Err(NotEnoughBytes(8, |inner| - old(pos))) && pos == old(pos)
    {
      var a :- ReadArray(8);
      BeBytesOfReaders(a);
      return Ok(BeU64(a));
    }
  }

  /** The cursor's own unit test: a cursor at position 2, a read inside the slice, then one past its end. */
  method GetSliceExample() {
    var cursor := new BinarySliceCursor([0, 1, 2, 3, 4, 5, 6]);
    var skipped := cursor.Skip(2);
    assert skipped.Ok?;
    var slice := cursor.Read(3);
    assert cursor.inner[2..5] == [2, 3, 4];
    assert slice == Ok([2, 3, 4]);
    var slice2 := cursor.Read(10);
    assert slice2 == Err(NotEnoughBytes(10, 2));
  }

  /** Skipping exactly to the end fails, and the error reports the whole length. */
  method SkipToEndExample() {
    var cursor := new BinarySliceCursor([0, 1, 2]);
    var skipped := cursor.Skip(3);
    assert skipped == Err(InvalidSkip(3, 3));
    assert cursor.Position() == 0;
  }
}
