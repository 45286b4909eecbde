/**
 * The public `BinarySliceCursor`: a position over a borrowed byte slice,
 * with bounds-checked reads that report `NotEnoughBytes` and big-endian
 * fixed-width readers built on them.
 *
 * `set_pos` and `skip` do not check bounds, so the position may lie past
 * the end of the slice. Nothing is left to read there, and a `read` that
 * fails panics computing `len - pos`, which underflows. Positions are
 * `usize`, and their arithmetic is checked as in a debug build: a sum that
 * reaches 2^64 panics, and so does that subtraction.
 */
module SliceCursor {
  import opened Numeric
  import opened Errors

  class BinarySliceCursor {
    const inner: seq<u8>
    var pos: usize

    /** The slice is a Rust slice, at most `isize::MAX` bytes long. */
    ghost predicate Valid() {
      |inner| <= MAX_SLICE_LEN
    }

    /** `new(slice)`: a cursor at the start of the slice. */
    constructor (slice: seq<u8>)
      requires |slice| <= MAX_SLICE_LEN
      ensures inner == slice && pos == 0
      ensures Valid()
    {
      inner := slice;
      pos := 0;
    }

    /** `pos()`: the number of bytes consumed so far. */
    function Pos(): (p: usize)
      reads this
      ensures p == pos
    {
      pos
    }

    /** `set_pos(p)`: any position, inside the slice or not. */
    method SetPos(p: usize)
      modifies this
      ensures pos == p
    {
      pos := p;
    }

    /**
     * `skip(n)`: moves forward by n, unchecked against the slice; `pos += n`
     * panics when the sum does not fit a `usize`.
     */
    method Skip(n: usize) returns (r: Result<()>)
      modifies this
      ensures r.Ok? || r.Panic?
      ensures r.Panic? <==> old(pos) + n >= USIZE_LIMIT
      ensures r.Ok? ==> pos == old(pos) + n
      ensures r.Panic? ==> pos == old(pos)
    {
      if pos + n >= USIZE_LIMIT {
        return Panic;
      }
      pos := pos + n;
      return Ok(());
    }

    /** `has_remaining()`: some byte is left to read, which is never the case past the end. */
    function HasRemaining(): (b: bool)
      reads this
      ensures b <==> pos < |inner|
      ensures b ==> |inner[pos..]| > 0
    {
      pos < |inner|
    }

    /**
     * `read(count)`: the next count bytes, or `NotEnoughBytes` with the
     * position unchanged. It panics when `pos + count` does not fit a
     * `usize`, and when it fails from a position past the end, where
     * `len - pos` underflows (in a debug build). From a position within the
     * slice an overflowing sum panics in a release build too: the wrapped
     * `end_index` lies below `pos`, and the slice panics.
     */
    method Read(count: usize) returns (r: Result<seq<u8>>)
      requires Valid()
      modifies this
      ensures r.Ok? <==> old(pos) + count <= |inner|
      ensures r.Ok? ==> r.value == inner[old(pos)..old(pos) + count] && pos == old(pos) + count
      ensures r.Panic? <==> old(pos) + count >= USIZE_LIMIT || old(pos) > |inner|
      ensures r.Err? ==> r == Err(NotEnoughBytes(count, |inner| - old(pos)))
      ensures !r.Ok? ==> pos == old(pos)
    {
      var len := |inner|;
      if pos + count >= USIZE_LIMIT {
        return Panic;
      }
      var endIndex := pos + count;
      if endIndex <= len {
        var slice := inner[pos..endIndex];
        pos := pos + count;
        return Ok(slice);
      } else {
        if pos > len {
          return Panic;
        }
        return Err(NotEnoughBytes(count, len - pos));
      }
    }

    /** `read_array::<n>()`: exactly n bytes. */
    method ReadArray(n: usize) returns (r: Result<seq<u8>>)
      requires Valid()
      modifies this
      ensures r.Ok? <==> old(pos) + n <= |inner|
      ensures r.Ok? ==> pos == old(pos) + n && r.value == inner[old(pos)..pos]
      ensures r.Panic? <==> old(pos) + n >= USIZE_LIMIT || old(pos) > |inner|
      ensures r.Err? ==> r == Err(NotEnoughBytes(n, |inner| - old(pos)))
      ensures !r.Ok? ==> pos == old(pos)
    {
      r := Read(n);
    }

    method ReadU8() returns (r: Result<u8>)
      requires Valid()
      modifies this
      ensures r.Ok? <==> old(pos) + 1 <= |inner|
      ensures r.Ok? ==> pos == old(pos) + 1 && [r.value] == inner[old(pos)..pos]
      ensures r.Panic? <==> old(pos) > |inner|
      ensures r.Err? ==> r == Err(NotEnoughBytes(1, |inner| - old(pos)))
      ensures !r.Ok? ==> pos == old(pos)
    {
      var a :- ReadArray(1);
      return Ok(a[0]);
    }

    method ReadU16Be() returns (r: Result<u16>)
      requires Valid()
      modifies this
      ensures r.Ok? <==> old(pos) + 2 <= |inner|
      ensures r.Ok? ==> pos == old(pos) + 2 && U16Bytes(r.value) == inner[old(pos)..pos]
      ensures r.Panic? <==> old(pos) > |inner|
      ensures r.Err? ==> r == Err(NotEnoughBytes(2, |inner| - old(pos)))
      ensures !r.Ok? ==> pos == old(pos)
    {
      var a :- ReadArray(2);
      BeBytesOfReaders(a);
      return Ok(BeU16(a));
    }

    method ReadU32Be() returns (r: Result<u32>)
      requires Valid()
      modifies this
      ensures r.Ok? <==> old(pos) + 4 <= |inner|
      ensures r.Ok? ==> pos == old(pos) + 4 && U32Bytes(r.value) == inner[old(pos)..pos]
      ensures r.Panic? <==> old(pos) > |inner|
      ensures r.Err? ==> r == Err(NotEnoughBytes(4, |inner| - old(pos)))
      ensures !r.Ok? ==> pos == old(pos)
    {
      var a :- ReadArray(4);
      BeBytesOfReaders(a);
      return Ok(BeU32(a));
    }

    method ReadI8() returns (r: Result<i8>)
      requires Valid()
      modifies this
      ensures r.Ok? <==> old(pos) + 1 <= |inner|
      ensures r.Ok? ==> pos == old(pos) + 1 && I8Bytes(r.value) == inner[old(pos)..pos]
      ensures r.Panic? <==> old(pos) > |inner|
      ensures r.Err? ==> r == Err(NotEnoughBytes(1, |inner| - old(pos)))
      ensures !r.Ok? ==> pos == old(pos)
    {
      var a :- ReadArray(1);
      assert |a| == 1 && a == inner[old(pos)..pos];
      BeI8Inverse(a);
      r := Ok(BeI8(a));
    }

    method ReadI16Be() returns (r: Result<i16>)
      requires Valid()
      modifies this
      ensures r.Ok? <==> old(pos) + 2 <= |inner|
      ensures r.Ok? ==> pos == old(pos) + 2 && I16Bytes(r.value) == inner[old(pos)..pos]
      ensures r.Panic? <==> old(pos) > |inner|
      ensures r.Err? ==> r == Err(NotEnoughBytes(2, |inner| - old(pos)))
      ensures !r.Ok? ==> pos == old(pos)
    {
      var a :- ReadArray(2);
      BeBytesOfReaders(a);
      return Ok(BeI16(a));
    }

    method ReadI32Be() returns (r: Result<i32>)
      requires Valid()
      modifies this
      ensures r.Ok? <==> old(pos) + 4 <= |inner|
      ensures r.Ok? ==> pos == old(pos) + 4 && I32Bytes(r.value) == inner[old(pos)..pos]
      ensures r.Panic? <==> old(pos) > |inner|
      ensures r.Err? ==> r == Err(NotEnoughBytes(4, |inner| - old(pos)))
      ensures !r.Ok? ==> pos == old(pos)
    {
      var a :- ReadArray(4);
      BeBytesOfReaders(a);
      return Ok(BeI32(a));
    }

    method ReadI64Be() returns (r: Result<i64>)
      requires Valid()
      modifies this
      ensures r.Ok? <==> old(pos) + 8 <= |inner|
      ensures r.Ok? ==> pos == old(pos) + 8 && I64Bytes(r.value) == inner[old(pos)..pos]
      ensures r.Panic? <==> old(pos) > |inner|
      ensures r.Err? ==> r == Err(NotEnoughBytes(8, |inner| - old(pos)))
      ensures !r.Ok? ==> pos == old(pos)
    {
      var a :- ReadArray(8);
      BeBytesOfReaders(a);
      return Ok(BeI64(a));
    }

    /** `read_f32_be()`: the bit pattern of the next four bytes. */
    method ReadF32Be() returns (r: Result<f32>)
      requires Valid()
      modifies this
      ensures r.Ok? <==> old(pos) + 4 <= |inner|
      ensures r.Ok? ==> pos == old(pos) + 4 && U32Bytes(r.value) == inner[old(pos)..pos]
      ensures r.Panic? <==> old(pos) > |inner|
      ensures r.Err? ==> r == Err(NotEnoughBytes(4, |inner| - old(pos)))
      ensures !r.Ok? ==> pos == old(pos)
    {
      r := ReadU32Be();
    }

    /** `read_f64_be()`: the bit pattern of the next eight bytes. */
    method ReadF64Be() returns (r: Result<f64>)
      requires Valid()
      modifies this
      ensures r.Ok? <==> old(pos) + 8 <= |inner|
      ensures r.Ok? ==> pos == old(pos) + 8 && U64Bytes(r.value) == inner[old(pos)..pos]
      ensures r.Panic? <==> old(pos) > |inner|
      ensures r.Err? ==> r == Err(NotEnoughBytes(8, |inner| - old(pos)))
      ensures !r.Ok? ==> pos == old(pos)
    {
      var a :- ReadArray(8);
      BeBytesOfReaders(a);
      return Ok(BeU64(a));
    }
  }

  /** The cursor's own unit test: a read inside the slice, then one past its end. */
  method GetSliceExample() {
    var cursor := new BinarySliceCursor([0, 1, 2, 3, 4, 5, 6]);
    cursor.SetPos(2);
    var slice := cursor.Read(3);
    assert cursor.inner[2..5] == [2, 3, 4];
    assert slice == Ok([2, 3, 4]);
    var slice2 := cursor.Read(10);
    assert slice2 == Err(NotEnoughBytes(10, 2));
  }

  /** Past the end nothing remains, and a read that cannot be served panics instead of reporting. */
  method PastEndExample() {
    var cursor := new BinarySliceCursor([0, 1, 2]);
    var skipped := cursor.Skip(5);
    assert skipped.Ok?;
    assert !cursor.HasRemaining();
    var r := cursor.Read(1);
    assert r == Panic;
  }
}
