/**
 * `NbtTag` and `NbtCompound` encoding and decoding as the source performs
 * them: encoders append to a growing byte sequence (the `BytesMut`), with a
 * loop per list, array and compound; decoders advance a `Buf` and fill a
 * sequence or map in a loop.
 *
 * Encoders return, next to the bytes, a ghost `Wire` recording the order in
 * which each compound was enumerated; the bytes are the layout of that
 * tree, and the tree is the tag that was encoded. Decoders are proved to
 * agree with the decoding functions of `Codec`.
 */
module TagIo {
  import opened Numeric
  import opened Errors
  import opened ByteBuf
  import opened JavaCesu8
  import opened NbtUtils
  import opened Tag
  import opened Compound
  import opened Codec
  import opened CodecProofs

  // ---------------------------------------------------------------------------
  // Encoding

  /** `NbtTag::String(s).serialize_raw()`: the u16 length, truncated, then the bytes. */
  method SerializeString(s: JavaString) returns (bytes: seq<u8>)
    ensures bytes == StringPayload(s)
    ensures ValidString(s) ==> NbtString(bytes) == Done(s, [])
  {
    bytes := U16Bytes(LenAsU16(|s|));
    bytes := bytes + s;
    if ValidString(s) {
      NbtStringOfPayload(s, []);
      assert bytes + [] == bytes;
    }
  }

  /** `serialize_raw()`: the payload of t. */
  method SerializeRaw(t: NbtTag) returns (bytes: seq<u8>, ghost w: Wire)
    ensures Forget(w) == t && Distinct(w)
    ensures bytes == Payload(w)
    ensures Encodable(t) ==> WellFormed(w)
    decreases t, 2
  {
    match t
    case End =>
      bytes := [];
      w := WEnd;
    case Byte(v) =>
      bytes := I8Bytes(v);
      w := WByte(v);
    case Short(v) =>
      bytes := I16Bytes(v);
      w := WShort(v);
    case Int(v) =>
      bytes := I32Bytes(v);
      w := WInt(v);
    case Long(v) =>
      bytes := I64Bytes(v);
      w := WLong(v);
    case Float(v) =>
      bytes := U32Bytes(v);
      w := WFloat(v);
    case Double(v) =>
      bytes := U64Bytes(v);
      w := WDouble(v);
    case ByteArray(bs) =>
      bytes := I32Bytes(LenAsI32(|bs|));
      bytes := bytes + bs;
      w := WByteArray(bs);
    case String(s) =>
      bytes := SerializeString(s);
      w := WString(s);
    case List(items) =>
      bytes, w := SerializeList(items);
    case Compound(c) =>
      ghost var entries;
      bytes, entries := SerializeCompound(c);
      w := WCompound(entries);
    case IntArray(xs) =>
      bytes := I32Bytes(LenAsI32(|xs|));
      var elements := SerializeInts(xs);
      bytes := bytes + elements;
      w := WIntArray(xs);
    case LongArray(xs) =>
      bytes := I32Bytes(LenAsI32(|xs|));
      var elements := SerializeLongs(xs);
      bytes := bytes + elements;
      w := WLongArray(xs);
  }

  /** The `IntArray` arm's loop: each element as four big-endian bytes, in order. */
  method SerializeInts(xs: seq<i32>) returns (bytes: seq<u8>)
    ensures bytes == IntsBytes(xs)
  {
    bytes := [];
    var i := 0;
    while i < |xs|
      invariant 0 <= i <= |xs|
      invariant bytes == IntsBytes(xs[..i])
    {
      assert xs[..i + 1] == xs[..i] + [xs[i]];
      IntsBytesAppend(xs[..i], xs[i]);
      bytes := bytes + I32Bytes(xs[i]);
      i := i + 1;
    }
    assert xs[..i] == xs;
  }

  /** The `LongArray` arm's loop: each element as eight big-endian bytes, in order. */
  method SerializeLongs(xs: seq<i64>) returns (bytes: seq<u8>)
    ensures bytes == LongsBytes(xs)
  {
    bytes := [];
    var i := 0;
    while i < |xs|
      invariant 0 <= i <= |xs|
      invariant bytes == LongsBytes(xs[..i])
    {
      assert xs[..i + 1] == xs[..i] + [xs[i]];
      LongsBytesAppend(xs[..i], xs[i]);
      bytes := bytes + I64Bytes(xs[i]);
      i := i + 1;
    }
    assert xs[..i] == xs;
  }

  /** The `List` arm: first element's id (`End` when empty), the i32 count, each payload. */
  method SerializeList(items: seq<NbtTag>) returns (bytes: seq<u8>, ghost w: Wire)
    ensures Forget(w) == List(items) && Distinct(w)
    ensures bytes == Payload(w)
    ensures Encodable(List(items)) ==> WellFormed(w)
    decreases List(items), 1
  {
    var elemId: u8 := if |items| == 0 then END_ID else items[0].Id();
    bytes := [elemId] + I32Bytes(LenAsI32(|items|));
    ghost var header := bytes;
    ghost var ws: seq<Wire> := [];
    var i := 0;
    while i < |items|
      invariant 0 <= i <= |items|
      invariant ListWritten(items, ws, i)
      invariant bytes == header + Payloads(ws)
    {
      var b;
      ghost var wi;
      b, wi := SerializeRaw(items[i]);
      ListWrittenStep(items, ws, i, wi, header, bytes, b);
      bytes := bytes + b;
      ws := ws + [wi];
      i := i + 1;
    }
    ListWrittenComplete(items, ws, header);
    w := WList(ws);
  }

  lemma ListWrittenStep(items: seq<NbtTag>, ws: seq<Wire>, i: nat, wi: Wire,
                        header: seq<u8>, bytes: seq<u8>, b: seq<u8>)
    requires i < |items| && ListWritten(items, ws, i)
    requires Forget(wi) == items[i] && Distinct(wi) && (Encodable(items[i]) ==> WellFormed(wi))
    requires bytes == header + Payloads(ws) && b == Payload(wi)
    ensures ListWritten(items, ws + [wi], i + 1)
    ensures bytes + b == header + Payloads(ws + [wi])
  {
    PayloadsAppend(ws, wi);
  }

  /** The first i elements written: ws records them in order. */
  ghost predicate ListWritten(items: seq<NbtTag>, ws: seq<Wire>, i: nat) {
    i <= |items| && |ws| == i
    && forall j :: 0 <= j < i ==>
      Forget(ws[j]) == items[j] && Distinct(ws[j]) && (Encodable(items[j]) ==> WellFormed(ws[j]))
  }

  lemma ListWrittenComplete(items: seq<NbtTag>, ws: seq<Wire>, header: seq<u8>)
    requires ListWritten(items, ws, |items|)
    requires header == [if |items| == 0 then END_ID else items[0].Id()] + I32Bytes(LenAsI32(|items|))
    ensures Forget(WList(ws)) == List(items) && Distinct(WList(ws))
    ensures Encodable(List(items)) ==> WellFormed(WList(ws))
    ensures header + Payloads(ws) == Payload(WList(ws))
  {
    assert ForgetAll(ws) == items;
  }

  /** `serialize_named(name)`: id, the name as a string payload, then the payload. */
  method SerializeNamed(name: JavaString, t: NbtTag) returns (bytes: seq<u8>, ghost w: Wire)
    ensures Forget(w) == t && Distinct(w)
    ensures bytes == NamedBytes(Entry(name, w))
    ensures Encodable(t) ==> WellFormed(w)
    decreases t, 3
  {
    bytes := [t.Id()];
    var nameBytes := SerializeString(name);
    bytes := bytes + nameBytes;
    var payload;
    payload, w := SerializeRaw(t);
    bytes := bytes + payload;
  }

  /** `serialize_tag()`: id, then the payload. */
  method SerializeTag(t: NbtTag) returns (bytes: seq<u8>, ghost w: Wire)
    ensures Forget(w) == t && Distinct(w)
    ensures bytes == TagBytes(w)
    ensures Encodable(t) ==> WellFormed(w)
  {
    var payload;
    payload, w := SerializeRaw(t);
    bytes := [t.Id()] + payload;
  }

  /**
   * `NbtCompound::serialize`: every entry, in an order the map does not fix,
   * named, then one `END` byte. Each name is written exactly once.
   */
  method SerializeCompound(c: NbtCompound) returns (bytes: seq<u8>, ghost entries: seq<Entry>)
    ensures InsertAll(map[], ForgetEntries(entries)) == c.childTags
    ensures NamesDistinct(entries)
    ensures forall i :: 0 <= i < |entries| ==> Distinct(entries[i].value)
    ensures bytes == CompoundBytes(entries)
    ensures EncodableCompound(c) ==> forall i :: 0 <= i < |entries| ==> WellFormedEntry(entries[i])
    decreases c, 4
  {
    var remaining := c.childTags.Keys;
    bytes := [];
    entries := [];
    while remaining != {}
      invariant remaining <= c.childTags.Keys
      invariant Enumerated(c.childTags, remaining, entries)
      invariant InsertAll(map[], ForgetEntries(entries)) == map k | k in c.childTags && k !in remaining :: c.childTags[k]
      invariant bytes == EntriesBytes(entries)
      decreases remaining
    {
      var name :| name in remaining;
      var b;
      ghost var w;
      b, w := SerializeNamed(name, c.childTags[name]);
      ghost var e := Entry(name, w);
      EntriesBytesAppend(entries, e);
      EnumerationStep(c.childTags, remaining, entries, e);
      bytes := bytes + b;
      entries := entries + [e];
      remaining := remaining - {name};
    }
    assert (map k | k in c.childTags && k !in remaining :: c.childTags[k]) == c.childTags;
    bytes := bytes + [END_ID];
  }

  /**
   * The entries written so far: each for a name of m no longer remaining,
   * recording m's tag, every name once, and well-formed when m is encodable.
   */
  ghost predicate Enumerated(m: map<JavaString, NbtTag>, remaining: set<JavaString>, entries: seq<Entry>) {
    NamesDistinct(entries)
    && forall i :: 0 <= i < |entries| ==>
      entries[i].name in m && entries[i].name !in remaining
      && Forget(entries[i].value) == m[entries[i].name] && Distinct(entries[i].value)
      && (EncodableCompound(NbtCompound(m)) ==> WellFormedEntry(entries[i]))
  }

  /** Enumerating one more name keeps `Enumerated` and extends the map of the names done. */
  lemma EnumerationStep(m: map<JavaString, NbtTag>, remaining: set<JavaString>, entries: seq<Entry>, e: Entry)
    requires e.name in remaining && remaining <= m.Keys
    requires Forget(e.value) == m[e.name] && Distinct(e.value) && (Encodable(m[e.name]) ==> WellFormed(e.value))
    requires Enumerated(m, remaining, entries)
    requires InsertAll(map[], ForgetEntries(entries)) == map k | k in m && k !in remaining :: m[k]
    ensures Enumerated(m, remaining - {e.name}, entries + [e])
    ensures InsertAll(map[], ForgetEntries(entries + [e]))
         == map k | k in m && k !in remaining - {e.name} :: m[k]
  {
    assert ForgetEntries(entries + [e]) == ForgetEntries(entries) + [(e.name, Forget(e.value))];
    InsertAllAppend(map[], ForgetEntries(entries), (e.name, Forget(e.value)));
  }

  // ---------------------------------------------------------------------------
  // Decoding

  /** `deserialize(bytes)`: an id byte, then `deserialize_raw` for it. */
  method Deserialize(buf: Buf) returns (r: Result<NbtTag>)
    modifies buf
    ensures Observe(r, buf.data) == ParseTag(old(buf.data))
  {
    var tagId := buf.GetU8();
    if !tagId.Ok? {
      return Panic;
    }
    r := DeserializeRaw(buf, tagId.value);
  }

  /** `deserialize_raw(bytes, tag_id)`: the payload for an id given from outside. */
  method DeserializeRaw(buf: Buf, tagId: u8) returns (r: Result<NbtTag>)
    modifies buf
    ensures Observe(r, buf.data) == ParsePayload(old(buf.data), tagId)
    decreases |buf.data|, 2
  {
    if tagId == LIST_ID {
      r := DeserializeList(buf);
    } else if tagId == COMPOUND_ID {
      var c := DeserializeCompound(buf);
      if !c.Ok? {
        return Panic;
      }
      r := Ok(Compound(c.value));
    } else if tagId <= DOUBLE_ID {
      r := DeserializeScalar(buf, tagId);
    } else {
      r := DeserializeFlat(buf, tagId);
    }
  }

  /** The arms for `End` and the fixed-width numbers. */
  method DeserializeScalar(buf: Buf, tagId: u8) returns (r: Result<NbtTag>)
    requires tagId <= DOUBLE_ID
    modifies buf
    ensures Observe(r, buf.data) == ParseScalar(old(buf.data), tagId)
  {
    if tagId == END_ID {
      return Ok(End);
    } else if tagId == BYTE_ID {
      var v := buf.GetI8();
      if !v.Ok? {
        return Panic;
      }
      return Ok(Byte(v.value));
    } else if tagId == SHORT_ID {
      var v := buf.GetI16();
      if !v.Ok? {
        return Panic;
      }
      return Ok(Short(v.value));
    } else if tagId == INT_ID {
      var v := buf.GetI32();
      if !v.Ok? {
        return Panic;
      }
      return Ok(Int(v.value));
    } else if tagId == LONG_ID {
      var v := buf.GetI64();
      if !v.Ok? {
        return Panic;
      }
      return Ok(Long(v.value));
    } else if tagId == FLOAT_ID {
      var v := buf.GetF32();
      if !v.Ok? {
        return Panic;
      }
      return Ok(Float(v.value));
    } else {
      var v := buf.GetF64();
      if !v.Ok? {
        return Panic;
      }
      return Ok(Double(v.value));
    }
  }

  /** The arms for the arrays, the string, and an unknown id. */
  method DeserializeFlat(buf: Buf, tagId: u8) returns (r: Result<NbtTag>)
    requires tagId > DOUBLE_ID && tagId != LIST_ID && tagId != COMPOUND_ID
    modifies buf
    ensures Observe(r, buf.data) == ParseFlat(old(buf.data), tagId)
  {
    if tagId == BYTE_ARRAY_ID {
      var len := buf.GetI32();
      if !len.Ok? || len.value < 0 {
        return Panic;
      }
      var byteArray := buf.CopyToBytes(len.value);
      if !byteArray.Ok? {
        return Panic;
      }
      return Ok(ByteArray(byteArray.value));
    } else if tagId == STRING_ID {
      var s := GetNbtString(buf);
      if !s.Ok? {
        return Panic;
      }
      return Ok(String(s.value));
    } else if tagId == INT_ARRAY_ID {
      var len := buf.GetI32();
      if !len.Ok? || len.value < 0 {
        return Panic;
      }
      ghost var target := ParseInts(buf.data, len.value, []);
      var intArray: seq<i32> := [];
      var i := 0;
      while i < len.value
        invariant 0 <= i <= len.value
        invariant ParseInts(buf.data, len.value - i, intArray) == target
      {
        var v := buf.GetI32();
        if !v.Ok? {
          return Panic;
        }
        intArray := intArray + [v.value];
        i := i + 1;
      }
      return Ok(IntArray(intArray));
    } else if tagId == LONG_ARRAY_ID {
      var len := buf.GetI32();
      if !len.Ok? || len.value < 0 {
        return Panic;
      }
      ghost var target := ParseLongs(buf.data, len.value, []);
      var longArray: seq<i64> := [];
      var i := 0;
      while i < len.value
        invariant 0 <= i <= len.value
        invariant ParseLongs(buf.data, len.value - i, longArray) == target
      {
        var v := buf.GetI64();
        if !v.Ok? {
          return Panic;
        }
        longArray := longArray + [v.value];
        i := i + 1;
      }
      return Ok(LongArray(longArray));
    } else {
      return Err(UnknownTagId(tagId));
    }
  }

  /**
   * The `List` arm: element id, i32 count, then that many payloads, each
   * error propagated with `?`; each element's id is the element id, so the
   * source's `assert_eq!` holds.
   */
  method DeserializeList(buf: Buf) returns (r: Result<NbtTag>)
    modifies buf
    ensures Observe(r, buf.data) == ParseListPayload(old(buf.data))
    decreases |buf.data|, 1
  {
    var tagTypeId := buf.GetU8();
    if !tagTypeId.Ok? {
      return Panic;
    }
    var len := buf.GetI32();
    if !len.Ok? || len.value < 0 {
      return Panic;
    }
    ghost var target := ParseList(buf.data, tagTypeId.value, len.value, []);
    var list: seq<NbtTag> := [];
    var i := 0;
    while i < len.value
      invariant 0 <= i <= len.value
      invariant |buf.data| < |old(buf.data)|
      invariant ParseList(buf.data, tagTypeId.value, len.value - i, list) == target
    {
      var tag := DeserializeRaw(buf, tagTypeId.value);
      if tag.Err? {
        return Err(tag.error);
      } else if tag.Panic? {
        return Panic;
      }
      assert tag.value.Id() == tagTypeId.value;
      list := list + [tag.value];
      i := i + 1;
    }
    return Ok(List(list));
  }

  /**
   * `NbtCompound::deserialize`: entries until an empty input or `END`; a
   * child that fails to decode ends the loop with the entries so far. A
   * later name overwrites an earlier one.
   */
  method DeserializeCompound(buf: Buf) returns (r: Result<NbtCompound>)
    modifies buf
    ensures Observe(r, buf.data) == ParseCompound(old(buf.data))
    ensures !r.Err?
    decreases |buf.data|, 0
  {
    ghost var target := ParseEntries(buf.data, map[]);
    var compoundTags: map<JavaString, NbtTag> := map[];
    while |buf.data| > 0
      invariant |buf.data| <= |old(buf.data)|
      invariant ParseEntries(buf.data, compoundTags) == target
      decreases |buf.data|
    {
      var tagId := buf.GetU8();
      if !tagId.Ok? {
        return Panic;
      }
      if tagId.value == END_ID {
        break;
      }
      var name := GetNbtString(buf);
      if !name.Ok? {
        return Panic;
      }
      var tag := DeserializeRaw(buf, tagId.value);
      if tag.Ok? {
        compoundTags := compoundTags[name.value := tag.value];
      } else if tag.Err? {
        break;
      } else {
        return Panic;
      }
    }
    return Ok(NbtCompound(compoundTags));
  }

  // ---------------------------------------------------------------------------
  // Whole round trips through the methods

  /** Encoding a tag with `serialize_tag` and decoding it with `deserialize` gives it back. */
  method TagRoundTripThroughBuf(t: NbtTag) returns (r: Result<NbtTag>, left: seq<u8>)
    requires Encodable(t)
    ensures r == Ok(t) && left == []
  {
    var bytes;
    ghost var w;
    bytes, w := SerializeTag(t);
    var buf := new Buf(bytes);
    TagRoundTrip(w, []);
    assert bytes + [] == bytes;
    r := Deserialize(buf);
    left := buf.data;
  }

  /** A compound encoded in whatever order the map yields decodes to the same map. */
  method CompoundRoundTripThroughBuf(c: NbtCompound) returns (r: Result<NbtCompound>, left: seq<u8>)
    requires EncodableCompound(c)
    ensures r == Ok(c) && left == []
  {
    var bytes;
    ghost var entries;
    bytes, entries := SerializeCompound(c);
    var buf := new Buf(bytes);
    CompoundRoundTrip(entries, []);
    assert bytes + [] == bytes;
    r := DeserializeCompound(buf);
    left := buf.data;
  }
}
