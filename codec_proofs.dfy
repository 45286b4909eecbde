/**
 * The decoder inverts the layout: reading back what was written for a
 * well-formed tree gives the tag it was written from and consumes exactly the
 * written bytes, whatever order the compounds were enumerated in.
 */
module CodecProofs {
  import opened Numeric
  import opened Errors
  import opened ByteBuf
  import opened JavaCesu8
  import opened NbtUtils
  import opened Tag
  import opened Codec

  /** `deserialize_raw(serialize_raw(t), t.id())` gives t back and leaves the rest. */
  lemma {:induction false} PayloadRoundTrip(w: Wire, rest: seq<u8>)
    requires WellFormed(w)
    ensures ParsePayload(Payload(w) + rest, WId(w)) == Done(Forget(w), rest)
    decreases w, 2
  {
    match w
    case WList(items) =>
      ListPayloadRoundTrip(items, rest);
    case WCompound(entries) =>
      EntriesRoundTrip(entries, rest, map[]);
      assert Payload(w) + rest == EntriesBytes(entries) + [END_ID] + rest;
    case _ =>
      if WId(w) <= DOUBLE_ID {
        ScalarRoundTrip(w, rest);
      } else {
        FlatRoundTrip(w, rest);
      }
  }

  /** A list payload: element id, count, then each element read back in order. */
  lemma {:induction false} ListPayloadRoundTrip(items: seq<Wire>, rest: seq<u8>)
    requires WellFormed(WList(items))
    ensures ParseListPayload(Payload(WList(items)) + rest) == Done(List(ForgetAll(items)), rest)
    decreases items, 1
  {
    var elem := ListElementId(items);
    var afterElem := I32Bytes(|items|) + (Payloads(items) + rest);
    assert Payload(WList(items)) + rest == [elem] + afterElem;
    assert TakeU8(Payload(WList(items)) + rest) == Done(elem, afterElem);
    TakeI32OfPut(|items|, Payloads(items) + rest);
    ListRoundTrip(items, elem, rest, []);
    assert [] + ForgetAll(items) == ForgetAll(items);
  }

  lemma ScalarRoundTrip(w: Wire, rest: seq<u8>)
    requires WId(w) <= DOUBLE_ID
    ensures ParseScalar(Payload(w) + rest, WId(w)) == Done(Forget(w), rest)
  {
    match w
    case WEnd =>
      assert Payload(w) + rest == rest;
    case WByte(v) => TakeI8OfPut(v, rest);
    case WShort(v) => TakeI16OfPut(v, rest);
    case WInt(v) => TakeI32OfPut(v, rest);
    case WLong(v) => TakeI64OfPut(v, rest);
    case WFloat(v) => TakeU32OfPut(v, rest);
    case WDouble(v) => TakeU64OfPut(v, rest);
  }

  lemma FlatRoundTrip(w: Wire, rest: seq<u8>)
    requires WellFormed(w) && WId(w) > DOUBLE_ID && !w.WList? && !w.WCompound?
    ensures ParseFlat(Payload(w) + rest, WId(w)) == Done(Forget(w), rest)
  {
    match w
    case WByteArray(bs) => ByteArrayRoundTrip(bs, rest);
    case WString(s) => NbtStringOfPayload(s, rest);
    case WIntArray(xs) => IntArrayRoundTrip(xs, rest);
    case WLongArray(xs) => LongArrayRoundTrip(xs, rest);
  }

  lemma ByteArrayRoundTrip(bs: seq<u8>, rest: seq<u8>)
    requires FitsI32(|bs|)
    ensures ParseFlat(Payload(WByteArray(bs)) + rest, BYTE_ARRAY_ID) == Done(ByteArray(bs), rest)
  {
    assert Payload(WByteArray(bs)) + rest == I32Bytes(|bs|) + (bs + rest);
    TakeI32OfPut(|bs|, bs + rest);
    assert (bs + rest)[..|bs|] == bs && (bs + rest)[|bs|..] == rest;
  }

  lemma IntArrayRoundTrip(xs: seq<i32>, rest: seq<u8>)
    requires FitsI32(|xs|)
    ensures ParseFlat(Payload(WIntArray(xs)) + rest, INT_ARRAY_ID) == Done(IntArray(xs), rest)
  {
    assert Payload(WIntArray(xs)) + rest == I32Bytes(|xs|) + (IntsBytes(xs) + rest);
    TakeI32OfPut(|xs|, IntsBytes(xs) + rest);
    IntsRoundTrip(xs, rest, []);
    assert [] + xs == xs;
  }

  lemma LongArrayRoundTrip(xs: seq<i64>, rest: seq<u8>)
    requires FitsI32(|xs|)
    ensures ParseFlat(Payload(WLongArray(xs)) + rest, LONG_ARRAY_ID) == Done(LongArray(xs), rest)
  {
    assert Payload(WLongArray(xs)) + rest == I32Bytes(|xs|) + (LongsBytes(xs) + rest);
    TakeI32OfPut(|xs|, LongsBytes(xs) + rest);
    LongsRoundTrip(xs, rest, []);
    assert [] + xs == xs;
  }

  /** The list loop reads back every element payload, in order. */
  lemma {:induction false} ListRoundTrip(items: seq<Wire>, elem: u8, rest: seq<u8>, acc: seq<NbtTag>)
    requires forall i :: 0 <= i < |items| ==> WId(items[i]) == elem && WellFormed(items[i])
    ensures ParseList(Payloads(items) + rest, elem, |items|, acc) == Done(List(acc + ForgetAll(items)), rest)
    decreases items, 0
  {
    if items == [] {
      assert Payloads(items) + rest == rest;
      assert acc + ForgetAll(items) == acc;
    } else {
      var tail := Payloads(items[1..]) + rest;
      var t0 := Forget(items[0]);
      assert Payloads(items) + rest == Payload(items[0]) + tail;
      PayloadRoundTrip(items[0], tail);
      ParseListStep(Payloads(items) + rest, elem, |items|, acc, t0, tail);
      ListRoundTrip(items[1..], elem, rest, acc + [t0]);
      assert acc + [t0] + ForgetAll(items[1..]) == acc + ForgetAll(items);
    }
  }

  /** One turn of the list loop. */
  lemma ParseListStep(input: seq<u8>, elem: u8, n: nat, acc: seq<NbtTag>, t: NbtTag, after: seq<u8>)
    requires n > 0
    requires ParsePayload(input, elem) == Done(t, after)
    ensures ParseList(input, elem, n, acc) == ParseList(after, elem, n - 1, acc + [t])
  {
  }

  /** The compound loop reads back every entry and stops at the `END` byte. */
  lemma {:induction false} EntriesRoundTrip(entries: seq<Entry>, rest: seq<u8>, acc: map<JavaString, NbtTag>)
    requires forall i :: 0 <= i < |entries| ==> WellFormedEntry(entries[i])
    ensures ParseEntries(EntriesBytes(entries) + [END_ID] + rest, acc)
         == Done(NbtCompound(InsertAll(acc, ForgetEntries(entries))), rest)
    decreases entries, 0
  {
    var input := EntriesBytes(entries) + [END_ID] + rest;
    if entries == [] {
      assert input == [END_ID] + rest;
      assert input[1..] == rest;
    } else {
      var e := entries[0];
      var tail := EntriesBytes(entries[1..]) + [END_ID] + rest;
      var afterName := Payload(e.value) + tail;
      EntriesLayout(entries, rest);
      NbtStringOfPayload(e.name, afterName);
      PayloadRoundTrip(e.value, tail);
      ParseEntriesStep(input, acc, e.name, afterName, Forget(e.value), tail);
      EntriesRoundTrip(entries[1..], rest, acc[e.name := Forget(e.value)]);
      assert ForgetEntries(entries)[1..] == ForgetEntries(entries[1..]);
    }
  }

  /** The bytes of a nonempty entry run: the first entry's id, name and payload, then the others. */
  lemma EntriesLayout(entries: seq<Entry>, rest: seq<u8>)
    requires |entries| > 0
    ensures EntriesBytes(entries) + [END_ID] + rest
         == [WId(entries[0].value)] + (StringPayload(entries[0].name)
              + (Payload(entries[0].value) + (EntriesBytes(entries[1..]) + [END_ID] + rest)))
  {
    var e := entries[0];
    var tail := EntriesBytes(entries[1..]);
    assert EntriesBytes(entries) == NamedBytes(e) + tail;
    Assoc4([WId(e.value)], StringPayload(e.name), Payload(e.value), tail, rest);
  }

  lemma Assoc4(a: seq<u8>, b: seq<u8>, c: seq<u8>, d: seq<u8>, rest: seq<u8>)
    ensures (a + b + c + d) + [END_ID] + rest == a + (b + (c + (d + [END_ID] + rest)))
  {
    assert (a + b + c + d) + [END_ID] + rest == a + b + c + (d + [END_ID] + rest);
  }

  /** One turn of the compound loop, for a child that decodes. */
  lemma ParseEntriesStep(input: seq<u8>, acc: map<JavaString, NbtTag>, name: JavaString,
                         afterName: seq<u8>, t: NbtTag, after: seq<u8>)
    requires |input| > 0 && input[0] != END_ID
    requires NbtString(input[1..]) == Done(name, afterName)
    requires ParsePayload(afterName, input[0]) == Done(t, after)
    ensures ParseEntries(input, acc) == ParseEntries(after, acc[name := t])
  {
  }

  lemma {:induction false} IntsRoundTrip(xs: seq<i32>, rest: seq<u8>, acc: seq<i32>)
    ensures ParseInts(IntsBytes(xs) + rest, |xs|, acc) == Done(acc + xs, rest)
    decreases xs
  {
    if xs == [] {
      assert IntsBytes(xs) + rest == rest;
      assert acc + xs == acc;
    } else {
      assert IntsBytes(xs) + rest == I32Bytes(xs[0]) + (IntsBytes(xs[1..]) + rest);
      TakeI32OfPut(xs[0], IntsBytes(xs[1..]) + rest);
      IntsRoundTrip(xs[1..], rest, acc + [xs[0]]);
      assert acc + [xs[0]] + xs[1..] == acc + xs;
    }
  }

  lemma {:induction false} LongsRoundTrip(xs: seq<i64>, rest: seq<u8>, acc: seq<i64>)
    ensures ParseLongs(LongsBytes(xs) + rest, |xs|, acc) == Done(acc + xs, rest)
    decreases xs
  {
    if xs == [] {
      assert LongsBytes(xs) + rest == rest;
      assert acc + xs == acc;
    } else {
      assert LongsBytes(xs) + rest == I64Bytes(xs[0]) + (LongsBytes(xs[1..]) + rest);
      TakeI64OfPut(xs[0], LongsBytes(xs[1..]) + rest);
      LongsRoundTrip(xs[1..], rest, acc + [xs[0]]);
      assert acc + [xs[0]] + xs[1..] == acc + xs;
    }
  }

  /** `deserialize(serialize_tag(t))` gives t back. */
  lemma TagRoundTrip(w: Wire, rest: seq<u8>)
    requires WellFormed(w)
    ensures ParseTag(TagBytes(w) + rest) == Done(Forget(w), rest)
  {
    assert TagBytes(w) + rest == [WId(w)] + (Payload(w) + rest);
    PayloadRoundTrip(w, rest);
  }

  /** `NbtCompound::deserialize(serialize(c))` gives the map back. */
  lemma CompoundRoundTrip(entries: seq<Entry>, rest: seq<u8>)
    requires forall i :: 0 <= i < |entries| ==> WellFormedEntry(entries[i])
    ensures ParseCompound(CompoundBytes(entries) + rest) == Done(NbtCompound(InsertAll(map[], ForgetEntries(entries))), rest)
  {
    EntriesRoundTrip(entries, rest, map[]);
  }

  /**
   * Two enumerations of the same map decode to the same compound: the
   * HashMap order the writer happened to use does not matter to the reader.
   */
  lemma CompoundOrderIrrelevant(e1: seq<Entry>, e2: seq<Entry>, rest: seq<u8>)
    requires forall i :: 0 <= i < |e1| ==> WellFormedEntry(e1[i])
    requires forall i :: 0 <= i < |e2| ==> WellFormedEntry(e2[i])
    requires InsertAll(map[], ForgetEntries(e1)) == InsertAll(map[], ForgetEntries(e2))
    ensures ParseCompound(CompoundBytes(e1) + rest) == ParseCompound(CompoundBytes(e2) + rest)
    ensures ParseCompound(CompoundBytes(e1) + rest).Done?
  {
    CompoundRoundTrip(e1, rest);
    CompoundRoundTrip(e2, rest);
  }

  /**
   * A child with an unknown id ends the compound without an error: the
   * entries so far are returned and the input is left just after the
   * child's name.
   */
  lemma UnknownChildEndsCompound(id: u8, name: JavaString, rest: seq<u8>, acc: map<JavaString, NbtTag>)
    requires id > LONG_ARRAY_ID
    requires ValidString(name)
    ensures ParseEntries([id] + StringPayload(name) + rest, acc) == Done(NbtCompound(acc), rest)
  {
    var input := [id] + StringPayload(name) + rest;
    assert input[1..] == StringPayload(name) + rest;
    NbtStringOfPayload(name, rest);
  }

  /** An empty input ends the compound as `END` does. */
  lemma EmptyInputEndsCompound(acc: map<JavaString, NbtTag>)
    ensures ParseEntries([], acc) == Done(NbtCompound(acc), [])
    ensures ParseEntries([END_ID], acc) == Done(NbtCompound(acc), [])
  {
  }

  /** An empty list is written `00 00000000`. */
  lemma EmptyListLayout()
    ensures Payload(WList([])) == [0, 0, 0, 0, 0]
  {
    assert LenAsI32(0) == 0;
    assert I32Bytes(0) == [0, 0, 0, 0];
  }

  /** `Long(2137)` is written as its eight big-endian bytes. */
  lemma LongLayoutExample()
    ensures Payload(WLong(2137)) == [0, 0, 0, 0, 0, 0, 0x08, 0x59]
  {
  }

  /** `String("How are you?")` is written `00 0C` and the twelve ASCII bytes. */
  lemma StringLayoutExample()
    ensures Payload(WString([0x48, 0x6F, 0x77, 0x20, 0x61, 0x72, 0x65, 0x20, 0x79, 0x6F, 0x75, 0x3F]))
         == [0x00, 0x0C, 0x48, 0x6F, 0x77, 0x20, 0x61, 0x72, 0x65, 0x20, 0x79, 0x6F, 0x75, 0x3F]
  {
    assert BeBytes(12, 2) == [0x00, 0x0C];
  }

  /** A nonempty well-formed list is written with the id of its elements. */
  lemma ListHeaderCarriesElementId(items: seq<Wire>, i: nat)
    requires WellFormed(WList(items))
    requires i < |items|
    ensures Payload(WList(items))[0] == WId(items[i])
  {
  }

  /** Whatever a decoder returns from a byte sequence has the id it was asked for. */
  lemma DecodedIdMatches(input: seq<u8>, id: u8)
    ensures ParsePayload(input, id).Done? ==> ParsePayload(input, id).value.Id() == id
    ensures ParseTag(input).Done? ==> ParseTag(input).value.Id() == input[0]
  {
  }
  // ---------------------------------------------------------------------------
  // Appending one more element to a layout

  lemma {:induction false} PayloadsAppend(items: seq<Wire>, w: Wire)
    ensures Payloads(items + [w]) == Payloads(items) + Payload(w)
    decreases items
  {
    if items == [] {
      assert items + [w] == [w];
    } else {
      assert (items + [w])[1..] == items[1..] + [w];
      PayloadsAppend(items[1..], w);
    }
  }

  lemma {:induction false} EntriesBytesAppend(entries: seq<Entry>, e: Entry)
    ensures EntriesBytes(entries + [e]) == EntriesBytes(entries) + NamedBytes(e)
    decreases entries
  {
    if entries == [] {
      assert entries + [e] == [e];
    } else {
      assert (entries + [e])[1..] == entries[1..] + [e];
      EntriesBytesAppend(entries[1..], e);
    }
  }

  lemma {:induction false} IntsBytesAppend(xs: seq<i32>, x: i32)
    ensures IntsBytes(xs + [x]) == IntsBytes(xs) + I32Bytes(x)
    decreases xs
  {
    if xs == [] {
      assert xs + [x] == [x];
    } else {
      assert (xs + [x])[1..] == xs[1..] + [x];
      IntsBytesAppend(xs[1..], x);
    }
  }

  lemma {:induction false} LongsBytesAppend(xs: seq<i64>, x: i64)
    ensures LongsBytes(xs + [x]) == LongsBytes(xs) + I64Bytes(x)
    decreases xs
  {
    if xs == [] {
      assert xs + [x] == [x];
    } else {
      assert (xs + [x])[1..] == xs[1..] + [x];
      LongsBytesAppend(xs[1..], x);
    }
  }
}
