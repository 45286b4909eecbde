/**
 * The NBT byte layout of `NbtTag::serialize_raw`, `serialize_named` and
 * `NbtCompound::serialize`, and the decoding of `deserialize_raw` and
 * `NbtCompound::deserialize`, as functions on byte sequences.
 *
 * A compound is a map, but the writer enumerates it in HashMap order, which
 * is unspecified. The layout is therefore stated over a `Wire`: the same
 * tree with each compound given as the sequence of entries in the order they
 * were written. `Forget` turns a `Wire` back into the tag it was written
 * from. The decoder works on bytes alone and is independent of any order.
 */
module Codec {
  import opened Numeric
  import opened Errors
  import opened ByteBuf
  import opened JavaCesu8
  import opened NbtUtils
  import opened Tag

  /** A tag as laid out on the wire: compounds are entry sequences in write order. */
  datatype Wire =
    | WEnd
    | WByte(byteValue: i8)
    | WShort(shortValue: i16)
    | WInt(intValue: i32)
    | WLong(longValue: i64)
    | WFloat(floatBits: f32)
    | WDouble(doubleBits: f64)
    | WByteArray(byteArray: seq<u8>)
    | WString(text: JavaString)
    | WList(items: seq<Wire>)
    | WCompound(entries: seq<Entry>)
    | WIntArray(intArray: seq<i32>)
    | WLongArray(longArray: seq<i64>)

  /** One named child of a compound. */
  datatype Entry = Entry(name: JavaString, value: Wire)

  function WId(w: Wire): u8 {
    match w
    case WEnd => END_ID
    case WByte(_) => BYTE_ID
    case WShort(_) => SHORT_ID
    case WInt(_) => INT_ID
    case WLong(_) => LONG_ID
    case WFloat(_) => FLOAT_ID
    case WDouble(_) => DOUBLE_ID
    case WByteArray(_) => BYTE_ARRAY_ID
    case WString(_) => STRING_ID
    case WList(_) => LIST_ID
    case WCompound(_) => COMPOUND_ID
    case WIntArray(_) => INT_ARRAY_ID
    case WLongArray(_) => LONG_ARRAY_ID
  }

  /** The tag a wire tree was written from: entries are inserted in order, a later name overwriting. */
  function Forget(w: Wire): (t: NbtTag)
    ensures t.Id() == WId(w)
  {
    match w
    case WEnd => End
    case WByte(v) => Byte(v)
    case WShort(v) => Short(v)
    case WInt(v) => Int(v)
    case WLong(v) => Long(v)
    case WFloat(v) => Float(v)
    case WDouble(v) => Double(v)
    case WByteArray(bs) => ByteArray(bs)
    case WString(s) => String(s)
    case WList(items) => List(ForgetAll(items))
    case WCompound(entries) => Compound(NbtCompound(InsertAll(map[], ForgetEntries(entries))))
    case WIntArray(xs) => IntArray(xs)
    case WLongArray(xs) => LongArray(xs)
  }

  function ForgetAll(items: seq<Wire>): (ts: seq<NbtTag>)
    ensures |ts| == |items|
    ensures forall i :: 0 <= i < |items| ==> ts[i] == Forget(items[i])
  {
    if items == [] then [] else [Forget(items[0])] + ForgetAll(items[1..])
  }

  /** The entries as (name, tag) pairs, in write order. */
  function ForgetEntries(entries: seq<Entry>): (pairs: seq<(JavaString, NbtTag)>)
    ensures |pairs| == |entries|
    ensures forall i :: 0 <= i < |entries| ==> pairs[i] == (entries[i].name, Forget(entries[i].value))
  {
    if entries == [] then [] else [(entries[0].name, Forget(entries[0].value))] + ForgetEntries(entries[1..])
  }

  // ---------------------------------------------------------------------------
  // Layout

  /** The element id a list is written with: that of its first element, `End` when empty. */
  function ListElementId(items: seq<Wire>): u8 {
    if items == [] then END_ID else WId(items[0])
  }

  /** `serialize_raw`: the payload without id or name. */
  function Payload(w: Wire): (r: seq<u8>)
    ensures r == [] <==> w.WEnd?
  {
    match w
    case WEnd => []
    case WByte(v) => I8Bytes(v)
    case WShort(v) => I16Bytes(v)
    case WInt(v) => I32Bytes(v)
    case WLong(v) => I64Bytes(v)
    case WFloat(v) => U32Bytes(v)
    case WDouble(v) => U64Bytes(v)
    case WByteArray(bs) => I32Bytes(LenAsI32(|bs|)) + bs
    case WString(s) => StringPayload(s)
    case WList(items) => [ListElementId(items)] + I32Bytes(LenAsI32(|items|)) + Payloads(items)
    case WCompound(entries) => EntriesBytes(entries) + [END_ID]
    case WIntArray(xs) => I32Bytes(LenAsI32(|xs|)) + IntsBytes(xs)
    case WLongArray(xs) => I32Bytes(LenAsI32(|xs|)) + LongsBytes(xs)
  }

  /** The payloads of list elements, one after another, with no per-element id. */
  function Payloads(items: seq<Wire>): seq<u8> {
    if items == [] then [] else Payload(items[0]) + Payloads(items[1..])
  }

  /** `serialize_named`: id, framed name, payload. */
  function NamedBytes(e: Entry): seq<u8> {
    [WId(e.value)] + StringPayload(e.name) + Payload(e.value)
  }

  function EntriesBytes(entries: seq<Entry>): seq<u8> {
    if entries == [] then [] else NamedBytes(entries[0]) + EntriesBytes(entries[1..])
  }

  /** `NbtCompound::serialize`: every entry named, then one `END` byte. */
  function CompoundBytes(entries: seq<Entry>): seq<u8> {
    EntriesBytes(entries) + [END_ID]
  }

  /** `serialize_tag`: id and payload. */
  function TagBytes(w: Wire): seq<u8> {
    [WId(w)] + Payload(w)
  }

  function IntsBytes(xs: seq<i32>): seq<u8> {
    if xs == [] then [] else I32Bytes(xs[0]) + IntsBytes(xs[1..])
  }

  function LongsBytes(xs: seq<i64>): seq<u8> {
    if xs == [] then [] else I64Bytes(xs[0]) + LongsBytes(xs[1..])
  }

  // ---------------------------------------------------------------------------
  // Conditions under which the layout can be read back

  /** A string the u16 length prefix can frame and the reader accepts. */
  predicate ValidString(s: JavaString) {
    |s| < 0x1_0000 && IsJavaCesu8(s)
  }

  /** A count that survives the cast to i32. */
  predicate FitsI32(n: nat) {
    n < 0x8000_0000
  }

  /**
   * Every string frameable, every count within i32, every list element of
   * the list's element id, and no `End` as a compound child (its id would
   * read as the compound's terminator).
   */
  predicate WellFormed(w: Wire) {
    match w
    case WByteArray(bs) => FitsI32(|bs|)
    case WString(s) => ValidString(s)
    case WList(items) =>
      FitsI32(|items|)
      && forall i :: 0 <= i < |items| ==> WId(items[i]) == ListElementId(items) && WellFormed(items[i])
    case WCompound(entries) => forall i :: 0 <= i < |entries| ==> WellFormedEntry(entries[i])
    case WIntArray(xs) => FitsI32(|xs|)
    case WLongArray(xs) => FitsI32(|xs|)
    case _ => true
  }

  predicate WellFormedEntry(e: Entry) {
    ValidString(e.name) && WId(e.value) != END_ID && WellFormed(e.value)
  }

  /** The same conditions on a tag. */
  predicate Encodable(t: NbtTag) {
    match t
    case ByteArray(bs) => FitsI32(|bs|)
    case String(s) => ValidString(s)
    case List(items) =>
      FitsI32(|items|)
      && forall i :: 0 <= i < |items| ==> items[i].Id() == items[0].Id() && Encodable(items[i])
    case Compound(c) => EncodableCompound(c)
    case IntArray(xs) => FitsI32(|xs|)
    case LongArray(xs) => FitsI32(|xs|)
    case _ => true
  }

  predicate EncodableCompound(c: NbtCompound) {
    forall name :: name in c.childTags ==>
      ValidString(name) && c.childTags[name].Id() != END_ID && Encodable(c.childTags[name])
  }

  /** Entry names pairwise distinct. */
  predicate NamesDistinct(entries: seq<Entry>) {
    forall i, j :: 0 <= i < j < |entries| ==> entries[i].name != entries[j].name
  }

  /** Each compound of the tree written with every name once. */
  predicate Distinct(w: Wire) {
    match w
    case WList(items) => forall i :: 0 <= i < |items| ==> Distinct(items[i])
    case WCompound(entries) =>
      NamesDistinct(entries) && forall i :: 0 <= i < |entries| ==> Distinct(entries[i].value)
    case _ => true
  }

  // ---------------------------------------------------------------------------
  // Decoding

  /**
   * `deserialize_raw(bytes, tag_id)`. The two variants that recurse are
   * decoded here; the others by `ParseScalar` and `ParseFlat`.
   */
  function ParsePayload(input: seq<u8>, id: u8): (r: Parse<NbtTag>)
    ensures !r.Panicked? ==> |r.rest| <= |input|
    ensures r.Done? ==> r.value.Id() == id
    ensures r.Failed? ==> r.error.UnknownTagId? && r.error.id > LONG_ARRAY_ID as int
    ensures id > LONG_ARRAY_ID ==> r == Failed(UnknownTagId(id), input)
    decreases |input|, 2, 0
  {
    if id == LIST_ID then ParseListPayload(input)
    else if id == COMPOUND_ID then
      var c :- ParseEntries(input, map[]);
      Done(Compound(c.0), c.1)
    else if id <= DOUBLE_ID then ParseScalar(input, id)
    else ParseFlat(input, id)
  }

  /** The `LIST_ID` arm: element id, i32 count, then that many payloads. */
  function ParseListPayload(input: seq<u8>): (r: Parse<NbtTag>)
    ensures !r.Panicked? ==> |r.rest| <= |input|
    ensures r.Done? ==> r.value.List?
    ensures r.Failed? ==> r.error.UnknownTagId? && r.error.id > LONG_ARRAY_ID as int
    decreases |input|, 1, 0
  {
    var elem :- TakeU8(input);
    var len :- TakeI32(elem.1);
    // a negative count cast to usize sizes `Vec::with_capacity` beyond what it accepts
    if len.0 < 0 then Panicked
    else ParseList(len.1, elem.0, len.0, [])
  }

  /** The fixed-width variants, `End` included: a panic when the input is too short. */
  function ParseScalar(input: seq<u8>, id: u8): (r: Parse<NbtTag>)
    requires id <= DOUBLE_ID
    ensures !r.Failed?
    ensures r.Done? ==> |r.rest| <= |input| && r.value.Id() == id
  {
    if id == END_ID then Done(End, input)
    else if id == BYTE_ID then
      var v :- TakeI8(input);
      Done(Byte(v.0), v.1)
    else if id == SHORT_ID then
      var v :- TakeI16(input);
      Done(Short(v.0), v.1)
    else if id == INT_ID then
      var v :- TakeI32(input);
      Done(Int(v.0), v.1)
    else if id == LONG_ID then
      var v :- TakeI64(input);
      Done(Long(v.0), v.1)
    else if id == FLOAT_ID then
      var v :- TakeU32(input);
      Done(Float(v.0), v.1)
    else
      var v :- TakeU64(input);
      Done(Double(v.0), v.1)
  }

  /**
   * The arrays, the string and an unknown id. A negative i32 count is cast
   * to a huge `usize`: the slice or the `Vec::with_capacity` it sizes
   * panics. A string payload is read with `unwrap`, so an invalid one panics.
   */
  function ParseFlat(input: seq<u8>, id: u8): (r: Parse<NbtTag>)
    requires id > DOUBLE_ID && id != LIST_ID && id != COMPOUND_ID
    ensures !r.Panicked? ==> |r.rest| <= |input|
    ensures r.Done? ==> r.value.Id() == id
    ensures r.Failed? <==> id > LONG_ARRAY_ID
    ensures id > LONG_ARRAY_ID ==> r == Failed(UnknownTagId(id), input)
  {
    if id == BYTE_ARRAY_ID then
      var len :- TakeI32(input);
      if len.0 < 0 then Panicked
      else
        var bytes :- Take(len.1, len.0);
        Done(ByteArray(bytes.0), bytes.1)
    else if id == STRING_ID then
      match NbtString(input)
      case Done(s, rest) => Done(String(s), rest)
      case _ => Panicked
    else if id == INT_ARRAY_ID then
      var len :- TakeI32(input);
      if len.0 < 0 then Panicked
      else
        var xs :- ParseInts(len.1, len.0, []);
        Done(IntArray(xs.0), xs.1)
    else if id == LONG_ARRAY_ID then
      var len :- TakeI32(input);
      if len.0 < 0 then Panicked
      else
        var xs :- ParseLongs(len.1, len.0, []);
        Done(LongArray(xs.0), xs.1)
    else Failed(UnknownTagId(id), input)
  }

  /** The list loop: n more payloads of the element id, appended to acc. */
  function ParseList(input: seq<u8>, elem: u8, n: nat, acc: seq<NbtTag>): (r: Parse<NbtTag>)
    ensures !r.Panicked? ==> |r.rest| <= |input|
    ensures r.Done? ==> r.value.List?
    ensures r.Failed? ==> r.error.UnknownTagId? && r.error.id > LONG_ARRAY_ID as int
    decreases |input|, 3, n
  {
    if n == 0 then Done(List(acc), input)
    else
      var t :- ParsePayload(input, elem);
      ParseList(t.1, elem, n - 1, acc + [t.0])
  }

  /**
   * The compound loop from acc: stops at an empty input or an `END` id,
   * and, with what it has, at a child that fails to decode. Names are read
   * with `unwrap`.
   */
  function ParseEntries(input: seq<u8>, acc: map<JavaString, NbtTag>): (r: Parse<NbtCompound>)
    ensures !r.Failed?
    ensures r.Done? ==> |r.rest| <= |input|
    decreases |input|, 0, 0
  {
    if |input| == 0 then Done(NbtCompound(acc), input)
    else if input[0] == END_ID then Done(NbtCompound(acc), input[1..])
    else
      match NbtString(input[1..])
      case Done(name, afterName) =>
        (match ParsePayload(afterName, input[0])
         case Done(t, rest) => ParseEntries(rest, acc[name := t])
         case Failed(_, rest) => Done(NbtCompound(acc), rest)
         case Panicked => Panicked)
      case _ => Panicked
  }

  /** `NbtCompound::deserialize` on the input. */
  function ParseCompound(input: seq<u8>): (r: Parse<NbtCompound>)
    ensures !r.Failed?
  {
    ParseEntries(input, map[])
  }

  /** `deserialize`: an id byte, then the payload for it. */
  function ParseTag(input: seq<u8>): (r: Parse<NbtTag>)
    ensures |input| == 0 ==> r.Panicked?
    ensures r.Done? ==> r.value.Id() == input[0] && |r.rest| < |input|
    ensures r.Failed? ==> r.error.UnknownTagId?
    ensures |input| > 0 && input[0] > LONG_ARRAY_ID ==> r == Failed(UnknownTagId(input[0]), input[1..])
  {
    var id :- TakeU8(input);
    ParsePayload(id.1, id.0)
  }

  function ParseInts(input: seq<u8>, n: nat, acc: seq<i32>): (r: Parse<seq<i32>>)
    ensures !r.Failed?
    ensures r.Done? ==> |r.rest| <= |input|
    decreases n
  {
    if n == 0 then Done(acc, input)
    else
      var v :- TakeI32(input);
      ParseInts(v.1, n - 1, acc + [v.0])
  }

  function ParseLongs(input: seq<u8>, n: nat, acc: seq<i64>): (r: Parse<seq<i64>>)
    ensures !r.Failed?
    ensures r.Done? ==> |r.rest| <= |input|
    decreases n
  {
    if n == 0 then Done(acc, input)
    else
      var v :- TakeI64(input);
      ParseLongs(v.1, n - 1, acc + [v.0])
  }
}
