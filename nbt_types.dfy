/**
 * The serde mapping of `src/serde/nbt_types.rs` for `NbtTag` and
 * `NbtCompound`.
 *
 * Serializing: `TagValue(w)` is the value of serde's data model that
 * `NbtTag::serialize` presents to a serializer for the tag `Forget(w)`, its
 * compounds enumerated in the order `w` records (HashMap order). The `for`
 * loops of the `serialize` impls are the element and entry loops of
 * `Ser.Serializer`, run over this value.
 *
 * Deserializing: `Visit` is what `deserialize_any` hands a visitor for a tag
 * that is neither a list nor a compound, and `TagOfVisit` is what
 * `NbtTagVisitor` makes of it. Lists and compounds are read by the
 * deserializer's own loops, which fill the visitor's `Vec` and compound.
 */
module NbtTypes {
  import opened Numeric
  import opened Errors
  import opened JavaCesu8
  import opened Tag
  import opened Codec
  import opened Ser

  // ---------------------------------------------------------------------------
  // `impl Serialize for NbtTag` and `impl Serialize for NbtCompound`

  /** `NbtTag::serialize`: one serializer call per variant. */
  function TagValue(w: Wire): (v: Value)
    ensures v.VMap? <==> w.WCompound?
    ensures v.VSeq? <==> w.WByteArray? || w.WList? || w.WIntArray? || w.WLongArray?
    ensures v.VSeq? ==> v.len == Some(|v.elements|)
    decreases w, 0
  {
    match w
    case WEnd => VUnit
    case WByte(x) => VI8(x)
    case WShort(x) => VI16(x)
    case WInt(x) => VI32(x)
    case WLong(x) => VI64(x)
    case WFloat(x) => VF32(x)
    case WDouble(x) => VF64(x)
    case WByteArray(bs) => VSeq(Some(|bs|), ByteValues(bs))
    case WString(s) => VStr(s)
    case WList(items) => VSeq(Some(|items|), TagValues(items))
    case WCompound(entries) => CompoundValue(entries)
    case WIntArray(xs) => VSeq(Some(|xs|), IntValues(xs))
    case WLongArray(xs) => VSeq(Some(|xs|), LongValues(xs))
  }

  /** The elements of a list, one value per item, in order. */
  function TagValues(items: seq<Wire>): (vs: seq<Value>)
    ensures |vs| == |items|
    ensures forall i :: 0 <= i < |items| ==> vs[i] == TagValue(items[i])
    decreases items, 1
  {
    if items == [] then [] else [TagValue(items[0])] + TagValues(items[1..])
  }

  /** `NbtCompound::serialize`: `serialize_map`, one `serialize_entry(key, value)` per child, `end`. */
  function CompoundValue(entries: seq<Entry>): (v: Value)
    ensures v.VMap? && |v.entries| == |entries|
    ensures forall i :: 0 <= i < |entries| ==> v.entries[i].key == VStr(entries[i].name)
    decreases entries, 2
  {
    VMap(TagEntries(entries))
  }

  function TagEntries(entries: seq<Entry>): (es: seq<MapEntry>)
    ensures |es| == |entries|
    ensures forall i :: 0 <= i < |entries| ==> es[i] == MapEntry(VStr(entries[i].name), TagValue(entries[i].value))
    decreases entries, 1
  {
    if entries == [] then []
    else [MapEntry(VStr(entries[0].name), TagValue(entries[0].value))] + TagEntries(entries[1..])
  }

  /** A `ByteArray` element is a `u8`, which reaches `serialize_u8`. */
  function ByteValues(bs: seq<u8>): (vs: seq<Value>)
    ensures |vs| == |bs|
    ensures forall i :: 0 <= i < |vs| ==> vs[i] == VUnsupported(U8)
  {
    seq(|bs|, _ => VUnsupported(U8))
  }

  function IntValues(xs: seq<i32>): (vs: seq<Value>)
    ensures |vs| == |xs|
    ensures forall i :: 0 <= i < |xs| ==> vs[i] == VI32(xs[i])
  {
    seq(|xs|, i requires 0 <= i < |xs| => VI32(xs[i]))
  }

  function LongValues(xs: seq<i64>): (vs: seq<Value>)
    ensures |vs| == |xs|
    ensures forall i :: 0 <= i < |xs| ==> vs[i] == VI64(xs[i])
  {
    seq(|xs|, i requires 0 <= i < |xs| => VI64(xs[i]))
  }

  // ---------------------------------------------------------------------------
  // `NbtTagVisitor`

  /**
   * A visitor call made by `deserialize_any` for a tag that is neither a
   * list nor a compound: one per scalar type, `visit_string`, and
   * `visit_seq` over a sequence of primitives for the three array tags.
   * `visit_bool` is made by `deserialize_bool`.
   */
  datatype Visit =
    | VisitBool(b: bool)
    | VisitI8(i8Value: i8)
    | VisitI16(i16Value: i16)
    | VisitI32(i32Value: i32)
    | VisitI64(i64Value: i64)
    | VisitF32(f32Bits: f32)
    | VisitF64(f64Bits: f64)
    | VisitString(s: JavaString)
    | VisitI8Seq(bytes: seq<i8>)
    | VisitI32Seq(ints: seq<i32>)
    | VisitI64Seq(longs: seq<i64>)

  /**
   * `NbtTagVisitor`: each scalar call gives the tag of that type, and
   * `visit_seq` collects the elements in order into a `List`, each element
   * decoded through `visit_i8`, `visit_i32` or `visit_i64`.
   */
  function TagOfVisit(v: Visit): (t: NbtTag)
    ensures v.VisitBool? ==> t == FromBool(v.b)
    ensures (v.VisitI8Seq? || v.VisitI32Seq? || v.VisitI64Seq?) <==> t.List?
    ensures v.VisitI8Seq? ==> |t.items| == |v.bytes| && forall i :: 0 <= i < |v.bytes| ==> t.items[i] == Byte(v.bytes[i])
    ensures v.VisitI32Seq? ==> |t.items| == |v.ints| && forall i :: 0 <= i < |v.ints| ==> t.items[i] == Int(v.ints[i])
    ensures v.VisitI64Seq? ==> |t.items| == |v.longs| && forall i :: 0 <= i < |v.longs| ==> t.items[i] == Long(v.longs[i])
  {
    match v
    case VisitBool(b) => Byte(if b then 1 else 0)
    case VisitI8(x) => Byte(x)
    case VisitI16(x) => Short(x)
    case VisitI32(x) => Int(x)
    case VisitI64(x) => Long(x)
    case VisitF32(x) => Float(x)
    case VisitF64(x) => Double(x)
    case VisitString(s) => String(s)
    case VisitI8Seq(xs) => List(seq(|xs|, i requires 0 <= i < |xs| => Byte(xs[i])))
    case VisitI32Seq(xs) => List(seq(|xs|, i requires 0 <= i < |xs| => Int(xs[i])))
    case VisitI64Seq(xs) => List(seq(|xs|, i requires 0 <= i < |xs| => Long(xs[i])))
  }
}
