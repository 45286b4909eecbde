/**
 * The `IntArray`, `LongArray` and `BytesArray` wrappers of
 * `src/serde/arrays.rs`: a field serialized `with` one of them is handed to
 * the serializer as the newtype variant `nbt_array::int` (`long`, `byte`) of
 * its content, which makes the serializer frame the content as a typed array
 * instead of a list. Their `deserialize` is the content's own, so nothing
 * marks an array on the way back.
 */
module Arrays {
  import opened Numeric
  import opened Errors
  import opened JavaCesu8
  import opened NbtUtils
  import opened Codec
  import opened Ser
  import opened NbtTypes
  import opened ByteBuf
  import opened Tag
  import opened NbtDoc
  import opened SerProofs
  import opened SerCallbacks

  datatype ArrayKind = IntKind | LongKind | ByteKind

  /** The tag id a wrapper's arrays are written with. */
  function KindId(k: ArrayKind): u8 {
    match k
    case IntKind => INT_ARRAY_ID
    case LongKind => LONG_ARRAY_ID
    case ByteKind => BYTE_ARRAY_ID
  }

  /** The variant name each wrapper passes; it is the one the serializer maps to the wrapper's array id. */
  function VariantName(k: ArrayKind): (s: string)
    ensures ArrayId(s) == Some(KindId(k))
  {
    match k
    case IntKind => "int"
    case LongKind => "long"
    case ByteKind => "byte"
  }

  /** `serialize(input, serializer)`: `serialize_newtype_variant("nbt_array", 0, variant, &input)`. */
  function Wrap(k: ArrayKind, input: Value): (v: Value)
    ensures v.VNewtypeVariant? && v.enumName == NBT_ARRAY && v.content == input
    ensures ArrayId(v.variantName) == Some(KindId(k))
  {
    VNewtypeVariant(NBT_ARRAY, VariantName(k), input)
  }

  /** The sequence a `Vec<i8>` presents: one `serialize_i8` per element. */
  function I8Values(xs: seq<i8>): (vs: seq<Value>)
    ensures |vs| == |xs|
    ensures forall i :: 0 <= i < |xs| ==> vs[i] == VI8(xs[i])
  {
    seq(|xs|, i requires 0 <= i < |xs| => VI8(xs[i]))
  }

  /** The bytes of the `i8`s, as a `ByteArray` tag holds them. */
  function I8sAsU8(xs: seq<i8>): (bs: seq<u8>)
    ensures |bs| == |xs|
    ensures forall i :: 0 <= i < |xs| ==> U8AsI8(bs[i]) == xs[i]
  {
    seq(|xs|, i requires 0 <= i < |xs| => I8AsU8(xs[i]))
  }

  // ---------------------------------------------------------------------------
  // A wrapped field is written as the typed array tag

  /** A named `IntArray` field of `xs` writes exactly the `IntArray` tag of `xs` under that name. */
  lemma IntArrayField(o: seq<u8>, name: JavaString, xs: seq<i32>)
    ensures Emit(Machine(o, Named(name)), Wrap(IntKind, VSeq(Some(|xs|), IntValues(xs))))
         == Step(Ok(()), Machine(o + NamedBytes(Entry(name, WIntArray(xs))), ListElement))
  {
    var o1 := o + [INT_ARRAY_ID] + StringPayload(name) + I32Bytes(LenAsI32(|xs|));
    WrappedSeq(o, name, IntKind, |xs|, IntValues(xs));
    IntsRest(o1, xs);
    ArrayBytes(o, name, WIntArray(xs), I32Bytes(LenAsI32(|xs|)), IntsBytes(xs));
  }

  /** A named `LongArray` field of `xs` writes exactly the `LongArray` tag of `xs` under that name. */
  lemma LongArrayField(o: seq<u8>, name: JavaString, xs: seq<i64>)
    ensures Emit(Machine(o, Named(name)), Wrap(LongKind, VSeq(Some(|xs|), LongValues(xs))))
         == Step(Ok(()), Machine(o + NamedBytes(Entry(name, WLongArray(xs))), ListElement))
  {
    var o1 := o + [LONG_ARRAY_ID] + StringPayload(name) + I32Bytes(LenAsI32(|xs|));
    WrappedSeq(o, name, LongKind, |xs|, LongValues(xs));
    LongsRest(o1, xs);
    ArrayBytes(o, name, WLongArray(xs), I32Bytes(LenAsI32(|xs|)), LongsBytes(xs));
  }

  /** A named `BytesArray` field of `i8`s writes exactly the `ByteArray` tag of their bytes. */
  lemma BytesArrayField(o: seq<u8>, name: JavaString, xs: seq<i8>)
    ensures Emit(Machine(o, Named(name)), Wrap(ByteKind, VSeq(Some(|xs|), I8Values(xs))))
         == Step(Ok(()), Machine(o + NamedBytes(Entry(name, WByteArray(I8sAsU8(xs)))), ListElement))
  {
    var o1 := o + [BYTE_ARRAY_ID] + StringPayload(name) + I32Bytes(LenAsI32(|xs|));
    WrappedSeq(o, name, ByteKind, |xs|, I8Values(xs));
    BytesRest(o1, xs);
    ArrayBytes(o, name, WByteArray(I8sAsU8(xs)), I32Bytes(LenAsI32(|xs|)), I8sAsU8(xs));
  }

  /**
   * A `BytesArray` over `u8`s fails: its first element reaches
   * `serialize_u8`, which is refused. Only the array header is written.
   */
  lemma UnsignedBytesRefused(o: seq<u8>, name: JavaString, bs: seq<u8>)
    requires |bs| > 0
    ensures Emit(Machine(o, Named(name)), Wrap(ByteKind, VSeq(Some(|bs|), ByteValues(bs))))
         == Step(Err(UnsupportedType("u8")),
                 Machine(o + [BYTE_ARRAY_ID] + StringPayload(name) + I32Bytes(LenAsI32(|bs|)), ListElement))
  {
    WrappedSeq(o, name, ByteKind, |bs|, ByteValues(bs));
  }

  /** Any other variant name is refused when the sequence begins, with nothing written. */
  lemma UnknownArrayType(o: seq<u8>, name: JavaString, variantName: string, n: nat, elements: seq<Value>)
    requires ArrayId(variantName).None?
    ensures Emit(Machine(o, Named(name)), VNewtypeVariant(NBT_ARRAY, variantName, VSeq(Some(n), elements)))
         == Step(Err(SerdeError(ARRAY_TYPES)), Machine(o, Array(name, variantName)))
  {
  }

  // ---------------------------------------------------------------------------
  // A struct with one wrapped field, written unnamed and read back

  /** The struct `{ name: IntArray(xs) }` is the document whose only child is the `IntArray` tag `xs`. */
  lemma IntArrayStruct(name: JavaString, xs: seq<i32>)
    requires ValidString(name) && FitsI32(|xs|)
    ensures ToBytesF(VStruct([Field(name, Wrap(IntKind, VSeq(Some(|xs|), IntValues(xs))))]), None)
         == Ok(UnnamedRootBytes([Entry(name, WIntArray(xs))]))
    ensures ParseUnnamed(UnnamedRootBytes([Entry(name, WIntArray(xs))]))
         == Done(FromCompound(NbtCompound(map[name := IntArray(xs)])), [])
  {
    IntArrayField([COMPOUND_ID], name, xs);
    OneFieldStruct(name, WIntArray(xs), Wrap(IntKind, VSeq(Some(|xs|), IntValues(xs))));
  }

  /** The struct `{ name: LongArray(xs) }` is the document whose only child is the `LongArray` tag `xs`. */
  lemma LongArrayStruct(name: JavaString, xs: seq<i64>)
    requires ValidString(name) && FitsI32(|xs|)
    ensures ToBytesF(VStruct([Field(name, Wrap(LongKind, VSeq(Some(|xs|), LongValues(xs))))]), None)
         == Ok(UnnamedRootBytes([Entry(name, WLongArray(xs))]))
    ensures ParseUnnamed(UnnamedRootBytes([Entry(name, WLongArray(xs))]))
         == Done(FromCompound(NbtCompound(map[name := LongArray(xs)])), [])
  {
    LongArrayField([COMPOUND_ID], name, xs);
    OneFieldStruct(name, WLongArray(xs), Wrap(LongKind, VSeq(Some(|xs|), LongValues(xs))));
  }

  /** The struct `{ name: BytesArray(xs) }` over `i8`s is the document whose only child is the `ByteArray` of their bytes. */
  lemma BytesArrayStruct(name: JavaString, xs: seq<i8>)
    requires ValidString(name) && FitsI32(|xs|)
    ensures ToBytesF(VStruct([Field(name, Wrap(ByteKind, VSeq(Some(|xs|), I8Values(xs))))]), None)
         == Ok(UnnamedRootBytes([Entry(name, WByteArray(I8sAsU8(xs)))]))
    ensures ParseUnnamed(UnnamedRootBytes([Entry(name, WByteArray(I8sAsU8(xs)))]))
         == Done(FromCompound(NbtCompound(map[name := ByteArray(I8sAsU8(xs))])), [])
  {
    BytesArrayField([COMPOUND_ID], name, xs);
    OneFieldStruct(name, WByteArray(I8sAsU8(xs)), Wrap(ByteKind, VSeq(Some(|xs|), I8Values(xs))));
  }

  /** A root struct with one field whose value writes one named tag is that tag's one-entry document. */
  lemma OneFieldStruct(name: JavaString, w: Wire, v: Value)
    requires WellFormedEntry(Entry(name, w))
    requires Emit(Machine([COMPOUND_ID], Named(name)), v)
          == Step(Ok(()), Machine([COMPOUND_ID] + NamedBytes(Entry(name, w)), ListElement))
    ensures ToBytesF(VStruct([Field(name, v)]), None) == Ok(UnnamedRootBytes([Entry(name, w)]))
    ensures ParseUnnamed(UnnamedRootBytes([Entry(name, w)]))
         == Done(FromCompound(NbtCompound(map[name := Forget(w)])), [])
  {
    var e := Entry(name, w);
    var m1 := Machine([COMPOUND_ID] + NamedBytes(e), ListElement);
    assert EmitFields(Machine([COMPOUND_ID], Root(None)), [Field(name, v)]) == Step(Ok(()), m1) by {
      assert [Field(name, v)][1..] == [];
    }
    RootStructHeader([Field(name, v)], None);
    StructLayout(Machine([], Root(None)), Machine([COMPOUND_ID], Root(None)), [Field(name, v)], m1);
    assert EntriesBytes([e]) == NamedBytes(e) by {
      assert [e][1..] == [];
    }
    AppendAssoc([COMPOUND_ID], NamedBytes(e), [END_ID]);
    UnnamedRoundTrip([e], []);
    assert UnnamedRootBytes([e]) + [] == UnnamedRootBytes([e]);
    assert ForgetEntries([e]) == [(name, Forget(w))];
    assert InsertAll(map[], [(name, Forget(w))]) == map[name := Forget(w)] by {
      assert [(name, Forget(w))][1..] == [];
    }
  }

  // ---------------------------------------------------------------------------
  // Steps of the proofs above

  /** The wrapper moves to the `Array` state, whose sequence writes the id, the name and the count. */
  lemma WrappedSeq(o: seq<u8>, name: JavaString, k: ArrayKind, n: nat, elements: seq<Value>)
    ensures Emit(Machine(o, Named(name)), Wrap(k, VSeq(Some(n), elements)))
         == EmitElements(Machine(o + [KindId(k)] + StringPayload(name) + I32Bytes(LenAsI32(n)), ListElement), elements)
  {
    AppendAssoc(o, [KindId(k)], StringPayload(name));
  }

  lemma ArrayBytes(o: seq<u8>, name: JavaString, w: Wire, count: seq<u8>, body: seq<u8>)
    requires Payload(w) == count + body
    ensures o + [WId(w)] + StringPayload(name) + count + body == o + NamedBytes(Entry(name, w))
  {
    AppendAssoc(o + [WId(w)] + StringPayload(name), count, body);
    AppendAssoc(o, [WId(w)] + StringPayload(name), Payload(w));
  }

  /** An `i8` is one byte, its two's-complement pattern. */
  lemma I8Byte(x: i8)
    ensures I8Bytes(x) == [I8AsU8(x)]
  {
    Pow256Widths();
  }

  /** Inside the array each `i8` writes its byte and no prefix. */
  lemma {:induction false} BytesRest(o: seq<u8>, xs: seq<i8>)
    ensures EmitElements(Machine(o, ListElement), I8Values(xs)) == Step(Ok(()), Machine(o + I8sAsU8(xs), ListElement))
    decreases xs
  {
    if xs == [] {
      assert o + [] == o;
    } else {
      I8Byte(xs[0]);
      var o1 := o + [I8AsU8(xs[0])];
      assert ElementStep(Machine(o, ListElement), VI8(xs[0])) == Step(Ok(()), Machine(o1, ListElement)) by {
        assert o + [] + I8Bytes(xs[0]) == o1;
      }
      assert I8Values(xs)[1..] == I8Values(xs[1..]);
      BytesRest(o1, xs[1..]);
      assert I8sAsU8(xs) == [I8AsU8(xs[0])] + I8sAsU8(xs[1..]);
      AppendAssoc(o, [I8AsU8(xs[0])], I8sAsU8(xs[1..]));
    }
  }
}
