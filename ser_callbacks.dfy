/**
 * Single callbacks of the serde serializer of `src/serde/ser.rs`: what each
 * refuses, what it writes, and the two places where the source writes
 * something other than NBT (`serialize_struct` for a later list element and
 * `serialize_key` after a first-list-element state).
 */
module SerCallbacks {
  import opened Numeric
  import opened Errors
  import opened JavaCesu8
  import opened NbtUtils
  import opened Ser

  /** A value whose callback starts with `parse_state`: a scalar, a string, a unit variant, a sequence of known length. */
  predicate ParsedValue(v: Value) {
    v.VBool? || v.VI8? || v.VI16? || v.VI32? || v.VI64? || v.VF32? || v.VF64?
    || v.VStr? || v.VUnitVariant? || (v.VSeq? && v.len.Some?)
  }

  /** The tag id such a value hands to `parse_state`. */
  function ParsedTag(v: Value): (id: u8)
    requires ParsedValue(v)
    ensures id in TAG_IDS && id != END_ID && id != COMPOUND_ID
  {
    match v
    case VBool(_) => BYTE_ID
    case VI8(_) => BYTE_ID
    case VI16(_) => SHORT_ID
    case VI32(_) => INT_ID
    case VI64(_) => LONG_ID
    case VF32(_) => FLOAT_ID
    case VF64(_) => DOUBLE_ID
    case VSeq(_, _) => LIST_ID
    case _ => STRING_ID
  }

  // ---------------------------------------------------------------------------
  // The root

  /** At the root only a struct or a map is written: anything else that reaches `parse_state` is an invalid state. */
  lemma RootRefusesValue(v: Value, rootName: Option<JavaString>)
    requires ParsedValue(v)
    ensures ToBytesF(v, rootName) == Err(SerdeError(INVALID_STATE))
  {
  }

  /** `None` and `()` at the root write nothing at all and succeed. */
  lemma RootWritesNothing(v: Value, rootName: Option<JavaString>)
    requires v.VNone? || v.VUnit?
    ensures ToBytesF(v, rootName) == Ok([])
  {
  }

  /** A struct at the root opens with the compound id and, in the named framing, the root name. */
  lemma RootStructHeader(fields: seq<Field>, rootName: Option<JavaString>)
    ensures StructBegin(Machine([], Root(rootName)))
         == Step(Ok(()), Machine([COMPOUND_ID] + (if rootName.Some? then StringPayload(rootName.value) else []), Root(rootName)))
  {
  }

  // ---------------------------------------------------------------------------
  // Scalars, sequences and keys

  /** `serialize_bool` writes the byte `serialize_i8` writes for 1 or 0. */
  lemma BoolIsByte(m: Machine, b: bool)
    ensures Emit(m, VBool(b)) == Emit(m, VI8(if b then 1 else 0))
  {
  }

  /** A named value that reaches `parse_state` is prefixed by its id and the framed name, and keeps the state. */
  lemma NamedPrefix(o: seq<u8>, name: JavaString, tag: u8)
    ensures ParseStateF(Machine(o, Named(name)), tag) == Step(Ok(()), Machine(o + [tag] + StringPayload(name), Named(name)))
  {
    AppendAssoc(o, [tag], StringPayload(name));
  }

  /**
   * An empty named sequence writes the list id, the name, the `End` element
   * id and a zero count, and leaves the state `FirstListElement(0)`.
   */
  lemma EmptySeqNamed(o: seq<u8>, name: JavaString)
    ensures Emit(Machine(o, Named(name)), VSeq(Some(0), []))
         == Step(Ok(()), Machine(o + [LIST_ID] + StringPayload(name) + [END_ID] + I32Bytes(0), FirstListElement(0)))
  {
    NamedPrefix(o, name, LIST_ID);
    AppendAssoc(o + [LIST_ID] + StringPayload(name), [END_ID], I32Bytes(0));
  }

  /** `serialize_seq(None)` is refused before anything is written. */
  lemma SeqLengthRequired(m: Machine, elements: seq<Value>)
    ensures Emit(m, VSeq(None, elements)) == Step(Err(SerdeError(SEQ_LEN_UNKNOWN)), m)
  {
  }

  /** A map key that is a string writes nothing and names the value that follows. */
  lemma StringKeyNames(o: seq<u8>, key: JavaString)
    ensures Emit(Machine(o, MapKey), VStr(key)) == Step(Ok(()), Machine(o, Named(key)))
  {
  }

  /** Any other key that reaches `parse_state` is refused, the message naming its tag id. */
  lemma KeyMustBeString(o: seq<u8>, key: Value)
    requires ParsedValue(key) && !key.VStr? && !key.VUnitVariant?
    ensures Emit(Machine(o, MapKey), key) == Step(Err(SerdeError(MapKeyMessage(ParsedTag(key)))), Machine(o, MapKey))
  {
  }

  /** The message for an `i32` key. */
  lemma IntKeyMessage()
    ensures MapKeyMessage(INT_ID) == "Map key can only be string, not 3"
  {
  }

  /** The refused callbacks fail with the name of their type and write nothing. */
  lemma UnsupportedRefused(m: Machine, u: Unsupported)
    ensures Emit(m, VUnsupported(u)).result == Err(UnsupportedType(Kind(u)))
    ensures Emit(m, VUnsupported(u)).after == m
  {
  }

  /** `serialize_newtype_variant` accepts only the `nbt_array` enum. */
  lemma NewtypeOnlyArray(m: Machine, enumName: string, variantName: string, content: Value)
    requires enumName != NBT_ARRAY
    ensures Emit(m, VNewtypeVariant(enumName, variantName, content)) == Step(Err(SerdeError(NEWTYPE_ONLY_ARRAY)), m)
  {
  }

  /** An `nbt_array` needs a field name to write. */
  lemma ArrayNeedsName(m: Machine, variantName: string, content: Value)
    requires !m.state.Named?
    ensures Emit(m, VNewtypeVariant(NBT_ARRAY, variantName, content)) == Step(Err(SerdeError(INVALID_STATE)), m)
  {
  }

  /** A struct or a map as a map key or as an array's content is `unimplemented!()`. */
  lemma StructNeedsValueState(m: Machine, fields: seq<Field>, entries: seq<MapEntry>)
    requires m.state.MapKey? || m.state.Array?
    ensures Emit(m, VStruct(fields)).result == Panic
    ensures Emit(m, VMap(entries)).result == Panic
  {
  }

  // ---------------------------------------------------------------------------
  // Structs are maps with string keys

  /** The entries a map with the field names as string keys would present. */
  function FieldEntries(fields: seq<Field>): (es: seq<MapEntry>)
    ensures |es| == |fields|
    ensures forall i :: 0 <= i < |fields| ==> es[i] == MapEntry(VStr(fields[i].key), fields[i].value)
  {
    if fields == [] then [] else [MapEntry(VStr(fields[0].key), fields[0].value)] + FieldEntries(fields[1..])
  }

  /** `serialize_field(key, v)` and `serialize_entry(key, v)` with a string key do the same. */
  lemma FieldIsEntry(m: Machine, f: Field)
    ensures FieldStep(m, f) == EntryStep(m, MapEntry(VStr(f.key), f.value))
  {
  }

  lemma {:induction false} FieldsAsEntries(m: Machine, fields: seq<Field>)
    ensures EmitFields(m, fields) == EmitEntries(m, FieldEntries(fields))
    decreases fields
  {
    if fields != [] {
      FieldIsEntry(m, fields[0]);
      var s := FieldStep(m, fields[0]);
      assert FieldEntries(fields)[1..] == FieldEntries(fields[1..]);
      if s.result.Ok? {
        FieldsAsEntries(s.after, fields[1..]);
      }
    }
  }

  /** A struct is written exactly as the map from its field names to its field values. */
  lemma StructAsMap(m: Machine, fields: seq<Field>)
    ensures Emit(m, VStruct(fields)) == Emit(m, VMap(FieldEntries(fields)))
  {
    var begin := StructBegin(m);
    if begin.result.Ok? {
      FieldsAsEntries(begin.after, fields);
    }
  }

  // ---------------------------------------------------------------------------
  // The unit variant fixture

  const ACTION: JavaString := [0x61, 0x63, 0x74, 0x69, 0x6F, 0x6E]
  const OPEN_URL: JavaString := [0x6F, 0x70, 0x65, 0x6E, 0x5F, 0x75, 0x72, 0x6C]
  const VALUE: JavaString := [0x76, 0x61, 0x6C, 0x75, 0x65]
  const TEST: JavaString := [0x74, 0x65, 0x73, 0x74]

  /**
   * `Event::OpenUrl("test")`, adjacently tagged as `action` and `value`: a
   * struct whose `action` field is the unit variant `open_url` and whose
   * `value` field is the string.
   */
  const OPEN_URL_EVENT: Value := VStruct([Field(ACTION, VUnitVariant(OPEN_URL)), Field(VALUE, VStr(TEST))])

  /** `\n \x08 \0\x06 action \0\x08 open_url \x08 \0\x05 value \0\x04 test \0` */
  const OPEN_URL_BYTES: seq<u8> :=
    [COMPOUND_ID, STRING_ID, 0x00, 0x06] + ACTION + [0x00, 0x08] + OPEN_URL
    + [STRING_ID, 0x00, 0x05] + VALUE + [0x00, 0x04] + TEST + [END_ID]

  /** The unit variant is written as a named string, under the unnamed root. */
  lemma OpenUrlEventBytes()
    ensures ToBytesF(OPEN_URL_EVENT, None) == Ok(OPEN_URL_BYTES)
  {
    var f1 := Field(ACTION, VUnitVariant(OPEN_URL));
    var f2 := Field(VALUE, VStr(TEST));
    var m0 := Machine([COMPOUND_ID], Root(None));
    var o1 := [COMPOUND_ID] + [STRING_ID] + StringPayload(ACTION) + StringPayload(OPEN_URL);
    var o2 := o1 + [STRING_ID] + StringPayload(VALUE) + StringPayload(TEST);
    var done := Step(Ok(()), Machine(o2, Named(VALUE)));
    assert FieldStep(m0, f1) == Step(Ok(()), Machine(o1, Named(ACTION))) by {
      NamedPrefix([COMPOUND_ID], ACTION, STRING_ID);
    }
    assert FieldStep(Machine(o1, Named(ACTION)), f2) == done by {
      NamedPrefix(o1, VALUE, STRING_ID);
    }
    assert EmitFields(Machine(o1, Named(ACTION)), [f2]) == done by {
      assert [f2][1..] == [];
    }
    assert EmitFields(m0, [f1, f2]) == done by {
      assert [f1, f2][1..] == [f2];
    }
    RootStructHeader([f1, f2], None);
    StructLayout(Machine([], Root(None)), m0, [f1, f2], Machine(o2, Named(VALUE)));
    OpenUrlLayout();
  }

  /** A struct whose header and fields are written is closed by one `End` byte. */
  lemma StructLayout(m: Machine, m0: Machine, fields: seq<Field>, m1: Machine)
    requires StructBegin(m) == Step(Ok(()), m0)
    requires EmitFields(m0, fields) == Step(Ok(()), m1)
    ensures Emit(m, VStruct(fields)) == Step(Ok(()), Machine(m1.output + [END_ID], m1.state))
  {
  }

  lemma OpenUrlLayout()
    ensures [COMPOUND_ID] + [STRING_ID] + StringPayload(ACTION) + StringPayload(OPEN_URL)
            + [STRING_ID] + StringPayload(VALUE) + StringPayload(TEST) + [END_ID] == OPEN_URL_BYTES
  {
    assert StringPayload(ACTION) == [0x00, 0x06] + ACTION;
    assert StringPayload(OPEN_URL) == [0x00, 0x08] + OPEN_URL;
    assert StringPayload(VALUE) == [0x00, 0x05] + VALUE;
    assert StringPayload(TEST) == [0x00, 0x04] + TEST;
  }

  // ---------------------------------------------------------------------------
  // Where the source's callbacks write something other than NBT

  /**
   * As written, `serialize_struct` for a compound that is a later list
   * element reaches `unimplemented!()`: whatever the first element was, the
   * second compound of a list panics.
   */
  lemma SecondCompoundAsWritten(o: seq<u8>, len: i32, first: Value)
    requires ElementStep(Machine(o, FirstListElement(len)), first).result.Ok?
    ensures StructBeginAsWritten(ElementStep(Machine(o, FirstListElement(len)), first).after).result == Panic
    ensures StructBegin(ElementStep(Machine(o, FirstListElement(len)), first).after)
         == Step(Ok(()), ElementStep(Machine(o, FirstListElement(len)), first).after)
  {
  }

  /**
   * As written, the first key of a map that is the first element of a list
   * writes the list count a second time, after the one `serialize_struct`
   * wrote; the corrected key writes nothing.
   */
  lemma MapInListAsWritten(o: seq<u8>, len: i32)
    ensures KeyBeginAsWritten(StructBeginAsWritten(Machine(o, FirstListElement(len))).after).output
         == o + [COMPOUND_ID] + I32Bytes(len) + I32Bytes(len)
    ensures KeyBegin(StructBegin(Machine(o, FirstListElement(len))).after).output
         == o + [COMPOUND_ID] + I32Bytes(len)
  {
    AppendAssoc(o, [COMPOUND_ID], I32Bytes(len));
  }

  /**
   * As written, a map entry that follows an entry whose value is an empty
   * sequence starts with four zero bytes: the empty sequence leaves the
   * state `FirstListElement(0)`, and the next key writes its count.
   */
  lemma KeyAfterEmptySeqAsWritten(o: seq<u8>, name: JavaString)
    ensures KeyBeginAsWritten(Emit(Machine(o, Named(name)), VSeq(Some(0), [])).after).output
         == Emit(Machine(o, Named(name)), VSeq(Some(0), [])).after.output + [0x00, 0x00, 0x00, 0x00]
    ensures KeyBegin(Emit(Machine(o, Named(name)), VSeq(Some(0), [])).after).output
         == Emit(Machine(o, Named(name)), VSeq(Some(0), [])).after.output
  {
    EmptySeqNamed(o, name);
    assert I32Bytes(0) == [0x00, 0x00, 0x00, 0x00];
  }
}
