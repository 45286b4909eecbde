/**
 * The serde `Serializer` of `src/serde/ser.rs`: an output buffer and a
 * `State` that remembers what the next value has to be preceded by (the
 * field name of a named tag, the element id and count of a list, nothing
 * inside a list). serde drives it by callbacks; here the value a `Serialize`
 * impl walks is a `Value` of serde's data model, and `Serialize` on the
 * class plays the part of `value.serialize(self)`.
 *
 * Each callback is specified by a function on a `Machine` snapshot
 * (output and state) returning a `Step` (the callback's result and the
 * snapshot after it); `Emit` composes them along a value. The class methods
 * follow the source's statements and are proved to agree with those
 * functions.
 *
 * Two callbacks are modelled in a corrected form: `serialize_struct` in the
 * `ListElement` state, which the source leaves `unimplemented!()`, and
 * `serialize_key`, which the source lets write a list count a second time.
 * The source's forms are `StructBeginAsWritten` and `KeyBeginAsWritten`.
 */
module Ser {
  import opened Numeric
  import opened Errors
  import opened JavaCesu8
  import opened NbtUtils

  /** `State`: what the serializer has to do before the next value. */
  datatype State =
    | Root(rootName: Option<JavaString>)
    | Named(name: JavaString)
    | MapKey
    | FirstListElement(len: i32)
    | ListElement
    | Array(arrayName: JavaString, arrayType: string)

  /** The callbacks that refuse their value outright, each with the type name it reports. */
  datatype Unsupported =
    | U8 | U16 | U32 | U64 | Char | Bytes | UnitStruct | NewtypeStruct
    | Tuple | TupleStruct | TupleVariant | StructVariant

  function Kind(u: Unsupported): (k: string)
    ensures |k| > 0
  {
    match u
    case U8 => "u8"
    case U16 => "u16"
    case U32 => "u32"
    case U64 => "u64"
    case Char => "char"
    case Bytes => "bytes"
    case UnitStruct => "unit struct"
    case NewtypeStruct => "newtype struct"
    case Tuple => "tuple"
    case TupleStruct => "tuple struct"
    case TupleVariant => "tuple variant"
    case StructVariant => "struct variant"
  }

  /** A value of serde's data model, as a `Serialize` impl presents it to the serializer. */
  datatype Value =
    | VBool(b: bool)
    | VI8(i8Value: i8)
    | VI16(i16Value: i16)
    | VI32(i32Value: i32)
    | VI64(i64Value: i64)
    | VF32(f32Bits: f32)
    | VF64(f64Bits: f64)
    | VStr(s: JavaString)
    | VUnsupported(which: Unsupported)
    | VNone
    | VSome(inner: Value)
    | VUnit
    | VUnitVariant(variant: JavaString)
    | VNewtypeVariant(enumName: string, variantName: string, content: Value)
    | VSeq(len: Option<nat>, elements: seq<Value>)
    | VMap(entries: seq<MapEntry>)
    | VStruct(fields: seq<Field>)

  datatype MapEntry = MapEntry(key: Value, value: Value)
  datatype Field = Field(key: JavaString, value: Value)

  /** The serializer's fields at one moment. */
  datatype Machine = Machine(output: seq<u8>, state: State)

  /** What a callback returns, and the fields it leaves behind. */
  datatype Step = Step(result: Result<()>, after: Machine)

  const INVALID_STATE: string := "Invalid Serializer state!"
  const NEWTYPE_ONLY_ARRAY: string := "new_type variant supports only nbt_array"
  const SEQ_LEN_UNKNOWN: string := "Length of the sequence must be known first!"
  const ARRAY_TYPES: string := "Array supports only byte, int, long"
  const NBT_ARRAY: string := "nbt_array"

  /** The decimal digits of n, as `format!` writes an integer. */
  function Decimal(n: nat): (s: string)
    ensures |s| > 0
    ensures forall i :: 0 <= i < |s| ==> '0' <= s[i] <= '9'
  {
    var digit := ['0' + (n % 10) as char];
    if n < 10 then digit else Decimal(n / 10) + digit
  }

  function MapKeyMessage(tag: u8): string {
    "Map key can only be string, not " + Decimal(tag)
  }

  lemma AppendAssoc(o: seq<u8>, a: seq<u8>, b: seq<u8>)
    ensures o + a + b == o + (a + b)
  {
  }

  function Ok0(): Result<()> {
    Ok(())
  }

  // ---------------------------------------------------------------------------
  // The callbacks

  /**
   * What `parse_state(tag)` writes before a value of the given tag id: the
   * id and the framed name in a named state, the id and the list's count
   * for the first list element, nothing for a later list element or a map
   * key.
   */
  function Prefix(st: State, tag: u8): (r: seq<u8>)
    ensures r == [] <==> !(st.Named? || st.Array? || st.FirstListElement?)
    ensures r != [] ==> r[0] == tag
  {
    match st
    case Named(name) => [tag] + StringPayload(name)
    case Array(name, _) => [tag] + StringPayload(name)
    case FirstListElement(len) => [tag] + I32Bytes(len)
    case _ => []
  }

  /**
   * `parse_state(tag)`: a value at the root is an error, and so is a map
   * key that is not a string; otherwise the state's prefix is written and
   * the state kept.
   */
  function ParseStateF(m: Machine, tag: u8): (r: Step)
    ensures r.after.state == m.state
    ensures r.result.Ok? <==> !m.state.Root? && (m.state.MapKey? ==> tag == STRING_ID)
    ensures !r.result.Ok? ==> r.result.Err? && r.result.error.SerdeError? && r.after == m
    ensures m.output <= r.after.output
  {
    if m.state.Root? then Step(Err(SerdeError(INVALID_STATE)), m)
    else if m.state.MapKey? && tag != STRING_ID then Step(Err(SerdeError(MapKeyMessage(tag))), m)
    else Step(Ok0(), Machine(m.output + Prefix(m.state, tag), m.state))
  }

  /** `serialize_i8` and its kin: the state's prefix for the tag id, then the payload. */
  function ScalarStep(m: Machine, tag: u8, payload: seq<u8>): (r: Step)
    ensures r.result.Ok? <==> ParseStateF(m, tag).result.Ok?
    ensures r.result.Ok? ==> r.after == Machine(ParseStateF(m, tag).after.output + payload, m.state)
    ensures !r.result.Ok? ==> r == ParseStateF(m, tag)
  {
    var p := ParseStateF(m, tag);
    if !p.result.Ok? then p else Step(Ok0(), Machine(p.after.output + payload, p.after.state))
  }

  /**
   * `serialize_str(v)`: as a map key the string writes nothing and becomes
   * the name of the value that follows; otherwise it is a `String` tag.
   */
  function StrStep(m: Machine, s: JavaString): (r: Step)
    ensures m.state.MapKey? ==> r == Step(Ok0(), Machine(m.output, Named(s)))
    ensures !m.state.MapKey? ==> r == ScalarStep(m, STRING_ID, StringPayload(s))
  {
    var p := ParseStateF(m, STRING_ID);
    if !p.result.Ok? then p
    else if p.after.state == MapKey then Step(Ok0(), Machine(p.after.output, Named(s)))
    else Step(Ok0(), Machine(p.after.output + StringPayload(s), p.after.state))
  }

  /** The array tag id for the `nbt_array` variant names. */
  function ArrayId(arrayType: string): (r: Option<u8>)
    ensures r.Some? <==> arrayType == "byte" || arrayType == "int" || arrayType == "long"
    ensures r.Some? ==> r.value == BYTE_ARRAY_ID || r.value == INT_ARRAY_ID || r.value == LONG_ARRAY_ID
  {
    if arrayType == "byte" then Some(BYTE_ARRAY_ID)
    else if arrayType == "int" then Some(INT_ARRAY_ID)
    else if arrayType == "long" then Some(LONG_ARRAY_ID)
    else None
  }

  /**
   * `serialize_seq(len)`. The length must be known. Under an `nbt_array`
   * variant the sequence is a typed array: its id and name, then the count,
   * and the elements follow as bare payloads. Otherwise it is a list: the
   * list id with what the state requires, then the elements, the first of
   * which writes the element id and the count; an empty list writes the
   * `End` element id and a zero count at once.
   */
  function SeqBegin(m: Machine, len: Option<nat>): (r: Step)
    ensures len.None? ==> r == Step(Err(SerdeError(SEQ_LEN_UNKNOWN)), m)
    ensures r.result.Ok? && m.state.Array? ==> r.after.state == ListElement
    ensures r.result.Ok? && !m.state.Array? ==> r.after.state == FirstListElement(LenAsI32(len.value))
    ensures m.output <= r.after.output
  {
    if len.None? then Step(Err(SerdeError(SEQ_LEN_UNKNOWN)), m)
    else
      var n := len.value;
      if m.state.Array? then
        match ArrayId(m.state.arrayType)
        case None => Step(Err(SerdeError(ARRAY_TYPES)), m)
        case Some(id) =>
          var p := ParseStateF(m, id);
          Step(Ok0(), Machine(p.after.output + I32Bytes(LenAsI32(n)), ListElement))
      else
        var p := ParseStateF(m, LIST_ID);
        if !p.result.Ok? then p
        else
          var empty := if n == 0 then [END_ID] + I32Bytes(0) else [];
          Step(Ok0(), Machine(p.after.output + empty, FirstListElement(LenAsI32(n))))
  }

  /**
   * `serialize_struct` (and `serialize_map`, which calls it): the compound
   * id, then the root name if there is one, the field name, or the list
   * count of a first list element. A compound that is a later list element
   * needs neither id nor count: its fields follow at once. A compound in
   * the `MapKey` or `Array` state is `unimplemented!()`.
   */
  function StructBegin(m: Machine): (r: Step)
    ensures r.after.state == m.state
    ensures r.result.Ok? <==> !(m.state.MapKey? || m.state.Array?)
    ensures !r.result.Ok? ==> r.result.Panic?
    ensures m.state.ListElement? ==> r.after == m
    ensures m.output <= r.after.output
  {
    if m.state.MapKey? || m.state.Array? then Step(Panic, Machine(m.output + [COMPOUND_ID], m.state))
    else Step(Ok0(), Machine(m.output + StructPrefix(m.state), m.state))
  }

  /** What `serialize_struct` writes before the fields, by state. */
  function StructPrefix(st: State): seq<u8> {
    match st
    case Root(None) => [COMPOUND_ID]
    case Root(Some(name)) => [COMPOUND_ID] + StringPayload(name)
    case Named(name) => [COMPOUND_ID] + StringPayload(name)
    case FirstListElement(len) => [COMPOUND_ID] + I32Bytes(len)
    case ListElement => []
    case _ => [COMPOUND_ID]
  }

  /** `serialize_struct` as the source has it: the id first, and `unimplemented!()` in `ListElement`. */
  function StructBeginAsWritten(m: Machine): (r: Step)
    ensures r.result.Ok? <==> (m.state.Root? || m.state.Named? || m.state.FirstListElement?)
    ensures !r.result.Ok? ==> r.result.Panic?
    ensures m.output + [COMPOUND_ID] <= r.after.output
  {
    if m.state.ListElement? || m.state.MapKey? || m.state.Array? then
      Step(Panic, Machine(m.output + [COMPOUND_ID], m.state))
    else Step(Ok0(), Machine(m.output + StructPrefix(m.state), m.state))
  }

  /** `SerializeStruct::end` and `SerializeMap::end`: the `END` byte. */
  function StructEnd(m: Machine): (r: Step)
    ensures r.result.Ok? && r.after.state == m.state
    ensures |r.after.output| == |m.output| + 1 && r.after.output[|m.output|] == END_ID
    ensures m.output <= r.after.output
  {
    Step(Ok0(), Machine(m.output + [END_ID], m.state))
  }

  /** `serialize_key` before the key is written: the key must be a string. */
  function KeyBegin(m: Machine): (r: Machine)
    ensures r == Machine(m.output, MapKey)
  {
    Machine(m.output, MapKey)
  }

  /** `serialize_key` as the source has it: in `FirstListElement` it writes the list count again. */
  function KeyBeginAsWritten(m: Machine): (r: Machine)
    ensures r.state == MapKey
    ensures m.state.FirstListElement? ==> r.output == m.output + I32Bytes(m.state.len)
    ensures !m.state.FirstListElement? ==> r == KeyBegin(m)
  {
    match m.state
    case FirstListElement(len) => Machine(m.output + I32Bytes(len), MapKey)
    case _ => Machine(m.output, MapKey)
  }

  /**
   * `value.serialize(self)` for a value of the data model: each variant
   * goes through its callback, and the compound ones walk their parts.
   */
  function Emit(m: Machine, v: Value): (r: Step)
    ensures m.output <= r.after.output
    decreases v, 0
  {
    match v
    case VBool(b) => ScalarStep(m, BYTE_ID, I8Bytes(if b then 1 else 0))
    case VI8(x) => ScalarStep(m, BYTE_ID, I8Bytes(x))
    case VI16(x) => ScalarStep(m, SHORT_ID, I16Bytes(x))
    case VI32(x) => ScalarStep(m, INT_ID, I32Bytes(x))
    case VI64(x) => ScalarStep(m, LONG_ID, I64Bytes(x))
    case VF32(x) => ScalarStep(m, FLOAT_ID, U32Bytes(x))
    case VF64(x) => ScalarStep(m, DOUBLE_ID, U64Bytes(x))
    case VStr(s) => StrStep(m, s)
    case VUnsupported(u) => Step(Err(UnsupportedType(Kind(u))), m)
    case VNone => Step(Ok0(), m)
    case VSome(inner) => Emit(m, inner)
    case VUnit => Step(Ok0(), m)
    case VUnitVariant(variant) => StrStep(m, variant)
    case VNewtypeVariant(enumName, variantName, content) =>
      if enumName != NBT_ARRAY then Step(Err(SerdeError(NEWTYPE_ONLY_ARRAY)), m)
      else if !m.state.Named? then Step(Err(SerdeError(INVALID_STATE)), m)
      else Emit(Machine(m.output, Array(m.state.name, variantName)), content)
    case VSeq(len, elements) =>
      var begin := SeqBegin(m, len);
      if !begin.result.Ok? then begin else EmitElements(begin.after, elements)
    case VMap(entries) =>
      var begin := StructBegin(m);
      if !begin.result.Ok? then begin
      else
        var body := EmitEntries(begin.after, entries);
        if !body.result.Ok? then body else StructEnd(body.after)
    case VStruct(fields) =>
      var begin := StructBegin(m);
      if !begin.result.Ok? then begin
      else
        var body := EmitFields(begin.after, fields);
        if !body.result.Ok? then body else StructEnd(body.after)
  }

  /** `SerializeSeq::serialize_element`: the element, then the `ListElement` state. */
  function ElementStep(m: Machine, value: Value): (r: Step)
    ensures m.output <= r.after.output
    ensures r.result.Ok? ==> r.after.state == ListElement
    decreases value, 1
  {
    var s := Emit(m, value);
    if !s.result.Ok? then s else Step(Ok0(), Machine(s.after.output, ListElement))
  }

  function EmitElements(m: Machine, elements: seq<Value>): (r: Step)
    ensures m.output <= r.after.output
    decreases elements, 2
  {
    if elements == [] then Step(Ok0(), m)
    else
      var s := ElementStep(m, elements[0]);
      if !s.result.Ok? then s else EmitElements(s.after, elements[1..])
  }

  /** `SerializeStruct::serialize_field`: the key becomes the name of the value. */
  function FieldStep(m: Machine, f: Field): (r: Step)
    ensures m.output <= r.after.output
    decreases f, 1
  {
    Emit(Machine(m.output, Named(f.key)), f.value)
  }

  function EmitFields(m: Machine, fields: seq<Field>): (r: Step)
    ensures m.output <= r.after.output
    decreases fields, 2
  {
    if fields == [] then Step(Ok0(), m)
    else
      var s := FieldStep(m, fields[0]);
      if !s.result.Ok? then s else EmitFields(s.after, fields[1..])
  }

  /** `serialize_entry`: `serialize_key`, then `serialize_value`. */
  function EntryStep(m: Machine, e: MapEntry): (r: Step)
    ensures m.output <= r.after.output
    decreases e, 1
  {
    var k := Emit(KeyBegin(m), e.key);
    if !k.result.Ok? then k else Emit(k.after, e.value)
  }

  function EmitEntries(m: Machine, entries: seq<MapEntry>): (r: Step)
    ensures m.output <= r.after.output
    decreases entries, 2
  {
    if entries == [] then Step(Ok0(), m)
    else
      var s := EntryStep(m, entries[0]);
      if !s.result.Ok? then s else EmitEntries(s.after, entries[1..])
  }

  /** `to_bytes(value, name)` and `to_bytes_unnamed(value)`: the output, or the first failure. */
  function ToBytesF(v: Value, rootName: Option<JavaString>): (r: Result<seq<u8>>)
    ensures r.Ok? <==> Emit(Machine([], Root(rootName)), v).result.Ok?
    ensures r.Ok? ==> r.value == Emit(Machine([], Root(rootName)), v).after.output
  {
    var s := Emit(Machine([], Root(rootName)), v);
    if s.result.Ok? then Ok(s.after.output) else s.result.PropagateFailure()
  }

  // ---------------------------------------------------------------------------
  // The serializer

  class Serializer {
    var output: seq<u8>
    var state: State

    function Snapshot(): Machine
      reads this
    {
      Machine(output, state)
    }

    constructor (initial: State)
      ensures Snapshot() == Machine([], initial)
    {
      output := [];
      state := initial;
    }

    method ParseState(tag: u8) returns (r: Result<()>)
      modifies this
      ensures Step(r, Snapshot()) == ParseStateF(old(Snapshot()), tag)
    {
      ghost var o := output;
      match state {
      case Named(name) =>
        output := output + [tag];
        output := output + StringPayload(name);
        AppendAssoc(o, [tag], StringPayload(name));
      case Array(name, _) =>
        output := output + [tag];
        output := output + StringPayload(name);
        AppendAssoc(o, [tag], StringPayload(name));
      case FirstListElement(len) =>
        output := output + [tag];
        output := output + I32Bytes(len);
        AppendAssoc(o, [tag], I32Bytes(len));
      case MapKey =>
        if tag != STRING_ID {
          return Err(SerdeError(MapKeyMessage(tag)));
        }
      case ListElement =>
      case Root(_) =>
        return Err(SerdeError(INVALID_STATE));
      }
      r := Ok(());
    }

    /** `serialize_i8` ... `serialize_f64` share this shape: `parse_state`, then `put_*`. */
    method SerializeScalar(tag: u8, payload: seq<u8>) returns (r: Result<()>)
      modifies this
      ensures Step(r, Snapshot()) == ScalarStep(old(Snapshot()), tag, payload)
    {
      r := ParseState(tag);
      if !r.Ok? {
        return;
      }
      output := output + payload;
    }

    /** `serialize_bool(v)` is `serialize_i8(v as i8)`. */
    method SerializeBool(v: bool) returns (r: Result<()>)
      modifies this
      ensures Step(r, Snapshot()) == ScalarStep(old(Snapshot()), BYTE_ID, I8Bytes(if v then 1 else 0))
    {
      r := SerializeScalar(BYTE_ID, I8Bytes(if v then 1 else 0));
    }

    method SerializeStr(s: JavaString) returns (r: Result<()>)
      modifies this
      ensures Step(r, Snapshot()) == StrStep(old(Snapshot()), s)
    {
      r := ParseState(STRING_ID);
      if !r.Ok? {
        return;
      }
      if state == MapKey {
        state := Named(s);
        return Ok(());
      }
      output := output + StringPayload(s);
    }

    method SerializeNewtypeVariant(enumName: string, variantName: string, content: Value) returns (r: Result<()>)
      modifies this
      ensures Step(r, Snapshot()) == Emit(old(Snapshot()), VNewtypeVariant(enumName, variantName, content))
      decreases content, 3
    {
      if enumName != NBT_ARRAY {
        return Err(SerdeError(NEWTYPE_ONLY_ARRAY));
      }
      if !state.Named? {
        return Err(SerdeError(INVALID_STATE));
      }
      state := Array(state.name, variantName);
      r := Serialize(content);
    }

    method SerializeSeq(len: Option<nat>) returns (r: Result<()>)
      modifies this
      ensures Step(r, Snapshot()) == SeqBegin(old(Snapshot()), len)
    {
      if len.None? {
        return Err(SerdeError(SEQ_LEN_UNKNOWN));
      }
      if state.Array? {
        var id := ArrayId(state.arrayType);
        if id.None? {
          return Err(SerdeError(ARRAY_TYPES));
        }
        r := ParseState(id.value);
        output := output + I32Bytes(LenAsI32(len.value));
        state := ListElement;
      } else {
        r := ParseState(LIST_ID);
        if !r.Ok? {
          return;
        }
        ghost var o := output;
        if len.value == 0 {
          output := output + [END_ID];
          output := output + I32Bytes(0);
          AppendAssoc(o, [END_ID], I32Bytes(0));
        }
        state := FirstListElement(LenAsI32(len.value));
      }
    }

    method SerializeElement(value: Value) returns (r: Result<()>)
      modifies this
      ensures Step(r, Snapshot()) == ElementStep(old(Snapshot()), value)
      decreases value, 3
    {
      r := Serialize(value);
      if !r.Ok? {
        return;
      }
      state := ListElement;
      r := Ok(());
    }

    method SerializeStruct() returns (r: Result<()>)
      modifies this
      ensures Step(r, Snapshot()) == StructBegin(old(Snapshot()))
    {
      ghost var o := output;
      match state {
      case Root(rootName) =>
        output := output + [COMPOUND_ID];
        if rootName.Some? {
          output := output + StringPayload(rootName.value);
          AppendAssoc(o, [COMPOUND_ID], StringPayload(rootName.value));
        }
      case Named(name) =>
        output := output + [COMPOUND_ID];
        output := output + StringPayload(name);
        AppendAssoc(o, [COMPOUND_ID], StringPayload(name));
      case FirstListElement(len) =>
        output := output + [COMPOUND_ID];
        output := output + I32Bytes(len);
        AppendAssoc(o, [COMPOUND_ID], I32Bytes(len));
      case ListElement =>
      case MapKey =>
        output := output + [COMPOUND_ID];
        return Panic;
      case Array(_, _) =>
        output := output + [COMPOUND_ID];
        return Panic;
      }
      r := Ok(());
    }

    method SerializeField(f: Field) returns (r: Result<()>)
      modifies this
      ensures Step(r, Snapshot()) == FieldStep(old(Snapshot()), f)
      decreases f, 3
    {
      state := Named(f.key);
      r := Serialize(f.value);
    }

    /** `SerializeStruct::end`, and `SerializeMap::end`, which is the same. */
    method StructEndM() returns (r: Result<()>)
      modifies this
      ensures Step(r, Snapshot()) == StructEnd(old(Snapshot()))
    {
      output := output + [END_ID];
      r := Ok(());
    }

    method SerializeKey(key: Value) returns (r: Result<()>)
      modifies this
      ensures Step(r, Snapshot()) == Emit(KeyBegin(old(Snapshot())), key)
      decreases key, 3
    {
      state := MapKey;
      r := Serialize(key);
    }

    method SerializeEntry(e: MapEntry) returns (r: Result<()>)
      modifies this
      ensures Step(r, Snapshot()) == EntryStep(old(Snapshot()), e)
      decreases e, 4
    {
      r := SerializeKey(e.key);
      if !r.Ok? {
        return;
      }
      r := Serialize(e.value);
    }

    /** `value.serialize(self)`: the `Serialize` impl of the value calling back into the serializer. */
    method Serialize(v: Value) returns (r: Result<()>)
      modifies this
      ensures Step(r, Snapshot()) == Emit(old(Snapshot()), v)
      decreases v, 2
    {
      match v
      case VBool(b) => r := SerializeBool(b);
      case VI8(x) => r := SerializeScalar(BYTE_ID, I8Bytes(x));
      case VI16(x) => r := SerializeScalar(SHORT_ID, I16Bytes(x));
      case VI32(x) => r := SerializeScalar(INT_ID, I32Bytes(x));
      case VI64(x) => r := SerializeScalar(LONG_ID, I64Bytes(x));
      case VF32(x) => r := SerializeScalar(FLOAT_ID, U32Bytes(x));
      case VF64(x) => r := SerializeScalar(DOUBLE_ID, U64Bytes(x));
      case VStr(s) => r := SerializeStr(s);
      case VUnsupported(u) => r := Err(UnsupportedType(Kind(u)));
      case VNone => r := Ok(());
      case VSome(inner) => r := Serialize(inner);
      case VUnit => r := Ok(());
      case VUnitVariant(variant) => r := SerializeStr(variant);
      case VNewtypeVariant(enumName, variantName, content) =>
        r := SerializeNewtypeVariant(enumName, variantName, content);
      case VSeq(len, elements) => r := SerializeSeqOf(len, elements);
      case VMap(entries) => r := SerializeMapOf(entries);
      case VStruct(fields) => r := SerializeStructOf(fields);
    }

    /** A sequence's `Serialize`: `serialize_seq`, one `serialize_element` per element, `end`. */
    method SerializeSeqOf(len: Option<nat>, elements: seq<Value>) returns (r: Result<()>)
      modifies this
      ensures Step(r, Snapshot()) == Emit(old(Snapshot()), VSeq(len, elements))
      decreases elements, 1
    {
      r := SerializeSeq(len);
      if !r.Ok? {
        return;
      }
      var i := 0;
      while i < |elements|
        invariant 0 <= i <= |elements|
        invariant r == Ok(())
        invariant EmitElements(Snapshot(), elements[i..]) == Emit(old(Snapshot()), VSeq(len, elements))
      {
        assert elements[i..][0] == elements[i] && elements[i..][1..] == elements[i + 1..];
        r := SerializeElement(elements[i]);
        if !r.Ok? {
          return;
        }
        i := i + 1;
      }
    }

    /** A map's `Serialize`: `serialize_map`, one `serialize_entry` per entry, `end`. */
    method SerializeMapOf(entries: seq<MapEntry>) returns (r: Result<()>)
      modifies this
      ensures Step(r, Snapshot()) == Emit(old(Snapshot()), VMap(entries))
      decreases entries, 1
    {
      r := SerializeStruct();
      if !r.Ok? {
        return;
      }
      var i := 0;
      while i < |entries|
        invariant 0 <= i <= |entries|
        invariant r.Ok?
        invariant var body := EmitEntries(Snapshot(), entries[i..]);
          Emit(old(Snapshot()), VMap(entries)) == if body.result.Ok? then StructEnd(body.after) else body
      {
        assert entries[i..][0] == entries[i] && entries[i..][1..] == entries[i + 1..];
        r := SerializeEntry(entries[i]);
        if !r.Ok? {
          return;
        }
        i := i + 1;
      }
      r := StructEndM();
    }

    /** A struct's derived `Serialize`: `serialize_struct`, one `serialize_field` per field, `end`. */
    method SerializeStructOf(fields: seq<Field>) returns (r: Result<()>)
      modifies this
      ensures Step(r, Snapshot()) == Emit(old(Snapshot()), VStruct(fields))
      decreases fields, 1
    {
      r := SerializeStruct();
      if !r.Ok? {
        return;
      }
      var i := 0;
      while i < |fields|
        invariant 0 <= i <= |fields|
        invariant r.Ok?
        invariant var body := EmitFields(Snapshot(), fields[i..]);
          Emit(old(Snapshot()), VStruct(fields)) == if body.result.Ok? then StructEnd(body.after) else body
      {
        assert fields[i..][0] == fields[i] && fields[i..][1..] == fields[i + 1..];
        r := SerializeField(fields[i]);
        if !r.Ok? {
          return;
        }
        i := i + 1;
      }
      r := StructEndM();
    }
  }

  /** `to_bytes(value, name)`: a serializer in `Root(Some(name))`, its output on success. */
  method ToBytes(v: Value, name: JavaString) returns (r: Result<seq<u8>>)
    ensures r == ToBytesF(v, Some(name))
  {
    var serializer := new Serializer(Root(Some(name)));
    var done := serializer.Serialize(v);
    if !done.Ok? {
      return done.PropagateFailure();
    }
    r := Ok(serializer.output);
  }

  /** `to_bytes_unnamed(value)`: the same from `Root(None)`. */
  method ToBytesUnnamed(v: Value) returns (r: Result<seq<u8>>)
    ensures r == ToBytesF(v, None)
  {
    var serializer := new Serializer(Root(None));
    var done := serializer.Serialize(v);
    if !done.Ok? {
      return done.PropagateFailure();
    }
    r := Ok(serializer.output);
  }
}
