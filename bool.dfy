/**
 * `src/serde/bool.rs`: `deserialize_bool` and `deserialize_option_bool`, the
 * field helpers that read a `bool` through `deserialize_any` with
 * `BoolVisitor`, which accepts an `i8` (true only for 1) or a `bool`.
 */
module BoolSerde {
  import opened Numeric
  import opened Errors
  import opened ByteBuf
  import opened NbtUtils
  import opened Tag
  import opened Codec
  import opened TagIo
  import opened NbtTypes
  import opened De

  /** What `BoolVisitor::expecting` writes. */
  const EXPECTING: string := "bool or i8"

  /** serde's `invalid_type` error for a visitor call the visitor does not implement. */
  function InvalidType(expected: string): (e: Error)
    ensures e.SerdeError?
  {
    SerdeError("invalid type, expected " + expected)
  }

  /** `BoolVisitor`: `visit_i8(v)` is `v == 1`, `visit_bool(b)` is `b`, and any other call is refused. */
  function BoolOfVisit(v: Visit): (r: Result<bool>)
    ensures r.Ok? <==> v.VisitBool? || v.VisitI8?
    ensures !r.Ok? ==> r == Err(InvalidType(EXPECTING))
    ensures r == Ok(true) <==> v == VisitBool(true) || v == VisitI8(1)
  {
    match v
    case VisitI8(x) => Ok(x == 1)
    case VisitBool(b) => Ok(b)
    case _ => Err(InvalidType(EXPECTING))
  }

  /**
   * `deserialize_bool(deserializer)`: `deserialize_any(BoolVisitor)`. A key
   * is read as an identifier and refused; a list's header is read and the
   * sequence refused; a compound is refused before anything is read; any
   * other tag is decoded and handed to the visitor, and a rejected call
   * returns before the remembered tag is cleared.
   */
  function AnyBoolF(m: DeMachine): (r: DeStep<bool>)
    ensures r.result.Ok? ==> !m.isKey && m.tag == Some(BYTE_ID)
    ensures !r.result.Panic? ==> |r.after.input| <= |m.input|
  {
    if m.isKey then
      var s := IdentifierF(m);
      if s.result.Ok? then DeStep(Err(InvalidType(EXPECTING)), s.after)
      else DeStep(s.result.PropagateFailure(), s.after)
    else if m.tag.None? then DeStep(Panic, m)
    else if m.tag.value == LIST_ID then
      match TakeU8(m.input)
      case Done(_, afterElem) =>
        (match TakeU32(afterElem)
         case Done(_, afterCount) => DeStep(Err(InvalidType(EXPECTING)), m.(input := afterCount))
         case _ => DeStep(Panic, m))
      case _ => DeStep(Panic, m)
    else if m.tag.value == COMPOUND_ID then DeStep(Err(InvalidType(EXPECTING)), m)
    else
      PayloadConsumes(m.input, m.tag.value);
      match ParsePayload(m.input, m.tag.value)
      case Done(t, rest) =>
        if t.End? then DeStep(Panic, m)
        else
          (match BoolOfVisit(VisitOfTag(t))
           case Ok(b) => DeStep(Ok(b), DeMachine(rest, None, m.isNamed, m.isKey))
           case Err(e) => DeStep(Err(e), m.(input := rest))
           case Panic => DeStep(Panic, m))
      case Failed(e, rest) => DeStep(Err(e), m.(input := rest))
      case Panicked => DeStep(Panic, m)
  }

  /** `deserialize_option_bool(deserializer)`: the same read, a success wrapped in `Some`. */
  function OptionBoolF(m: DeMachine): (r: DeStep<Option<bool>>)
    ensures r.after == AnyBoolF(m).after
    ensures r.result.Ok? <==> AnyBoolF(m).result.Ok?
    ensures r.result.Ok? ==> r.result.value == Some(AnyBoolF(m).result.value)
    ensures AnyBoolF(m).result.Err? ==> r.result == Err(AnyBoolF(m).result.error)
  {
    var s := AnyBoolF(m);
    if s.result.Ok? then DeStep(Ok(Some(s.result.value)), s.after) else DeStep(s.result.PropagateFailure(), s.after)
  }

  /** `deserialize_bool(deserializer)` on the deserializer's fields. */
  method DeserializeBool(d: Deserializer) returns (r: Result<bool>)
    modifies d, d.input
    ensures Matches(r, d.Snapshot(), AnyBoolF(old(d.Snapshot())))
  {
    if d.isKey {
      var s := d.DeserializeIdentifier();
      if !s.Ok? {
        return s.PropagateFailure();
      }
      return Err(InvalidType(EXPECTING));
    }
    if d.tag.None? {
      return Panic;
    }
    var id := d.tag.value;
    if id == LIST_ID {
      var listType := d.input.GetU8();
      if !listType.Ok? {
        return Panic;
      }
      var remainingValues := d.input.GetU32();
      if !remainingValues.Ok? {
        return Panic;
      }
      return Err(InvalidType(EXPECTING));
    }
    if id == COMPOUND_ID {
      return Err(InvalidType(EXPECTING));
    }
    PayloadConsumes(d.input.data, id);
    var t := DeserializeRaw(d.input, id);
    if !t.Ok? {
      return t.PropagateFailure();
    }
    if t.value.End? {
      return Panic;
    }
    r := BoolOfVisit(VisitOfTag(t.value));
    if !r.Ok? {
      return;
    }
    d.tag := None;
  }

  /** `deserialize_option_bool(deserializer)`. */
  method DeserializeOptionBool(d: Deserializer) returns (r: Result<Option<bool>>)
    modifies d, d.input
    ensures Matches(r, d.Snapshot(), OptionBoolF(old(d.Snapshot())))
  {
    var b := DeserializeBool(d);
    if !b.Ok? {
      return b.PropagateFailure();
    }
    r := Ok(Some(b.value));
  }

  // ---------------------------------------------------------------------------
  // Properties

  /**
   * A `Byte` tag read with `BoolVisitor` is true only for 1, while a plain
   * `bool` field and `extract_bool` take any nonzero byte as true. Both read
   * exactly the byte.
   */
  lemma ByteAsBool(x: i8, rest: seq<u8>, named: bool)
    ensures AnyBoolF(DeMachine(I8Bytes(x) + rest, Some(BYTE_ID), named, false))
         == DeStep(Ok(x == 1), DeMachine(rest, None, named, false))
    ensures DeserializeBoolF(DeMachine(I8Bytes(x) + rest, Some(BYTE_ID), named, false))
         == DeStep(Ok(x != 0), DeMachine(rest, Some(BYTE_ID), named, false))
    ensures Byte(x).ExtractBool() == Some(x != 0)
  {
    ByteDecodes(x, rest);
    I8ByteValue(x);
  }

  /** The two rules disagree on the byte 2. */
  lemma TwoIsNotTrue(rest: seq<u8>, named: bool)
    ensures AnyBoolF(DeMachine([2] + rest, Some(BYTE_ID), named, false)).result == Ok(false)
    ensures DeserializeBoolF(DeMachine([2] + rest, Some(BYTE_ID), named, false)).result == Ok(true)
  {
    Pow256Widths();
    assert I8Bytes(2) == [2];
    ByteAsBool(2, rest, named);
  }

  /** A `Byte(0)` field read through `deserialize_option_bool` is `Some(false)`. */
  lemma ZeroIsSomeFalse(rest: seq<u8>, named: bool)
    ensures OptionBoolF(DeMachine(I8Bytes(0) + rest, Some(BYTE_ID), named, false))
         == DeStep(Ok(Some(false)), DeMachine(rest, None, named, false))
  {
    ByteAsBool(0, rest, named);
  }

  /** Any tag other than `Byte` and `End` fails with the visitor's error; a compound reads nothing. */
  lemma OtherTagRefused(m: DeMachine)
    requires !m.isKey && m.tag.Some? && m.tag.value != BYTE_ID && m.tag.value != END_ID
    ensures !AnyBoolF(m).result.Ok?
    ensures m.tag.value == COMPOUND_ID ==> AnyBoolF(m) == DeStep(Err(InvalidType(EXPECTING)), m)
  {
  }

  lemma ByteDecodes(x: i8, rest: seq<u8>)
    ensures ParsePayload(I8Bytes(x) + rest, BYTE_ID) == Done(Byte(x), rest)
  {
    TakeI8OfPut(x, rest);
    assert ParsePayload(I8Bytes(x) + rest, BYTE_ID) == ParseScalar(I8Bytes(x) + rest, BYTE_ID);
  }

  /** The byte `I8Bytes(x)` is nonzero exactly when x is. */
  lemma I8ByteValue(x: i8)
    ensures I8Bytes(x)[0] != 0 <==> x != 0
  {
    Pow256Widths();
    assert I8Bytes(x) == BeBytes(Unsigned(x, 1), 1);
    assert BeBytes(Unsigned(x, 1), 1) == [Unsigned(x, 1)];
  }
}
