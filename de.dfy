/**
 * The serde `Deserializer` of `src/serde/de.rs`, as driven by the visitors of
 * `src/serde/nbt_types.rs`: `NbtTagVisitor` through `deserialize_any` and
 * `NbtCompoundVisitor` through `deserialize_map`.
 *
 * The deserializer reads a `Buf` and keeps three more fields: the tag id of
 * the value to read next (`tag_to_deserialize`), the framing flag
 * (`is_named`), and whether the next value is a map key. Each visitor-driven
 * call is specified by a function on a `DeMachine` snapshot of those fields
 * returning a `DeStep` (the result and the snapshot after); the
 * `Deserializer` class follows the source's statements and is proved to
 * agree with those functions. After a panic the fields are not looked at.
 *
 * `CompoundAccess` and `ListAccess` are folded into the visitors' loops that
 * drive them: `EntriesF` is `NbtCompoundVisitor::visit_map` over
 * `next_key_seed`/`next_value_seed`, and `TagListF` is
 * `NbtTagVisitor::visit_seq` over `next_element_seed`.
 */
module De {
  import opened Numeric
  import opened Errors
  import opened ByteBuf
  import opened JavaCesu8
  import opened NbtUtils
  import opened Tag
  import opened Codec
  import opened TagIo
  import opened NbtTypes

  /** The deserializer's fields at one moment: the unread input, the remembered tag id, `is_named`, the key flag. */
  datatype DeMachine = DeMachine(input: seq<u8>, tag: Option<u8>, isNamed: bool, isKey: bool)

  /** What a call returns, and the fields it leaves behind. */
  datatype DeStep<T> = DeStep(result: Result<T>, after: DeMachine)

  /** A method's result and fields agree with a step; after a panic only the panic counts. */
  predicate Matches<T(==)>(r: Result<T>, now: DeMachine, s: DeStep<T>) {
    r == s.result && (!r.Panic? ==> now == s.after)
  }

  /** `Deserializer::new(input, is_named)`: no remembered tag, and the key flag set. */
  function New(input: seq<u8>, isNamed: bool): (m: DeMachine)
    ensures m.input == input && m.tag.None? && m.isKey
  {
    DeMachine(input, None, isNamed, true)
  }

  /**
   * The visitor call `deserialize_any` makes for a tag `deserialize_data`
   * decoded: one per scalar type, `visit_string`, and `visit_seq` over the
   * elements of an array, a `ByteArray`'s bytes reinterpreted as `i8`.
   */
  function VisitOfTag(t: NbtTag): (v: Visit)
    requires !t.End? && !t.List? && !t.Compound?
    ensures TagOfVisit(v).List? <==> t.ByteArray? || t.IntArray? || t.LongArray?
    ensures !(t.ByteArray? || t.IntArray? || t.LongArray?) ==> TagOfVisit(v) == t
  {
    match t
    case Byte(x) => VisitI8(x)
    case Short(x) => VisitI16(x)
    case Int(x) => VisitI32(x)
    case Long(x) => VisitI64(x)
    case Float(x) => VisitF32(x)
    case Double(x) => VisitF64(x)
    case String(s) => VisitString(s)
    case ByteArray(bs) => VisitI8Seq(seq(|bs|, i requires 0 <= i < |bs| => U8AsI8(bs[i])))
    case IntArray(xs) => VisitI32Seq(xs)
    case LongArray(xs) => VisitI64Seq(xs)
  }

  /**
   * Every successful decode of a tag other than `End`, `List` and
   * `Compound` consumes at least one byte; `End` consumes none.
   */
  lemma PayloadConsumes(input: seq<u8>, id: u8)
    requires id != LIST_ID && id != COMPOUND_ID
    ensures id == END_ID ==> ParsePayload(input, id) == Done(End, input)
    ensures id != END_ID && ParsePayload(input, id).Done? ==> |ParsePayload(input, id).rest| < |input|
  {
    if id <= DOUBLE_ID {
      assert ParsePayload(input, id) == ParseScalar(input, id);
    } else {
      assert ParsePayload(input, id) == ParseFlat(input, id);
    }
  }

  // ---------------------------------------------------------------------------
  // The visitor-driven calls

  /** `deserialize_identifier`: `get_nbt_string` on the input, its error propagated. */
  function IdentifierF(m: DeMachine): (r: DeStep<JavaString>)
    ensures r.result.Ok? ==> |r.after.input| + 2 <= |m.input|
    ensures !r.result.Panic? ==> r.after == m.(input := r.after.input) && |r.after.input| <= |m.input|
    ensures r.result.Ok? <==> NbtString(m.input).Done?
    ensures r.result.Ok? ==> r.result.value == NbtString(m.input).value && r.after.input == NbtString(m.input).rest
  {
    match NbtString(m.input)
    case Done(s, rest) => DeStep(Ok(s), m.(input := rest))
    case Failed(e, rest) => DeStep(Err(e), m.(input := rest))
    case Panicked => DeStep(Panic, m)
  }

  /**
   * `deserialize_any(NbtTagVisitor)`. A key is read as an identifier and
   * becomes a `String` tag. Otherwise the remembered tag is unwrapped: a list
   * reads its element id and an unsigned count and is visited as a
   * sequence, a compound goes to `deserialize_map`, and any other tag is
   * decoded by `deserialize_data` and handed to the visitor, which leaves
   * no tag remembered. A decoded `End` is `unreachable!()`.
   */
  function AnyTagF(m: DeMachine): (r: DeStep<NbtTag>)
    ensures r.result.Ok? ==> |r.after.input| < |m.input|
    ensures !r.result.Panic? ==> |r.after.input| <= |m.input| && r.after.isNamed == m.isNamed
    decreases |m.input|, 2
  {
    if m.isKey then
      var s := IdentifierF(m);
      if s.result.Ok? then DeStep(Ok(String(s.result.value)), s.after)
      else DeStep(s.result.PropagateFailure(), s.after)
    else if m.tag.None? then DeStep(Panic, m)
    else if m.tag.value == LIST_ID then
      match TakeU8(m.input)
      case Done(elem, afterElem) =>
        (match TakeU32(afterElem)
         case Done(count, afterCount) => TagListF(m.(input := afterCount), elem, count, [])
         case _ => DeStep(Panic, m))
      case _ => DeStep(Panic, m)
    else if m.tag.value == COMPOUND_ID then
      var c := DeserializeMapF(m);
      if c.result.Ok? then DeStep(Ok(Compound(c.result.value)), c.after)
      else DeStep(c.result.PropagateFailure(), c.after)
    else
      PayloadConsumes(m.input, m.tag.value);
      match ParsePayload(m.input, m.tag.value)
      case Done(t, rest) =>
        if t.End? then DeStep(Panic, m)
        else DeStep(Ok(TagOfVisit(VisitOfTag(t))), DeMachine(rest, None, m.isNamed, m.isKey))
      case Failed(e, rest) => DeStep(Err(e), m.(input := rest))
      case Panicked => DeStep(Panic, m)
  }

  /**
   * `NbtTagVisitor::visit_seq` over `ListAccess`: `remaining` more
   * elements, each read with the list's element id remembered, appended
   * to `items`; the first failure ends the list.
   */
  function TagListF(m: DeMachine, elem: u8, remaining: nat, items: seq<NbtTag>): (r: DeStep<NbtTag>)
    ensures !r.result.Panic? ==> |r.after.input| <= |m.input| && r.after.isNamed == m.isNamed
    ensures r.result.Ok? ==> r.result.value.List? && |r.result.value.items| == |items| + remaining
    ensures r.result.Ok? ==> r.result.value.items[..|items|] == items
    decreases |m.input|, 3, remaining
  {
    if remaining == 0 then DeStep(Ok(List(items)), m)
    else
      var s := AnyTagF(m.(tag := Some(elem)));
      if !s.result.Ok? then DeStep(s.result.PropagateFailure(), s.after)
      else
        var r := TagListF(s.after, elem, remaining - 1, items + [s.result.value]);
        assert r.result.Ok? ==> r.result.value.items[..|items|] == (items + [s.result.value])[..|items|];
        r
  }

  /**
   * `deserialize_map(NbtCompoundVisitor)`. With no tag remembered this is
   * the root: one byte that must be the compound id, then, in the named
   * framing, a u16 length and that many name bytes skipped. Then the
   * entries.
   */
  function DeserializeMapF(m: DeMachine): (r: DeStep<NbtCompound>)
    ensures r.result.Ok? ==> |r.after.input| < |m.input|
    ensures !r.result.Panic? ==> |r.after.input| <= |m.input| && r.after.isNamed == m.isNamed
    decreases |m.input|, 1
  {
    if m.tag.None? then
      match TakeU8(m.input)
      case Done(b, afterId) =>
        if b != COMPOUND_ID then DeStep(Err(NoRootCompound(b)), m.(input := afterId))
        else if !m.isNamed then EntriesF(m.(input := afterId), map[])
        else
          (match TakeU16(afterId)
           case Done(len, afterLen) =>
             if len <= |afterLen| then EntriesF(m.(input := afterLen[len..]), map[])
             else DeStep(Panic, m)
           case _ => DeStep(Panic, m))
      case _ => DeStep(Panic, m)
    else EntriesF(m, map[])
  }

  /**
   * `NbtCompoundVisitor::visit_map` over `CompoundAccess`, from the
   * entries in `acc`: `next_key_seed` reads an id byte and remembers it;
   * `END` ends the map. Otherwise the key flag is set and the key read as
   * an identifier, then `next_value_seed` clears the flag and reads the
   * value as an `NbtTag`, and `put` stores it under the key.
   */
  function EntriesF(m: DeMachine, acc: map<JavaString, NbtTag>): (r: DeStep<NbtCompound>)
    ensures r.result.Ok? ==> |r.after.input| < |m.input| && r.after.tag == Some(END_ID)
    ensures !r.result.Panic? ==> |r.after.input| <= |m.input| && r.after.isNamed == m.isNamed
    decreases |m.input|, 0
  {
    match TakeU8(m.input)
    case Done(id, afterId) =>
      var m1 := m.(input := afterId, tag := Some(id));
      if id == END_ID then DeStep(Ok(NbtCompound(acc)), m1)
      else
        var key := IdentifierF(m1.(isKey := true));
        if !key.result.Ok? then DeStep(key.result.PropagateFailure(), key.after)
        else
          var value := AnyTagF(key.after.(isKey := false));
          if !value.result.Ok? then DeStep(value.result.PropagateFailure(), value.after)
          else EntriesF(value.after, acc[key.result.value := value.result.value])
    case _ => DeStep(Panic, m)
  }

  /**
   * `deserialize_bool` (a plain `bool` field): for a remembered `Byte` it
   * reads one byte and answers whether it is nonzero; for any other tag it
   * answers false and reads nothing.
   */
  function DeserializeBoolF(m: DeMachine): (r: DeStep<bool>)
    ensures m.tag.None? ==> r.result.Panic?
    ensures m.tag.Some? && m.tag.value != BYTE_ID ==> r == DeStep(Ok(false), m)
    ensures m.tag == Some(BYTE_ID) && |m.input| > 0 ==> r == DeStep(Ok(m.input[0] != 0), m.(input := m.input[1..]))
  {
    if m.tag.None? then DeStep(Panic, m)
    else if m.tag.value == BYTE_ID then
      match TakeU8(m.input)
      case Done(b, rest) => DeStep(Ok(b != 0), m.(input := rest))
      case _ => DeStep(Panic, m)
    else DeStep(Ok(false), m)
  }

  /** `deserialize_option` for an `Option<NbtTag>`: always `visit_some`, so the tag is read and wrapped. */
  function OptionTagF(m: DeMachine): (r: DeStep<Option<NbtTag>>)
    ensures r.after == AnyTagF(m).after
    ensures r.result.Ok? <==> AnyTagF(m).result.Ok?
    ensures r.result.Ok? ==> r.result.value == Some(AnyTagF(m).result.value)
    ensures AnyTagF(m).result.Err? ==> r.result == Err(AnyTagF(m).result.error)
  {
    var s := AnyTagF(m);
    if s.result.Ok? then DeStep(Ok(Some(s.result.value)), s.after) else DeStep(s.result.PropagateFailure(), s.after)
  }

  /** `from_bytes::<NbtCompound>`: the named framing, whatever its doc comment says. */
  function FromBytesF(input: seq<u8>): (r: DeStep<NbtCompound>)
    ensures r == DeserializeMapF(DeMachine(input, None, true, true))
    ensures |input| == 0 ==> r.result.Panic?
    ensures |input| > 0 && input[0] != COMPOUND_ID ==> r.result == Err(NoRootCompound(input[0])) && r.after.input == input[1..]
  {
    DeserializeMapF(New(input, true))
  }

  /** `from_bytes_unnamed::<NbtCompound>`: the unnamed (network) framing. */
  function FromBytesUnnamedF(input: seq<u8>): (r: DeStep<NbtCompound>)
    ensures r == DeserializeMapF(DeMachine(input, None, false, true))
    ensures |input| == 0 ==> r.result.Panic?
    ensures |input| > 0 && input[0] != COMPOUND_ID ==> r.result == Err(NoRootCompound(input[0])) && r.after.input == input[1..]
  {
    DeserializeMapF(New(input, false))
  }

  // ---------------------------------------------------------------------------
  // The deserializer

  class Deserializer {
    const input: Buf
    var tag: Option<u8>
    const isNamed: bool
    var isKey: bool

    function Snapshot(): DeMachine
      reads this, input
    {
      DeMachine(input.data, tag, isNamed, isKey)
    }

    constructor (buf: Buf, named: bool)
      ensures input == buf
      ensures Snapshot() == New(buf.data, named)
    {
      input := buf;
      tag := None;
      isNamed := named;
      isKey := true;
    }

    method DeserializeIdentifier() returns (r: Result<JavaString>)
      modifies input
      ensures Matches(r, Snapshot(), IdentifierF(old(Snapshot())))
    {
      r := GetNbtString(input);
    }

    /** `deserialize_any` with `NbtTagVisitor`. */
    method DeserializeAny() returns (r: Result<NbtTag>)
      modifies this, input
      ensures Matches(r, Snapshot(), AnyTagF(old(Snapshot())))
      decreases |input.data|, 2
    {
      if isKey {
        var s := DeserializeIdentifier();
        if !s.Ok? {
          return s.PropagateFailure();
        }
        return Ok(String(s.value));
      }
      if tag.None? {
        return Panic;
      }
      var id := tag.value;
      if id == LIST_ID {
        var listType := input.GetU8();
        if !listType.Ok? {
          return Panic;
        }
        var remainingValues := input.GetU32();
        if !remainingValues.Ok? {
          return Panic;
        }
        r := VisitTagSeq(listType.value, remainingValues.value);
        return;
      }
      if id == COMPOUND_ID {
        var c := DeserializeMap();
        if !c.Ok? {
          return c.PropagateFailure();
        }
        return Ok(Compound(c.value));
      }
      PayloadConsumes(input.data, id);
      var t := DeserializeRaw(input, id);
      if !t.Ok? {
        return t;
      }
      if t.value.End? {
        return Panic;
      }
      r := Ok(TagOfVisit(VisitOfTag(t.value)));
      tag := None;
    }

    /** `NbtTagVisitor::visit_seq` over `ListAccess { list_type: elem, remaining_values: count }`. */
    method VisitTagSeq(elem: u8, count: nat) returns (r: Result<NbtTag>)
      modifies this, input
      ensures Matches(r, Snapshot(), TagListF(old(Snapshot()), elem, count, []))
      decreases |input.data|, 3
    {
      var items: seq<NbtTag> := [];
      var remaining := count;
      while true
        invariant |input.data| <= old(|input.data|)
        invariant TagListF(Snapshot(), elem, remaining, items) == TagListF(old(Snapshot()), elem, count, [])
        decreases remaining
      {
        if remaining == 0 {
          return Ok(List(items));
        }
        remaining := remaining - 1;
        tag := Some(elem);
        var t := DeserializeAny();
        if !t.Ok? {
          return t.PropagateFailure();
        }
        items := items + [t.value];
      }
    }

    /** `deserialize_map` with `NbtCompoundVisitor`. */
    method DeserializeMap() returns (r: Result<NbtCompound>)
      modifies this, input
      ensures Matches(r, Snapshot(), DeserializeMapF(old(Snapshot())))
      decreases |input.data|, 1
    {
      if tag.None? {
        var nextByte := input.GetU8();
        if !nextByte.Ok? {
          return Panic;
        }
        if nextByte.value != COMPOUND_ID {
          return Err(NoRootCompound(nextByte.value));
        }
        if isNamed {
          var length := input.GetU16();
          if !length.Ok? {
            return Panic;
          }
          var skipped := input.Advance(length.value);
          if !skipped.Ok? {
            return Panic;
          }
        }
      }
      r := VisitCompoundMap();
    }

    /** `NbtCompoundVisitor::visit_map` over `CompoundAccess`. */
    method VisitCompoundMap() returns (r: Result<NbtCompound>)
      modifies this, input
      ensures Matches(r, Snapshot(), EntriesF(old(Snapshot()), map[]))
      decreases |input.data|, 0
    {
      var compound: map<JavaString, NbtTag> := map[];
      while true
        invariant |input.data| <= old(|input.data|)
        invariant EntriesF(Snapshot(), compound) == EntriesF(old(Snapshot()), map[])
        decreases |input.data|
      {
        var id := input.GetU8();
        if !id.Ok? {
          return Panic;
        }
        tag := Some(id.value);
        if id.value == END_ID {
          return Ok(NbtCompound(compound));
        }
        isKey := true;
        var key := DeserializeIdentifier();
        if !key.Ok? {
          return key.PropagateFailure();
        }
        isKey := false;
        var value := DeserializeAny();
        if !value.Ok? {
          return value.PropagateFailure();
        }
        compound := compound[key.value := value.value];
      }
    }

    /** `deserialize_bool`. */
    method DeserializeBool() returns (r: Result<bool>)
      modifies input
      ensures Matches(r, Snapshot(), DeserializeBoolF(old(Snapshot())))
    {
      if tag.None? {
        return Panic;
      }
      if tag.value == BYTE_ID {
        var value := input.GetU8();
        if !value.Ok? {
          return Panic;
        }
        if value.value != 0 {
          return Ok(true);
        }
      }
      return Ok(false);
    }
  }

  /** `from_bytes::<NbtCompound>(s)`: the result, and the input left unread. */
  method FromBytes(s: Buf) returns (r: Result<NbtCompound>)
    modifies s
    ensures r == FromBytesF(old(s.data)).result
    ensures !r.Panic? ==> s.data == FromBytesF(old(s.data)).after.input
  {
    var deserializer := new Deserializer(s, true);
    r := deserializer.DeserializeMap();
  }

  /** `from_bytes_unnamed::<NbtCompound>(s)`. */
  method FromBytesUnnamed(s: Buf) returns (r: Result<NbtCompound>)
    modifies s
    ensures r == FromBytesUnnamedF(old(s.data)).result
    ensures !r.Panic? ==> s.data == FromBytesUnnamedF(old(s.data)).after.input
  {
    var deserializer := new Deserializer(s, false);
    r := deserializer.DeserializeMap();
  }
}
