/**
 * The NBT value tree: the thirteen tag variants with their ids, the compound
 * that maps names to tags, and the pure accessors on both.
 *
 * `NbtTag` and `NbtCompound` refer to each other, so both are declared
 * here; a compound is the `HashMap<String, NbtTag>` of the source as a Dafny
 * `map`.
 */
module Tag {
  import opened Numeric
  import opened Errors
  import opened JavaCesu8
  import opened NbtUtils

  datatype NbtTag =
    | End
    | Byte(byteValue: i8)
    | Short(shortValue: i16)
    | Int(intValue: i32)
    | Long(longValue: i64)
    | Float(floatBits: f32)
    | Double(doubleBits: f64)
    | ByteArray(byteArray: seq<u8>)
    | String(text: JavaString)
    | List(items: seq<NbtTag>)
    | Compound(compound: NbtCompound)
    | IntArray(intArray: seq<i32>)
    | LongArray(longArray: seq<i64>)
  {
    /** `id()`: the declared discriminant of the variant. */
    function Id(): (id: u8)
      ensures id <= LONG_ARRAY_ID
      ensures End? <==> id == END_ID
      ensures Byte? <==> id == BYTE_ID
      ensures Short? <==> id == SHORT_ID
      ensures Int? <==> id == INT_ID
      ensures Long? <==> id == LONG_ID
      ensures Float? <==> id == FLOAT_ID
      ensures Double? <==> id == DOUBLE_ID
      ensures ByteArray? <==> id == BYTE_ARRAY_ID
      ensures String? <==> id == STRING_ID
      ensures List? <==> id == LIST_ID
      ensures Compound? <==> id == COMPOUND_ID
      ensures IntArray? <==> id == INT_ARRAY_ID
      ensures LongArray? <==> id == LONG_ARRAY_ID
    {
      match this
      case End => END_ID
      case Byte(_) => BYTE_ID
      case Short(_) => SHORT_ID
      case Int(_) => INT_ID
      case Long(_) => LONG_ID
      case Float(_) => FLOAT_ID
      case Double(_) => DOUBLE_ID
      case ByteArray(_) => BYTE_ARRAY_ID
      case String(_) => STRING_ID
      case List(_) => LIST_ID
      case Compound(_) => COMPOUND_ID
      case IntArray(_) => INT_ARRAY_ID
      case LongArray(_) => LONG_ARRAY_ID
    }

    function ExtractByte(): (r: Option<i8>)
      ensures r.Some? <==> Byte?
      ensures r.Some? ==> r.value == byteValue
    {
      if Byte? then Some(byteValue) else None
    }

    function ExtractShort(): (r: Option<i16>)
      ensures r.Some? <==> Short?
      ensures r.Some? ==> r.value == shortValue
    {
      if Short? then Some(shortValue) else None
    }

    function ExtractInt(): (r: Option<i32>)
      ensures r.Some? <==> Int?
      ensures r.Some? ==> r.value == intValue
    {
      if Int? then Some(intValue) else None
    }

    function ExtractLong(): (r: Option<i64>)
      ensures r.Some? <==> Long?
      ensures r.Some? ==> r.value == longValue
    {
      if Long? then Some(longValue) else None
    }

    function ExtractFloat(): (r: Option<f32>)
      ensures r.Some? <==> Float?
      ensures r.Some? ==> r.value == floatBits
    {
      if Float? then Some(floatBits) else None
    }

    function ExtractDouble(): (r: Option<f64>)
      ensures r.Some? <==> Double?
      ensures r.Some? ==> r.value == doubleBits
    {
      if Double? then Some(doubleBits) else None
    }

    /** `extract_bool()`: a `Byte` read as a boolean, any nonzero value being true. */
    function ExtractBool(): (r: Option<bool>)
      ensures r.Some? <==> Byte?
      ensures r.Some? ==> (r.value <==> byteValue != 0)
    {
      if Byte? then Some(byteValue != 0) else None
    }

    function ExtractByteArray(): (r: Option<seq<u8>>)
      ensures r.Some? <==> ByteArray?
      ensures r.Some? ==> r.value == byteArray
    {
      if ByteArray? then Some(byteArray) else None
    }

    function ExtractString(): (r: Option<JavaString>)
      ensures r.Some? <==> String?
      ensures r.Some? ==> r.value == text
    {
      if String? then Some(text) else None
    }

    function ExtractList(): (r: Option<seq<NbtTag>>)
      ensures r.Some? <==> List?
      ensures r.Some? ==> r.value == items
    {
      if List? then Some(items) else None
    }

    function ExtractCompound(): (r: Option<NbtCompound>)
      ensures r.Some? <==> Compound?
      ensures r.Some? ==> r.value == compound
    {
      if Compound? then Some(compound) else None
    }

    function ExtractIntArray(): (r: Option<seq<i32>>)
      ensures r.Some? <==> IntArray?
      ensures r.Some? ==> r.value == intArray
    {
      if IntArray? then Some(intArray) else None
    }

    function ExtractLongArray(): (r: Option<seq<i64>>)
      ensures r.Some? <==> LongArray?
      ensures r.Some? ==> r.value == longArray
    {
      if LongArray? then Some(longArray) else None
    }
  }

  /** `NbtCompound { child_tags }`. */
  datatype NbtCompound = NbtCompound(childTags: map<JavaString, NbtTag>)

  /** `HashMap::insert` of each pair in turn into acc: a later name overwrites an earlier one. */
  function InsertAll(acc: map<JavaString, NbtTag>, pairs: seq<(JavaString, NbtTag)>): map<JavaString, NbtTag>
    decreases pairs
  {
    if pairs == [] then acc else InsertAll(acc[pairs[0].0 := pairs[0].1], pairs[1..])
  }

  /** `From<bool>`: `Byte(1)` for true and `Byte(0)` for false. */
  function FromBool(b: bool): (t: NbtTag)
    ensures t.Byte? && (t.byteValue == 0 || t.byteValue == 1)
    ensures t.ExtractBool() == Some(b)
  {
    Byte(if b then 1 else 0)
  }

  /** `From<&str>`: a `String` tag. */
  function FromStr(s: JavaString): (t: NbtTag)
    ensures t.ExtractString() == Some(s)
  {
    String(s)
  }

  /** The `extract_*` accessors answer only for their own variant. */
  lemma ExtractorsAreExclusive(t: NbtTag)
    ensures t.ExtractByte().Some? ==> t.ExtractInt().None? && t.ExtractString().None? && t.ExtractList().None?
    ensures t.ExtractBool().Some? <==> t.ExtractByte().Some?
    ensures t.ExtractBool().Some? ==> (t.ExtractBool().value <==> t.ExtractByte().value != 0)
  {
  }
}
