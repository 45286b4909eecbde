/**
 * `Nbt` of `src/nbt.rs`: a root compound with a name, read and written in
 * the named framing (`0x0A`, the name, the compound content) and in the
 * unnamed "network" framing (`0x0A`, the compound content).
 *
 * `write` and `write_unnamed` enumerate the compound in HashMap order, so
 * each returns, as a ghost, the entry sequence it happened to use; the
 * layout functions are stated over that sequence.
 */
module NbtDoc {
  import opened Numeric
  import opened Errors
  import opened ByteBuf
  import opened JavaCesu8
  import opened NbtUtils
  import opened Tag
  import opened Compound
  import opened Codec
  import opened CodecProofs
  import opened TagIo

  /** `Nbt { name, root_tag }`. */
  datatype Nbt = Nbt(name: JavaString, rootTag: NbtCompound)

  /** `From<NbtCompound>`: the compound under an empty name. */
  function FromCompound(c: NbtCompound): (n: Nbt)
    ensures n.name == [] && n.rootTag == c
  {
    Nbt([], c)
  }

  // ---------------------------------------------------------------------------
  // Layout

  /** `write`: the compound id, the framed name, then the compound's entries and `END`. */
  function NamedRootBytes(name: JavaString, entries: seq<Entry>): seq<u8> {
    [COMPOUND_ID] + StringPayload(name) + CompoundBytes(entries)
  }

  /** `write_unnamed`: the compound id, then the compound's entries and `END`. */
  function UnnamedRootBytes(entries: seq<Entry>): seq<u8> {
    [COMPOUND_ID] + CompoundBytes(entries)
  }

  /** entries is an order in which the writer may have enumerated c. */
  ghost predicate Enumerates(c: NbtCompound, entries: seq<Entry>) {
    && InsertAll(map[], ForgetEntries(entries)) == c.childTags
    && NamesDistinct(entries)
    && (EncodableCompound(c) ==> forall i :: 0 <= i < |entries| ==> WellFormedEntry(entries[i]))
  }

  /**
   * The unnamed framing is the named one without the name field: the same
   * bytes with the `2 + |name|` bytes of the framed name left out.
   */
  lemma UnnamedDropsName(name: JavaString, entries: seq<Entry>)
    ensures |NamedRootBytes(name, entries)| == |UnnamedRootBytes(entries)| + 2 + |name|
    ensures NamedRootBytes(name, entries)
         == UnnamedRootBytes(entries)[..1] + StringPayload(name) + UnnamedRootBytes(entries)[1..]
  {
    assert UnnamedRootBytes(entries)[1..] == CompoundBytes(entries);
  }

  // ---------------------------------------------------------------------------
  // Writing

  method Write(n: Nbt) returns (bytes: seq<u8>, ghost entries: seq<Entry>)
    ensures Enumerates(n.rootTag, entries)
    ensures bytes == NamedRootBytes(n.name, entries)
  {
    var nameBytes := SerializeString(n.name);
    var content;
    content, entries := SerializeCompound(n.rootTag);
    bytes := [COMPOUND_ID] + nameBytes + content;
  }

  method WriteUnnamed(n: Nbt) returns (bytes: seq<u8>, ghost entries: seq<Entry>)
    ensures Enumerates(n.rootTag, entries)
    ensures bytes == UnnamedRootBytes(entries)
  {
    var content;
    content, entries := SerializeCompound(n.rootTag);
    bytes := [COMPOUND_ID] + content;
  }

  // ---------------------------------------------------------------------------
  // Reading

  /**
   * `read`: an empty input panics in `get_u8`; a first byte other than the
   * compound id is `NoRootCompound`; a name that is not valid Java CESU-8
   * is returned as the error, by `?`; then the compound content.
   */
  function ParseNamed(input: seq<u8>): (r: Parse<Nbt>)
    ensures |input| == 0 ==> r.Panicked?
    ensures r.Failed? <==> |input| > 0 && (input[0] != COMPOUND_ID || NbtString(input[1..]).Failed?)
    ensures |input| > 0 && input[0] != COMPOUND_ID ==> r == Failed(NoRootCompound(input[0]), input[1..])
    ensures r.Failed? && input[0] == COMPOUND_ID ==> r.error == InvalidJavaString
  {
    if |input| == 0 then Panicked
    else if input[0] != COMPOUND_ID then Failed(NoRootCompound(input[0]), input[1..])
    else
      match NbtString(input[1..])
      case Panicked => Panicked
      case Failed(e, rest) => Failed(e, rest)
      case Done(name, afterName) =>
        match ParseCompound(afterName)
        case Done(c, rest) => Done(Nbt(name, c), rest)
        case _ => Panicked
  }

  /** `read_unnamed`: as `read`, with no name field and the empty name. */
  function ParseUnnamed(input: seq<u8>): (r: Parse<Nbt>)
    ensures |input| == 0 ==> r.Panicked?
    ensures r.Failed? <==> |input| > 0 && input[0] != COMPOUND_ID
    ensures r.Failed? ==> r == Failed(NoRootCompound(input[0]), input[1..])
    ensures r.Done? ==> r.value.name == []
  {
    if |input| == 0 then Panicked
    else if input[0] != COMPOUND_ID then Failed(NoRootCompound(input[0]), input[1..])
    else
      match ParseCompound(input[1..])
      case Done(c, rest) => Done(FromCompound(c), rest)
      case _ => Panicked
  }

  method Read(buf: Buf) returns (r: Result<Nbt>)
    modifies buf
    ensures Observe(r, buf.data) == ParseNamed(old(buf.data))
  {
    var tagTypeId := buf.GetU8();
    if !tagTypeId.Ok? {
      return Panic;
    }
    if tagTypeId.value != COMPOUND_ID {
      return Err(NoRootCompound(tagTypeId.value));
    }
    var name := GetNbtString(buf);
    if name.Panic? {
      return Panic;
    } else if name.Err? {
      return Err(name.error);
    }
    var rootTag := DeserializeCompound(buf);
    if !rootTag.Ok? {
      return Panic;
    }
    return Ok(Nbt(name.value, rootTag.value));
  }

  method ReadUnnamed(buf: Buf) returns (r: Result<Nbt>)
    modifies buf
    ensures Observe(r, buf.data) == ParseUnnamed(old(buf.data))
  {
    var tagTypeId := buf.GetU8();
    if !tagTypeId.Ok? {
      return Panic;
    }
    if tagTypeId.value != COMPOUND_ID {
      return Err(NoRootCompound(tagTypeId.value));
    }
    var rootTag := DeserializeCompound(buf);
    if !rootTag.Ok? {
      return Panic;
    }
    return Ok(Nbt([], rootTag.value));
  }

  // ---------------------------------------------------------------------------
  // Round trips

  /** `read(write(n))` gives back the name and the map, whatever order the entries were written in. */
  lemma NamedRoundTrip(name: JavaString, entries: seq<Entry>, rest: seq<u8>)
    requires ValidString(name)
    requires forall i :: 0 <= i < |entries| ==> WellFormedEntry(entries[i])
    ensures ParseNamed(NamedRootBytes(name, entries) + rest)
         == Done(Nbt(name, NbtCompound(InsertAll(map[], ForgetEntries(entries)))), rest)
  {
    var body := CompoundBytes(entries);
    assert NamedRootBytes(name, entries) + rest == [COMPOUND_ID] + (StringPayload(name) + (body + rest)) by {
      Associate([COMPOUND_ID], StringPayload(name), body, rest);
    }
    NbtStringOfPayload(name, body + rest);
    CompoundRoundTrip(entries, rest);
  }

  lemma Associate(a: seq<u8>, b: seq<u8>, c: seq<u8>, d: seq<u8>)
    ensures a + b + c + d == a + (b + (c + d))
  {
  }

  lemma Associate3(a: seq<u8>, b: seq<u8>, c: seq<u8>)
    ensures a + b + c == a + (b + c)
  {
  }

  /** `read_unnamed(write_unnamed(n))` gives back the map under the empty name. */
  lemma UnnamedRoundTrip(entries: seq<Entry>, rest: seq<u8>)
    requires forall i :: 0 <= i < |entries| ==> WellFormedEntry(entries[i])
    ensures ParseUnnamed(UnnamedRootBytes(entries) + rest)
         == Done(FromCompound(NbtCompound(InsertAll(map[], ForgetEntries(entries)))), rest)
  {
    var body := CompoundBytes(entries) + rest;
    assert UnnamedRootBytes(entries) + rest == [COMPOUND_ID] + body by {
      Associate3([COMPOUND_ID], CompoundBytes(entries), rest);
    }
    assert ([COMPOUND_ID] + body)[1..] == body;
    CompoundRoundTrip(entries, rest);
  }

  /** Writing a document and reading it back through a buffer gives it back and consumes every byte. */
  method NamedRoundTripThroughBuf(n: Nbt) returns (r: Result<Nbt>, left: seq<u8>)
    requires ValidString(n.name) && EncodableCompound(n.rootTag)
    ensures r == Ok(n) && left == []
  {
    var bytes;
    ghost var entries;
    bytes, entries := Write(n);
    NamedRoundTrip(n.name, entries, []);
    assert bytes + [] == bytes;
    var buf := new Buf(bytes);
    r := Read(buf);
    left := buf.data;
  }

  /** The network framing loses the name and nothing else. */
  method UnnamedRoundTripThroughBuf(n: Nbt) returns (r: Result<Nbt>, left: seq<u8>)
    requires EncodableCompound(n.rootTag)
    ensures r == Ok(FromCompound(n.rootTag)) && left == []
    ensures n.name == [] ==> r == Ok(n)
  {
    var bytes;
    ghost var entries;
    bytes, entries := WriteUnnamed(n);
    UnnamedRoundTrip(entries, []);
    assert bytes + [] == bytes;
    var buf := new Buf(bytes);
    r := ReadUnnamed(buf);
    left := buf.data;
  }

  // ---------------------------------------------------------------------------
  // The heightmap example: one empty `LongArray` named `WORLD_SURFACE`

  const WORLD_SURFACE: JavaString := [0x57, 0x4F, 0x52, 0x4C, 0x44, 0x5F, 0x53, 0x55, 0x52, 0x46, 0x41, 0x43, 0x45]

  /** The bytes of the heightmap written with its one entry. */
  lemma WorldSurfaceLayout()
    ensures UnnamedRootBytes([Entry(WORLD_SURFACE, WLongArray([]))])
         == [0x0A, 0x0C, 0x00, 0x0D] + WORLD_SURFACE + [0x00, 0x00, 0x00, 0x00, 0x00]
  {
    var e := Entry(WORLD_SURFACE, WLongArray([]));
    WorldSurfaceName();
    EmptyLongArrayPayload();
    assert EntriesBytes([e]) == NamedBytes(e);
  }

  lemma WorldSurfaceName()
    ensures StringPayload(WORLD_SURFACE) == [0x00, 0x0D] + WORLD_SURFACE
  {
    assert BeBytes(13, 2) == [0x00, 0x0D];
  }

  lemma EmptyLongArrayPayload()
    ensures Payload(WLongArray([])) == [0x00, 0x00, 0x00, 0x00]
  {
    assert BeBytes(0, 4) == [0x00, 0x00, 0x00, 0x00];
  }

  /** `write_unnamed` of the heightmap: `0A 0C 00 0D "WORLD_SURFACE" 00000000 00`. */
  method WorldSurfaceExample() returns (bytes: seq<u8>)
    ensures bytes == [0x0A, 0x0C, 0x00, 0x0D] + WORLD_SURFACE + [0x00, 0x00, 0x00, 0x00, 0x00]
  {
    var heightmap := FromCompound(NbtCompound(map[WORLD_SURFACE := LongArray([])]));
    ghost var entries;
    bytes, entries := WriteUnnamed(heightmap);
    InsertAllSingle(ForgetEntries(entries), WORLD_SURFACE, LongArray([]));
    assert entries[0].value == WLongArray([]) by {
      assert Forget(entries[0].value) == LongArray([]);
    }
    assert entries == [Entry(WORLD_SURFACE, WLongArray([]))];
    WorldSurfaceLayout();
  }
}
