# CrabNBT in Dafny

A model of the core of CrabNBT, a Rust codec for NBT (Named Binary Tag), the
big-endian, length-prefixed, recursive binary tree format of Minecraft, and
proofs about that model.

The model follows the crate layer by layer:

- **Integers and bytes** (`numeric.dfy`, `bytebuf.dfy`): the fixed-width
  integers, their big-endian byte forms, the casts the source performs
  (`len() as i32`, `len() as u16`, `u8 as i8`) written out as wrap-around
  or truncation, and the consuming `Buf` readers of the `bytes` crate, which
  panic when too few bytes remain. `errors.dfy` holds the crate's error
  variants and a `Result` with a third case, `Panic`, for a Rust panic.
- **Byte cursors** (`slice_cursor.rs`, `nbt/utils/slice_cursor.rs`): both
  `BinarySliceCursor`s are classes with a `pos` field, their bounds-checked
  `read` and the big-endian readers built on it.
- **Tag codec** (`nbt/tag.rs`, `nbt/utils.rs`, `nbt/compound.rs`): the
  13-variant `NbtTag`, its payload layout, the string framing of
  `get_nbt_string`, `read_array`, the lenient compound reader, and the
  round trip of reading back what was written. A compound is a map; since
  the writer enumerates it in HashMap order, the layout is stated over a
  `Wire` tree that records the order entries were written in, and `Forget`
  folds it back into maps.
- **Root documents** (`nbt.rs`, `nbt/root_nbt.rs`): `Nbt` read and written
  in the named framing and in the unnamed network framing. The `write` and
  `write_unnamed` of `root_nbt.rs` emit the same bytes as those of `nbt.rs`
  and are modelled by `NbtDoc.Write` and `NbtDoc.WriteUnnamed`.
- **Serde bridge** (`serde/ser.rs`, `serde/de.rs`, `serde/nbt_types.rs`,
  `serde/arrays.rs`, `serde/bool.rs`): the `Serializer` as a class over an
  output and a `State`, driven by the value of serde's data model that a
  `Serialize` impl presents; the `Deserializer` as a class over a `Buf` with
  the remembered tag id, the framing flag and the key flag; the visitors of
  `NbtTag` and `NbtCompound`; the typed-array wrappers; and `BoolVisitor`.

Every imperative operation is a method that follows the source's
statements and is proved to agree with a function on the input or on a
snapshot of the object's fields; the properties are proved about those
functions. The two exceptions are `Ser.Serializer.SerializeStruct` and
`Ser.Serializer.SerializeKey`, which follow the corrected `serialize_struct`
and `serialize_key` described under "## Findings"; the source's own forms
are the functions `Ser.StructBeginAsWritten` and `Ser.KeyBeginAsWritten`,
and every property stated of the composed serializer (`Ser.Emit`,
`Ser.ToBytesF` and the layouts and round trips built on them) is a
property of the corrected serializer.

## Model

| member | source | states |
|---|---|---|
| Numeric.I8Bytes | src/nbt/tag.rs:36 | `put_i8` writes exactly one byte |
| Numeric.I16Bytes | src/nbt/tag.rs:37 | `put_i16` writes exactly two bytes |
| Numeric.I32Bytes | src/nbt/tag.rs:38 | `put_i32` writes exactly four bytes |
| Numeric.I64Bytes | src/nbt/tag.rs:39 | `put_i64` writes exactly eight bytes |
| Numeric.U32Bytes | src/nbt/tag.rs:40 | `put_f32` writes the four bytes of the float's bit pattern |
| Numeric.U64Bytes | src/nbt/tag.rs:41 | `put_f64` writes the eight bytes of the double's bit pattern |
| Numeric.U16Bytes | src/nbt/tag.rs:48 | `put_u16` writes exactly two bytes |
| Numeric.I8RoundTrip | src/nbt/tag.rs:103 | `get_i8` reads back what `put_i8` wrote |
| Numeric.I16RoundTrip | src/nbt/tag.rs:107 | `get_i16` reads back what `put_i16` wrote |
| Numeric.U16RoundTrip | src/nbt/utils.rs:20 | `get_u16` reads back what `put_u16` wrote |
| Numeric.I32RoundTrip | src/nbt/tag.rs:111 | `get_i32` reads back what `put_i32` wrote |
| Numeric.U32RoundTrip | src/nbt/tag.rs:119 | the four-byte float pattern reads back unchanged |
| Numeric.I64RoundTrip | src/nbt/tag.rs:115 | `get_i64` reads back what `put_i64` wrote |
| Numeric.U64RoundTrip | src/nbt/tag.rs:123 | the eight-byte double pattern reads back unchanged |
| Numeric.BeBytesOfReaders | src/slice_cursor.rs:69-111 | every big-endian reader of width 1, 2, 4 or 8 is inverted by the writer of the same width, so decoding loses nothing |
| Numeric.BeI8Inverse | src/slice_cursor.rs:84-86 | the one-byte reader is inverted by the one-byte writer |
| Numeric.LenAsI32 | src/nbt/tag.rs:43 | `len() as i32` is the length itself for every length below 2^31 |
| Numeric.LenAsU16 | src/nbt/tag.rs:48 | `len() as u16` keeps a length below 2^16 as itself, and never writes a length of 2^16 or more as itself |
| Numeric.U8AsI8 | src/serde/de.rs:117 | `b as i8` is b when it is below 128 and b - 256 above |
| Numeric.I8AsU8 | src/nbt/tag.rs:36 | the byte `put_i8(v)` writes, whose two's-complement reading is v again |
| ByteBuf.Take | src/nbt/utils.rs:21 | `copy_to_bytes(n)` returns the first n bytes and the rest, and panics exactly when fewer than n remain |
| ByteBuf.TakeU8 | src/nbt/tag.rs:95 | `get_u8` splits off one byte, panicking on an empty input |
| ByteBuf.TakeI8 | src/nbt/tag.rs:103 | `get_i8` splits off one byte, panicking on an empty input |
| ByteBuf.TakeU16 | src/nbt/utils.rs:20 | `get_u16` splits off two big-endian bytes, panicking when fewer remain |
| ByteBuf.TakeI16 | src/nbt/tag.rs:107 | `get_i16` splits off two big-endian bytes, panicking when fewer remain |
| ByteBuf.TakeU32 | src/nbt/tag.rs:119 | `get_f32` splits off four bytes as a bit pattern, panicking when fewer remain |
| ByteBuf.TakeI32 | src/nbt/tag.rs:111 | `get_i32` splits off four big-endian bytes, panicking when fewer remain |
| ByteBuf.TakeU64 | src/nbt/tag.rs:123 | `get_f64` splits off eight bytes as a bit pattern, panicking when fewer remain |
| ByteBuf.TakeI64 | src/nbt/tag.rs:115 | `get_i64` splits off eight big-endian bytes, panicking when fewer remain |
| ByteBuf.TakeI8OfPut | src/nbt/tag.rs:103 | reading an `i8` after writing it gives the value and leaves everything that follows |
| ByteBuf.TakeU16OfPut | src/nbt/utils.rs:20 | reading a `u16` after writing it gives the value and leaves everything that follows |
| ByteBuf.TakeI16OfPut | src/nbt/tag.rs:107 | reading an `i16` after writing it gives the value and leaves everything that follows |
| ByteBuf.TakeU32OfPut | src/nbt/tag.rs:119 | reading a float pattern after writing it gives the pattern and leaves everything that follows |
| ByteBuf.TakeI32OfPut | src/nbt/tag.rs:111 | reading an `i32` after writing it gives the value and leaves everything that follows |
| ByteBuf.TakeU64OfPut | src/nbt/tag.rs:123 | reading a double pattern after writing it gives the pattern and leaves everything that follows |
| ByteBuf.TakeI64OfPut | src/nbt/tag.rs:115 | reading an `i64` after writing it gives the value and leaves everything that follows |
| ByteBuf.Buf.GetU8 | src/nbt/tag.rs:95 | the buffer method advances exactly as `TakeU8` says, and panics exactly when it does |
| ByteBuf.Buf.GetI8 | src/nbt/tag.rs:103 | the buffer method advances exactly as `TakeI8` says |
| ByteBuf.Buf.GetU16 | src/nbt/utils.rs:20 | the buffer method advances exactly as `TakeU16` says |
| ByteBuf.Buf.GetI16 | src/nbt/tag.rs:107 | the buffer method advances exactly as `TakeI16` says |
| ByteBuf.Buf.GetU32 | src/serde/de.rs:86 | the buffer method advances exactly as `TakeU32` says |
| ByteBuf.Buf.GetI32 | src/nbt/tag.rs:111 | the buffer method advances exactly as `TakeI32` says |
| ByteBuf.Buf.GetF32 | src/nbt/tag.rs:119 | `get_f32` advances exactly as the four-byte bit-pattern read says |
| ByteBuf.Buf.GetI64 | src/nbt/tag.rs:115 | the buffer method advances exactly as `TakeI64` says |
| ByteBuf.Buf.GetF64 | src/nbt/tag.rs:123 | `get_f64` advances exactly as the eight-byte bit-pattern read says |
| ByteBuf.Buf.CopyToBytes | src/nbt/utils.rs:21 | `copy_to_bytes(n)` and `bytes[..n]` + `advance(n)` advance exactly as `Take` says |
| ByteBuf.Buf.Advance | src/nbt/tag.rs:129 | `advance(n)` drops exactly n bytes, and panics exactly when fewer remain |
| NbtUtils.TagIdsFollowVariantOrder | src/nbt/utils.rs:5-17 | the thirteen ids are 0..12 in variant order and pairwise distinct |
| NbtUtils.StringPayload | src/nbt/tag.rs:46-50 | the string framing is two length bytes followed by the encoded bytes themselves |
| NbtUtils.NbtString | src/nbt/utils.rs:19-24 | `get_nbt_string` panics exactly when the u16 length or that many bytes are missing; on success the input is the framed string followed by the rest, and the text is valid Java CESU-8; on `InvalidJavaString` the L bytes read are not valid |
| NbtUtils.NbtStringOfPayload | src/nbt/utils.rs:19-24 | reading a framed valid string gives the string back and leaves exactly what follows it |
| NbtUtils.GetNbtString | src/nbt/utils.rs:19-24 | the imperative `get_nbt_string` advances the buffer exactly as `NbtString` says |
| NbtUtils.Chunks | src/nbt/utils.rs:38-43 | chunking `count * n` bytes yields exactly count values |
| NbtUtils.ChunksAt | src/nbt/utils.rs:38-42 | element i is `from_be` of bytes [i * n, (i + 1) * n): order is kept |
| NbtUtils.ReadArray | src/nbt/utils.rs:28-44 | `read_array` succeeds exactly when `count * n` bytes remain (and n > 0), consumes exactly those bytes and returns their chunking; otherwise it panics |
| SliceCursor.BinarySliceCursor.constructor | src/slice_cursor.rs:16-21 | a new cursor is at position 0 over the whole slice |
| SliceCursor.BinarySliceCursor.Pos | src/slice_cursor.rs:24-26 | `pos()` is the position |
| SliceCursor.BinarySliceCursor.SetPos | src/slice_cursor.rs:29-31 | `set_pos(p)` sets any `usize` position, inside the slice or past its end |
| SliceCursor.BinarySliceCursor.Skip | src/slice_cursor.rs:34-36 | `skip(n)` adds n to the position without a bounds check, and panics, position unchanged, exactly when the sum reaches 2^64 |
| SliceCursor.BinarySliceCursor.HasRemaining | src/slice_cursor.rs:38-40 | true exactly when pos < len, so never at or past the end |
| SliceCursor.BinarySliceCursor.Read | src/slice_cursor.rs:43-57 | `read(count)` succeeds iff pos + count <= len, returns inner[pos..pos+count] and advances by count; it panics (debug build) exactly when pos + count reaches 2^64 or the position is past the end (`len - pos` underflows); otherwise `NotEnoughBytes(count, len - pos)`; pos unchanged on failure |
| SliceCursor.BinarySliceCursor.ReadArray | src/slice_cursor.rs:60-66 | `read_array::<n>` consumes exactly n bytes, with the same error and panics (debug build) as `read` |
| SliceCursor.BinarySliceCursor.ReadU8 | src/slice_cursor.rs:69-71 | consumes exactly one byte and returns it; `NotEnoughBytes` when fewer remain, and a panic (debug build) exactly from a position past the end |
| SliceCursor.BinarySliceCursor.ReadU16Be | src/slice_cursor.rs:74-76 | consumes exactly two bytes whose big-endian value is the result; `NotEnoughBytes` when fewer remain, and a panic (debug build) exactly from a position past the end |
| SliceCursor.BinarySliceCursor.ReadU32Be | src/slice_cursor.rs:79-81 | consumes exactly four bytes whose big-endian value is the result; `NotEnoughBytes` when fewer remain, and a panic (debug build) exactly from a position past the end |
| SliceCursor.BinarySliceCursor.ReadI8 | src/slice_cursor.rs:84-86 | consumes exactly one byte whose two's-complement value is the result; `NotEnoughBytes` when fewer remain, and a panic (debug build) exactly from a position past the end |
| SliceCursor.BinarySliceCursor.ReadI16Be | src/slice_cursor.rs:89-91 | consumes exactly two bytes whose big-endian two's-complement value is the result; `NotEnoughBytes` when fewer remain, and a panic (debug build) exactly from a position past the end |
| SliceCursor.BinarySliceCursor.ReadI32Be | src/slice_cursor.rs:94-96 | consumes exactly four bytes whose big-endian two's-complement value is the result; `NotEnoughBytes` when fewer remain, and a panic (debug build) exactly from a position past the end |
| SliceCursor.BinarySliceCursor.ReadI64Be | src/slice_cursor.rs:99-101 | consumes exactly eight bytes whose big-endian two's-complement value is the result; `NotEnoughBytes` when fewer remain, and a panic (debug build) exactly from a position past the end |
| SliceCursor.BinarySliceCursor.ReadF32Be | src/slice_cursor.rs:104-106 | consumes exactly four bytes, returned as the float's bit pattern; `NotEnoughBytes` when fewer remain, and a panic (debug build) exactly from a position past the end |
| SliceCursor.BinarySliceCursor.ReadF64Be | src/slice_cursor.rs:109-111 | consumes exactly eight bytes, returned as the double's bit pattern; `NotEnoughBytes` when fewer remain, and a panic (debug build) exactly from a position past the end |
| NbtSliceCursor.BinarySliceCursor.constructor | src/nbt/utils/slice_cursor.rs:19-24 | a new cursor is at position 0 over the whole slice |
| NbtSliceCursor.BinarySliceCursor.Position | src/nbt/utils/slice_cursor.rs:26-28 | `position()` is the position |
| NbtSliceCursor.BinarySliceCursor.Skip | src/nbt/utils/slice_cursor.rs:33-43 | `skip(amount)` panics exactly when pos + amount reaches 2^64, succeeds iff pos + amount < len (strictly), moving by amount, and otherwise fails with `InvalidSkip(amount, len)`, the whole length; pos unchanged on failure and always within the slice |
| NbtSliceCursor.BinarySliceCursor.HasRemaining | src/nbt/utils/slice_cursor.rs:45-47 | true exactly when some byte is left |
| NbtSliceCursor.BinarySliceCursor.Read | src/nbt/utils/slice_cursor.rs:50-64 | `read(count)` panics exactly when pos + count reaches 2^64, succeeds iff pos + count <= len, returning inner[pos..pos+count] and advancing by count, and otherwise fails with `NotEnoughBytes(count, len - pos)`, pos unchanged |
| NbtSliceCursor.BinarySliceCursor.ReadArray | src/nbt/utils/slice_cursor.rs:67-72 | `read_array::<n>` consumes exactly n bytes, with the same error and panic as `read` |
| NbtSliceCursor.BinarySliceCursor.ReadU8 | src/nbt/utils/slice_cursor.rs:74-76 | consumes exactly one byte and returns it |
| NbtSliceCursor.BinarySliceCursor.ReadU16Be | src/nbt/utils/slice_cursor.rs:78-80 | consumes exactly two bytes whose big-endian value is the result |
| NbtSliceCursor.BinarySliceCursor.ReadI8 | src/nbt/utils/slice_cursor.rs:82-84 | consumes exactly one byte whose two's-complement value is the result |
| NbtSliceCursor.BinarySliceCursor.ReadI16Be | src/nbt/utils/slice_cursor.rs:86-88 | consumes exactly two bytes whose big-endian two's-complement value is the result |
| NbtSliceCursor.BinarySliceCursor.ReadI32Be | src/nbt/utils/slice_cursor.rs:90-92 | consumes exactly four bytes whose big-endian two's-complement value is the result |
| NbtSliceCursor.BinarySliceCursor.ReadI64Be | src/nbt/utils/slice_cursor.rs:94-96 | consumes exactly eight bytes whose big-endian two's-complement value is the result |
| NbtSliceCursor.BinarySliceCursor.ReadF32Be | src/nbt/utils/slice_cursor.rs:98-100 | consumes exactly four bytes, returned as the float's bit pattern |
| NbtSliceCursor.BinarySliceCursor.ReadF64Be | src/nbt/utils/slice_cursor.rs:102-104 | consumes exactly eight bytes, returned as the double's bit pattern |
| Tag.Id | src/nbt/tag.rs:9-30 | `id()` is the declared discriminant: each variant's id and no other, all at most 12 |
| Tag.ExtractByte | src/nbt/tag.rs:167-172 | `Some` exactly for a `Byte`, with its value |
| Tag.ExtractShort | src/nbt/tag.rs:174-179 | `Some` exactly for a `Short`, with its value |
| Tag.ExtractInt | src/nbt/tag.rs:181-186 | `Some` exactly for an `Int`, with its value |
| Tag.ExtractLong | src/nbt/tag.rs:188-193 | `Some` exactly for a `Long`, with its value |
| Tag.ExtractFloat | src/nbt/tag.rs:195-200 | `Some` exactly for a `Float`, with its bit pattern |
| Tag.ExtractDouble | src/nbt/tag.rs:202-207 | `Some` exactly for a `Double`, with its bit pattern |
| Tag.ExtractBool | src/nbt/tag.rs:209-214 | `Some` exactly for a `Byte`, true exactly when the byte is nonzero |
| Tag.ExtractByteArray | src/nbt/tag.rs:216-221 | `Some` exactly for a `ByteArray`, with its bytes |
| Tag.ExtractString | src/nbt/tag.rs:223-228 | `Some` exactly for a `String`, with its text |
| Tag.ExtractList | src/nbt/tag.rs:230-235 | `Some` exactly for a `List`, with its items |
| Tag.ExtractCompound | src/nbt/tag.rs:237-242 | `Some` exactly for a `Compound`, with it |
| Tag.ExtractIntArray | src/nbt/tag.rs:244-249 | `Some` exactly for an `IntArray`, with its elements |
| Tag.ExtractLongArray | src/nbt/tag.rs:251-256 | `Some` exactly for a `LongArray`, with its elements |
| Tag.FromBool | src/nbt/tag.rs:265-269 | `From<bool>` gives `Byte(0)` or `Byte(1)`, and `extract_bool` gives the boolean back |
| Tag.FromStr | src/nbt/tag.rs:259-263 | `From<&str>` gives a `String` tag that `extract_string` returns |
| Tag.ExtractorsAreExclusive | src/nbt/tag.rs:167-214 | a tag answers only its own variant's accessor; `extract_bool` answers exactly when `extract_byte` does |
| Compound.InsertAllAppend | src/nbt/compound.rs:29 | inserting one more pair is a map update |
| Compound.InsertAllKeys | src/nbt/compound.rs:49-56 | the names present afterwards are those before plus every pair's name |
| Compound.InsertAllLaterWins | src/nbt/compound.rs:53 | duplicate names keep the later value |
| Compound.InsertAllKeepsAbsent | src/nbt/compound.rs:53 | a name no pair carries keeps its old value or stays absent |
| Compound.InsertAllCount | src/nbt/compound.rs:49-56 | distinct new names each add exactly one entry |
| Compound.InsertAllSingle | src/nbt/compound.rs:49-56 | the only distinct-name pairs that build a one-entry map are that one pair |
| Compound.FromValues | src/nbt/compound.rs:49-56 | `from_values` is the empty map with each pair inserted in turn |
| Compound.FromValuesLaterWins | src/nbt/compound.rs:49-56 | `from_values` keeps, for each name, the value of its last occurrence |
| Compound.GetByte | src/nbt/compound.rs:58-60 | `Some` exactly for a present `Byte`, with its value |
| Compound.GetShort | src/nbt/compound.rs:62-66 | `Some` exactly for a present `Short`, with its value |
| Compound.GetInt | src/nbt/compound.rs:68-70 | `Some` exactly for a present `Int`, with its value |
| Compound.GetLong | src/nbt/compound.rs:72-74 | `Some` exactly for a present `Long`, with its value |
| Compound.GetFloat | src/nbt/compound.rs:76-80 | `Some` exactly for a present `Float`, with its bit pattern |
| Compound.GetDouble | src/nbt/compound.rs:82-86 | `Some` exactly for a present `Double`, with its bit pattern |
| Compound.GetBool | src/nbt/compound.rs:88-90 | `Some` exactly for a present `Byte`, true exactly when it is nonzero |
| Compound.GetString | src/nbt/compound.rs:92-96 | `Some` exactly for a present `String`, with its text |
| Compound.GetList | src/nbt/compound.rs:98-100 | `Some` exactly for a present `List`, with its items |
| Compound.GetCompound | src/nbt/compound.rs:102-106 | `Some` exactly for a present `Compound`, with it |
| Compound.GetIntArray | src/nbt/compound.rs:108-112 | `Some` exactly for a present `IntArray`, with its elements |
| Compound.GetLongArray | src/nbt/compound.rs:114-118 | `Some` exactly for a present `LongArray`, with its elements |
| Compound.GetMissOrMismatch | src/nbt/compound.rs:58-118 | a missing name and a tag of another variant both give `None` |
| Codec.Payload | src/nbt/tag.rs:32-75 | defines the bytes `serialize_raw` writes for a tree, the layouts every writer and round trip is stated in; it writes nothing exactly for `End` |
| Codec.NamedBytes | src/nbt/tag.rs:86-92 | defines the bytes of `serialize_named`: the id, the framed name, the payload |
| Codec.CompoundBytes | src/nbt/compound.rs:40-47 | defines the bytes of `NbtCompound::serialize`: every entry named, then one `END` byte |
| Codec.TagBytes | src/nbt/tag.rs:78-83 | defines the bytes of `serialize_tag`: the id, then the payload |
| Codec.Forget | src/nbt/tag.rs:42-72 | the tag a written tree stands for has the id the tree was written with |
| Codec.ForgetAll | src/nbt/tag.rs:54-56 | the list's tags, one per written element, in order |
| Codec.ForgetEntries | src/nbt/compound.rs:42-44 | one (name, tag) pair per written entry, in write order |
| Codec.ParseTag | src/nbt/tag.rs:94-97 | `deserialize` panics on an empty input; a decoded tag has the id of the first byte and consumes at least that byte; its only error is `UnknownTagId`, returned after the id for an id above 12 |
| Codec.ParsePayload | src/nbt/tag.rs:99-165 | `deserialize_raw` never grows the input; a decoded tag has the id asked for; the only error is `UnknownTagId` for an id above 12, returned without reading |
| Codec.ParseListPayload | src/nbt/tag.rs:133-143 | the list arm yields a `List` or propagates an element's `UnknownTagId` |
| Codec.ParseScalar | src/nbt/tag.rs:101-125 | the fixed-width arms never fail with an error, only panic on a short input, and decode a tag of the asked id |
| Codec.ParseFlat | src/nbt/tag.rs:126-163 | the array and string arms decode a tag of the asked id or panic; they fail exactly for an unknown id, with `UnknownTagId` |
| Codec.ParseList | src/nbt/tag.rs:137-141 | the element loop yields a `List` or propagates an element's error |
| Codec.ParseEntries | src/nbt/compound.rs:17-38 | the compound loop never returns an error |
| Codec.ParseCompound | src/nbt/compound.rs:17-38 | `NbtCompound::deserialize` never returns an error |
| Codec.ParseInts | src/nbt/tag.rs:148-151 | the int-array loop never returns an error |
| Codec.ParseLongs | src/nbt/tag.rs:157-160 | the long-array loop never returns an error |
| CodecProofs.PayloadRoundTrip | src/nbt/tag.rs:99-165 | `deserialize_raw(serialize_raw(t), t.id())` gives t back and consumes exactly its bytes, for an encodable value (strings and names valid Java CESU-8 under 2^16 bytes, counts below 2^31, lists of one element id, no `End` compound child) |
| CodecProofs.ListPayloadRoundTrip | src/nbt/tag.rs:133-143 | a list payload reads back as its elements, in order |
| CodecProofs.ScalarRoundTrip | src/nbt/tag.rs:101-125 | every fixed-width payload reads back unchanged |
| CodecProofs.FlatRoundTrip | src/nbt/tag.rs:126-162 | every array and string payload reads back unchanged |
| CodecProofs.ByteArrayRoundTrip | src/nbt/tag.rs:126-131 | a byte array reads back unchanged |
| CodecProofs.IntArrayRoundTrip | src/nbt/tag.rs:145-153 | an int array reads back unchanged |
| CodecProofs.LongArrayRoundTrip | src/nbt/tag.rs:154-162 | a long array reads back unchanged |
| CodecProofs.ListRoundTrip | src/nbt/tag.rs:137-141 | the list loop reads back every element payload, in order |
| CodecProofs.ParseListStep | src/nbt/tag.rs:137-141 | one turn of the list loop appends one decoded element |
| CodecProofs.EntriesRoundTrip | src/nbt/compound.rs:20-33 | the compound loop reads back every written entry and stops at the `END` byte, for well-formed entries (names valid Java CESU-8 under 2^16 bytes, no `End` child, every value encodable) |
| CodecProofs.ParseEntriesStep | src/nbt/compound.rs:21-29 | one turn of the compound loop inserts the decoded child under its name |
| CodecProofs.IntsRoundTrip | src/nbt/tag.rs:148-151 | the int-array loop reads back every element, in order |
| CodecProofs.LongsRoundTrip | src/nbt/tag.rs:157-160 | the long-array loop reads back every element, in order |
| CodecProofs.TagRoundTrip | src/nbt/tag.rs:94-97 | `deserialize(serialize_tag(t))` gives t back, for an encodable value (strings and names valid Java CESU-8 under 2^16 bytes, counts below 2^31, lists of one element id, no `End` compound child) |
| CodecProofs.CompoundRoundTrip | src/nbt/compound.rs:17-47 | `deserialize(serialize(c))` gives back the map the entries were written from, for well-formed entries (names valid Java CESU-8 under 2^16 bytes, no `End` child, every value encodable) |
| CodecProofs.CompoundOrderIrrelevant | src/nbt/compound.rs:42-44 | two enumerations of the same map decode to the same compound, so the HashMap order does not matter to the reader, for well-formed entries (names valid Java CESU-8 under 2^16 bytes, no `End` child, every value encodable) |
| CodecProofs.UnknownChildEndsCompound | src/nbt/compound.rs:28-32 | a child with an unknown id ends the compound with the entries so far and no error |
| CodecProofs.EmptyInputEndsCompound | src/nbt/compound.rs:20-24 | an empty input ends the compound as an `END` byte does |
| CodecProofs.EmptyListLayout | src/nbt/tag.rs:51-57 | an empty list is written `00 00000000` |
| CodecProofs.LongLayoutExample | tests/tag.rs:10-14 | `Long(2137)` is written as its eight big-endian bytes |
| CodecProofs.StringLayoutExample | tests/tag.rs:4-8 | `String("How are you?")` is written `00 0C` and the twelve ASCII bytes |
| CodecProofs.ListHeaderCarriesElementId | src/nbt/tag.rs:52 | a nonempty homogeneous list is written with its elements' id |
| CodecProofs.DecodedIdMatches | src/nbt/tag.rs:139 | every decoded tag has the id it was asked for, so the list's `assert_eq!` never fires |
| CodecProofs.PayloadsAppend | src/nbt/tag.rs:54-56 | one more element appends its payload |
| CodecProofs.EntriesBytesAppend | src/nbt/compound.rs:42-44 | one more entry appends its named bytes |
| CodecProofs.IntsBytesAppend | src/nbt/tag.rs:63-65 | one more int appends its four bytes |
| CodecProofs.LongsBytesAppend | src/nbt/tag.rs:69-71 | one more long appends its eight bytes |
| TagIo.SerializeString | src/nbt/tag.rs:46-50 | the string arm writes the framed string, which `get_nbt_string` reads back when valid |
| TagIo.SerializeRaw | src/nbt/tag.rs:32-75 | `serialize_raw` writes the payload of a tree that stands for t, and that tree is well formed when t is encodable |
| TagIo.SerializeInts | src/nbt/tag.rs:63-65 | the int-array loop writes each element as four big-endian bytes, in order |
| TagIo.SerializeLongs | src/nbt/tag.rs:69-71 | the long-array loop writes each element as eight big-endian bytes, in order |
| TagIo.SerializeList | src/nbt/tag.rs:51-57 | the list arm writes the first element's id (`End` when empty), the i32 count and every payload |
| TagIo.ListWrittenStep | src/nbt/tag.rs:54-56 | one turn of the list loop keeps the written bytes equal to the header and the payloads so far |
| TagIo.ListWrittenComplete | src/nbt/tag.rs:51-57 | after the loop the bytes are the list's payload |
| TagIo.SerializeNamed | src/nbt/tag.rs:86-92 | `serialize_named` writes the id, the name as a string payload, then the payload |
| TagIo.SerializeTag | src/nbt/tag.rs:78-83 | `serialize_tag` writes the id, then the payload |
| TagIo.SerializeCompound | src/nbt/compound.rs:40-47 | `serialize` writes every entry of the map exactly once, in some order, named, then one `END` byte |
| TagIo.EnumerationStep | src/nbt/compound.rs:42-44 | enumerating one more name keeps the entries written equal to the map of the names done |
| TagIo.Deserialize | src/nbt/tag.rs:94-97 | `deserialize` advances the buffer as `ParseTag` says |
| TagIo.DeserializeRaw | src/nbt/tag.rs:99-165 | `deserialize_raw` advances the buffer as `ParsePayload` says |
| TagIo.DeserializeScalar | src/nbt/tag.rs:101-125 | the fixed-width arms advance the buffer as `ParseScalar` says |
| TagIo.DeserializeFlat | src/nbt/tag.rs:126-163 | the array, string and unknown-id arms advance the buffer as `ParseFlat` says |
| TagIo.DeserializeList | src/nbt/tag.rs:133-143 | the list arm advances the buffer as `ParseListPayload` says |
| TagIo.DeserializeCompound | src/nbt/compound.rs:17-38 | `NbtCompound::deserialize` advances the buffer as `ParseCompound` says and never errs |
| TagIo.TagRoundTripThroughBuf | src/nbt/tag.rs:78-97 | `deserialize(serialize_tag(t))` through the buffer methods gives t back and leaves nothing, for an encodable value (strings and names valid Java CESU-8 under 2^16 bytes, counts below 2^31, lists of one element id, no `End` compound child) |
| TagIo.CompoundRoundTripThroughBuf | src/nbt/compound.rs:17-47 | a compound encoded in whatever order the map yields decodes to the same map, for well-formed entries (names valid Java CESU-8 under 2^16 bytes, no `End` child, every value encodable) |
| NbtDoc.FromCompound | src/nbt.rs:101-105 | `From<NbtCompound>` gives the compound under the empty name |
| NbtDoc.UnnamedDropsName | src/nbt.rs:65-85 | `write_unnamed`'s output is `write`'s with the two length bytes and the name itself left out, and otherwise identical |
| NbtDoc.Write | src/nbt.rs:65-71 | `write` emits `0x0A`, the name's string payload, then the compound's bytes for some enumeration of its map |
| NbtDoc.WriteUnnamed | src/nbt.rs:80-85 | `write_unnamed` emits `0x0A`, then the compound's bytes, with no name field |
| NbtDoc.ParseNamed | src/nbt.rs:29-40 | `read` panics on an empty input, returns `NoRootCompound(b)` for a first byte b other than 10, propagates `InvalidJavaString` from the name, and fails in no other way |
| NbtDoc.ParseUnnamed | src/nbt.rs:48-59 | `read_unnamed` panics on an empty input, fails exactly with `NoRootCompound(b)` for a first byte b other than 10, and gives the empty name |
| NbtDoc.Read | src/nbt.rs:29-40 | the imperative `read` advances the buffer as `ParseNamed` says |
| NbtDoc.ReadUnnamed | src/nbt.rs:48-59 | the imperative `read_unnamed` advances the buffer as `ParseUnnamed` says |
| NbtDoc.NamedRoundTrip | src/nbt.rs:29-71 | `read(write(n))` gives back the name and the map, whatever order the entries were written in, for a valid name and well-formed entries (names valid Java CESU-8 under 2^16 bytes, no `End` child, every value encodable) |
| NbtDoc.UnnamedRoundTrip | src/nbt.rs:48-85 | `read_unnamed(write_unnamed(n))` gives back the map under the empty name, for well-formed entries (names valid Java CESU-8 under 2^16 bytes, no `End` child, every value encodable) |
| NbtDoc.NamedRoundTripThroughBuf | src/nbt.rs:29-71 | writing a document and reading it back through a buffer gives it back and consumes every byte, for a valid name and well-formed entries (names valid Java CESU-8 under 2^16 bytes, no `End` child, every value encodable) |
| NbtDoc.UnnamedRoundTripThroughBuf | src/nbt.rs:48-85 | the network framing loses the name and nothing else, so a document with the empty name comes back equal, for well-formed entries (names valid Java CESU-8 under 2^16 bytes, no `End` child, every value encodable) |
| NbtDoc.WorldSurfaceLayout | tests/tag.rs:45-53 | the heightmap `{WORLD_SURFACE: []}` is written `0A 0C 00 0D "WORLD_SURFACE" 00000000 00` |
| NbtDoc.WorldSurfaceName | src/nbt/tag.rs:46-50 | the name `WORLD_SURFACE` is framed with the length `00 0D` |
| NbtDoc.EmptyLongArrayPayload | src/nbt/tag.rs:67-72 | an empty long array is written as the count `00000000` alone |
| NbtDoc.WorldSurfaceExample | tests/tag.rs:45-53 | `write_unnamed` of the heightmap returns exactly those bytes |
| RootNbt.ParseRoot | src/nbt/root_nbt.rs:22-38 | `read(bytes, is_network)` panics on an empty input, fails exactly with `NoRootCompound(b)` for a first byte b other than 10, gives the empty name when `is_network`, and otherwise panics on an invalid name (`unwrap`) |
| RootNbt.Read | src/nbt/root_nbt.rs:22-38 | the imperative `read` advances the buffer as `ParseRoot` says |
| RootNbt.ReadersAgree | src/nbt/root_nbt.rs:22-38 | the flag-driven reader agrees with `read_unnamed`, and with `read` whenever the name is valid |
| RootNbt.NamedRootRoundTrip | src/nbt/root_nbt.rs:22-47 | `read(write(n), false)` gives n back, for a valid name and well-formed entries (names valid Java CESU-8 under 2^16 bytes, no `End` child, every value encodable) |
| RootNbt.UnnamedRootRoundTrip | src/nbt/root_nbt.rs:22-56 | `read(write_unnamed(n), true)` gives n back under the empty name, for well-formed entries (names valid Java CESU-8 under 2^16 bytes, no `End` child, every value encodable) |
| RootNbt.RootRoundTripThroughBuf | src/nbt/root_nbt.rs:22-56 | both framings, written and read through a buffer with the matching flag, give the document back (the name emptied in the network framing) and consume every byte, for a valid name and well-formed entries (names valid Java CESU-8 under 2^16 bytes, no `End` child, every value encodable) |
| Ser.Prefix | src/serde/ser.rs:31-53 | what `parse_state(tag)` writes: nothing exactly at a map key, a later list element or the root, and otherwise bytes starting with the tag id |
| Ser.ParseStateF | src/serde/ser.rs:31-53 | `parse_state(tag)` keeps the state and only appends; it is a `SerdeError` exactly at the root or for a non-string map key, and writes nothing then |
| Ser.ScalarStep | src/serde/ser.rs:118-168 | `serialize_i8` … `serialize_f64` succeed exactly when `parse_state` does, and then write its prefix followed by the big-endian payload |
| Ser.StrStep | src/serde/ser.rs:174-184 | a string as a map key writes nothing and becomes the name of the next value; anywhere else it is a `String` tag |
| Ser.ArrayId | src/serde/ser.rs:266-275 | exactly `"byte"`, `"int"` and `"long"` name an array type, and they map to ids 7, 11 and 12 |
| Ser.SeqBegin | src/serde/ser.rs:257-296 | an unknown length is a `SerdeError`; a typed array moves to `ListElement`, a list to `FirstListElement` with the count as i32 |
| Ser.StructBegin | src/serde/ser.rs:325-348 | corrected `serialize_struct`: keeps the state, succeeds in every state but `MapKey` and `Array` (which panic), and a later list element writes nothing before its fields |
| Ser.StructBeginAsWritten | src/serde/ser.rs:325-348 | `serialize_struct` as written: the compound id first, success only at the root, under a name or as a first list element, and a panic otherwise |
| Ser.StructEnd | src/serde/ser.rs:395-398 | the struct and map `end` append exactly one `END` byte |
| Ser.KeyBegin | src/serde/ser.rs:405-415 | corrected `serialize_key`: moves to `MapKey` and writes nothing |
| Ser.KeyBeginAsWritten | src/serde/ser.rs:409-413 | `serialize_key` as written: in `FirstListElement` it appends the list count again |
| Ser.Emit | src/serde/ser.rs:100-363 | (corrected serializer, see ## Findings) driving the serializer with any value only appends to the output |
| Ser.ElementStep | src/serde/ser.rs:369-376 | `serialize_element` writes the element and leaves the `ListElement` state on success |
| Ser.FieldStep | src/serde/ser.rs:387-393 | `serialize_field` writes the value under the field name and only appends |
| Ser.EntryStep | src/serde/ser.rs:405-422 | (corrected serializer, see ## Findings) `serialize_entry` is `serialize_key` then `serialize_value`, and only appends |
| Ser.ToBytesF | src/serde/ser.rs:57-89 | (corrected serializer, see ## Findings) `to_bytes`/`to_bytes_unnamed` succeed exactly when driving a fresh `Root` serializer does, and return its output |
| Ser.Serializer.constructor | src/serde/ser.rs:61-64 | a new serializer has an empty output and the given state |
| Ser.Serializer.ParseState | src/serde/ser.rs:31-53 | the method changes the fields as `ParseStateF` says |
| Ser.Serializer.SerializeScalar | src/serde/ser.rs:118-168 | the numeric callbacks change the fields as `ScalarStep` says |
| Ser.Serializer.SerializeBool | src/serde/ser.rs:113-116 | `serialize_bool(v)` is `serialize_i8` of 0 or 1 |
| Ser.Serializer.SerializeStr | src/serde/ser.rs:174-184 | `serialize_str` changes the fields as `StrStep` says |
| Ser.Serializer.SerializeNewtypeVariant | src/serde/ser.rs:226-255 | `serialize_newtype_variant` changes the fields as `Emit` says: not `nbt_array` or not `Named` is a `SerdeError`, else the content is written in the `Array` state |
| Ser.Serializer.SerializeSeq | src/serde/ser.rs:257-296 | `serialize_seq` changes the fields as `SeqBegin` says |
| Ser.Serializer.SerializeElement | src/serde/ser.rs:369-376 | `serialize_element` changes the fields as `ElementStep` says |
| Ser.Serializer.SerializeStruct | src/serde/ser.rs:325-348 | corrected `serialize_struct` changes the fields as `StructBegin` says |
| Ser.Serializer.SerializeField | src/serde/ser.rs:387-393 | `serialize_field` changes the fields as `FieldStep` says |
| Ser.Serializer.StructEndM | src/serde/ser.rs:395-398 | `end` changes the fields as `StructEnd` says |
| Ser.Serializer.SerializeKey | src/serde/ser.rs:405-415 | corrected `serialize_key` changes the fields as `KeyBegin` and the key's callback say |
| Ser.Serializer.SerializeEntry | src/serde/ser.rs:405-422 | (corrected serializer, see ## Findings) `serialize_entry` changes the fields as `EntryStep` says |
| Ser.Serializer.Serialize | src/serde/ser.rs:100-363 | (corrected serializer, see ## Findings) `value.serialize(self)` changes the fields as `Emit` says, for every value |
| Ser.Serializer.SerializeSeqOf | src/serde/ser.rs:365-381 | (corrected serializer, see ## Findings) a sequence's `serialize_seq`, elements and `end` change the fields as `Emit` says |
| Ser.Serializer.SerializeMapOf | src/serde/ser.rs:401-428 | (corrected serializer, see ## Findings) a map's `serialize_map`, entries and `end` change the fields as `Emit` says |
| Ser.Serializer.SerializeStructOf | src/serde/ser.rs:383-399 | (corrected serializer, see ## Findings) a struct's `serialize_struct`, fields and `end` change the fields as `Emit` says |
| Ser.ToBytes | src/serde/ser.rs:79-89 | (corrected serializer, see ## Findings) `to_bytes(value, name)` returns what `ToBytesF` says for `Root(Some(name))` |
| Ser.ToBytesUnnamed | src/serde/ser.rs:57-67 | (corrected serializer, see ## Findings) `to_bytes_unnamed(value)` returns what `ToBytesF` says for `Root(None)` |
| NbtTypes.TagValue | src/serde/nbt_types.rs:5-54 | `NbtTag::serialize` presents a compound exactly as a map, the four array and list variants exactly as sequences, and every sequence with its true length |
| NbtTypes.CompoundValue | src/serde/nbt_types.rs:130-141 | `NbtCompound::serialize` presents a map of one string-keyed entry per child, in the given order |
| NbtTypes.TagValues | src/serde/nbt_types.rs:27-34 | a list presents one element per item, in order |
| NbtTypes.TagEntries | src/serde/nbt_types.rs:136-140 | a compound presents one string-keyed entry per child |
| NbtTypes.ByteValues | src/serde/nbt_types.rs:18-25 | a byte array presents one `u8` per byte, each of which reaches the refused `serialize_u8` |
| NbtTypes.IntValues | src/serde/nbt_types.rs:36-43 | an int array presents one `i32` per element, in order |
| NbtTypes.LongValues | src/serde/nbt_types.rs:44-51 | a long array presents one `i64` per element, in order |
| NbtTypes.TagOfVisit | src/serde/nbt_types.rs:63-124 | `visit_bool(b)` gives `Byte(b as i8)`; exactly the sequence calls give a `List`, of their elements in order |
| SerProofs.ImageOfNoArrays | src/serde/nbt_types.rs:36-51 | a tree with no int or long arrays is written by serde exactly as by `serialize_raw` |
| SerProofs.ImageWellFormed | src/serde/nbt_types.rs:36-51 | what serde writes for a tree is readable, has no arrays, and keeps every id but the arrays', which become `List` |
| SerProofs.EmitLayout | src/serde/nbt_types.rs:10-53 | (corrected serializer, see ## Findings) from a value state, `NbtTag::serialize` succeeds and writes the state's framing followed by the NBT payload of the tree with arrays as lists |
| SerProofs.ScalarLayout | src/serde/nbt_types.rs:12-26 | a scalar or a string writes the state's prefix for its id, then its payload, keeping the state |
| SerProofs.SeqBeginList | src/serde/ser.rs:280-292 | `serialize_seq(Some(n))` in a value state writes the list prefix, and the `End` id and a zero count when n = 0 |
| SerProofs.ListLayout | src/serde/nbt_types.rs:27-34 | (corrected serializer, see ## Findings) a list is written as its header for the state, the element id and count, then each element's payload |
| SerProofs.EmptyListEmit | src/serde/ser.rs:283-291 | an empty list writes its header, the `End` id and a zero count, and leaves `FirstListElement(0)` |
| SerProofs.ListEmit | src/serde/ser.rs:289-291 | a nonempty list writes its header and waits in `FirstListElement` for its first element |
| SerProofs.ListParts | src/serde/nbt_types.rs:27-34 | a list is presented as a sequence of known length of its items |
| SerProofs.ListPayload | src/nbt/tag.rs:51-57 | a list payload is the element id, the count, then the elements' payloads |
| SerProofs.FirstElementStep | src/serde/ser.rs:38-41 | the first element writes its id, the count and its payload, and the next one is a later element |
| SerProofs.NextElementStep | src/serde/ser.rs:49 | a later element writes its payload alone |
| SerProofs.ElementsFirst | src/serde/ser.rs:369-376 | of a list's elements, the first writes its id and the count, the others their payloads alone |
| SerProofs.ElementsRest | src/serde/ser.rs:369-376 | later elements write exactly their payloads, in order |
| SerProofs.IntArrayLayout | src/serde/nbt_types.rs:36-43 | an `IntArray` tag is written by serde as the list of its ints |
| SerProofs.EmptyIntEmit | src/serde/nbt_types.rs:36-43 | an empty int array is written as an empty list |
| SerProofs.IntArrayEmit | src/serde/nbt_types.rs:36-43 | a nonempty int array writes a list header and goes on to its first element |
| SerProofs.IntArrayParts | src/serde/nbt_types.rs:36-43 | an int array is presented as a sequence of known length of `i32`s |
| SerProofs.IntsFirst | src/serde/ser.rs:369-376 | the first int writes the `Int` id, the count and its four bytes |
| SerProofs.IntsRest | src/serde/ser.rs:369-376 | later ints write their four bytes alone |
| SerProofs.IntImagePayload | src/nbt/tag.rs:51-57 | the list of ints is written with the `Int` id (`End` when empty), the count and the ints |
| SerProofs.IntImage | src/serde/nbt_types.rs:36-43 | the tree serde writes for an int array is the list of its ints |
| SerProofs.IntPayloads | src/nbt/tag.rs:63-65 | the payloads of `Int` tags are the int array's element bytes |
| SerProofs.LongArrayLayout | src/serde/nbt_types.rs:44-51 | a `LongArray` tag is written by serde as the list of its longs |
| SerProofs.EmptyLongEmit | src/serde/nbt_types.rs:44-51 | an empty long array is written as an empty list |
| SerProofs.LongArrayEmit | src/serde/nbt_types.rs:44-51 | a nonempty long array writes a list header and goes on to its first element |
| SerProofs.LongArrayParts | src/serde/nbt_types.rs:44-51 | a long array is presented as a sequence of known length of `i64`s |
| SerProofs.LongsFirst | src/serde/ser.rs:369-376 | the first long writes the `Long` id, the count and its eight bytes |
| SerProofs.LongsRest | src/serde/ser.rs:369-376 | later longs write their eight bytes alone |
| SerProofs.LongImagePayload | src/nbt/tag.rs:51-57 | the list of longs is written with the `Long` id (`End` when empty), the count and the longs |
| SerProofs.LongImage | src/serde/nbt_types.rs:44-51 | the tree serde writes for a long array is the list of its longs |
| SerProofs.LongPayloads | src/nbt/tag.rs:69-71 | the payloads of `Long` tags are the long array's element bytes |
| SerProofs.StructPrefixIsPrefix | src/serde/ser.rs:325-341 | in a value state `serialize_struct` writes what `parse_state` would for a compound |
| SerProofs.MapLayout | src/serde/ser.rs:320-323 | (corrected serializer, see ## Findings) `serialize_map` writes the state's struct header, the entries, then `END` once they all succeed |
| SerProofs.CompoundLayout | src/serde/nbt_types.rs:130-142 | (corrected serializer, see ## Findings) a compound, at the root or as a value, writes the `serialize_struct` framing, every entry named, then `END` |
| SerProofs.CompoundParts | src/serde/nbt_types.rs:136-140 | a compound is presented as a map of its entries |
| SerProofs.CompoundPayload | src/nbt/compound.rs:40-47 | a compound payload is its entries' bytes followed by `END` |
| SerProofs.EntriesEmit | src/serde/nbt_types.rs:137-139 | (corrected serializer, see ## Findings) each `serialize_entry` writes its child as a named tag, whatever the state before |
| SerProofs.EntryFrom | src/serde/ser.rs:405-422 | the first entry writes a named tag, and the next starts from the state it leaves |
| SerProofs.KeyNames | src/serde/ser.rs:174-179 | a string key in `MapKey` writes nothing and names the value |
| SerProofs.NamedLayoutBytes | src/serde/ser.rs:33-37 | a value in the `Named` state is laid out as `serialize_named` lays it out |
| SerProofs.RootOutput | src/serde/ser.rs:57-89 | `to_bytes` gives the output of a value written successfully from the root |
| SerProofs.UnnamedLayout | src/serde/ser.rs:57-67 | (corrected serializer, see ## Findings) `to_bytes_unnamed` of a compound is `write_unnamed` of that compound with arrays as lists |
| SerProofs.NamedLayout | src/serde/ser.rs:79-89 | (corrected serializer, see ## Findings) `to_bytes(c, name)` is `write` of that compound under the name, with arrays as lists |
| SerProofs.RootFraming | src/serde/ser.rs:329-334 | the root header `serialize_struct` writes is the one `write` and `write_unnamed` write |
| SerProofs.ImageEntriesWellFormed | src/serde/nbt_types.rs:136-140 | every child serde writes can be read back |
| SerProofs.WriteThenReadUnnamed | src/serde/ser.rs:57-67 | (corrected serializer, see ## Findings) `read_unnamed(to_bytes_unnamed(c))` gives c with its arrays turned into lists |
| SerProofs.ImageCompound | src/nbt/compound.rs:49-56 | the compound serde's tree stands for is the map the readers build |
| SerProofs.WriteThenReadNamed | src/serde/ser.rs:79-89 | (corrected serializer, see ## Findings) `read(to_bytes(c, name))` gives c under that name with its arrays turned into lists |
| SerProofs.IntArrayBecomesList | src/serde/nbt_types.rs:36-43 | an int array comes back from the bytes as a list of ints, which differs from the int array |
| Arrays.VariantName | src/serde/arrays.rs:31-33 | each wrapper's variant name is the one the serializer maps to its array id (int 11, long 12, byte 7) |
| Arrays.Wrap | src/serde/arrays.rs:12-18 | `serialize` is the `nbt_array` newtype variant around the input, with the wrapper's variant name |
| Arrays.I8Values | src/serde/ser.rs:118-122 | a `Vec<i8>` presents one `serialize_i8` per element |
| Arrays.I8sAsU8 | src/nbt/tag.rs:19 | the bytes a `ByteArray` holds for the `i8`s, element by element |
| Arrays.IntArrayField | src/serde/arrays.rs:31 | a named `IntArray` field writes exactly the `IntArray` tag (id 11) of its elements under that name |
| Arrays.LongArrayField | src/serde/arrays.rs:32 | a named `LongArray` field writes exactly the `LongArray` tag (id 12) under that name |
| Arrays.BytesArrayField | src/serde/arrays.rs:33 | a named `BytesArray` field of `i8`s writes exactly the `ByteArray` tag (id 7) of their bytes |
| Arrays.UnsignedBytesRefused | src/serde/ser.rs:142-144 | a `BytesArray` over `u8`s writes the array header, then fails with `UnsupportedType("u8")` |
| Arrays.UnknownArrayType | src/serde/ser.rs:266-275 | any other variant name is refused when the sequence begins, with nothing written |
| Arrays.IntArrayStruct | src/serde/arrays.rs:31 | the struct `{ name: IntArray(xs) }` is written as the document whose only child is the `IntArray` xs, and reads back as it |
| Arrays.LongArrayStruct | src/serde/arrays.rs:32 | the struct `{ name: LongArray(xs) }` is written as the document whose only child is the `LongArray` xs, and reads back as it |
| Arrays.BytesArrayStruct | src/serde/arrays.rs:33 | the struct `{ name: BytesArray(xs) }` is written as the document whose only child is the `ByteArray` of their bytes, and reads back as it |
| Arrays.OneFieldStruct | src/serde/ser.rs:383-399 | a root struct whose one field writes one named tag is that tag's one-entry document |
| Arrays.WrappedSeq | src/serde/ser.rs:247-279 | the wrapper moves to the `Array` state, whose sequence writes the array id, the name and the count |
| Arrays.I8Byte | src/nbt/tag.rs:36 | an `i8` is written as the one byte of its two's-complement pattern |
| Arrays.BytesRest | src/serde/ser.rs:278 | inside the array each `i8` writes its byte and no prefix |
| SerCallbacks.ParsedTag | src/serde/ser.rs:118-184 | every value that reaches `parse_state` passes a known id other than `End` and `Compound` |
| SerCallbacks.RootRefusesValue | src/serde/ser.rs:50 | at the root, any value that reaches `parse_state` fails with "Invalid Serializer state!" |
| SerCallbacks.RootWritesNothing | src/serde/ser.rs:191-204 | `None` and `()` write nothing and succeed, even at the root |
| SerCallbacks.RootStructHeader | src/serde/ser.rs:326-334 | a root struct opens with `0x0A` and, in the named framing only, the root name |
| SerCallbacks.BoolIsByte | src/serde/ser.rs:113-116 | `serialize_bool(b)` is `serialize_i8` of 1 or 0 |
| SerCallbacks.NamedPrefix | src/serde/ser.rs:33-37 | in `Named`, `parse_state` writes the id and the framed name, and keeps the state |
| SerCallbacks.EmptySeqNamed | src/serde/ser.rs:283-291 | an empty named sequence writes the list id, the name, `End` and a zero count, and leaves `FirstListElement(0)` |
| SerCallbacks.SeqLengthRequired | src/serde/ser.rs:258-262 | `serialize_seq(None)` is refused before anything is written |
| SerCallbacks.StringKeyNames | src/serde/ser.rs:174-179 | a string map key writes nothing and names the value that follows |
| SerCallbacks.KeyMustBeString | src/serde/ser.rs:42-47 | any other key is refused with a message naming its tag id, with nothing written |
| SerCallbacks.IntKeyMessage | src/serde/ser.rs:44-46 | an `i32` key gives "Map key can only be string, not 3" |
| SerCallbacks.UnsupportedRefused | src/serde/ser.rs:142-358 | `u8`…`u64`, `char`, bytes, unit struct, newtype struct, tuples and struct variants fail with `UnsupportedType` of their name and write nothing |
| SerCallbacks.NewtypeOnlyArray | src/serde/ser.rs:236-240 | a newtype variant of any enum but `nbt_array` is refused |
| SerCallbacks.ArrayNeedsName | src/serde/ser.rs:242-245 | an `nbt_array` outside the `Named` state is refused |
| SerCallbacks.StructNeedsValueState | src/serde/ser.rs:342-344 | a struct or map as a map key or as an array's content panics |
| SerCallbacks.FieldEntries | src/serde/ser.rs:387-393 | the map entries with the field names as string keys |
| SerCallbacks.FieldIsEntry | src/serde/ser.rs:387-422 | `serialize_field(key, v)` and `serialize_entry(key, v)` with a string key do the same |
| SerCallbacks.FieldsAsEntries | src/serde/ser.rs:387-422 | a run of fields is written as the run of their string-keyed entries |
| SerCallbacks.StructAsMap | src/serde/ser.rs:320-323 | a struct is written exactly as the map from its field names to its values |
| SerCallbacks.OpenUrlEventBytes | tests/serde/unit_variant.rs:11-19 | the adjacently tagged `OpenUrl("test")` is written `0A 08 0006"action" 0008"open_url" 08 0005"value" 0004"test" 00` |
| SerCallbacks.StructLayout | src/serde/ser.rs:395-398 | a struct whose header and fields are written is closed by one `END` byte |
| SerCallbacks.SecondCompoundAsWritten | src/serde/ser.rs:342-344 | as written, a compound that is a later list element panics, whatever the first element was; corrected, it writes nothing before its fields |
| SerCallbacks.MapInListAsWritten | src/serde/ser.rs:409-411 | as written, a map that is a list's first element has the list count written twice; corrected, once |
| SerCallbacks.KeyAfterEmptySeqAsWritten | src/serde/ser.rs:409-411 | as written, an entry after a value that is an empty sequence starts with four spurious zero bytes; corrected, none |
| De.New | src/serde/de.rs:23-31 | a new deserializer reads the whole input, remembers no tag and expects a key first |
| De.PayloadConsumes | src/nbt/tag.rs:99-165 | the payload decoder of `End` reads nothing, and a successful decode of any other flat tag consumes at least one byte |
| De.IdentifierF | src/serde/de.rs:182-188 | `deserialize_identifier` succeeds exactly when `get_nbt_string` does, with its string and the bytes after it (at least two consumed), and changes nothing but the input |
| De.VisitOfTag | src/serde/de.rs:97-121 | the visitor call for a decoded tag: `NbtTagVisitor` gives every scalar and string tag back unchanged, and an array back as a list |
| De.AnyTagF | src/serde/de.rs:73-127 | `deserialize_any` with `NbtTagVisitor` consumes at least one byte when it succeeds, never grows the input and keeps the framing flag |
| De.TagListF | src/serde/de.rs:235-246 | `visit_seq` over `ListAccess` yields a `List` of exactly the count read, the elements read so far first, and keeps the framing flag |
| De.DeserializeMapF | src/serde/de.rs:149-168 | `deserialize_map` with `NbtCompoundVisitor` consumes at least one byte when it succeeds and keeps the framing flag |
| De.EntriesF | src/serde/de.rs:202-223 | `visit_map` over `CompoundAccess` ends, on success, having read the `END` id (remembered afterwards), and consumes at least that byte |
| De.DeserializeBoolF | src/serde/de.rs:129-140 | `deserialize_bool` panics with no tag remembered, answers false without reading for a tag other than `Byte`, and for a `Byte` reads one byte and answers whether it is nonzero |
| De.OptionTagF | src/serde/de.rs:142-147 | `deserialize_option` always visits `Some`: the tag read by `deserialize_any`, wrapped, with the same errors and the same input left |
| De.FromBytesF | src/serde/de.rs:35-41 | `from_bytes` reads a root compound in the named framing; an empty input panics and a first byte other than 10 is `NoRootCompound` of that byte, consumed |
| De.FromBytesUnnamedF | src/serde/de.rs:52-58 | `from_bytes_unnamed` reads a root compound in the network framing, with the same root errors |
| De.Deserializer.constructor | src/serde/de.rs:24-31 | the object's state is that of `New` on the buffer's contents |
| De.Deserializer.DeserializeIdentifier | src/serde/de.rs:182-188 | the imperative call ends in the state and with the result `IdentifierF` gives |
| De.Deserializer.DeserializeAny | src/serde/de.rs:73-127 | the imperative call, which recurses through lists and compounds, ends in the state and with the result `AnyTagF` gives |
| De.Deserializer.VisitTagSeq | src/serde/nbt_types.rs:105-114 | the element loop ends in the state and with the list `TagListF` gives |
| De.Deserializer.DeserializeMap | src/serde/de.rs:149-168 | the imperative call ends in the state and with the compound `DeserializeMapF` gives |
| De.Deserializer.VisitCompoundMap | src/serde/nbt_types.rs:158-167 | the entry loop ends in the state and with the compound `EntriesF` gives |
| De.Deserializer.DeserializeBool | src/serde/de.rs:129-140 | the imperative call ends in the state and with the result `DeserializeBoolF` gives |
| De.FromBytes | src/serde/de.rs:35-41 | returns what `FromBytesF` returns and leaves the buffer at the unread rest |
| De.FromBytesUnnamed | src/serde/de.rs:52-58 | returns what `FromBytesUnnamedF` returns and leaves the buffer at the unread rest |
| BoolSerde.InvalidType | src/serde/bool.rs:19-41 | a visitor call `BoolVisitor` does not implement is a serde custom error |
| BoolSerde.BoolOfVisit | src/serde/bool.rs:28-40 | `BoolVisitor` accepts exactly `visit_i8` and `visit_bool`, otherwise the invalid-type error; it answers true exactly for `visit_bool(true)` and `visit_i8(1)` |
| BoolSerde.AnyBoolF | src/serde/bool.rs:5-10 | `deserialize_bool` succeeds only for a non-key value with a `Byte` remembered, and never grows the input |
| BoolSerde.OptionBoolF | src/serde/bool.rs:12-17 | `deserialize_option_bool` is `deserialize_bool` with success wrapped in `Some`, the same errors and the same input left |
| BoolSerde.DeserializeBool | src/serde/bool.rs:5-10 | the imperative call ends in the state and with the result `AnyBoolF` gives |
| BoolSerde.DeserializeOptionBool | src/serde/bool.rs:12-17 | the imperative call ends in the state and with the result `OptionBoolF` gives |
| BoolSerde.ByteAsBool | src/serde/bool.rs:28-33 | a `Byte(x)` field read with `BoolVisitor` is `x == 1`, through a plain `bool` field and `extract_bool` it is `x != 0`; each read takes exactly the byte |
| BoolSerde.TwoIsNotTrue | src/serde/de.rs:133-137 | the byte 2 is false to `BoolVisitor` and true to `deserialize_bool` |
| BoolSerde.ZeroIsSomeFalse | src/serde/bool.rs:12-17 | a `Byte(0)` field read with `deserialize_option_bool` is `Some(false)`, the byte consumed and the tag cleared |
| BoolSerde.OtherTagRefused | src/serde/bool.rs:21-41 | every tag other than `Byte` and `End` is refused, and a compound without reading anything |
| BoolSerde.ByteDecodes | src/nbt/tag.rs:99-105 | the payload decoder on a `Byte` reads the one byte written for it |
| BoolSerde.I8ByteValue | src/nbt/tag.rs:36-40 | the byte written for an `i8` is nonzero exactly when the value is |
| DeProofs.AnyTagReadsPayload | src/serde/de.rs:73-127 | `deserialize_any` with the id of a readable tree remembered reads exactly its payload and gives its view, arrays as lists |
| DeProofs.FlatReads | src/serde/de.rs:97-126 | the same for a tag that is neither a list nor a compound |
| DeProofs.AnyTagOfFlat | src/serde/de.rs:97-126 | a decoded flat tag is handed to the visitor, and the remembered tag and key flag are cleared |
| DeProofs.VisitIsView | src/serde/nbt_types.rs:63-124 | the visitor's tag for a scalar is the scalar and for an array the list of its elements |
| DeProofs.ListReads | src/serde/de.rs:84-92 | a list is read as its element id, its count as `u32`, then each element, and gives the list of their views |
| DeProofs.AnyTagOfList | src/serde/de.rs:84-92 | with a readable list header, `deserialize_any` is the element loop from an empty list |
| DeProofs.CountAsU32 | src/serde/de.rs:86 | a count below 2^31, written as `i32`, has the same bytes as the `u32` that `get_u32` reads |
| DeProofs.ElementsRead | src/serde/de.rs:235-246 | the element loop reads each element with the element id remembered, in order, and appends their views |
| DeProofs.ElementsDone | src/serde/de.rs:239-241 | with no element left the loop ends with the list read so far and reads nothing |
| DeProofs.ElementTurn | src/serde/de.rs:243-245 | one turn of the element loop reads the first element's payload and appends its view |
| DeProofs.ListStep | src/serde/nbt_types.rs:109-112 | one turn of the element loop pushes the element `deserialize_any` returns |
| DeProofs.CompoundReads | src/serde/de.rs:93 | a compound value is read as its entries up to `END`, giving the compound of their views |
| DeProofs.AnyTagOfCompound | src/serde/nbt_types.rs:116-123 | a remembered compound id makes `deserialize_any` read the entries as a nested compound |
| DeProofs.EntriesRead | src/serde/de.rs:202-223 | the entry loop reads each entry's id, name and value, `put`s them in order and stops at the `END` byte |
| DeProofs.EntriesStep | src/serde/nbt_types.rs:163-165 | one turn of the entry loop `put`s the name and the tag read for it |
| DeProofs.UnnamedRootReads | src/serde/de.rs:52-58 | `from_bytes_unnamed::<NbtCompound>` of what `write_unnamed` writes gives the compound of the entries' views and leaves the rest |
| DeProofs.NamedRootReads | src/serde/de.rs:35-41 | `from_bytes::<NbtCompound>` of what `write` writes gives the same compound, the name skipped by its length |
| DeProofs.UnnamedRoot | src/serde/de.rs:153-157 | the network root is the compound id byte followed by the entries |
| DeProofs.NamedRoot | src/serde/de.rs:153-163 | the named root is the compound id byte, a `u16` length and that many bytes skipped, then the entries |
| DeProofs.RootNotCompound | src/serde/de.rs:154-157 | a first byte other than the compound id is `NoRootCompound` of that byte, consumed, in both framings |
| DeProofs.EmptyRootPanics | src/serde/de.rs:154 | empty input panics in both framings |
| DeProofs.RootTagIsIdentifier | src/serde/de.rs:77-80 | the deserializer starts as a key, so `from_bytes::<NbtTag>` reads a framed string as the root `String` tag and leaves the rest |
| DeProofs.EndListPanics | src/serde/de.rs:122 | a list of `End` elements makes `deserialize_any` panic at its first element |
| DeProofs.ViewOfNoArrays | src/serde/nbt_types.rs:63-124 | without arrays the tag read back is the tag itself |
| DeProofs.ViewOfImage | src/serde/nbt_types.rs:36-51 | the tree serde writes for a tag reads back as the tag itself would |
| DeProofs.ImageEntriesView | src/serde/nbt_types.rs:136-140 | the children serde writes read back as the children would |
| DeProofs.IntArrayImage | src/serde/nbt_types.rs:36-43 | an int array and the list of its ints read back alike |
| DeProofs.LongArrayImage | src/serde/nbt_types.rs:44-51 | a long array and the list of its longs read back alike |
| DeProofs.PlainHasNoEnd | src/serde/nbt_types.rs:10-53 | what serde can write has no `End` and no byte array |
| SerdeRoundTrip.ImageReadable | src/serde/nbt_types.rs:136-140 | every child serde writes is well formed and free of `End` |
| SerdeRoundTrip.UnnamedSerdeRoundTrip | src/serde/de.rs:52-58 | (corrected serializer, see ## Findings) `to_bytes_unnamed` of a compound succeeds and `from_bytes_unnamed` reads it back, every byte, with int and long arrays as lists |
| SerdeRoundTrip.NamedSerdeRoundTrip | src/serde/de.rs:35-41 | (corrected serializer, see ## Findings) the same through `to_bytes` with a name and `from_bytes` |
| SerdeRoundTrip.ViewEntriesOfNoArrays | src/serde/nbt_types.rs:158-167 | without arrays the entries read back are the entries written |
| SerdeRoundTrip.UnnamedIdentity | src/serde/de.rs:52-58 | (corrected serializer, see ## Findings) a compound without arrays comes back from `from_bytes_unnamed(to_bytes_unnamed(c))` as c, whatever order its children were written in |
| SerdeRoundTrip.NamedIdentity | src/serde/de.rs:35-41 | (corrected serializer, see ## Findings) the same for `from_bytes(to_bytes(c, name))` |
| SerdeRoundTrip.IntArrayComesBackAsList | src/serde/de.rs:110-113 | an int array field comes back as the list of its ints |

## Left out

- `usize` is taken as 64 bits wide and a slice as at most `isize::MAX` bytes long.
- SliceCursor.BinarySliceCursor.Skip: `usize` addition is taken overflow-checked, as in a debug build, so a `pos + n` of 2^64 or more panics; a release build wraps the position around instead, which is not modelled.
- NbtSliceCursor.BinarySliceCursor.Skip: likewise a `pos + amount` of 2^64 or more panics; a release build wraps the sum to a position below `pos`, and the skip then succeeds by moving backwards, which is not modelled.
- SliceCursor.BinarySliceCursor.Read: `len - pos` is taken overflow-checked, as in a debug build, so a failing read from a position past the end panics; a release build wraps the subtraction and returns `NotEnoughBytes` with `available` equal to `len - pos` modulo 2^64, which is not modelled. The same holds when `pos + count` overflows from a position past the end and the wrapped end lies above `len`; whenever `pos` is within the slice, an overflowing sum panics in both builds, as modelled.
- SliceCursor.BinarySliceCursor.ReadArray: reads through `read`, so its panic from a position past the end is likewise the debug build's; the release build's wrapped `NotEnoughBytes` is not modelled.
- SliceCursor.BinarySliceCursor.ReadU8: reads through `read`, so its panic from a position past the end is likewise the debug build's; the release build's wrapped `NotEnoughBytes` is not modelled.
- SliceCursor.BinarySliceCursor.ReadU16Be: reads through `read`, so its panic from a position past the end is likewise the debug build's; the release build's wrapped `NotEnoughBytes` is not modelled.
- SliceCursor.BinarySliceCursor.ReadU32Be: reads through `read`, so its panic from a position past the end is likewise the debug build's; the release build's wrapped `NotEnoughBytes` is not modelled.
- SliceCursor.BinarySliceCursor.ReadI8: reads through `read`, so its panic from a position past the end is likewise the debug build's; the release build's wrapped `NotEnoughBytes` is not modelled.
- SliceCursor.BinarySliceCursor.ReadI16Be: reads through `read`, so its panic from a position past the end is likewise the debug build's; the release build's wrapped `NotEnoughBytes` is not modelled.
- SliceCursor.BinarySliceCursor.ReadI32Be: reads through `read`, so its panic from a position past the end is likewise the debug build's; the release build's wrapped `NotEnoughBytes` is not modelled.
- SliceCursor.BinarySliceCursor.ReadI64Be: reads through `read`, so its panic from a position past the end is likewise the debug build's; the release build's wrapped `NotEnoughBytes` is not modelled.
- SliceCursor.BinarySliceCursor.ReadF32Be: reads through `read`, so its panic from a position past the end is likewise the debug build's; the release build's wrapped `NotEnoughBytes` is not modelled.
- SliceCursor.BinarySliceCursor.ReadF64Be: reads through `read`, so its panic from a position past the end is likewise the debug build's; the release build's wrapped `NotEnoughBytes` is not modelled.
- CodecProofs.PayloadRoundTrip, CodecProofs.TagRoundTrip, CodecProofs.CompoundRoundTrip, CodecProofs.EntriesRoundTrip, CodecProofs.CompoundOrderIrrelevant, TagIo.TagRoundTripThroughBuf, TagIo.CompoundRoundTripThroughBuf, NbtDoc.NamedRoundTrip, NbtDoc.UnnamedRoundTrip, NbtDoc.NamedRoundTripThroughBuf, NbtDoc.UnnamedRoundTripThroughBuf, RootNbt.NamedRootRoundTrip, RootNbt.UnnamedRootRoundTrip and RootNbt.RootRoundTripThroughBuf hold only for encodable values (`Codec.WellFormed`, `Codec.WellFormedEntry`, `Codec.Encodable`), and outside them the source's own round trip fails: a string or name of 2^16 bytes or more has its length truncated by `len() as u16` (src/nbt/tag.rs:48), so the reader takes the wrong number of bytes; a length of 2^31 or more is written wrapped by `len() as i32` (src/nbt/tag.rs:43, 53, 62, 68); a list whose elements differ in id is written under the first element's id (src/nbt/tag.rs:52), so the later elements are read as that type; and an `End` child writes the id 0, which `deserialize` takes as the compound's terminator (src/nbt/compound.rs:22-24), so the compound ends early. Validity as Java CESU-8 always holds of a name or string encoded from a Rust `String`.
- Ser.Emit, Ser.ToBytesF, Ser.Serializer.SerializeStruct and Ser.Serializer.SerializeKey compose and follow the corrected serializer; no composed serializer with the as-written `serialize_struct` and `serialize_key` is modelled, so the layouts and serde round trips built on them do not state what the source as written produces for a list of two or more compounds (a panic), a compound as a list's first element (its count written twice) or an entry after an empty sequence (four stray zero bytes); the single as-written steps are `Ser.StructBeginAsWritten` and `Ser.KeyBeginAsWritten`, under "## Findings".
- CESU-8: strings are kept in their encoded form, so `to_java_cesu8` is the identity and `from_java_cesu8` is the well-formedness predicate `JavaCesu8.IsJavaCesu8`; the `cesu8` crate's own acceptance rule and the conversion to and from Rust `String` are not modelled.
- Floating point: `Float` and `Double` are carried as 32- and 64-bit patterns, copied verbatim; float arithmetic and NaN comparison are not modelled.
- I/O: `to_writer`, `to_writer_unnamed`, `from_cursor`, `from_cursor_unnamed`, `write_to_writer`, `write_unnamed_to_writer`, `read_from_cursor`, `read_unnamed_from_cursor`, `wrap_io_cursor` and the `Io` error variant are left out, because they only connect the codec to `std::io`.
- The serde framework itself (generic `Visitor` and `DeserializeSeed` types, `forward_to_deserialize_any!`, `Impossible`, `MapAccessDeserializer`, `SeqDeserializer`, derived impls of user structs): the serializer is driven by a `Ser.Value` of serde's data model, and only the visitors of `NbtTag`, `NbtCompound` and `BoolVisitor` are modelled.
- `ListAccess::size_hint` is left out: no modelled visitor asks for it.
- The wording of serde's `invalid_type` message is not modelled beyond the expected text `bool or i8`.
- The decode side has no typed arrays: `IntArray`, `LongArray` and `ByteArray` payloads come back through `NbtTagVisitor` as lists, and the model states this (`DeProofs.IntArrayImage`, `SerdeRoundTrip.IntArrayComesBackAsList`) rather than an array round trip.
- Through serde, `End` is written as a unit (nothing), and a `ByteArray`'s `u8` elements are refused; the serde round trip is therefore stated for trees without either.
- `de.rs` and `nbt.rs` call `deserialize_data`, `serialize_data`, `serialize_content` and `deserialize_content`, which `tag.rs` and `compound.rs` name `deserialize_raw`, `serialize_raw`, `serialize` and `deserialize`; the model takes each pair to be the same function.
- `id()` reads the enum discriminant through an `unsafe` cast of `self` to `*const u8`; it is modelled as a match that gives each variant its declared id.
- The doc comments of `from_bytes` and `from_bytes_unnamed` call the framings the other way round; the model follows the code, in which `from_bytes` expects the root name and `from_bytes_unnamed` does not.
- `from_bytes` skips the root name by its length and never checks it, so any bytes are accepted there; the model states this (`DeProofs.NamedRootReads`) and adds no check.
- A list of `End` elements, which `Nbt::read` accepts, makes `deserialize_any` panic (`DeProofs.EndListPanics`); this is a behaviour of the source, kept.
- The definition of `NbtCompound::put` is not part of this model; `put` is modelled as the `HashMap::insert` that `from_values` and `deserialize` perform, a later name overwriting an earlier one.
- `src/macros.rs`, the SNBT `Display`, `Debug`/`AsRef`/`AsMut`/`Deref` impls, the `thiserror` messages and `custom` conversions of `src/error.rs`, and `src/lib.rs` are left out as presentation and wiring.

## Findings

| source | as written | input that shows it | evidently intended | confidence | as-written member | corrected member |
|---|---|---|---|---|---|---|
| src/serde/ser.rs:325-348 | `serialize_struct` writes the compound id and then hits `unimplemented!()` in the `ListElement` state | a list of two compounds, such as an `NbtTag::List` of two `Compound`s or a `Vec` of two structs, serialized with `to_bytes_unnamed` | a compound after the first element of a list writes nothing before its fields, as the list element ids are already given by the list header | not executed | SerCallbacks.SecondCompoundAsWritten | Ser.StructBegin |
| src/serde/ser.rs:405-415 | `serialize_key` writes the list count again when the state is `FirstListElement` | a map as the first element of a list, whose count `serialize_struct` has already written; or a map entry after a field whose value is an empty sequence, which leaves the state at `FirstListElement(0)` | `serialize_key` writes nothing and moves to `MapKey` | not executed | SerCallbacks.MapInListAsWritten | Ser.KeyBegin |
