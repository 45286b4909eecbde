/**
 * `Nbt::read(bytes, is_network)` of `src/nbt/root_nbt.rs`: the older reader
 * that takes the framing as a flag. It differs from `NbtDoc.ParseNamed` in
 * one respect: a name that is not valid Java CESU-8 is unwrapped, so it
 * panics instead of being returned as an error. Its `write` and
 * `write_unnamed` emit the same bytes as those of `NbtDoc`.
 */
module RootNbt {
  import opened Numeric
  import opened Errors
  import opened ByteBuf
  import opened JavaCesu8
  import opened NbtUtils
  import opened Tag
  import opened Codec
  import opened CodecProofs
  import opened TagIo
  import opened NbtDoc

  /**
   * `read(bytes, is_network)`: the compound id byte (an empty input panics,
   * another byte is `NoRootCompound`), the name unless `is_network`, then
   * the compound content.
   */
  function ParseRoot(input: seq<u8>, isNetwork: bool): (r: Parse<Nbt>)
    ensures |input| == 0 ==> r.Panicked?
    ensures r.Failed? <==> |input| > 0 && input[0] != COMPOUND_ID
    ensures r.Failed? ==> r == Failed(NoRootCompound(input[0]), input[1..])
    ensures r.Done? && isNetwork ==> r.value.name == []
    ensures !isNetwork && |input| > 0 && input[0] == COMPOUND_ID && NbtString(input[1..]).Failed? ==> r.Panicked?
  {
    if |input| == 0 then Panicked
    else if input[0] != COMPOUND_ID then Failed(NoRootCompound(input[0]), input[1..])
    else
      var named := if isNetwork then Done([], input[1..]) else NbtString(input[1..]);
      match named
      case Done(name, afterName) =>
        (match ParseCompound(afterName)
         case Done(c, rest) => Done(Nbt(name, c), rest)
         case _ => Panicked)
      case _ => Panicked
  }

  method Read(buf: Buf, isNetwork: bool) returns (r: Result<Nbt>)
    modifies buf
    ensures Observe(r, buf.data) == ParseRoot(old(buf.data), isNetwork)
  {
    var tagTypeId := buf.GetU8();
    if !tagTypeId.Ok? {
      return Panic;
    }
    if tagTypeId.value != COMPOUND_ID {
      return Err(NoRootCompound(tagTypeId.value));
    }
    var compoundName: JavaString := [];
    if !isNetwork {
      var name := GetNbtString(buf);
      if !name.Ok? {
        return Panic;
      }
      compoundName := name.value;
    }
    var rootTag := DeserializeCompound(buf);
    if !rootTag.Ok? {
      return Panic;
    }
    return Ok(Nbt(compoundName, rootTag.value));
  }

  /** With a valid name, the flag-driven reader agrees with `NbtDoc`'s two readers. */
  lemma ReadersAgree(input: seq<u8>)
    ensures ParseRoot(input, true) == ParseUnnamed(input)
    ensures |input| > 0 && input[0] == COMPOUND_ID && !NbtString(input[1..]).Failed?
        ==> ParseRoot(input, false) == ParseNamed(input)
  {
  }

  /** `read(write(n), false)` gives `n` back. */
  lemma NamedRootRoundTrip(name: JavaString, entries: seq<Entry>, rest: seq<u8>)
    requires ValidString(name)
    requires forall i :: 0 <= i < |entries| ==> WellFormedEntry(entries[i])
    ensures ParseRoot(NamedRootBytes(name, entries) + rest, false)
         == Done(Nbt(name, NbtCompound(InsertAll(map[], ForgetEntries(entries)))), rest)
  {
    NamedRoundTrip(name, entries, rest);
    ReadersAgree(NamedRootBytes(name, entries) + rest);
  }

  /** `read(write_unnamed(n), true)` gives `n` back under the empty name. */
  lemma UnnamedRootRoundTrip(entries: seq<Entry>, rest: seq<u8>)
    requires forall i :: 0 <= i < |entries| ==> WellFormedEntry(entries[i])
    ensures ParseRoot(UnnamedRootBytes(entries) + rest, true)
         == Done(Nbt([], NbtCompound(InsertAll(map[], ForgetEntries(entries)))), rest)
  {
    UnnamedRoundTrip(entries, rest);
    ReadersAgree(UnnamedRootBytes(entries) + rest);
  }

  /** The two framings read through a buffer with the matching flag. */
  method RootRoundTripThroughBuf(n: Nbt, isNetwork: bool) returns (r: Result<Nbt>, left: seq<u8>)
    requires ValidString(n.name) && EncodableCompound(n.rootTag)
    ensures left == []
    ensures r == Ok(if isNetwork then Nbt([], n.rootTag) else n)
  {
    var bytes;
    ghost var entries;
    if isNetwork {
      bytes, entries := WriteUnnamed(n);
      UnnamedRootRoundTrip(entries, []);
    } else {
      bytes, entries := Write(n);
      NamedRootRoundTrip(n.name, entries, []);
    }
    assert bytes + [] == bytes;
    var buf := new Buf(bytes);
    r := Read(buf, isNetwork);
    left := buf.data;
  }
}
