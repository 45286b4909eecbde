/**
 * Serde both ways: a compound written by `to_bytes_unnamed` / `to_bytes`
 * (`src/serde/ser.rs`) and read by `from_bytes_unnamed` / `from_bytes`
 * (`src/serde/de.rs`) as an `NbtCompound`. Int and long arrays come back
 * as lists; a compound without them comes back as itself.
 */
module SerdeRoundTrip {
  import opened Numeric
  import opened Errors
  import opened JavaCesu8
  import opened Tag
  import opened Codec
  import opened NbtDoc
  import opened Ser
  import opened NbtTypes
  import opened SerProofs
  import opened De
  import opened DeProofs

  /** Every child serde can write and read back: no `End`, no byte array, strings and counts in range. */
  predicate SerdeEntries(entries: seq<Entry>) {
    forall i :: 0 <= i < |entries| ==> Plain(entries[i].value) && WellFormedEntry(entries[i])
  }

  /** The image's children have no `End` and are readable. */
  lemma ImageReadable(entries: seq<Entry>)
    requires SerdeEntries(entries)
    ensures forall i :: 0 <= i < |entries| ==>
      WellFormedEntry(ImageEntries(entries)[i]) && NoEnd(ImageEntries(entries)[i].value)
  {
    ImageEntriesWellFormed(entries);
    forall i | 0 <= i < |entries| ensures NoEnd(ImageEntries(entries)[i].value) {
      ImageWellFormed(entries[i].value);
      PlainHasNoEnd(Image(entries[i].value));
    }
  }

  /**
   * `from_bytes_unnamed::<NbtCompound>(to_bytes_unnamed(c))` succeeds, reads
   * every byte written, and gives the compound with arrays as lists.
   */
  lemma UnnamedSerdeRoundTrip(entries: seq<Entry>, rest: seq<u8>)
    requires SerdeEntries(entries)
    ensures ToBytesF(TagValue(WCompound(entries)), None).Ok?
    ensures FromBytesUnnamedF(ToBytesF(TagValue(WCompound(entries)), None).value + rest).result
         == Ok(NbtCompound(InsertAll(map[], DeViewEntries(entries))))
    ensures FromBytesUnnamedF(ToBytesF(TagValue(WCompound(entries)), None).value + rest).after.input == rest
  {
    UnnamedLayout(entries);
    ImageReadable(entries);
    UnnamedRootReads(ImageEntries(entries), rest);
    ImageEntriesView(entries);
  }

  /** The same through `to_bytes(c, name)` and `from_bytes`, which skips the name. */
  lemma NamedSerdeRoundTrip(name: JavaString, entries: seq<Entry>, rest: seq<u8>)
    requires |name| < 0x1_0000
    requires SerdeEntries(entries)
    ensures ToBytesF(TagValue(WCompound(entries)), Some(name)).Ok?
    ensures FromBytesF(ToBytesF(TagValue(WCompound(entries)), Some(name)).value + rest).result
         == Ok(NbtCompound(InsertAll(map[], DeViewEntries(entries))))
    ensures FromBytesF(ToBytesF(TagValue(WCompound(entries)), Some(name)).value + rest).after.input == rest
  {
    NamedLayout(name, entries);
    ImageReadable(entries);
    NamedRootReads(name, ImageEntries(entries), rest);
    ImageEntriesView(entries);
  }

  /** Without arrays the view of the children is the compound they were written from. */
  lemma ViewEntriesOfNoArrays(entries: seq<Entry>)
    requires SerdeEntries(entries)
    requires forall i :: 0 <= i < |entries| ==> NoArrays(entries[i].value)
    ensures DeViewEntries(entries) == ForgetEntries(entries)
  {
    forall i | 0 <= i < |entries| ensures DeViewEntries(entries)[i] == ForgetEntries(entries)[i] {
      PlainHasNoEnd(entries[i].value);
      ViewOfNoArrays(entries[i].value);
    }
  }

  /**
   * For a compound c with no arrays, written from any enumeration of its
   * children, `from_bytes_unnamed(to_bytes_unnamed(c))` is c.
   */
  lemma UnnamedIdentity(c: NbtCompound, entries: seq<Entry>, rest: seq<u8>)
    requires SerdeEntries(entries)
    requires forall i :: 0 <= i < |entries| ==> NoArrays(entries[i].value)
    requires InsertAll(map[], ForgetEntries(entries)) == c.childTags
    ensures ToBytesF(TagValue(WCompound(entries)), None).Ok?
    ensures FromBytesUnnamedF(ToBytesF(TagValue(WCompound(entries)), None).value + rest).result == Ok(c)
  {
    UnnamedSerdeRoundTrip(entries, rest);
    ViewEntriesOfNoArrays(entries);
  }

  /** The same for `from_bytes(to_bytes(c, name))`. */
  lemma NamedIdentity(c: NbtCompound, name: JavaString, entries: seq<Entry>, rest: seq<u8>)
    requires |name| < 0x1_0000
    requires SerdeEntries(entries)
    requires forall i :: 0 <= i < |entries| ==> NoArrays(entries[i].value)
    requires InsertAll(map[], ForgetEntries(entries)) == c.childTags
    ensures ToBytesF(TagValue(WCompound(entries)), Some(name)).Ok?
    ensures FromBytesF(ToBytesF(TagValue(WCompound(entries)), Some(name)).value + rest).result == Ok(c)
  {
    NamedSerdeRoundTrip(name, entries, rest);
    ViewEntriesOfNoArrays(entries);
  }

  /** An int array field comes back from serde as the list of its elements. */
  lemma IntArrayComesBackAsList(name: JavaString, xs: seq<i32>, rest: seq<u8>)
    requires ValidString(name) && FitsI32(|xs|)
    ensures ToBytesF(TagValue(WCompound([Entry(name, WIntArray(xs))])), None).Ok?
    ensures FromBytesUnnamedF(ToBytesF(TagValue(WCompound([Entry(name, WIntArray(xs))])), None).value + rest).result
         == Ok(NbtCompound(map[name := List(seq(|xs|, i requires 0 <= i < |xs| => Int(xs[i])))]))
  {
    var entries := [Entry(name, WIntArray(xs))];
    UnnamedSerdeRoundTrip(entries, rest);
    assert DeViewEntries(entries) == [(name, List(seq(|xs|, i requires 0 <= i < |xs| => Int(xs[i]))))];
  }
}
