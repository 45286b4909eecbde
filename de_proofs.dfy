/**
 * What the serde deserializer of `src/serde/de.rs` reads back from the
 * layouts of `src/nbt/utils.rs` and `src/nbt.rs`: every NBT payload
 * is read as `NbtTag` by `deserialize_any`, and a root compound in either
 * framing by `from_bytes` and `from_bytes_unnamed`. Arrays arrive at the
 * visitor as sequences, so they come back as lists.
 */
module DeProofs {
  import opened Numeric
  import opened Errors
  import opened ByteBuf
  import opened JavaCesu8
  import opened NbtUtils
  import opened Tag
  import opened Codec
  import opened CodecProofs
  import opened TagIo
  import opened NbtTypes
  import opened NbtDoc
  import opened De
  import opened SerProofs

  /** No `End` anywhere in the tree: a decoded `End` is `unreachable!()` to `deserialize_any`. */
  predicate NoEnd(w: Wire)
    decreases w
  {
    match w
    case WEnd => false
    case WList(items) => forall i :: 0 <= i < |items| ==> NoEnd(items[i])
    case WCompound(entries) => forall i :: 0 <= i < |entries| ==> NoEnd(entries[i].value)
    case _ => true
  }

  /**
   * The `NbtTag` that `NbtTagVisitor` builds from the layout of w: each
   * array becomes a list of its elements (a byte array's bytes as `i8`),
   * lists and compounds are rebuilt from their children, everything else
   * is the tag w was written from.
   */
  function DeView(w: Wire): NbtTag
    decreases w, 0
  {
    match w
    case WByteArray(bs) => List(seq(|bs|, i requires 0 <= i < |bs| => Byte(U8AsI8(bs[i]))))
    case WIntArray(xs) => List(seq(|xs|, i requires 0 <= i < |xs| => Int(xs[i])))
    case WLongArray(xs) => List(seq(|xs|, i requires 0 <= i < |xs| => Long(xs[i])))
    case WList(items) => List(DeViews(items))
    case WCompound(entries) => Compound(NbtCompound(InsertAll(map[], DeViewEntries(entries))))
    case _ => Forget(w)
  }

  function DeViews(items: seq<Wire>): (r: seq<NbtTag>)
    ensures |r| == |items|
    ensures forall i :: 0 <= i < |items| ==> r[i] == DeView(items[i])
    decreases items, 1
  {
    if items == [] then [] else [DeView(items[0])] + DeViews(items[1..])
  }

  /** The entries as (name, tag) pairs in read order, the order `put` is called in. */
  function DeViewEntries(entries: seq<Entry>): (pairs: seq<(JavaString, NbtTag)>)
    ensures |pairs| == |entries|
    ensures forall i :: 0 <= i < |entries| ==> pairs[i] == (entries[i].name, DeView(entries[i].value))
    decreases entries, 1
  {
    if entries == [] then [] else [(entries[0].name, DeView(entries[0].value))] + DeViewEntries(entries[1..])
  }

  /** A read that succeeded with v, left rest, kept the framing flag and ended with the key flag `key`. */
  predicate ReadAs<T(==)>(s: DeStep<T>, v: T, rest: seq<u8>, named: bool, key: bool) {
    s.result == Ok(v) && s.after.input == rest && s.after.isNamed == named && s.after.isKey == key
  }

  // ---------------------------------------------------------------------------
  // Payloads

  /**
   * `deserialize_any` with w's id remembered reads exactly w's payload and
   * gives `DeView(w)`.
   */
  lemma {:induction false} AnyTagReadsPayload(w: Wire, rest: seq<u8>, named: bool)
    requires WellFormed(w) && NoEnd(w)
    ensures ReadAs(AnyTagF(DeMachine(Payload(w) + rest, Some(WId(w)), named, false)), DeView(w), rest, named, false)
    decreases w, 2
  {
    match w
    case WList(items) => ListReads(items, rest, named);
    case WCompound(entries) => CompoundReads(entries, rest, named);
    case _ => FlatReads(w, rest, named);
  }

  /** A tag that is neither list nor compound: `deserialize_data`, then the visitor. */
  lemma FlatReads(w: Wire, rest: seq<u8>, named: bool)
    requires WellFormed(w) && NoEnd(w) && !w.WList? && !w.WCompound?
    ensures ReadAs(AnyTagF(DeMachine(Payload(w) + rest, Some(WId(w)), named, false)), DeView(w), rest, named, false)
  {
    PayloadRoundTrip(w, rest);
    AnyTagOfFlat(DeMachine(Payload(w) + rest, Some(WId(w)), named, false), Forget(w), rest);
    VisitIsView(w);
  }

  /** What `AnyTagF` does with a tag `deserialize_data` decodes. */
  lemma AnyTagOfFlat(m: DeMachine, t: NbtTag, rest: seq<u8>)
    requires !m.isKey && m.tag.Some? && m.tag.value != LIST_ID && m.tag.value != COMPOUND_ID
    requires ParsePayload(m.input, m.tag.value) == Done(t, rest) && !t.End?
    ensures !t.List? && !t.Compound?
    ensures AnyTagF(m) == DeStep(Ok(TagOfVisit(VisitOfTag(t))), DeMachine(rest, None, m.isNamed, false))
  {
    DecodedIdMatches(m.input, m.tag.value);
  }

  /** The visitor's tag for a flat tag is its view: the same scalar, or the array's list. */
  lemma VisitIsView(w: Wire)
    requires !w.WList? && !w.WCompound? && !w.WEnd?
    ensures TagOfVisit(VisitOfTag(Forget(w))) == DeView(w)
  {
    var t := TagOfVisit(VisitOfTag(Forget(w)));
    match w
    case WByteArray(bs) =>
      assert t.items == DeView(w).items;
    case WIntArray(xs) =>
      assert t.items == DeView(w).items;
    case WLongArray(xs) =>
      assert t.items == DeView(w).items;
    case _ =>
  }

  /** A list: its element id, its count read as u32, then each element. */
  lemma {:induction false} ListReads(items: seq<Wire>, rest: seq<u8>, named: bool)
    requires WellFormed(WList(items)) && NoEnd(WList(items))
    ensures ReadAs(AnyTagF(DeMachine(Payload(WList(items)) + rest, Some(LIST_ID), named, false)),
                   List(DeViews(items)), rest, named, false)
    decreases items, 2
  {
    var elem := ListElementId(items);
    var tail := Payloads(items) + rest;
    var m := DeMachine(Payload(WList(items)) + rest, Some(LIST_ID), named, false);
    assert m.input == [elem] + (I32Bytes(LenAsI32(|items|)) + tail);
    CountAsU32(|items|);
    TakeU32OfPut(|items|, tail);
    AnyTagOfList(m, elem, I32Bytes(LenAsI32(|items|)) + tail, |items|, tail);
    ElementsRead(items, elem, rest, named, Some(LIST_ID), []);
    assert [] + DeViews(items) == DeViews(items);
  }

  /** What `AnyTagF` does with a list header that can be read. */
  lemma AnyTagOfList(m: DeMachine, elem: u8, afterElem: seq<u8>, count: u32, afterCount: seq<u8>)
    requires !m.isKey && m.tag == Some(LIST_ID)
    requires TakeU8(m.input) == Done(elem, afterElem) && TakeU32(afterElem) == Done(count, afterCount)
    ensures AnyTagF(m) == TagListF(m.(input := afterCount), elem, count, [])
  {
  }

  /** A count below 2^31 is written as i32 and read as u32 to the same bytes. */
  lemma CountAsU32(n: nat)
    requires FitsI32(n)
    ensures n < 0x1_0000_0000 && I32Bytes(LenAsI32(n)) == U32Bytes(n)
  {
    Pow256Widths();
    assert Unsigned(LenAsI32(n), 4) == n;
  }

  /** The list loop reads each element with the element id remembered, in order. */
  lemma {:induction false} ElementsRead(items: seq<Wire>, elem: u8, rest: seq<u8>, named: bool,
                                        tag: Option<u8>, acc: seq<NbtTag>)
    requires forall i :: 0 <= i < |items| ==> WId(items[i]) == elem && WellFormed(items[i]) && NoEnd(items[i])
    ensures ReadAs(TagListF(DeMachine(Payloads(items) + rest, tag, named, false), elem, |items|, acc),
                   List(acc + DeViews(items)), rest, named, false)
    decreases items, 1
  {
    if items == [] {
      ElementsDone(elem, rest, named, tag, acc);
    } else {
      var next := ElementTurn(items, elem, rest, named, tag, acc);
      var more := items[1..];
      assert forall i :: 0 <= i < |more| ==> more[i] == items[i + 1];
      ElementsRead(more, elem, rest, named, next, acc + [DeView(items[0])]);
      ViewsCons(items, acc);
    }
  }

  /** No elements left: the list of those read so far, nothing consumed. */
  lemma ElementsDone(elem: u8, rest: seq<u8>, named: bool, tag: Option<u8>, acc: seq<NbtTag>)
    ensures ReadAs(TagListF(DeMachine(Payloads([]) + rest, tag, named, false), elem, 0, acc),
                   List(acc + DeViews([])), rest, named, false)
  {
    assert Payloads([]) + rest == rest;
    assert acc + DeViews([]) == acc;
  }

  lemma ViewsCons(items: seq<Wire>, acc: seq<NbtTag>)
    requires |items| > 0
    ensures acc + [DeView(items[0])] + DeViews(items[1..]) == acc + DeViews(items)
  {
    assert DeViews(items) == [DeView(items[0])] + DeViews(items[1..]);
  }

  /** The first turn of the list loop reads the first element; `next` is the tag it leaves remembered. */
  lemma {:induction false} ElementTurn(items: seq<Wire>, elem: u8, rest: seq<u8>, named: bool,
                                       tag: Option<u8>, acc: seq<NbtTag>) returns (next: Option<u8>)
    requires |items| > 0 && WId(items[0]) == elem && WellFormed(items[0]) && NoEnd(items[0])
    ensures TagListF(DeMachine(Payloads(items) + rest, tag, named, false), elem, |items|, acc)
         == TagListF(DeMachine(Payloads(items[1..]) + rest, next, named, false), elem, |items| - 1, acc + [DeView(items[0])])
    decreases items, 0
  {
    var tail := Payloads(items[1..]) + rest;
    assert Payloads(items) + rest == Payload(items[0]) + tail;
    AnyTagReadsPayload(items[0], tail, named);
    var s := AnyTagF(DeMachine(Payload(items[0]) + tail, Some(elem), named, false));
    ListStep(DeMachine(Payloads(items) + rest, tag, named, false), elem, |items|, acc);
    next := s.after.tag;
    assert s.after == DeMachine(tail, next, named, false);
  }

  /** One turn of the list loop, for an element that is read. */
  lemma ListStep(m: DeMachine, elem: u8, remaining: nat, acc: seq<NbtTag>)
    requires remaining > 0 && AnyTagF(m.(tag := Some(elem))).result.Ok?
    ensures TagListF(m, elem, remaining, acc)
         == TagListF(AnyTagF(m.(tag := Some(elem))).after, elem, remaining - 1, acc + [AnyTagF(m.(tag := Some(elem))).result.value])
  {
  }

  /** A compound: the entries up to the `END` byte, as a map. */
  lemma CompoundReads(entries: seq<Entry>, rest: seq<u8>, named: bool)
    requires WellFormed(WCompound(entries)) && NoEnd(WCompound(entries))
    ensures ReadAs(AnyTagF(DeMachine(Payload(WCompound(entries)) + rest, Some(COMPOUND_ID), named, false)),
                   DeView(WCompound(entries)), rest, named, false)
    decreases entries, 1
  {
    var m := DeMachine(Payload(WCompound(entries)) + rest, Some(COMPOUND_ID), named, false);
    assert m.input == EntriesBytes(entries) + [END_ID] + rest;
    EntriesRead(entries, rest, named, Some(COMPOUND_ID), false, map[]);
    AnyTagOfCompound(m);
  }

  /** What `AnyTagF` does with a compound whose entries are read. */
  lemma AnyTagOfCompound(m: DeMachine)
    requires !m.isKey && m.tag == Some(COMPOUND_ID) && EntriesF(m, map[]).result.Ok?
    ensures AnyTagF(m) == DeStep(Ok(Compound(EntriesF(m, map[]).result.value)), EntriesF(m, map[]).after)
  {
  }

  /**
   * The compound loop reads each entry's id, name and value and `put`s it,
   * and stops at the `END` byte. The key flag is left clear once a value
   * was read.
   */
  lemma {:induction false} EntriesRead(entries: seq<Entry>, rest: seq<u8>, named: bool, tag: Option<u8>,
                                       key: bool, acc: map<JavaString, NbtTag>)
    requires forall i :: 0 <= i < |entries| ==> WellFormedEntry(entries[i]) && NoEnd(entries[i].value)
    ensures ReadAs(EntriesF(DeMachine(EntriesBytes(entries) + [END_ID] + rest, tag, named, key), acc),
                   NbtCompound(InsertAll(acc, DeViewEntries(entries))), rest, named, key && entries == [])
    decreases entries, 0
  {
    var input := EntriesBytes(entries) + [END_ID] + rest;
    if entries == [] {
      assert input == [END_ID] + rest;
    } else {
      var e := entries[0];
      var tail := EntriesBytes(entries[1..]) + [END_ID] + rest;
      var afterName := Payload(e.value) + tail;
      EntriesLayout(entries, rest);
      NbtStringOfPayload(e.name, afterName);
      AnyTagReadsPayload(e.value, tail, named);
      var value := AnyTagF(DeMachine(afterName, Some(WId(e.value)), named, false));
      EntriesStep(DeMachine(input, tag, named, key), acc, WId(e.value), StringPayload(e.name) + afterName, e.name, afterName);
      assert value.after == DeMachine(tail, value.after.tag, named, false);
      EntriesRead(entries[1..], rest, named, value.after.tag, false, acc[e.name := DeView(e.value)]);
      assert DeViewEntries(entries)[1..] == DeViewEntries(entries[1..]);
    }
  }

  /** One turn of the compound loop, for an entry whose name and value are read. */
  lemma EntriesStep(m: DeMachine, acc: map<JavaString, NbtTag>, id: u8, afterId: seq<u8>,
                    name: JavaString, afterName: seq<u8>)
    requires TakeU8(m.input) == Done(id, afterId) && id != END_ID
    requires NbtString(afterId) == Done(name, afterName)
    requires AnyTagF(DeMachine(afterName, Some(id), m.isNamed, false)).result.Ok?
    ensures EntriesF(m, acc)
         == EntriesF(AnyTagF(DeMachine(afterName, Some(id), m.isNamed, false)).after,
                     acc[name := AnyTagF(DeMachine(afterName, Some(id), m.isNamed, false)).result.value])
  {
  }

  // ---------------------------------------------------------------------------
  // The root

  /**
   * `from_bytes_unnamed::<NbtCompound>` of `write_unnamed`'s layout gives
   * the compound of the entries and leaves the rest.
   */
  lemma UnnamedRootReads(entries: seq<Entry>, rest: seq<u8>)
    requires forall i :: 0 <= i < |entries| ==> WellFormedEntry(entries[i]) && NoEnd(entries[i].value)
    ensures FromBytesUnnamedF(UnnamedRootBytes(entries) + rest).result == Ok(NbtCompound(InsertAll(map[], DeViewEntries(entries))))
    ensures FromBytesUnnamedF(UnnamedRootBytes(entries) + rest).after.input == rest
  {
    UnnamedRoot(entries, rest);
    EntriesRead(entries, rest, false, None, true, map[]);
  }

  /**
   * `from_bytes::<NbtCompound>` of `write`'s layout gives the same
   * compound: the root name is skipped by its length and never checked.
   */
  lemma NamedRootReads(name: JavaString, entries: seq<Entry>, rest: seq<u8>)
    requires |name| < 0x1_0000
    requires forall i :: 0 <= i < |entries| ==> WellFormedEntry(entries[i]) && NoEnd(entries[i].value)
    ensures FromBytesF(NamedRootBytes(name, entries) + rest).result == Ok(NbtCompound(InsertAll(map[], DeViewEntries(entries))))
    ensures FromBytesF(NamedRootBytes(name, entries) + rest).after.input == rest
  {
    NamedRoot(name, entries, rest);
    EntriesRead(entries, rest, true, None, true, map[]);
  }

  /** The unnamed root: one compound id byte, then the entries. */
  lemma UnnamedRoot(entries: seq<Entry>, rest: seq<u8>)
    ensures FromBytesUnnamedF(UnnamedRootBytes(entries) + rest)
         == EntriesF(DeMachine(EntriesBytes(entries) + [END_ID] + rest, None, false, true), map[])
  {
    var body := EntriesBytes(entries) + [END_ID] + rest;
    assert UnnamedRootBytes(entries) + rest == [COMPOUND_ID] + body;
    RootId(body);
  }

  /** The named root: the compound id byte, a u16 length and that many bytes, then the entries. */
  lemma NamedRoot(name: JavaString, entries: seq<Entry>, rest: seq<u8>)
    requires |name| < 0x1_0000
    ensures FromBytesF(NamedRootBytes(name, entries) + rest)
         == EntriesF(DeMachine(EntriesBytes(entries) + [END_ID] + rest, None, true, true), map[])
  {
    var body := EntriesBytes(entries) + [END_ID] + rest;
    var afterId := U16Bytes(|name|) + (name + body);
    assert NamedRootBytes(name, entries) + rest == [COMPOUND_ID] + afterId;
    RootId(afterId);
    TakeU16OfPut(|name|, name + body);
    assert (name + body)[|name|..] == body;
  }

  /** The root id byte of `[COMPOUND_ID] + afterId`. */
  lemma RootId(afterId: seq<u8>)
    ensures TakeU8([COMPOUND_ID] + afterId) == Done(COMPOUND_ID, afterId)
  {
    assert ([COMPOUND_ID] + afterId)[1..] == afterId;
  }

  /** A root byte other than the compound id is refused, in both framings, with the byte consumed. */
  lemma RootNotCompound(b: u8, rest: seq<u8>)
    requires b != COMPOUND_ID
    ensures FromBytesF([b] + rest) == DeStep(Err(NoRootCompound(b)), DeMachine(rest, None, true, true))
    ensures FromBytesUnnamedF([b] + rest) == DeStep(Err(NoRootCompound(b)), DeMachine(rest, None, false, true))
  {
    assert ([b] + rest)[1..] == rest;
  }

  /** Empty input panics: `get_u8` on an empty buffer. */
  lemma EmptyRootPanics()
    ensures FromBytesF([]).result.Panic? && FromBytesUnnamedF([]).result.Panic?
  {
  }

  /**
   * The deserializer starts with the key flag set, so `from_bytes::<NbtTag>`
   * reads a framed string as the root and returns it as a `String` tag.
   */
  lemma RootTagIsIdentifier(s: JavaString, rest: seq<u8>, named: bool)
    requires ValidString(s)
    ensures AnyTagF(New(StringPayload(s) + rest, named)) == DeStep(Ok(String(s)), New(rest, named))
  {
    NbtStringOfPayload(s, rest);
  }

  /**
   * A list of `End` elements, which `Nbt::read` accepts, makes
   * `deserialize_any` panic at its first element.
   */
  lemma EndListPanics(n: nat, rest: seq<u8>, named: bool)
    requires 0 < n && FitsI32(n)
    ensures AnyTagF(DeMachine([END_ID] + I32Bytes(LenAsI32(n)) + rest, Some(LIST_ID), named, false)).result.Panic?
  {
    var m := DeMachine([END_ID] + I32Bytes(LenAsI32(n)) + rest, Some(LIST_ID), named, false);
    assert m.input == [END_ID] + (I32Bytes(LenAsI32(n)) + rest);
    CountAsU32(n);
    TakeU32OfPut(n, rest);
    AnyTagOfList(m, END_ID, I32Bytes(LenAsI32(n)) + rest, n, rest);
    PayloadConsumes(rest, END_ID);
  }

  // ---------------------------------------------------------------------------
  // Views

  /** Without arrays the view is the tag itself. */
  lemma {:induction false} ViewOfNoArrays(w: Wire)
    requires NoByteArrays(w) && NoArrays(w)
    ensures DeView(w) == Forget(w)
    decreases w, 0
  {
    match w
    case WList(items) =>
      forall i | 0 <= i < |items| ensures DeViews(items)[i] == ForgetAll(items)[i] {
        ViewOfNoArrays(items[i]);
      }
    case WCompound(entries) =>
      forall i | 0 <= i < |entries| ensures DeViewEntries(entries)[i] == ForgetEntries(entries)[i] {
        ViewOfNoArrays(entries[i].value);
      }
      assert DeViewEntries(entries) == ForgetEntries(entries);
    case _ =>
  }

  /** No byte array anywhere in the tree. */
  predicate NoByteArrays(w: Wire)
    decreases w
  {
    match w
    case WByteArray(_) => false
    case WList(items) => forall i :: 0 <= i < |items| ==> NoByteArrays(items[i])
    case WCompound(entries) => forall i :: 0 <= i < |entries| ==> NoByteArrays(entries[i].value)
    case _ => true
  }

  /** The serializer's image of a tree (int and long arrays as lists) has the same view. */
  lemma {:induction false} ViewOfImage(w: Wire)
    requires Plain(w)
    ensures DeView(Image(w)) == DeView(w)
    decreases w, 3
  {
    if w.WIntArray? {
      IntArrayImage(w);
    } else if w.WLongArray? {
      LongArrayImage(w);
    } else if w.WList? {
      ListImage(w);
    } else if w.WCompound? {
      CompoundImage(w);
    }
  }

  lemma {:induction false} ListImage(w: Wire)
    requires w.WList? && Plain(w)
    ensures DeView(Image(w)) == DeView(w)
    decreases w, 0
  {
    var items := w.items;
    forall i | 0 <= i < |items| ensures DeViews(Images(items))[i] == DeViews(items)[i] {
      ViewOfImage(items[i]);
    }
    assert DeViews(Images(items)) == DeViews(items);
  }

  lemma {:induction false} CompoundImage(w: Wire)
    requires w.WCompound? && Plain(w)
    ensures DeView(Image(w)) == DeView(w)
    decreases w, 0
  {
    ImageEntriesView(w.entries);
  }

  /** The children of the image have the views of the children. */
  lemma {:induction false} ImageEntriesView(entries: seq<Entry>)
    requires forall i :: 0 <= i < |entries| ==> Plain(entries[i].value)
    ensures DeViewEntries(ImageEntries(entries)) == DeViewEntries(entries)
    decreases entries, 2
  {
    forall i | 0 <= i < |entries| ensures DeViewEntries(ImageEntries(entries))[i] == DeViewEntries(entries)[i] {
      ViewOfImage(entries[i].value);
    }
  }

  /** An int array and the list of its elements look the same to the visitor. */
  lemma IntArrayImage(w: Wire)
    requires w.WIntArray?
    ensures DeView(Image(w)) == DeView(w)
  {
    assert DeViews(IntWires(w.intArray)) == DeView(w).items;
  }

  /** A long array and the list of its elements look the same to the visitor. */
  lemma LongArrayImage(w: Wire)
    requires w.WLongArray?
    ensures DeView(Image(w)) == DeView(w)
  {
    assert DeViews(LongWires(w.longArray)) == DeView(w).items;
  }

  /** What the serializer can write has no `End` and no byte array. */
  lemma {:induction false} PlainHasNoEnd(w: Wire)
    requires Plain(w)
    ensures NoEnd(w) && NoByteArrays(w)
    decreases w
  {
    match w
    case WList(items) =>
      forall i | 0 <= i < |items| ensures NoEnd(items[i]) && NoByteArrays(items[i]) {
        PlainHasNoEnd(items[i]);
      }
    case WCompound(entries) =>
      forall i | 0 <= i < |entries| ensures NoEnd(entries[i].value) && NoByteArrays(entries[i].value) {
        PlainHasNoEnd(entries[i].value);
      }
    case _ =>
  }
}
