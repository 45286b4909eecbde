/**
 * What the serde serializer writes for an `NbtTag` tree: the NBT layout of
 * `NbtTag::serialize_raw` and `NbtCompound::serialize`, except that the int
 * and long arrays become lists of ints and longs, because `NbtTag`'s
 * `Serialize` impl presents them as plain sequences. `Image` is that change.
 *
 * The theorem holds for trees without `End` and `ByteArray` (`Plain`): an
 * `End` is serialized as a unit and writes nothing, and a `ByteArray`'s
 * elements are `u8`, which the serializer refuses.
 */
module SerProofs {
  import opened Numeric
  import opened Errors
  import opened JavaCesu8
  import opened ByteBuf
  import opened NbtUtils
  import opened Tag
  import opened Codec
  import opened NbtDoc
  import opened Ser
  import opened NbtTypes

  /** No `End` and no `ByteArray` anywhere in the tree. */
  predicate Plain(w: Wire)
    decreases w
  {
    match w
    case WEnd => false
    case WByteArray(_) => false
    case WList(items) => forall i :: 0 <= i < |items| ==> Plain(items[i])
    case WCompound(entries) => forall i :: 0 <= i < |entries| ==> Plain(entries[i].value)
    case _ => true
  }

  /** A variant with a fixed payload and no children, written by one scalar callback. */
  predicate Scalar(w: Wire) {
    w.WByte? || w.WShort? || w.WInt? || w.WLong? || w.WFloat? || w.WDouble? || w.WString?
  }

  /** No int or long array anywhere in the tree. */
  predicate NoArrays(w: Wire)
    decreases w
  {
    match w
    case WIntArray(_) => false
    case WLongArray(_) => false
    case WList(items) => forall i :: 0 <= i < |items| ==> NoArrays(items[i])
    case WCompound(entries) => forall i :: 0 <= i < |entries| ==> NoArrays(entries[i].value)
    case _ => true
  }

  /** The tree whose NBT layout the serializer writes: int and long arrays become lists. */
  function Image(w: Wire): Wire
    decreases w, 0
  {
    match w
    case WIntArray(xs) => WList(IntWires(xs))
    case WLongArray(xs) => WList(LongWires(xs))
    case WList(items) => WList(Images(items))
    case WCompound(entries) => WCompound(ImageEntries(entries))
    case _ => w
  }

  function Images(items: seq<Wire>): (r: seq<Wire>)
    ensures |r| == |items|
    ensures forall i :: 0 <= i < |items| ==> r[i] == Image(items[i])
    decreases items, 1
  {
    if items == [] then [] else [Image(items[0])] + Images(items[1..])
  }

  function ImageEntries(entries: seq<Entry>): (r: seq<Entry>)
    ensures |r| == |entries|
    ensures forall i :: 0 <= i < |entries| ==> r[i] == Entry(entries[i].name, Image(entries[i].value))
    decreases entries, 1
  {
    if entries == [] then [] else [Entry(entries[0].name, Image(entries[0].value))] + ImageEntries(entries[1..])
  }

  function IntWires(xs: seq<i32>): (ws: seq<Wire>)
    ensures |ws| == |xs|
    ensures forall i :: 0 <= i < |xs| ==> ws[i] == WInt(xs[i])
  {
    seq(|xs|, i requires 0 <= i < |xs| => WInt(xs[i]))
  }

  function LongWires(xs: seq<i64>): (ws: seq<Wire>)
    ensures |ws| == |xs|
    ensures forall i :: 0 <= i < |xs| ==> ws[i] == WLong(xs[i])
  {
    seq(|xs|, i requires 0 <= i < |xs| => WLong(xs[i]))
  }

  /** The states in which a value is written: a named field, a list element. */
  predicate ValueState(st: State) {
    st.Named? || st.FirstListElement? || st.ListElement?
  }

  // ---------------------------------------------------------------------------
  // Image

  /** `Image` changes nothing in a tree without arrays. */
  lemma {:induction false} ImageOfNoArrays(w: Wire)
    requires NoArrays(w)
    ensures Image(w) == w
    decreases w, 0
  {
    match w
    case WList(items) =>
      forall i | 0 <= i < |items| ensures Images(items)[i] == items[i] {
        ImageOfNoArrays(items[i]);
      }
    case WCompound(entries) =>
      forall i | 0 <= i < |entries| ensures ImageEntries(entries)[i] == entries[i] {
        ImageOfNoArrays(entries[i].value);
      }
    case _ =>
  }

  /** The image has no arrays, keeps the other ids, and stays within the readable layouts. */
  lemma {:induction false} ImageWellFormed(w: Wire)
    requires WellFormed(w) && Plain(w)
    ensures WellFormed(Image(w)) && Plain(Image(w)) && NoArrays(Image(w))
    ensures WId(Image(w)) == (if w.WIntArray? || w.WLongArray? then LIST_ID else WId(w))
    decreases w, 0
  {
    match w
    case WList(items) =>
      var images := Images(items);
      forall i | 0 <= i < |items|
        ensures WId(images[i]) == ListElementId(images) && WellFormed(images[i])
        ensures Plain(images[i]) && NoArrays(images[i])
      {
        ImageWellFormed(items[i]);
        ImageWellFormed(items[0]);
      }
    case WCompound(entries) =>
      var images := ImageEntries(entries);
      forall i | 0 <= i < |entries|
        ensures WellFormedEntry(images[i]) && Plain(images[i].value) && NoArrays(images[i].value)
      {
        ImageWellFormed(entries[i].value);
      }
    case _ =>
  }

  // ---------------------------------------------------------------------------
  // The layout a value is written in

  /**
   * From a value state, `NbtTag::serialize` writes the framing the state
   * asks for (id and name, id and count, or nothing) followed by the NBT
   * payload of the image.
   */
  lemma {:induction false} EmitLayout(o: seq<u8>, st: State, w: Wire)
    requires ValueState(st) && Plain(w)
    ensures Emit(Machine(o, st), TagValue(w)).result.Ok?
    ensures Emit(Machine(o, st), TagValue(w)).after.output == o + Prefix(st, WId(Image(w))) + Payload(Image(w))
    decreases w, 3
  {
    if w.WList? {
      ListLayout(o, st, w);
    } else if w.WCompound? {
      CompoundLayout(o, st, w);
      StructPrefixIsPrefix(st);
    } else if w.WIntArray? {
      IntArrayLayout(o, st, w);
    } else if w.WLongArray? {
      LongArrayLayout(o, st, w);
    } else {
      ScalarLayout(o, st, w);
    }
  }

  /** A scalar or a string: the state's prefix for its id, then its payload; the state stays. */
  lemma ScalarLayout(o: seq<u8>, st: State, w: Wire)
    requires ValueState(st) && Plain(w)
    requires !w.WList? && !w.WCompound? && !w.WIntArray? && !w.WLongArray?
    ensures Image(w) == w
    ensures Emit(Machine(o, st), TagValue(w)) == Step(Ok(()), Machine(o + Prefix(st, WId(w)) + Payload(w), st))
  {
  }

  /**
   * `serialize_seq(Some(n))` in a value state: the list id with the state's
   * framing, then a first element of count `n`; an empty sequence writes the
   * `End` id and a zero count at once.
   */
  lemma SeqBeginList(m: Machine, n: nat)
    requires ValueState(m.state)
    ensures SeqBegin(m, Some(n))
         == Step(Ok(()), Machine(m.output + Prefix(m.state, LIST_ID) + (if n == 0 then [END_ID] + I32Bytes(0) else []),
                                 FirstListElement(LenAsI32(n))))
  {
  }

  /** A list: the list header for the state, the element id and count, then each element's payload. */
  lemma {:induction false} ListLayout(o: seq<u8>, st: State, w: Wire)
    requires ValueState(st) && w.WList? && Plain(w)
    ensures Emit(Machine(o, st), TagValue(w)).result.Ok?
    ensures Emit(Machine(o, st), TagValue(w)).after.output == o + Prefix(st, WId(Image(w))) + Payload(Image(w))
    decreases w, 2
  {
    var items := w.items;
    var o1 := o + Prefix(st, LIST_ID);
    var images := Images(items);
    ListParts(w);
    ListPayload(images, Payloads(images));
    if items == [] {
      EmptyListEmit(o, st, w);
    } else {
      ListEmit(o, st, w);
      ElementsFirst(o1, items, LenAsI32(|items|));
      AppendAssoc(o1, [ListElementId(images)] + I32Bytes(LenAsI32(|items|)), Payloads(images));
    }
  }

  /** An empty list writes its header, the `End` id and a zero count. */
  lemma EmptyListEmit(o: seq<u8>, st: State, w: Wire)
    requires ValueState(st) && w == WList([])
    ensures Emit(Machine(o, st), TagValue(w)) == Step(Ok(()), Machine(o + Prefix(st, LIST_ID) + Payload(Image(w)), FirstListElement(0)))
  {
    SeqBeginList(Machine(o, st), 0);
    ListParts(w);
    assert Payload(Image(w)) == [END_ID] + I32Bytes(0);
  }

  /** A non-empty list writes its header and goes on to its first element. */
  lemma ListEmit(o: seq<u8>, st: State, w: Wire)
    requires ValueState(st) && w.WList? && w.items != []
    ensures Emit(Machine(o, st), TagValue(w))
         == EmitElements(Machine(o + Prefix(st, LIST_ID), FirstListElement(LenAsI32(|w.items|))), TagValues(w.items))
  {
    SeqBeginList(Machine(o, st), |w.items|);
    ListParts(w);
    EmptyTail(o + Prefix(st, LIST_ID));
  }

  lemma EmptyTail(o: seq<u8>)
    ensures o + [] == o
  {
  }

  /** A list's value is a sequence of known length, its image a list of the images. */
  lemma ListParts(w: Wire)
    requires w.WList?
    ensures TagValue(w) == VSeq(Some(|w.items|), TagValues(w.items))
    ensures Image(w) == WList(Images(w.items)) && WId(Image(w)) == LIST_ID
    ensures w.items != [] ==> ListElementId(Images(w.items)) == WId(Image(w.items[0]))
  {
  }

  /** The list id and count written first, then the elements' payloads. */
  lemma ListPayload(ws: seq<Wire>, body: seq<u8>)
    requires body == Payloads(ws)
    ensures Payload(WList(ws)) == [ListElementId(ws)] + I32Bytes(LenAsI32(|ws|)) + body
  {
  }

  /** The first element writes its id, the count and its payload; the next is a later element. */
  lemma {:induction false} FirstElementStep(o: seq<u8>, len: i32, items: seq<Wire>)
    requires |items| > 0 && Plain(items[0])
    ensures EmitElements(Machine(o, FirstListElement(len)), TagValues(items))
         == EmitElements(Machine(o + ([WId(Image(items[0]))] + I32Bytes(len)) + Payload(Image(items[0])), ListElement),
                         TagValues(items[1..]))
    decreases items, 0
  {
    EmitLayout(o, FirstListElement(len), items[0]);
    TagValuesTail(items);
  }

  /** A later element writes its payload alone. */
  lemma {:induction false} NextElementStep(o: seq<u8>, items: seq<Wire>)
    requires |items| > 0 && Plain(items[0])
    ensures EmitElements(Machine(o, ListElement), TagValues(items))
         == EmitElements(Machine(o + Payload(Image(items[0])), ListElement), TagValues(items[1..]))
    decreases items, 0
  {
    EmitLayout(o, ListElement, items[0]);
    EmptyMiddle(o, Payload(Image(items[0])));
    TagValuesTail(items);
  }

  lemma EmptyMiddle(o: seq<u8>, p: seq<u8>)
    ensures o + [] + p == o + p
  {
  }

  /** The first element writes its id and the count, the others their payload alone. */
  lemma {:induction false} ElementsFirst(o: seq<u8>, items: seq<Wire>, len: i32)
    requires |items| > 0
    requires forall i :: 0 <= i < |items| ==> Plain(items[i])
    ensures EmitElements(Machine(o, FirstListElement(len)), TagValues(items))
         == Step(Ok(()), Machine(o + ([WId(Image(items[0]))] + I32Bytes(len)) + Payloads(Images(items)), ListElement))
    decreases items, 1
  {
    var head := [WId(Image(items[0]))] + I32Bytes(len);
    FirstElementStep(o, len, items);
    ElementsRest(o + head + Payload(Image(items[0])), items[1..]);
    ImagesCons(o + head, items);
  }

  lemma {:induction false} ElementsRest(o: seq<u8>, items: seq<Wire>)
    requires forall i :: 0 <= i < |items| ==> Plain(items[i])
    ensures EmitElements(Machine(o, ListElement), TagValues(items)) == Step(Ok(()), Machine(o + Payloads(Images(items)), ListElement))
    decreases items, 1
  {
    if items == [] {
      assert Images(items) == [];
      assert o + [] == o;
    } else {
      NextElementStep(o, items);
      ElementsRest(o + Payload(Image(items[0])), items[1..]);
      ImagesCons(o, items);
    }
  }

  lemma TagValuesTail(items: seq<Wire>)
    requires |items| > 0
    ensures TagValues(items)[1..] == TagValues(items[1..])
  {
  }

  /** The payloads of the images, split after the first. */
  lemma ImagesCons(o: seq<u8>, items: seq<Wire>)
    requires |items| > 0
    ensures o + Payload(Image(items[0])) + Payloads(Images(items[1..])) == o + Payloads(Images(items))
  {
    assert Images(items)[1..] == Images(items[1..]);
    PayloadsCons(o, Images(items));
  }

  lemma PayloadsCons(o: seq<u8>, ws: seq<Wire>)
    requires |ws| > 0
    ensures o + Payload(ws[0]) + Payloads(ws[1..]) == o + Payloads(ws)
  {
    assert Payloads(ws) == Payload(ws[0]) + Payloads(ws[1..]);
    AppendAssoc(o, Payload(ws[0]), Payloads(ws[1..]));
  }

  /**
   * An int array: `serialize_seq` with its length, then one `serialize_i32`
   * per element, which is the layout of a list of ints.
   */
  lemma IntArrayLayout(o: seq<u8>, st: State, w: Wire)
    requires ValueState(st) && w.WIntArray?
    ensures Emit(Machine(o, st), TagValue(w)).result.Ok?
    ensures Emit(Machine(o, st), TagValue(w)).after.output == o + Prefix(st, WId(Image(w))) + Payload(Image(w))
  {
    var xs := w.intArray;
    var o1 := o + Prefix(st, LIST_ID);
    IntArrayParts(w);
    IntImagePayload(xs);
    if xs == [] {
      EmptyIntEmit(o, st, w);
    } else {
      IntArrayEmit(o, st, w);
      IntsFirst(o1, xs, LenAsI32(|xs|));
      AppendAssoc(o1, [INT_ID] + I32Bytes(LenAsI32(|xs|)), IntsBytes(xs));
    }
  }

  /** An empty array is written as an empty list. */
  lemma EmptyIntEmit(o: seq<u8>, st: State, w: Wire)
    requires ValueState(st) && w == WIntArray([])
    ensures Emit(Machine(o, st), TagValue(w)) == Step(Ok(()), Machine(o + Prefix(st, LIST_ID) + Payload(Image(w)), FirstListElement(0)))
  {
    SeqBeginList(Machine(o, st), 0);
    IntArrayParts(w);
    IntImagePayload([]);
    assert Payload(Image(w)) == [END_ID] + I32Bytes(0);
  }

  /** A non-empty array writes the list header and goes on to its first element. */
  lemma IntArrayEmit(o: seq<u8>, st: State, w: Wire)
    requires ValueState(st) && w.WIntArray? && w.intArray != []
    ensures Emit(Machine(o, st), TagValue(w))
         == EmitElements(Machine(o + Prefix(st, LIST_ID), FirstListElement(LenAsI32(|w.intArray|))), IntValues(w.intArray))
  {
    SeqBeginList(Machine(o, st), |w.intArray|);
    IntArrayParts(w);
    EmptyTail(o + Prefix(st, LIST_ID));
  }

  lemma IntArrayParts(w: Wire)
    requires w.WIntArray?
    ensures TagValue(w) == VSeq(Some(|w.intArray|), IntValues(w.intArray))
    ensures w == WIntArray(w.intArray) && WId(Image(w)) == LIST_ID
  {
  }

  lemma {:induction false} IntsFirst(o: seq<u8>, xs: seq<i32>, len: i32)
    requires |xs| > 0
    ensures EmitElements(Machine(o, FirstListElement(len)), IntValues(xs))
         == Step(Ok(()), Machine(o + ([INT_ID] + I32Bytes(len)) + IntsBytes(xs), ListElement))
  {
    var o1 := o + ([INT_ID] + I32Bytes(len)) + I32Bytes(xs[0]);
    assert ElementStep(Machine(o, FirstListElement(len)), VI32(xs[0])) == Step(Ok(()), Machine(o1, ListElement));
    assert IntValues(xs)[1..] == IntValues(xs[1..]);
    IntsRest(o1, xs[1..]);
    AppendAssoc(o + ([INT_ID] + I32Bytes(len)), I32Bytes(xs[0]), IntsBytes(xs[1..]));
  }

  lemma {:induction false} IntsRest(o: seq<u8>, xs: seq<i32>)
    ensures EmitElements(Machine(o, ListElement), IntValues(xs)) == Step(Ok(()), Machine(o + IntsBytes(xs), ListElement))
    decreases xs
  {
    if xs == [] {
      assert o + [] == o;
    } else {
      var o1 := o + I32Bytes(xs[0]);
      assert ElementStep(Machine(o, ListElement), VI32(xs[0])) == Step(Ok(()), Machine(o1, ListElement)) by {
        assert o + [] + I32Bytes(xs[0]) == o1;
      }
      assert IntValues(xs)[1..] == IntValues(xs[1..]);
      IntsRest(o1, xs[1..]);
      AppendAssoc(o, I32Bytes(xs[0]), IntsBytes(xs[1..]));
    }
  }

  /** The image of an int array is a list of ints: the int id (`End` when empty), the count, the ints. */
  lemma IntImagePayload(xs: seq<i32>)
    ensures Payload(Image(WIntArray(xs))) == [if xs == [] then END_ID else INT_ID] + I32Bytes(LenAsI32(|xs|)) + IntsBytes(xs)
  {
    IntImage(xs);
    IntPayloads(IntWires(xs), xs);
    ListPayload(IntWires(xs), IntsBytes(xs));
  }

  lemma IntImage(xs: seq<i32>)
    ensures Image(WIntArray(xs)) == WList(IntWires(xs))
    ensures ListElementId(IntWires(xs)) == (if xs == [] then END_ID else INT_ID)
  {
  }

  lemma {:induction false} IntPayloads(ws: seq<Wire>, xs: seq<i32>)
    requires |ws| == |xs| && forall i :: 0 <= i < |xs| ==> ws[i] == WInt(xs[i])
    ensures Payloads(ws) == IntsBytes(xs)
    decreases xs
  {
    if xs != [] {
      IntPayloads(ws[1..], xs[1..]);
    }
  }


  /** A long array, likewise, is written as a list of longs. */
  lemma LongArrayLayout(o: seq<u8>, st: State, w: Wire)
    requires ValueState(st) && w.WLongArray?
    ensures Emit(Machine(o, st), TagValue(w)).result.Ok?
    ensures Emit(Machine(o, st), TagValue(w)).after.output == o + Prefix(st, WId(Image(w))) + Payload(Image(w))
  {
    var xs := w.longArray;
    var o1 := o + Prefix(st, LIST_ID);
    LongArrayParts(w);
    LongImagePayload(xs);
    if xs == [] {
      EmptyLongEmit(o, st, w);
    } else {
      LongArrayEmit(o, st, w);
      LongsFirst(o1, xs, LenAsI32(|xs|));
      AppendAssoc(o1, [LONG_ID] + I32Bytes(LenAsI32(|xs|)), LongsBytes(xs));
    }
  }

  /** An empty array is written as an empty list. */
  lemma EmptyLongEmit(o: seq<u8>, st: State, w: Wire)
    requires ValueState(st) && w == WLongArray([])
    ensures Emit(Machine(o, st), TagValue(w)) == Step(Ok(()), Machine(o + Prefix(st, LIST_ID) + Payload(Image(w)), FirstListElement(0)))
  {
    SeqBeginList(Machine(o, st), 0);
    LongArrayParts(w);
    LongImagePayload([]);
    assert Payload(Image(w)) == [END_ID] + I32Bytes(0);
  }

  /** A non-empty array writes the list header and goes on to its first element. */
  lemma LongArrayEmit(o: seq<u8>, st: State, w: Wire)
    requires ValueState(st) && w.WLongArray? && w.longArray != []
    ensures Emit(Machine(o, st), TagValue(w))
         == EmitElements(Machine(o + Prefix(st, LIST_ID), FirstListElement(LenAsI32(|w.longArray|))), LongValues(w.longArray))
  {
    SeqBeginList(Machine(o, st), |w.longArray|);
    LongArrayParts(w);
    EmptyTail(o + Prefix(st, LIST_ID));
  }

  lemma LongArrayParts(w: Wire)
    requires w.WLongArray?
    ensures TagValue(w) == VSeq(Some(|w.longArray|), LongValues(w.longArray))
    ensures w == WLongArray(w.longArray) && WId(Image(w)) == LIST_ID
  {
  }

  lemma {:induction false} LongsFirst(o: seq<u8>, xs: seq<i64>, len: i32)
    requires |xs| > 0
    ensures EmitElements(Machine(o, FirstListElement(len)), LongValues(xs))
         == Step(Ok(()), Machine(o + ([LONG_ID] + I32Bytes(len)) + LongsBytes(xs), ListElement))
  {
    var o1 := o + ([LONG_ID] + I32Bytes(len)) + I64Bytes(xs[0]);
    assert ElementStep(Machine(o, FirstListElement(len)), VI64(xs[0])) == Step(Ok(()), Machine(o1, ListElement));
    assert LongValues(xs)[1..] == LongValues(xs[1..]);
    LongsRest(o1, xs[1..]);
    AppendAssoc(o + ([LONG_ID] + I32Bytes(len)), I64Bytes(xs[0]), LongsBytes(xs[1..]));
  }

  lemma {:induction false} LongsRest(o: seq<u8>, xs: seq<i64>)
    ensures EmitElements(Machine(o, ListElement), LongValues(xs)) == Step(Ok(()), Machine(o + LongsBytes(xs), ListElement))
    decreases xs
  {
    if xs == [] {
      assert o + [] == o;
    } else {
      var o1 := o + I64Bytes(xs[0]);
      assert ElementStep(Machine(o, ListElement), VI64(xs[0])) == Step(Ok(()), Machine(o1, ListElement)) by {
        assert o + [] + I64Bytes(xs[0]) == o1;
      }
      assert LongValues(xs)[1..] == LongValues(xs[1..]);
      LongsRest(o1, xs[1..]);
      AppendAssoc(o, I64Bytes(xs[0]), LongsBytes(xs[1..]));
    }
  }

  lemma LongImagePayload(xs: seq<i64>)
    ensures Payload(Image(WLongArray(xs))) == [if xs == [] then END_ID else LONG_ID] + I32Bytes(LenAsI32(|xs|)) + LongsBytes(xs)
  {
    LongImage(xs);
    LongPayloads(LongWires(xs), xs);
    ListPayload(LongWires(xs), LongsBytes(xs));
  }

  lemma LongImage(xs: seq<i64>)
    ensures Image(WLongArray(xs)) == WList(LongWires(xs))
    ensures ListElementId(LongWires(xs)) == (if xs == [] then END_ID else LONG_ID)
  {
  }

  lemma {:induction false} LongPayloads(ws: seq<Wire>, xs: seq<i64>)
    requires |ws| == |xs| && forall i :: 0 <= i < |xs| ==> ws[i] == WLong(xs[i])
    ensures Payloads(ws) == LongsBytes(xs)
    decreases xs
  {
    if xs != [] {
      LongPayloads(ws[1..], xs[1..]);
    }
  }


  /** In a value state, `serialize_struct` writes what `parse_state` would for a compound. */
  lemma StructPrefixIsPrefix(st: State)
    requires ValueState(st)
    ensures StructPrefix(st) == Prefix(st, COMPOUND_ID)
  {
  }

  /**
   * `serialize_map` outside `MapKey` and `Array`: the state's struct header,
   * the entries in the same state, then `END` once they all succeed.
   */
  lemma MapLayout(o: seq<u8>, st: State, es: seq<MapEntry>)
    requires !st.MapKey? && !st.Array?
    ensures EmitEntries(Machine(o + StructPrefix(st), st), es).result.Ok?
        ==> Emit(Machine(o, st), VMap(es))
            == Step(Ok(()), Machine(EmitEntries(Machine(o + StructPrefix(st), st), es).after.output + [END_ID],
                                    EmitEntries(Machine(o + StructPrefix(st), st), es).after.state))
  {
  }

  /**
   * A compound, at the root or as a value: the framing `serialize_struct`
   * writes for the state, every entry named, then `END`.
   */
  lemma {:induction false} CompoundLayout(o: seq<u8>, st: State, w: Wire)
    requires !st.MapKey? && !st.Array? && w.WCompound? && Plain(w)
    ensures WId(Image(w)) == COMPOUND_ID
    ensures Emit(Machine(o, st), TagValue(w)).result.Ok?
    ensures Emit(Machine(o, st), TagValue(w)).after.output == o + StructPrefix(st) + Payload(Image(w))
    decreases w, 2
  {
    var entries := w.entries;
    var o1 := o + StructPrefix(st);
    var images := ImageEntries(entries);
    CompoundParts(w);
    EntriesEmit(o1, st, entries);
    MapLayout(o, st, TagEntries(entries));
    CompoundPayload(images, EntriesBytes(images));
    AppendAssoc(o1, EntriesBytes(images), [END_ID]);
  }

  /** A compound's value is a map of its entries, its image the compound of the images. */
  lemma CompoundParts(w: Wire)
    requires w.WCompound?
    ensures TagValue(w) == VMap(TagEntries(w.entries))
    ensures Image(w) == WCompound(ImageEntries(w.entries)) && WId(Image(w)) == COMPOUND_ID
  {
  }

  /** The payload of a compound, its entries' bytes given as `body`. */
  lemma CompoundPayload(es: seq<Entry>, body: seq<u8>)
    requires body == EntriesBytes(es)
    ensures Payload(WCompound(es)) == body + [END_ID]
  {
  }

  /**
   * `serialize_entry` per child: the key in the `MapKey` state names the
   * value, which is then written as a named tag, whatever the state before.
   */
  lemma {:induction false} EntriesEmit(o: seq<u8>, st: State, entries: seq<Entry>)
    requires forall i :: 0 <= i < |entries| ==> Plain(entries[i].value)
    ensures EmitEntries(Machine(o, st), TagEntries(entries)).result.Ok?
    ensures EmitEntries(Machine(o, st), TagEntries(entries)).after.output == o + EntriesBytes(ImageEntries(entries))
    decreases entries, 1
  {
    if entries == [] {
      assert ImageEntries(entries) == [];
      assert o + [] == o;
    } else {
      var e := entries[0];
      var image := Entry(e.name, Image(e.value));
      var s := Emit(Machine(o, Named(e.name)), TagValue(e.value));
      EntryFrom(o, st, entries);
      EntriesEmit(o + NamedBytes(image), s.after.state, entries[1..]);
      EntriesCons(o, entries);
    }
  }

  /** The first entry is written as a named tag; the next entry starts from the state it leaves. */
  lemma {:induction false} EntryFrom(o: seq<u8>, st: State, entries: seq<Entry>)
    requires |entries| > 0 && Plain(entries[0].value)
    ensures EmitEntries(Machine(o, st), TagEntries(entries))
         == EmitEntries(Machine(o + NamedBytes(Entry(entries[0].name, Image(entries[0].value))),
                                Emit(Machine(o, Named(entries[0].name)), TagValue(entries[0].value)).after.state),
                        TagEntries(entries[1..]))
    decreases entries, 0
  {
    var e := entries[0];
    KeyNames(Machine(o, st), e.name);
    EmitLayout(o, Named(e.name), e.value);
    NamedLayoutBytes(o, e.name, Image(e.value));
    TagEntriesTail(entries);
  }

  /** A string key in `MapKey` writes nothing and names the value. */
  lemma KeyNames(m: Machine, name: JavaString)
    ensures Emit(KeyBegin(m), VStr(name)) == Step(Ok(()), Machine(m.output, Named(name)))
  {
  }

  /** A value in the `Named` state is laid out as a named tag. */
  lemma NamedLayoutBytes(o: seq<u8>, name: JavaString, w: Wire)
    ensures o + Prefix(Named(name), WId(w)) + Payload(w) == o + NamedBytes(Entry(name, w))
  {
    AppendAssoc(o, [WId(w)] + StringPayload(name), Payload(w));
  }

  lemma TagEntriesTail(entries: seq<Entry>)
    requires |entries| > 0
    ensures TagEntries(entries)[1..] == TagEntries(entries[1..])
  {
  }

  /** The bytes of the image entries, split after the first. */
  lemma EntriesCons(o: seq<u8>, entries: seq<Entry>)
    requires |entries| > 0
    ensures o + NamedBytes(Entry(entries[0].name, Image(entries[0].value))) + EntriesBytes(ImageEntries(entries[1..]))
         == o + EntriesBytes(ImageEntries(entries))
  {
    var images := ImageEntries(entries);
    assert images[1..] == ImageEntries(entries[1..]);
    assert EntriesBytes(images) == NamedBytes(images[0]) + EntriesBytes(images[1..]);
    AppendAssoc(o, NamedBytes(images[0]), EntriesBytes(images[1..]));
  }

  // ---------------------------------------------------------------------------
  // The root

  /** `to_bytes` gives the output of a value written successfully from the root. */
  lemma RootOutput(v: Value, rootName: Option<JavaString>, out: seq<u8>)
    requires Emit(Machine([], Root(rootName)), v).result.Ok?
    requires Emit(Machine([], Root(rootName)), v).after.output == out
    ensures ToBytesF(v, rootName) == Ok(out)
  {
  }

  /** `to_bytes_unnamed` of a compound is `write_unnamed` of its image. */
  lemma UnnamedLayout(entries: seq<Entry>)
    requires forall i :: 0 <= i < |entries| ==> Plain(entries[i].value)
    ensures ToBytesF(TagValue(WCompound(entries)), None) == Ok(UnnamedRootBytes(ImageEntries(entries)))
  {
    CompoundLayout([], Root(None), WCompound(entries));
    CompoundParts(WCompound(entries));
    RootFraming(None, ImageEntries(entries));
    RootOutput(TagValue(WCompound(entries)), None, UnnamedRootBytes(ImageEntries(entries)));
  }

  /** `to_bytes(value, name)` of a compound is `write` of its image under that name. */
  lemma NamedLayout(name: JavaString, entries: seq<Entry>)
    requires forall i :: 0 <= i < |entries| ==> Plain(entries[i].value)
    ensures ToBytesF(TagValue(WCompound(entries)), Some(name)) == Ok(NamedRootBytes(name, ImageEntries(entries)))
  {
    CompoundLayout([], Root(Some(name)), WCompound(entries));
    CompoundParts(WCompound(entries));
    RootFraming(Some(name), ImageEntries(entries));
    RootOutput(TagValue(WCompound(entries)), Some(name), NamedRootBytes(name, ImageEntries(entries)));
  }

  /** The root header `serialize_struct` writes is the one `write` and `write_unnamed` write. */
  lemma RootFraming(rootName: Option<JavaString>, entries: seq<Entry>)
    ensures [] + StructPrefix(Root(rootName)) + Payload(WCompound(entries))
         == if rootName.Some? then NamedRootBytes(rootName.value, entries) else UnnamedRootBytes(entries)
  {
    if rootName.Some? {
      AppendAssoc([COMPOUND_ID], StringPayload(rootName.value), CompoundBytes(entries));
    }
  }

  /** Every entry of the image can be read back. */
  lemma ImageEntriesWellFormed(entries: seq<Entry>)
    requires forall i :: 0 <= i < |entries| ==> Plain(entries[i].value) && WellFormedEntry(entries[i])
    ensures forall i :: 0 <= i < |entries| ==> WellFormedEntry(ImageEntries(entries)[i])
  {
    var images := ImageEntries(entries);
    forall i | 0 <= i < |images| ensures WellFormedEntry(images[i]) {
      ImageWellFormed(entries[i].value);
    }
  }

  /**
   * Serializing a compound through serde and reading the bytes back with
   * `Nbt::read_unnamed` gives the compound with its arrays turned into lists.
   */
  lemma WriteThenReadUnnamed(entries: seq<Entry>, rest: seq<u8>)
    requires forall i :: 0 <= i < |entries| ==> Plain(entries[i].value) && WellFormedEntry(entries[i])
    ensures ToBytesF(TagValue(WCompound(entries)), None).Ok?
    ensures ParseUnnamed(ToBytesF(TagValue(WCompound(entries)), None).value + rest)
         == Done(FromCompound(Forget(Image(WCompound(entries))).compound), rest)
  {
    var images := ImageEntries(entries);
    UnnamedLayout(entries);
    ImageEntriesWellFormed(entries);
    UnnamedRoundTrip(images, rest);
    ImageCompound(entries);
  }

  /** The compound the image stands for, as the readers build it. */
  lemma ImageCompound(entries: seq<Entry>)
    ensures Forget(Image(WCompound(entries))).compound == NbtCompound(InsertAll(map[], ForgetEntries(ImageEntries(entries))))
  {
  }

  /** The same through `to_bytes` and `Nbt::read`, the name included. */
  lemma WriteThenReadNamed(name: JavaString, entries: seq<Entry>, rest: seq<u8>)
    requires ValidString(name)
    requires forall i :: 0 <= i < |entries| ==> Plain(entries[i].value) && WellFormedEntry(entries[i])
    ensures ToBytesF(TagValue(WCompound(entries)), Some(name)).Ok?
    ensures ParseNamed(ToBytesF(TagValue(WCompound(entries)), Some(name)).value + rest)
         == Done(Nbt(name, Forget(Image(WCompound(entries))).compound), rest)
  {
    var images := ImageEntries(entries);
    NamedLayout(name, entries);
    ImageEntriesWellFormed(entries);
    NamedRoundTrip(name, images, rest);
    ImageCompound(entries);
  }

  /** An int array comes back from the bytes as a list of ints, not as an int array. */
  lemma IntArrayBecomesList(xs: seq<i32>)
    ensures Forget(Image(WIntArray(xs))) == List(seq(|xs|, i requires 0 <= i < |xs| => Int(xs[i])))
    ensures Forget(Image(WIntArray(xs))) != Forget(WIntArray(xs))
  {
    assert ForgetAll(IntWires(xs)) == seq(|xs|, i requires 0 <= i < |xs| => Int(xs[i]));
  }
}
