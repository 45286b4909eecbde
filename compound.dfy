/**
 * `NbtCompound` as a map from names to tags: `HashMap::insert` folded over a
 * sequence of pairs (later names overwrite earlier ones), `from_values`, and
 * the typed `get_*` lookups.
 */
module Compound {
  import opened Numeric
  import opened Errors
  import opened JavaCesu8
  import opened Tag

  // ---------------------------------------------------------------------------
  // Inserting pairs in turn

  lemma {:induction false} InsertAllAppend(acc: map<JavaString, NbtTag>, pairs: seq<(JavaString, NbtTag)>,
                                           p: (JavaString, NbtTag))
    ensures InsertAll(acc, pairs + [p]) == InsertAll(acc, pairs)[p.0 := p.1]
    decreases pairs
  {
    if pairs == [] {
      assert pairs + [p] == [p];
    } else {
      assert (pairs + [p])[1..] == pairs[1..] + [p];
      InsertAllAppend(acc[pairs[0].0 := pairs[0].1], pairs[1..], p);
    }
  }

  /** The names present afterwards: those of acc and those of the pairs. */
  lemma {:induction false} InsertAllKeys(acc: map<JavaString, NbtTag>, pairs: seq<(JavaString, NbtTag)>)
    ensures InsertAll(acc, pairs).Keys == acc.Keys + (set i | 0 <= i < |pairs| :: pairs[i].0)
    decreases pairs
  {
    if pairs != [] {
      InsertAllKeys(acc[pairs[0].0 := pairs[0].1], pairs[1..]);
      var tailNames := set i | 0 <= i < |pairs[1..]| :: pairs[1..][i].0;
      var names := set i | 0 <= i < |pairs| :: pairs[i].0;
      assert names == {pairs[0].0} + tailNames by {
        forall k | k in names ensures k in {pairs[0].0} + tailNames {
          var i :| 0 <= i < |pairs| && pairs[i].0 == k;
          if i > 0 {
            assert pairs[1..][i - 1].0 == k;
          }
        }
        forall k | k in tailNames ensures k in names {
          var i :| 0 <= i < |pairs[1..]| && pairs[1..][i].0 == k;
          assert pairs[i + 1].0 == k;
        }
      }
    }
  }

  /** Duplicate names keep the later value: the last pair with a name decides its tag. */
  lemma {:induction false} InsertAllLaterWins(acc: map<JavaString, NbtTag>, pairs: seq<(JavaString, NbtTag)>, i: nat)
    requires i < |pairs|
    requires forall j :: i < j < |pairs| ==> pairs[j].0 != pairs[i].0
    ensures pairs[i].0 in InsertAll(acc, pairs) && InsertAll(acc, pairs)[pairs[i].0] == pairs[i].1
    decreases pairs
  {
    if i == 0 {
      InsertAllKeepsAbsent(acc[pairs[0].0 := pairs[0].1], pairs[1..], pairs[0].0);
    } else {
      InsertAllLaterWins(acc[pairs[0].0 := pairs[0].1], pairs[1..], i - 1);
    }
  }

  /** A name no pair carries keeps whatever acc gave it, or stays absent. */
  lemma {:induction false} InsertAllKeepsAbsent(acc: map<JavaString, NbtTag>, pairs: seq<(JavaString, NbtTag)>, k: JavaString)
    requires forall j :: 0 <= j < |pairs| ==> pairs[j].0 != k
    ensures k in InsertAll(acc, pairs) <==> k in acc
    ensures k in acc ==> InsertAll(acc, pairs)[k] == acc[k]
    decreases pairs
  {
    if pairs != [] {
      InsertAllKeepsAbsent(acc[pairs[0].0 := pairs[0].1], pairs[1..], k);
    }
  }

  /** Pairs with distinct names, none already present, each add one entry. */
  lemma {:induction false} InsertAllCount(acc: map<JavaString, NbtTag>, pairs: seq<(JavaString, NbtTag)>)
    requires forall i, j :: 0 <= i < j < |pairs| ==> pairs[i].0 != pairs[j].0
    requires forall i :: 0 <= i < |pairs| ==> pairs[i].0 !in acc
    ensures |InsertAll(acc, pairs)| == |acc| + |pairs|
    decreases pairs
  {
    if pairs != [] {
      var next := acc[pairs[0].0 := pairs[0].1];
      assert |next| == |acc| + 1;
      forall i | 0 <= i < |pairs[1..]|
        ensures pairs[1..][i].0 !in next
      {
        assert pairs[1..][i] == pairs[i + 1];
      }
      InsertAllCount(next, pairs[1..]);
    }
  }

  /** The only way to build a one-name map from pairs with distinct names is the one pair. */
  lemma InsertAllSingle(pairs: seq<(JavaString, NbtTag)>, k: JavaString, t: NbtTag)
    requires InsertAll(map[], pairs) == map[k := t]
    requires forall i, j :: 0 <= i < j < |pairs| ==> pairs[i].0 != pairs[j].0
    ensures pairs == [(k, t)]
  {
    InsertAllCount(map[], pairs);
    assert |pairs| == 1;
    assert InsertAll(map[], pairs) == map[pairs[0].0 := pairs[0].1];
  }

  /** `from_values(values)`: a fresh map with each pair inserted in turn. */
  method FromValues(values: seq<(JavaString, NbtTag)>) returns (c: NbtCompound)
    ensures c.childTags == InsertAll(map[], values)
  {
    var childTags: map<JavaString, NbtTag> := map[];
    var i := 0;
    while i < |values|
      invariant 0 <= i <= |values|
      invariant childTags == InsertAll(map[], values[..i])
    {
      var (name, tag) := values[i];
      assert values[..i + 1] == values[..i] + [values[i]];
      InsertAllAppend(map[], values[..i], values[i]);
      childTags := childTags[name := tag];
      i := i + 1;
    }
    assert values[..i] == values;
    c := NbtCompound(childTags);
  }

  /** `from_values` keeps, for each name, the value of its last occurrence. */
  lemma FromValuesLaterWins(values: seq<(JavaString, NbtTag)>, i: nat)
    requires i < |values|
    requires forall j :: i < j < |values| ==> values[j].0 != values[i].0
    ensures values[i].0 in InsertAll(map[], values) && InsertAll(map[], values)[values[i].0] == values[i].1
  {
    InsertAllLaterWins(map[], values, i);
  }

  // ---------------------------------------------------------------------------
  // Lookups: `child_tags.get(name).and_then(extract_*)`

  function Get(c: NbtCompound, name: JavaString): (r: Option<NbtTag>)
    ensures r.Some? <==> name in c.childTags
    ensures r.Some? ==> r.value == c.childTags[name]
  {
    if name in c.childTags then Some(c.childTags[name]) else None
  }

  function GetByte(c: NbtCompound, name: JavaString): (r: Option<i8>)
    ensures r.Some? <==> name in c.childTags && c.childTags[name].Byte?
    ensures r.Some? ==> r.value == c.childTags[name].byteValue
  {
    match Get(c, name)
    case Some(t) => t.ExtractByte()
    case None => None
  }

  function GetShort(c: NbtCompound, name: JavaString): (r: Option<i16>)
    ensures r.Some? <==> name in c.childTags && c.childTags[name].Short?
    ensures r.Some? ==> r.value == c.childTags[name].shortValue
  {
    match Get(c, name)
    case Some(t) => t.ExtractShort()
    case None => None
  }

  function GetInt(c: NbtCompound, name: JavaString): (r: Option<i32>)
    ensures r.Some? <==> name in c.childTags && c.childTags[name].Int?
    ensures r.Some? ==> r.value == c.childTags[name].intValue
  {
    match Get(c, name)
    case Some(t) => t.ExtractInt()
    case None => None
  }

  function GetLong(c: NbtCompound, name: JavaString): (r: Option<i64>)
    ensures r.Some? <==> name in c.childTags && c.childTags[name].Long?
    ensures r.Some? ==> r.value == c.childTags[name].longValue
  {
    match Get(c, name)
    case Some(t) => t.ExtractLong()
    case None => None
  }

  function GetFloat(c: NbtCompound, name: JavaString): (r: Option<f32>)
    ensures r.Some? <==> name in c.childTags && c.childTags[name].Float?
    ensures r.Some? ==> r.value == c.childTags[name].floatBits
  {
    match Get(c, name)
    case Some(t) => t.ExtractFloat()
    case None => None
  }

  function GetDouble(c: NbtCompound, name: JavaString): (r: Option<f64>)
    ensures r.Some? <==> name in c.childTags && c.childTags[name].Double?
    ensures r.Some? ==> r.value == c.childTags[name].doubleBits
  {
    match Get(c, name)
    case Some(t) => t.ExtractDouble()
    case None => None
  }

  /** A present `Byte` read as a boolean, nonzero being true. */
  function GetBool(c: NbtCompound, name: JavaString): (r: Option<bool>)
    ensures r.Some? <==> name in c.childTags && c.childTags[name].Byte?
    ensures r.Some? ==> (r.value <==> c.childTags[name].byteValue != 0)
  {
    match Get(c, name)
    case Some(t) => t.ExtractBool()
    case None => None
  }

  function GetString(c: NbtCompound, name: JavaString): (r: Option<JavaString>)
    ensures r.Some? <==> name in c.childTags && c.childTags[name].String?
    ensures r.Some? ==> r.value == c.childTags[name].text
  {
    match Get(c, name)
    case Some(t) => t.ExtractString()
    case None => None
  }

  function GetList(c: NbtCompound, name: JavaString): (r: Option<seq<NbtTag>>)
    ensures r.Some? <==> name in c.childTags && c.childTags[name].List?
    ensures r.Some? ==> r.value == c.childTags[name].items
  {
    match Get(c, name)
    case Some(t) => t.ExtractList()
    case None => None
  }

  function GetCompound(c: NbtCompound, name: JavaString): (r: Option<NbtCompound>)
    ensures r.Some? <==> name in c.childTags && c.childTags[name].Compound?
    ensures r.Some? ==> r.value == c.childTags[name].compound
  {
    match Get(c, name)
    case Some(t) => t.ExtractCompound()
    case None => None
  }

  function GetIntArray(c: NbtCompound, name: JavaString): (r: Option<seq<i32>>)
    ensures r.Some? <==> name in c.childTags && c.childTags[name].IntArray?
    ensures r.Some? ==> r.value == c.childTags[name].intArray
  {
    match Get(c, name)
    case Some(t) => t.ExtractIntArray()
    case None => None
  }

  function GetLongArray(c: NbtCompound, name: JavaString): (r: Option<seq<i64>>)
    ensures r.Some? <==> name in c.childTags && c.childTags[name].LongArray?
    ensures r.Some? ==> r.value == c.childTags[name].longArray
  {
    match Get(c, name)
    case Some(t) => t.ExtractLongArray()
    case None => None
  }

  /** A missing name and a tag of another variant both give `None`. */
  lemma GetMissOrMismatch(c: NbtCompound, name: JavaString)
    ensures name !in c.childTags ==> GetInt(c, name).None? && GetString(c, name).None? && GetCompound(c, name).None?
    ensures name in c.childTags && c.childTags[name].Byte? ==> GetInt(c, name).None? && GetBool(c, name).Some?
  {
  }
}
