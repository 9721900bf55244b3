// Comparing two values by their sorted JSON texts, for values as the program holds them: with
// undefined properties and byte arrays inside.
module JsonEquality {
  import opened Common
  import opened JsonValues
  import opened JsonProofs
  import opened JsonPrinting
  import opened CanonicalBytes
  import opened CanonicalProofs

  // ------------------------------------------------------------------ the comparison

  // A byte array lists its entries under their indices.
  function Spread(bytes: seq<Byte>, start: nat): (fields: seq<Field>)
    ensures |fields| == |bytes|
    ensures forall i :: 0 <= i < |bytes| ==> fields[i] == Field(Digits(start + i), Num(bytes[i] as int))
  {
    if bytes == [] then [] else [Field(Digits(start), Num(bytes[0] as int))] + Spread(bytes[1..], start + 1)
  }

  // The value as Object.entries shows it.
  function Plain(v: Value): Value
    decreases v
  {
    match v
    case Bytes(b) => Obj(Spread(b, 0))
    case Arr(items) => Arr(PlainItems(items))
    case Obj(fields) => Obj(PlainFields(fields))
    case _ => v
  }

  function PlainItems(items: seq<Value>): (r: seq<Value>)
    ensures |r| == |items| && forall i :: 0 <= i < |items| ==> r[i] == Plain(items[i])
    decreases items
  {
    if items == [] then [] else [Plain(items[0])] + PlainItems(items[1..])
  }

  function PlainFields(fields: seq<Field>): (r: seq<Field>)
    ensures |r| == |fields|
    ensures forall i :: 0 <= i < |fields| ==> r[i] == Field(fields[i].key, Plain(fields[i].value))
    decreases fields
  {
    if fields == [] then [] else [Field(fields[0].key, Plain(fields[0].value))] + PlainFields(fields[1..])
  }

  // No functions, symbols or non-finite numbers.
  predicate IsData(v: Value) {
    match v
    case Arr(items) => forall i :: 0 <= i < |items| ==> IsData(items[i])
    case Obj(fields) => forall i :: 0 <= i < |fields| ==> IsData(fields[i].value)
    case Unsupported => false
    case _ => true
  }

  // The printed value: sorted, then without its undefined properties; None prints as undefined.
  function Printed(v: Value): (r: Option<Value>)
    requires Valid(v) && IsData(v)
    ensures r.Some? ==> IsJson(r.value)
  {
    SortedConverts(v);
    Convert(Canonical(Plain(v)), false).value
  }

  // Section 25.5.2 of ECMA-262. An engine lists integer-like keys first; that order, too, is
  // settled by the keys alone.
  function Stringified(v: Value): Option<string>
    requires Valid(v) && IsData(v)
  {
    match Printed(v)
    case None => None
    case Some(w) => Some(Print(w))
  }

  predicate AreJsonEqual(a: Value, b: Value)
    requires Valid(a) && IsData(a) && Valid(b) && IsData(b)
  {
    Stringified(a) == Stringified(b)
  }

  // ------------------------------------------------------------------ plain values convert

  lemma SpreadIsDistinct(bytes: seq<Byte>, start: nat)
    ensures DistinctKeys(Spread(bytes, start))
  {
    var f := Spread(bytes, start);
    forall i, j | 0 <= i < j < |f| ensures f[i].key != f[j].key {
      DigitsParse(start + i);
      DigitsParse(start + j);
    }
  }

  lemma {:induction false} PlainIsSound(v: Value)
    requires Valid(v) && IsData(v)
    ensures Valid(Plain(v)) && IsData(Plain(v))
    decreases v
  {
    match v
    case Bytes(b) => SpreadIsDistinct(b, 0);
    case Arr(items) =>
      forall i | 0 <= i < |items| ensures Valid(Plain(items[i])) && IsData(Plain(items[i])) { PlainIsSound(items[i]); }
    case Obj(fields) =>
      forall i | 0 <= i < |fields| ensures Valid(Plain(fields[i].value)) && IsData(Plain(fields[i].value)) {
        PlainIsSound(fields[i].value);
      }
    case _ =>
  }

  lemma {:induction false} DataConverts(v: Value)
    requires IsData(v)
    ensures Convert(v, false).Ok?
    decreases v
  {
    match v
    case Arr(items) =>
      forall i | 0 <= i < |items| ensures Convert(items[i], false).Ok? { DataConverts(items[i]); }
      ItemsConvert(items);
    case Obj(fields) =>
      forall i | 0 <= i < |fields| ensures Convert(fields[i].value, false).Ok? { DataConverts(fields[i].value); }
      FieldsConvertErr(fields);
    case _ =>
  }

  // What is printed is valid and has the converted tree of the plain value.
  lemma SortedConverts(v: Value)
    requires Valid(v) && IsData(v)
    ensures Valid(Plain(v)) && Valid(Canonical(Plain(v)))
    ensures var c, t := Convert(Canonical(Plain(v)), false), ConvertTree(TreeOf(Plain(v)));
      && c.Ok? && t.Ok? && (c.value.None? <==> t.value.None?)
      && (c.value.Some? ==> Valid(c.value.value) && IsJson(c.value.value) && t.value == Some(TreeOf(c.value.value)))
  {
    var p := Plain(v);
    PlainIsSound(v);
    DataConverts(p);
    CanonicalKeepsTree(p);
    ConvertAgrees(p);
    ConvertAgrees(Canonical(p));
    hide Convert, ConvertTree, Plain, Canonical, TreeOf, IsData, IsJson;
  }

  // ------------------------------------------------------------------ sorted values stay sorted

  // The entries of every object are sorted, at every depth.
  predicate IsSorted(v: Value) {
    match v
    case Arr(items) => forall i :: 0 <= i < |items| ==> IsSorted(items[i])
    case Obj(fields) => StrictlySorted(fields) && forall i :: 0 <= i < |fields| ==> IsSorted(fields[i].value)
    case _ => true
  }

  lemma {:induction false} CanonicalIsSorted(v: Value)
    requires Valid(v)
    ensures IsSorted(Canonical(v))
    decreases v
  {
    match v
    case Arr(items) =>
      forall i | 0 <= i < |items| ensures IsSorted(Canonical(items[i])) { CanonicalIsSorted(items[i]); }
    case Obj(fields) =>
      forall i | 0 <= i < |fields| ensures IsSorted(Canonical(fields[i].value)) { CanonicalIsSorted(fields[i].value); }
      var c := CanonicalFields(fields);
      ObjIsDistinct(v);
      SortSorts(c);
      var s := Sort(c);
      hide Sort, StrictlySorted;
      forall i | 0 <= i < |s| ensures IsSorted(s[i].value) { assert s[i] in SetOf(c); }
    case _ =>
  }

  lemma {:induction false} SortedIsCanonical(v: Value)
    requires IsSorted(v)
    ensures Canonical(v) == v
    decreases v
  {
    match v
    case Arr(items) =>
      forall i | 0 <= i < |items| ensures Canonical(items[i]) == items[i] { SortedIsCanonical(items[i]); }
      assert CanonicalItems(items) == items;
    case Obj(fields) =>
      forall i | 0 <= i < |fields| ensures Canonical(fields[i].value) == fields[i].value {
        SortedIsCanonical(fields[i].value);
      }
      assert CanonicalFields(fields) == fields;
      SortedIsDistinct(fields);
      SortSorts(fields);
      SortedIsUnique(Sort(fields), fields);
    case _ =>
  }

  lemma {:induction false} ConvertKeepsSorted(v: Value)
    requires IsSorted(v) && Convert(v, false).Ok?
    ensures Convert(v, false).value.Some? ==> IsSorted(Convert(v, false).value.value)
    decreases v, 1
  {
    match v
    case Arr(items) =>
      ItemsConvert(items);
      forall i | 0 <= i < |items|
        ensures Convert(items[i], false).value.Some? ==> IsSorted(Convert(items[i], false).value.value)
      {
        ConvertKeepsSorted(items[i]);
      }
    case Obj(fields) => FieldsKeepSorted(fields);
    case _ =>
  }

  lemma {:induction false} FieldsKeepSorted(fields: seq<Field>)
    requires IsSorted(Obj(fields)) && ConvertFields(fields).Ok?
    ensures IsSorted(Obj(ConvertFields(fields).value))
    decreases fields
  {
    if fields != [] {
      var rest := fields[1..];
      FieldsConvertCons(fields);
      ConvertKeepsSorted(fields[0].value);
      FieldsKeepSorted(rest);
      var tail := ConvertFields(rest).value;
      hide Convert, ConvertFields, Less;
      forall j | 0 <= j < |tail| ensures Less(fields[0].key, tail[j].key) {
        FieldsConvertYields(rest, tail[j].key, tail[j].value);
        assert tail[j] == Field(tail[j].key, tail[j].value);
      }
    }
  }

  // ------------------------------------------------------------------ what the comparison decides

  // Two values compare equal exactly when their trees are the same once undefined properties are
  // dropped, undefined items are null and byte arrays are lists of entries.
  lemma JsonEqualityIsTreeEquality(a: Value, b: Value)
    requires Valid(a) && IsData(a) && Valid(b) && IsData(b)
    ensures AreJsonEqual(a, b) <==> ConvertTree(TreeOf(Plain(a))) == ConvertTree(TreeOf(Plain(b)))
  {
    SortedConverts(a);
    SortedConverts(b);
    var u, w := Printed(a), Printed(b);
    PrintedIsSorted(a);
    PrintedIsSorted(b);
    hide Convert, ConvertTree, Plain, Canonical, TreeOf, IsJson, IsData, Print, IsSorted;
    if u.Some? && w.Some? {
      if Print(u.value) == Print(w.value) { PrintInjective(u.value, w.value); }
      if TreeOf(u.value) == TreeOf(w.value) {
        CanonicalIsDetermined(u.value, w.value);
        SortedIsCanonical(u.value);
        SortedIsCanonical(w.value);
      }
    }
  }

  lemma PrintedIsSorted(v: Value)
    requires Valid(v) && IsData(v)
    ensures Printed(v).Some? ==> IsSorted(Printed(v).value)
  {
    SortedConverts(v);
    CanonicalIsSorted(Plain(v));
    ConvertKeepsSorted(Canonical(Plain(v)));
  }

  // In particular byte arrays compare as bytes, and null is not undefined.
  lemma BytesCompareAsBytes(x: seq<Byte>, y: seq<Byte>)
    ensures AreJsonEqual(Bytes(x), Bytes(y)) <==> x == y
  {
    JsonEqualityIsTreeEquality(Bytes(x), Bytes(y));
    NumbersConvert(x);
    NumbersConvert(y);
    if SameEntries(x, y) {
      IndicesAgree(x, y);
      IndicesAgree(y, x);
    }
    hide AreJsonEqual, ConvertTree, MapOf;
  }

  lemma NumbersConvert(x: seq<Byte>)
    ensures var t := TObj(MapOf(Spread(x, 0))); ConvertTree(t) == Ok(Some(t))
  {
    var f := Spread(x, 0);
    var m := MapOf(f);
    SpreadIsDistinct(x, 0);
    forall k | k in m ensures m[k].TNum? {
      var i :| 0 <= i < |f| && f[i].key == k;
      MapOfAt(f, i);
    }
    hide MapOf;
    var c := TreeObjConvert(m);
    assert c == m;
  }

  predicate SameEntries(x: seq<Byte>, y: seq<Byte>) {
    MapOf(Spread(x, 0)) == MapOf(Spread(y, 0))
  }

  lemma IndicesAgree(x: seq<Byte>, y: seq<Byte>)
    requires SameEntries(x, y)
    ensures |x| <= |y| && forall i :: 0 <= i < |x| ==> x[i] == y[i]
  {
    hide SameEntries;
    forall i | 0 <= i < |x| ensures i < |y| && x[i] == y[i] { IndexAgrees(x, y, i); }
    if |x| > |y| { IndexAgrees(x, y, |y|); }
  }

  lemma IndexAgrees(x: seq<Byte>, y: seq<Byte>, i: nat)
    requires SameEntries(x, y) && i < |x|
    ensures i < |y| && x[i] == y[i]
  {
    SpreadIsDistinct(x, 0);
    SpreadIsDistinct(y, 0);
    hide Digits;
    var j := SameBinding(Spread(x, 0), Spread(y, 0), i);
    hide MapOf;
    DigitsParse(i);
    DigitsParse(j);
  }

  // Values without undefined and bytes compare as their trees.
  lemma PureJsonCompares(a: Value, b: Value)
    requires Valid(a) && IsJson(a) && Valid(b) && IsJson(b)
    ensures IsData(a) && IsData(b) && (AreJsonEqual(a, b) <==> TreeOf(a) == TreeOf(b))
  {
    JsonIsPlain(a);
    JsonIsPlain(b);
    JsonEqualityIsTreeEquality(a, b);
    ConvertAgrees(a);
    ConvertAgrees(b);
    hide AreJsonEqual, Convert, ConvertTree, Plain, TreeOf, IsJson, IsData;
  }

  lemma {:induction false} JsonIsPlain(v: Value)
    requires IsJson(v)
    ensures IsData(v) && Plain(v) == v && Convert(v, false) == Ok(Some(v))
    decreases v
  {
    match v
    case Arr(items) =>
      forall i | 0 <= i < |items|
        ensures IsData(items[i]) && Plain(items[i]) == items[i] && Convert(items[i], false) == Ok(Some(items[i]))
      {
        JsonIsPlain(items[i]);
      }
      ItemsConvert(items);
      assert ConvertItems(items).value == items;
      assert PlainItems(items) == items;
    case Obj(fields) =>
      forall i | 0 <= i < |fields|
        ensures var w := fields[i].value; IsData(w) && Plain(w) == w && Convert(w, false) == Ok(Some(w))
      {
        JsonIsPlain(fields[i].value);
      }
      FieldsConvertToThemselves(fields);
      assert PlainFields(fields) == fields;
    case _ =>
  }

  lemma {:induction false} FieldsConvertToThemselves(fields: seq<Field>)
    requires forall i :: 0 <= i < |fields| ==> Convert(fields[i].value, false) == Ok(Some(fields[i].value))
    ensures ConvertFields(fields) == Ok(fields)
  {
    if fields != [] {
      FieldsConvertToThemselves(fields[1..]);
      FieldsConvertCons(fields);
      hide Convert;
      assert fields == [fields[0]] + fields[1..];
    }
  }
}
