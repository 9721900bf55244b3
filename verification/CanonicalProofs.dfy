// The canonical text of a value is a function of its tree, and determines the converted tree.
module CanonicalProofs {
  import opened Common
  import opened Base64Url
  import opened JsonValues
  import opened JsonProofs
  import opened JsonPrinting
  import opened CanonicalBytes

  // What Convert yields, seen through trees.
  ghost predicate Agrees(v: Value) {
    var c, t := Convert(v, false), ConvertTree(TreeOf(v));
    && (c.Err? <==> t.Err?)
    && (c.Ok? && t.Ok? ==>
          && (c.value.None? <==> t.value.None?)
          && (c.value.Some? ==> Valid(c.value.value) && IsJson(c.value.value) && t.value == Some(TreeOf(c.value.value))))
  }

  lemma InArray(v: Value)
    ensures Convert(v, true) == if v == Undefined then Ok(Some(Null)) else Convert(v, false)
    ensures Convert(v, false) == Ok(None) <==> v == Undefined
  {
  }

  lemma {:induction false} ItemsConvert(items: seq<Value>)
    ensures ConvertItems(items).Err? <==> exists i :: 0 <= i < |items| && Convert(items[i], false).Err?
    ensures ConvertItems(items).Ok? ==>
      && |ConvertItems(items).value| == |items|
      && forall i :: 0 <= i < |items| ==>
           && Convert(items[i], false).Ok?
           && ConvertItems(items).value[i] ==
              if Convert(items[i], false).value.Some? then Convert(items[i], false).value.value else Null
  {
    if items != [] {
      var rest := items[1..];
      ItemsConvert(rest);
      InArray(items[0]);
      hide Convert;
      assert forall i :: 0 <= i < |rest| ==> rest[i] == items[i + 1];
      if exists i :: 0 <= i < |items| && Convert(items[i], false).Err? {
        var i :| 0 <= i < |items| && Convert(items[i], false).Err?;
        assert i > 0 ==> Convert(rest[i - 1], false).Err?;
      }
    }
  }

  // The entry (k, w) is in the converted object exactly when some field k converts to w.
  ghost predicate Yields(fields: seq<Field>, k: string, w: Value) {
    exists i :: 0 <= i < |fields| && fields[i].key == k && Convert(fields[i].value, false) == Ok(Some(w))
  }

  // What the first entry adds.
  lemma FieldsConvertCons(fields: seq<Field>)
    requires fields != []
    ensures var c, rest := Convert(fields[0].value, false), ConvertFields(fields[1..]);
      && (ConvertFields(fields).Err? <==> c.Err? || rest.Err?)
      && (ConvertFields(fields).Ok? ==>
            ConvertFields(fields).value == (if c.value.Some? then [Field(fields[0].key, c.value.value)] else []) + rest.value)
  {
    hide Convert;
    if ConvertFields(fields[1..]).Ok? {
      assert [] + ConvertFields(fields[1..]).value == ConvertFields(fields[1..]).value;
    }
  }

  lemma {:induction false} FieldsConvertErr(fields: seq<Field>)
    ensures ConvertFields(fields).Err? <==> exists i :: 0 <= i < |fields| && Convert(fields[i].value, false).Err?
  {
    if fields != [] {
      var rest := fields[1..];
      FieldsConvertErr(rest);
      FieldsConvertCons(fields);
      hide Convert, ConvertFields;
      assert forall i :: 0 <= i < |rest| ==> rest[i] == fields[i + 1];
      if exists i :: 0 <= i < |fields| && Convert(fields[i].value, false).Err? {
        var i :| 0 <= i < |fields| && Convert(fields[i].value, false).Err?;
        assert i > 0 ==> Convert(rest[i - 1].value, false).Err?;
      }
    }
  }

  lemma YieldsCons(fields: seq<Field>, k: string, w: Value)
    requires fields != []
    ensures Yields(fields, k, w) <==>
      Yields(fields[1..], k, w) || (fields[0].key == k && Convert(fields[0].value, false) == Ok(Some(w)))
  {
    hide Convert;
    var rest := fields[1..];
    assert forall i :: 0 <= i < |rest| ==> rest[i] == fields[i + 1];
    if Yields(fields, k, w) {
      var i :| 0 <= i < |fields| && fields[i].key == k && Convert(fields[i].value, false) == Ok(Some(w));
      assert i > 0 ==> rest[i - 1].key == k;
    }
  }

  lemma {:induction false} FieldsConvertYields(fields: seq<Field>, k: string, w: Value)
    requires ConvertFields(fields).Ok?
    ensures Field(k, w) in ConvertFields(fields).value <==> Yields(fields, k, w)
  {
    if fields != [] {
      FieldsConvertCons(fields);
      FieldsConvertYields(fields[1..], k, w);
      YieldsCons(fields, k, w);
      hide Convert, ConvertFields, Yields;
    }
  }

  lemma {:induction false} FieldsConvertDistinct(fields: seq<Field>)
    requires ConvertFields(fields).Ok? && DistinctKeys(fields)
    ensures DistinctKeys(ConvertFields(fields).value)
  {
    if fields != [] {
      FieldsConvertCons(fields);
      var rest := fields[1..];
      FieldsConvertDistinct(rest);
      var tail := ConvertFields(rest).value;
      hide Convert, ConvertFields;
      forall j | 0 <= j < |tail| ensures tail[j].key != fields[0].key {
        FieldsConvertYields(rest, tail[j].key, tail[j].value);
        assert tail[j] == Field(tail[j].key, tail[j].value);
      }
    }
  }

  lemma {:induction false} ConvertAgrees(v: Value)
    requires Valid(v)
    ensures Agrees(v)
    decreases v
  {
    match v
    case Arr(items) =>
      forall i | 0 <= i < |items| ensures Agrees(items[i]) { ConvertAgrees(items[i]); }
      ArrAgrees(items);
    case Obj(fields) =>
      forall i | 0 <= i < |fields| ensures Agrees(fields[i].value) { ConvertAgrees(fields[i].value); }
      ObjAgrees(fields);
    case _ =>
  }

  lemma ArrAgrees(items: seq<Value>)
    requires forall i :: 0 <= i < |items| ==> Agrees(items[i])
    ensures Agrees(Arr(items))
  {
    ItemsConvert(items);
    var trees := TreesOf(items);
    assert forall i :: 0 <= i < |items| ==> trees[i] == TreeOf(items[i]) && Agrees(items[i]);
    if ConvertItems(items).Ok? {
      var r := ConvertItems(items).value;
      forall i | 0 <= i < |r| ensures Valid(r[i]) && IsJson(r[i]) { assert Agrees(items[i]); }
      var t := ConvertTree(TArr(trees)).value.value;
      assert TreesOf(r) == t.items;
    }
  }

  lemma ObjConvert(fields: seq<Field>)
    ensures Convert(Obj(fields), false) ==
      if ConvertFields(fields).Err? then Err(ConvertFields(fields).error) else Ok(Some(Obj(ConvertFields(fields).value)))
  {
  }

  // The converted entries r are those the fields yield.
  ghost predicate Entries(fields: seq<Field>, r: seq<Field>) {
    DistinctKeys(r) && forall k, w :: Field(k, w) in r <==> Yields(fields, k, w)
  }

  // The converted map c of m.
  ghost predicate ConvertsTo(m: map<string, Tree>, c: map<string, Tree>) {
    && (forall k :: k in m ==> ConvertTree(m[k]).Ok? && (ConvertTree(m[k]).value.Some? <==> k in c))
    && (forall k :: k in c ==> k in m && ConvertTree(m[k]) == Ok(Some(c[k])))
  }

  ghost predicate AllAgree(fields: seq<Field>) {
    DistinctKeys(fields) && forall i :: 0 <= i < |fields| ==> Agrees(fields[i].value)
  }

  lemma FieldInMap(fields: seq<Field>, i: nat)
    requires AllAgree(fields) && i < |fields|
    ensures var k, v, m := fields[i].key, fields[i].value, MapOf(fields);
      k in m && m[k] == TreeOf(v) && Agrees(v)
  {
    MapOfAt(fields, i);
  }

  lemma ObjAgrees(fields: seq<Field>)
    requires AllAgree(fields)
    ensures Agrees(Obj(fields))
  {
    if ConvertFields(fields).Err? {
      ObjFails(fields);
    } else {
      var r, c := ObjEntries(fields);
      ObjConvert(fields);
      EntriesAreJson(fields, r);
      ConvertedMap(fields, r, c);
      hide Convert, ConvertTree, ConvertFields, MapOf, Entries, ConvertsTo, AllAgree;
    }
  }

  lemma ObjFails(fields: seq<Field>)
    requires AllAgree(fields) && ConvertFields(fields).Err?
    ensures Agrees(Obj(fields))
  {
    FieldsConvertErr(fields);
    ObjConvert(fields);
    hide Convert, ConvertFields, MapOf, AllAgree, Valid, IsJson;
    var i :| 0 <= i < |fields| && Convert(fields[i].value, false).Err?;
    FieldInMap(fields, i);
    assert ConvertTree(MapOf(fields)[fields[i].key]).Err?;
  }

  lemma ObjEntries(fields: seq<Field>) returns (r: seq<Field>, c: map<string, Tree>)
    requires AllAgree(fields) && ConvertFields(fields).Ok?
    ensures r == ConvertFields(fields).value && Entries(fields, r)
    ensures ConvertsTo(MapOf(fields), c) && ConvertTree(TObj(MapOf(fields))) == Ok(Some(TObj(c)))
  {
    FieldsConvertErr(fields);
    FieldsConvertDistinct(fields);
    var m := MapOf(fields);
    r := ConvertFields(fields).value;
    forall k, w ensures Field(k, w) in r <==> Yields(fields, k, w) {
      FieldsConvertYields(fields, k, w);
    }
    hide Convert, ConvertFields, MapOf, Yields;
    forall k | k in m ensures ConvertTree(m[k]).Ok? {
      var i :| 0 <= i < |fields| && fields[i].key == k;
      FieldInMap(fields, i);
    }
    c := TreeObjConvert(m);
  }

  lemma TreeObjConvert(m: map<string, Tree>) returns (c: map<string, Tree>)
    requires forall k :: k in m ==> ConvertTree(m[k]).Ok?
    ensures ConvertTree(TObj(m)) == Ok(Some(TObj(c))) && ConvertsTo(m, c)
  {
    c := ConvertTree(TObj(m)).value.value.fields;
  }

  lemma EntriesAreJson(fields: seq<Field>, r: seq<Field>)
    requires AllAgree(fields) && Entries(fields, r)
    ensures Valid(Obj(r)) && IsJson(Obj(r))
  {
    hide Convert, ConvertTree;
    forall j | 0 <= j < |r| ensures Valid(r[j].value) && IsJson(r[j].value) {
      assert r[j] == Field(r[j].key, r[j].value) && r[j] in r;
      assert Yields(fields, r[j].key, r[j].value);
      var i :| 0 <= i < |fields| && Convert(fields[i].value, false) == Ok(Some(r[j].value));
      assert Agrees(fields[i].value);
    }
  }

  lemma ConvertedMap(fields: seq<Field>, r: seq<Field>, c: map<string, Tree>)
    requires AllAgree(fields) && Entries(fields, r) && ConvertsTo(MapOf(fields), c)
    ensures MapOf(r) == c
  {
    hide *;
    EntriesDistinct(fields, r);
    forall k | k in c ensures k in MapOf(r) && MapOf(r)[k] == c[k] {
      ConvertedBinding(fields, r, c, k, c[k]);
      BoundInMap(r, k, c[k]);
    }
    forall k | k in MapOf(r) ensures k in c {
      BoundInMap(r, k, MapOf(r)[k]);
      ConvertedBinding(fields, r, c, k, MapOf(r)[k]);
    }
  }

  lemma EntriesDistinct(fields: seq<Field>, r: seq<Field>)
    requires Entries(fields, r)
    ensures DistinctKeys(r)
  {
  }

  lemma ConvertedBinding(fields: seq<Field>, r: seq<Field>, c: map<string, Tree>, k: string, t: Tree)
    requires AllAgree(fields) && Entries(fields, r) && ConvertsTo(MapOf(fields), c)
    ensures Bound(r, k, t) <==> k in c && c[k] == t
  {
    hide Convert, ConvertTree, MapOf, TreeOf, AllAgree;
    if k in c && c[k] == t {
      assert k in MapOf(fields).Keys;
      var i :| 0 <= i < |fields| && fields[i].key == k;
      FieldInMap(fields, i);
      var w := Convert(fields[i].value, false).value.value;
      assert Yields(fields, k, w) && Field(k, w) in r;
      var j :| 0 <= j < |r| && r[j] == Field(k, w);
      assert r[j].key == k;
    }
    if Bound(r, k, t) {
      var j :| 0 <= j < |r| && r[j].key == k && TreeOf(r[j].value) == t;
      assert r[j] == Field(k, r[j].value) && r[j] in r;
      assert Yields(fields, k, r[j].value);
      var i :| 0 <= i < |fields| && fields[i].key == k && Convert(fields[i].value, false) == Ok(Some(r[j].value));
      FieldInMap(fields, i);
    }
  }

  // ------------------------------------------------------------------ canonical texts

  // canonicalBytes: a top-level undefined is a TypeError; the bytes are the UTF-8 form of this text.
  function CanonicalText(v: Value): Result<string, TypeError>
    requires Valid(v)
  {
    match Convert(v, false)
    case Err(e) => Err(e)
    case Ok(None) => Err(TypeError)
    case Ok(Some(w)) => ConvertAgrees(v); CanonicalIsJson(w); Ok(Print(Canonical(w)))
  }

  // Two values have the same canonical text exactly when their converted trees are the same, so
  // the text ignores key order and undefined fields, and nothing else.
  lemma CanonicalTextIsTree(a: Value, b: Value)
    requires Valid(a) && Valid(b)
    ensures CanonicalText(a).Ok? <==> ConvertTree(TreeOf(a)).Ok? && ConvertTree(TreeOf(a)).value.Some?
    ensures CanonicalText(a).Ok? && CanonicalText(b).Ok? ==>
      (CanonicalText(a) == CanonicalText(b) <==> ConvertTree(TreeOf(a)) == ConvertTree(TreeOf(b)))
  {
    ConvertAgrees(a);
    ConvertAgrees(b);
    if CanonicalText(a).Ok? && CanonicalText(b).Ok? {
      SortedPrintIsTree(Convert(a, false).value.value, Convert(b, false).value.value);
    }
  }
}
