// What the canonical text of a value says, to a reader of JSON that knows nothing of the printer.
module CanonicalReading {
  import opened Common
  import opened Base64Url
  import opened Base64UrlProofs
  import opened JsonValues
  import opened JsonProofs
  import opened JsonPrinting
  import opened CanonicalBytes
  import opened CanonicalProofs
  import opened JsonEquality

  // ------------------------------------------------------------------ the order of keys

  // At the first place where they differ the one has the smaller code unit, or has ended.
  ghost predicate ComesBefore(u: seq<int>, w: seq<int>) {
    exists k :: 0 <= k <= |u| && k < |w| && u[..k] == w[..k] && (k == |u| || u[k] < w[k])
  }

  lemma {:induction false} LessIsBefore(u: seq<int>, w: seq<int>)
    ensures UnitsLess(u, w) <==> ComesBefore(u, w)
  {
    if u == [] || w == [] || u[0] != w[0] {
      if UnitsLess(u, w) { assert u[..0] == w[..0]; }
    } else {
      LessIsBefore(u[1..], w[1..]);
      if ComesBefore(u[1..], w[1..]) {
        var k :| 0 <= k <= |u[1..]| && k < |w[1..]| && u[1..][..k] == w[1..][..k] && (k == |u[1..]| || u[1..][k] < w[1..][k]);
        assert u[..k + 1] == [u[0]] + u[1..][..k] && w[..k + 1] == [w[0]] + w[1..][..k];
      }
      if ComesBefore(u, w) {
        var k :| 0 <= k <= |u| && k < |w| && u[..k] == w[..k] && (k == |u| || u[k] < w[k]);
        assert u[1..][..k - 1] == u[..k][1..] && w[1..][..k - 1] == w[..k][1..];
      }
    }
  }

  // In every object, at every depth, the keys ascend by their UTF-16 code units.
  ghost predicate KeysAscend(v: Value) {
    match v
    case Arr(items) => forall i :: 0 <= i < |items| ==> KeysAscend(items[i])
    case Obj(fields) =>
      && (forall i, j :: 0 <= i < j < |fields| ==> ComesBefore(CodeUnits(fields[i].key), CodeUnits(fields[j].key)))
      && forall i :: 0 <= i < |fields| ==> KeysAscend(fields[i].value)
    case _ => true
  }

  lemma {:induction false} SortedKeysAscend(v: Value)
    requires IsSorted(v)
    ensures KeysAscend(v)
    decreases v
  {
    match v
    case Arr(items) =>
      forall i | 0 <= i < |items| ensures KeysAscend(items[i]) { SortedKeysAscend(items[i]); }
    case Obj(fields) =>
      forall i, j | 0 <= i < j < |fields| ensures ComesBefore(CodeUnits(fields[i].key), CodeUnits(fields[j].key)) {
        LessIsBefore(CodeUnits(fields[i].key), CodeUnits(fields[j].key));
      }
      hide StrictlySorted, ComesBefore;
      forall i | 0 <= i < |fields| ensures KeysAscend(fields[i].value) { SortedKeysAscend(fields[i].value); }
    case _ =>
  }

  // ------------------------------------------------------------------ what is converted

  // The JSON value c stands for t: undefined properties are left out, undefined items are null,
  // bytes are their unpadded base64url text, and everything else is itself.
  ghost predicate StandsFor(c: Tree, t: Tree)
    decreases t
  {
    match t
    case TUndefined => false
    case TUnsupported => false
    case TBytes(b) => c.TText? && DecodeCanonical(c.s, None) == Some(b)
    case TArr(items) =>
      && c.TArr? && |c.items| == |items|
      && forall i :: 0 <= i < |items| ==> if items[i] == TUndefined then c.items[i] == TNull else StandsFor(c.items[i], items[i])
    case TObj(fields) =>
      && c.TObj? && (forall k :: k in c.fields <==> k in fields && fields[k] != TUndefined)
      && forall k :: k in fields && fields[k] != TUndefined ==> StandsFor(c.fields[k], fields[k])
    case _ => c == t
  }

  ghost predicate HoldsUnsupported(t: Tree) {
    match t
    case TUnsupported => true
    case TArr(items) => exists i :: 0 <= i < |items| && HoldsUnsupported(items[i])
    case TObj(fields) => exists k :: k in fields && HoldsUnsupported(fields[k])
    case _ => false
  }

  // Conversion refuses exactly the values that hold something unsupported, is undefined exactly
  // for undefined, and yields exactly the JSON value that stands for the given one.
  ghost predicate ConvertsExactly(t: Tree) {
    && (ConvertTree(t).Err? <==> HoldsUnsupported(t))
    && (ConvertTree(t) == Ok(None) <==> t == TUndefined)
    && forall c {:trigger StandsFor(c, t)} :: StandsFor(c, t) && !HoldsUnsupported(t) <==> ConvertTree(t) == Ok(Some(c))
  }

  lemma {:induction false} ConversionIsExact(t: Tree)
    ensures ConvertsExactly(t)
    decreases t
  {
    match t
    case TBytes(b) => CanonicalAccepts(b, None);
    case TArr(items) =>
      forall i | 0 <= i < |items| ensures ConvertsExactly(items[i]) { ConversionIsExact(items[i]); }
      ArrayConversion(items);
    case TObj(fields) =>
      forall k | k in fields ensures ConvertsExactly(fields[k]) { ConversionIsExact(fields[k]); }
      ObjectConversion(fields);
    case _ =>
  }

  lemma ArrayConversion(items: seq<Tree>)
    requires forall i :: 0 <= i < |items| ==> ConvertsExactly(items[i])
    ensures ConvertsExactly(TArr(items))
  {
    var t := TArr(items);
    if ConvertTree(t).Ok? {
      var d := ConvertTree(t).value.value;
      assert forall i :: 0 <= i < |items| ==> ConvertsExactly(items[i]) && ConvertTree(items[i]).Ok?;
      assert StandsFor(d, t);
      forall c | StandsFor(c, t) ensures c == d {
        forall i | 0 <= i < |items| ensures c.items[i] == d.items[i] {
          assert ConvertsExactly(items[i]);
          assert if items[i] == TUndefined then c.items[i] == TNull else StandsFor(c.items[i], items[i]);
        }
      }
    }
  }

  lemma ObjectConversion(fields: map<string, Tree>)
    requires forall k :: k in fields ==> ConvertsExactly(fields[k])
    ensures ConvertsExactly(TObj(fields))
  {
    var t := TObj(fields);
    if ConvertTree(t).Ok? {
      var m := TreeObjConvert(fields);
      var d := TObj(m);
      assert StandsFor(d, t);
      forall c | StandsFor(c, t) ensures c == d {
        forall k | k in m ensures k in c.fields && c.fields[k] == m[k] {
          assert ConvertsExactly(fields[k]) && k in fields && fields[k] != TUndefined;
          assert StandsFor(c.fields[k], fields[k]);
        }
        assert c.fields == m;
      }
    }
  }

  // ------------------------------------------------------------------ the text

  // The text exists exactly for values that are not undefined and hold nothing unsupported. Read as
  // JSON it is the one value, with ascending keys, that stands for the given one.
  lemma CanonicalTextIsRead(v: Value)
    requires Valid(v)
    ensures CanonicalText(v).Ok? <==> v != Undefined && !HoldsUnsupported(TreeOf(v))
    ensures CanonicalText(v).Ok? ==>
      var r := ReadJson(CanonicalText(v).value);
      r.Some? && KeysAscend(r.value) && StandsFor(TreeOf(r.value), TreeOf(v))
  {
    ConvertAgrees(v);
    ConversionIsExact(TreeOf(v));
    assert TreeOf(v) == TUndefined <==> v == Undefined;
    hide Convert, ConvertTree, StandsFor, HoldsUnsupported;
    if CanonicalText(v).Ok? {
      var w := Convert(v, false).value.value;
      CanonicalIsJson(w);
      CanonicalKeepsTree(w);
      CanonicalIsSorted(w);
      SortedKeysAscend(Canonical(w));
      ReadPrint(Canonical(w));
    }
  }
}
