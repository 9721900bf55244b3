// The canonical text that digests and signatures are computed on: values are converted to JSON
// (undefined dropped, bytes encoded), sorted and printed (RFC 8785).
module CanonicalBytes {
  import opened Common
  import opened Base64Url
  import opened JsonValues
  import opened JsonProofs
  import opened JsonPrinting

  datatype TypeError = TypeError

  // None is `undefined`; Err is a thrown TypeError.
  type Converted = Result<Option<Value>, TypeError>

  function Convert(v: Value, inArray: bool): Converted
    decreases v, 0
  {
    match v
    case Undefined => Ok(if inArray then Some(Null) else None)
    case Bytes(b) => Ok(Some(Text(Encode(b))))
    case Unsupported => Err(TypeError)
    case Arr(items) =>
      (match ConvertItems(items)
       case Err(e) => Err(e)
       case Ok(converted) => Ok(Some(Arr(converted))))
    case Obj(fields) =>
      (match ConvertFields(fields)
       case Err(e) => Err(e)
       case Ok(converted) => Ok(Some(Obj(converted))))
    case _ => Ok(Some(v))
  }

  function ConvertItems(items: seq<Value>): Result<seq<Value>, TypeError>
    decreases items, 1
  {
    if items == [] then Ok([])
    else
      match (Convert(items[0], true), ConvertItems(items[1..]))
      case (Err(e), _) => Err(e)
      case (_, Err(e)) => Err(e)
      case (Ok(head), Ok(tail)) => Ok([if head.Some? then head.value else Null] + tail)
  }

  function ConvertFields(fields: seq<Field>): Result<seq<Field>, TypeError>
    decreases fields, 1
  {
    if fields == [] then Ok([])
    else
      match (Convert(fields[0].value, false), ConvertFields(fields[1..]))
      case (Err(e), _) => Err(e)
      case (_, Err(e)) => Err(e)
      case (Ok(None), Ok(tail)) => Ok(tail)
      case (Ok(Some(w)), Ok(tail)) => Ok([Field(fields[0].key, w)] + tail)
  }

  function After<T>(done: seq<T>, rest: Result<seq<T>, TypeError>): Result<seq<T>, TypeError> {
    match rest
    case Err(e) => Err(e)
    case Ok(more) => Ok(done + more)
  }

  lemma AfterLaws<T>(done: seq<T>, one: seq<T>, rest: Result<seq<T>, TypeError>)
    ensures After([], rest) == rest && After(done, Ok([])) == Ok(done)
    ensures After(done, After(one, rest)) == After(done + one, rest)
  {
    if rest.Ok? {
      assert [] + rest.value == rest.value;
      ConcatAssociates(done, one, rest.value);
    }
    assert done + [] == done;
  }

  // The same as loops: the result of an object is filled entry by entry.
  method ConvertCanonicalJsonValue(v: Value, inArray: bool) returns (r: Converted)
    ensures r == Convert(v, inArray)
    decreases v
  {
    match v
    case Undefined => return Ok(if inArray then Some(Null) else None);
    case Bytes(b) => return Ok(Some(Text(Encode(b))));
    case Unsupported => return Err(TypeError);
    case Arr(items) =>
      var result: seq<Value> := [];
      assert items[0..] == items;
      AfterLaws<Value>([], [], ConvertItems(items));
      for i := 0 to |items|
        invariant ConvertItems(items) ==
          After(result, ConvertItems(items[i..]))
      {
        var converted := ConvertCanonicalJsonValue(items[i], true);
        assert items[i..][1..] == items[i + 1..];
        if converted.Err? { return Err(converted.error); }
        var item := if converted.value.Some? then converted.value.value else Null;
        AfterLaws(result, [item], ConvertItems(items[i + 1..]));
        result := result + [item];
      }
      assert items[|items|..] == [];
      AfterLaws(result, [], Ok([]));
      r := Ok(Some(Arr(result)));
    case Obj(fields) =>
      var result: seq<Field> := [];
      assert fields[0..] == fields;
      AfterLaws<Field>([], [], ConvertFields(fields));
      for i := 0 to |fields|
        invariant ConvertFields(fields) ==
          After(result, ConvertFields(fields[i..]))
      {
        var converted := ConvertCanonicalJsonValue(fields[i].value, false);
        assert fields[i..][1..] == fields[i + 1..];
        if converted.Err? { return Err(converted.error); }
        if converted.value.Some? {
          var entry := Field(fields[i].key, converted.value.value);
          AfterLaws(result, [entry], ConvertFields(fields[i + 1..]));
          result := result + [entry];
        }
      }
      assert fields[|fields|..] == [];
      AfterLaws(result, [], Ok([]));
      r := Ok(Some(Obj(result)));
    case _ => r := Ok(Some(v));
  }

  // ------------------------------------------------------------------ the same, on trees

  type ConvertedTree = Result<Option<Tree>, TypeError>

  // What a field contributes; an array element that is undefined becomes null.
  function ConvertTree(t: Tree): ConvertedTree
    decreases t, 0
  {
    match t
    case TUndefined => Ok(None)
    case TBytes(b) => Ok(Some(TText(Encode(b))))
    case TUnsupported => Err(TypeError)
    case TArr(items) =>
      if exists i :: 0 <= i < |items| && ConvertTree(items[i]).Err? then Err(TypeError)
      else Ok(Some(TArr(seq(|items|, i requires 0 <= i < |items| =>
        var c := ConvertTree(items[i]);
        if c.Ok? && c.value.Some? then c.value.value else TNull))))
    case TObj(fields) =>
      if exists k :: k in fields && ConvertTree(fields[k]).Err? then Err(TypeError)
      else Ok(Some(TObj(map k | k in fields && ConvertTree(fields[k]).Ok? && ConvertTree(fields[k]).value.Some? ::
        ConvertTree(fields[k]).value.value)))
    case _ => Ok(Some(t))
  }
}
