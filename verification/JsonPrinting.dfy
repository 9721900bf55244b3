// Printed JSON is read back by a reader written from the grammar of RFC 8259 (without insignificant
// white space, and with integers as the only numbers), so a text determines its value.
module JsonPrinting {
  import opened Common
  import opened JsonValues
  import opened JsonProofs

  // ------------------------------------------------------------------ the reader: strings

  function HexValue(c: char): Option<int> {
    if '0' <= c <= '9' then Some(c as int - 48)
    else if 'a' <= c <= 'f' then Some(c as int - 87)
    else if 'A' <= c <= 'F' then Some(c as int - 55)
    else None
  }

  // Four hexadecimal digits.
  function Hex4(s: string): (r: Option<int>)
    ensures r.Some? ==> 0 <= r.value < 0x10000 && |s| >= 4
  {
    if |s| < 4 || HexValue(s[0]).None? || HexValue(s[1]).None? || HexValue(s[2]).None? || HexValue(s[3]).None? then None
    else Some(
      HexValue(s[0]).value * 4096 + HexValue(s[1]).value * 256 + HexValue(s[2]).value * 16 + HexValue(s[3]).value)
  }

  // What follows a backslash: one character, four digits of a code unit, or two such for a pair of surrogates.
  function ReadEscape(s: string): (r: Option<(char, string)>)
    ensures r.Some? ==> |r.value.1| < |s|
  {
    if s == "" then None
    else match s[0]
      case '\"' => Some(('\"', s[1..]))
      case '\\' => Some(('\\', s[1..]))
      case '/' => Some(('/', s[1..]))
      case 'b' => Some((8 as char, s[1..]))
      case 'f' => Some((12 as char, s[1..]))
      case 'n' => Some((10 as char, s[1..]))
      case 'r' => Some((13 as char, s[1..]))
      case 't' => Some((9 as char, s[1..]))
      case 'u' =>
        (match Hex4(s[1..])
         case None => None
         case Some(n) =>
           if n < 0xD800 || n >= 0xE000 then Some((n as char, s[5..]))
           else if n < 0xDC00 && |s| >= 11 && s[5] == '\\' && s[6] == 'u' && Hex4(s[7..]).Some?
                   && 0xDC00 <= Hex4(s[7..]).value < 0xE000
           then Some(((0x10000 + (n - 0xD800) * 0x400 + (Hex4(s[7..]).value - 0xDC00)) as char, s[11..]))
           else None)
      case _ => None
  }

  // The characters up to the closing quotation mark, and what follows it.
  function ReadChars(s: string): (r: Option<(string, string)>)
    ensures r.Some? ==> |r.value.1| < |s|
    decreases |s|
  {
    if s == "" || s[0] as int < 0x20 then None
    else if s[0] == '\"' then Some(("", s[1..]))
    else
      var first := if s[0] == '\\' then ReadEscape(s[1..]) else Some((s[0], s[1..]));
      if first.None? then None
      else match ReadChars(first.value.1)
        case None => None
        case Some((text, rest)) => Some(([first.value.0] + text, rest))
  }

  // ------------------------------------------------------------------ the reader: numbers

  predicate IsDigit(c: char) {
    '0' <= c <= '9'
  }

  predicate AllDigits(s: string) {
    forall i :: 0 <= i < |s| ==> IsDigit(s[i])
  }

  function ParseDigits(s: string): int {
    if s == "" then 0 else ParseDigits(s[..|s| - 1]) * 10 + (s[|s| - 1] as int - 48)
  }

  // How many digits the text starts with.
  function DigitCount(s: string): (n: nat)
    ensures n <= |s|
  {
    if s == "" || !IsDigit(s[0]) then 0 else 1 + DigitCount(s[1..])
  }

  // Digits without a superfluous zero in front; a fraction or an exponent is no integer.
  function ReadDigits(s: string): (r: Option<(int, string)>)
    ensures r.Some? ==> |r.value.1| < |s|
  {
    var n := DigitCount(s);
    if n == 0 || (n > 1 && s[0] == '0') || (n < |s| && s[n] in {'.', 'e', 'E'}) then None
    else Some((ParseDigits(s[..n]), s[n..]))
  }

  function ReadNumber(s: string): (r: Option<(Value, string)>)
    ensures r.Some? ==> |r.value.1| < |s|
  {
    if s != "" && s[0] == '-' then
      match ReadDigits(s[1..])
      case None => None
      case Some((n, rest)) => Some((Num(-n), rest))
    else
      match ReadDigits(s)
      case None => None
      case Some((n, rest)) => Some((Num(n), rest))
  }

  // ------------------------------------------------------------------ the reader: values

  function ReadValue(s: string): (r: Option<(Value, string)>)
    ensures r.Some? ==> |r.value.1| < |s|
    decreases |s|, 1
  {
    if s == "" then None
    else if "null" <= s then Some((Null, s[4..]))
    else if "true" <= s then Some((Bool(true), s[4..]))
    else if "false" <= s then Some((Bool(false), s[5..]))
    else if s[0] == '\"' then
      match ReadChars(s[1..])
      case None => None
      case Some((text, rest)) => Some((Text(text), rest))
    else if s[0] == '[' then
      if "[]" <= s then Some((Arr([]), s[2..]))
      else match ReadItems(s[1..])
        case None => None
        case Some((items, rest)) => Some((Arr(items), rest))
    else if s[0] == '{' then
      if "{}" <= s then Some((Obj([]), s[2..]))
      else match ReadFields(s[1..])
        case None => None
        case Some((fields, rest)) => Some((Obj(fields), rest))
    else ReadNumber(s)
  }

  // One item or more, up to the closing bracket.
  function ReadItems(s: string): (r: Option<(seq<Value>, string)>)
    ensures r.Some? ==> |r.value.1| < |s|
    decreases |s|, 2
  {
    match ReadValue(s)
    case None => None
    case Some((v, rest)) =>
      if rest == "" then None
      else if rest[0] == ']' then Some(([v], rest[1..]))
      else if rest[0] != ',' then None
      else match ReadItems(rest[1..])
        case None => None
        case Some((more, last)) => Some(([v] + more, last))
  }

  function ReadField(s: string): (r: Option<(Field, string)>)
    ensures r.Some? ==> |r.value.1| < |s|
    decreases |s|, 2
  {
    if s == "" || s[0] != '\"' then None
    else match ReadChars(s[1..])
      case None => None
      case Some((key, rest)) =>
        if rest == "" || rest[0] != ':' then None
        else match ReadValue(rest[1..])
          case None => None
          case Some((v, last)) => Some((Field(key, v), last))
  }

  // One member or more, up to the closing brace.
  function ReadFields(s: string): (r: Option<(seq<Field>, string)>)
    ensures r.Some? ==> |r.value.1| < |s|
    decreases |s|, 3
  {
    match ReadField(s)
    case None => None
    case Some((f, rest)) =>
      if rest == "" then None
      else if rest[0] == '}' then Some(([f], rest[1..]))
      else if rest[0] != ',' then None
      else match ReadFields(rest[1..])
        case None => None
        case Some((more, last)) => Some(([f] + more, last))
  }

  // A text is one value and nothing else.
  function ReadJson(s: string): Option<Value> {
    match ReadValue(s)
    case None => None
    case Some((v, rest)) => if rest == "" then Some(v) else None
  }

  // ------------------------------------------------------------------ strings are read back

  lemma EscapesAreRead(c: char, s: string)
    ensures Escape(c) != "" && Escape(c)[0] != QUOTE && Escape(c)[0] as int >= 0x20
    ensures Escape(c)[0] == BACKSLASH ==> ReadEscape((Escape(c) + s)[1..]) == Some((c, s))
    ensures Escape(c)[0] != BACKSLASH ==> Escape(c) == [c]
  {
    var e := Escape(c);
    if |e| == 6 {
      ControlIsRead(c as int, s);
      assert (e + s)[1..] == ['u', '0', '0', HexDigit(c as int / 16), HexDigit(c as int % 16)] + s;
    } else if |e| == 2 {
      assert (e + s)[1..] == [e[1]] + s;
      assert (e + s)[1..][1..] == s;
    }
  }

  lemma ControlIsRead(n: int, s: string)
    requires 0 <= n < 32
    ensures ReadEscape(['u', '0', '0', HexDigit(n / 16), HexDigit(n % 16)] + s) == Some((n as char, s))
  {
    var t := ['u', '0', '0', HexDigit(n / 16), HexDigit(n % 16)] + s;
    assert t[1..][..4] == ['0', '0', HexDigit(n / 16), HexDigit(n % 16)];
    assert HexValue(HexDigit(n / 16)) == Some(n / 16) && HexValue(HexDigit(n % 16)) == Some(n % 16);
    assert Hex4(t[1..]) == Some(n);
    assert t[5..] == s;
  }

  lemma {:induction false} CharsAreRead(s: string, r: string)
    ensures ReadChars(EscapeAll(s) + ([QUOTE] + r)) == Some((s, r))
  {
    hide Escape, ReadEscape;
    if s == "" {
      assert EscapeAll(s) + ([QUOTE] + r) == [QUOTE] + r;
    } else {
      var u := EscapeAll(s[1..]) + ([QUOTE] + r);
      CharsAreRead(s[1..], r);
      EscapesAreRead(s[0], u);
      ConcatAssociates(Escape(s[0]), EscapeAll(s[1..]), [QUOTE] + r);
      var t := Escape(s[0]) + u;
      assert EscapeAll(s) + ([QUOTE] + r) == t && t[0] == Escape(s[0])[0];
      if Escape(s[0])[0] != BACKSLASH { assert t[1..] == u; }
      assert s == [s[0]] + s[1..];
    }
  }

  lemma QuoteTail(s: string, r: string)
    ensures Quote(s) + r == [QUOTE] + (EscapeAll(s) + ([QUOTE] + r))
    ensures (Quote(s) + r)[0] == QUOTE && (Quote(s) + r)[1..] == EscapeAll(s) + ([QUOTE] + r)
  {
  }

  // ------------------------------------------------------------------ numbers are read back

  lemma {:induction false} DigitsParse(n: nat)
    ensures Digits(n) != "" && AllDigits(Digits(n)) && ParseDigits(Digits(n)) == n
    ensures if n < 10 then |Digits(n)| == 1 else Digits(n)[0] != '0'
  {
    if n >= 10 {
      DigitsParse(n / 10);
      var d := Digits(n);
      assert d[..|d| - 1] == Digits(n / 10);
      assert d[0] == Digits(n / 10)[0];
    } else {
      assert Digits(n)[..0] == "";
    }
  }

  // A number is followed by nothing or by a delimiter.
  predicate Stops(r: string) {
    r == "" || r[0] == ',' || r[0] == ']' || r[0] == '}'
  }

  lemma {:induction false} DigitsAreCounted(d: string, r: string)
    requires AllDigits(d) && Stops(r)
    ensures DigitCount(d + r) == |d|
  {
    if d == "" {
      assert d + r == r;
    } else {
      assert (d + r)[1..] == d[1..] + r;
      DigitsAreCounted(d[1..], r);
    }
  }

  lemma NaturalsAreRead(m: nat, r: string)
    requires Stops(r)
    ensures ReadDigits(Digits(m) + r) == Some((m, r)) && Digits(m) != "" && IsDigit(Digits(m)[0])
  {
    var d := Digits(m);
    DigitsParse(m);
    DigitsAreCounted(d, r);
    hide Digits, ParseDigits, DigitCount;
    assert (d + r)[..|d|] == d && (d + r)[|d|..] == r && (d + r)[0] == d[0];
    assert |d| < |d + r| ==> (d + r)[|d|] == r[0];
  }

  lemma NumbersAreRead(n: int, r: string)
    requires Stops(r)
    ensures ReadNumber(PrintInt(n) + r) == Some((Num(n), r))
    ensures PrintInt(n) != "" && (IsDigit(PrintInt(n)[0]) || PrintInt(n)[0] == '-')
  {
    var m := if n < 0 then -n else n;
    var d := Digits(m);
    NaturalsAreRead(m, r);
    hide Digits, ReadDigits, Stops;
    assert (d + r)[0] == d[0];
    if n < 0 { MinusFirst(d, r); }
  }

  lemma MinusFirst(d: string, r: string)
    ensures var s := "-" + d + r; s != "" && s[0] == '-' && s[1..] == d + r
  {
    assert "-" + d + r == ['-'] + (d + r);
  }

  // ------------------------------------------------------------------ values are read back

  // What the reader does, by the first character.
  lemma ReadsByHead(s: string)
    requires s != ""
    ensures s[0] == QUOTE ==>
      ReadValue(s) == (match ReadChars(s[1..]) case None => None case Some((t, rest)) => Some((Text(t), rest)))
    ensures IsDigit(s[0]) || s[0] == '-' ==> ReadValue(s) == ReadNumber(s)
  {
  }

  lemma ReadsArrays(s: string)
    requires |s| > 1 && s[0] == '['
    ensures ReadValue(s) ==
      if s[1] == ']' then Some((Arr([]), s[2..]))
      else match ReadItems(s[1..]) case None => None case Some((items, rest)) => Some((Arr(items), rest))
  {
    assert "[]" <= s <==> s[1] == ']';
  }

  lemma ReadsObjects(s: string)
    requires |s| > 1 && s[0] == '{'
    ensures ReadValue(s) ==
      if s[1] == '}' then Some((Obj([]), s[2..]))
      else match ReadFields(s[1..]) case None => None case Some((fields, rest)) => Some((Obj(fields), rest))
  {
    assert "{}" <= s <==> s[1] == '}';
  }

  lemma ReadsLiterals(r: string)
    ensures ReadValue("null" + r) == Some((Null, r))
    ensures ReadValue("true" + r) == Some((Bool(true), r))
    ensures ReadValue("false" + r) == Some((Bool(false), r))
  {
    LiteralIsRead("null", r);
    LiteralIsRead("true", r);
    LiteralIsRead("false", r);
  }

  lemma {:induction false} PrintedIsRead(v: Value, r: string)
    requires IsJson(v) && Stops(r)
    ensures ReadValue(Print(v) + r) == Some((v, r))
    decreases v, 0
  {
    hide ReadValue, ReadChars, ReadItems, ReadFields, ReadNumber, PrintInt, Quote;
    match v
    case Null => ReadsLiterals(r);
    case Bool(b) => ReadsLiterals(r);
    case Num(n) =>
      NumbersAreRead(n, r);
      ReadsByHead(PrintInt(n) + r);
      assert (PrintInt(n) + r)[0] == PrintInt(n)[0];
    case Text(t) =>
      QuoteTail(t, r);
      CharsAreRead(t, r);
      ReadsByHead(Quote(t) + r);
    case Arr(items) =>
      ArrTail(items, r);
      hide Print, PrintItems;
      ReadsArrays(Print(v) + r);
      if items != [] { ItemsAreRead(items, r); }
    case Obj(fields) =>
      ObjTail(fields, r);
      hide Print, PrintFields;
      ReadsObjects(Print(v) + r);
      if fields != [] { FieldsAreRead(fields, r); }
  }

  lemma ArrTail(items: seq<Value>, r: string)
    requires IsJson(Arr(items))
    ensures var s := Print(Arr(items)) + r;
      && |s| > 1 && s[0] == '[' && s[1..] == PrintItems(items, true) + r
      && (s[1] == ']' <==> items == []) && (items == [] ==> s[2..] == r)
  {
    var s := Print(Arr(items)) + r;
    if items == [] {
      assert s == "[]" + r;
    } else {
      ItemsStart(items, r);
      assert s == "[" + (PrintItems(items, true) + r);
    }
  }

  lemma ObjTail(fields: seq<Field>, r: string)
    requires IsJson(Obj(fields))
    ensures var s := Print(Obj(fields)) + r;
      && |s| > 1 && s[0] == '{' && s[1..] == PrintFields(fields, true) + r
      && (s[1] == '}' <==> fields == []) && (fields == [] ==> s[2..] == r)
  {
    var s := Print(Obj(fields)) + r;
    if fields == [] {
      assert s == "{}" + r;
    } else {
      FieldsStart(fields, r);
      assert s == "{" + (PrintFields(fields, true) + r);
    }
  }

  lemma LiteralIsRead(word: string, r: string)
    requires word == "null" || word == "true" || word == "false"
    ensures word <= word + r && (word + r)[|word|..] == r && (word + r)[0] == word[0]
  {
  }

  // What follows the first item.
  lemma ItemsStart(items: seq<Value>, r: string)
    requires items != [] && IsJson(Arr(items))
    ensures PrintItems(items, true) + r == Print(items[0]) + (PrintItems(items[1..], false) + r)
    ensures PrintItems(items, false) == [','] + PrintItems(items, true)
    ensures Stops(PrintItems(items[1..], false) + r)
    ensures PrintItems(items, true) != "" && PrintItems(items, true)[0] != ']'
  {
    PrintHead(items[0]);
    var p, q := Print(items[0]), PrintItems(items[1..], false);
    assert q != "" && (q[0] == ']' || q[0] == ',');
    assert PrintItems(items, true) == "" + p + q && PrintItems(items, false) == "," + p + q;
    hide Print, PrintItems, IsJson;
    ThreeParts(p, q, r);
  }

  lemma ThreeParts(p: string, q: string, r: string)
    requires p != "" && q != ""
    ensures ("" + p + q) + r == p + (q + r) && "," + p + q == [','] + ("" + p + q)
    ensures (q + r)[0] == q[0] && ("" + p + q)[0] == p[0]
  {
    assert "" + p == p;
    ConcatAssociates(",", p, q);
    ConcatAssociates(p, q, r);
  }

  lemma PrintHead(v: Value)
    requires IsJson(v)
    ensures Print(v) != "" && Print(v)[0] != ']' && Print(v)[0] != '}'
  {
    if v.Num? { NumbersAreRead(v.n, ""); }
  }

  lemma {:induction false} ItemsAreRead(items: seq<Value>, r: string)
    requires items != [] && IsJson(Arr(items))
    ensures ReadItems(PrintItems(items, true) + r) == Some((items, r))
    decreases items, 1
  {
    hide ReadValue, Print, ReadItems, Stops;
    var rest := items[1..];
    var u := PrintItems(rest, false) + r;
    ItemsStart(items, r);
    PrintedIsRead(items[0], u);
    assert items == [items[0]] + rest && IsJson(Arr(rest));
    hide IsJson;
    if rest != [] {
      ItemsAreRead(rest, r);
      ItemsStart(rest, r);
      hide PrintItems;
    }
    ItemThenMore(Print(items[0]) + u, items[0], rest, u, if rest == [] then "" else PrintItems(rest, true), r);
  }

  // The last item is followed by a bracket, another one by a comma and the rest.
  lemma ItemThenMore(s: string, v: Value, rest: seq<Value>, u: string, p: string, r: string)
    requires ReadValue(s) == Some((v, u))
    requires if rest == [] then u == "]" + r else u == [','] + p + r && ReadItems(p + r) == Some((rest, r))
    ensures ReadItems(s) == Some(([v] + rest, r))
  {
    hide ReadValue;
    if rest == [] {
      assert u[1..] == r && [v] + rest == [v];
    } else {
      CommaFirst(p, r);
    }
  }

  lemma CommaFirst(p: string, r: string)
    ensures var u := [','] + p + r; u != "" && u[0] == ',' && u[1..] == p + r
  {
    assert [','] + p + r == [','] + (p + r);
  }

  // What follows the first key, and the first member.
  lemma FieldsStart(fields: seq<Field>, r: string)
    requires fields != [] && IsJson(Obj(fields))
    ensures PrintFields(fields, true) + r ==
      Quote(fields[0].key) + ([':'] + (Print(fields[0].value) + (PrintFields(fields[1..], false) + r)))
    ensures PrintFields(fields, false) == [','] + PrintFields(fields, true)
    ensures Stops(PrintFields(fields[1..], false) + r)
    ensures PrintFields(fields, true) != "" && PrintFields(fields, true)[0] == QUOTE
  {
    var k, p, q := Quote(fields[0].key), Print(fields[0].value), PrintFields(fields[1..], false);
    assert q != "" && (q + r)[0] == q[0] && k[0] == QUOTE;
    assert PrintFields(fields, true) == "" + k + ":" + p + q && "" + k == k;
    assert PrintFields(fields, false) == "," + k + ":" + p + q;
    hide Print, PrintFields, Quote;
    FourParts(k, p, q, r);
    FiveParts(k, p, q);
  }

  lemma FourParts(k: string, p: string, q: string, r: string)
    ensures (((k + ":") + p) + q) + r == k + ([':'] + (p + (q + r)))
  {
    ConcatAssociates(k + ":", p, q);
    ConcatAssociates(k + ":", p + q, r);
    ConcatAssociates(p, q, r);
    ConcatAssociates(k, ":", p + (q + r));
  }

  lemma FiveParts(k: string, p: string, q: string)
    ensures "," + k + ":" + p + q == "," + (((k + ":") + p) + q)
  {
    ConcatAssociates(",", k, ":");
    ConcatAssociates(",", k + ":", p);
    ConcatAssociates(",", k + ":" + p, q);
  }

  lemma FieldIsRead(f: Field, r: string)
    requires IsJson(f.value) && ReadValue(Print(f.value) + r) == Some((f.value, r))
    ensures ReadField(Quote(f.key) + ([':'] + (Print(f.value) + r))) == Some((f, r))
  {
    var u := [':'] + (Print(f.value) + r);
    QuoteTail(f.key, u);
    CharsAreRead(f.key, u);
    hide Print, Quote, ReadValue, ReadChars, EscapeAll;
    assert u[1..] == Print(f.value) + r;
    assert Quote(f.key) + u != "";
  }

  lemma {:induction false} FieldsAreRead(fields: seq<Field>, r: string)
    requires fields != [] && IsJson(Obj(fields))
    ensures ReadFields(PrintFields(fields, true) + r) == Some((fields, r))
    decreases fields, 1
  {
    hide ReadValue, ReadField, ReadFields, Print, Quote, Stops;
    var rest := fields[1..];
    var u := PrintFields(rest, false) + r;
    FieldsStart(fields, r);
    PrintedIsRead(fields[0].value, u);
    FieldIsRead(fields[0], u);
    assert fields == [fields[0]] + rest && IsJson(Obj(rest));
    hide IsJson;
    if rest != [] {
      FieldsAreRead(rest, r);
      FieldsStart(rest, r);
      hide PrintFields;
    }
    FieldThenMore(Quote(fields[0].key) + ([':'] + (Print(fields[0].value) + u)), fields[0], rest, u,
      if rest == [] then "" else PrintFields(rest, true), r);
  }

  lemma FieldThenMore(s: string, f: Field, rest: seq<Field>, u: string, p: string, r: string)
    requires ReadField(s) == Some((f, u))
    requires if rest == [] then u == "}" + r else u == [','] + p + r && ReadFields(p + r) == Some((rest, r))
    ensures ReadFields(s) == Some(([f] + rest, r))
  {
    hide ReadField;
    if rest == [] {
      assert u[1..] == r && [f] + rest == [f];
    } else {
      CommaFirst(p, r);
    }
  }

  // Reading undoes printing.
  lemma ReadPrint(v: Value)
    requires IsJson(v)
    ensures ReadJson(Print(v)) == Some(v)
  {
    PrintedIsRead(v, "");
    assert Print(v) + "" == Print(v);
  }

  lemma PrintInjective(a: Value, b: Value)
    requires IsJson(a) && IsJson(b) && Print(a) == Print(b)
    ensures a == b
  {
    ReadPrint(a);
    ReadPrint(b);
  }

  // For values without undefined and bytes, equal sorted texts mean equal up to the order of keys.
  lemma SortedPrintIsTree(a: Value, b: Value)
    requires Valid(a) && Valid(b) && IsJson(a) && IsJson(b)
    ensures IsJson(Canonical(a)) && IsJson(Canonical(b))
    ensures Print(Canonical(a)) == Print(Canonical(b)) <==> TreeOf(a) == TreeOf(b)
  {
    CanonicalIsJson(a);
    CanonicalIsJson(b);
    CanonicalKeepsTree(a);
    CanonicalKeepsTree(b);
    if Print(Canonical(a)) == Print(Canonical(b)) { PrintInjective(Canonical(a), Canonical(b)); }
    if TreeOf(a) == TreeOf(b) { CanonicalIsDetermined(a, b); }
  }
}
