// JavaScript values as the codecs see them: ordered (as objects list their entries) and
// unordered (as trees), with their printing and their sorting.
module JsonValues {
  import opened Common

  datatype Field = Field(key: string, value: Value)

  // Numbers are integers; Unsupported stands for functions, symbols and non-finite numbers.
  datatype Value =
    | Undefined
    | Null
    | Bool(b: bool)
    | Num(n: int)
    | Text(s: string)
    | Bytes(bytes: seq<Byte>)
    | Arr(items: seq<Value>)
    | Obj(fields: seq<Field>)
    | Unsupported

  // The same value with the order of its keys forgotten.
  datatype Tree =
    | TUndefined
    | TNull
    | TBool(b: bool)
    | TNum(n: int)
    | TText(s: string)
    | TBytes(bytes: seq<Byte>)
    | TArr(items: seq<Tree>)
    | TObj(fields: map<string, Tree>)
    | TUnsupported

  function Keys(fields: seq<Field>): (keys: seq<string>)
    ensures |keys| == |fields|
  {
    seq(|fields|, i requires 0 <= i < |fields| => fields[i].key)
  }

  // Objects have distinct keys at every depth.
  ghost predicate Valid(v: Value) {
    match v
    case Arr(items) => forall i :: 0 <= i < |items| ==> Valid(items[i])
    case Obj(fields) =>
      && (forall i, j :: 0 <= i < j < |fields| ==> fields[i].key != fields[j].key)
      && forall i :: 0 <= i < |fields| ==> Valid(fields[i].value)
    case _ => true
  }

  predicate IsJson(v: Value) {
    match v
    case Arr(items) => forall i :: 0 <= i < |items| ==> IsJson(items[i])
    case Obj(fields) => forall i :: 0 <= i < |fields| ==> IsJson(fields[i].value)
    case Undefined => false
    case Bytes(_) => false
    case Unsupported => false
    case _ => true
  }

  function TreeOf(v: Value): Tree
    decreases v
  {
    match v
    case Undefined => TUndefined
    case Null => TNull
    case Bool(b) => TBool(b)
    case Num(n) => TNum(n)
    case Text(s) => TText(s)
    case Bytes(b) => TBytes(b)
    case Arr(items) => TArr(TreesOf(items))
    case Obj(fields) => TObj(MapOf(fields))
    case Unsupported => TUnsupported
  }

  function TreesOf(items: seq<Value>): (trees: seq<Tree>)
    ensures |trees| == |items| && forall i :: 0 <= i < |items| ==> trees[i] == TreeOf(items[i])
    decreases items
  {
    if items == [] then [] else [TreeOf(items[0])] + TreesOf(items[1..])
  }

  function MapOf(fields: seq<Field>): (m: map<string, Tree>)
    ensures m.Keys == set i | 0 <= i < |fields| :: fields[i].key
    decreases fields
  {
    if fields == [] then map[] else MapOf(fields[1..])[fields[0].key := TreeOf(fields[0].value)]
  }

  // ------------------------------------------------------------------ key order

  // The UTF-16 code units of a character, and of a text: what JavaScript compares strings by.
  function CharUnits(c: char): (u: seq<int>)
    ensures |u| == 1 || |u| == 2
  {
    var n := c as int;
    if n < 0x10000 then [n] else [0xD800 + (n - 0x10000) / 0x400, 0xDC00 + (n - 0x10000) % 0x400]
  }

  function CodeUnits(s: string): seq<int> {
    if s == "" then [] else CharUnits(s[0]) + CodeUnits(s[1..])
  }

  predicate UnitsLess(a: seq<int>, b: seq<int>) {
    if b == [] then false
    else if a == [] then true
    else a[0] < b[0] || (a[0] == b[0] && UnitsLess(a[1..], b[1..]))
  }

  predicate Less(a: string, b: string) {
    UnitsLess(CodeUnits(a), CodeUnits(b))
  }

  lemma CharUnitsAreInjective(a: char, b: char, r: seq<int>, q: seq<int>)
    requires CharUnits(a) + r == CharUnits(b) + q
    ensures a == b && r == q
  {
    var s := CharUnits(a) + r;
    assert s[0] == CharUnits(a)[0] == CharUnits(b)[0];
    assert |CharUnits(a)| == |CharUnits(b)|;
    assert |CharUnits(a)| == 2 ==> s[1] == CharUnits(a)[1] == CharUnits(b)[1];
    assert r == s[|CharUnits(a)|..] && q == s[|CharUnits(b)|..];
  }

  lemma {:induction false} CodeUnitsAreInjective(a: string, b: string)
    requires CodeUnits(a) == CodeUnits(b)
    ensures a == b
  {
    if a != "" && b != "" {
      hide CharUnits;
      CharUnitsAreInjective(a[0], b[0], CodeUnits(a[1..]), CodeUnits(b[1..]));
      CodeUnitsAreInjective(a[1..], b[1..]);
      assert a == [a[0]] + a[1..] && b == [b[0]] + b[1..];
    }
  }

  lemma {:induction false} UnitsAreTotal(a: seq<int>, b: seq<int>)
    ensures a == b || UnitsLess(a, b) || UnitsLess(b, a)
  {
    if a != [] && b != [] && a[0] == b[0] {
      UnitsAreTotal(a[1..], b[1..]);
      assert a == [a[0]] + a[1..] && b == [b[0]] + b[1..];
    }
  }

  lemma {:induction false} UnitsAreTransitive(a: seq<int>, b: seq<int>, c: seq<int>)
    requires UnitsLess(a, b) && UnitsLess(b, c)
    ensures UnitsLess(a, c)
  {
    if a != [] && a[0] == b[0] == c[0] { UnitsAreTransitive(a[1..], b[1..], c[1..]); }
  }

  lemma {:induction false} UnitsAreIrreflexive(a: seq<int>)
    ensures !UnitsLess(a, a)
  {
    if a != [] { UnitsAreIrreflexive(a[1..]); }
  }

  lemma LessIsTotal(a: string, b: string)
    ensures a == b || Less(a, b) || Less(b, a)
  {
    UnitsAreTotal(CodeUnits(a), CodeUnits(b));
    if CodeUnits(a) == CodeUnits(b) { CodeUnitsAreInjective(a, b); }
  }

  lemma LessIsTransitive(a: string, b: string, c: string)
    requires Less(a, b) && Less(b, c)
    ensures Less(a, c)
  {
    UnitsAreTransitive(CodeUnits(a), CodeUnits(b), CodeUnits(c));
  }

  lemma LessIsIrreflexive(a: string)
    ensures !Less(a, a)
  {
    UnitsAreIrreflexive(CodeUnits(a));
  }

  // ------------------------------------------------------------------ sorting

  function Insert(f: Field, sorted: seq<Field>): seq<Field> {
    if sorted == [] || Less(f.key, sorted[0].key) then [f] + sorted
    else [sorted[0]] + Insert(f, sorted[1..])
  }

  // Entries sorted by key, by code unit.
  function Sort(fields: seq<Field>): (sorted: seq<Field>) {
    if fields == [] then [] else Insert(fields[0], Sort(fields[1..]))
  }

  // Every object's entries sorted, at every depth.
  function Canonical(v: Value): Value
    decreases v
  {
    match v
    case Arr(items) => Arr(CanonicalItems(items))
    case Obj(fields) => Obj(Sort(CanonicalFields(fields)))
    case _ => v
  }

  function CanonicalItems(items: seq<Value>): (r: seq<Value>)
    ensures |r| == |items| && forall i :: 0 <= i < |items| ==> r[i] == Canonical(items[i])
    decreases items
  {
    if items == [] then [] else [Canonical(items[0])] + CanonicalItems(items[1..])
  }

  function CanonicalFields(fields: seq<Field>): (r: seq<Field>)
    ensures |r| == |fields|
    ensures forall i :: 0 <= i < |fields| ==> r[i] == Field(fields[i].key, Canonical(fields[i].value))
    decreases fields
  {
    if fields == [] then []
    else [Field(fields[0].key, Canonical(fields[0].value))] + CanonicalFields(fields[1..])
  }

  // ------------------------------------------------------------------ printing

  const QUOTE: char := '\"'
  const BACKSLASH: char := '\\'

  function HexDigit(n: int): char
    requires 0 <= n < 16
  {
    if n < 10 then (n + 48) as char else (n + 87) as char
  }

  // Section 25.5.2 of ECMA-262: the escapes of a quoted JSON string.
  function Escape(c: char): string {
    if c == QUOTE || c == BACKSLASH then [BACKSLASH, c]
    else if c as int == 8 then [BACKSLASH, 'b']
    else if c as int == 9 then [BACKSLASH, 't']
    else if c as int == 10 then [BACKSLASH, 'n']
    else if c as int == 12 then [BACKSLASH, 'f']
    else if c as int == 13 then [BACKSLASH, 'r']
    else if c as int < 32 then [BACKSLASH, 'u', '0', '0', HexDigit(c as int / 16), HexDigit(c as int % 16)]
    else [c]
  }

  function EscapeAll(s: string): string {
    if s == "" then "" else Escape(s[0]) + EscapeAll(s[1..])
  }

  function Quote(s: string): string {
    [QUOTE] + EscapeAll(s) + [QUOTE]
  }

  function Digits(n: nat): string {
    if n < 10 then [(n + 48) as char] else Digits(n / 10) + [(n % 10 + 48) as char]
  }

  function PrintInt(n: int): string {
    if n < 0 then "-" + Digits(-n) else Digits(n)
  }

  function Print(v: Value): string
    requires IsJson(v)
    decreases v
  {
    match v
    case Null => "null"
    case Bool(b) => if b then "true" else "false"
    case Num(n) => PrintInt(n)
    case Text(s) => Quote(s)
    case Arr(items) => "[" + PrintItems(items, true)
    case Obj(fields) => "{" + PrintFields(fields, true)
  }

  function PrintItems(items: seq<Value>, first: bool): string
    requires forall i :: 0 <= i < |items| ==> IsJson(items[i])
    decreases items
  {
    if items == [] then "]"
    else (if first then "" else ",") + Print(items[0]) + PrintItems(items[1..], false)
  }

  function PrintFields(fields: seq<Field>, first: bool): string
    requires forall i :: 0 <= i < |fields| ==> IsJson(fields[i].value)
    decreases fields
  {
    if fields == [] then "}"
    else (if first then "" else ",") + Quote(fields[0].key) + ":" + Print(fields[0].value)
         + PrintFields(fields[1..], false)
  }
}
