// encodeURIComponent and decodeURIComponent (ECMA-262, section 19.2.6): UTF-16 text to percent-encoded
// UTF-8 and back.
module UriComponents {
  import opened Common

  // One UTF-16 code unit.
  type Unit = n: int | 0 <= n < 0x10000

  type Units = seq<Unit>

  const PERCENT: Unit := 37

  predicate IsScalar(c: int) {
    0 <= c < 0xD800 || 0xE000 <= c < 0x110000
  }

  // A code point in UTF-16.
  function ToUnits(c: int): Units
    requires IsScalar(c)
  {
    if c < 0x10000 then [c] else [0xD800 + (c - 0x10000) / 0x400, 0xDC00 + (c - 0x10000) % 0x400]
  }

  // The code point that text begins with, and how many units it takes; None for a lone surrogate.
  function FirstScalar(u: Units): (r: Option<(int, nat)>)
    requires u != []
    ensures r.Some? ==> IsScalar(r.value.0) && 1 <= r.value.1 <= |u|
  {
    var a: int := u[0];
    if a < 0xD800 || a >= 0xE000 then Some((a, 1))
    else if a >= 0xDC00 || |u| < 2 then None
    else
      var b: int := u[1];
      if 0xDC00 <= b < 0xE000 then Some(((a - 0xD800) * 0x400 + (b - 0xDC00) + 0x10000, 2)) else None
  }

  // Section 3 of RFC 3629.
  function Utf8(c: int): (bytes: seq<Byte>)
    requires IsScalar(c)
    ensures 1 <= |bytes| <= 4
  {
    if c < 0x80 then [c]
    else if c < 0x800 then [0xC0 + c / 0x40, 0x80 + c % 0x40]
    else if c < 0x10000 then [0xE0 + c / 0x40 / 0x40, 0x80 + c / 0x40 % 0x40, 0x80 + c % 0x40]
    else [0xF0 + c / 0x40 / 0x40 / 0x40, 0x80 + c / 0x40 / 0x40 % 0x40, 0x80 + c / 0x40 % 0x40, 0x80 + c % 0x40]
  }

  // Letters, digits and the marks - _ . ! ~ * ' ( ) are left alone.
  predicate Unescaped(c: int) {
    || 65 <= c <= 90 || 97 <= c <= 122 || 48 <= c <= 57
    || c == 45 || c == 95 || c == 46 || c == 33 || c == 126 || c == 42 || c == 39 || c == 40 || c == 41
  }

  function UpperHex(n: int): Unit
    requires 0 <= n < 16
  {
    if n < 10 then n + 48 else n + 55
  }

  function PercentByte(b: Byte): Units {
    [PERCENT, UpperHex(b / 16), UpperHex(b % 16)]
  }

  function PercentBytes(bytes: seq<Byte>): (r: Units)
    ensures |r| == 3 * |bytes|
  {
    if bytes == [] then [] else PercentByte(bytes[0]) + PercentBytes(bytes[1..])
  }

  function Escape(c: int): (r: Units)
    requires IsScalar(c)
    ensures |r| > 0
  {
    if Unescaped(c) then [c] else PercentBytes(Utf8(c))
  }

  // None is a thrown URIError.
  function EncodeURIComponent(u: Units): Option<Units>
    decreases |u|
  {
    if u == [] then Some([])
    else
      var first := FirstScalar(u);
      if first.None? then None
      else
        var rest := EncodeURIComponent(u[first.value.1..]);
        if rest.None? then None else Some(Escape(first.value.0) + rest.value)
  }

  function HexValue(h: int): Option<int> {
    if 48 <= h <= 57 then Some(h - 48)
    else if 65 <= h <= 70 then Some(h - 55)
    else if 97 <= h <= 102 then Some(h - 87)
    else None
  }

  // The byte escaped at position i.
  function ByteAt(t: Units, i: nat): (r: Option<int>)
    ensures r.Some? ==> 0 <= r.value < 256
  {
    if i + 3 > |t| || t[i] != PERCENT || HexValue(t[i + 1]).None? || HexValue(t[i + 2]).None? then None
    else Some(HexValue(t[i + 1]).value * 16 + HexValue(t[i + 2]).value)
  }

  function ContinuationAt(t: Units, i: nat): (r: Option<int>)
    ensures r.Some? ==> 0 <= r.value < 0x40
  {
    var b := ByteAt(t, i);
    if b.Some? && 0x80 <= b.value < 0xC0 then Some(b.value - 0x80) else None
  }

  predicate Within(c: int, least: int) {
    IsScalar(c) && c >= least
  }

  // The code point escaped at the start, and the length of its escapes. Overlong forms, surrogates
  // and values above the last code point are refused.
  function Unescape(t: Units): (r: Option<(int, nat)>)
    ensures r.Some? ==> IsScalar(r.value.0) && 1 <= r.value.1 <= |t|
  {
    var b := ByteAt(t, 0);
    if b.None? then None
    else if b.value < 0x80 then Some((b.value, 3))
    else if b.value < 0xC0 || b.value >= 0xF8 then None
    else if b.value < 0xE0 then
      var x := ContinuationAt(t, 3);
      if x.None? then None
      else
        var c := (b.value - 0xC0) * 0x40 + x.value;
        if Within(c, 0x80) then Some((c, 6)) else None
    else if b.value < 0xF0 then
      var x, y := ContinuationAt(t, 3), ContinuationAt(t, 6);
      if x.None? || y.None? then None
      else
        var c := (b.value - 0xE0) * 0x1000 + x.value * 0x40 + y.value;
        if Within(c, 0x800) then Some((c, 9)) else None
    else
      var x, y, z := ContinuationAt(t, 3), ContinuationAt(t, 6), ContinuationAt(t, 9);
      if x.None? || y.None? || z.None? then None
      else
        var c := (b.value - 0xF0) * 0x40000 + x.value * 0x1000 + y.value * 0x40 + z.value;
        if Within(c, 0x10000) then Some((c, 12)) else None
  }

  function DecodeURIComponent(t: Units): Option<Units>
    decreases |t|
  {
    if t == [] then Some([])
    else if t[0] != PERCENT then
      var rest := DecodeURIComponent(t[1..]);
      if rest.None? then None else Some([t[0]] + rest.value)
    else
      var first := Unescape(t);
      if first.None? then None
      else
        var rest := DecodeURIComponent(t[first.value.1..]);
        if rest.None? then None else Some(ToUnits(first.value.0) + rest.value)
  }

  // ------------------------------------------------------------------ decoding undoes encoding

  lemma ScalarBack(u: Units)
    requires u != [] && FirstScalar(u).Some?
    ensures ToUnits(FirstScalar(u).value.0) == u[..FirstScalar(u).value.1]
  {
  }

  lemma ByteBack(t: Units, i: nat, b: Byte)
    requires i + 3 <= |t| && t[i..i + 3] == PercentByte(b)
    ensures ByteAt(t, i) == Some(b)
  {
    var s := t[i..i + 3];
    assert t[i] == s[0] && t[i + 1] == s[1] && t[i + 2] == s[2];
    HexBack(b / 16);
    HexBack(b % 16);
  }

  lemma HexBack(n: int)
    requires 0 <= n < 16
    ensures HexValue(UpperHex(n)) == Some(n)
  {
  }

  lemma {:induction false} PercentBytesAt(bytes: seq<Byte>, k: nat)
    requires k < |bytes|
    ensures PercentBytes(bytes)[3 * k..3 * k + 3] == PercentByte(bytes[k])
  {
    hide PercentByte;
    var p, q := PercentBytes(bytes), PercentBytes(bytes[1..]);
    assert p == PercentByte(bytes[0]) + q;
    if k > 0 {
      PercentBytesAt(bytes[1..], k - 1);
      assert p[3 * k..3 * k + 3] == q[3 * (k - 1)..3 * (k - 1) + 3];
    }
  }

  lemma EscapedBytes(bytes: seq<Byte>, rest: Units, k: nat)
    requires k < |bytes|
    ensures ByteAt(PercentBytes(bytes) + rest, 3 * k) == Some(bytes[k])
  {
    hide PercentByte, PercentBytes, ByteAt;
    var p := PercentBytes(bytes);
    PercentBytesAt(bytes, k);
    assert (p + rest)[3 * k..3 * k + 3] == p[3 * k..3 * k + 3];
    ByteBack(p + rest, 3 * k, bytes[k]);
  }

  lemma SixBits(c: int)
    requires c >= 0
    ensures c == c / 0x40 * 0x40 + c % 0x40 && 0 <= c % 0x40 < 0x40
  {
  }

  lemma ContinuationBack(t: Units, i: nat, x: int)
    requires 0 <= x < 0x40 && ByteAt(t, i) == Some(0x80 + x)
    ensures ContinuationAt(t, i) == Some(x)
  {
    hide ByteAt;
  }

  lemma TwoBytes(t: Units, a: int, x: int)
    requires |t| >= 6 && 0 <= a < 0x20 && ByteAt(t, 0) == Some(0xC0 + a) && ContinuationAt(t, 3) == Some(x)
    requires Within(a * 0x40 + x, 0x80)
    ensures Unescape(t) == Some((a * 0x40 + x, 6))
  {
    hide ByteAt, ContinuationAt;
  }

  lemma ThreeBytes(t: Units, a: int, x: int, y: int)
    requires |t| >= 9 && 0 <= a < 0x10 && ByteAt(t, 0) == Some(0xE0 + a)
    requires ContinuationAt(t, 3) == Some(x) && ContinuationAt(t, 6) == Some(y)
    requires Within(a * 0x1000 + x * 0x40 + y, 0x800)
    ensures Unescape(t) == Some((a * 0x1000 + x * 0x40 + y, 9))
  {
    hide ByteAt, ContinuationAt;
  }

  lemma FourBytes(t: Units, a: int, x: int, y: int, z: int)
    requires |t| >= 12 && 0 <= a < 8 && ByteAt(t, 0) == Some(0xF0 + a)
    requires ContinuationAt(t, 3) == Some(x) && ContinuationAt(t, 6) == Some(y) && ContinuationAt(t, 9) == Some(z)
    requires Within(a * 0x40000 + x * 0x1000 + y * 0x40 + z, 0x10000)
    ensures Unescape(t) == Some((a * 0x40000 + x * 0x1000 + y * 0x40 + z, 12))
  {
    hide ByteAt, ContinuationAt;
  }

  lemma EscapeBack(c: int, rest: Units)
    requires IsScalar(c) && !Unescaped(c)
    ensures Unescape(Escape(c) + rest) == Some((c, |Escape(c)|))
  {
    var bytes := Utf8(c);
    var t := PercentBytes(bytes) + rest;
    hide ByteAt, ContinuationAt, PercentBytes, Unescaped, PercentByte;
    EscapedBytes(bytes, rest, 0);
    SixBits(c);
    if c < 0x80 {
    } else {
      hide Unescape;
      EscapedBytes(bytes, rest, 1);
      SixBits(c / 0x40);
      if c < 0x800 {
        ContinuationBack(t, 3, c % 0x40);
        TwoBytes(t, c / 0x40, c % 0x40);
      } else {
        EscapedBytes(bytes, rest, 2);
        SixBits(c / 0x40 / 0x40);
        if c < 0x10000 {
          ContinuationBack(t, 3, c / 0x40 % 0x40);
          ContinuationBack(t, 6, c % 0x40);
          ThreeBytes(t, c / 0x40 / 0x40, c / 0x40 % 0x40, c % 0x40);
        } else {
          EscapedBytes(bytes, rest, 3);
          ContinuationBack(t, 3, c / 0x40 / 0x40 % 0x40);
          ContinuationBack(t, 6, c / 0x40 % 0x40);
          ContinuationBack(t, 9, c % 0x40);
          FourBytes(t, c / 0x40 / 0x40 / 0x40, c / 0x40 / 0x40 % 0x40, c / 0x40 % 0x40, c % 0x40);
        }
      }
    }
  }

  lemma EscapeStartsWithPercent(c: int)
    requires IsScalar(c) && !Unescaped(c)
    ensures Escape(c)[0] == PERCENT
  {
  }

  // Decoding takes one escaped code point off the front.
  lemma DecodeOne(c: int, rest: Units)
    requires IsScalar(c)
    ensures DecodeURIComponent(Escape(c) + rest) ==
      if DecodeURIComponent(rest).None? then None else Some(ToUnits(c) + DecodeURIComponent(rest).value)
  {
    var t := Escape(c) + rest;
    if Unescaped(c) {
      assert t[0] == c && t[1..] == rest;
    } else {
      EscapeStartsWithPercent(c);
      EscapeBack(c, rest);
      hide Unescape, Escape, ToUnits, Unescaped;
      assert t[|Escape(c)|..] == rest;
      assert t[0] == PERCENT;
    }
  }

  lemma SplitAt(u: Units, n: nat)
    requires n <= |u|
    ensures u == u[..n] + u[n..]
  {
  }

  // Text without lone surrogates is read back from its percent-encoding.
  lemma {:induction false} UriRoundTrip(u: Units)
    requires EncodeURIComponent(u).Some?
    ensures DecodeURIComponent(EncodeURIComponent(u).value) == Some(u)
    decreases |u|
  {
    if u != [] {
      hide DecodeURIComponent, Escape, FirstScalar, ToUnits;
      var c, n := FirstScalar(u).value.0, FirstScalar(u).value.1;
      var rest := EncodeURIComponent(u[n..]).value;
      assert EncodeURIComponent(u).value == Escape(c) + rest;
      hide EncodeURIComponent;
      UriRoundTrip(u[n..]);
      ScalarBack(u);
      DecodeOne(c, rest);
      SplitAt(u, n);
    }
  }

  // Every surrogate is half of a pair.
  ghost predicate WellFormed(u: Units) {
    forall i :: 0 <= i < |u| ==> PairedAt(u, i)
  }

  predicate IsHigh(n: int) { 0xD800 <= n < 0xDC00 }
  predicate IsLow(n: int) { 0xDC00 <= n < 0xE000 }

  predicate PairedAt(u: Units, i: nat)
    requires i < |u|
  {
    && (IsHigh(u[i]) ==> i + 1 < |u| && IsLow(u[i + 1]))
    && (IsLow(u[i]) ==> i > 0 && IsHigh(u[i - 1]))
  }

  lemma PairedAfter(u: Units, n: nat)
    requires u != [] && FirstScalar(u).Some? && n == FirstScalar(u).value.1
    ensures WellFormed(u) <==> WellFormed(u[n..])
  {
    var v := u[n..];
    assert forall i :: 0 <= i < |v| ==> v[i] == u[i + n];
    if WellFormed(u) {
      forall i | 0 <= i < |v| ensures PairedAt(v, i) { assert PairedAt(u, i + n); }
    }
    if WellFormed(v) {
      forall i | 0 <= i < |u| ensures PairedAt(u, i) {
        if i >= n { assert PairedAt(v, i - n); }
      }
    }
  }

  // Exactly the texts without lone surrogates can be encoded.
  lemma {:induction false} EncodableIsWellFormed(u: Units)
    ensures EncodeURIComponent(u).Some? <==> WellFormed(u)
    decreases |u|
  {
    if u != [] {
      if FirstScalar(u).Some? {
        var n := FirstScalar(u).value.1;
        EncodableIsWellFormed(u[n..]);
        PairedAfter(u, n);
        hide FirstScalar, Escape, WellFormed;
      } else {
        assert !PairedAt(u, 0);
      }
    }
  }

  // ------------------------------------------------------------------ what is escaped

  // Letters, digits and - _ . ! ~ * ' ( ), written out.
  predicate IsPlain(c: int) {
    || 'A' as int <= c <= 'Z' as int || 'a' as int <= c <= 'z' as int || '0' as int <= c <= '9' as int
    || c in {'-' as int, '_' as int, '.' as int, '!' as int, '~' as int, '*' as int, '\'' as int, '(' as int, ')' as int}
  }

  predicate AllPlain(u: Units) {
    forall i :: 0 <= i < |u| ==> IsPlain(u[i])
  }

  lemma EscapeIsPlainOrLonger(c: int)
    requires IsScalar(c)
    ensures IsPlain(c) ==> Escape(c) == [c]
    ensures !IsPlain(c) ==> |Escape(c)| >= 3 && (c >= 0x10000 ==> |Escape(c)| == 12)
  {
  }

  // Exactly the texts of plain characters are left as they are; every other one gets longer.
  lemma {:induction false} PlainIsKept(u: Units)
    requires EncodeURIComponent(u).Some?
    ensures var e := EncodeURIComponent(u).value; |e| >= |u| && (e == u <==> AllPlain(u)) && (|e| == |u| <==> AllPlain(u))
    decreases |u|
  {
    if u != [] {
      var (c, n) := FirstScalar(u).value;
      PlainIsKept(u[n..]);
      EscapeIsPlainOrLonger(c);
      FirstIsPlain(u);
      hide Escape, IsPlain, FirstScalar;
      assert u == u[..n] + u[n..];
      if AllPlain(u) { assert AllPlain(u[n..]); }
      if IsPlain(c) && AllPlain(u[n..]) {
        forall i | 0 <= i < |u| ensures IsPlain(u[i]) { assert i > 0 ==> u[i] == u[1..][i - 1]; }
      }
    }
  }

  lemma FirstIsPlain(u: Units)
    requires u != [] && FirstScalar(u).Some?
    ensures var (c, n) := FirstScalar(u).value;
      (IsPlain(c) <==> IsPlain(u[0])) && (IsPlain(c) ==> n == 1 && c == u[0]) && n <= 2 && (n == 2 ==> c >= 0x10000)
  {
  }

  // What is written is plain, or a percent sign.
  lemma {:induction false} EncodingIsAscii(u: Units, i: nat)
    requires EncodeURIComponent(u).Some? && i < |EncodeURIComponent(u).value|
    ensures var e := EncodeURIComponent(u).value; IsPlain(e[i]) || e[i] == '%' as int
    decreases |u|
  {
    var (c, n) := FirstScalar(u).value;
    EscapeIsAscii(c);
    hide Escape, FirstScalar;
    if i >= |Escape(c)| { EncodingIsAscii(u[n..], i - |Escape(c)|); }
  }

  lemma EscapeIsAscii(c: int)
    requires IsScalar(c)
    ensures forall k :: 0 <= k < |Escape(c)| ==> IsPlain(Escape(c)[k]) || Escape(c)[k] == '%' as int
  {
    if !Unescaped(c) { PercentsAreAscii(Utf8(c)); }
    hide Utf8, PercentBytes;
  }

  lemma {:induction false} PercentsAreAscii(bytes: seq<Byte>)
    ensures forall k :: 0 <= k < |PercentBytes(bytes)| ==> IsPlain(PercentBytes(bytes)[k]) || PercentBytes(bytes)[k] == '%' as int
  {
    if bytes != [] {
      PercentsAreAscii(bytes[1..]);
      var b := PercentByte(bytes[0]);
      assert forall k :: 0 <= k < |b| ==> IsPlain(b[k]) || b[k] == '%' as int;
      hide IsPlain, PercentByte;
    }
  }
}
