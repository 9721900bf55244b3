// Base64url (sections 3.5 and 5 of RFC 4648) and the canonical-only decoder built on it.
// Shifts and masks appear as products, quotients and remainders by powers of two: every
// intermediate value stays below 2^24, so no 32-bit wrap-around can occur.
module Base64Url {
  import opened Common
  import opened SecureWipe

  datatype Base64Error = Character | Padding | Length

  type Sextet = x: int | 0 <= x < 64

  // ------------------------------------------------------------------ alphabet

  // Table 1 of RFC 4648.
  function Digit(v: Sextet): char {
    if v < 26 then (v + 65) as char
    else if v < 52 then (v + 71) as char
    else if v < 62 then (v - 4) as char
    else if v == 62 then '+'
    else '/'
  }

  predicate InAlphabet(c: char) {
    'A' <= c <= 'Z' || 'a' <= c <= 'z' || '0' <= c <= '9' || c == '+' || c == '/'
  }

  // The entry of the reverse table for a character: 0..63, '=' as 0, anything else -1.
  function Reverse(c: char): int {
    if 'A' <= c <= 'Z' then c as int - 65
    else if 'a' <= c <= 'z' then c as int - 71
    else if '0' <= c <= '9' then c as int + 4
    else if c == '+' then 62
    else if c == '/' then 63
    else if c == '=' then 0
    else -1
  }

  lemma DigitReverse(v: Sextet)
    ensures InAlphabet(Digit(v)) && Reverse(Digit(v)) == v && Digit(v) as int < 256
  {
  }

  lemma ReverseDigit(c: char)
    requires InAlphabet(c)
    ensures 0 <= Reverse(c) < 64 && Digit(Reverse(c)) == c
  {
  }

  ghost predicate IsReverseTable(rev: array<int>)
    reads rev
  {
    rev.Length == 256 && forall c: char :: c as int < 256 ==> rev[c as int] == Reverse(c)
  }

  // The table is filled in place, digit by digit, over an initial -1.
  method BuildReverseTable() returns (rev: array<int>)
    ensures fresh(rev) && IsReverseTable(rev)
    ensures forall b: array<Byte> :: fresh(b) ==> IsZero(b)
  {
    rev := new int[256](_ => -1);
    var i := 0;
    while i < 64
      invariant 0 <= i <= 64
      invariant forall b: array<Byte> :: fresh(b) ==> IsZero(b)
      invariant forall c: char :: c as int < 256 ==>
        rev[c as int] == if InAlphabet(c) && Reverse(c) < i then Reverse(c) else -1
    {
      DigitReverse(i);
      forall c: char | InAlphabet(c) && Reverse(c) == i ensures c == Digit(i) { ReverseDigit(c); }
      rev[Digit(i) as int] := i;
      i := i + 1;
    }
    rev['=' as int] := 0;
  }

  function ToUrl(c: char): char {
    if c == '+' then '-' else if c == '/' then '_' else c
  }

  function ToStd(c: char): char {
    if c == '-' then '+' else if c == '_' then '/' else c
  }

  // ------------------------------------------------------------------ encoding

  function Quad(a: Byte, b: Byte, c: Byte): (q: string)
    ensures |q| == 4
  {
    var n := Join8(a, b, c);
    [Digit(n / 262144), Digit(n / 4096 % 64), Digit(n / 64 % 64), Digit(n % 64)]
  }

  // (a << 16) | (b << 8) | c on three bytes.
  function Join8(a: int, b: int, c: int): (n: int)
    ensures 0 <= a < 256 && 0 <= b < 256 && 0 <= c < 256 ==> 0 <= n < 16777216
  {
    a * 65536 + b * 256 + c
  }

  // (c0 << 18) | (c1 << 12) | (c2 << 6) | c3 on four 6-bit values.
  function Join6(c0: int, c1: int, c2: int, c3: int): (n: int)
    ensures 0 <= c0 < 64 && 0 <= c1 < 64 && 0 <= c2 < 64 && 0 <= c3 < 64 ==> 0 <= n < 16777216
  {
    c0 * 262144 + c1 * 4096 + c2 * 64 + c3
  }

  function StdEncode(b: seq<Byte>): string {
    if |b| >= 3 then Quad(b[0], b[1], b[2]) + StdEncode(b[3..])
    else if |b| == 2 then Quad(b[0], b[1], 0)[..3]
    else if |b| == 1 then Quad(b[0], 0, 0)[..2]
    else ""
  }

  function Encode(b: seq<Byte>): string {
    MapSeq(ToUrl, StdEncode(b))
  }

  lemma StdEncodeStep(b: seq<Byte>, i: nat)
    requires i + 3 <= |b|
    ensures StdEncode(b[i..]) == Quad(b[i], b[i + 1], b[i + 2]) + StdEncode(b[i + 3..])
  {
    hide Quad;
    assert b[i..][3..] == b[i + 3..];
  }

  method EncodeBase64Url(bytes: array<Byte>) returns (text: string)
    ensures text == Encode(bytes[..])
    ensures forall b: array<Byte> :: fresh(b) ==> IsZero(b)
  {
    hide Quad, IsZero;
    var len := bytes.Length;
    var end := len - len % 3;
    var joined := "";
    var i := 0;
    while i < end
      invariant 0 <= i <= end && i % 3 == 0
      invariant StdEncode(bytes[..]) == joined + StdEncode(bytes[..][i..])
      invariant forall b: array<Byte> :: fresh(b) ==> IsZero(b)
    {
      StdEncodeStep(bytes[..], i);
      joined := joined + Quad(bytes[i], bytes[i + 1], bytes[i + 2]);
      i := i + 3;
    }
    var rem := len - end;
    if rem == 1 {
      joined := joined + Quad(bytes[end], 0, 0)[..2];
    } else if rem == 2 {
      joined := joined + Quad(bytes[end], bytes[end + 1], 0)[..3];
    }
    assert bytes[..][end..] == bytes[end..];
    text := MapSeq(ToUrl, joined);
  }

  // ------------------------------------------------------------------ decoding

  function TrailingPads(s: string): nat {
    if |s| >= 2 && s[|s| - 1] == '=' && s[|s| - 2] == '=' then 2
    else if |s| >= 1 && s[|s| - 1] == '=' then 1
    else 0
  }

  // The pattern ^[A-Za-z0-9+/]*={0,2}$.
  predicate MatchesPattern(s: string) {
    forall i :: 0 <= i < |s| - TrailingPads(s) ==> InAlphabet(s[i])
  }

  function PadText(s: string): string {
    if |s| % 4 == 2 then s + "==" else if |s| % 4 == 3 then s + "=" else s
  }

  function Triple(q: string): (t: seq<Byte>)
    requires |q| == 4 && forall i :: 0 <= i < 4 ==> 0 <= Reverse(q[i]) < 64
    ensures |t| == 3
  {
    var n := Join6(Reverse(q[0]), Reverse(q[1]), Reverse(q[2]), Reverse(q[3]));
    [n / 65536, n / 256 % 256, n % 256]
  }

  predicate Quads(s: string) {
    |s| % 4 == 0 && forall i :: 0 <= i < |s| ==> 0 <= Reverse(s[i]) < 64
  }

  function Triples(s: string): (t: seq<Byte>)
    requires Quads(s)
    ensures |t| == |s| / 4 * 3
  {
    if |s| == 0 then [] else Triple(s[..4]) + Triples(s[4..])
  }

  function Decode(text: string): Result<seq<Byte>, Base64Error> {
    DecodeStd(MapSeq(ToStd, text))
  }

  function DecodeStd(b64: string): Result<seq<Byte>, Base64Error> {
    if !MatchesPattern(b64) then Err(Character)
    else if '=' in b64 && |b64| % 4 != 0 then Err(Padding)
    else if |b64| % 4 == 1 then Err(Length)
    else
      var s := PadText(b64);
      PaddedIsQuads(b64);
      Ok(Triples(s)[..|s| / 4 * 3 - TrailingPads(s)])
  }

  lemma PaddedIsQuads(b64: string)
    requires MatchesPattern(b64) && |b64| % 4 != 1 && ('=' in b64 ==> |b64| % 4 == 0)
    ensures Quads(PadText(b64)) && TrailingPads(PadText(b64)) <= |PadText(b64)| / 4 * 3
  {
    var s := PadText(b64);
    forall i | 0 <= i < |s| ensures 0 <= Reverse(s[i]) < 64 {
      if i < |b64| - TrailingPads(b64) { ReverseDigit(s[i]); }
    }
  }

  lemma TriplesSplit(s: string, i: nat)
    requires Quads(s) && i % 4 == 0 && i + 4 <= |s|
    ensures Quads(s[..i]) && Quads(s[..i + 4])
    ensures Triples(s[..i + 4]) == Triples(s[..i]) + Triple(s[i..i + 4])
    decreases i
  {
    hide Triple, Reverse;
    if i == 0 {
      assert s[..4][4..] == [] && s[..4][..4] == s[0..4];
    } else {
      TriplesSplit(s[4..], i - 4);
      assert s[4..][..i - 4] == s[..i][4..] && s[4..][..i] == s[..i + 4][4..];
      assert s[4..][i - 4..i] == s[i..i + 4];
      assert s[..i][..4] == s[..4] == s[..i + 4][..4];
    }
  }

  function Min(a: int, b: int): int {
    if a <= b then a else b
  }

  // One step of the decoding loop; its rejection is never taken once the pattern matched.
  method LookUp(rev: array<int>, q: string) returns (t: seq<Byte>)
    requires IsReverseTable(rev)
    requires |q| == 4 && forall i :: 0 <= i < 4 ==> 0 <= Reverse(q[i]) < 64
    ensures t == Triple(q)
    ensures forall b: array<Byte> :: fresh(b) ==> IsZero(b)
  {
    var c0, c1, c2, c3 := rev[q[0] as int], rev[q[1] as int], rev[q[2] as int], rev[q[3] as int];
    if c0 < 0 || c1 < 0 || c2 < 0 || c3 < 0 {
      assert false;
    }
    var n := Join6(c0, c1, c2, c3);
    t := [n / 65536, n / 256 % 256, n % 256];
  }

  // The three guarded writes of one step.
  method WriteTriple(out: array<Byte>, start: nat, t: seq<Byte>) returns (next: nat)
    requires start <= out.Length && |t| == 3
    modifies out
    ensures next == Min(out.Length, start + 3)
    ensures out[..next] == old(out[..start]) + t[..next - start]
    ensures forall b: array<Byte> :: fresh(b) ==> IsZero(b)
  {
    next := start;
    if next < out.Length { out[next] := t[0]; next := next + 1; }
    if next < out.Length { out[next] := t[1]; next := next + 1; }
    if next < out.Length { out[next] := t[2]; next := next + 1; }
  }

  // The decoding loop fills the output array exactly.
  method FillOutput(s: string, outLen: nat) returns (out: array<Byte>)
    requires Quads(s) && outLen <= |s| / 4 * 3
    ensures fresh(out) && out[..] == Triples(s)[..outLen]
    ensures forall b: array<Byte> :: fresh(b) && b != out ==> IsZero(b)
  {
    hide Reverse, Triple, Triples;
    var rev := BuildReverseTable();
    out := new Byte[outLen](_ => 0);
    var outIndex := 0;
    var i := 0;
    while i < |s|
      invariant 0 <= i <= |s| && i % 4 == 0
      invariant fresh(out) && out.Length == outLen && outIndex == Min(outLen, i / 4 * 3)
      invariant fresh(rev) && IsReverseTable(rev)
      invariant forall b: array<Byte> :: fresh(b) && b != out ==> IsZero(b)
      invariant Quads(s[..i]) && out[..outIndex] == Triples(s[..i])[..outIndex]
    {
      TriplesSplit(s, i);
      var t := LookUp(rev, s[i..i + 4]);
      ghost var was := outIndex;
      outIndex := WriteTriple(out, outIndex, t);
      PrefixStep(Triples(s[..i]), t, was, outIndex);
      i := i + 4;
    }
    assert s[..i] == s && out[..outIndex] == out[..];
  }

  lemma PrefixStep(done: seq<Byte>, t: seq<Byte>, was: nat, next: nat)
    requires was <= |done| && was <= next <= was + |t| && (next > was ==> was == |done|)
    ensures done[..was] + t[..next - was] == (done + t)[..next]
  {
  }

  method DecodeBase64Url(text: string) returns (r: Result<array<Byte>, Base64Error>)
    ensures r.Err? <==> Decode(text).Err?
    ensures r.Err? ==> r.error == Decode(text).error
    ensures r.Ok? ==> fresh(r.value) && r.value[..] == Decode(text).value
    ensures forall b: array<Byte> :: fresh(b) ==> IsZero(b) || (r.Ok? && b == r.value)
  {
    var b64 := MapSeq(ToStd, text);
    if !MatchesPattern(b64) { return Err(Character); }
    if '=' in b64 && |b64| % 4 != 0 { return Err(Padding); }
    if |b64| % 4 == 1 { return Err(Length); }
    var s := PadText(b64);
    PaddedIsQuads(b64);
    var out := FillOutput(s, |s| / 4 * 3 - TrailingPads(s));
    r := Ok(out);
  }
}
