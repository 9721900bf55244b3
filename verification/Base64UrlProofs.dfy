// What the encoder and the decoder promise together: they undo each other, the text is the
// bit string of the bytes cut into groups of six, and the canonical decoder is a bijection.
module Base64UrlProofs {
  import opened Common
  import opened Base64Url

  // ------------------------------------------------------------------ one group

  lemma Split24(n: int)
    requires 0 <= n < 16777216
    ensures 0 <= n / 262144 < 64 && 0 <= n / 65536 < 256
    ensures Join6(n / 262144, n / 4096 % 64, n / 64 % 64, n % 64) == n
    ensures Join8(n / 65536, n / 256 % 256, n % 256) == n
  {
    Base64Digits(n);
    Base256Digits(n);
  }

  lemma Base64Digits(n: int)
    requires 0 <= n < 16777216
    ensures 0 <= n / 262144 < 64
    ensures Join6(n / 262144, n / 4096 % 64, n / 64 % 64, n % 64) == n
  {
    var m := n / 64;
    assert m / 64 == n / 4096;
    assert n / 4096 / 64 == n / 262144;
    assert n == 64 * m + n % 64 && m == 64 * (n / 4096) + m % 64;
    assert n / 4096 == 64 * (n / 262144) + n / 4096 % 64;
  }

  lemma Base256Digits(n: int)
    requires 0 <= n < 16777216
    ensures 0 <= n / 65536 < 256
    ensures Join8(n / 65536, n / 256 % 256, n % 256) == n
  {
    var m := n / 256;
    assert m / 256 == n / 65536;
    assert n == 256 * m + n % 256;
  }

  lemma Unjoin8(a: int, b: int, c: int)
    requires 0 <= a < 256 && 0 <= b < 256 && 0 <= c < 256
    ensures var n := Join8(a, b, c); n / 65536 == a && n / 256 % 256 == b && n % 256 == c
  {
    var n := Join8(a, b, c);
    assert n == 256 * (256 * a + b) + c;
    assert n / 256 == 256 * a + b;
    Quotients(n);
  }

  lemma Unjoin6(c0: int, c1: int, c2: int, c3: int)
    requires 0 <= c0 < 64 && 0 <= c1 < 64 && 0 <= c2 < 64 && 0 <= c3 < 64
    ensures var n := Join6(c0, c1, c2, c3);
      n / 262144 == c0 && n / 4096 % 64 == c1 && n / 64 % 64 == c2 && n % 64 == c3
  {
    var n := Join6(c0, c1, c2, c3);
    var m := 4096 * c0 + 64 * c1 + c2;
    assert n == 64 * m + c3;
    assert n / 64 == m;
    assert m / 64 == 64 * c0 + c1;
    Quotients(n);
  }

  lemma TripleOfQuad(a: Byte, b: Byte, c: Byte)
    ensures forall i :: 0 <= i < 4 ==> InAlphabet(Quad(a, b, c)[i])
    ensures forall i :: 0 <= i < 4 ==> 0 <= Reverse(Quad(a, b, c)[i]) < 64
    ensures Triple(Quad(a, b, c)) == [a, b, c]
  {
    hide Join8, Join6, Reverse, Digit, InAlphabet;
    var n := Join8(a, b, c);
    Split24(n);
    Unjoin8(a, b, c);
    DigitReverse(n / 262144);
    DigitReverse(n / 4096 % 64);
    DigitReverse(n / 64 % 64);
    DigitReverse(n % 64);
  }

  lemma LowSextetsOfMultiple(k: int)
    ensures (64 * k) % 64 == 0 && (64 * k) / 64 == k
  {
  }

  lemma QuadIsQuads(a: Byte, b: Byte, c: Byte)
    ensures Quads(Quad(a, b, c))
  {
    TripleOfQuad(a, b, c);
  }

  // With trailing zero bytes the last digits are 'A', which the decoder reads like '='.
  lemma ShortQuads(a: int, b: int)
    requires 0 <= a < 256 && 0 <= b < 256
    ensures Quad(a, b, 0)[3] == 'A'
    ensures b == 0 ==> Quad(a, b, 0)[2] == 'A'
  {
    var k := a * 1024 + b * 4;
    LowSextetsOfMultiple(k);
    assert Join8(a, b, 0) == 64 * k;
    if b == 0 { LowSextetsOfMultiple(a * 16); }
  }

  lemma QuadOfTriple(q: string)
    requires |q| == 4 && forall i :: 0 <= i < 4 ==> InAlphabet(q[i])
    ensures forall i :: 0 <= i < 4 ==> 0 <= Reverse(q[i]) < 64
    ensures var t := Triple(q); Quad(t[0], t[1], t[2]) == q
  {
    hide Join8, Join6, Reverse, Digit, InAlphabet;
    forall i | 0 <= i < 4 ensures 0 <= Reverse(q[i]) < 64 && Digit(Reverse(q[i])) == q[i] { ReverseDigit(q[i]); }
    var c0, c1, c2, c3 := Reverse(q[0]), Reverse(q[1]), Reverse(q[2]), Reverse(q[3]);
    Unjoin6(c0, c1, c2, c3);
    Split24(Join6(c0, c1, c2, c3));
  }

  // ------------------------------------------------------------------ round trip

  predicate AllInAlphabet(s: string) {
    forall i :: 0 <= i < |s| ==> InAlphabet(s[i])
  }

  lemma {:induction false} StdEncodeShape(b: seq<Byte>)
    ensures AllInAlphabet(StdEncode(b)) && |StdEncode(b)| == (4 * |b| + 2) / 3
  {
    if |b| >= 3 {
      TripleOfQuad(b[0], b[1], b[2]);
      StdEncodeShape(b[3..]);
    } else if |b| == 2 {
      TripleOfQuad(b[0], b[1], 0);
    } else if |b| == 1 {
      TripleOfQuad(b[0], 0, 0);
    }
  }

  predicate UrlDigit(c: char) {
    'A' <= c <= 'Z' || 'a' <= c <= 'z' || '0' <= c <= '9' || c == '-' || c == '_'
  }

  lemma UrlAndBack(s: string)
    requires AllInAlphabet(s)
    ensures MapSeq(ToStd, MapSeq(ToUrl, s)) == s
  {
  }

  predicate Undone(s: string, b: seq<Byte>) {
    Quads(s) && |s| / 4 * 3 >= |b| && Triples(s)[..|b|] == b
  }

  lemma ShortTailUndone(a: Byte, b: Byte)
    ensures Undone(Quad(a, b, 0)[..3] + "=", [a, b])
    ensures b == 0 ==> Undone(Quad(a, b, 0)[..2] + "==", [a])
  {
    TripleOfQuad(a, b, 0);
    ShortQuads(a, b);
    hide Quad;
    var s, t := Quad(a, b, 0)[..3] + "=", Quad(a, b, 0)[..2] + "==";
    assert s[..4] == s && s[4..] == [] && t[..4] == t && t[4..] == [];
    assert Triple(s) == Triple(Quad(a, b, 0));
    assert b == 0 ==> Triple(t) == Triple(Quad(a, b, 0));
  }

  lemma PrependUndone(q: string, s: string, b: seq<Byte>)
    requires |q| == 4 && Quads(q) && Undone(s, b)
    ensures Undone(q + s, Triple(q) + b)
  {
    hide Triple, Reverse;
    assert (q + s)[..4] == q && (q + s)[4..] == s;
    forall i | 0 <= i < |q + s| ensures 0 <= Reverse((q + s)[i]) < 64 {
      assert i >= 4 ==> (q + s)[i] == s[i - 4];
    }
  }

  lemma NothingUndone()
    ensures Undone("", [])
  {
  }

  lemma PadTextPrepend(q: string, s: string)
    requires |q| == 4
    ensures PadText(q + s) == q + PadText(s)
  {
    assert |q + s| % 4 == |s| % 4;
    assert (q + s) + "==" == q + (s + "==") && (q + s) + "=" == q + (s + "=");
  }

  lemma {:induction false} PaddedTriples(b: seq<Byte>)
    ensures Undone(PadText(StdEncode(b)), b)
    decreases |b|, 1
  {
    hide Quad, Undone;
    if |b| >= 3 {
      PaddedTriplesLong(b, b[3..]);
    } else if |b| == 2 {
      ShortTailUndone(b[0], b[1]);
      assert b == [b[0], b[1]] && PadText(StdEncode(b)) == Quad(b[0], b[1], 0)[..3] + "=";
    } else if |b| == 0 {
      NothingUndone();
    } else {
      ShortTailUndone(b[0], 0);
      assert b == [b[0]] && PadText(StdEncode(b)) == Quad(b[0], 0, 0)[..2] + "==";
    }
  }

  lemma {:induction false} PaddedTriplesLong(b: seq<Byte>, rest: seq<Byte>)
    requires |b| >= 3 && rest == b[3..]
    ensures Undone(PadText(StdEncode(b)), b)
    decreases |b|, 0
  {
    var q := Quad(b[0], b[1], b[2]);
    hide Quad, PadText, Undone, Quads;
    PaddedTriples(rest);
    TripleOfQuad(b[0], b[1], b[2]);
    QuadIsQuads(b[0], b[1], b[2]);
    PadTextPrepend(q, StdEncode(rest));
    PrependUndone(q, PadText(StdEncode(rest)), rest);
    assert b == [b[0], b[1], b[2]] + rest;
  }

  // A text over the alphabet, as long as n bytes need, passes the checks and is padded to n bytes.
  lemma PaddedSize(e: string, n: nat)
    requires AllInAlphabet(e) && |e| == (4 * n + 2) / 3
    ensures MatchesPattern(e) && '=' !in e && |e| % 4 != 1
    ensures |PadText(e)| / 4 * 3 - TrailingPads(PadText(e)) == n
  {
    assert '=' !in e && (e != "" ==> e[|e| - 1] in e);
    var k, r := n / 3, n % 3;
    assert n == 3 * k + r && |e| == 4 * k + (if r == 0 then 0 else r + 1);
  }

  lemma StdDecodes(e: string, b: seq<Byte>)
    requires AllInAlphabet(e) && |e| == (4 * |b| + 2) / 3 && Undone(PadText(e), b)
    ensures DecodeStd(e) == Ok(b)
  {
    hide AllInAlphabet, Triples, PadText, TrailingPads, MatchesPattern, Quads;
    PaddedSize(e, |b|);
    PaddedIsQuads(e);
  }

  // Decoding undoes encoding, for every byte sequence.
  lemma DecodeEncode(b: seq<Byte>)
    ensures Decode(Encode(b)) == Ok(b)
  {
    hide StdEncode, DecodeStd, Undone, PadText, AllInAlphabet, MapSeq;
    StdEncodeShape(b);
    UrlAndBack(StdEncode(b));
    PaddedTriples(b);
    StdDecodes(StdEncode(b), b);
  }

  lemma PaddingIsOptionalStd(b64: string)
    requires '=' !in b64 && DecodeStd(b64).Ok?
    ensures DecodeStd(PadText(b64)) == DecodeStd(b64)
  {
    hide InAlphabet, Reverse, Triple, Triples;
    assert TrailingPads(b64) == 0;
    assert MatchesPattern(PadText(b64));
  }

  // Padded and unpadded forms of a text decode alike.
  lemma PaddingIsOptional(text: string)
    requires '=' !in text && Decode(text).Ok?
    ensures Decode(PadText(text)) == Decode(text)
  {
    hide DecodeStd;
    var b64 := MapSeq(ToStd, text);
    forall i | 0 <= i < |b64| ensures b64[i] != '=' { assert text[i] in text; }
    PaddingIsOptionalStd(b64);
    assert MapSeq(ToStd, PadText(text)) == PadText(b64);
  }

  // ------------------------------------------------------------------ canonical texts

  // The value of a base64url digit.
  function Value(c: char): int {
    Reverse(ToStd(c))
  }

  // A text is canonical when it is unpadded, of a possible length, and its unused low bits are 0.
  predicate CanonicalSyntax(t: string) {
    && (forall i :: 0 <= i < |t| ==> UrlDigit(t[i]))
    && |t| % 4 != 1
    && (|t| % 4 == 2 ==> Value(t[|t| - 1]) % 16 == 0)
    && (|t| % 4 == 3 ==> Value(t[|t| - 1]) % 4 == 0)
  }

  predicate StdCanonical(s: string) {
    && AllInAlphabet(s)
    && |s| % 4 != 1
    && (|s| % 4 == 2 ==> Reverse(s[|s| - 1]) % 16 == 0)
    && (|s| % 4 == 3 ==> Reverse(s[|s| - 1]) % 4 == 0)
  }

  lemma LowBytesZero(c0: Sextet, c1: Sextet, c2: Sextet)
    ensures c2 % 4 == 0 ==> Join6(c0, c1, c2, 0) % 256 == 0
    ensures c1 % 16 == 0 ==> Join6(c0, c1, 0, 0) % 65536 == 0
  {
  }

  lemma HighBytesOfMultiple(n: int)
    requires 0 <= n < 16777216 && n % 65536 == 0
    ensures n / 256 % 256 == 0 && n % 256 == 0
  {
    var k := n / 65536;
    assert n == 256 * (256 * k);
    assert n / 256 == 256 * k;
  }

  // The last group of a canonical text, completed with 'A', is a whole quad of its own bytes.
  lemma ShortTailBytes(s: string) returns (a: Byte, b: Byte)
    requires AllInAlphabet(s) && 2 <= |s| <= 3
    requires |s| == 2 ==> Reverse(s[1]) % 16 == 0
    requires |s| == 3 ==> Reverse(s[2]) % 4 == 0
    ensures |s| == 3 ==> Quad(a, b, 0)[..3] == s
    ensures |s| == 2 ==> b == 0 && Quad(a, 0, 0)[..2] == s
  {
    var q := if |s| == 2 then s + "AA" else s + "A";
    assert AllInAlphabet(q);
    QuadOfTriple(q);
    LowBytesZero(Reverse(q[0]), Reverse(q[1]), Reverse(q[2]));
    var n := Join6(Reverse(q[0]), Reverse(q[1]), Reverse(q[2]), Reverse(q[3]));
    if |s| == 2 { HighBytesOfMultiple(n); }
    var t := Triple(q);
    a, b := t[0], t[1];
  }

  lemma {:induction false} CanonicalHasBytes(s: string) returns (b: seq<Byte>)
    requires StdCanonical(s)
    ensures StdEncode(b) == s
    decreases |s|
  {
    if |s| >= 4 {
      var q, r := s[..4], s[4..];
      assert s == q + r;
      StdCanonicalPrepend(q, r);
      QuadOfTriple(q);
      var rest := CanonicalHasBytes(r);
      b := Triple(q) + rest;
      assert b[3..] == rest;
    } else if |s| == 0 {
      b := [];
    } else {
      var x, y := ShortTailBytes(s);
      b := if |s| == 2 then [x] else [x, y];
    }
  }

  lemma TailIsCanonical(a: Byte, b: Byte)
    ensures StdCanonical(Quad(a, b, 0)[..3])
    ensures b == 0 ==> StdCanonical(Quad(a, b, 0)[..2])
  {
    TripleOfQuad(a, b, 0);
    var n := Join8(a, b, 0);
    ShortDigits(a, b);
    DigitReverse(n / 64 % 64);
    DigitReverse(n / 4096 % 64);
  }

  lemma ShortDigits(a: int, b: int)
    requires 0 <= a < 256 && 0 <= b < 256
    ensures Join8(a, b, 0) / 64 % 64 % 4 == 0
    ensures b == 0 ==> Join8(a, b, 0) / 4096 % 64 % 16 == 0
  {
    LowSextetsOfMultiple(a * 1024 + b * 4);
    assert Join8(a, b, 0) / 64 == 4 * (a * 256 + b);
    if b == 0 {
      assert Join8(a, 0, 0) == 4096 * (a * 16);
      assert Join8(a, 0, 0) / 4096 == a * 16;
    }
  }

  lemma StdCanonicalPrepend(q: string, s: string)
    requires |q| == 4
    ensures StdCanonical(q + s) <==> AllInAlphabet(q) && StdCanonical(s)
  {
    hide InAlphabet, Reverse;
    assert |q + s| % 4 == |s| % 4;
    assert |s| > 0 ==> (q + s)[|q + s| - 1] == s[|s| - 1];
    forall i | 0 <= i < |s| ensures (q + s)[i + 4] == s[i] {}
    assert forall i :: 0 <= i < 4 ==> (q + s)[i] == q[i];
  }

  lemma {:induction false} EncodingIsCanonicalStd(b: seq<Byte>)
    ensures StdCanonical(StdEncode(b))
  {
    if |b| >= 3 {
      EncodingIsCanonicalStd(b[3..]);
      TripleOfQuad(b[0], b[1], b[2]);
      hide Quad, StdCanonical;
      StdCanonicalPrepend(Quad(b[0], b[1], b[2]), StdEncode(b[3..]));
    } else if |b| == 2 {
      TailIsCanonical(b[0], b[1]);
    } else if |b| == 1 {
      TailIsCanonical(b[0], 0);
    }
  }

  // Exactly the canonical texts are encodings.
  lemma CanonicalTexts(t: string)
    ensures CanonicalSyntax(t) <==> exists b :: t == Encode(b)
  {
    if CanonicalSyntax(t) {
      var s := MapSeq(ToStd, t);
      assert MapSeq(ToUrl, s) == t;
      assert StdCanonical(s);
      var b := CanonicalHasBytes(s);
      assert t == Encode(b);
    }
    if exists b :: t == Encode(b) {
      var b :| t == Encode(b);
      EncodingIsCanonicalStd(b);
      var s := StdEncode(b);
      UrlAndBack(s);
      forall i | 0 <= i < |t| ensures UrlDigit(t[i]) && Value(t[i]) == Reverse(s[i]) {
        assert InAlphabet(s[i]) && t[i] == ToUrl(s[i]);
      }
    }
  }

  // decodeCanonicalBytes: no padding, decodable, of the asked length, and equal to the
  // encoding of what it decodes to.
  function DecodeCanonical(value: string, expectedLength: Option<nat>): Option<seq<Byte>> {
    if '=' in value then None
    else match Decode(value)
      case Err(_) => None
      case Ok(b) =>
        if Encode(b) != value || (expectedLength.Some? && |b| != expectedLength.value) then None else Some(b)
  }

  // The canonical decoder is a bijection between canonical texts and byte sequences.
  lemma CanonicalBijection(value: string, n: Option<nat>, b: seq<Byte>)
    ensures DecodeCanonical(value, n) == Some(b) <==> value == Encode(b) && (n.Some? ==> |b| == n.value)
    ensures DecodeCanonical(value, n).Some? <==>
      CanonicalSyntax(value) && (n.Some? ==> |value| == (4 * n.value + 2) / 3)
  {
    CanonicalTexts(value);
    if value == Encode(b) {
      CanonicalAccepts(b, n);
    }
    if CanonicalSyntax(value) {
      var c :| value == Encode(c);
      CanonicalAccepts(c, n);
      StdEncodeShape(c);
    }
    if DecodeCanonical(value, n).Some? {
      StdEncodeShape(DecodeCanonical(value, n).value);
    }
  }

  lemma CanonicalAccepts(b: seq<Byte>, n: Option<nat>)
    ensures DecodeCanonical(Encode(b), n) == if n.Some? && |b| != n.value then None else Some(b)
  {
    DecodeEncode(b);
    CanonicalTexts(Encode(b));
    forall i | 0 <= i < |Encode(b)| ensures Encode(b)[i] != '=' { assert UrlDigit(Encode(b)[i]); }
  }

  lemma EncodeInjective(a: seq<Byte>, b: seq<Byte>)
    requires Encode(a) == Encode(b)
    ensures a == b
  {
    DecodeEncode(a);
    DecodeEncode(b);
  }

  // ------------------------------------------------------------------ the bit string

  // The low `width` bits of v, most significant first.
  function Bits(v: nat, width: nat): (bits: seq<bool>)
    ensures |bits| == width
  {
    if width == 0 then [] else Bits(v / 2, width - 1) + [v % 2 == 1]
  }

  function Pow2(k: nat): (p: nat)
    ensures p >= 1
  {
    if k == 0 then 1 else 2 * Pow2(k - 1)
  }

  lemma {:induction false} BitsAppend(v: nat, m: nat, w: nat, k: nat)
    requires w < Pow2(k)
    ensures Bits(v * Pow2(k) + w, m + k) == Bits(v, m) + Bits(w, k)
  {
    if k == 0 {
      assert Bits(w, 0) == [];
    } else {
      var n := v * Pow2(k) + w;
      assert n == 2 * (v * Pow2(k - 1)) + w;
      assert n / 2 == v * Pow2(k - 1) + w / 2 && n % 2 == w % 2;
      BitsAppend(v, m, w / 2, k - 1);
      assert Bits(v, m) + Bits(w, k) == (Bits(v, m) + Bits(w / 2, k - 1)) + [w % 2 == 1];
    }
  }

  lemma BitsAppendBy(v: nat, m: nat, w: nat, k: nat, p: nat)
    requires p == Pow2(k) && w < p
    ensures Bits(v * p + w, m + k) == Bits(v, m) + Bits(w, k)
  {
    BitsAppend(v, m, w, k);
  }

  function ByteBits(b: seq<Byte>): seq<bool> {
    if b == [] then [] else Bits(b[0], 8) + ByteBits(b[1..])
  }

  function DigitBits(s: string): seq<bool>
    requires AllInAlphabet(s)
  {
    if s == "" then [] else (ReverseDigit(s[0]); Bits(Reverse(s[0]), 6) + DigitBits(s[1..]))
  }

  lemma JoinedBits(a: Byte, b: Byte, c: Byte)
    ensures ByteBits([a, b, c]) == Bits(Join8(a, b, c), 24)
  {
    JoinedBits3(a, b, c);
    hide Bits, Pow2;
    ByteBitsOne(c);
    assert [a, b, c][1..] == [b, c] && [b, c][1..] == [c];
    assert ByteBits([b, c]) == Bits(b, 8) + Bits(c, 8);
  }

  lemma PowersOfTwo()
    ensures Pow2(6) == 64 && Pow2(8) == 256 && Pow2(16) == 65536
  {
  }

  lemma Join8Low(a: int, b: int, c: int)
    ensures Join8(a, b, c) == a * 65536 + (b * 256 + c)
  {
  }

  lemma JoinedBits3(a: Byte, b: Byte, c: Byte)
    ensures Bits(Join8(a, b, c), 24) == Bits(a, 8) + (Bits(b, 8) + Bits(c, 8))
  {
    PowersOfTwo();
    hide *;
    var low: nat := b * 256 + c;
    BitsAppendBy(b, 8, c, 8, 256);
    BitsAppendBy(a, 8, low, 16, 65536);
    Join8Low(a, b, c);
  }

  lemma ByteBitsOne(c: Byte)
    ensures ByteBits([c]) == Bits(c, 8)
  {
    assert [c][1..] == [];
  }

  lemma QuadBits(a: Byte, b: Byte, c: Byte)
    ensures AllInAlphabet(Quad(a, b, c)) && DigitBits(Quad(a, b, c)) == ByteBits([a, b, c])
  {
    TripleOfQuad(a, b, c);
    JoinedBits(a, b, c);
    var n := Join8(a, b, c);
    SplitBits(n);
    Split24(n);
    var q := Quad(a, b, c);
    DigitReverse(n / 262144);
    DigitReverse(n / 4096 % 64);
    DigitReverse(n / 64 % 64);
    DigitReverse(n % 64);
    DigitBitsFour(q);
  }

  lemma DigitBitsFour(q: string)
    requires |q| == 4 && AllInAlphabet(q)
    ensures forall i :: 0 <= i < 4 ==> 0 <= Reverse(q[i]) < 64
    ensures DigitBits(q) == Bits(Reverse(q[0]), 6) + Bits(Reverse(q[1]), 6) + Bits(Reverse(q[2]), 6) + Bits(Reverse(q[3]), 6)
  {
    forall i | 0 <= i < 4 ensures 0 <= Reverse(q[i]) < 64 { ReverseDigit(q[i]); }
    hide Reverse, InAlphabet, Bits;
    forall i | 0 <= i < 4
      ensures DigitBits(q[i..]) == Bits(Reverse(q[i]), 6) + DigitBits(q[i + 1..])
    {
      assert q[i..][1..] == q[i + 1..];
    }
    assert q[0..] == q && DigitBits(q[4..]) == [];
    assert q[0 + 1..] == q[1..];
    assert DigitBits(q[3..]) == Bits(Reverse(q[3]), 6);
    ConcatAssociates(Bits(Reverse(q[0]), 6), Bits(Reverse(q[1]), 6), Bits(Reverse(q[2]), 6) + Bits(Reverse(q[3]), 6));
    ConcatAssociates(Bits(Reverse(q[0]), 6) + Bits(Reverse(q[1]), 6), Bits(Reverse(q[2]), 6), Bits(Reverse(q[3]), 6));
  }

  lemma SplitBits(n: int)
    requires 0 <= n < 16777216
    ensures Bits(n, 24) == Bits(n / 262144, 6) + Bits(n / 4096 % 64, 6) + Bits(n / 64 % 64, 6) + Bits(n % 64, 6)
  {
    Quotients(n);
    hide *;
    BitsSplit(n, 18);
    BitsSplit(n / 64, 12);
    BitsSplit(n / 4096, 6);
  }

  lemma Quotients(n: int)
    requires 0 <= n
    ensures n / 64 / 64 == n / 4096 && n / 4096 / 64 == n / 262144 && n / 256 / 256 == n / 65536
  {
  }

  lemma BitsSplit(n: nat, m: nat)
    ensures Bits(n, m + 6) == Bits(n / 64, m) + Bits(n % 64, 6)
  {
    PowersOfTwo();
    BitsAppendBy(n / 64, m, n % 64, 6, 64);
  }

  lemma {:induction false} DigitBitsConcat(s: string, t: string)
    requires AllInAlphabet(s) && AllInAlphabet(t)
    ensures AllInAlphabet(s + t) && DigitBits(s + t) == DigitBits(s) + DigitBits(t)
  {
    hide Bits, Reverse, InAlphabet;
    if s == "" {
      assert s + t == t;
    } else {
      ReverseDigit(s[0]);
      DigitBitsConcat(s[1..], t);
      assert (s + t)[1..] == s[1..] + t;
    }
  }

  lemma {:induction false} ByteBitsConcat(s: seq<Byte>, t: seq<Byte>)
    ensures ByteBits(s + t) == ByteBits(s) + ByteBits(t)
  {
    if s == [] {
      assert s + t == t;
    } else {
      ByteBitsConcat(s[1..], t);
      assert (s + t)[1..] == s[1..] + t;
    }
  }

  function Zeros(k: nat): (z: seq<bool>)
    ensures |z| == k
  {
    seq(k, _ => false)
  }

  // The unused bits of the last digit.
  function UnusedBits(n: nat): nat {
    if n % 3 == 1 then 4 else if n % 3 == 2 then 2 else 0
  }

  lemma TailBits(a: Byte, b: Byte)
    ensures AllInAlphabet(Quad(a, b, 0)) && DigitBits(Quad(a, b, 0)[..3]) == ByteBits([a, b]) + Zeros(2)
    ensures b == 0 ==> DigitBits(Quad(a, b, 0)[..2]) == ByteBits([a]) + Zeros(4)
  {
    QuadBits(a, b, 0);
    var q := Quad(a, b, 0);
    hide Quad, Reverse, InAlphabet;
    ByteBitsConcat([a, b], [0]);
    assert [a, b] + [0] == [a, b, 0];
    ByteBitsOne(0);
    ByteBitsConcat([a], [b]);
    assert [a] + [b] == [a, b];
    ByteBitsOne(b);
    ByteBitsOne(a);
    ZeroBits(8);
    DigitBitsLength(q[..3]);
    DigitBitsLength(q[..2]);
    DigitBitsConcat(q[..3], q[3..]);
    DigitBitsConcat(q[..2], q[2..]);
    assert q[..3] + q[3..] == q && q[..2] + q[2..] == q;
    assert DigitBits(q[..3]) == DigitBits(q)[..18];
    assert DigitBits(q[..2]) == DigitBits(q)[..12];
  }

  lemma ZeroBits(k: nat)
    ensures Bits(0, k) == Zeros(k)
  {
  }

  lemma DigitBitsLength(s: string)
    requires AllInAlphabet(s)
    ensures |DigitBits(s)| == 6 * |s|
  {
  }

  // The digits of s spell the bits of b followed by z.
  predicate Spells(s: string, b: seq<Byte>, z: seq<bool>) {
    AllInAlphabet(s) && DigitBits(s) == ByteBits(b) + z
  }

  lemma SpellsPrepend(q: string, h: seq<Byte>, s: string, b: seq<Byte>, z: seq<bool>)
    requires AllInAlphabet(q) && DigitBits(q) == ByteBits(h) && Spells(s, b, z)
    ensures Spells(q + s, h + b, z)
  {
    DigitBitsConcat(q, s);
    ByteBitsConcat(h, b);
    ConcatAssociates(ByteBits(h), ByteBits(b), z);
  }

  // The encoding is the bit string of the bytes, completed with zeros and cut into groups of
  // six, one digit a group.
  lemma {:induction false} EncodingIsBitString(b: seq<Byte>)
    ensures Spells(StdEncode(b), b, Zeros(UnusedBits(|b|)))
    decreases |b|, 1
  {
    if |b| >= 3 {
      SpellsLong(b, b[3..]);
    } else if |b| == 2 {
      TailBits(b[0], b[1]);
      assert b == [b[0], b[1]];
    } else if |b| == 1 {
      TailBits(b[0], 0);
      assert b == [b[0]];
    }
  }

  lemma {:induction false} SpellsLong(b: seq<Byte>, rest: seq<Byte>)
    requires |b| >= 3 && rest == b[3..]
    ensures Spells(StdEncode(b), b, Zeros(UnusedBits(|b|)))
    decreases |b|, 0
  {
    EncodingIsBitString(rest);
    hide DigitBits, ByteBits, Quad, Spells, Zeros;
    QuadBits(b[0], b[1], b[2]);
    SpellsPrepend(Quad(b[0], b[1], b[2]), [b[0], b[1], b[2]], StdEncode(rest), rest, Zeros(UnusedBits(|rest|)));
    assert b == [b[0], b[1], b[2]] + rest;
    SameUnusedBits(|rest|);
  }

  lemma SameUnusedBits(n: nat)
    ensures UnusedBits(n + 3) == UnusedBits(n)
  {
  }
}
