// What decodeBase64Url makes of an arbitrary text: which are refused and why, and which bytes the
// others spell, canonical or not.
module Base64Decoding {
  import opened Common
  import opened Base64Url
  import opened Base64UrlProofs

  // ------------------------------------------------------------------ what is refused

  predicate AnyDigit(c: char) {
    'A' <= c <= 'Z' || 'a' <= c <= 'z' || '0' <= c <= '9' || c in {'+', '/', '-', '_'}
  }

  // Digits of either alphabet and at most two equals signs after them.
  ghost predicate DigitsThenPads(text: string) {
    exists pads :: 0 <= pads <= 2 && pads <= |text| && Padded(text, pads)
  }

  predicate Padded(text: string, pads: nat)
    requires pads <= |text|
  {
    (forall i :: 0 <= i < |text| - pads ==> AnyDigit(text[i])) && forall i :: |text| - pads <= i < |text| ==> text[i] == '='
  }

  lemma PatternIsDigitsThenPads(text: string)
    ensures MatchesPattern(MapSeq(ToStd, text)) <==> DigitsThenPads(text)
  {
    var s := MapSeq(ToStd, text);
    forall i | 0 <= i < |s| ensures (InAlphabet(s[i]) <==> AnyDigit(text[i])) && (s[i] == '=' <==> text[i] == '=') {}
    if MatchesPattern(s) {
      var pads := TrailingPads(s);
      assert Padded(text, pads);
    }
    if DigitsThenPads(text) {
      var pads :| 0 <= pads <= 2 && pads <= |text| && Padded(text, pads);
      assert forall i :: |text| - pads <= i < |text| ==> !InAlphabet(s[i]);
      assert TrailingPads(s) == pads;
    }
  }

  // The three errors, each by its own condition; every other text decodes.
  lemma RefusalsAreExact(text: string)
    ensures Decode(text) == Err(Character) <==> !DigitsThenPads(text)
    ensures Decode(text) == Err(Padding) <==> DigitsThenPads(text) && '=' in text && |text| % 4 != 0
    ensures Decode(text) == Err(Length) <==> DigitsThenPads(text) && '=' !in text && |text| % 4 == 1
  {
    PatternIsDigitsThenPads(text);
    SamePads(text);
    hide MatchesPattern, DigitsThenPads, MapSeq;
  }

  lemma SamePads(text: string)
    ensures var s := MapSeq(ToStd, text); |s| == |text| && ('=' in s <==> '=' in text)
  {
    var s := MapSeq(ToStd, text);
    if '=' in text {
      var i :| 0 <= i < |text| && text[i] == '=';
      assert s[i] == '=';
    }
  }

  // ------------------------------------------------------------------ what is decoded

  lemma {:induction false} TriplesByDigits(s: string, t: string)
    requires Quads(s) && Quads(t) && |s| == |t| && forall i :: 0 <= i < |s| ==> Reverse(s[i]) == Reverse(t[i])
    ensures Triples(s) == Triples(t)
  {
    if s != "" {
      TriplesByDigits(s[4..], t[4..]);
      hide Reverse;
      assert Triple(s[..4]) == Triple(t[..4]);
    }
  }

  lemma {:induction false} WholeQuadsEncode(p: string)
    requires AllInAlphabet(p) && |p| % 4 == 0
    ensures Quads(p) && StdEncode(Triples(p)) == p
  {
    forall i | 0 <= i < |p| ensures 0 <= Reverse(p[i]) < 64 { ReverseDigit(p[i]); }
    if p != "" {
      var q, r := p[..4], p[4..];
      assert p == q + r;
      WholeQuadsEncode(r);
      QuadOfTriple(q);
      hide Quad, Triple, Reverse, InAlphabet;
      assert Triples(p) == Triple(q) + Triples(r);
      assert (Triple(q) + Triples(r))[3..] == Triples(r);
    }
  }

  // The text completed with 'A', which has the digit zero.
  function Filled(s: string): string {
    s + if |s| % 4 == 2 then "AA" else if |s| % 4 == 3 then "A" else ""
  }

  lemma FilledDigits(s: string)
    requires AllInAlphabet(s) && |s| % 4 != 1
    ensures AllInAlphabet(Filled(s)) && |Filled(s)| == |PadText(s)| && |Filled(s)| % 4 == 0
    ensures forall i :: 0 <= i < |Filled(s)| ==> Reverse(Filled(s)[i]) == Reverse(PadText(s)[i])
  {
  }

  lemma FilledSpells(s: string)
    requires AllInAlphabet(s) && |s| % 4 != 1 && Quads(PadText(s))
    ensures AllInAlphabet(Filled(s)) && DigitBits(Filled(s)) == ByteBits(Triples(PadText(s)))
  {
    FilledDigits(s);
    WholeQuadsEncode(Filled(s));
    TriplesByDigits(Filled(s), PadText(s));
    var b := Triples(PadText(s));
    EncodingIsBitString(b);
    WholeTriples(b, |PadText(s)| / 4);
    hide Triples, StdEncode, Reverse, InAlphabet, Filled, PadText, ByteBits, DigitBits, Zeros, UnusedBits, Quads, AllInAlphabet;
  }

  lemma WholeTriples(b: seq<Byte>, k: nat)
    requires |b| == k * 3
    ensures ByteBits(b) + Zeros(UnusedBits(|b|)) == ByteBits(b)
  {
    hide ByteBits;
  }

  lemma {:induction false} ByteBitsLength(b: seq<Byte>)
    ensures |ByteBits(b)| == 8 * |b|
  {
    if b != [] { ByteBitsLength(b[1..]); }
  }

  // An unpadded text of digits spells as many whole bytes as its bits hold; what is left over is ignored.
  lemma DecodingIsBitString(s: string)
    requires AllInAlphabet(s) && |s| % 4 != 1
    ensures DecodeStd(s).Ok? && |DecodeStd(s).value| == 6 * |s| / 8
    ensures ByteBits(DecodeStd(s).value) <= DigitBits(s)
  {
    NoPads(s);
    PaddedIsQuads(s);
    FilledSpells(s);
    var b := Triples(PadText(s));
    var n := 6 * |s| / 8;
    PadSizes(s);
    hide Triples, PadText, TrailingPads, MatchesPattern, Quads, AllInAlphabet;
    ByteBitsConcat(b[..n], b[n..]);
    assert b[..n] + b[n..] == b;
    ByteBitsLength(b[..n]);
    SpelledPrefix(s, Filled(s)[|s|..]);
    assert s + Filled(s)[|s|..] == Filled(s);
  }

  lemma SpelledPrefix(s: string, t: string)
    requires AllInAlphabet(s) && AllInAlphabet(s + t)
    ensures DigitBits(s) <= DigitBits(s + t) && |DigitBits(s)| == 6 * |s|
  {
    assert forall i :: 0 <= i < |t| ==> t[i] == (s + t)[|s| + i];
    DigitBitsConcat(s, t);
    DigitBitsLength(s);
  }

  lemma NoPads(s: string)
    requires AllInAlphabet(s)
    ensures MatchesPattern(s) && '=' !in s
  {
  }

  lemma PadSizes(s: string)
    requires AllInAlphabet(s) && |s| % 4 != 1
    ensures |PadText(s)| / 4 * 3 - TrailingPads(PadText(s)) == 6 * |s| / 8
  {
    var k, r := |s| / 4, |s| % 4;
    assert |s| == 4 * k + r;
    assert |s| > 0 ==> InAlphabet(s[|s| - 1]);
  }
}
