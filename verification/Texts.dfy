// Trimming, as String.prototype.trim does it.
module Texts {
  // White space and line terminators of ECMA-262, which String.prototype.trim removes.
  predicate IsWhitespaceCode(n: int) {
    9 <= n <= 13 || n == 32 || n == 0xA0 || n == 0xFEFF || n == 0x1680 || 0x2000 <= n <= 0x200A
    || n == 0x2028 || n == 0x2029 || n == 0x202F || n == 0x205F || n == 0x3000
  }

  predicate IsWhitespace(c: char) {
    IsWhitespaceCode(c as int)
  }

  predicate IsTrimmed(s: string) {
    s == "" || (!IsWhitespace(s[0]) && !IsWhitespace(s[|s| - 1]))
  }

  function TrimEnd(s: string): (t: string)
    ensures |t| <= |s| && t == s[..|t|] && (t == "" || !IsWhitespace(t[|t| - 1]))
    ensures s != "" && !IsWhitespace(s[|s| - 1]) ==> t == s
  {
    if s == "" then ""
    else if IsWhitespace(s[|s| - 1]) then TrimEnd(s[..|s| - 1])
    else s
  }

  function TrimStart(s: string): string {
    if s != "" && IsWhitespace(s[0]) then TrimStart(s[1..]) else s
  }

  function Trim(s: string): string {
    TrimEnd(TrimStart(s))
  }

  lemma {:induction false} TrimStartHead(s: string)
    ensures TrimStart(s) == "" || !IsWhitespace(TrimStart(s)[0])
    ensures IsTrimmed(s) ==> TrimStart(s) == s
  {
    if s != "" && IsWhitespace(s[0]) { TrimStartHead(s[1..]); }
  }

  // Trimming yields trimmed text, and leaves trimmed text alone.
  lemma TrimLaws(s: string)
    ensures IsTrimmed(Trim(s)) && (Trim(s) == s <==> IsTrimmed(s))
  {
    TrimStartHead(s);
    var t := TrimStart(s);
    if Trim(s) != "" { assert Trim(s)[0] == t[0]; }
  }

  // Trimming takes away white space at both ends, and nothing else.
  lemma TrimRemovesOnlyWhitespace(s: string) returns (i: nat, j: nat)
    ensures i <= j <= |s| && Trim(s) == s[i..j] && IsTrimmed(Trim(s))
    ensures forall k :: (0 <= k < i || j <= k < |s|) ==> IsWhitespace(s[k])
  {
    TrimLaws(s);
    i := TrimStartDrops(s);
    var t := TrimStart(s);
    var n := TrimEndDrops(t);
    j := i + n;
    assert t[..n] == s[i..j];
    forall k | j <= k < |s| ensures IsWhitespace(s[k]) { assert s[k] == t[k - i]; }
  }

  lemma {:induction false} TrimStartDrops(s: string) returns (i: nat)
    ensures i <= |s| && TrimStart(s) == s[i..] && forall k :: 0 <= k < i ==> IsWhitespace(s[k])
  {
    i := 0;
    if s != "" && IsWhitespace(s[0]) {
      i := TrimStartDrops(s[1..]);
      assert s[1..][i..] == s[i + 1..];
      assert forall k :: 1 <= k < i + 1 ==> s[k] == s[1..][k - 1];
      i := i + 1;
    }
  }

  lemma {:induction false} TrimEndDrops(s: string) returns (n: nat)
    ensures n <= |s| && TrimEnd(s) == s[..n] && forall k :: n <= k < |s| ==> IsWhitespace(s[k])
  {
    n := |s|;
    if s != "" && IsWhitespace(s[|s| - 1]) {
      n := TrimEndDrops(s[..|s| - 1]);
      assert s[..|s| - 1][..n] == s[..n];
      assert forall k :: 0 <= k < |s| - 1 ==> s[k] == s[..|s| - 1][k];
    }
  }

  predicate NonBlankText(s: string) {
    Trim(s) != ""
  }
}
