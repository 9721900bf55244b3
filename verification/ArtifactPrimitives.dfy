// The building blocks of the artifact codecs. None stands for a thrown error.
module ArtifactPrimitives {
  import opened Common
  import opened Identities
  import opened Texts
  import opened Base64Url
  import opened Base64UrlProofs
  import opened JsonValues
  import opened CanonicalBytes
  import opened CanonicalProofs

  // ------------------------------------------------------------------ records

  function NonBlank(t: Tree): Option<string> {
    if t.TText? && NonBlankText(t.s) then Some(t.s) else None
  }

  predicate ExactRecord(t: Tree, required: set<string>, optional: set<string>) {
    t.TObj? && required <= t.fields.Keys <= required + optional
  }

  predicate SafeFrom(n: int, minimum: int) {
    IsSafeInteger(n) && n >= minimum
  }

  function SafeInteger(t: Tree, minimum: int): Option<int> {
    if t.TNum? && SafeFrom(t.n, minimum) then Some(t.n) else None
  }

  function CanonicalBytesOf(t: Tree, length: nat): Option<seq<Byte>> {
    if t.TText? then DecodeCanonical(t.s, Some(length)) else None
  }

  predicate IsCanonical(s: string, length: Option<nat>) {
    DecodeCanonical(s, length).Some?
  }

  function CanonicalDigest(t: Tree): Option<string> {
    if t.TText? && IsCanonical(t.s, Some(32)) then Some(t.s) else None
  }

  lemma BytesCodec(b: seq<Byte>, t: Tree, length: nat)
    ensures |b| == length ==> CanonicalBytesOf(TText(Encode(b)), length) == Some(b)
    ensures CanonicalBytesOf(t, length).Some? ==>
      |CanonicalBytesOf(t, length).value| == length && TText(Encode(CanonicalBytesOf(t, length).value)) == t
  {
    CanonicalAccepts(b, Some(length));
  }

  // ------------------------------------------------------------------ version vectors

  predicate ValidVector(v: VersionVector) {
    forall k :: k in v ==> NonBlankText(k) && SafeFrom(v[k], 0)
  }

  function EncodeVector(v: VersionVector): Tree {
    TObj(map k | k in v :: TNum(v[k]))
  }

  function DecodeVector(t: Tree): Option<VersionVector> {
    if t.TObj? && forall k :: k in t.fields ==> NonBlankText(k) && SafeInteger(t.fields[k], 0).Some?
    then Some(map k | k in t.fields :: SafeInteger(t.fields[k], 0).value) else None
  }

  lemma VectorCodec(v: VersionVector, t: Tree)
    ensures ValidVector(v) ==> DecodeVector(EncodeVector(v)) == Some(v)
    ensures DecodeVector(t).Some? ==> ValidVector(DecodeVector(t).value) && EncodeVector(DecodeVector(t).value) == t
  {
    hide NonBlankText;
    if ValidVector(v) {
      assert DecodeVector(EncodeVector(v)).value == v;
    }
    if DecodeVector(t).Some? {
      assert EncodeVector(DecodeVector(t).value).fields == t.fields;
    }
  }

  // ------------------------------------------------------------------ protected values

  datatype Encrypted = Encrypted(ciphertext: string, nonce: string)

  // With no exact length the ciphertext must hold at least 17 bytes.
  predicate ValidEncrypted(e: Encrypted, nonceLength: nat, exact: Option<nat>) {
    && IsCanonical(e.ciphertext, exact)
    && (exact.None? ==> |DecodeCanonical(e.ciphertext, None).value| >= 17)
    && IsCanonical(e.nonce, Some(nonceLength))
  }

  function EncodeEncrypted(e: Encrypted): Tree {
    TObj(map["ciphertext" := TText(e.ciphertext), "encryptionNonce" := TText(e.nonce)])
  }

  function DecodeEncrypted(t: Tree, nonceLength: nat, exact: Option<nat>): Option<Encrypted> {
    if ExactRecord(t, {"ciphertext", "encryptionNonce"}, {})
       && t.fields["ciphertext"].TText? && t.fields["encryptionNonce"].TText?
       && ValidEncrypted(Encrypted(t.fields["ciphertext"].s, t.fields["encryptionNonce"].s), nonceLength, exact)
    then Some(Encrypted(t.fields["ciphertext"].s, t.fields["encryptionNonce"].s)) else None
  }

  lemma EncryptedCodec(e: Encrypted, t: Tree, n: nat, exact: Option<nat>)
    ensures ValidEncrypted(e, n, exact) ==> DecodeEncrypted(EncodeEncrypted(e), n, exact) == Some(e)
    ensures DecodeEncrypted(t, n, exact).Some? ==>
      ValidEncrypted(DecodeEncrypted(t, n, exact).value, n, exact) && EncodeEncrypted(DecodeEncrypted(t, n, exact).value) == t
  {
    hide ValidEncrypted;
    if DecodeEncrypted(t, n, exact).Some? {
      assert EncodeEncrypted(DecodeEncrypted(t, n, exact).value).fields == t.fields;
    }
  }

  function EncodeSignature(signature: string): Tree {
    TObj(map["signature" := TText(signature)])
  }

  function DecodeSignature(t: Tree): Option<string> {
    if ExactRecord(t, {"signature"}, {}) && t.fields["signature"].TText?
       && IsCanonical(t.fields["signature"].s, Some(64))
    then Some(t.fields["signature"].s) else None
  }

  lemma SignatureCodec(s: string, t: Tree)
    ensures IsCanonical(s, Some(64)) ==> DecodeSignature(EncodeSignature(s)) == Some(s)
    ensures DecodeSignature(t).Some? ==>
      IsCanonical(DecodeSignature(t).value, Some(64)) && EncodeSignature(DecodeSignature(t).value) == t
  {
    hide IsCanonical;
    if DecodeSignature(t).Some? { assert EncodeSignature(DecodeSignature(t).value).fields == t.fields; }
  }

  // ------------------------------------------------------------------ arrays

  // `items.map(decode)`: every element decodes, or the whole throws.
  function DecodeSeq<A>(decode: Tree -> Option<A>, items: seq<Tree>): Option<seq<A>> {
    if forall i :: 0 <= i < |items| ==> decode(items[i]).Some?
    then Some(seq(|items|, i requires 0 <= i < |items| && decode(items[i]).Some? => decode(items[i]).value)) else None
  }

  function DecodeArray<A>(decode: Tree -> Option<A>, t: Tree): Option<seq<A>> {
    if t.TArr? then DecodeSeq(decode, t.items) else None
  }

  // A codec: decoding undoes encoding on valid values, and only encodings of valid values decode.
  ghost predicate Codec<A(!new)>(encode: A -> Tree, decode: Tree -> Option<A>, valid: A -> bool) {
    && (forall a :: valid(a) ==> decode(encode(a)) == Some(a))
    && (forall t :: decode(t).Some? ==> valid(decode(t).value) && encode(decode(t).value) == t)
  }

  ghost predicate AllValid<A>(valid: A -> bool, items: seq<A>) {
    forall i :: 0 <= i < |items| ==> valid(items[i])
  }

  lemma ArrayCodec<A(!new)>(encode: A -> Tree, decode: Tree -> Option<A>, valid: A -> bool, items: seq<A>, t: Tree)
    requires Codec(encode, decode, valid)
    ensures AllValid(valid, items) ==> DecodeArray(decode, TArr(MapSeq(encode, items))) == Some(items)
    ensures DecodeArray(decode, t).Some? ==>
      AllValid(valid, DecodeArray(decode, t).value) && TArr(MapSeq(encode, DecodeArray(decode, t).value)) == t
  {
    if AllValid(valid, items) {
      assert forall i :: 0 <= i < |items| ==> decode(MapSeq(encode, items)[i]) == Some(items[i]);
      assert DecodeArray(decode, TArr(MapSeq(encode, items))).value == items;
    }
    if DecodeArray(decode, t).Some? {
      var r := DecodeArray(decode, t).value;
      assert MapSeq(encode, r) == t.items;
    }
  }

  // ------------------------------------------------------------------ conversion to JSON

  predicate Convertible(m: map<string, Tree>) {
    forall k :: k in m ==> ConvertTree(m[k]).Ok?
  }

  lemma InconvertibleObject(m: map<string, Tree>)
    requires !Convertible(m)
    ensures ConvertTree(TObj(m)) == Err(TypeError)
  {
    assert exists k :: k in m && ConvertTree(m[k]).Err?;
  }

  lemma ConvertObjCongruent(m: map<string, Tree>, n: map<string, Tree>)
    requires m.Keys == n.Keys && forall k :: k in m ==> ConvertTree(m[k]) == ConvertTree(n[k])
    ensures ConvertTree(TObj(m)) == ConvertTree(TObj(n))
  {
    if Convertible(m) {
      var c := TreeObjConvert(m);
      var d := TreeObjConvert(n);
      assert c.Keys == d.Keys;
      assert c == d;
    } else {
      InconvertibleObject(m);
      InconvertibleObject(n);
    }
  }

  lemma ConvertDropsUndefined(m: map<string, Tree>, k: string)
    requires k in m && m[k] == TUndefined
    ensures ConvertTree(TObj(m)) == ConvertTree(TObj(m - {k}))
  {
    var n := m - {k};
    assert ConvertTree(m[k]) == Ok(None);
    if Convertible(m) {
      var c := TreeObjConvert(m);
      var d := TreeObjConvert(n);
      assert forall x :: x in m && x != k ==> x in n && n[x] == m[x];
      assert c.Keys == d.Keys;
      assert c == d;
    } else {
      var x :| x in m && ConvertTree(m[x]).Err?;
      assert x in n;
      InconvertibleObject(m);
      InconvertibleObject(n);
    }
  }

  lemma ConvertArrCongruent(a: seq<Tree>, b: seq<Tree>)
    requires |a| == |b| && forall i :: 0 <= i < |a| ==> ConvertTree(a[i]) == ConvertTree(b[i])
    ensures ConvertTree(TArr(a)) == ConvertTree(TArr(b))
  {
    var c, d := ConvertTree(TArr(a)), ConvertTree(TArr(b));
    if c.Ok? {
      assert d.Ok?;
      assert c.value.value.items == d.value.value.items;
    } else {
      var i :| 0 <= i < |a| && ConvertTree(a[i]).Err?;
      assert ConvertTree(b[i]).Err?;
    }
  }
}
