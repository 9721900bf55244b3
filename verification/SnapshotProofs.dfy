// The snapshot codec undoes itself, accepts nothing but encodings, and keeps the canonical text.
module SnapshotProofs {
  import opened Common
  import opened Identities
  import opened Texts
  import opened Base64Url
  import opened Base64UrlProofs
  import opened JsonValues
  import opened CanonicalBytes
  import opened CanonicalProofs
  import opened ArtifactPrimitives
  import opened SnapshotCodec

  // ------------------------------------------------------------------ the parts

  lemma DeviceCodec(d: TrustedDevice, t: Tree)
    ensures ValidDevice(d) ==> DecodeDevice(EncodeDevice(d)) == Some(d)
    ensures DecodeDevice(t).Some? ==> ValidDevice(DecodeDevice(t).value) && EncodeDevice(DecodeDevice(t).value) == t
  {
    hide NonBlankText, SafeFrom, CanonicalBytesOf, IsCanonical, Encode, DecodeEncrypted, EncodeEncrypted, ValidEncrypted,
      DecodeSignature, EncodeSignature, DecodeVector, EncodeVector, ValidVector;
    BytesCodec(d.signKey, TNull, SIGN_KEY_LENGTH);
    BytesCodec(d.vaultKey, TNull, VAULT_KEY_LENGTH);
    if DecodeDevice(t).Some? {
      BytesCodec([], t.fields["publicSignKey"], SIGN_KEY_LENGTH);
      BytesCodec([], t.fields["publicVaultKey"], VAULT_KEY_LENGTH);
      assert EncodeDevice(DecodeDevice(t).value).fields == t.fields;
    }
  }

  lemma DevicesCodec()
    ensures Codec(EncodeDevice, DecodeDevice, ValidDevice)
  {
    hide EncodeDevice, DecodeDevice, ValidDevice;
    forall d ensures ValidDevice(d) ==> DecodeDevice(EncodeDevice(d)) == Some(d) { DeviceCodec(d, TNull); }
    forall t ensures DecodeDevice(t).Some? ==>
      ValidDevice(DecodeDevice(t).value) && EncodeDevice(DecodeDevice(t).value) == t
    {
      DeviceCodec(TrustedDevice("", [], []), t);
    }
  }

  lemma CertificateForward(c: Certificate)
    requires ValidCertificate(c)
    ensures DecodeCertificate(EncodeCertificate(c)) == Some(c)
  {
    hide NonBlankText, SafeFrom, CanonicalBytesOf, IsCanonical, Encode, DecodeEncrypted, EncodeEncrypted, ValidEncrypted,
      DecodeSignature, EncodeSignature, DecodeVector, EncodeVector, ValidVector, Codec, AllValid, DecodeArray, DeviceIds;
    DevicesCodec();
    ArrayCodec(EncodeDevice, DecodeDevice, ValidDevice, c.devices, TNull);
    SignatureCodec(c.signature, TNull);
    SetSizeDecidesDistinct(DeviceIds(c.devices));
    var p := PayloadFields(c, TArr(MapSeq(EncodeDevice, c.devices))).fields;
    assert EncodeCertificate(c).fields["payload"].fields == p;
    assert p["trustedDevices"] == TArr(MapSeq(EncodeDevice, c.devices));
  }

  lemma CertificateBack(t: Tree)
    requires DecodeCertificate(t).Some?
    ensures ValidCertificate(DecodeCertificate(t).value) && EncodeCertificate(DecodeCertificate(t).value) == t
  {
    hide NonBlankText, SafeFrom, CanonicalBytesOf, IsCanonical, Encode, DecodeEncrypted, EncodeEncrypted, ValidEncrypted,
      DecodeSignature, EncodeSignature, DecodeVector, EncodeVector, ValidVector, Codec, AllValid, DecodeArray, DeviceIds;
    var d := DecodeCertificate(t).value;
    var p := t.fields["payload"].fields;
    DevicesCodec();
    ArrayCodec(EncodeDevice, DecodeDevice, ValidDevice, [], p["trustedDevices"]);
    SetSizeDecidesDistinct(DeviceIds(d.devices));
    SignatureCodec("", t.fields["signature"]);
    assert PayloadFields(d, TArr(MapSeq(EncodeDevice, d.devices))).fields == p;
    assert EncodeCertificate(d).fields == t.fields;
  }

  lemma CertificatesCodec()
    ensures Codec(EncodeCertificate, DecodeCertificate, ValidCertificate)
  {
    hide EncodeCertificate, DecodeCertificate, ValidCertificate;
    forall c | ValidCertificate(c) ensures DecodeCertificate(EncodeCertificate(c)) == Some(c) { CertificateForward(c); }
    forall t | DecodeCertificate(t).Some?
      ensures ValidCertificate(DecodeCertificate(t).value) && EncodeCertificate(DecodeCertificate(t).value) == t
    {
      CertificateBack(t);
    }
  }

  lemma SlotForward(s: KeySlot)
    requires ValidSlot(s)
    ensures DecodeSlot(EncodeSlot(s)) == Some(s)
  {
    hide NonBlankText, SafeFrom, CanonicalBytesOf, IsCanonical, Encode, DecodeEncrypted, EncodeEncrypted, ValidEncrypted,
      DecodeSignature, EncodeSignature, DecodeVector, EncodeVector, ValidVector;
    BytesCodec(s.ephemeralKey, TNull, VAULT_KEY_LENGTH);
    BytesCodec(s.salt, TNull, 32);
    EncryptedCodec(s.masterKey, TNull, 12, Some(48));
  }

  lemma SlotBack(t: Tree)
    requires DecodeSlot(t).Some?
    ensures ValidSlot(DecodeSlot(t).value) && EncodeSlot(DecodeSlot(t).value) == t
  {
    hide NonBlankText, SafeFrom, CanonicalBytesOf, IsCanonical, Encode, DecodeEncrypted, EncodeEncrypted, ValidEncrypted,
      DecodeSignature, EncodeSignature, DecodeVector, EncodeVector, ValidVector;
    var e := t.fields["envelope"].fields;
    BytesCodec([], e["ephemeralPublicKey"], VAULT_KEY_LENGTH);
    BytesCodec([], e["hkdfSalt"], 32);
    EncryptedCodec(Encrypted("", ""), e["encryptedVaultMasterKey"], 12, Some(48));
    assert EncodeSlot(DecodeSlot(t).value).fields["envelope"].fields == e;
    assert EncodeSlot(DecodeSlot(t).value).fields == t.fields;
  }

  lemma SlotsCodec()
    ensures Codec(EncodeSlot, DecodeSlot, ValidSlot)
  {
    hide EncodeSlot, DecodeSlot, ValidSlot;
    forall s | ValidSlot(s) ensures DecodeSlot(EncodeSlot(s)) == Some(s) { SlotForward(s); }
    forall t | DecodeSlot(t).Some?
      ensures ValidSlot(DecodeSlot(t).value) && EncodeSlot(DecodeSlot(t).value) == t
    {
      SlotBack(t);
    }
  }

  predicate ValidDescriptor(d: Descriptor) {
    NonBlankText(d.vaultId) && ValidVector(d.vector) && SafeFrom(d.timestamp, 0)
  }

  lemma DescriptorCodec(d: Descriptor, t: Tree)
    ensures ValidDescriptor(d) ==> DecodeDescriptor(EncodeDescriptor(d)) == Some(d)
    ensures DecodeDescriptor(t).Some? ==>
      ValidDescriptor(DecodeDescriptor(t).value) && EncodeDescriptor(DecodeDescriptor(t).value) == t
  {
    hide NonBlankText, SafeFrom, DecodeVector, EncodeVector, ValidVector;
    VectorCodec(d.vector, TNull);
    if DecodeDescriptor(t).Some? {
      VectorCodec(map[], t.fields["snapshotVersionVector"]);
      assert EncodeDescriptor(DecodeDescriptor(t).value).fields == t.fields;
    }
  }

  lemma IdentityCodec(i: Identity, t: Tree)
    ensures EncodeIdentity(i).TObj? && (ValidIdentity(i) ==> DecodeIdentity(EncodeIdentity(i)) == Some(i))
    ensures DecodeIdentity(t).Some? ==>
      ValidIdentity(DecodeIdentity(t).value) && EncodeIdentity(DecodeIdentity(t).value) == t
  {
    DescriptorCodec(i.descriptor, TNull);
    hide NonBlankText, SafeFrom, ValidVector, IsCanonical, EncodeDescriptor, DecodeDescriptor;
    if DecodeIdentity(t).Some? {
      DescriptorCodec(i.descriptor, t.fields["descriptor"]);
      assert EncodeIdentity(DecodeIdentity(t).value).fields == t.fields;
    }
  }

  // ------------------------------------------------------------------ metadata

  // What decoding makes of the optional property: an undefined one is dropped.
  function Settle(m: Metadata): Metadata {
    if m.upload.SetUndefined? then m.(upload := Absent) else m
  }

  lemma MetadataForward(m: Metadata)
    requires ValidMetadata(m)
    ensures DecodeMetadata(EncodeMetadata(m)) == Some(Settle(m))
  {
    hide NonBlankText, SafeFrom, CanonicalBytesOf, IsCanonical, Encode, DecodeEncrypted, EncodeEncrypted, ValidEncrypted,
      DecodeSignature, EncodeSignature, DecodeVector, EncodeVector, ValidVector,
      DecodeIdentity, EncodeIdentity, ValidIdentity;
    VectorCodec(m.vector, TNull);
    EncodedKeys(m);
    UploadForward(m);
    assert EncodeMetadata(m).TObj?;
    hide EncodeMetadata, BaseMetadata, DecodeUpload;
  }

  lemma UploadForward(m: Metadata)
    requires ValidMetadata(m)
    ensures DecodeUpload(EncodeMetadata(m).fields) == Some(Settle(m).upload)
  {
    hide NonBlankText, SafeFrom, EncodeVector, ValidVector, DecodeIdentity, EncodeIdentity, ValidIdentity;
    if m.upload.SetTo? { IdentityCodec(m.upload.identity, TNull); }
    assert UPLOAD_KEY !in BaseMetadata(m);
    hide BaseMetadata;
  }

  lemma EncodedKeys(m: Metadata)
    ensures var f := EncodeMetadata(m).fields;
      && METADATA_KEYS <= f.Keys <= METADATA_KEYS + {UPLOAD_KEY}
      && f["id"] == TText(m.id) && f["schemaVersion"] == TNum(1) && f["vaultCreationTimestamp"] == TNum(m.created)
      && f["revisionTimestamp"] == TNum(m.revised) && f["snapshotVersionVector"] == EncodeVector(m.vector)
      && f["algorithmSuiteId"] == TText(m.suite) && f["createdByDeviceId"] == TText(m.createdBy)
      && f["vaultKeyGeneration"] == TNum(m.keyGeneration)
  {
    hide EncodeVector, EncodeIdentity;
  }

  lemma MetadataBack(t: Tree)
    requires DecodeMetadata(t).Some?
    ensures ValidMetadata(DecodeMetadata(t).value)
    ensures EncodeMetadata(DecodeMetadata(t).value) == t ||
      (UPLOAD_KEY in t.fields && t.fields[UPLOAD_KEY] == TUndefined
       && EncodeMetadata(DecodeMetadata(t).value) == TObj(t.fields - {UPLOAD_KEY}))
  {
    hide NonBlankText, SafeFrom, CanonicalBytesOf, IsCanonical, Encode, DecodeEncrypted, EncodeEncrypted, ValidEncrypted,
      DecodeSignature, EncodeSignature, DecodeVector, EncodeVector, ValidVector,
      DecodeIdentity, EncodeIdentity, ValidIdentity;
    var m := DecodeMetadata(t).value;
    VectorCodec(map[], t.fields["snapshotVersionVector"]);
    if UPLOAD_KEY in t.fields { IdentityCodec(Identity(Descriptor("", map[], 0), ""), t.fields[UPLOAD_KEY]); }
    assert BaseMetadata(m) == t.fields - {UPLOAD_KEY};
    assert UPLOAD_KEY in t.fields ==> (t.fields - {UPLOAD_KEY})[UPLOAD_KEY := t.fields[UPLOAD_KEY]] == t.fields;
    assert UPLOAD_KEY !in t.fields ==> t.fields - {UPLOAD_KEY} == t.fields;
  }

  // ------------------------------------------------------------------ snapshots

  function SettleSnapshot(s: Snapshot): Snapshot {
    s.(metadata := Settle(s.metadata))
  }

  // Decoding undoes encoding, through trust chain, key slots, version vectors and the optional
  // upload identity.
  lemma SnapshotRoundTrip(s: Snapshot)
    requires ValidSnapshot(s)
    ensures DecodeSnapshot(EncodeSnapshot(s)) == Some(SettleSnapshot(s))
  {
    hide NonBlankText, SafeFrom, CanonicalBytesOf, IsCanonical, Encode, DecodeEncrypted, EncodeEncrypted, ValidEncrypted,
      DecodeSignature, EncodeSignature, DecodeVector, EncodeVector, ValidVector,
      Codec, AllValid, DecodeArray, SlotIds, EncodeMetadata, DecodeMetadata, ValidMetadata;
    MetadataForward(s.metadata);
    CertificatesCodec();
    SlotsCodec();
    ArrayCodec(EncodeCertificate, DecodeCertificate, ValidCertificate, s.certificates, TNull);
    ArrayCodec(EncodeSlot, DecodeSlot, ValidSlot, s.slots, TNull);
    EncryptedCodec(s.content, TNull, 12, None);
    SignatureCodec(s.signature, TNull);
    SetSizeDecidesDistinct(SlotIds(s.slots));
    assert EncodeSnapshot(s).fields.Keys == SNAPSHOT_KEYS;
  }

  // Only encodings decode: whatever decodes is, up to an undefined property, the encoding of the
  // valid snapshot it decodes to.
  lemma SnapshotBack(t: Tree)
    requires DecodeSnapshot(t).Some?
    ensures ValidSnapshot(DecodeSnapshot(t).value)
    ensures ConvertTree(EncodeSnapshot(DecodeSnapshot(t).value)) == ConvertTree(t)
  {
    hide NonBlankText, SafeFrom, CanonicalBytesOf, IsCanonical, Encode, DecodeEncrypted, EncodeEncrypted, ValidEncrypted,
      DecodeSignature, EncodeSignature, DecodeVector, EncodeVector, ValidVector, ConvertTree,
      Codec, AllValid, DecodeArray, SlotIds, EncodeMetadata, DecodeMetadata, ValidMetadata;
    var s := DecodeSnapshot(t).value;
    var chain, slots := t.fields["trustChain"].fields["certificates"], t.fields["keySlots"].fields["deviceSlots"];
    MetadataBack(t.fields["metadata"]);
    CertificatesCodec();
    SlotsCodec();
    ArrayCodec(EncodeCertificate, DecodeCertificate, ValidCertificate, [], chain);
    ArrayCodec(EncodeSlot, DecodeSlot, ValidSlot, [], slots);
    EncryptedCodec(Encrypted("", ""), t.fields["content"], 12, None);
    SignatureCodec("", t.fields["signature"]);
    SetSizeDecidesDistinct(SlotIds(s.slots));
    MetadataConverts(t.fields["metadata"]);
    SnapshotBackFields(t, s);
  }

  lemma MetadataConverts(t: Tree)
    requires DecodeMetadata(t).Some?
    ensures ConvertTree(EncodeMetadata(DecodeMetadata(t).value)) == ConvertTree(t)
  {
    MetadataBack(t);
    hide ConvertTree, DecodeMetadata, EncodeMetadata;
    if EncodeMetadata(DecodeMetadata(t).value) != t { ConvertDropsUndefined(t.fields, UPLOAD_KEY); }
  }

  lemma SnapshotBackFields(t: Tree, s: Snapshot)
    requires t.TObj? && t.fields.Keys == SNAPSHOT_KEYS
    requires ConvertTree(EncodeMetadata(s.metadata)) == ConvertTree(t.fields["metadata"])
    requires t.fields["trustChain"] == TObj(map["certificates" := TArr(MapSeq(EncodeCertificate, s.certificates))])
    requires t.fields["keySlots"] == TObj(map["deviceSlots" := TArr(MapSeq(EncodeSlot, s.slots))])
    requires t.fields["content"] == EncodeEncrypted(s.content) && t.fields["signature"] == EncodeSignature(s.signature)
    ensures ConvertTree(EncodeSnapshot(s)) == ConvertTree(t)
  {
    hide ConvertTree, EncodeMetadata, EncodeEncrypted, EncodeSignature;
    ConvertObjCongruent(EncodeSnapshot(s).fields, t.fields);
  }

  // ------------------------------------------------------------------ memory form and stored form

  lemma DeviceForms(d: TrustedDevice)
    ensures ConvertTree(MemoryDevice(d)) == ConvertTree(EncodeDevice(d))
  {
    hide Encode;
    BytesConvert(d.signKey);
    BytesConvert(d.vaultKey);
    hide ConvertTree;
    ConvertObjCongruent(MemoryDevice(d).fields, EncodeDevice(d).fields);
  }

  lemma BytesConvert(b: seq<Byte>)
    ensures ConvertTree(TBytes(b)) == ConvertTree(TText(Encode(b)))
  {
  }

  lemma CertificateForms(c: Certificate)
    ensures ConvertTree(MemoryCertificate(c)) == ConvertTree(EncodeCertificate(c))
  {
    hide ConvertTree, MemoryDevice, EncodeDevice, EncodeSignature;
    var x, y := MapSeq(MemoryDevice, c.devices), MapSeq(EncodeDevice, c.devices);
    forall i | 0 <= i < |x| ensures ConvertTree(x[i]) == ConvertTree(y[i]) { DeviceForms(c.devices[i]); }
    ConvertArrCongruent(x, y);
    ConvertObjCongruent(PayloadFields(c, TArr(x)).fields, PayloadFields(c, TArr(y)).fields);
    ConvertObjCongruent(MemoryCertificate(c).fields, EncodeCertificate(c).fields);
  }

  lemma SlotForms(s: KeySlot)
    ensures ConvertTree(MemorySlot(s)) == ConvertTree(EncodeSlot(s))
  {
    hide Encode, EncodeEncrypted;
    BytesConvert(s.ephemeralKey);
    BytesConvert(s.salt);
    hide ConvertTree;
    ConvertObjCongruent(MemorySlot(s).fields["envelope"].fields, EncodeSlot(s).fields["envelope"].fields);
    ConvertObjCongruent(MemorySlot(s).fields, EncodeSlot(s).fields);
  }

  function EncodeUnsigned(s: Snapshot): Tree {
    TObj(UnsignedFields(s, TArr(MapSeq(EncodeCertificate, s.certificates)), TArr(MapSeq(EncodeSlot, s.slots))))
  }

  // The stored form and the in-memory form of a snapshot convert to the same JSON value, with
  // and without the signature, whatever the optional upload identity is.
  lemma SnapshotForms(s: Snapshot)
    ensures ConvertTree(MemoryUnsigned(s)) == ConvertTree(EncodeUnsigned(s))
    ensures ConvertTree(MemorySnapshot(s)) == ConvertTree(EncodeSnapshot(s))
  {
    hide ConvertTree, MemoryCertificate, EncodeCertificate, MemorySlot, EncodeSlot, EncodeMetadata, EncodeEncrypted,
      EncodeSignature;
    var x, y := MapSeq(MemoryCertificate, s.certificates), MapSeq(EncodeCertificate, s.certificates);
    forall i | 0 <= i < |x| ensures ConvertTree(x[i]) == ConvertTree(y[i]) { CertificateForms(s.certificates[i]); }
    ConvertArrCongruent(x, y);
    var u, w := MapSeq(MemorySlot, s.slots), MapSeq(EncodeSlot, s.slots);
    forall i | 0 <= i < |u| ensures ConvertTree(u[i]) == ConvertTree(w[i]) { SlotForms(s.slots[i]); }
    ConvertArrCongruent(u, w);
    ConvertObjCongruent(map["certificates" := TArr(x)], map["certificates" := TArr(y)]);
    ConvertObjCongruent(map["deviceSlots" := TArr(u)], map["deviceSlots" := TArr(w)]);
    ConvertObjCongruent(MemoryUnsigned(s).fields, EncodeUnsigned(s).fields);
    ConvertObjCongruent(MemorySnapshot(s).fields, EncodeSnapshot(s).fields);
  }

  lemma SettleKeepsMetadata(m: Metadata)
    ensures ConvertTree(EncodeMetadata(Settle(m))) == ConvertTree(EncodeMetadata(m))
  {
    hide ConvertTree;
    if m.upload.SetUndefined? {
      ConvertDropsUndefined(EncodeMetadata(m).fields, UPLOAD_KEY);
      assert EncodeMetadata(m).fields - {UPLOAD_KEY} == BaseMetadata(m);
    }
  }

  // Dropping the undefined upload identity changes no canonical form.
  lemma SettleKeepsForms(s: Snapshot)
    ensures ConvertTree(EncodeUnsigned(SettleSnapshot(s))) == ConvertTree(EncodeUnsigned(s))
    ensures ConvertTree(EncodeSnapshot(SettleSnapshot(s))) == ConvertTree(EncodeSnapshot(s))
  {
    hide ConvertTree, EncodeCertificate, EncodeSlot, EncodeMetadata, EncodeEncrypted, EncodeSignature, Settle;
    SettleKeepsMetadata(s.metadata);
    var r := SettleSnapshot(s);
    ConvertObjCongruent(EncodeUnsigned(r).fields, EncodeUnsigned(s).fields);
    ConvertObjCongruent(EncodeSnapshot(r).fields, EncodeSnapshot(s).fields);
  }

  // Nothing in an encoding is unsupported, so it has a canonical text.
  predicate Plain(t: Tree) {
    match t
    case TUnsupported => false
    case TArr(items) => forall i :: 0 <= i < |items| ==> Plain(items[i])
    case TObj(fields) => forall k :: k in fields ==> Plain(fields[k])
    case _ => true
  }

  lemma {:induction false} PlainConverts(t: Tree)
    requires Plain(t)
    ensures ConvertTree(t).Ok? && (ConvertTree(t).value.None? <==> t == TUndefined)
  {
    match t
    case TArr(items) => forall i | 0 <= i < |items| ensures ConvertTree(items[i]).Ok? { PlainConverts(items[i]); }
    case TObj(fields) =>
      forall k | k in fields ensures ConvertTree(fields[k]).Ok? { PlainConverts(fields[k]); }
      var c := TreeObjConvert(fields);
    case _ =>
  }

  lemma PlainCertificate(c: Certificate)
    ensures Plain(EncodeCertificate(c))
  {
    hide Encode;
    forall d ensures Plain(EncodeDevice(d)) {}
    hide EncodeDevice;
    assert Plain(TArr(MapSeq(EncodeDevice, c.devices)));
    assert Plain(PayloadFields(c, TArr(MapSeq(EncodeDevice, c.devices))));
    assert Plain(EncodeSignature(c.signature));
    hide PayloadFields, EncodeSignature;
  }

  lemma PlainSlot(l: KeySlot)
    ensures Plain(EncodeSlot(l))
  {
    hide Encode;
    assert Plain(EncodeEncrypted(l.masterKey));
    hide EncodeEncrypted;
    assert Plain(EncodeSlot(l).fields["envelope"]);
  }

  lemma PlainIdentity(i: Identity)
    ensures Plain(EncodeIdentity(i))
  {
    assert Plain(EncodeVector(i.descriptor.vector));
    hide EncodeVector;
    assert Plain(EncodeDescriptor(i.descriptor));
    hide EncodeDescriptor;
  }

  lemma PlainMetadata(m: Metadata)
    ensures Plain(EncodeMetadata(m))
  {
    if m.upload.SetTo? { PlainIdentity(m.upload.identity); }
    hide EncodeIdentity;
    assert Plain(EncodeVector(m.vector));
    hide EncodeVector;
    var base := BaseMetadata(m);
    assert forall k :: k in base ==> Plain(base[k]);
    hide BaseMetadata;
  }

  lemma SnapshotConverts(s: Snapshot)
    ensures ConvertTree(EncodeSnapshot(s)).Ok? && ConvertTree(EncodeSnapshot(s)).value.Some?
    ensures ConvertTree(EncodeUnsigned(s)).Ok? && ConvertTree(EncodeUnsigned(s)).value.Some?
  {
    hide EncodeCertificate, EncodeSlot, EncodeMetadata, ConvertTree;
    forall c ensures Plain(EncodeCertificate(c)) { PlainCertificate(c); }
    forall l ensures Plain(EncodeSlot(l)) { PlainSlot(l); }
    PlainMetadata(s.metadata);
    var x, y := TArr(MapSeq(EncodeCertificate, s.certificates)), TArr(MapSeq(EncodeSlot, s.slots));
    assert Plain(x) && Plain(y);
    assert Plain(TObj(map["certificates" := x])) && Plain(TObj(map["deviceSlots" := y]));
    assert Plain(EncodeEncrypted(s.content));
    assert Plain(EncodeSignature(s.signature)) by { assert Plain(TText(s.signature)); }
    hide EncodeEncrypted, EncodeSignature;
    PlainConverts(EncodeSnapshot(s));
    PlainConverts(EncodeUnsigned(s));
  }

  // Digests survive storage: for every object a holding a snapshot, and every object b holding
  // its stored form or what that decodes to, in any key order, the canonical texts are equal.
  lemma DigestSurvivesStorage(s: Snapshot, r: Snapshot, a: Value, b: Value)
    requires ValidSnapshot(s) && DecodeSnapshot(EncodeSnapshot(s)) == Some(r) && Valid(a) && Valid(b)
    requires TreeOf(a) == MemorySnapshot(s)
    requires TreeOf(b) == MemorySnapshot(r) || TreeOf(b) == EncodeSnapshot(s)
    ensures CanonicalText(a).Ok? && CanonicalText(b) == CanonicalText(a)
  {
    hide MemorySnapshot, EncodeSnapshot, DecodeSnapshot, ConvertTree, CanonicalText, ValidSnapshot;
    SnapshotRoundTrip(s);
    SnapshotForms(s);
    SnapshotForms(r);
    SettleKeepsForms(s);
    SnapshotConverts(s);
    CanonicalTextIsTree(a, b);
    CanonicalTextIsTree(b, a);
  }

  // So does signature verification, which leaves the signature out: the text verified after
  // decoding is the text that was signed.
  lemma SignedTextSurvivesStorage(s: Snapshot, r: Snapshot, a: Value, b: Value)
    requires ValidSnapshot(s) && DecodeSnapshot(EncodeSnapshot(s)) == Some(r) && Valid(a) && Valid(b)
    requires TreeOf(a) == MemoryUnsigned(s) && TreeOf(b) == MemoryUnsigned(r)
    ensures CanonicalText(a).Ok? && CanonicalText(b) == CanonicalText(a) && r.signature == s.signature
  {
    hide MemoryUnsigned, EncodeUnsigned, EncodeSnapshot, DecodeSnapshot, ConvertTree, CanonicalText, ValidSnapshot;
    SnapshotRoundTrip(s);
    SnapshotForms(s);
    SnapshotForms(r);
    SettleKeepsForms(s);
    SnapshotConverts(s);
    CanonicalTextIsTree(a, b);
    CanonicalTextIsTree(b, a);
  }
}
