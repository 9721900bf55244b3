// What is where in the stored forms, and that nothing else is accepted as session material.
module WireForms {
  import opened Common
  import opened Identities
  import opened Texts
  import opened Base64Url
  import opened JsonValues
  import opened ArtifactPrimitives
  import opened SnapshotCodec
  import opened SnapshotProofs
  import opened SessionMaterial

  // `t[key]`: a missing property is undefined.
  function Property(t: Tree, key: string): Tree {
    if t.TObj? && key in t.fields then t.fields[key] else TUndefined
  }

  function Item(t: Tree, i: nat): Tree {
    if t.TArr? && i < |t.items| then t.items[i] else TUndefined
  }

  // ------------------------------------------------------------------ snapshots

  lemma VectorOnTheWire(v: VersionVector, device: string)
    ensures Property(EncodeVector(v), device) == if device in v then TNum(v[device]) else TUndefined
  {
  }

  lemma MetadataOnTheWire(m: Metadata)
    ensures var t := EncodeMetadata(m);
      && Property(t, "id") == TText(m.id) && Property(t, "schemaVersion") == TNum(1)
      && Property(t, "vaultCreationTimestamp") == TNum(m.created) && Property(t, "revisionTimestamp") == TNum(m.revised)
      && Property(t, "snapshotVersionVector") == EncodeVector(m.vector)
      && Property(t, "algorithmSuiteId") == TText(m.suite) && Property(t, "createdByDeviceId") == TText(m.createdBy)
      && Property(t, "vaultKeyGeneration") == TNum(m.keyGeneration)
  {
    hide EncodeVector, EncodeIdentity;
    BaseOnTheWire(m);
    hide BaseMetadata;
  }

  lemma BaseOnTheWire(m: Metadata)
    ensures var b := BaseMetadata(m);
      && b.Keys == METADATA_KEYS && b["id"] == TText(m.id) && b["schemaVersion"] == TNum(1)
      && b["vaultCreationTimestamp"] == TNum(m.created) && b["revisionTimestamp"] == TNum(m.revised)
      && b["snapshotVersionVector"] == EncodeVector(m.vector) && b["algorithmSuiteId"] == TText(m.suite)
      && b["createdByDeviceId"] == TText(m.createdBy) && b["vaultKeyGeneration"] == TNum(m.keyGeneration)
  {
    hide EncodeVector;
  }

  lemma UploadOnTheWire(m: Metadata)
    ensures Property(EncodeMetadata(m), "uploadExpectedRemoteSnapshotIdentity") ==
      match m.upload case SetNull => TNull case SetTo(identity) => EncodeIdentity(identity) case _ => TUndefined
  {
    hide EncodeVector, EncodeIdentity;
    BaseOnTheWire(m);
    hide BaseMetadata;
  }

  lemma IdentityOnTheWire(i: Identity)
    ensures var t := EncodeIdentity(i);
      && Property(t, "snapshotDigest") == TText(i.digest)
      && Property(Property(t, "descriptor"), "vaultId") == TText(i.descriptor.vaultId)
      && Property(Property(t, "descriptor"), "revisionTimestamp") == TNum(i.descriptor.timestamp)
      && Property(Property(t, "descriptor"), "snapshotVersionVector") == EncodeVector(i.descriptor.vector)
  {
    hide EncodeVector;
  }

  lemma CertificateOnTheWire(c: Certificate, i: nat)
    ensures var p := Property(EncodeCertificate(c), "payload");
      && Property(p, "version") == TNum(1) && Property(p, "vaultId") == TText(c.vaultId)
      && Property(p, "generation") == TNum(c.generation) && Property(p, "vaultKeyGeneration") == TNum(c.keyGeneration)
      && Property(p, "previousCertificateDigest") == (if c.previous.None? then TNull else TText(c.previous.value))
      && Property(p, "authorizedByDeviceId") == TText(c.authorizedBy)
      && Property(Property(EncodeCertificate(c), "signature"), "signature") == TText(c.signature)
      && (i < |c.devices| ==> Item(Property(p, "trustedDevices"), i) == EncodeDevice(c.devices[i]))
      && Item(Property(p, "trustedDevices"), |c.devices|) == TUndefined
  {
    hide EncodeDevice;
  }

  lemma DeviceOnTheWire(d: TrustedDevice)
    ensures var t := EncodeDevice(d);
      && Property(t, "deviceId") == TText(d.deviceId) && Property(t, "publicSignKey") == TText(Encode(d.signKey))
      && Property(t, "publicVaultKey") == TText(Encode(d.vaultKey))
  {
    hide Encode;
  }

  lemma SlotOnTheWire(s: KeySlot)
    ensures var t, e := EncodeSlot(s), Property(EncodeSlot(s), "envelope");
      && Property(t, "deviceId") == TText(s.deviceId) && Property(t, "vaultKeyGeneration") == TNum(s.generation)
      && Property(e, "recipientDeviceId") == TText(s.deviceId) && Property(e, "vaultKeyGeneration") == TNum(s.generation)
      && Property(e, "ephemeralPublicKey") == TText(Encode(s.ephemeralKey)) && Property(e, "hkdfSalt") == TText(Encode(s.salt))
      && Property(Property(e, "encryptedVaultMasterKey"), "ciphertext") == TText(s.masterKey.ciphertext)
      && Property(Property(e, "encryptedVaultMasterKey"), "encryptionNonce") == TText(s.masterKey.nonce)
  {
    hide Encode;
  }

  lemma SnapshotOnTheWire(s: Snapshot, i: nat)
    ensures var t := EncodeSnapshot(s);
      var certificates := Property(Property(t, "trustChain"), "certificates");
      var slots := Property(Property(t, "keySlots"), "deviceSlots");
      && Property(t, "metadata") == EncodeMetadata(s.metadata)
      && (i < |s.certificates| ==> Item(certificates, i) == EncodeCertificate(s.certificates[i]))
      && (i < |s.slots| ==> Item(slots, i) == EncodeSlot(s.slots[i]))
      && Item(certificates, |s.certificates|) == Item(slots, |s.slots|) == TUndefined
      && Property(Property(t, "content"), "ciphertext") == TText(s.content.ciphertext)
      && Property(Property(t, "content"), "encryptionNonce") == TText(s.content.nonce)
      && Property(Property(t, "signature"), "signature") == TText(s.signature)
  {
    hide EncodeMetadata, EncodeCertificate, EncodeSlot;
  }

  // ------------------------------------------------------------------ session material

  lemma ContextBack(t: Tree)
    requires DecodeContext(t).Some?
    ensures ValidContext(DecodeContext(t).value) && EncodeContext(DecodeContext(t).value) == t
  {
    hide ValidDevice, EncodeDevice, DecodeDevice, IsCanonical, SafeFrom, AllDistinct;
    var c := DecodeContext(t).value;
    var trust := t.fields["trust"].fields;
    DevicesBack(trust["trustedDevices"]);
    hide DecodeArray;
    assert EncodeContext(c).fields["trust"].fields == trust;
    assert EncodeContext(c).fields == t.fields;
  }

  lemma DevicesBack(t: Tree)
    requires DecodeArray(DecodeDevice, t).Some?
    ensures var d := DecodeArray(DecodeDevice, t).value;
      TArr(MapSeq(EncodeDevice, d)) == t && forall i :: 0 <= i < |d| ==> ValidDevice(d[i])
  {
    hide ValidDevice, EncodeDevice, DecodeDevice;
    var d := DecodeArray(DecodeDevice, t).value;
    forall i | 0 <= i < |d| ensures ValidDevice(d[i]) && EncodeDevice(d[i]) == t.items[i] { DeviceCodec(d[i], t.items[i]); }
    assert MapSeq(EncodeDevice, d) == t.items;
  }

  lemma AnchorBack(t: Tree)
    requires DecodeAnchor(t).Some?
    ensures ValidAnchor(DecodeAnchor(t).value) && EncodeAnchor(DecodeAnchor(t).value) == t
  {
    hide NonBlankText, IsCanonical, Encode, CanonicalBytesOf;
    BytesCodec([], t.fields["genesisPublicSignKey"], SIGN_KEY_LENGTH);
    assert EncodeAnchor(DecodeAnchor(t).value).fields == t.fields;
  }

  // Whatever is accepted is the serialisation of valid material, and of no other.
  lemma OnlyMaterialDecodes(t: Tree)
    requires DecodedMaterial(t).Some?
    ensures ValidMaterial(DecodedMaterial(t).value) && SerializeMaterial(DecodedMaterial(t).value) == t
  {
    hide NonBlankText, Encode, EncodeVector, DecodeVector, ValidVector, EncodeContext, DecodeContext, ValidContext,
      EncodeAnchor, DecodeAnchor, ValidAnchor, Consistent, CanonicalBytesOf;
    var m, f := DecodedMaterial(t).value, t.fields;
    VectorCodec(map[], f["sourceSnapshotVersionVector"]);
    BytesCodec([], f["vaultMasterKey"], 32);
    BytesCodec([], f["devicePrivateSignKey"], 48);
    BytesCodec([], f["devicePrivateVaultKey"], 138);
    BytesCodec([], f["deviceLocalProtectionKey"], 32);
    BytesCodec([], f["payloadKey"], 32);
    ContextBack(f["trustedSnapshotContext"]);
    AnchorBack(f["vaultTrustAnchor"]);
    SerializedFields(m);
    assert SerializeMaterial(m).TObj?;
    hide SerializeMaterial;
    assert SerializeMaterial(m).fields == f;
  }
}
