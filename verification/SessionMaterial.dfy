// The stored session material: its fields, and decoding that leaves no secret behind when it fails.
module SessionMaterial {
  import opened Common
  import opened Identities
  import opened Texts
  import opened SecureWipe
  import opened Base64Url
  import opened Base64UrlProofs
  import opened JsonValues
  import opened ArtifactPrimitives
  import opened SnapshotCodec

  // ------------------------------------------------------------------ fields

  datatype TrustContext = TrustContext(
    snapshotDigest: string, generation: int, keyGeneration: int, certificateDigest: string, devices: seq<TrustedDevice>)

  datatype Anchor = Anchor(vaultId: string, genesisDeviceId: string, genesisKey: seq<Byte>, genesisDigest: string)

  datatype SessionIdentity = SessionIdentity(sessionId: string, vaultId: string, vector: VersionVector)

  // The material as values; the public keys stay values throughout.
  datatype MaterialValue = MaterialValue(
    identity: SessionIdentity, deviceId: string, masterKey: seq<Byte>, signKey: seq<Byte>, vaultKey: seq<Byte>,
    protectionKey: seq<Byte>, payloadKey: seq<Byte>, context: TrustContext, anchor: Anchor)

  const MATERIAL_KEYS: set<string> := {
    "sessionId", "vaultId", "sourceSnapshotVersionVector", "deviceId", "vaultMasterKey", "devicePrivateSignKey",
    "devicePrivateVaultKey", "deviceLocalProtectionKey", "payloadKey", "trustedSnapshotContext", "vaultTrustAnchor"}

  const TRUST_KEYS: set<string> := {"generation", "vaultKeyGeneration", "certificateDigest", "trustedDevices"}

  const ANCHOR_KEYS: set<string> := {"version", "vaultId", "genesisDeviceId", "genesisPublicSignKey", "genesisCertificateDigest"}

  function EncodeContext(c: TrustContext): Tree {
    TObj(map["snapshotDigest" := TText(c.snapshotDigest),
      "trust" := TObj(map["generation" := TNum(c.generation), "vaultKeyGeneration" := TNum(c.keyGeneration),
        "certificateDigest" := TText(c.certificateDigest), "trustedDevices" := TArr(MapSeq(EncodeDevice, c.devices))])])
  }

  function EncodeAnchor(a: Anchor): Tree {
    TObj(map["version" := TNum(1), "vaultId" := TText(a.vaultId), "genesisDeviceId" := TText(a.genesisDeviceId),
      "genesisPublicSignKey" := TText(Encode(a.genesisKey)), "genesisCertificateDigest" := TText(a.genesisDigest)])
  }

  function SerializeMaterial(m: MaterialValue): Tree {
    TObj(map["sessionId" := TText(m.identity.sessionId), "vaultId" := TText(m.identity.vaultId),
      "sourceSnapshotVersionVector" := EncodeVector(m.identity.vector), "deviceId" := TText(m.deviceId),
      "vaultMasterKey" := TText(Encode(m.masterKey)), "devicePrivateSignKey" := TText(Encode(m.signKey)),
      "devicePrivateVaultKey" := TText(Encode(m.vaultKey)), "deviceLocalProtectionKey" := TText(Encode(m.protectionKey)),
      "payloadKey" := TText(Encode(m.payloadKey)),
      "trustedSnapshotContext" := EncodeContext(m.context), "vaultTrustAnchor" := EncodeAnchor(m.anchor)])
  }

  function DecodeContext(t: Tree): Option<TrustContext> {
    if !ExactRecord(t, {"snapshotDigest", "trust"}, {}) || !ExactRecord(t.fields["trust"], TRUST_KEYS, {}) then None
    else
      var trust := t.fields["trust"].fields;
      var devices := DecodeArray(DecodeDevice, trust["trustedDevices"]);
      var digest, certificate := CanonicalDigest(t.fields["snapshotDigest"]), CanonicalDigest(trust["certificateDigest"]);
      var generation, keyGeneration := SafeInteger(trust["generation"], 0), SafeInteger(trust["vaultKeyGeneration"], 1);
      if devices.None? || !AllDistinct(DeviceIds(devices.value)) || digest.None? || certificate.None?
         || generation.None? || keyGeneration.None?
      then None
      else Some(TrustContext(digest.value, generation.value, keyGeneration.value, certificate.value, devices.value))
  }

  function DecodeAnchor(t: Tree): Option<Anchor> {
    if !ExactRecord(t, ANCHOR_KEYS, {}) || t.fields["version"] != TNum(1) then None
    else
      var vaultId, device := NonBlank(t.fields["vaultId"]), NonBlank(t.fields["genesisDeviceId"]);
      var key := CanonicalBytesOf(t.fields["genesisPublicSignKey"], SIGN_KEY_LENGTH);
      var digest := CanonicalDigest(t.fields["genesisCertificateDigest"]);
      if vaultId.None? || device.None? || key.None? || digest.None? then None
      else Some(Anchor(vaultId.value, device.value, key.value, digest.value))
  }

  // The anchor is of this vault, this device is trusted, and a trusted genesis device has the
  // anchored key.
  predicate Consistent(vaultId: string, deviceId: string, devices: seq<TrustedDevice>, anchor: Anchor) {
    && anchor.vaultId == vaultId
    && (exists i :: 0 <= i < |devices| && devices[i].deviceId == deviceId)
    && (forall i :: 0 <= i < |devices| && devices[i].deviceId == anchor.genesisDeviceId ==>
          devices[i].signKey == anchor.genesisKey)
  }

  function DecodeIdentityFields(m: map<string, Tree>): Option<SessionIdentity>
    requires MATERIAL_KEYS <= m.Keys
  {
    var sessionId, vaultId := NonBlank(m["sessionId"]), NonBlank(m["vaultId"]);
    var vector := DecodeVector(m["sourceSnapshotVersionVector"]);
    if sessionId.None? || vaultId.None? || vector.None? then None
    else Some(SessionIdentity(sessionId.value, vaultId.value, vector.value))
  }

  // What the decoder yields, as values.
  function DecodedMaterial(t: Tree): Option<MaterialValue> {
    if !ExactRecord(t, MATERIAL_KEYS, {}) then None
    else
      var m := t.fields;
      var identity, deviceId := DecodeIdentityFields(m), NonBlank(m["deviceId"]);
      var master, sign := CanonicalBytesOf(m["vaultMasterKey"], 32), CanonicalBytesOf(m["devicePrivateSignKey"], 48);
      var vault, protection := CanonicalBytesOf(m["devicePrivateVaultKey"], 138), CanonicalBytesOf(m["deviceLocalProtectionKey"], 32);
      var payload := CanonicalBytesOf(m["payloadKey"], 32);
      var context, anchor := DecodeContext(m["trustedSnapshotContext"]), DecodeAnchor(m["vaultTrustAnchor"]);
      if identity.None? || deviceId.None? || master.None? || sign.None? || vault.None? || protection.None?
         || payload.None? || context.None? || anchor.None?
         || !Consistent(identity.value.vaultId, deviceId.value, context.value.devices, anchor.value)
      then None
      else Some(MaterialValue(identity.value, deviceId.value, master.value, sign.value, vault.value, protection.value,
        payload.value, context.value, anchor.value))
  }

  // ------------------------------------------------------------------ secrets in memory

  // `decodedSecrets`, which collects every secret as it is decoded.
  class SecretList {
    var items: seq<array<Byte>>

    constructor ()
      ensures items == []
      ensures forall b: array<Byte> :: fresh(b) ==> IsZero(b)
    {
      items := [];
    }

    method Push(secret: array<Byte>)
      modifies this
      ensures items == old(items) + [secret]
      ensures forall b: array<Byte> :: fresh(b) ==> IsZero(b)
    {
      items := items + [secret];
    }
  }

  // decodeCanonicalBytes: the intermediate buffer is zero on every path, and the result is a copy.
  method DecodeCanonicalBytes(value: Tree, expectedLength: nat) returns (r: Option<array<Byte>>)
    ensures r.Some? <==> CanonicalBytesOf(value, expectedLength).Some?
    ensures r.Some? ==> fresh(r.value) && r.value[..] == CanonicalBytesOf(value, expectedLength).value
    ensures forall b: array<Byte> :: fresh(b) ==> IsZero(b) || (r.Some? && b == r.value)
  {
    if !value.TText? || '=' in value.s { return None; }
    var result := DecodeBase64Url(value.s);
    if result.Err? { return None; }
    var decoded := result.value;
    var again := EncodeBase64Url(decoded);
    if again != value.s || decoded.Length != expectedLength {
      Wipe(decoded);
      return None;
    }
    ghost var bytes := decoded[..];
    var copy := new Byte[decoded.Length](i requires 0 <= i < decoded.Length reads decoded => decoded[i]);
    assert copy[..] == bytes;
    Wipe(decoded);
    r := Some(copy);
  }

  // decodeSecret: a decoded secret is always in the list.
  method DecodeSecret(value: Tree, expectedLength: nat, secrets: SecretList) returns (r: Option<array<Byte>>)
    modifies secrets
    ensures r.Some? <==> CanonicalBytesOf(value, expectedLength).Some?
    ensures r.Some? ==> fresh(r.value) && r.value[..] == CanonicalBytesOf(value, expectedLength).value
    ensures secrets.items == old(secrets.items) + if r.Some? then [r.value] else []
    ensures forall b: array<Byte> :: fresh(b) ==> IsZero(b) || (r.Some? && b == r.value)
  {
    r := DecodeCanonicalBytes(value, expectedLength);
    if r.Some? { secrets.Push(r.value); }
  }

  // The decoded material: its secrets are buffers.
  datatype Material = Material(
    identity: SessionIdentity, deviceId: string, masterKey: array<Byte>, signKey: array<Byte>, vaultKey: array<Byte>,
    protectionKey: array<Byte>, payloadKey: array<Byte>, context: TrustContext, anchor: Anchor)

  function SecretsOf(m: Material): seq<array<Byte>> {
    [m.masterKey, m.signKey, m.vaultKey, m.protectionKey, m.payloadKey]
  }

  ghost function ValueOf(m: Material): MaterialValue
    reads m.masterKey, m.signKey, m.vaultKey, m.protectionKey, m.payloadKey
  {
    MaterialValue(m.identity, m.deviceId, m.masterKey[..], m.signKey[..], m.vaultKey[..], m.protectionKey[..],
      m.payloadKey[..], m.context, m.anchor)
  }

  // The five secrets, in order; the list holds those decoded before the first failure.
  method DecodeSecrets(m: map<string, Tree>, secrets: SecretList) returns (r: Option<seq<array<Byte>>>)
    requires MATERIAL_KEYS <= m.Keys && secrets.items == []
    modifies secrets
    ensures r.Some? <==> AllSecrets(m).Some?
    ensures r.Some? ==> |r.value| == 5 && r.value == secrets.items
    ensures r.Some? ==> forall i :: 0 <= i < 5 ==> r.value[i][..] == AllSecrets(m).value[i]
    ensures forall i :: 0 <= i < |secrets.items| ==> fresh(secrets.items[i])
    ensures forall b: array<Byte> :: fresh(b) ==> IsZero(b) || b in secrets.items
  {
    hide CanonicalBytesOf, IsZero;
    var masterKey := DecodeSecret(m["vaultMasterKey"], 32, secrets);
    if masterKey.None? { return None; }
    var signKey := DecodeSecret(m["devicePrivateSignKey"], 48, secrets);
    if signKey.None? { return None; }
    var vaultKey := DecodeSecret(m["devicePrivateVaultKey"], 138, secrets);
    if vaultKey.None? { return None; }
    var protectionKey := DecodeSecret(m["deviceLocalProtectionKey"], 32, secrets);
    if protectionKey.None? { return None; }
    var payloadKey := DecodeSecret(m["payloadKey"], 32, secrets);
    if payloadKey.None? { return None; }
    r := Some([masterKey.value, signKey.value, vaultKey.value, protectionKey.value, payloadKey.value]);
    assert secrets.items == r.value;
  }

  function AllSecrets(m: map<string, Tree>): (r: Option<seq<seq<Byte>>>)
    requires MATERIAL_KEYS <= m.Keys
    ensures r.Some? ==> |r.value| == 5
  {
    var master, sign := CanonicalBytesOf(m["vaultMasterKey"], 32), CanonicalBytesOf(m["devicePrivateSignKey"], 48);
    var vault, protection := CanonicalBytesOf(m["devicePrivateVaultKey"], 138), CanonicalBytesOf(m["deviceLocalProtectionKey"], 32);
    var payload := CanonicalBytesOf(m["payloadKey"], 32);
    if master.None? || sign.None? || vault.None? || protection.None? || payload.None? then None
    else Some([master.value, sign.value, vault.value, protection.value, payload.value])
  }

  // decodeStoredMaterial: the identity, the secrets, then everything that may still be refused.
  method DecodeStoredMaterial(t: Tree, secrets: SecretList) returns (r: Option<Material>)
    requires secrets.items == []
    modifies secrets
    ensures r.Some? <==> DecodedMaterial(t).Some?
    ensures r.Some? ==> ValueOf(r.value) == DecodedMaterial(t).value && SecretsOf(r.value) == secrets.items
    ensures forall i :: 0 <= i < |secrets.items| ==> fresh(secrets.items[i])
    ensures forall b: array<Byte> :: fresh(b) ==> IsZero(b) || b in secrets.items
  {
    hide CanonicalBytesOf, IsZero, DecodeContext, DecodeAnchor, DecodeIdentityFields, Consistent;
    if !ExactRecord(t, MATERIAL_KEYS, {}) { return None; }
    var m := t.fields;
    var identity := DecodeIdentityFields(m);
    if identity.None? { return None; }
    var deviceId := NonBlank(m["deviceId"]);
    if deviceId.None? { return None; }
    var keys := DecodeSecrets(m, secrets);
    if keys.None? { return None; }
    var context := DecodeContext(m["trustedSnapshotContext"]);
    if context.None? { return None; }
    var anchor := DecodeAnchor(m["vaultTrustAnchor"]);
    if anchor.None? { return None; }
    if !Consistent(identity.value.vaultId, deviceId.value, context.value.devices, anchor.value) { return None; }
    var k := keys.value;
    r := Some(Material(identity.value, deviceId.value, k[0], k[1], k[2], k[3], k[4], context.value, anchor.value));
  }

  // The platform's key imports, as tests on the key bytes.
  datatype Validator = Validator(
    signPrivate: seq<Byte> -> bool, vaultPrivate: seq<Byte> -> bool,
    signPublic: seq<Byte> -> bool, vaultPublic: seq<Byte> -> bool)

  predicate KeysImport(v: Validator, m: MaterialValue) {
    && v.signPrivate(m.signKey) && v.vaultPrivate(m.vaultKey)
    && (forall i :: 0 <= i < |m.context.devices| ==>
          v.signPublic(m.context.devices[i].signKey) && v.vaultPublic(m.context.devices[i].vaultKey))
    && v.signPublic(m.anchor.genesisKey)
  }

  method ValidateAsymmetricKeys(m: Material, v: Validator) returns (ok: bool)
    ensures ok <==> KeysImport(v, ValueOf(m))
    ensures forall b: array<Byte> :: fresh(b) ==> IsZero(b)
  {
    if !v.signPrivate(m.signKey[..]) || !v.vaultPrivate(m.vaultKey[..]) { return false; }
    for i := 0 to |m.context.devices|
      invariant forall j :: 0 <= j < i ==>
        v.signPublic(m.context.devices[j].signKey) && v.vaultPublic(m.context.devices[j].vaultKey)
      invariant forall b: array<Byte> :: fresh(b) ==> IsZero(b)
    {
      if !v.signPublic(m.context.devices[i].signKey) || !v.vaultPublic(m.context.devices[i].vaultKey) { return false; }
    }
    ok := v.signPublic(m.anchor.genesisKey);
  }

  predicate Accepted(t: Tree, v: Validator) {
    DecodedMaterial(t).Some? && KeysImport(v, DecodedMaterial(t).value)
  }

  // deserializeUnlockedVaultSessionMaterial. When it throws, every buffer it allocated is zero,
  // wherever it failed; otherwise every one but the five secrets it returns.
  method Deserialize(t: Tree, v: Validator) returns (r: Option<Material>)
    ensures r.Some? <==> Accepted(t, v)
    ensures r.Some? ==> ValueOf(r.value) == DecodedMaterial(t).value
    ensures r.Some? ==> forall i :: 0 <= i < 5 ==> fresh(SecretsOf(r.value)[i])
    ensures forall b: array<Byte> :: fresh(b) ==> IsZero(b) || (r.Some? && b in SecretsOf(r.value))
  {
    hide DecodedMaterial, KeysImport;
    var secrets := new SecretList();
    r := DecodeStoredMaterial(t, secrets);
    if r.Some? {
      var ok := ValidateAsymmetricKeys(r.value, v);
      if ok { return; }
    }
    BestEffortWipeArrayBuffers(secrets.items);
    r := None;
    forall b: array<Byte> | fresh(b) ensures IsZero(b) {
      if b in secrets.items { var i :| 0 <= i < |secrets.items| && secrets.items[i] == b; }
    }
  }

  // deserializeUnlockedVaultSessionIdentity: nothing is left behind, on success either.
  method DeserializeIdentity(t: Tree, v: Validator) returns (r: Option<SessionIdentity>)
    ensures r == if Accepted(t, v) then Some(DecodedMaterial(t).value.identity) else None
    ensures forall b: array<Byte> :: fresh(b) ==> IsZero(b)
  {
    hide DecodedMaterial, KeysImport;
    var material := Deserialize(t, v);
    if material.None? { return None; }
    r := Some(material.value.identity);
    BestEffortWipeArrayBuffers(SecretsOf(material.value));
    forall b: array<Byte> | fresh(b) ensures IsZero(b) {
      if b in SecretsOf(material.value) { var i :| 0 <= i < 5 && SecretsOf(material.value)[i] == b; }
    }
  }

  // ------------------------------------------------------------------ round trip

  predicate ValidContext(c: TrustContext) {
    && IsCanonical(c.snapshotDigest, Some(32)) && SafeFrom(c.generation, 0) && SafeFrom(c.keyGeneration, 1)
    && IsCanonical(c.certificateDigest, Some(32))
    && (forall i :: 0 <= i < |c.devices| ==> ValidDevice(c.devices[i])) && AllDistinct(DeviceIds(c.devices))
  }

  predicate ValidAnchor(a: Anchor) {
    NonBlankText(a.vaultId) && NonBlankText(a.genesisDeviceId) && |a.genesisKey| == SIGN_KEY_LENGTH
    && IsCanonical(a.genesisDigest, Some(32))
  }

  predicate ValidMaterial(m: MaterialValue) {
    && NonBlankText(m.identity.sessionId) && NonBlankText(m.identity.vaultId) && ValidVector(m.identity.vector)
    && NonBlankText(m.deviceId) && |m.masterKey| == 32 && |m.signKey| == 48 && |m.vaultKey| == 138
    && |m.protectionKey| == 32 && |m.payloadKey| == 32 && ValidContext(m.context) && ValidAnchor(m.anchor)
    && Consistent(m.identity.vaultId, m.deviceId, m.context.devices, m.anchor)
  }

  // Bytes are read back exactly when they have the asked length.
  lemma BytesExact(b: seq<Byte>, length: nat)
    ensures CanonicalBytesOf(TText(Encode(b)), length) == if |b| == length then Some(b) else None
  {
    BytesCodec(b, TText(Encode(b)), length);
    var r := CanonicalBytesOf(TText(Encode(b)), length);
    if r.Some? { EncodeInjective(r.value, b); }
  }

  lemma DeviceExact(d: TrustedDevice)
    ensures DecodeDevice(EncodeDevice(d)) == if ValidDevice(d) then Some(d) else None
  {
    hide NonBlankText, Encode, CanonicalBytesOf;
    BytesExact(d.signKey, SIGN_KEY_LENGTH);
    BytesExact(d.vaultKey, VAULT_KEY_LENGTH);
  }

  lemma DevicesExact(devices: seq<TrustedDevice>)
    ensures DecodeArray(DecodeDevice, TArr(MapSeq(EncodeDevice, devices))) ==
      if forall i :: 0 <= i < |devices| ==> ValidDevice(devices[i]) then Some(devices) else None
  {
    var items := MapSeq(EncodeDevice, devices);
    forall i | 0 <= i < |items| ensures DecodeDevice(items[i]) == if ValidDevice(devices[i]) then Some(devices[i]) else None {
      DeviceExact(devices[i]);
    }
    hide EncodeDevice, DecodeDevice, ValidDevice;
    if forall i :: 0 <= i < |devices| ==> ValidDevice(devices[i]) {
      assert DecodeArray(DecodeDevice, TArr(items)).value == devices;
    } else {
      var i :| 0 <= i < |devices| && !ValidDevice(devices[i]);
      assert DecodeDevice(items[i]) == None;
    }
  }

  lemma VectorExact(v: VersionVector)
    ensures DecodeVector(EncodeVector(v)) == if ValidVector(v) then Some(v) else None
  {
    hide NonBlankText;
    VectorCodec(v, TNull);
    if !ValidVector(v) {
      var k :| k in v && !(NonBlankText(k) && SafeFrom(v[k], 0));
      assert k in EncodeVector(v).fields;
    }
  }

  lemma ContextExact(c: TrustContext)
    ensures DecodeContext(EncodeContext(c)) == if ValidContext(c) then Some(c) else None
  {
    hide IsCanonical, SafeFrom, AllDistinct, DecodeArray, EncodeDevice, DecodeDevice, ValidDevice;
    DevicesExact(c.devices);
    var trust := EncodeContext(c).fields["trust"].fields;
    assert trust["trustedDevices"] == TArr(MapSeq(EncodeDevice, c.devices));
  }

  lemma AnchorExact(a: Anchor)
    ensures DecodeAnchor(EncodeAnchor(a)) == if ValidAnchor(a) then Some(a) else None
  {
    hide NonBlankText, IsCanonical, Encode, CanonicalBytesOf;
    BytesExact(a.genesisKey, SIGN_KEY_LENGTH);
  }

  lemma SerializedFields(m: MaterialValue)
    ensures var f := SerializeMaterial(m).fields;
      && f.Keys == MATERIAL_KEYS && f["sessionId"] == TText(m.identity.sessionId) && f["vaultId"] == TText(m.identity.vaultId)
      && f["sourceSnapshotVersionVector"] == EncodeVector(m.identity.vector) && f["deviceId"] == TText(m.deviceId)
      && f["vaultMasterKey"] == TText(Encode(m.masterKey)) && f["devicePrivateSignKey"] == TText(Encode(m.signKey))
      && f["devicePrivateVaultKey"] == TText(Encode(m.vaultKey))
      && f["deviceLocalProtectionKey"] == TText(Encode(m.protectionKey)) && f["payloadKey"] == TText(Encode(m.payloadKey))
      && f["trustedSnapshotContext"] == EncodeContext(m.context) && f["vaultTrustAnchor"] == EncodeAnchor(m.anchor)
  {
    hide Encode, EncodeVector, EncodeContext, EncodeAnchor;
  }

  // What is serialised is read back, field by field and byte by byte, exactly when it is valid.
  lemma MaterialRoundTrip(m: MaterialValue)
    ensures DecodedMaterial(SerializeMaterial(m)) == if ValidMaterial(m) then Some(m) else None
  {
    hide NonBlankText, Encode, EncodeVector, DecodeVector, ValidVector, EncodeContext, DecodeContext, ValidContext,
      EncodeAnchor, DecodeAnchor, ValidAnchor, Consistent, CanonicalBytesOf;
    SerializedFields(m);
    VectorExact(m.identity.vector);
    BytesExact(m.masterKey, 32);
    BytesExact(m.signKey, 48);
    BytesExact(m.vaultKey, 138);
    BytesExact(m.protectionKey, 32);
    BytesExact(m.payloadKey, 32);
    ContextExact(m.context);
    AnchorExact(m.anchor);
    assert SerializeMaterial(m).TObj?;
    hide SerializeMaterial;
  }
}
