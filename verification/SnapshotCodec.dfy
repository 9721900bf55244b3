// Vault snapshots: their stored and sent form, and the in-memory form that is digested and signed.
module SnapshotCodec {
  import opened Common
  import opened Identities
  import opened Texts
  import opened Base64Url
  import opened Base64UrlProofs
  import opened JsonValues
  import opened CanonicalBytes
  import opened ArtifactPrimitives

  const SIGN_KEY_LENGTH: nat := 32
  const VAULT_KEY_LENGTH: nat := 65

  // ------------------------------------------------------------------ trust chain

  datatype TrustedDevice = TrustedDevice(deviceId: string, signKey: seq<Byte>, vaultKey: seq<Byte>)

  predicate ValidDevice(d: TrustedDevice) {
    NonBlankText(d.deviceId) && |d.signKey| == SIGN_KEY_LENGTH && |d.vaultKey| == VAULT_KEY_LENGTH
  }

  function DeviceFields(d: TrustedDevice, signKey: Tree, vaultKey: Tree): Tree {
    TObj(map["deviceId" := TText(d.deviceId), "publicSignKey" := signKey, "publicVaultKey" := vaultKey])
  }

  function EncodeDevice(d: TrustedDevice): Tree {
    DeviceFields(d, TText(Encode(d.signKey)), TText(Encode(d.vaultKey)))
  }

  function MemoryDevice(d: TrustedDevice): Tree {
    DeviceFields(d, TBytes(d.signKey), TBytes(d.vaultKey))
  }

  function DecodeDevice(t: Tree): Option<TrustedDevice> {
    if !ExactRecord(t, {"deviceId", "publicSignKey", "publicVaultKey"}, {}) then None
    else
      var id := NonBlank(t.fields["deviceId"]);
      var sign := CanonicalBytesOf(t.fields["publicSignKey"], SIGN_KEY_LENGTH);
      var vault := CanonicalBytesOf(t.fields["publicVaultKey"], VAULT_KEY_LENGTH);
      if id.Some? && sign.Some? && vault.Some? then Some(TrustedDevice(id.value, sign.value, vault.value)) else None
  }

  datatype Certificate = Certificate(
    vaultId: string, generation: int, keyGeneration: int, previous: Option<string>, authorizedBy: string,
    devices: seq<TrustedDevice>, signature: string)

  function DeviceIds(devices: seq<TrustedDevice>): seq<string> {
    MapSeq((d: TrustedDevice) => d.deviceId, devices)
  }

  // `new Set(ids).size === ids.length`
  predicate AllDistinct(ids: seq<string>) {
    |SetOf(ids)| == |ids|
  }

  ghost predicate ValidCertificate(c: Certificate) {
    && NonBlankText(c.vaultId) && SafeFrom(c.generation, 0) && SafeFrom(c.keyGeneration, 1)
    && (c.previous.Some? ==> IsCanonical(c.previous.value, Some(32)))
    && NonBlankText(c.authorizedBy)
    && AllValid(ValidDevice, c.devices) && Distinct(DeviceIds(c.devices))
    && IsCanonical(c.signature, Some(64))
  }

  function PayloadFields(c: Certificate, devices: Tree): Tree {
    TObj(map[
      "version" := TNum(1), "vaultId" := TText(c.vaultId), "generation" := TNum(c.generation),
      "vaultKeyGeneration" := TNum(c.keyGeneration),
      "previousCertificateDigest" := (if c.previous.None? then TNull else TText(c.previous.value)),
      "authorizedByDeviceId" := TText(c.authorizedBy), "trustedDevices" := devices])
  }

  function EncodeCertificate(c: Certificate): Tree {
    TObj(map["payload" := PayloadFields(c, TArr(MapSeq(EncodeDevice, c.devices))), "signature" := EncodeSignature(c.signature)])
  }

  function MemoryCertificate(c: Certificate): Tree {
    TObj(map["payload" := PayloadFields(c, TArr(MapSeq(MemoryDevice, c.devices))), "signature" := EncodeSignature(c.signature)])
  }

  const PAYLOAD_KEYS: set<string> := {
    "version", "vaultId", "generation", "vaultKeyGeneration", "previousCertificateDigest", "authorizedByDeviceId",
    "trustedDevices"}

  function DecodePrevious(t: Tree): Option<Option<string>> {
    if t == TNull then Some(None)
    else if CanonicalDigest(t).Some? then Some(CanonicalDigest(t)) else None
  }

  function DecodeCertificate(t: Tree): Option<Certificate> {
    if !ExactRecord(t, {"payload", "signature"}, {}) || !ExactRecord(t.fields["payload"], PAYLOAD_KEYS, {}) then None
    else
      var p := t.fields["payload"].fields;
      var devices := DecodeArray(DecodeDevice, p["trustedDevices"]);
      var previous := DecodePrevious(p["previousCertificateDigest"]);
      var vaultId, generation := NonBlank(p["vaultId"]), SafeInteger(p["generation"], 0);
      var keyGeneration, author := SafeInteger(p["vaultKeyGeneration"], 1), NonBlank(p["authorizedByDeviceId"]);
      var signature := DecodeSignature(t.fields["signature"]);
      if p["version"] != TNum(1) || devices.None? || !AllDistinct(DeviceIds(devices.value)) || previous.None?
         || vaultId.None? || generation.None? || keyGeneration.None? || author.None? || signature.None?
      then None
      else Some(Certificate(vaultId.value, generation.value, keyGeneration.value, previous.value, author.value,
        devices.value, signature.value))
  }

  // ------------------------------------------------------------------ key slots

  datatype KeySlot = KeySlot(deviceId: string, generation: int, ephemeralKey: seq<Byte>, salt: seq<Byte>, masterKey: Encrypted)

  predicate ValidSlot(s: KeySlot) {
    && NonBlankText(s.deviceId) && SafeFrom(s.generation, 1)
    && |s.ephemeralKey| == VAULT_KEY_LENGTH && |s.salt| == 32 && ValidEncrypted(s.masterKey, 12, Some(48))
  }

  function SlotFields(s: KeySlot, ephemeralKey: Tree, salt: Tree): Tree {
    TObj(map[
      "deviceId" := TText(s.deviceId), "vaultKeyGeneration" := TNum(s.generation),
      "envelope" := TObj(map[
        "recipientDeviceId" := TText(s.deviceId), "vaultKeyGeneration" := TNum(s.generation),
        "ephemeralPublicKey" := ephemeralKey, "hkdfSalt" := salt,
        "encryptedVaultMasterKey" := EncodeEncrypted(s.masterKey)])])
  }

  function EncodeSlot(s: KeySlot): Tree {
    SlotFields(s, TText(Encode(s.ephemeralKey)), TText(Encode(s.salt)))
  }

  function MemorySlot(s: KeySlot): Tree {
    SlotFields(s, TBytes(s.ephemeralKey), TBytes(s.salt))
  }

  const ENVELOPE_KEYS: set<string> := {
    "recipientDeviceId", "vaultKeyGeneration", "ephemeralPublicKey", "hkdfSalt", "encryptedVaultMasterKey"}

  // The envelope repeats the device and the generation of its slot, or decoding throws.
  function DecodeSlot(t: Tree): Option<KeySlot> {
    if !ExactRecord(t, {"deviceId", "vaultKeyGeneration", "envelope"}, {})
       || !ExactRecord(t.fields["envelope"], ENVELOPE_KEYS, {}) then None
    else
      var e := t.fields["envelope"].fields;
      var id, generation := NonBlank(t.fields["deviceId"]), SafeInteger(t.fields["vaultKeyGeneration"], 1);
      var recipient, envelopeGeneration := NonBlank(e["recipientDeviceId"]), SafeInteger(e["vaultKeyGeneration"], 1);
      var ephemeral := CanonicalBytesOf(e["ephemeralPublicKey"], VAULT_KEY_LENGTH);
      var salt := CanonicalBytesOf(e["hkdfSalt"], 32);
      var key := DecodeEncrypted(e["encryptedVaultMasterKey"], 12, Some(48));
      if id.None? || generation.None? || recipient != id || envelopeGeneration != generation
         || ephemeral.None? || salt.None? || key.None?
      then None
      else Some(KeySlot(id.value, generation.value, ephemeral.value, salt.value, key.value))
  }

  // ------------------------------------------------------------------ identities

  predicate ValidIdentity(i: Identity) {
    && NonBlankText(i.descriptor.vaultId) && ValidVector(i.descriptor.vector) && SafeFrom(i.descriptor.timestamp, 0)
    && IsCanonical(i.digest, Some(32))
  }

  function EncodeDescriptor(d: Descriptor): Tree {
    TObj(map["vaultId" := TText(d.vaultId), "snapshotVersionVector" := EncodeVector(d.vector), "revisionTimestamp" := TNum(d.timestamp)])
  }

  function EncodeIdentity(i: Identity): Tree {
    TObj(map["descriptor" := EncodeDescriptor(i.descriptor), "snapshotDigest" := TText(i.digest)])
  }

  function DecodeDescriptor(t: Tree): Option<Descriptor> {
    if !ExactRecord(t, {"vaultId", "snapshotVersionVector", "revisionTimestamp"}, {}) then None
    else
      var id, vector := NonBlank(t.fields["vaultId"]), DecodeVector(t.fields["snapshotVersionVector"]);
      var timestamp := SafeInteger(t.fields["revisionTimestamp"], 0);
      if id.Some? && vector.Some? && timestamp.Some? then Some(Descriptor(id.value, vector.value, timestamp.value)) else None
  }

  function DecodeIdentity(t: Tree): Option<Identity> {
    if !ExactRecord(t, {"descriptor", "snapshotDigest"}, {}) then None
    else
      var d, digest := DecodeDescriptor(t.fields["descriptor"]), CanonicalDigest(t.fields["snapshotDigest"]);
      if d.Some? && digest.Some? then Some(Identity(d.value, digest.value)) else None
  }

  // ------------------------------------------------------------------ snapshots

  // The optional property uploadExpectedRemoteSnapshotIdentity.
  datatype Upload = Absent | SetUndefined | SetNull | SetTo(identity: Identity)

  datatype Metadata = Metadata(
    id: string, created: int, revised: int, vector: VersionVector, suite: string, createdBy: string,
    keyGeneration: int, upload: Upload)

  datatype Snapshot = Snapshot(
    metadata: Metadata, certificates: seq<Certificate>, slots: seq<KeySlot>, content: Encrypted, signature: string)

  predicate ValidMetadata(m: Metadata) {
    && NonBlankText(m.id) && SafeFrom(m.created, 0) && SafeFrom(m.revised, 0) && ValidVector(m.vector)
    && NonBlankText(m.suite) && NonBlankText(m.createdBy) && SafeFrom(m.keyGeneration, 1)
    && (m.upload.SetTo? ==> ValidIdentity(m.upload.identity))
  }

  function SlotIds(slots: seq<KeySlot>): seq<string> {
    MapSeq((s: KeySlot) => s.deviceId, slots)
  }

  ghost predicate ValidSnapshot(s: Snapshot) {
    && ValidMetadata(s.metadata)
    && AllValid(ValidCertificate, s.certificates)
    && AllValid(ValidSlot, s.slots) && Distinct(SlotIds(s.slots))
    && ValidEncrypted(s.content, 12, None) && IsCanonical(s.signature, Some(64))
  }

  const METADATA_KEYS: set<string> := {
    "id", "schemaVersion", "vaultCreationTimestamp", "revisionTimestamp", "snapshotVersionVector",
    "algorithmSuiteId", "createdByDeviceId", "vaultKeyGeneration"}

  const UPLOAD_KEY: string := "uploadExpectedRemoteSnapshotIdentity"

  function BaseMetadata(m: Metadata): map<string, Tree> {
    map["id" := TText(m.id), "schemaVersion" := TNum(1), "vaultCreationTimestamp" := TNum(m.created),
      "revisionTimestamp" := TNum(m.revised), "snapshotVersionVector" := EncodeVector(m.vector),
      "algorithmSuiteId" := TText(m.suite), "createdByDeviceId" := TText(m.createdBy),
      "vaultKeyGeneration" := TNum(m.keyGeneration)]
  }

  // The metadata holds no bytes, so its stored and in-memory forms are the same.
  function EncodeMetadata(m: Metadata): Tree {
    TObj(match m.upload
      case Absent => BaseMetadata(m)
      case SetUndefined => BaseMetadata(m)[UPLOAD_KEY := TUndefined]
      case SetNull => BaseMetadata(m)[UPLOAD_KEY := TNull]
      case SetTo(identity) => BaseMetadata(m)[UPLOAD_KEY := EncodeIdentity(identity)])
  }

  function DecodeUpload(m: map<string, Tree>): Option<Upload> {
    if UPLOAD_KEY !in m || m[UPLOAD_KEY] == TUndefined then Some(Absent)
    else if m[UPLOAD_KEY] == TNull then Some(SetNull)
    else if DecodeIdentity(m[UPLOAD_KEY]).Some? then Some(SetTo(DecodeIdentity(m[UPLOAD_KEY]).value))
    else None
  }

  function DecodeMetadata(t: Tree): Option<Metadata> {
    if !ExactRecord(t, METADATA_KEYS, {UPLOAD_KEY}) || t.fields["schemaVersion"] != TNum(1) then None
    else
      var m := t.fields;
      var id, created := NonBlank(m["id"]), SafeInteger(m["vaultCreationTimestamp"], 0);
      var revised, vector := SafeInteger(m["revisionTimestamp"], 0), DecodeVector(m["snapshotVersionVector"]);
      var suite, author := NonBlank(m["algorithmSuiteId"]), NonBlank(m["createdByDeviceId"]);
      var keyGeneration, upload := SafeInteger(m["vaultKeyGeneration"], 1), DecodeUpload(m);
      if id.None? || created.None? || revised.None? || vector.None? || suite.None? || author.None?
         || keyGeneration.None? || upload.None?
      then None
      else Some(Metadata(id.value, created.value, revised.value, vector.value, suite.value, author.value,
        keyGeneration.value, upload.value))
  }

  function UnsignedFields(s: Snapshot, certificates: Tree, slots: Tree): map<string, Tree> {
    map["metadata" := EncodeMetadata(s.metadata), "trustChain" := TObj(map["certificates" := certificates]),
      "keySlots" := TObj(map["deviceSlots" := slots]), "content" := EncodeEncrypted(s.content)]
  }

  function EncodeSnapshot(s: Snapshot): Tree {
    TObj(UnsignedFields(s, TArr(MapSeq(EncodeCertificate, s.certificates)), TArr(MapSeq(EncodeSlot, s.slots)))
      ["signature" := EncodeSignature(s.signature)])
  }

  // The object that verifyVaultSnapshotSignature canonicalises.
  function MemoryUnsigned(s: Snapshot): Tree {
    TObj(UnsignedFields(s, TArr(MapSeq(MemoryCertificate, s.certificates)), TArr(MapSeq(MemorySlot, s.slots))))
  }

  // The object that digestVaultSnapshot canonicalises.
  function MemorySnapshot(s: Snapshot): Tree {
    TObj(MemoryUnsigned(s).fields["signature" := EncodeSignature(s.signature)])
  }

  const SNAPSHOT_KEYS: set<string> := {"metadata", "trustChain", "keySlots", "content", "signature"}

  function DecodeSnapshot(t: Tree): Option<Snapshot> {
    if !ExactRecord(t, SNAPSHOT_KEYS, {}) || !ExactRecord(t.fields["trustChain"], {"certificates"}, {})
       || !ExactRecord(t.fields["keySlots"], {"deviceSlots"}, {}) then None
    else
      var metadata := DecodeMetadata(t.fields["metadata"]);
      var certificates := DecodeArray(DecodeCertificate, t.fields["trustChain"].fields["certificates"]);
      var slots := DecodeArray(DecodeSlot, t.fields["keySlots"].fields["deviceSlots"]);
      var content, signature := DecodeEncrypted(t.fields["content"], 12, None), DecodeSignature(t.fields["signature"]);
      if metadata.None? || certificates.None? || slots.None? || !AllDistinct(SlotIds(slots.value))
         || content.None? || signature.None?
      then None
      else Some(Snapshot(metadata.value, certificates.value, slots.value, content.value, signature.value))
  }
}
