// The multi-table local repository: compare-and-swap operations inside transactions.
module LocalRepository {
  import opened Common

  // ------------------------------------------------------------------ records

  datatype AccessIdentity = AccessIdentity(
    vaultId: string, deviceId: string, suiteId: string, signKey: seq<Byte>, vaultKey: seq<Byte>)

  // Device access material and its recovery backup have the same shape here: the locally
  // protected fields of each are in `protection`.
  datatype Access = Access(identity: AccessIdentity, revision: int, generation: string, protection: string)

  datatype Snapshot = Snapshot(id: string, rest: string)

  datatype Checkpoint = Checkpoint(vaultId: string, deviceId: string, snapshotDigest: string, rest: string)

  datatype Descriptor = Descriptor(vaultId: string, rest: string)

  datatype Credential = Credential(ciphertext: string, nonce: string)

  // A stored artifact either decodes and passes key validation, or it does not; a misfiled one is
  // not even a record of the vault it is filed under.
  datatype Stored<T> = Readable(value: T) | Malformed | Misfiled

  // Rows are filed under their vault id.
  datatype Tables = Tables(
    descriptors: map<string, Stored<Descriptor>>,
    materials: map<string, Stored<Access>>,
    backups: map<string, Stored<Access>>,
    snapshots: map<string, Stored<Snapshot>>,
    checkpoints: map<string, Stored<Checkpoint>>,
    credentials: map<string, Stored<Credential>>)

  datatype RepositoryError =
    | DeviceAccessMaterialChanged
    | InvalidSecurityRecord
    | InvalidSnapshotRecord
    | InvalidCredentialRecord
    | AlreadyInitialized
    | SnapshotChanged

  function Find<T>(table: map<string, Stored<T>>, id: string): Option<Stored<T>> {
    if id in table then Some(table[id]) else None
  }

  // ------------------------------------------------------------------ access records

  const INITIAL_REVISION: int := 1

  predicate SameIdentity(a: AccessIdentity, b: AccessIdentity) {
    a.vaultId != "" && a.deviceId != "" && a.suiteId != "" && a == b
  }

  predicate Consistent(material: Access, backup: Access) {
    SameIdentity(material.identity, backup.identity) && material.generation != "" &&
    material.generation == backup.generation
  }

  function NextRevision(n: int): Option<int> {
    if IsSafeInteger(n) && n >= INITIAL_REVISION && n < MAX_SAFE_INTEGER then Some(n + 1) else None
  }

  datatype AccessParams = AccessParams(
    expectedMaterialRevision: Option<int>,
    expectedMaterialGeneration: Option<string>,
    expectedBackupRevision: int,
    expectedBackupGeneration: string,
    material: Access,
    backup: Access)

  // The replacement test, branch by branch.
  predicate IsValidReplacement(p: AccessParams, material: Option<Access>, backup: Option<Access>) {
    var expectsAbsent := p.expectedMaterialRevision.None? && p.expectedMaterialGeneration.None?;
    var split := p.expectedMaterialRevision.None? != p.expectedMaterialGeneration.None?;
    var nextMaterial :=
      if p.expectedMaterialRevision.None? then Some(INITIAL_REVISION) else NextRevision(p.expectedMaterialRevision.value);
    var nextBackup := NextRevision(p.expectedBackupRevision);
    var materialMatches :=
      if material.None? then expectsAbsent
      else (Some(material.value.revision) == p.expectedMaterialRevision
            && Some(material.value.generation) == p.expectedMaterialGeneration);
    && !split
    && backup.Some?
    && material.None? == expectsAbsent
    && nextMaterial.Some?
    && nextBackup.Some?
    && p.expectedBackupGeneration != ""
    && (p.expectedMaterialGeneration.None? || p.expectedMaterialGeneration.value != "")
    && materialMatches
    && backup.value.revision == p.expectedBackupRevision
    && backup.value.generation == p.expectedBackupGeneration
    && (material.None? || Consistent(material.value, backup.value))
    && Consistent(p.material, p.backup)
    && SameIdentity(backup.value.identity, p.backup.identity)
    && p.material.revision == nextMaterial.value
    && p.backup.revision == nextBackup.value
    && p.material.generation != backup.value.generation
    && (material.None? || p.material.generation != material.value.generation)
  }

  // The port's promise: an expectation is met when it names exactly the present records, ...
  predicate ExpectationMet(p: AccessParams, material: Option<Access>, backup: Access) {
    && p.expectedMaterialRevision == (if material.None? then None else Some(material.value.revision))
    && p.expectedMaterialGeneration == (if material.None? then None else Some(material.value.generation))
    && p.expectedBackupRevision == backup.revision
    && p.expectedBackupGeneration == backup.generation
  }

  // ... the stored pair is sound and not exhausted, ...
  predicate SoundPair(material: Option<Access>, backup: Access) {
    && backup.identity.vaultId != "" && backup.identity.deviceId != "" && backup.identity.suiteId != ""
    && backup.generation != ""
    && 1 <= backup.revision < MAX_SAFE_INTEGER
    && (material.Some? ==>
          && material.value.identity == backup.identity
          && material.value.generation == backup.generation
          && 1 <= material.value.revision < MAX_SAFE_INTEGER)
  }

  // ... and the replacements carry the same identity, one fresh generation, and next revisions.
  predicate Succeeds(p: AccessParams, material: Option<Access>, backup: Access) {
    && p.material.identity == backup.identity && p.backup.identity == backup.identity
    && p.material.generation == p.backup.generation && p.material.generation != ""
    && p.material.generation != backup.generation
    && p.backup.revision == backup.revision + 1
    && p.material.revision == (if material.None? then 1 else material.value.revision + 1)
  }

  lemma ReplacementTestIsThePromise(p: AccessParams, material: Option<Access>, backup: Option<Access>)
    ensures IsValidReplacement(p, material, backup) <==>
      && backup.Some?
      && ExpectationMet(p, material, backup.value)
      && SoundPair(material, backup.value)
      && Succeeds(p, material, backup.value)
  {
  }

  // ------------------------------------------------------------------ operations

  datatype InitParams = InitParams(
    descriptor: Descriptor, material: Access, backup: Access, snapshot: Snapshot, checkpoint: Checkpoint,
    credential: Option<Credential>)

  // An optional property of a parameter object.
  datatype Field = Omitted | SetUndefined | SetNull | SetTo(credential: Credential)

  datatype SnapshotParams = SnapshotParams(
    snapshot: Snapshot, checkpoint: Checkpoint, credential: Field,
    expectedDigest: string, expectedCheckpoint: Checkpoint, expectedCredential: Field)

  datatype RemoveParams = RemoveParams(
    vaultId: string, descriptor: Descriptor, material: Access, backup: Access,
    digest: string, checkpoint: Checkpoint, credential: Option<Credential>)

  function InitError(t: Tables, p: InitParams): Option<RepositoryError> {
    var id := p.descriptor.vaultId;
    if p.material.revision != 1 || p.backup.revision != 1 || !Consistent(p.material, p.backup) then
      Some(DeviceAccessMaterialChanged)
    else if p.material.identity.vaultId != id || p.checkpoint.vaultId != id
            || p.checkpoint.deviceId != p.material.identity.deviceId then
      Some(InvalidSecurityRecord)
    else if p.snapshot.id != id then Some(InvalidSnapshotRecord)
    else if id in t.descriptors || id in t.materials || id in t.backups || id in t.snapshots
            || id in t.checkpoints || id in t.credentials then
      Some(AlreadyInitialized)
    else None
  }

  function Initialized(t: Tables, p: InitParams): Tables {
    var id := p.descriptor.vaultId;
    Tables(
      t.descriptors[id := Readable(p.descriptor)], t.materials[id := Readable(p.material)],
      t.backups[id := Readable(p.backup)], t.snapshots[id := Readable(p.snapshot)],
      t.checkpoints[id := Readable(p.checkpoint)],
      if p.credential.None? then t.credentials else t.credentials[id := Readable(p.credential.value)])
  }

  // A row that is absent, or decodes and belongs to the vault it is filed under.
  predicate LegibleAccess(row: Option<Stored<Access>>, id: string) {
    row.Some? ==> row.value.Readable? && row.value.value.identity.vaultId == id
  }

  function Value<T>(row: Option<Stored<T>>): Option<T> {
    if row.Some? && row.value.Readable? then Some(row.value.value) else None
  }

  function ReplaceError(t: Tables, p: AccessParams): Option<RepositoryError> {
    var id := p.material.identity.vaultId;
    var material, backup := Find(t.materials, id), Find(t.backups, id);
    if !Consistent(p.material, p.backup) then Some(DeviceAccessMaterialChanged)
    else if !LegibleAccess(material, id) || !LegibleAccess(backup, id) then Some(InvalidSecurityRecord)
    else if !IsValidReplacement(p, Value(material), Value(backup)) then Some(DeviceAccessMaterialChanged)
    else None
  }

  function Replaced(t: Tables, p: AccessParams): Tables {
    var id := p.material.identity.vaultId;
    t.(materials := t.materials[id := Readable(p.material)], backups := t.backups[id := Readable(p.backup)])
  }

  predicate Replaces(f: Field) {
    f.SetNull? || f.SetTo?
  }

  function FieldValue(f: Field): Option<Credential> {
    if f.SetTo? then Some(f.credential) else None
  }

  predicate FieldsMalformed(p: SnapshotParams) {
    var replacing := Replaces(p.credential);
    !p.credential.Omitted? != replacing || !p.expectedCredential.Omitted? != replacing
    || (replacing && !Replaces(p.expectedCredential))
  }

  function SaveError(digest: Snapshot -> string, t: Tables, p: SnapshotParams): Option<RepositoryError> {
    var id := p.snapshot.id;
    var snapshot, checkpoint := Find(t.snapshots, id), Find(t.checkpoints, id);
    var credential := if Replaces(p.credential) then Find(t.credentials, id) else None;
    if p.checkpoint.vaultId != id || FieldsMalformed(p) then Some(InvalidSecurityRecord)
    else if snapshot.None? || checkpoint.None? then Some(SnapshotChanged)
    else if !snapshot.value.Readable? then Some(InvalidSnapshotRecord)
    else if !checkpoint.value.Readable? then Some(InvalidSecurityRecord)
    else if credential.Some? && !credential.value.Readable? then Some(InvalidCredentialRecord)
    else if snapshot.value.value.id != id || checkpoint.value.value.vaultId != id
            || digest(snapshot.value.value) != p.expectedDigest
            || checkpoint.value.value != p.expectedCheckpoint
            || (Replaces(p.credential) && Value(credential) != FieldValue(p.expectedCredential)) then
      Some(SnapshotChanged)
    else None
  }

  function Saved(t: Tables, p: SnapshotParams): Tables {
    var id := p.snapshot.id;
    t.(snapshots := t.snapshots[id := Readable(p.snapshot)],
       checkpoints := t.checkpoints[id := Readable(p.checkpoint)],
       credentials := match p.credential
         case SetNull => t.credentials - {id}
         case SetTo(c) => t.credentials[id := Readable(c)]
         case _ => t.credentials)
  }

  function RemovedAll(t: Tables, id: string): Tables {
    Tables(t.descriptors - {id}, t.materials - {id}, t.backups - {id}, t.snapshots - {id},
      t.checkpoints - {id}, t.credentials - {id})
  }

  // Ok(true) when every artifact is exactly as expected; an illegible row is an error.
  function RemovalVerdict(digest: Snapshot -> string, t: Tables, p: RemoveParams): Result<bool, RepositoryError> {
    var id := p.vaultId;
    if id !in t.descriptors || id !in t.materials || id !in t.backups || id !in t.snapshots || id !in t.checkpoints then
      Ok(false)
    else if t.descriptors[id].Misfiled? || t.materials[id].Misfiled? || t.backups[id].Misfiled? then
      Err(InvalidSecurityRecord)
    else if !t.snapshots[id].Readable? then Err(InvalidSnapshotRecord)
    else if !t.checkpoints[id].Readable? then Err(InvalidSecurityRecord)
    else if id in t.credentials && !t.credentials[id].Readable? then Err(InvalidCredentialRecord)
    else
      var snapshot, checkpoint := t.snapshots[id].value, t.checkpoints[id].value;
      Ok(snapshot.id == id && checkpoint.vaultId == id
         && t.descriptors[id] == Readable(p.descriptor)
         && t.materials[id] == Readable(p.material) && t.backups[id] == Readable(p.backup)
         && digest(snapshot) == p.digest && checkpoint.snapshotDigest == p.digest && checkpoint == p.checkpoint
         && Value(Find(t.credentials, id)) == p.credential)
  }

  // ------------------------------------------------------------------ what the operations decide

  // The row holds exactly this record.
  predicate Holds<T(==)>(table: map<string, Stored<T>>, id: string, value: T) {
    id in table && table[id] == Readable(value)
  }

  // The row holds some record, or none at all.
  predicate Legible<T>(table: map<string, Stored<T>>, id: string) {
    id in table ==> table[id].Readable?
  }

  predicate HoldsCredential(t: Tables, id: string, expected: Option<Credential>) {
    if expected.None? then id !in t.credentials else Holds(t.credentials, id, expected.value)
  }

  // The row is set to that record or emptied, and no other row of the table changes.
  ghost predicate OnlyRow<T(!new)>(a: map<string, Stored<T>>, b: map<string, Stored<T>>, id: string, value: Option<T>) {
    && (if value.None? then id !in b else id in b && b[id] == Readable(value.value))
    && forall k :: k != id ==> (k in a <==> k in b) && (k in a ==> b[k] == a[k])
  }

  // Both records carry one complete identity and one generation.
  predicate SamePair(material: Access, backup: Access) {
    && material.identity == backup.identity && material.generation == backup.generation && material.generation != ""
    && material.identity.vaultId != "" && material.identity.deviceId != "" && material.identity.suiteId != ""
  }

  // A vault is initialised when the records are first ones of one device of that vault, and none
  // of its rows exists.
  ghost predicate InitDecision(t: Tables, p: InitParams, error: Option<RepositoryError>) {
    var id := p.descriptor.vaultId;
    var first := p.material.revision == 1 && p.backup.revision == 1 && SamePair(p.material, p.backup);
    var own := p.material.identity.vaultId == id == p.checkpoint.vaultId && p.checkpoint.deviceId == p.material.identity.deviceId;
    var vacant :=
      id !in t.descriptors && id !in t.materials && id !in t.backups && id !in t.snapshots && id !in t.checkpoints
      && id !in t.credentials;
    && (error == Some(DeviceAccessMaterialChanged) <==> !first)
    && (error == Some(InvalidSecurityRecord) <==> first && !own)
    && (error == Some(InvalidSnapshotRecord) <==> first && own && p.snapshot.id != id)
    && (error == Some(AlreadyInitialized) <==> first && own && p.snapshot.id == id && !vacant)
    && (error == None <==> first && own && p.snapshot.id == id && vacant)
  }

  ghost predicate InitEffect(t: Tables, u: Tables, p: InitParams) {
    var id := p.descriptor.vaultId;
    && OnlyRow(t.descriptors, u.descriptors, id, Some(p.descriptor)) && OnlyRow(t.materials, u.materials, id, Some(p.material))
    && OnlyRow(t.backups, u.backups, id, Some(p.backup)) && OnlyRow(t.snapshots, u.snapshots, id, Some(p.snapshot))
    && OnlyRow(t.checkpoints, u.checkpoints, id, Some(p.checkpoint))
    && OnlyRow(t.credentials, u.credentials, id, p.credential)
  }

  lemma InitializationIsExact(t: Tables, p: InitParams)
    ensures InitDecision(t, p, InitError(t, p))
    ensures InitError(t, p).None? ==> InitEffect(t, Initialized(t, p), p)
  {
    InitializationIsDecided(t, p);
    hide InitDecision, Consistent, OnlyRow;
    if InitError(t, p).None? {
      var u := Initialized(t, p);
      SetRow(t.descriptors, p.descriptor.vaultId, p.descriptor);
      SetRow(t.materials, p.descriptor.vaultId, p.material);
      SetRow(t.backups, p.descriptor.vaultId, p.backup);
      SetRow(t.snapshots, p.descriptor.vaultId, p.snapshot);
      SetRow(t.checkpoints, p.descriptor.vaultId, p.checkpoint);
      if p.credential.Some? { SetRow(t.credentials, p.descriptor.vaultId, p.credential.value); }
      else { EmptyRow(t.credentials, p.descriptor.vaultId); }
    }
  }

  lemma InitializationIsDecided(t: Tables, p: InitParams)
    ensures InitDecision(t, p, InitError(t, p))
  {
  }

  lemma SetRow<T(!new)>(table: map<string, Stored<T>>, id: string, value: T)
    ensures OnlyRow(table, table[id := Readable(value)], id, Some(value))
  {
  }

  lemma EmptyRow<T(!new)>(table: map<string, Stored<T>>, id: string)
    ensures id !in table ==> OnlyRow(table, table, id, None)
    ensures OnlyRow(table, table - {id}, id, None)
  {
  }

  // The records as stored, if they can be read.
  predicate MeetsExpectation(t: Tables, p: AccessParams) {
    var id := p.material.identity.vaultId;
    && id in t.backups && t.backups[id].Readable? && (id in t.materials ==> t.materials[id].Readable?)
    && var material := if id in t.materials then Some(t.materials[id].value) else None;
       ExpectationMet(p, material, t.backups[id].value) && SoundPair(material, t.backups[id].value)
       && Succeeds(p, material, t.backups[id].value)
  }

  // Material and backup are replaced when the expectation is met; illegible rows are an error.
  ghost predicate ReplaceDecision(t: Tables, p: AccessParams, error: Option<RepositoryError>) {
    var id := p.material.identity.vaultId;
    var legible :=
      && Legible(t.materials, id) && Legible(t.backups, id)
      && (id in t.materials ==> t.materials[id].value.identity.vaultId == id)
      && (id in t.backups ==> t.backups[id].value.identity.vaultId == id);
    && (error == None <==> SamePair(p.material, p.backup) && MeetsExpectation(t, p))
    && (error == Some(InvalidSecurityRecord) <==> SamePair(p.material, p.backup) && !legible)
    && (error.Some? ==> error == Some(InvalidSecurityRecord) || error == Some(DeviceAccessMaterialChanged))
  }

  ghost predicate ReplaceEffect(t: Tables, u: Tables, p: AccessParams) {
    var id := p.material.identity.vaultId;
    && OnlyRow(t.materials, u.materials, id, Some(p.material)) && OnlyRow(t.backups, u.backups, id, Some(p.backup))
    && u.descriptors == t.descriptors && u.snapshots == t.snapshots && u.checkpoints == t.checkpoints
    && u.credentials == t.credentials
  }

  lemma ReplacementIsExact(t: Tables, p: AccessParams)
    ensures ReplaceDecision(t, p, ReplaceError(t, p))
    ensures ReplaceError(t, p).None? ==> ReplaceEffect(t, Replaced(t, p), p)
  {
    var id := p.material.identity.vaultId;
    ReplacementTestIsThePromise(p, Value(Find(t.materials, id)), Value(Find(t.backups, id)));
    hide IsValidReplacement;
  }

  // A snapshot is saved when the stored snapshot, checkpoint and, if it is replaced, credential are
  // those expected; credential and expectation are given together or not at all.
  ghost predicate SaveDecision(digest: Snapshot -> string, t: Tables, p: SnapshotParams, error: Option<RepositoryError>) {
    var id := p.snapshot.id;
    var changes := p.credential.SetNull? || p.credential.SetTo?;
    var given := p.checkpoint.vaultId == id
      && (if changes then p.expectedCredential.SetNull? || p.expectedCredential.SetTo?
          else p.credential == Omitted && p.expectedCredential == Omitted);
    var present := id in t.snapshots && id in t.checkpoints;
    var expected := if p.expectedCredential.SetTo? then Some(p.expectedCredential.credential) else None;
    && (error == None <==>
          && given && id in t.snapshots && t.snapshots[id].Readable?
          && t.snapshots[id].value.id == id && digest(t.snapshots[id].value) == p.expectedDigest
          && Holds(t.checkpoints, id, p.expectedCheckpoint) && p.expectedCheckpoint.vaultId == id
          && (changes ==> HoldsCredential(t, id, expected)))
    && (error == Some(InvalidSnapshotRecord) <==> given && present && !t.snapshots[id].Readable?)
    && (error == Some(InvalidSecurityRecord) <==>
          !given || (present && t.snapshots[id].Readable? && !t.checkpoints[id].Readable?))
    && (error == Some(InvalidCredentialRecord) <==>
          given && present && t.snapshots[id].Readable? && t.checkpoints[id].Readable? && changes && !Legible(t.credentials, id))
    && error != Some(DeviceAccessMaterialChanged) && error != Some(AlreadyInitialized)
  }

  ghost predicate SaveEffect(t: Tables, u: Tables, p: SnapshotParams) {
    var id := p.snapshot.id;
    && OnlyRow(t.snapshots, u.snapshots, id, Some(p.snapshot)) && OnlyRow(t.checkpoints, u.checkpoints, id, Some(p.checkpoint))
    && (p.credential.SetTo? ==> OnlyRow(t.credentials, u.credentials, id, Some(p.credential.credential)))
    && (p.credential.SetNull? ==> OnlyRow(t.credentials, u.credentials, id, None))
    && (p.credential.Omitted? || p.credential.SetUndefined? ==> u.credentials == t.credentials)
    && u.descriptors == t.descriptors && u.materials == t.materials && u.backups == t.backups
  }

  lemma SavingIsExact(digest: Snapshot -> string, t: Tables, p: SnapshotParams)
    ensures SaveDecision(digest, t, p, SaveError(digest, t, p))
    ensures SaveError(digest, t, p).None? ==> SaveEffect(t, Saved(t, p), p)
  {
    SavingIsDecided(digest, t, p);
    hide SaveDecision, SaveError, OnlyRow;
    SetRow(t.snapshots, p.snapshot.id, p.snapshot);
    SetRow(t.checkpoints, p.snapshot.id, p.checkpoint);
    EmptyRow(t.credentials, p.snapshot.id);
    if p.credential.SetTo? { SetRow(t.credentials, p.snapshot.id, p.credential.credential); }
  }

  lemma SavingIsDecided(digest: Snapshot -> string, t: Tables, p: SnapshotParams)
    ensures SaveDecision(digest, t, p, SaveError(digest, t, p))
  {
  }

  // Every row of the vault is exactly the expected one.
  predicate AllAsExpected(digest: Snapshot -> string, t: Tables, p: RemoveParams) {
    var id := p.vaultId;
    && Holds(t.descriptors, id, p.descriptor) && Holds(t.materials, id, p.material) && Holds(t.backups, id, p.backup)
    && id in t.snapshots && t.snapshots[id].Readable?
    && t.snapshots[id].value.id == id && digest(t.snapshots[id].value) == p.digest
    && Holds(t.checkpoints, id, p.checkpoint) && p.checkpoint.vaultId == id && p.checkpoint.snapshotDigest == p.digest
    && HoldsCredential(t, id, p.credential)
  }

  // A removal happens when all rows are as expected; a missing row is a refusal, an illegible one an error.
  ghost predicate RemovalDecision(
    digest: Snapshot -> string, t: Tables, p: RemoveParams, r: Result<bool, RepositoryError>)
  {
    var id := p.vaultId;
    var present := id in t.descriptors && id in t.materials && id in t.backups && id in t.snapshots && id in t.checkpoints;
    && (r == Ok(true) <==> AllAsExpected(digest, t, p))
    && (!present ==> r == Ok(false))
    && (present ==>
          var filed := t.descriptors[id] != Misfiled && t.materials[id] != Misfiled && t.backups[id] != Misfiled;
          && (r == Err(InvalidSnapshotRecord) <==> filed && !t.snapshots[id].Readable?)
          && (r == Err(InvalidSecurityRecord) <==>
                !filed || (t.snapshots[id].Readable? && !t.checkpoints[id].Readable?))
          && (r == Err(InvalidCredentialRecord) <==>
                filed && t.snapshots[id].Readable? && t.checkpoints[id].Readable? && !Legible(t.credentials, id)))
    && (r.Err? ==> r.error == InvalidSnapshotRecord || r.error == InvalidSecurityRecord || r.error == InvalidCredentialRecord)
  }

  ghost predicate RemovalEffect(t: Tables, u: Tables, id: string) {
    && OnlyRow(t.descriptors, u.descriptors, id, None) && OnlyRow(t.materials, u.materials, id, None)
    && OnlyRow(t.backups, u.backups, id, None) && OnlyRow(t.snapshots, u.snapshots, id, None)
    && OnlyRow(t.checkpoints, u.checkpoints, id, None) && OnlyRow(t.credentials, u.credentials, id, None)
  }

  lemma RemovalIsExact(digest: Snapshot -> string, t: Tables, p: RemoveParams)
    ensures RemovalDecision(digest, t, p, RemovalVerdict(digest, t, p))
  {
  }

  lemma RemovalRemovesTheVault(t: Tables, id: string)
    ensures RemovalEffect(t, RemovedAll(t, id), id)
  {
  }

  class VaultLocalRepository {
    var tables: Tables
    const digest: Snapshot -> string

    constructor (tables: Tables, digest: Snapshot -> string)
      ensures this.tables == tables && this.digest == digest
    {
      this.tables, this.digest := tables, digest;
    }

    method SaveInitializedLocalVault(p: InitParams) returns (error: Option<RepositoryError>)
      modifies this
      ensures error == InitError(old(tables), p) && InitDecision(old(tables), p, error)
      ensures tables == if error.None? then Initialized(old(tables), p) else old(tables)
      ensures error.None? ==> InitEffect(old(tables), tables, p)
    {
      InitializationIsExact(tables, p);
      hide InitDecision, InitEffect;
      var id := p.descriptor.vaultId;
      if p.material.revision != INITIAL_REVISION || p.backup.revision != INITIAL_REVISION
         || !Consistent(p.material, p.backup) {
        return Some(DeviceAccessMaterialChanged);
      }
      if p.material.identity.vaultId != id || p.checkpoint.vaultId != id
         || p.checkpoint.deviceId != p.material.identity.deviceId {
        return Some(InvalidSecurityRecord);
      }
      if p.snapshot.id != id { return Some(InvalidSnapshotRecord); }
      var existing := [
        id in tables.descriptors, id in tables.materials, id in tables.backups,
        id in tables.snapshots, id in tables.checkpoints, id in tables.credentials];
      if true in existing {
        assert exists i :: 0 <= i < 6 && existing[i];
        return Some(AlreadyInitialized);
      }
      assert forall i :: 0 <= i < 6 ==> existing[i] in existing;
      tables := tables.(descriptors := tables.descriptors[id := Readable(p.descriptor)]);
      tables := tables.(materials := tables.materials[id := Readable(p.material)]);
      tables := tables.(backups := tables.backups[id := Readable(p.backup)]);
      tables := tables.(snapshots := tables.snapshots[id := Readable(p.snapshot)]);
      tables := tables.(checkpoints := tables.checkpoints[id := Readable(p.checkpoint)]);
      if p.credential.Some? {
        tables := tables.(credentials := tables.credentials[id := Readable(p.credential.value)]);
      }
      error := None;
    }

    method RemoveVaultRecords(id: string)
      modifies this
      ensures tables == RemovedAll(old(tables), id) && RemovalEffect(old(tables), tables, id)
    {
      RemovalRemovesTheVault(tables, id);
      hide RemovalEffect;
      tables := tables.(descriptors := tables.descriptors - {id});
      tables := tables.(materials := tables.materials - {id});
      tables := tables.(backups := tables.backups - {id});
      tables := tables.(snapshots := tables.snapshots - {id});
      tables := tables.(checkpoints := tables.checkpoints - {id});
      tables := tables.(credentials := tables.credentials - {id});
    }

    method RemovePersistedLocalVaultIfArtifactsMatch(p: RemoveParams) returns (r: Result<bool, RepositoryError>)
      modifies this
      ensures r == RemovalVerdict(digest, old(tables), p) && RemovalDecision(digest, old(tables), p, r)
      ensures r == Ok(true) ==> RemovalEffect(old(tables), tables, p.vaultId)
      ensures tables == if r == Ok(true) then RemovedAll(old(tables), p.vaultId) else old(tables)
    {
      RemovalIsExact(digest, tables, p);
      hide RemovalDecision, RemovalEffect;
      var id := p.vaultId;
      if id !in tables.descriptors || id !in tables.materials || id !in tables.backups
         || id !in tables.snapshots || id !in tables.checkpoints {
        return Ok(false);
      }
      if tables.descriptors[id].Misfiled? || tables.materials[id].Misfiled? || tables.backups[id].Misfiled? {
        return Err(InvalidSecurityRecord);
      }
      if !tables.snapshots[id].Readable? { return Err(InvalidSnapshotRecord); }
      if !tables.checkpoints[id].Readable? { return Err(InvalidSecurityRecord); }
      var credential: Option<Credential> := None;
      if id in tables.credentials {
        if !tables.credentials[id].Readable? { return Err(InvalidCredentialRecord); }
        credential := Some(tables.credentials[id].value);
      }
      var snapshot, checkpoint := tables.snapshots[id].value, tables.checkpoints[id].value;
      if snapshot.id != id || checkpoint.vaultId != id || tables.descriptors[id] != Readable(p.descriptor)
         || tables.materials[id] != Readable(p.material) || tables.backups[id] != Readable(p.backup)
         || digest(snapshot) != p.digest || checkpoint.snapshotDigest != p.digest
         || checkpoint != p.checkpoint || credential != p.credential {
        return Ok(false);
      }
      RemoveVaultRecords(id);
      r := Ok(true);
    }

    method SaveDeviceAccessRecords(p: AccessParams) returns (error: Option<RepositoryError>)
      modifies this
      ensures error == ReplaceError(old(tables), p) && ReplaceDecision(old(tables), p, error)
      ensures tables == if error.None? then Replaced(old(tables), p) else old(tables)
      ensures error.None? ==> ReplaceEffect(old(tables), tables, p)
    {
      ReplacementIsExact(tables, p);
      hide ReplaceDecision, ReplaceEffect, IsValidReplacement;
      var id := p.material.identity.vaultId;
      if !Consistent(p.material, p.backup) { return Some(DeviceAccessMaterialChanged); }
      var material, backup: Option<Access> := None, None;
      if id in tables.materials {
        var row := tables.materials[id];
        if !row.Readable? || row.value.identity.vaultId != id { return Some(InvalidSecurityRecord); }
        material := Some(row.value);
      }
      if id in tables.backups {
        var row := tables.backups[id];
        if !row.Readable? || row.value.identity.vaultId != id { return Some(InvalidSecurityRecord); }
        backup := Some(row.value);
      }
      if !IsValidReplacement(p, material, backup) { return Some(DeviceAccessMaterialChanged); }
      tables := tables.(materials := tables.materials[id := Readable(p.material)]);
      tables := tables.(backups := tables.backups[id := Readable(p.backup)]);
      error := None;
    }

    method RemoveDeviceAccessMaterial(id: string)
      modifies this
      ensures tables == old(tables).(materials := old(tables).materials - {id})
    {
      tables := tables.(materials := tables.materials - {id});
    }

    method SaveVaultSnapshotWithCheckpoint(p: SnapshotParams) returns (error: Option<RepositoryError>)
      modifies this
      ensures error == SaveError(digest, old(tables), p) && SaveDecision(digest, old(tables), p, error)
      ensures tables == if error.None? then Saved(old(tables), p) else old(tables)
      ensures error.None? ==> SaveEffect(old(tables), tables, p)
    {
      SavingIsExact(digest, tables, p);
      hide SaveDecision, SaveEffect;
      var id := p.snapshot.id;
      if p.checkpoint.vaultId != id { return Some(InvalidSecurityRecord); }
      var replacing := p.credential != Omitted && p.credential != SetUndefined;
      var has, hasExpected := p.credential != Omitted, p.expectedCredential != Omitted;
      if has != replacing || hasExpected != replacing
         || (replacing && (p.expectedCredential == Omitted || p.expectedCredential == SetUndefined)) {
        return Some(InvalidSecurityRecord);
      }
      if id !in tables.snapshots || id !in tables.checkpoints { return Some(SnapshotChanged); }
      if !tables.snapshots[id].Readable? { return Some(InvalidSnapshotRecord); }
      if !tables.checkpoints[id].Readable? { return Some(InvalidSecurityRecord); }
      var snapshot, checkpoint := tables.snapshots[id].value, tables.checkpoints[id].value;
      var credential: Option<Credential> := None;
      if replacing && id in tables.credentials {
        if !tables.credentials[id].Readable? { return Some(InvalidCredentialRecord); }
        credential := Some(tables.credentials[id].value);
      }
      if snapshot.id != id || checkpoint.vaultId != id || digest(snapshot) != p.expectedDigest
         || checkpoint != p.expectedCheckpoint
         || (replacing && credential != FieldValue(p.expectedCredential)) {
        return Some(SnapshotChanged);
      }
      tables := tables.(snapshots := tables.snapshots[id := Readable(p.snapshot)]);
      tables := tables.(checkpoints := tables.checkpoints[id := Readable(p.checkpoint)]);
      if p.credential == SetNull {
        tables := tables.(credentials := tables.credentials - {id});
      } else if p.credential.SetTo? {
        tables := tables.(credentials := tables.credentials[id := Readable(p.credential.credential)]);
      }
      error := None;
    }
  }
}
