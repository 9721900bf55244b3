// The decrypted vault: its typed form, its encoding, and the field-by-field part of decoding.
module VaultCodec {
  import opened Common
  import opened Identities
  import opened Texts
  import opened JsonValues
  import opened ArtifactPrimitives
  import opened SnapshotCodec

  const UNCATEGORIZED: string := "uncategorized"

  // ------------------------------------------------------------------ schemas

  predicate IdText(s: string) {
    1 <= |s| <= 128 && IsTrimmed(s)
  }

  predicate FolderIdText(s: string) {
    IdText(s) && s != UNCATEGORIZED
  }

  predicate Between(s: string, minimum: nat, maximum: nat) {
    minimum <= |s| <= maximum
  }

  function TextBetween(t: Tree, minimum: nat, maximum: nat): Option<string> {
    if t.TText? && Between(t.s, minimum, maximum) then Some(t.s) else None
  }

  // z.string().trim().min(..).max(..): the parsed value is the trimmed one.
  function TrimmedText(t: Tree, minimum: nat, maximum: nat): Option<string> {
    if t.TText? && Between(Trim(t.s), minimum, maximum) then Some(Trim(t.s)) else None
  }

  predicate TrimmedBetween(s: string, minimum: nat, maximum: nat) {
    IsTrimmed(s) && Between(s, minimum, maximum)
  }

  function Checked(t: Tree, ok: string -> bool): Option<string> {
    if t.TText? && ok(t.s) then Some(t.s) else None
  }

  // An optional text property: None is a throw, Some(None) an absent property.
  function OptionalText(m: map<string, Tree>, key: string, maximum: nat): Option<Option<string>> {
    if key !in m || m[key] == TUndefined then Some(None)
    else if TrimmedText(m[key], 0, maximum).Some? then Some(TrimmedText(m[key], 0, maximum)) else None
  }

  function WithText(m: map<string, Tree>, key: string, text: Option<string>): map<string, Tree> {
    if text.None? then m else m[key := TText(text.value)]
  }

  const TAG_GROUP_IDS: set<string> := {"status", "topic", "environment", "access", "other"}
  const TAG_COLORS: set<string> := {"gray", "red", "orange", "yellow", "green", "blue", "purple", "pink"}
  const TAG_SHADES: set<int> := {300, 400, 500, 600, 700}

  function MemberText(t: Tree, allowed: set<string>): Option<string> {
    if t.TText? && t.s in allowed then Some(t.s) else None
  }

  // ------------------------------------------------------------------ items

  datatype Entry = Entry(
    id: string, password: string, login: string, tags: seq<string>, url: string, folderId: string, vector: VersionVector)
  datatype Deleted = Deleted(id: string, vector: VersionVector, deletedAt: int)
  datatype Profile = Profile(id: string, name: string, createdAt: int, vector: VersionVector)
  datatype Tag = Tag(
    id: string, name: string, groupId: string, color: string, shade: int, createdAt: int, vector: VersionVector)
  datatype Group = Group(id: string, name: string, icon: string, baseColor: string, description: Option<string>)
  datatype Folder = Folder(
    id: string, name: string, icon: string, description: Option<string>, parentId: Option<string>, createdAt: int,
    vector: VersionVector)

  predicate ValidEntry(e: Entry) {
    && NonBlankText(e.id) && Between(e.password, 0, 512) && Between(e.login, 1, 128) && Between(e.url, 1, 512)
    && |e.tags| <= 10 && (forall i :: 0 <= i < |e.tags| ==> IdText(e.tags[i]) && NonBlankText(e.tags[i]))
    && AllDistinct(e.tags) && IdText(e.folderId) && ValidVector(e.vector)
  }

  function EncodeTexts(texts: seq<string>): Tree {
    TArr(MapSeq((s: string) => TText(s), texts))
  }

  function EncodeEntry(e: Entry): Tree {
    TObj(map["id" := TText(e.id), "password" := TText(e.password), "login" := TText(e.login),
      "tags" := EncodeTexts(e.tags), "sanitizedUrl" := TText(e.url), "folderId" := TText(e.folderId),
      "versionVector" := EncodeVector(e.vector)])
  }

  function DecodeTexts(t: Tree): Option<seq<string>> {
    DecodeArray(NonBlank, t)
  }

  // An undefined folder falls back to the schema's default.
  function DecodeFolderId(t: Tree): Option<string> {
    if t == TUndefined then Some(UNCATEGORIZED) else Checked(t, IdText)
  }

  function DecodeEntry(t: Tree): Option<Entry> {
    if !ExactRecord(t, {"id", "password", "login", "tags", "sanitizedUrl", "folderId", "versionVector"}, {}) then None
    else
      var m := t.fields;
      var tags, id := DecodeTexts(m["tags"]), NonBlank(m["id"]);
      var password, login := TextBetween(m["password"], 0, 512), TextBetween(m["login"], 1, 128);
      var url, folderId := TextBetween(m["sanitizedUrl"], 1, 512), DecodeFolderId(m["folderId"]);
      var vector := DecodeVector(m["versionVector"]);
      if tags.None? || !AllDistinct(tags.value) || |tags.value| > 10
         || (exists i :: 0 <= i < |tags.value| && !IdText(tags.value[i]))
         || id.None? || password.None? || login.None? || url.None? || folderId.None? || vector.None?
      then None
      else Some(Entry(id.value, password.value, login.value, tags.value, url.value, folderId.value, vector.value))
  }

  predicate ValidDeleted(d: Deleted, idOk: string -> bool) {
    idOk(d.id) && ValidVector(d.vector) && SafeFrom(d.deletedAt, 0)
  }

  function EncodeDeleted(d: Deleted): Tree {
    TObj(map["id" := TText(d.id), "versionVector" := EncodeVector(d.vector), "deletedAt" := TNum(d.deletedAt)])
  }

  function DecodeDeleted(t: Tree, idOk: string -> bool): Option<Deleted> {
    if !ExactRecord(t, {"id", "versionVector", "deletedAt"}, {}) then None
    else
      var id, vector := Checked(t.fields["id"], idOk), DecodeVector(t.fields["versionVector"]);
      var deletedAt := SafeInteger(t.fields["deletedAt"], 0);
      if id.None? || vector.None? || deletedAt.None? then None else Some(Deleted(id.value, vector.value, deletedAt.value))
  }

  predicate ValidProfile(p: Profile) {
    NonBlankText(p.id) && NonBlankText(p.name) && SafeFrom(p.createdAt, 0) && ValidVector(p.vector)
  }

  function EncodeProfile(p: Profile): Tree {
    TObj(map["id" := TText(p.id), "name" := TText(p.name), "createdAt" := TNum(p.createdAt),
      "versionVector" := EncodeVector(p.vector)])
  }

  function DecodeProfile(t: Tree): Option<Profile> {
    if !ExactRecord(t, {"id", "name", "createdAt", "versionVector"}, {}) then None
    else
      var id, name := NonBlank(t.fields["id"]), NonBlank(t.fields["name"]);
      var createdAt, vector := SafeInteger(t.fields["createdAt"], 0), DecodeVector(t.fields["versionVector"]);
      if id.None? || name.None? || createdAt.None? || vector.None? then None
      else Some(Profile(id.value, name.value, createdAt.value, vector.value))
  }

  predicate ValidTag(g: Tag) {
    && IdText(g.id) && TrimmedBetween(g.name, 1, 32) && g.groupId in TAG_GROUP_IDS && g.color in TAG_COLORS
    && g.shade in TAG_SHADES && SafeFrom(g.createdAt, 0) && ValidVector(g.vector)
  }

  function EncodeTag(g: Tag): Tree {
    TObj(map["id" := TText(g.id), "name" := TText(g.name), "groupId" := TText(g.groupId), "color" := TText(g.color),
      "shade" := TNum(g.shade), "createdAt" := TNum(g.createdAt), "versionVector" := EncodeVector(g.vector)])
  }

  function DecodeTag(t: Tree): Option<Tag> {
    if !ExactRecord(t, {"id", "name", "groupId", "color", "shade", "createdAt", "versionVector"}, {}) then None
    else
      var m := t.fields;
      var id, name := Checked(m["id"], IdText), TrimmedText(m["name"], 1, 32);
      var groupId, color := MemberText(m["groupId"], TAG_GROUP_IDS), MemberText(m["color"], TAG_COLORS);
      var createdAt, vector := SafeInteger(m["createdAt"], 0), DecodeVector(m["versionVector"]);
      if id.None? || name.None? || groupId.None? || color.None? || !m["shade"].TNum? || m["shade"].n !in TAG_SHADES
         || createdAt.None? || vector.None?
      then None
      else Some(Tag(id.value, name.value, groupId.value, color.value, m["shade"].n, createdAt.value, vector.value))
  }

  predicate ValidGroup(g: Group) {
    && g.id in TAG_GROUP_IDS && TrimmedBetween(g.name, 1, 32) && TrimmedBetween(g.icon, 1, 128)
    && g.baseColor in TAG_COLORS && (g.description.Some? ==> TrimmedBetween(g.description.value, 0, 256))
  }

  function EncodeGroup(g: Group): Tree {
    TObj(WithText(map["id" := TText(g.id), "name" := TText(g.name), "icon" := TText(g.icon),
      "baseColor" := TText(g.baseColor)], "description", g.description))
  }

  function DecodeGroup(t: Tree): Option<Group> {
    if !ExactRecord(t, {"id", "name", "icon", "baseColor"}, {"description"}) then None
    else
      var m := t.fields;
      var id, name, icon := MemberText(m["id"], TAG_GROUP_IDS), TrimmedText(m["name"], 1, 32), TrimmedText(m["icon"], 1, 128);
      var baseColor, description := MemberText(m["baseColor"], TAG_COLORS), OptionalText(m, "description", 256);
      if id.None? || name.None? || icon.None? || baseColor.None? || description.None? then None
      else Some(Group(id.value, name.value, icon.value, baseColor.value, description.value))
  }

  predicate ValidFolder(f: Folder) {
    && FolderIdText(f.id) && TrimmedBetween(f.name, 1, 64) && TrimmedBetween(f.icon, 1, 128)
    && (f.description.Some? ==> TrimmedBetween(f.description.value, 0, 256))
    && (f.parentId.Some? ==> IdText(f.parentId.value))
    && SafeFrom(f.createdAt, 0) && ValidVector(f.vector)
  }

  function EncodeFolder(f: Folder): Tree {
    TObj(WithText(map["id" := TText(f.id), "name" := TText(f.name), "icon" := TText(f.icon),
      "parentId" := (if f.parentId.None? then TNull else TText(f.parentId.value)),
      "createdAt" := TNum(f.createdAt), "versionVector" := EncodeVector(f.vector)], "description", f.description))
  }

  function DecodeParent(t: Tree): Option<Option<string>> {
    if t == TNull then Some(None) else if Checked(t, IdText).Some? then Some(Checked(t, IdText)) else None
  }

  function DecodeFolder(t: Tree): Option<Folder> {
    if !ExactRecord(t, {"id", "name", "icon", "parentId", "createdAt", "versionVector"}, {"description"}) then None
    else
      var m := t.fields;
      var id, name, icon := Checked(m["id"], FolderIdText), TrimmedText(m["name"], 1, 64), TrimmedText(m["icon"], 1, 128);
      var description, parentId := OptionalText(m, "description", 256), DecodeParent(m["parentId"]);
      var createdAt, vector := SafeInteger(m["createdAt"], 0), DecodeVector(m["versionVector"]);
      if id.None? || name.None? || icon.None? || description.None? || parentId.None? || createdAt.None? || vector.None?
      then None
      else Some(Folder(id.value, name.value, icon.value, description.value, parentId.value, createdAt.value, vector.value))
  }

  // ------------------------------------------------------------------ the vault

  datatype Removal = Removal(expected: Option<Identity>, rollback: Snapshot)

  datatype Revocation = Revocation(deviceIds: seq<string>, keyGeneration: int)

  datatype Vault = Vault(
    vector: VersionVector, entries: seq<Entry>, deletedEntries: seq<Deleted>, profiles: seq<Profile>,
    deletedProfiles: seq<Deleted>, tags: seq<Tag>, deletedTags: seq<Deleted>, groups: seq<Group>,
    folders: seq<Folder>, deletedFolders: seq<Deleted>,
    target: Option<Tree>, removal: Option<Removal>, revocation: Option<Revocation>)

  // decodeJsonValue accepts JSON values and returns them unchanged.
  predicate JsonTree(t: Tree) {
    match t
    case TArr(items) => forall i :: 0 <= i < |items| ==> JsonTree(items[i])
    case TObj(fields) => forall k :: k in fields ==> JsonTree(fields[k])
    case TUndefined => false
    case TBytes(_) => false
    case TUnsupported => false
    case _ => true
  }

  function EncodeTarget(target: Tree): Tree {
    TObj(map["provider" := TText("aws-s3-v1"), "targetConfig" := target])
  }

  function DecodeTarget(t: Tree): Option<Tree> {
    if ExactRecord(t, {"provider", "targetConfig"}, {}) && t.fields["provider"] == TText("aws-s3-v1")
       && JsonTree(t.fields["targetConfig"])
    then Some(t.fields["targetConfig"]) else None
  }

  function EncodeRemoval(r: Removal): Tree {
    TObj(map[
      "expectedRemoteSnapshotIdentity" := (if r.expected.None? then TNull else EncodeIdentity(r.expected.value)),
      "rollbackSnapshot" := EncodeSnapshot(r.rollback)])
  }

  function DecodeExpected(t: Tree): Option<Option<Identity>> {
    if t == TNull then Some(None) else if DecodeIdentity(t).Some? then Some(DecodeIdentity(t)) else None
  }

  function DecodeRemoval(t: Tree): Option<Removal> {
    if !ExactRecord(t, {"expectedRemoteSnapshotIdentity", "rollbackSnapshot"}, {}) then None
    else
      var expected := DecodeExpected(t.fields["expectedRemoteSnapshotIdentity"]);
      var rollback := DecodeSnapshot(t.fields["rollbackSnapshot"]);
      if expected.None? || rollback.None? then None else Some(Removal(expected.value, rollback.value))
  }

  function EncodeRevocation(r: Revocation): Tree {
    TObj(map["revokedDeviceIds" := EncodeTexts(r.deviceIds), "vaultKeyGeneration" := TNum(r.keyGeneration)])
  }

  function DecodeRevocation(t: Tree): Option<Revocation> {
    if !ExactRecord(t, {"revokedDeviceIds", "vaultKeyGeneration"}, {}) then None
    else
      var ids, generation := DecodeTexts(t.fields["revokedDeviceIds"]), SafeInteger(t.fields["vaultKeyGeneration"], 1);
      if ids.None? || !AllDistinct(ids.value) || generation.None? then None else Some(Revocation(ids.value, generation.value))
  }

  // An optional property that decodes to nothing when absent or undefined.
  function DecodeOptional<A>(m: map<string, Tree>, key: string, decode: Tree -> Option<A>): Option<Option<A>> {
    if key !in m || m[key] == TUndefined then Some(None)
    else if decode(m[key]).Some? then Some(decode(m[key])) else None
  }

  function WithOptional<A>(m: map<string, Tree>, key: string, encode: A -> Tree, value: Option<A>): map<string, Tree> {
    if value.None? then m else m[key := encode(value.value)]
  }

  function Collections(v: Vault): map<string, Tree> {
    map["versionVector" := EncodeVector(v.vector),
      "entries" := TArr(MapSeq(EncodeEntry, v.entries)),
      "deletedEntries" := TArr(MapSeq(EncodeDeleted, v.deletedEntries)),
      "deviceProfiles" := TArr(MapSeq(EncodeProfile, v.profiles)),
      "deletedDeviceProfiles" := TArr(MapSeq(EncodeDeleted, v.deletedProfiles)),
      "tags" := TArr(MapSeq(EncodeTag, v.tags)),
      "deletedTags" := TArr(MapSeq(EncodeDeleted, v.deletedTags)),
      "tagGroups" := TArr(MapSeq(EncodeGroup, v.groups)),
      "folders" := TArr(MapSeq(EncodeFolder, v.folders)),
      "deletedFolders" := TArr(MapSeq(EncodeDeleted, v.deletedFolders))]
  }

  function EncodeVault(v: Vault): Tree {
    TObj(
      WithOptional(
        WithOptional(
          WithOptional(Collections(v), "syncTarget", EncodeTarget, v.target),
          "syncRemovalPending", EncodeRemoval, v.removal),
        "providerCredentialRevocationPending", EncodeRevocation, v.revocation))
  }

  const COLLECTION_KEYS: set<string> := {
    "versionVector", "entries", "deletedEntries", "deviceProfiles", "deletedDeviceProfiles", "tags", "deletedTags",
    "tagGroups", "folders", "deletedFolders"}

  const OPTIONAL_KEYS: set<string> := {"syncTarget", "syncRemovalPending", "providerCredentialRevocationPending"}

  function DecodeDeletedAny(t: Tree): Option<Deleted> {
    DecodeDeleted(t, NonBlankText)
  }

  function DecodeDeletedTag(t: Tree): Option<Deleted> {
    DecodeDeleted(t, IdText)
  }

  function DecodeDeletedFolder(t: Tree): Option<Deleted> {
    DecodeDeleted(t, FolderIdText)
  }

  // Every field of the vault, before the checks that relate them.
  function DecodeFields(t: Tree): Option<Vault> {
    if !ExactRecord(t, COLLECTION_KEYS, OPTIONAL_KEYS) then None
    else
      var m := t.fields;
      var entries, deletedEntries := DecodeArray(DecodeEntry, m["entries"]), DecodeArray(DecodeDeletedAny, m["deletedEntries"]);
      var profiles, deletedProfiles := DecodeArray(DecodeProfile, m["deviceProfiles"]), DecodeArray(DecodeDeletedAny, m["deletedDeviceProfiles"]);
      var tags, deletedTags := DecodeArray(DecodeTag, m["tags"]), DecodeArray(DecodeDeletedTag, m["deletedTags"]);
      var groups := DecodeArray(DecodeGroup, m["tagGroups"]);
      var folders, deletedFolders := DecodeArray(DecodeFolder, m["folders"]), DecodeArray(DecodeDeletedFolder, m["deletedFolders"]);
      var vector, target := DecodeVector(m["versionVector"]), DecodeOptional(m, "syncTarget", DecodeTarget);
      var removal := DecodeOptional(m, "syncRemovalPending", DecodeRemoval);
      var revocation := DecodeOptional(m, "providerCredentialRevocationPending", DecodeRevocation);
      if entries.None? || deletedEntries.None? || profiles.None? || deletedProfiles.None? || tags.None?
         || deletedTags.None? || groups.None? || folders.None? || deletedFolders.None? || vector.None?
         || target.None? || removal.None? || revocation.None?
      then None
      else Some(Vault(vector.value, entries.value, deletedEntries.value, profiles.value, deletedProfiles.value, tags.value,
        deletedTags.value, groups.value, folders.value, deletedFolders.value, target.value, removal.value, revocation.value))
  }
}
