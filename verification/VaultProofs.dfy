// Decoding a vault undoes encoding it, and accepts exactly the well-structured vaults whose
// fields pass their schemas.
module VaultProofs {
  import opened Common
  import opened Identities
  import opened Texts
  import opened JsonValues
  import opened ArtifactPrimitives
  import opened SnapshotCodec
  import opened SnapshotProofs
  import opened VaultCodec
  import opened VaultStructure

  // Decoding undoes encoding on valid values, and yields nothing but valid values. (Encoding does
  // not undo decoding: schemas trim names and fill in a missing folder.)
  ghost predicate Undoes<A(!new)>(encode: A -> Tree, decode: Tree -> Option<A>, valid: A -> bool) {
    && (forall a :: valid(a) ==> decode(encode(a)) == Some(a))
    && (forall t :: decode(t).Some? ==> valid(decode(t).value))
  }

  lemma ArrayUndoes<A(!new)>(encode: A -> Tree, decode: Tree -> Option<A>, valid: A -> bool, items: seq<A>, t: Tree)
    requires Undoes(encode, decode, valid)
    ensures AllValid(valid, items) ==> DecodeArray(decode, TArr(MapSeq(encode, items))) == Some(items)
    ensures DecodeArray(decode, t).Some? ==> AllValid(valid, DecodeArray(decode, t).value)
  {
    if AllValid(valid, items) {
      assert forall i :: 0 <= i < |items| ==> decode(MapSeq(encode, items)[i]) == Some(items[i]);
      assert DecodeArray(decode, TArr(MapSeq(encode, items))).value == items;
    }
  }

  // ------------------------------------------------------------------ items

  lemma TextsUndo(texts: seq<string>, t: Tree)
    ensures (forall i :: 0 <= i < |texts| ==> NonBlankText(texts[i])) ==> DecodeTexts(EncodeTexts(texts)) == Some(texts)
    ensures DecodeTexts(t).Some? ==>
      forall i :: 0 <= i < |DecodeTexts(t).value| ==> NonBlankText(DecodeTexts(t).value[i])
  {
    hide NonBlankText;
    if forall i :: 0 <= i < |texts| ==> NonBlankText(texts[i]) {
      var a := EncodeTexts(texts).items;
      assert forall i :: 0 <= i < |a| ==> NonBlank(a[i]) == Some(texts[i]);
      assert DecodeTexts(EncodeTexts(texts)).value == texts;
    }
  }

  lemma TrimmedTextLaws(s: string, minimum: nat, maximum: nat, t: Tree)
    ensures TrimmedBetween(s, minimum, maximum) ==> TrimmedText(TText(s), minimum, maximum) == Some(s)
    ensures TrimmedText(t, minimum, maximum).Some? ==> TrimmedBetween(TrimmedText(t, minimum, maximum).value, minimum, maximum)
  {
    TrimLaws(s);
    if t.TText? { TrimLaws(t.s); }
  }

  lemma EntryForward(e: Entry)
    requires ValidEntry(e)
    ensures DecodeEntry(EncodeEntry(e)) == Some(e)
  {
    hide NonBlankText, IdText, DecodeVector, EncodeVector, ValidVector, AllDistinct, DecodeTexts, EncodeTexts;
    VectorCodec(e.vector, TNull);
    TextsUndo(e.tags, TNull);
  }

  lemma UncategorizedIsId()
    ensures IdText(UNCATEGORIZED)
  {
  }

  lemma EntrySound(t: Tree)
    requires DecodeEntry(t).Some?
    ensures ValidEntry(DecodeEntry(t).value)
  {
    hide NonBlankText, IdText, DecodeVector, EncodeVector, ValidVector, AllDistinct, DecodeTexts, EncodeTexts;
    VectorCodec(map[], t.fields["versionVector"]);
    TextsUndo([], t.fields["tags"]);
    assert IdText(UNCATEGORIZED) by { UncategorizedIsId(); }
  }

  lemma DeletedUndoes(idOk: string -> bool, d: Deleted, t: Tree)
    ensures ValidDeleted(d, idOk) ==> DecodeDeleted(EncodeDeleted(d), idOk) == Some(d)
    ensures DecodeDeleted(t, idOk).Some? ==> ValidDeleted(DecodeDeleted(t, idOk).value, idOk)
  {
    hide DecodeVector, EncodeVector, ValidVector;
    VectorCodec(d.vector, TNull);
    if DecodeDeleted(t, idOk).Some? { VectorCodec(map[], t.fields["versionVector"]); }
  }

  lemma ProfileUndoes(p: Profile, t: Tree)
    ensures ValidProfile(p) ==> DecodeProfile(EncodeProfile(p)) == Some(p)
    ensures DecodeProfile(t).Some? ==> ValidProfile(DecodeProfile(t).value)
  {
    hide NonBlankText, DecodeVector, EncodeVector, ValidVector;
    VectorCodec(p.vector, TNull);
    if DecodeProfile(t).Some? { VectorCodec(map[], t.fields["versionVector"]); }
  }

  lemma TagForward(g: Tag)
    requires ValidTag(g)
    ensures DecodeTag(EncodeTag(g)) == Some(g)
  {
    hide IdText, TrimmedText, TrimmedBetween, DecodeVector, EncodeVector, ValidVector;
    VectorCodec(g.vector, TNull);
    TrimmedTextLaws(g.name, 1, 32, TNull);
  }

  lemma TagSound(t: Tree)
    requires DecodeTag(t).Some?
    ensures ValidTag(DecodeTag(t).value)
  {
    hide IdText, TrimmedText, TrimmedBetween, DecodeVector, EncodeVector, ValidVector;
    VectorCodec(map[], t.fields["versionVector"]);
    TrimmedTextLaws("", 1, 32, t.fields["name"]);
  }

  // What an optional text contributes to a record and what is read back from it.
  lemma OptionalTextLaws(m: map<string, Tree>, key: string, text: Option<string>, maximum: nat)
    requires key !in m && (text.Some? ==> TrimmedBetween(text.value, 0, maximum))
    ensures OptionalText(WithText(m, key, text), key, maximum) == Some(text)
    ensures WithText(m, key, text).Keys <= m.Keys + {key}
    ensures forall k :: k in m ==> k in WithText(m, key, text) && WithText(m, key, text)[k] == m[k]
  {
    if text.Some? { TrimmedTextLaws(text.value, 0, maximum, TNull); }
  }

  lemma OptionalTextSound(m: map<string, Tree>, key: string, maximum: nat)
    ensures OptionalText(m, key, maximum).Some? && OptionalText(m, key, maximum).value.Some? ==>
      TrimmedBetween(OptionalText(m, key, maximum).value.value, 0, maximum)
  {
    if key in m { TrimmedTextLaws("", 0, maximum, m[key]); }
  }

  lemma GroupFields(g: Group)
    requires ValidGroup(g)
    ensures var m := EncodeGroup(g).fields;
      && {"id", "name", "icon", "baseColor"} <= m.Keys <= {"id", "name", "icon", "baseColor"} + {"description"}
      && m["id"] == TText(g.id) && m["name"] == TText(g.name) && m["icon"] == TText(g.icon)
      && m["baseColor"] == TText(g.baseColor) && OptionalText(m, "description", 256) == Some(g.description)
  {
    hide TrimmedText, TrimmedBetween, OptionalText, WithText;
    var base := map["id" := TText(g.id), "name" := TText(g.name), "icon" := TText(g.icon), "baseColor" := TText(g.baseColor)];
    OptionalTextLaws(base, "description", g.description, 256);
  }

  lemma GroupForward(g: Group)
    requires ValidGroup(g)
    ensures DecodeGroup(EncodeGroup(g)) == Some(g)
  {
    hide TrimmedText, TrimmedBetween, OptionalText, WithText;
    GroupFields(g);
    TrimmedTextLaws(g.name, 1, 32, TNull);
    TrimmedTextLaws(g.icon, 1, 128, TNull);
    assert EncodeGroup(g).TObj?;
    hide EncodeGroup;
  }

  lemma GroupSound(t: Tree)
    requires DecodeGroup(t).Some?
    ensures ValidGroup(DecodeGroup(t).value)
  {
    hide TrimmedText, TrimmedBetween, OptionalText;
    OptionalTextSound(t.fields, "description", 256);
    TrimmedTextLaws("", 1, 32, t.fields["name"]);
    TrimmedTextLaws("", 1, 128, t.fields["icon"]);
  }

  const FOLDER_KEYS: set<string> := {"id", "name", "icon", "parentId", "createdAt", "versionVector"}

  lemma FolderFields(f: Folder)
    requires ValidFolder(f)
    ensures var m := EncodeFolder(f).fields;
      && FOLDER_KEYS <= m.Keys <= FOLDER_KEYS + {"description"}
      && m["id"] == TText(f.id) && m["name"] == TText(f.name) && m["icon"] == TText(f.icon)
      && DecodeParent(m["parentId"]) == Some(f.parentId) && m["createdAt"] == TNum(f.createdAt)
      && m["versionVector"] == EncodeVector(f.vector) && OptionalText(m, "description", 256) == Some(f.description)
  {
    hide TrimmedText, TrimmedBetween, OptionalText, WithText, IdText, FolderIdText, EncodeVector, ValidVector;
    var base := map["id" := TText(f.id), "name" := TText(f.name), "icon" := TText(f.icon),
      "parentId" := (if f.parentId.None? then TNull else TText(f.parentId.value)),
      "createdAt" := TNum(f.createdAt), "versionVector" := EncodeVector(f.vector)];
    OptionalTextLaws(base, "description", f.description, 256);
  }

  lemma FolderForward(f: Folder)
    requires ValidFolder(f)
    ensures DecodeFolder(EncodeFolder(f)) == Some(f)
  {
    hide TrimmedText, TrimmedBetween, OptionalText, WithText, IdText, FolderIdText, DecodeVector, EncodeVector, ValidVector,
      DecodeParent;
    FolderFields(f);
    TrimmedTextLaws(f.name, 1, 64, TNull);
    TrimmedTextLaws(f.icon, 1, 128, TNull);
    VectorCodec(f.vector, TNull);
    assert EncodeFolder(f).TObj?;
    hide EncodeFolder;
  }

  lemma FolderSound(t: Tree)
    requires DecodeFolder(t).Some?
    ensures ValidFolder(DecodeFolder(t).value)
  {
    hide TrimmedText, TrimmedBetween, OptionalText, WithText, IdText, FolderIdText, DecodeVector, EncodeVector, ValidVector;
    OptionalTextSound(t.fields, "description", 256);
    TrimmedTextLaws("", 1, 64, t.fields["name"]);
    TrimmedTextLaws("", 1, 128, t.fields["icon"]);
    VectorCodec(map[], t.fields["versionVector"]);
  }

  // ------------------------------------------------------------------ optional properties

  predicate ValidRemoval(r: Removal) {
    r.expected.Some? ==> ValidIdentity(r.expected.value)
  }

  function SettleRemoval(r: Removal): Removal {
    r.(rollback := SettleSnapshot(r.rollback))
  }

  lemma RemovalForward(r: Removal)
    requires ValidRemoval(r) && ValidSnapshot(r.rollback)
    ensures DecodeRemoval(EncodeRemoval(r)) == Some(SettleRemoval(r))
  {
    hide ValidIdentity, EncodeIdentity, DecodeIdentity, ValidSnapshot, EncodeSnapshot, DecodeSnapshot;
    SnapshotRoundTrip(r.rollback);
    if r.expected.Some? { IdentityCodec(r.expected.value, TNull); }
  }

  lemma RemovalSound(t: Tree)
    requires DecodeRemoval(t).Some?
    ensures ValidRemoval(DecodeRemoval(t).value) && ValidSnapshot(DecodeRemoval(t).value.rollback)
  {
    hide ValidIdentity, EncodeIdentity, DecodeIdentity, ValidSnapshot, EncodeSnapshot, DecodeSnapshot;
    SnapshotBack(t.fields["rollbackSnapshot"]);
    IdentityCodec(Identity(Descriptor("", map[], 0), ""), t.fields["expectedRemoteSnapshotIdentity"]);
  }

  predicate ValidRevocation(r: Revocation) {
    (forall i :: 0 <= i < |r.deviceIds| ==> NonBlankText(r.deviceIds[i])) && AllDistinct(r.deviceIds) && SafeFrom(r.keyGeneration, 1)
  }

  lemma RevocationUndoes(r: Revocation, t: Tree)
    ensures ValidRevocation(r) ==> DecodeRevocation(EncodeRevocation(r)) == Some(r)
    ensures DecodeRevocation(t).Some? ==> ValidRevocation(DecodeRevocation(t).value)
  {
    hide NonBlankText, AllDistinct, DecodeTexts, EncodeTexts;
    TextsUndo(r.deviceIds, TNull);
    if DecodeRevocation(t).Some? { TextsUndo([], t.fields["revokedDeviceIds"]); }
  }

  // ------------------------------------------------------------------ collections

  predicate ValidDeletedAny(d: Deleted) { ValidDeleted(d, NonBlankText) }
  predicate ValidDeletedTag(d: Deleted) { ValidDeleted(d, IdText) }
  predicate ValidDeletedFolder(d: Deleted) { ValidDeleted(d, FolderIdText) }

  lemma EntriesUndo()
    ensures Undoes(EncodeEntry, DecodeEntry, ValidEntry)
  {
    hide EncodeEntry, DecodeEntry, ValidEntry;
    forall a | ValidEntry(a) ensures DecodeEntry(EncodeEntry(a)) == Some(a) { EntryForward(a); }
    forall t | DecodeEntry(t).Some? ensures ValidEntry(DecodeEntry(t).value) { EntrySound(t); }
  }

  lemma DeletedsUndo()
    ensures Undoes(EncodeDeleted, DecodeDeletedAny, ValidDeletedAny)
    ensures Undoes(EncodeDeleted, DecodeDeletedTag, ValidDeletedTag)
    ensures Undoes(EncodeDeleted, DecodeDeletedFolder, ValidDeletedFolder)
  {
    hide EncodeDeleted, DecodeDeleted, ValidDeleted;
    var none := Deleted("", map[], 0);
    forall a ensures ValidDeletedAny(a) ==> DecodeDeletedAny(EncodeDeleted(a)) == Some(a) { DeletedUndoes(NonBlankText, a, TNull); }
    forall a ensures ValidDeletedTag(a) ==> DecodeDeletedTag(EncodeDeleted(a)) == Some(a) { DeletedUndoes(IdText, a, TNull); }
    forall a ensures ValidDeletedFolder(a) ==> DecodeDeletedFolder(EncodeDeleted(a)) == Some(a) {
      DeletedUndoes(FolderIdText, a, TNull);
    }
    forall t | DecodeDeletedAny(t).Some? ensures ValidDeletedAny(DecodeDeletedAny(t).value) { DeletedUndoes(NonBlankText, none, t); }
    forall t | DecodeDeletedTag(t).Some? ensures ValidDeletedTag(DecodeDeletedTag(t).value) { DeletedUndoes(IdText, none, t); }
    forall t | DecodeDeletedFolder(t).Some? ensures ValidDeletedFolder(DecodeDeletedFolder(t).value) {
      DeletedUndoes(FolderIdText, none, t);
    }
  }

  lemma ProfilesUndo()
    ensures Undoes(EncodeProfile, DecodeProfile, ValidProfile)
  {
    hide EncodeProfile, DecodeProfile, ValidProfile;
    forall a ensures ValidProfile(a) ==> DecodeProfile(EncodeProfile(a)) == Some(a) { ProfileUndoes(a, TNull); }
    forall t | DecodeProfile(t).Some? ensures ValidProfile(DecodeProfile(t).value) { ProfileUndoes(Profile("", "", 0, map[]), t); }
  }

  lemma TagsUndo()
    ensures Undoes(EncodeTag, DecodeTag, ValidTag)
  {
    hide EncodeTag, DecodeTag, ValidTag;
    forall a | ValidTag(a) ensures DecodeTag(EncodeTag(a)) == Some(a) { TagForward(a); }
    forall t | DecodeTag(t).Some? ensures ValidTag(DecodeTag(t).value) { TagSound(t); }
  }

  lemma GroupsUndo()
    ensures Undoes(EncodeGroup, DecodeGroup, ValidGroup)
  {
    hide EncodeGroup, DecodeGroup, ValidGroup;
    forall a | ValidGroup(a) ensures DecodeGroup(EncodeGroup(a)) == Some(a) { GroupForward(a); }
    forall t | DecodeGroup(t).Some? ensures ValidGroup(DecodeGroup(t).value) { GroupSound(t); }
  }

  lemma FoldersUndo()
    ensures Undoes(EncodeFolder, DecodeFolder, ValidFolder)
  {
    hide EncodeFolder, DecodeFolder, ValidFolder;
    forall a | ValidFolder(a) ensures DecodeFolder(EncodeFolder(a)) == Some(a) { FolderForward(a); }
    forall t | DecodeFolder(t).Some? ensures ValidFolder(DecodeFolder(t).value) { FolderSound(t); }
  }

  // ------------------------------------------------------------------ the vault

  predicate ValidLive(v: Vault) {
    && ValidVector(v.vector)
    && (forall i :: 0 <= i < |v.entries| ==> ValidEntry(v.entries[i]))
    && (forall i :: 0 <= i < |v.profiles| ==> ValidProfile(v.profiles[i]))
    && (forall i :: 0 <= i < |v.tags| ==> ValidTag(v.tags[i]))
    && (forall i :: 0 <= i < |v.groups| ==> ValidGroup(v.groups[i]))
    && (forall i :: 0 <= i < |v.folders| ==> ValidFolder(v.folders[i]))
  }

  predicate ValidTombstones(v: Vault) {
    && (forall i :: 0 <= i < |v.deletedEntries| ==> ValidDeletedAny(v.deletedEntries[i]))
    && (forall i :: 0 <= i < |v.deletedProfiles| ==> ValidDeletedAny(v.deletedProfiles[i]))
    && (forall i :: 0 <= i < |v.deletedTags| ==> ValidDeletedTag(v.deletedTags[i]))
    && (forall i :: 0 <= i < |v.deletedFolders| ==> ValidDeletedFolder(v.deletedFolders[i]))
  }

  ghost predicate ValidOptions(v: Vault) {
    && (v.target.Some? ==> JsonTree(v.target.value))
    && (v.removal.Some? ==> ValidRemoval(v.removal.value) && ValidSnapshot(v.removal.value.rollback))
    && (v.revocation.Some? ==> ValidRevocation(v.revocation.value))
  }

  // Every field passes its own schema.
  ghost predicate ValidFields(v: Vault) {
    ValidLive(v) && ValidTombstones(v) && ValidOptions(v)
  }

  // An undefined upload property of the rollback snapshot is not stored.
  function SettleVault(v: Vault): Vault {
    if v.removal.None? then v else v.(removal := Some(SettleRemoval(v.removal.value)))
  }

  ghost predicate HoldsCollections(v: Vault, m: map<string, Tree>) {
    forall k :: k in COLLECTION_KEYS ==> k in m && m[k] == Collections(v)[k]
  }

  lemma CollectionValues(v: Vault)
    ensures var c := Collections(v);
      && c.Keys == COLLECTION_KEYS && c["versionVector"] == EncodeVector(v.vector)
      && c["entries"] == TArr(MapSeq(EncodeEntry, v.entries)) && c["deviceProfiles"] == TArr(MapSeq(EncodeProfile, v.profiles))
      && c["tags"] == TArr(MapSeq(EncodeTag, v.tags)) && c["tagGroups"] == TArr(MapSeq(EncodeGroup, v.groups))
      && c["folders"] == TArr(MapSeq(EncodeFolder, v.folders))
      && c["deletedEntries"] == TArr(MapSeq(EncodeDeleted, v.deletedEntries))
      && c["deletedDeviceProfiles"] == TArr(MapSeq(EncodeDeleted, v.deletedProfiles))
      && c["deletedTags"] == TArr(MapSeq(EncodeDeleted, v.deletedTags))
      && c["deletedFolders"] == TArr(MapSeq(EncodeDeleted, v.deletedFolders))
  {
    hide EncodeVector, MapSeq;
  }

  lemma CollectionKeys(v: Vault)
    ensures Collections(v).Keys == COLLECTION_KEYS
  {
    hide EncodeVector, MapSeq;
  }

  lemma LiveForward(v: Vault, m: map<string, Tree>)
    requires ValidLive(v) && HoldsCollections(v, m)
    ensures DecodeVector(m["versionVector"]) == Some(v.vector)
    ensures DecodeArray(DecodeEntry, m["entries"]) == Some(v.entries)
    ensures DecodeArray(DecodeProfile, m["deviceProfiles"]) == Some(v.profiles)
    ensures DecodeArray(DecodeTag, m["tags"]) == Some(v.tags)
    ensures DecodeArray(DecodeGroup, m["tagGroups"]) == Some(v.groups)
    ensures DecodeArray(DecodeFolder, m["folders"]) == Some(v.folders)
  {
    hide DecodeVector, EncodeVector, ValidVector, DecodeArray, EncodeEntry, DecodeEntry, ValidEntry, EncodeDeleted,
      EncodeProfile, DecodeProfile, ValidProfile, EncodeTag, DecodeTag, ValidTag, EncodeGroup, DecodeGroup, ValidGroup,
      EncodeFolder, DecodeFolder, ValidFolder, Undoes, Collections, MapSeq;
    CollectionValues(v);
    VectorCodec(v.vector, TNull);
    EntriesUndo(); ProfilesUndo(); TagsUndo(); GroupsUndo(); FoldersUndo();
    ArrayUndoes(EncodeEntry, DecodeEntry, ValidEntry, v.entries, TNull);
    ArrayUndoes(EncodeProfile, DecodeProfile, ValidProfile, v.profiles, TNull);
    ArrayUndoes(EncodeTag, DecodeTag, ValidTag, v.tags, TNull);
    ArrayUndoes(EncodeGroup, DecodeGroup, ValidGroup, v.groups, TNull);
    ArrayUndoes(EncodeFolder, DecodeFolder, ValidFolder, v.folders, TNull);
  }

  lemma TombstonesForward(v: Vault, m: map<string, Tree>)
    requires ValidTombstones(v) && HoldsCollections(v, m)
    ensures DecodeArray(DecodeDeletedAny, m["deletedEntries"]) == Some(v.deletedEntries)
    ensures DecodeArray(DecodeDeletedAny, m["deletedDeviceProfiles"]) == Some(v.deletedProfiles)
    ensures DecodeArray(DecodeDeletedTag, m["deletedTags"]) == Some(v.deletedTags)
    ensures DecodeArray(DecodeDeletedFolder, m["deletedFolders"]) == Some(v.deletedFolders)
  {
    hide EncodeVector, DecodeArray, EncodeEntry, EncodeDeleted, EncodeProfile, EncodeTag, EncodeGroup, EncodeFolder,
      DecodeDeletedAny, ValidDeletedAny, DecodeDeletedTag, ValidDeletedTag, DecodeDeletedFolder, ValidDeletedFolder, Undoes,
      Collections, MapSeq;
    CollectionValues(v);
    DeletedsUndo();
    ArrayUndoes(EncodeDeleted, DecodeDeletedAny, ValidDeletedAny, v.deletedEntries, TNull);
    ArrayUndoes(EncodeDeleted, DecodeDeletedAny, ValidDeletedAny, v.deletedProfiles, TNull);
    ArrayUndoes(EncodeDeleted, DecodeDeletedTag, ValidDeletedTag, v.deletedTags, TNull);
    ArrayUndoes(EncodeDeleted, DecodeDeletedFolder, ValidDeletedFolder, v.deletedFolders, TNull);
  }

  ghost predicate HoldsOptional<A>(m: map<string, Tree>, key: string, encode: A -> Tree, value: Option<A>) {
    if value.None? then key !in m else key in m && m[key] == encode(value.value)
  }

  lemma OptionalKeys(v: Vault)
    ensures EncodeVault(v).TObj?
    ensures var m := EncodeVault(v).fields;
      && COLLECTION_KEYS <= m.Keys <= COLLECTION_KEYS + OPTIONAL_KEYS
      && HoldsCollections(v, m)
      && HoldsOptional(m, "syncTarget", EncodeTarget, v.target)
      && HoldsOptional(m, "syncRemovalPending", EncodeRemoval, v.removal)
      && HoldsOptional(m, "providerCredentialRevocationPending", EncodeRevocation, v.revocation)
  {
    CollectionKeys(v);
    hide Collections, EncodeTarget, EncodeRemoval, EncodeRevocation;
  }

  lemma OptionForward<A>(
    m: map<string, Tree>, key: string, encode: A -> Tree, decode: Tree -> Option<A>, value: Option<A>, settled: Option<A>)
    requires HoldsOptional(m, key, encode, value) && (value.None? <==> settled.None?)
    requires value.Some? ==> encode(value.value) != TUndefined && decode(encode(value.value)) == settled
    ensures DecodeOptional(m, key, decode) == Some(settled)
  {
  }

  lemma OptionsForward(v: Vault, m: map<string, Tree>)
    requires ValidOptions(v) && EncodeVault(v) == TObj(m)
    ensures DecodeOptional(m, "syncTarget", DecodeTarget) == Some(v.target)
    ensures DecodeOptional(m, "syncRemovalPending", DecodeRemoval) == Some(SettleVault(v).removal)
    ensures DecodeOptional(m, "providerCredentialRevocationPending", DecodeRevocation) == Some(v.revocation)
  {
    hide EncodeVault, JsonTree, ValidRemoval, ValidSnapshot, ValidRevocation, EncodeRemoval, DecodeRemoval, EncodeRevocation,
      DecodeRevocation, HoldsOptional, HoldsCollections, DecodeOptional;
    OptionalKeys(v);
    if v.removal.Some? {
      RemovalForward(v.removal.value);
      RemovalIsObject(v.removal.value);
    }
    if v.revocation.Some? {
      RevocationUndoes(v.revocation.value, TNull);
      RevocationIsObject(v.revocation.value);
    }
    OptionForward(m, "syncTarget", EncodeTarget, DecodeTarget, v.target, v.target);
    OptionForward(m, "syncRemovalPending", EncodeRemoval, DecodeRemoval, v.removal, SettleVault(v).removal);
    OptionForward(m, "providerCredentialRevocationPending", EncodeRevocation, DecodeRevocation, v.revocation, v.revocation);
  }

  lemma RemovalIsObject(r: Removal) ensures EncodeRemoval(r).TObj? {}
  lemma RevocationIsObject(r: Revocation) ensures EncodeRevocation(r).TObj? {}

  // Every vault whose fields pass their schemas is read back from its encoding, an embedded
  // rollback snapshot included.
  lemma FieldsRoundTrip(v: Vault)
    requires ValidFields(v)
    ensures DecodeFields(EncodeVault(v)) == Some(SettleVault(v))
  {
    hide EncodeVault, HoldsCollections, HoldsOptional, DecodeArray, DecodeVector, DecodeOptional, ValidLive, ValidTombstones, ValidOptions,
      SettleRemoval;
    OptionalKeys(v);
    LiveForward(v, EncodeVault(v).fields);
    TombstonesForward(v, EncodeVault(v).fields);
    OptionsForward(v, EncodeVault(v).fields);
  }

  lemma FieldsSound(t: Tree)
    requires DecodeFields(t).Some?
    ensures ValidFields(DecodeFields(t).value)
  {
    hide DecodeVector, EncodeVector, ValidVector, DecodeArray, EncodeEntry, DecodeEntry, ValidEntry, EncodeDeleted,
      DecodeDeletedAny, ValidDeletedAny, DecodeDeletedTag, ValidDeletedTag, DecodeDeletedFolder, ValidDeletedFolder,
      EncodeProfile, DecodeProfile, ValidProfile, EncodeTag, DecodeTag, ValidTag, EncodeGroup, DecodeGroup, ValidGroup,
      EncodeFolder, DecodeFolder, ValidFolder, Undoes, DecodeRemoval, DecodeRevocation, ValidRemoval, ValidRevocation,
      ValidSnapshot, JsonTree;
    var m := t.fields;
    VectorCodec(map[], m["versionVector"]);
    EntriesUndo(); DeletedsUndo(); ProfilesUndo(); TagsUndo(); GroupsUndo(); FoldersUndo();
    ArrayUndoes(EncodeEntry, DecodeEntry, ValidEntry, [], m["entries"]);
    ArrayUndoes(EncodeDeleted, DecodeDeletedAny, ValidDeletedAny, [], m["deletedEntries"]);
    ArrayUndoes(EncodeProfile, DecodeProfile, ValidProfile, [], m["deviceProfiles"]);
    ArrayUndoes(EncodeDeleted, DecodeDeletedAny, ValidDeletedAny, [], m["deletedDeviceProfiles"]);
    ArrayUndoes(EncodeTag, DecodeTag, ValidTag, [], m["tags"]);
    ArrayUndoes(EncodeDeleted, DecodeDeletedTag, ValidDeletedTag, [], m["deletedTags"]);
    ArrayUndoes(EncodeGroup, DecodeGroup, ValidGroup, [], m["tagGroups"]);
    ArrayUndoes(EncodeFolder, DecodeFolder, ValidFolder, [], m["folders"]);
    ArrayUndoes(EncodeDeleted, DecodeDeletedFolder, ValidDeletedFolder, [], m["deletedFolders"]);
    OptionsSound(m);
  }

  lemma OptionsSound(m: map<string, Tree>)
    ensures var r := DecodeOptional(m, "syncTarget", DecodeTarget);
      r.Some? && r.value.Some? ==> JsonTree(r.value.value)
    ensures var r := DecodeOptional(m, "syncRemovalPending", DecodeRemoval);
      r.Some? && r.value.Some? ==> ValidRemoval(r.value.value) && ValidSnapshot(r.value.value.rollback)
    ensures var r := DecodeOptional(m, "providerCredentialRevocationPending", DecodeRevocation);
      r.Some? && r.value.Some? ==> ValidRevocation(r.value.value)
  {
    hide JsonTree, ValidRemoval, ValidSnapshot, ValidRevocation, DecodeRemoval, DecodeRevocation;
    forall t | DecodeRemoval(t).Some?
      ensures ValidRemoval(DecodeRemoval(t).value) && ValidSnapshot(DecodeRemoval(t).value.rollback)
    {
      RemovalSound(t);
    }
    forall t | DecodeRevocation(t).Some? ensures ValidRevocation(DecodeRevocation(t).value) {
      RevocationUndoes(Revocation([], 1), t);
    }
  }

  // ------------------------------------------------------------------ decodeVault

  // What decodeVault yields; None is the thrown error.
  ghost function Decoded(norm: Normalizer, t: Tree): Option<Vault> {
    if DecodeFields(t).Some? && WellStructured(norm, DecodeFields(t).value) then DecodeFields(t) else None
  }

  // The fields are decoded and then related; every failure is the same error.
  method DecodeVault(norm: Normalizer, t: Tree) returns (r: Option<Vault>)
    ensures r == Decoded(norm, t)
  {
    hide DecodeFields, WellStructured;
    r := DecodeFields(t);
    if r.None? { return; }
    var ok := CheckStructure(norm, r.value);
    if !ok { r := None; }
  }

  // Decoding accepts exactly the well-structured vaults with valid fields: the encoding of such
  // a vault, and only of such a vault, decodes, and to the vault itself.
  lemma VaultRoundTrip(norm: Normalizer, v: Vault)
    requires ValidFields(v)
    ensures Decoded(norm, EncodeVault(v)) == if WellStructured(norm, v) then Some(SettleVault(v)) else None
  {
    hide DecodeFields, ValidFields, WellStructured;
    FieldsRoundTrip(v);
    SettleKeepsStructure(norm, v);
  }

  // Whatever decodes is such a vault, and storing it again loses nothing.
  lemma DecodedIsStable(norm: Normalizer, t: Tree)
    requires Decoded(norm, t).Some?
    ensures var v := Decoded(norm, t).value;
      ValidFields(v) && WellStructured(norm, v) && Decoded(norm, EncodeVault(v)) == Some(SettleVault(v))
  {
    hide DecodeFields, ValidFields, WellStructured;
    FieldsSound(t);
    VaultRoundTrip(norm, Decoded(norm, t).value);
  }

  lemma SettleKeepsStructure(norm: Normalizer, v: Vault)
    ensures WellStructured(norm, SettleVault(v)) <==> WellStructured(norm, v)
  {
    hide UniqueAcross, UniqueBy, UniqueNormalized, UniqueSiblings, Forest;
  }
}
