// Which stored values denote which vault: decodeVault accepts exactly these.
module VaultSpelling {
  import opened Common
  import opened Identities
  import opened Texts
  import opened JsonValues
  import opened ArtifactPrimitives
  import opened SnapshotCodec
  import opened SnapshotProofs
  import opened VaultCodec
  import opened VaultStructure
  import opened VaultProofs

  // ------------------------------------------------------------------ fields

  predicate HasKeys(t: Tree, required: set<string>, optional: set<string>) {
    t.TObj? && (forall k :: k in required ==> k in t.fields) && forall k :: k in t.fields ==> k in required || k in optional
  }

  // A name or description may be surrounded by white space.
  predicate SpellsTrimmed(t: Tree, s: string) {
    t.TText? && Trim(t.s) == s
  }

  // A description is left out by its absence or by undefined.
  predicate SpellsOptional(m: map<string, Tree>, key: string, s: Option<string>) {
    if s.None? then key in m ==> m[key] == TUndefined
    else key in m && m[key] != TUndefined && SpellsTrimmed(m[key], s.value)
  }

  ghost predicate SpellsVector(t: Tree, v: VersionVector) {
    t.TObj? && forall k :: (k in t.fields <==> k in v) && (k in v ==> t.fields[k] == TNum(v[k]))
  }

  predicate SpellsTexts(t: Tree, texts: seq<string>) {
    t.TArr? && |t.items| == |texts| && forall i :: 0 <= i < |texts| ==> t.items[i] == TText(texts[i])
  }

  lemma VectorIsExact(t: Tree, v: VersionVector)
    ensures DecodeVector(t) == Some(v) <==> ValidVector(v) && SpellsVector(t, v)
  {
    VectorCodec(v, t);
    hide NonBlankText;
    if SpellsVector(t, v) { assert t == EncodeVector(v); }
  }

  lemma TextsAreExact(t: Tree, texts: seq<string>)
    ensures DecodeTexts(t) == Some(texts) <==>
      SpellsTexts(t, texts) && forall i :: 0 <= i < |texts| ==> NonBlankText(texts[i])
  {
    hide NonBlankText;
    if SpellsTexts(t, texts) && forall i :: 0 <= i < |texts| ==> NonBlankText(texts[i]) {
      assert forall i :: 0 <= i < |texts| ==> NonBlank(t.items[i]) == Some(texts[i]);
      assert DecodeTexts(t).value == texts;
    }
  }

  lemma OptionalTextIsExact(m: map<string, Tree>, key: string, s: Option<string>, maximum: nat)
    ensures OptionalText(m, key, maximum) == Some(s) <==>
      SpellsOptional(m, key, s) && (s.Some? ==> TrimmedBetween(s.value, 0, maximum))
  {
    if key in m && m[key].TText? { TrimLaws(m[key].s); }
    hide Trim, IsTrimmed;
  }

  lemma TrimmedTextIsExact(t: Tree, s: string, minimum: nat, maximum: nat)
    ensures TrimmedText(t, minimum, maximum) == Some(s) <==> SpellsTrimmed(t, s) && TrimmedBetween(s, minimum, maximum)
  {
    if t.TText? { TrimLaws(t.s); }
    hide Trim, IsTrimmed;
  }

  // ------------------------------------------------------------------ items

  // A missing folder is the folder of the uncategorized.
  ghost predicate SpellsEntry(t: Tree, e: Entry) {
    && HasKeys(t, {"id", "password", "login", "tags", "sanitizedUrl", "folderId", "versionVector"}, {})
    && t.fields["id"] == TText(e.id) && t.fields["password"] == TText(e.password) && t.fields["login"] == TText(e.login)
    && t.fields["sanitizedUrl"] == TText(e.url) && SpellsTexts(t.fields["tags"], e.tags)
    && (t.fields["folderId"] == TText(e.folderId) || (t.fields["folderId"] == TUndefined && e.folderId == "uncategorized"))
    && SpellsVector(t.fields["versionVector"], e.vector)
  }

  lemma EntryIsExact(t: Tree, e: Entry)
    ensures DecodeEntry(t) == Some(e) <==> ValidEntry(e) && SpellsEntry(t, e)
  {
    hide NonBlankText, AllDistinct, SpellsTexts, SpellsVector, DecodeVector, ValidVector, DecodeTexts, IsTrimmed;
    UncategorizedIsId();
    if t.TObj? && "tags" in t.fields && "versionVector" in t.fields {
      TextsAreExact(t.fields["tags"], e.tags);
      VectorIsExact(t.fields["versionVector"], e.vector);
      if DecodeEntry(t) == Some(e) { EntryParts(t); }
    }
    hide IdText;
  }

  lemma EntryParts(t: Tree)
    requires DecodeEntry(t).Some?
    ensures ValidEntry(DecodeEntry(t).value)
    ensures DecodeTexts(t.fields["tags"]) == Some(DecodeEntry(t).value.tags)
    ensures DecodeVector(t.fields["versionVector"]) == Some(DecodeEntry(t).value.vector)
  {
    EntrySound(t);
  }

  ghost predicate SpellsDeleted(t: Tree, d: Deleted) {
    && HasKeys(t, {"id", "versionVector", "deletedAt"}, {}) && t.fields["id"] == TText(d.id)
    && t.fields["deletedAt"] == TNum(d.deletedAt) && SpellsVector(t.fields["versionVector"], d.vector)
  }

  lemma DeletedIsExact(t: Tree, d: Deleted, idOk: string -> bool)
    ensures DecodeDeleted(t, idOk) == Some(d) <==> ValidDeleted(d, idOk) && SpellsDeleted(t, d)
  {
    hide SpellsVector, DecodeVector, ValidVector;
    if t.TObj? && "versionVector" in t.fields { VectorIsExact(t.fields["versionVector"], d.vector); }
  }

  ghost predicate SpellsProfile(t: Tree, p: Profile) {
    && HasKeys(t, {"id", "name", "createdAt", "versionVector"}, {})
    && t.fields["id"] == TText(p.id) && t.fields["name"] == TText(p.name) && t.fields["createdAt"] == TNum(p.createdAt)
    && SpellsVector(t.fields["versionVector"], p.vector)
  }

  lemma ProfileIsExact(t: Tree, p: Profile)
    ensures DecodeProfile(t) == Some(p) <==> ValidProfile(p) && SpellsProfile(t, p)
  {
    hide SpellsVector, DecodeVector, ValidVector, NonBlankText;
    if t.TObj? && "versionVector" in t.fields { VectorIsExact(t.fields["versionVector"], p.vector); }
  }

  ghost predicate SpellsTag(t: Tree, g: Tag) {
    && HasKeys(t, {"id", "name", "groupId", "color", "shade", "createdAt", "versionVector"}, {})
    && t.fields["id"] == TText(g.id) && SpellsTrimmed(t.fields["name"], g.name) && t.fields["groupId"] == TText(g.groupId)
    && t.fields["color"] == TText(g.color) && t.fields["shade"] == TNum(g.shade)
    && t.fields["createdAt"] == TNum(g.createdAt) && SpellsVector(t.fields["versionVector"], g.vector)
  }

  lemma TagIsExact(t: Tree, g: Tag)
    ensures DecodeTag(t) == Some(g) <==> ValidTag(g) && SpellsTag(t, g)
  {
    hide SpellsVector, DecodeVector, ValidVector, TrimmedText, TrimmedBetween, SpellsTrimmed, IdText;
    if t.TObj? && "versionVector" in t.fields && "name" in t.fields {
      VectorIsExact(t.fields["versionVector"], g.vector);
      TrimmedTextIsExact(t.fields["name"], g.name, 1, 32);
    }
  }

  predicate SpellsGroup(t: Tree, g: Group) {
    && HasKeys(t, {"id", "name", "icon", "baseColor"}, {"description"})
    && t.fields["id"] == TText(g.id) && SpellsTrimmed(t.fields["name"], g.name) && SpellsTrimmed(t.fields["icon"], g.icon)
    && t.fields["baseColor"] == TText(g.baseColor) && SpellsOptional(t.fields, "description", g.description)
  }

  lemma GroupIsExact(t: Tree, g: Group)
    ensures DecodeGroup(t) == Some(g) <==> ValidGroup(g) && SpellsGroup(t, g)
  {
    hide TrimmedText, TrimmedBetween, SpellsTrimmed, OptionalText, SpellsOptional;
    if t.TObj? && "name" in t.fields && "icon" in t.fields {
      TrimmedTextIsExact(t.fields["name"], g.name, 1, 32);
      TrimmedTextIsExact(t.fields["icon"], g.icon, 1, 128);
      OptionalTextIsExact(t.fields, "description", g.description, 256);
    }
  }

  ghost predicate SpellsFolder(t: Tree, f: Folder) {
    && HasKeys(t, {"id", "name", "icon", "parentId", "createdAt", "versionVector"}, {"description"})
    && t.fields["id"] == TText(f.id) && SpellsTrimmed(t.fields["name"], f.name) && SpellsTrimmed(t.fields["icon"], f.icon)
    && t.fields["parentId"] == (if f.parentId.None? then TNull else TText(f.parentId.value))
    && SpellsOptional(t.fields, "description", f.description)
    && t.fields["createdAt"] == TNum(f.createdAt) && SpellsVector(t.fields["versionVector"], f.vector)
  }

  lemma FolderIsExact(t: Tree, f: Folder)
    ensures DecodeFolder(t) == Some(f) <==> ValidFolder(f) && SpellsFolder(t, f)
  {
    hide SpellsVector, DecodeVector, ValidVector, TrimmedText, TrimmedBetween, SpellsTrimmed, OptionalText, SpellsOptional,
      IdText, FolderIdText;
    if t.TObj? && "name" in t.fields && "icon" in t.fields && "versionVector" in t.fields {
      VectorIsExact(t.fields["versionVector"], f.vector);
      TrimmedTextIsExact(t.fields["name"], f.name, 1, 64);
      TrimmedTextIsExact(t.fields["icon"], f.icon, 1, 128);
      OptionalTextIsExact(t.fields, "description", f.description, 256);
    }
  }

  // ------------------------------------------------------------------ optional properties

  ghost predicate SpellsDescriptor(t: Tree, d: Descriptor) {
    && HasKeys(t, {"vaultId", "snapshotVersionVector", "revisionTimestamp"}, {})
    && t.fields["vaultId"] == TText(d.vaultId) && t.fields["revisionTimestamp"] == TNum(d.timestamp)
    && SpellsVector(t.fields["snapshotVersionVector"], d.vector)
  }

  ghost predicate SpellsIdentity(t: Tree, i: Identity) {
    && HasKeys(t, {"descriptor", "snapshotDigest"}, {}) && t.fields["snapshotDigest"] == TText(i.digest)
    && SpellsDescriptor(t.fields["descriptor"], i.descriptor)
  }

  lemma DescriptorIsExact(t: Tree, d: Descriptor)
    ensures SpellsDescriptor(t, d) <==> t == EncodeDescriptor(d)
  {
    VectorIsEncoded(EncodeVector(d.vector), d.vector);
    hide SpellsVector, EncodeVector;
    if SpellsDescriptor(t, d) {
      VectorIsEncoded(t.fields["snapshotVersionVector"], d.vector);
      assert t.fields == EncodeDescriptor(d).fields;
    }
  }

  lemma VectorIsEncoded(t: Tree, v: VersionVector)
    ensures SpellsVector(t, v) <==> t == EncodeVector(v)
  {
    if SpellsVector(t, v) { assert t.fields == EncodeVector(v).fields; }
  }

  lemma IdentityIsExact(t: Tree, i: Identity)
    ensures DecodeIdentity(t) == Some(i) <==> ValidIdentity(i) && SpellsIdentity(t, i)
  {
    IdentityCodec(i, t);
    hide ValidIdentity, DecodeIdentity, SpellsDescriptor, EncodeDescriptor;
    DescriptorIsExact(EncodeDescriptor(i.descriptor), i.descriptor);
    if SpellsIdentity(t, i) {
      DescriptorIsExact(t.fields["descriptor"], i.descriptor);
      assert t.fields == EncodeIdentity(i).fields;
    }
  }

  ghost predicate SpellsTarget(t: Tree, target: Tree) {
    HasKeys(t, {"provider", "targetConfig"}, {}) && t.fields["provider"] == TText("aws-s3-v1") && t.fields["targetConfig"] == target
  }

  ghost predicate SpellsExpected(t: Tree, expected: Option<Identity>) {
    if expected.None? then t == TNull else SpellsIdentity(t, expected.value)
  }

  // The rollback snapshot is a stored snapshot itself.
  ghost predicate SpellsRemoval(t: Tree, r: Removal) {
    && HasKeys(t, {"expectedRemoteSnapshotIdentity", "rollbackSnapshot"}, {})
    && SpellsExpected(t.fields["expectedRemoteSnapshotIdentity"], r.expected)
    && DecodeSnapshot(t.fields["rollbackSnapshot"]) == Some(r.rollback)
  }

  ghost predicate SpellsRevocation(t: Tree, r: Revocation) {
    && HasKeys(t, {"revokedDeviceIds", "vaultKeyGeneration"}, {}) && SpellsTexts(t.fields["revokedDeviceIds"], r.deviceIds)
    && t.fields["vaultKeyGeneration"] == TNum(r.keyGeneration)
  }

  lemma TargetIsExact(t: Tree, target: Tree)
    ensures DecodeTarget(t) == Some(target) <==> JsonTree(target) && SpellsTarget(t, target)
  {
    hide JsonTree;
  }

  lemma RemovalIsExact(t: Tree, r: Removal)
    ensures DecodeRemoval(t) == Some(r) <==> ValidRemoval(r) && SpellsRemoval(t, r)
  {
    hide DecodeSnapshot, DecodeIdentity, SpellsIdentity, ValidIdentity;
    if t.TObj? && "expectedRemoteSnapshotIdentity" in t.fields && r.expected.Some? {
      IdentityIsExact(t.fields["expectedRemoteSnapshotIdentity"], r.expected.value);
      NullIsNoIdentity(r.expected.value);
    }
  }

  lemma NullIsNoIdentity(i: Identity)
    ensures !SpellsIdentity(TNull, i)
  {
  }

  lemma RevocationIsExact(t: Tree, r: Revocation)
    ensures DecodeRevocation(t) == Some(r) <==> ValidRevocation(r) && SpellsRevocation(t, r)
  {
    hide NonBlankText, AllDistinct, DecodeTexts, SpellsTexts;
    if t.TObj? && "revokedDeviceIds" in t.fields { TextsAreExact(t.fields["revokedDeviceIds"], r.deviceIds); }
  }

  // ------------------------------------------------------------------ the vault

  ghost predicate SpellsSeq<A>(spells: (Tree, A) -> bool, t: Tree, items: seq<A>) {
    t.TArr? && |t.items| == |items| && forall i :: 0 <= i < |items| ==> spells(t.items[i], items[i])
  }

  // An optional property is left out by its absence or by undefined.
  ghost predicate SpellsOption<A>(spells: (Tree, A) -> bool, m: map<string, Tree>, key: string, value: Option<A>) {
    if value.None? then key in m ==> m[key] == TUndefined
    else key in m && m[key] != TUndefined && spells(m[key], value.value)
  }

  ghost predicate Reads<A(!new)>(decode: Tree -> Option<A>, valid: A -> bool, spells: (Tree, A) -> bool) {
    forall t, a :: decode(t) == Some(a) <==> valid(a) && spells(t, a)
  }

  lemma ArrayIsExact<A(!new)>(
    decode: Tree -> Option<A>, valid: A -> bool, spells: (Tree, A) -> bool, t: Tree, items: seq<A>)
    requires Reads(decode, valid, spells)
    ensures DecodeArray(decode, t) == Some(items) <==>
      SpellsSeq(spells, t, items) && forall i :: 0 <= i < |items| ==> valid(items[i])
  {
    if SpellsSeq(spells, t, items) && forall i :: 0 <= i < |items| ==> valid(items[i]) {
      assert forall i :: 0 <= i < |items| ==> decode(t.items[i]) == Some(items[i]);
      assert DecodeArray(decode, t).value == items;
    }
    if DecodeArray(decode, t) == Some(items) {
      assert forall i :: 0 <= i < |items| ==> decode(t.items[i]) == Some(items[i]);
    }
  }

  lemma OptionIsExact<A(!new)>(
    decode: Tree -> Option<A>, valid: A -> bool, spells: (Tree, A) -> bool, m: map<string, Tree>, key: string,
    value: Option<A>)
    requires Reads(decode, valid, spells)
    ensures DecodeOptional(m, key, decode) == Some(value) <==>
      SpellsOption(spells, m, key, value) && (value.Some? ==> valid(value.value))
  {
    if key in m && decode(m[key]).Some? { assert decode(m[key]) == Some(decode(m[key]).value); }
  }

  ghost predicate SpellsLive(m: map<string, Tree>, v: Vault)
    requires forall k :: k in COLLECTION_KEYS ==> k in m
  {
    && SpellsVector(m["versionVector"], v.vector) && SpellsSeq(SpellsEntry, m["entries"], v.entries)
    && SpellsSeq(SpellsProfile, m["deviceProfiles"], v.profiles) && SpellsSeq(SpellsTag, m["tags"], v.tags)
    && SpellsSeq(SpellsGroup, m["tagGroups"], v.groups) && SpellsSeq(SpellsFolder, m["folders"], v.folders)
  }

  ghost predicate SpellsTombstones(m: map<string, Tree>, v: Vault)
    requires forall k :: k in COLLECTION_KEYS ==> k in m
  {
    && SpellsSeq(SpellsDeleted, m["deletedEntries"], v.deletedEntries)
    && SpellsSeq(SpellsDeleted, m["deletedDeviceProfiles"], v.deletedProfiles)
    && SpellsSeq(SpellsDeleted, m["deletedTags"], v.deletedTags)
    && SpellsSeq(SpellsDeleted, m["deletedFolders"], v.deletedFolders)
  }

  ghost predicate SpellsOptions(m: map<string, Tree>, v: Vault) {
    && SpellsOption(SpellsTarget, m, "syncTarget", v.target)
    && SpellsOption(SpellsRemoval, m, "syncRemovalPending", v.removal)
    && SpellsOption(SpellsRevocation, m, "providerCredentialRevocationPending", v.revocation)
  }

  // The stored value denotes the vault.
  ghost predicate SpellsVault(t: Tree, v: Vault) {
    && HasKeys(t,
         {"versionVector", "entries", "deletedEntries", "deviceProfiles", "deletedDeviceProfiles", "tags", "deletedTags",
          "tagGroups", "folders", "deletedFolders"},
         {"syncTarget", "syncRemovalPending", "providerCredentialRevocationPending"})
    && SpellsLive(t.fields, v) && SpellsTombstones(t.fields, v) && SpellsOptions(t.fields, v)
  }

  lemma LiveIsExact(m: map<string, Tree>, v: Vault)
    requires forall k :: k in COLLECTION_KEYS ==> k in m
    ensures ValidLive(v) && SpellsLive(m, v) <==>
      && DecodeVector(m["versionVector"]) == Some(v.vector) && DecodeArray(DecodeEntry, m["entries"]) == Some(v.entries)
      && DecodeArray(DecodeProfile, m["deviceProfiles"]) == Some(v.profiles) && DecodeArray(DecodeTag, m["tags"]) == Some(v.tags)
      && DecodeArray(DecodeGroup, m["tagGroups"]) == Some(v.groups) && DecodeArray(DecodeFolder, m["folders"]) == Some(v.folders)
  {
    VectorIsExact(m["versionVector"], v.vector);
    ItemsAreExact();
    ArrayIsExact(DecodeEntry, ValidEntry, SpellsEntry, m["entries"], v.entries);
    ArrayIsExact(DecodeProfile, ValidProfile, SpellsProfile, m["deviceProfiles"], v.profiles);
    ArrayIsExact(DecodeTag, ValidTag, SpellsTag, m["tags"], v.tags);
    ArrayIsExact(DecodeGroup, ValidGroup, SpellsGroup, m["tagGroups"], v.groups);
    ArrayIsExact(DecodeFolder, ValidFolder, SpellsFolder, m["folders"], v.folders);
    hide DecodeVector, ValidVector, DecodeArray, SpellsSeq, SpellsVector, Reads, ValidEntry, ValidProfile, ValidTag, ValidGroup,
      ValidFolder, DecodeEntry, DecodeProfile, DecodeTag, DecodeGroup, DecodeFolder, SpellsEntry, SpellsProfile, SpellsTag,
      SpellsGroup, SpellsFolder;
  }

  lemma ItemsAreExact()
    ensures Reads(DecodeEntry, ValidEntry, SpellsEntry) && Reads(DecodeProfile, ValidProfile, SpellsProfile)
    ensures Reads(DecodeTag, ValidTag, SpellsTag) && Reads(DecodeGroup, ValidGroup, SpellsGroup)
    ensures Reads(DecodeFolder, ValidFolder, SpellsFolder)
  {
    hide ValidEntry, ValidProfile, ValidTag, ValidGroup, ValidFolder, DecodeEntry, DecodeProfile, DecodeTag, DecodeGroup,
      DecodeFolder, SpellsEntry, SpellsProfile, SpellsTag, SpellsGroup, SpellsFolder;
    forall t, a ensures DecodeEntry(t) == Some(a) <==> ValidEntry(a) && SpellsEntry(t, a) { EntryIsExact(t, a); }
    forall t, a ensures DecodeProfile(t) == Some(a) <==> ValidProfile(a) && SpellsProfile(t, a) { ProfileIsExact(t, a); }
    forall t, a ensures DecodeTag(t) == Some(a) <==> ValidTag(a) && SpellsTag(t, a) { TagIsExact(t, a); }
    forall t, a ensures DecodeGroup(t) == Some(a) <==> ValidGroup(a) && SpellsGroup(t, a) { GroupIsExact(t, a); }
    forall t, a ensures DecodeFolder(t) == Some(a) <==> ValidFolder(a) && SpellsFolder(t, a) { FolderIsExact(t, a); }
  }

  lemma DeletedsAreExact()
    ensures Reads(DecodeDeletedAny, ValidDeletedAny, SpellsDeleted) && Reads(DecodeDeletedTag, ValidDeletedTag, SpellsDeleted)
    ensures Reads(DecodeDeletedFolder, ValidDeletedFolder, SpellsDeleted)
  {
    hide DecodeDeleted, ValidDeleted, SpellsDeleted;
    forall t, a ensures DecodeDeletedAny(t) == Some(a) <==> ValidDeletedAny(a) && SpellsDeleted(t, a) {
      DeletedIsExact(t, a, NonBlankText);
    }
    forall t, a ensures DecodeDeletedTag(t) == Some(a) <==> ValidDeletedTag(a) && SpellsDeleted(t, a) {
      DeletedIsExact(t, a, IdText);
    }
    forall t, a ensures DecodeDeletedFolder(t) == Some(a) <==> ValidDeletedFolder(a) && SpellsDeleted(t, a) {
      DeletedIsExact(t, a, FolderIdText);
    }
  }

  lemma TombstonesAreExact(m: map<string, Tree>, v: Vault)
    requires forall k :: k in COLLECTION_KEYS ==> k in m
    ensures ValidTombstones(v) && SpellsTombstones(m, v) <==>
      && DecodeArray(DecodeDeletedAny, m["deletedEntries"]) == Some(v.deletedEntries)
      && DecodeArray(DecodeDeletedAny, m["deletedDeviceProfiles"]) == Some(v.deletedProfiles)
      && DecodeArray(DecodeDeletedTag, m["deletedTags"]) == Some(v.deletedTags)
      && DecodeArray(DecodeDeletedFolder, m["deletedFolders"]) == Some(v.deletedFolders)
  {
    DeletedsAreExact();
    ArrayIsExact(DecodeDeletedAny, ValidDeletedAny, SpellsDeleted, m["deletedEntries"], v.deletedEntries);
    ArrayIsExact(DecodeDeletedAny, ValidDeletedAny, SpellsDeleted, m["deletedDeviceProfiles"], v.deletedProfiles);
    ArrayIsExact(DecodeDeletedTag, ValidDeletedTag, SpellsDeleted, m["deletedTags"], v.deletedTags);
    ArrayIsExact(DecodeDeletedFolder, ValidDeletedFolder, SpellsDeleted, m["deletedFolders"], v.deletedFolders);
    hide DecodeArray, SpellsSeq, Reads, DecodeDeletedAny, DecodeDeletedTag, DecodeDeletedFolder, ValidDeletedAny,
      ValidDeletedTag, ValidDeletedFolder, SpellsDeleted;
  }

  lemma OptionsAreExact(m: map<string, Tree>, v: Vault)
    ensures
      && SpellsOptions(m, v) && (v.target.Some? ==> JsonTree(v.target.value))
      && (v.removal.Some? ==> ValidRemoval(v.removal.value)) && (v.revocation.Some? ==> ValidRevocation(v.revocation.value))
      <==>
      && DecodeOptional(m, "syncTarget", DecodeTarget) == Some(v.target)
      && DecodeOptional(m, "syncRemovalPending", DecodeRemoval) == Some(v.removal)
      && DecodeOptional(m, "providerCredentialRevocationPending", DecodeRevocation) == Some(v.revocation)
  {
    hide DecodeTarget, DecodeRemoval, DecodeRevocation, JsonTree, ValidRemoval, ValidRevocation, SpellsTarget, SpellsRemoval,
      SpellsRevocation;
    forall t, a ensures DecodeTarget(t) == Some(a) <==> JsonTree(a) && SpellsTarget(t, a) { TargetIsExact(t, a); }
    forall t, a ensures DecodeRemoval(t) == Some(a) <==> ValidRemoval(a) && SpellsRemoval(t, a) { RemovalIsExact(t, a); }
    forall t, a ensures DecodeRevocation(t) == Some(a) <==> ValidRevocation(a) && SpellsRevocation(t, a) {
      RevocationIsExact(t, a);
    }
    OptionIsExact(DecodeTarget, JsonTree, SpellsTarget, m, "syncTarget", v.target);
    OptionIsExact(DecodeRemoval, ValidRemoval, SpellsRemoval, m, "syncRemovalPending", v.removal);
    OptionIsExact(DecodeRevocation, ValidRevocation, SpellsRevocation, m, "providerCredentialRevocationPending", v.revocation);
    hide Reads, DecodeOptional, SpellsOption;
  }

  // The fields of a stored value decode to a vault exactly when they are valid and denote it.
  lemma FieldsAreExact(t: Tree, v: Vault)
    ensures DecodeFields(t) == Some(v) <==> ValidFields(v) && SpellsVault(t, v)
  {
    hide ValidLive, ValidTombstones, SpellsLive, SpellsTombstones, SpellsOptions, DecodeVector, DecodeArray, DecodeOptional,
      JsonTree, ValidRemoval, ValidRevocation, ValidSnapshot, DecodeEntry, DecodeProfile, DecodeTag, DecodeGroup, DecodeFolder;
    if t.TObj? {
      var m := t.fields;
      assert ExactRecord(t, COLLECTION_KEYS, OPTIONAL_KEYS) ==> forall k :: k in COLLECTION_KEYS ==> k in m;
      if forall k :: k in COLLECTION_KEYS ==> k in m {
        LiveIsExact(m, v);
        TombstonesAreExact(m, v);
        OptionsAreExact(m, v);
        if DecodeFields(t) == Some(v) { FieldsSound(t); }
      }
    }
  }

  // decodeVault yields a vault exactly for the stored values that denote it, when its fields are
  // valid and it is well structured.
  lemma DecodedIsExact(norm: Normalizer, t: Tree, v: Vault)
    ensures Decoded(norm, t) == Some(v) <==> ValidFields(v) && WellStructured(norm, v) && SpellsVault(t, v)
  {
    hide ValidFields, WellStructured, SpellsVault, DecodeFields;
    FieldsAreExact(t, v);
    if DecodeFields(t).Some? { FieldsAreExact(t, DecodeFields(t).value); }
  }

  // The encoding of a vault denotes it.
  lemma EncodingDenotes(v: Vault)
    requires ValidFields(v)
    ensures SpellsVault(EncodeVault(v), SettleVault(v))
  {
    hide ValidFields, SpellsVault, DecodeFields, EncodeVault, SettleVault;
    FieldsRoundTrip(v);
    FieldsAreExact(EncodeVault(v), SettleVault(v));
  }
}
