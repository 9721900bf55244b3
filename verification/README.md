# LFSPM: a verified model of sync, local state, setup and codecs

LFSPM is a local-first password manager that runs as a browser extension. This project models the
parts of it whose correctness no finite test can cover, and proves what they promise.

* **Sync against S3** (`S3Provider`, `S3Protocol`, `S3Safety`, `S3Liveness`). Any number of devices prepare and start
  uploads and removals of one remote object; requests are delayed, retried and lost. Conditions follow
  sections 13.1.1 and 13.1.2 of RFC 9110. Store assumptions: a condition is checked atomically with
  the write, and an entity tag is never given to two different bodies. Transport assumptions: a reported
  attempt count is the true one, and a definite status or code is the server's refusal of the last attempt.
* **The local vault repository** (`LocalRepository`, `LocalHistory`): a class over the stored tables, and
  what every run of its transactions keeps.
* **Recovery-word setup** (`SetupProtocol`, `SetupSafety`, `SetupOutcomes`, `SetupDocuments`,
  `ChallengePositions`): documents,
  vaults and receipts under one lock, with a crash possible between any two awaits.
* **Alarms** (`UriComponents`, `AlarmNames`, `AlarmWorld`, `LockAlarm`, `AlarmRuntime`): names that are read back
  exactly, and when the handlers lose no task under scheduling failures and interference.
* **Codecs** (`Base64Url`, `Base64UrlProofs`, `Base64Decoding`, `ArtifactPrimitives`, `SnapshotCodec`,
  `SnapshotProofs`, `WireForms`, `VaultCodec`, `VaultStructure`, `VaultProofs`, `VaultSpelling`): RFC 4648 text, snapshots and vaults.
  `Identities` holds the version vectors, descriptors and identities that sync and codecs share.
* **Canonical JSON** (`JsonValues`, `JsonProofs`, `JsonPrinting`, `CanonicalBytes`, `CanonicalProofs`,
  `JsonEquality`, `CanonicalReading`): the text that digests and signatures are computed on, and comparison by sorted texts.
* **Session secrets** (`SecureWipe`, `SessionMaterial`, `SessionStore`): decoding that leaves no secret in
  memory when it fails, and the cache, epoch and queue of the session store.
* **Shared records** (`CapturedLogins`, `PopupRoute`): captured logins and the hand-off to the popup.

Objects whose methods change state are classes; their methods are proved against functions on values or
protocol steps, and the lemmas speak about whole runs of those. Outcomes of I/O (whether a storage call
succeeds, is rejected, or is rejected although it was applied; what a clock reads; what a random generator
draws) are parameters or arbitrary choices, and every statement holds for all of them; only the statements
about setup that say so rule out core calls that reject after changing the words.

What the proofs found, beside what they confirm:

* A vault-lock alarm for another vault than the unlocked one loses its task: the cleanup calls it stale and
  returns, and the handler then cancels the retry (`OtherVaultIsLost`). The handler keeps its promise whatever
  fails exactly when no session is active or the session's vault is the task's (`LockPromiseIsExact`).
* "Changed" from a removal means that it deleted nothing exactly when it made one attempt
  (`ChangedIsReliableOnlyOnce`).
* The revision of device-access material restarts when the material alone is removed, so its (revision,
  generation) pair can recur, from every state with room for the revisions, and in no run without such a
  removal (`MaterialPairMayRecur`); the backup's pair cannot (`NoBackupPairRecurs`).
* A rejected save of session material that was applied all the same is read after an eviction; reads agree
  with the last successful save exactly while that has not happened (`ReadsAgreeWithLastSave`).
* A removal of session material is undone by an eviction exactly when its storage call was not applied and
  something was stored (`RemovalIsExact`).
* The setup receipts rest on the assumption, stated in the original's comments, that a rejected core call
  has changed nothing: one late rejection breaks them (`LateRejectionBreaksIt`).
* Saving a captured login does not check its size or its id: one that does not fit is stored and then
  reads as absent, and exactly such a one (`ReadsWhatWasSaved`).

## Model

| member | source | states |
|---|---|---|
| S3Provider.S3Client.PrepareVaultSnapshotUpload | apps/extension/src/adapters/sync/aws-s3-sync-provider.adapter.ts:220-294 | ready with exactly the tag read if and only if the stored record is valid and of the expected version and tagged; each refusal and throw by its own condition; a first upload is conditional on absence |
| S3Provider.S3Client.PrepareVaultSnapshotRemoval | apps/extension/src/adapters/sync/aws-s3-sync-provider.adapter.ts:296-343 | the same two-way decision for a removal; a missing object is already absent |
| S3Provider.S3Client.UploadRemoteVaultSnapshot | apps/extension/src/adapters/sync/aws-s3-sync-provider.adapter.ts:402-412 | committed if and only if the call returned, else by its error; without interference the outcome tells whether the object was replaced |
| S3Provider.S3Client.RemoveRemoteVaultSnapshot | apps/extension/src/adapters/sync/aws-s3-sync-provider.adapter.ts:414-432 | removed if the call returned, else by its error; without interference the outcome tells whether the object was deleted |
| S3Provider.UploadsAreDecidedByTheRead | apps/extension/src/adapters/sync/aws-s3-sync-provider.adapter.ts:220-294 | the decision on an upload, for every read, in terms of vault, timestamp, counters, digest and keys of what was read |
| S3Provider.RemovalsAreDecidedByTheRead | apps/extension/src/adapters/sync/aws-s3-sync-provider.adapter.ts:296-343 | the decision on a removal likewise |
| S3Provider.UploadFailuresAreExact | apps/extension/src/adapters/sync/aws-s3-sync-provider.adapter.ts:434-482 | which errors of a single attempt mean a changed remote, which a rejection, and that all others leave the outcome unknown |
| S3Provider.RemovalFailuresAreExact | apps/extension/src/adapters/sync/aws-s3-sync-provider.adapter.ts:414-432 | which errors mean that the object was missing or has changed |
| S3Liveness.ExpectedUploadCommits | apps/extension/src/adapters/sync/aws-s3-sync-provider.adapter.ts:220-294 | from every state that holds the expected version, or nothing for a first upload, there is a run that ends committed with exactly this snapshot stored |
| S3Liveness.ExpectedRemovalDeletes | apps/extension/src/adapters/sync/aws-s3-sync-provider.adapter.ts:296-343 | from every state that holds the expected version there is a run in which its removal deletes it |
| S3Liveness.ErrorsAreReported | apps/extension/src/adapters/sync/aws-s3-sync-provider.adapter.ts:402-482 | an error reply settles an operation exactly as its report says and changes nothing else |
| S3Safety.NoLostUpdate | apps/extension/src/adapters/sync/aws-s3-sync-provider.adapter.ts:220-343 | in every interleaving the effective writes form a chain, and each replaced exactly the version its operation expected |
| S3Safety.UnwrittenIsUnchanged | apps/extension/src/adapters/sync/aws-s3-sync-provider.adapter.ts:402-432 | a run without an effective write leaves the remote object as it was |
| S3Safety.OutcomesAreSound | apps/extension/src/adapters/sync/aws-s3-sync-provider.adapter.ts:402-482 | committed means a write took effect; definitely not committed and not started mean none ever does, however late requests arrive |
| S3Safety.AttemptGuardIsNeeded | apps/extension/src/adapters/sync/aws-s3-sync-provider.adapter.ts:461-482 | for every attempt count but one there is a run that committed and yet honestly reports a failed precondition |
| S3Safety.ChangedRemovalMayHaveDeleted | apps/extension/src/adapters/sync/aws-s3-sync-provider.adapter.ts:414-432 | for every attempt count but one, every tag and every valid stored snapshot there is a run in which a removal reports a change although its first attempt deleted that snapshot |
| S3Safety.ChangedIsReliableOnlyOnce | apps/extension/src/adapters/sync/aws-s3-sync-provider.adapter.ts:414-432 | a reported change means that the removal deleted nothing, ever, if and only if it made one attempt |
| LocalRepository.ReplacementTestIsThePromise | apps/extension/src/adapters/storage/indexeddb-vault-local-repository.adapter.ts:909-1003 | the replacement test accepts exactly same identity, expected revisions and generations, and the next revision |
| LocalRepository.VaultLocalRepository.SaveInitializedLocalVault | apps/extension/src/adapters/storage/indexeddb-vault-local-repository.adapter.ts:94-195 | all rows are written if and only if the records are first ones of this vault and no row exists; each error by its own condition; a failure changes nothing |
| LocalRepository.VaultLocalRepository.RemovePersistedLocalVaultIfArtifactsMatch | apps/extension/src/adapters/storage/indexeddb-vault-local-repository.adapter.ts:214-332 | all rows go if and only if each of them and the credential is exactly the expected one; each refusal and error by its rows; otherwise nothing changes |
| LocalRepository.VaultLocalRepository.RemoveVaultRecords | apps/extension/src/adapters/storage/indexeddb-vault-local-repository.adapter.ts:849-859 | every table loses its row of this vault and no other |
| LocalRepository.VaultLocalRepository.SaveDeviceAccessRecords | apps/extension/src/adapters/storage/indexeddb-vault-local-repository.adapter.ts:392-456 | material and backup are replaced together if and only if the expectation is met; illegible rows and unmet expectations are told apart; a failure changes nothing |
| LocalRepository.VaultLocalRepository.SaveVaultSnapshotWithCheckpoint | apps/extension/src/adapters/storage/indexeddb-vault-local-repository.adapter.ts:555-672 | snapshot, checkpoint and credential change together if and only if the stored ones are those expected; each error by its own condition; a failure changes nothing |
| LocalRepository.RemovalIsExact | apps/extension/src/adapters/storage/indexeddb-vault-local-repository.adapter.ts:214-332 | the verdict of a matching removal, both ways, on the stored rows |
| LocalRepository.InitializationIsExact | apps/extension/src/adapters/storage/indexeddb-vault-local-repository.adapter.ts:94-195 | the error and the effect of an initialisation, both ways, on the stored rows |
| LocalRepository.ReplacementIsExact | apps/extension/src/adapters/storage/indexeddb-vault-local-repository.adapter.ts:392-456 | the error and the effect of an access replacement, both ways, on the stored rows |
| LocalRepository.SavingIsExact | apps/extension/src/adapters/storage/indexeddb-vault-local-repository.adapter.ts:555-672 | the error and the effect of a snapshot save, both ways, on the stored rows |
| LocalHistory.WholeVaultsKept | apps/extension/src/adapters/storage/indexeddb-vault-local-repository.adapter.ts:145-332 | over any run a vault's five mandatory records are all present or all absent |
| LocalHistory.SoundAccessKept | apps/extension/src/adapters/storage/indexeddb-vault-local-repository.adapter.ts:909-1003 | over any run stored material and backup share identity and generation |
| LocalHistory.RevisionCountsReplacements | apps/extension/src/adapters/storage/indexeddb-vault-local-repository.adapter.ts:392-456 | identity never changes and the backup revision counts the successful replacements |
| LocalHistory.NoBackupPairRecurs | apps/extension/src/adapters/storage/indexeddb-vault-local-repository.adapter.ts:970-1003 | no (revision, generation) pair of the backup comes back before removal |
| LocalHistory.AtMostOneWinner | apps/extension/src/adapters/storage/indexeddb-vault-local-repository.adapter.ts:392-456 | of two callers holding the same expectation at most one succeeds |
| LocalHistory.MaterialRevisions | apps/extension/src/adapters/storage/indexeddb-vault-local-repository.adapter.ts:392-456 | while it is not removed on its own the material's revision counts the replacements as well |
| LocalHistory.MaterialPairMayRecur | apps/extension/src/adapters/storage/indexeddb-vault-local-repository.adapter.ts:512-514 | from every sound state with material, a run after which its pair recurs exists if and only if the backup has room for the revisions needed, and every such run removes the material on its own |
| LocalHistory.NothingRecursWithoutRemoval | apps/extension/src/adapters/storage/indexeddb-vault-local-repository.adapter.ts:970-1003 | without a separate removal no pair of the material comes back |
| LocalHistory.SavesFormAChain | apps/extension/src/adapters/storage/indexeddb-vault-local-repository.adapter.ts:555-672 | of two successive successful saves the later expected exactly what the earlier stored |
| LocalHistory.CredentialsFormAChain | apps/extension/src/adapters/storage/indexeddb-vault-local-repository.adapter.ts:555-672 | of two successive credential writes, however many saves kept it in between, the later expected the credential the earlier stored |
| SetupSafety.CompleteMeansCurrentWords | apps/extension/src/extension/composition/vault-setup.capabilities.ts:120-412 | in every run without a late rejection, with crashes anywhere, a record that says complete means the words last verified protect the vault now |
| SetupSafety.PassedChallengeIsCurrent | apps/extension/src/extension/composition/vault-setup.capabilities.ts:82-97 | a passed challenge answered three different positions of the words that protect the vault now |
| SetupSafety.FirstSetupCompletes | apps/extension/src/extension/composition/vault-setup.capabilities.ts:163-206 | creating, remembering and verifying the first vault ends complete |
| SetupSafety.LateRejectionBreaksIt | apps/extension/src/extension/composition/vault-setup.capabilities.ts:260-272 | from every completed vault, a core call that rejects after changing the words leaves a complete record that was never verified |
| SetupOutcomes.RecoverIsExact | apps/extension/src/extension/composition/vault-setup.capabilities.ts:222-276 | the whole state a recovery leaves, for every end of its awaits but a late rejection: changed words under an unfinished record, or the prior record and token put back |
| SetupOutcomes.ReplaceIsExact | apps/extension/src/extension/composition/vault-setup.capabilities.ts:277-313 | the whole state a replacement leaves, likewise |
| SetupOutcomes.VerifyIsExact | apps/extension/src/extension/composition/vault-setup.capabilities.ts:314-334 | the whole state a verification leaves: only a passed challenge in a session that is still there completes the record |
| SetupOutcomes.EnrollIsExact | apps/extension/src/extension/composition/vault-setup.capabilities.ts:120-162 | the whole state an enrolment leaves |
| SetupOutcomes.CreateIsExact | apps/extension/src/extension/composition/vault-setup.capabilities.ts:163-206 | the whole state a creation leaves |
| SetupOutcomes.SaveDurationIsExact | apps/extension/src/extension/composition/vault-setup.capabilities.ts:402-412 | exactly the duration changes, when the vault is selected, the duration is offered and the write takes effect |
| SetupOutcomes.SaveDeviceIsExact | apps/extension/src/extension/composition/vault-settings.capabilities.ts:30-43 | exactly name and duration change, when the vault is local, both are valid and the write takes effect |
| SetupOutcomes.RemoveIsExact | apps/extension/src/extension/composition/vault-settings.capabilities.ts:44-55 | the vault goes, and its record when the cleanup takes effect |
| SetupDocuments.Setup.Recover | apps/extension/src/extension/composition/vault-setup.capabilities.ts:222-276 | for every end of its awaits but a late rejection of the core call: the run of its protocol steps, the exact outcome, and the exact state left, the prior record put back included |
| SetupDocuments.Setup.Replace | apps/extension/src/extension/composition/vault-setup.capabilities.ts:277-313 | the same for a replacement of the words |
| SetupDocuments.Setup.Verify | apps/extension/src/extension/composition/vault-setup.capabilities.ts:314-334 | the run of its protocol steps, the exact outcome and the exact state left: true means the challenge was answered and the record completed and otherwise kept; false changes nothing |
| SetupDocuments.Setup.CheckAnswers | apps/extension/src/extension/composition/vault-setup.capabilities.ts:319-325 | the loop accepts exactly the answers that match at every asked position |
| SetupDocuments.Setup.Enroll | apps/extension/src/extension/composition/vault-setup.capabilities.ts:120-162 | the run of its protocol steps, the exact outcome and the exact state left |
| SetupDocuments.Setup.Create | apps/extension/src/extension/composition/vault-setup.capabilities.ts:163-206 | the run of its protocol steps, the exact outcome and the exact state left; it starts only without a local vault |
| SetupDocuments.Setup.SaveDuration | apps/extension/src/extension/composition/vault-setup.capabilities.ts:402-412 | the run of its protocol steps, the exact outcome and the exact records |
| SetupDocuments.Setup.SaveDevice | apps/extension/src/extension/composition/vault-settings.capabilities.ts:30-43 | the run of its protocol steps, the exact outcome and the exact records |
| SetupDocuments.Setup.RemoveLocalVault | apps/extension/src/extension/composition/vault-settings.capabilities.ts:44-55 | the vault is gone whether or not its record could be cleaned up, and the record is gone exactly when it could |
| SetupDocuments.Setup.StoredPreference | apps/extension/src/extension/composition/vault-preferences.ts:17-46 | the stored record, with the default for a missing one and for an unsupported duration |
| ChallengePositions.PositionsAreUniform | apps/extension/src/extension/composition/vault-setup.capabilities.ts:68-73 | every position has exactly floor(2^32 / n) accepted draws, and fewer than n draws are rejected |
| ChallengePositions.DrawPositions | apps/extension/src/extension/composition/vault-setup.capabilities.ts:68-79 | three distinct ascending positions in range: those of the shortest prefix of the draws that gives three |
| UriComponents.UriRoundTrip | apps/extension/src/adapters/system/scheduled-task-record.codec.ts:21-48 | percent-decoding undoes percent-encoding of UTF-16 text |
| UriComponents.EncodableIsWellFormed | apps/extension/src/adapters/system/scheduled-task-record.codec.ts:120-128 | exactly the texts without lone surrogates can be encoded |
| UriComponents.PlainIsKept | apps/extension/src/adapters/system/scheduled-task-record.codec.ts:21-25 | exactly letters, digits and the nine marks are left as they are; every other text gets longer |
| AlarmNames.DecodesExactlyNames | apps/extension/src/adapters/system/scheduled-task-record.codec.ts:27-59 | an alarm name decodes to a task exactly when it is that task's name; foreign names are left alone |
| AlarmNames.NamesAreInjective | apps/extension/src/adapters/system/scheduled-task-record.codec.ts:18-25 | two tasks never share a name, and exactly the non-blank well-formed action ids have one |
| AlarmRuntime.Runtime.HandleClipboardAlarm | apps/extension/src/extension/background/clipboard-alarm-runtime.ts:28-109 | read-failed if and only if the ownership read failed; for an active task the retry is scheduled first, the clearing executed second, and the outcome is exact for every reply; the task is over, or its alarm pending, or every attempt failed before the caller |
| AlarmRuntime.Runtime.HandleLockAlarm | apps/extension/src/extension/background/clipboard-alarm-runtime.ts:111-174 | the same exact course for vault locking, a failed ownership read being rescheduled; the promise holds if the task is of the active session when the two are compared |
| LockAlarm.PromiseHolds | apps/extension/src/extension/background/clipboard-alarm-runtime.ts:111-174 | for every outcome of every await and any interference: a task of the active session is over, or its alarm pending, or every scheduling attempt failed and the caller saw it |
| LockAlarm.OtherVaultIsLost | apps/extension/src/extension/background/clipboard-alarm-runtime.ts:111-174 | an active task of another vault than the session is left in the store without an alarm although every call succeeded |
| LockAlarm.LockPromiseIsExact | apps/extension/src/extension/background/clipboard-alarm-runtime.ts:111-174 | the handler of an active task keeps its promise for all outcomes if and only if no session is active or its vault is the task's |
| LockAlarm.CleanUpEndsOwnTask | packages/core/src/services/session/vault-lifecycle-cleanup.service.ts:64-376 | a cleanup that returns has ended the task, or found it of another vault and left everything as it was |
| LockAlarm.CleanUpIsComplete | packages/core/src/services/session/vault-lifecycle-cleanup.service.ts:64-376 | a cleanup that got hold of its task returns if and only if all its calls succeeded, and then session, tasks and alarms are gone |
| LockAlarm.LockTakesItsCourse | apps/extension/src/extension/background/clipboard-alarm-runtime.ts:111-174 | retry first, cleanup second, and the exact outcome, for every end of every await |
| AlarmRuntime.Runtime.HandleAlarm | apps/extension/src/extension/background/clipboard-alarm-runtime.ts:176-204 | the composed handler takes the course and keeps the promise of the handler in charge, and touches only its own alarm |
| AlarmRuntime.Runtime.ClearTask | packages/core/src/services/clipboard/clipboard-clear.service.ts:27-98 | each reply if and only if its condition holds, not-expired exactly when expiry is required and not reached; the task is removed exactly when the clearing got there |
| AlarmRuntime.OtherAlarmsAreUntouched | apps/extension/src/extension/background/clipboard-alarm-runtime.ts:97-107 | nothing a handler schedules or cancels is another task's alarm |
| AlarmRuntime.Runtime.Save | apps/extension/src/adapters/storage/chrome-vault-lock-task-repository.adapter.ts:37-43 | a task with an invalid action id is refused; another replaces the stored one, also when the write rejects after it was applied |
| AlarmRuntime.Runtime.RunIfActionIsActive | apps/extension/src/adapters/storage/chrome-vault-lock-task-repository.adapter.ts:49-67 | the operation runs, and its result or throw is passed on, exactly when the stored task has that action id; otherwise nothing changes |
| AlarmRuntime.Runtime.RemoveIfActionIsActive | apps/extension/src/adapters/storage/chrome-vault-lock-task-repository.adapter.ts:69-82 | only the task of that action is ever removed, the answer tells, and a rejected removal may have been applied |
| Base64Url.BuildReverseTable | packages/core/src/lib/base64Url.utils.ts:32-48 | the table inverts the alphabet and is -1 elsewhere |
| Base64Url.EncodeBase64Url | packages/core/src/lib/base64Url.utils.ts:50-94 | the loops compute the encoding |
| Base64Url.LookUp | packages/core/src/lib/base64Url.utils.ts:115-135 | the rejection inside the loop is never taken once the pattern matched |
| Base64Url.FillOutput | packages/core/src/lib/base64Url.utils.ts:108-142 | the output array is filled exactly |
| Base64Url.DecodeBase64Url | packages/core/src/lib/base64Url.utils.ts:96-144 | the loop computes the decoding, with the same three errors |
| Base64UrlProofs.DecodeEncode | packages/core/src/lib/base64Url.utils.ts:50-144 | decoding undoes encoding for every byte sequence |
| Base64UrlProofs.PaddingIsOptional | packages/core/src/lib/base64Url.utils.ts:96-112 | padded and unpadded forms decode alike |
| Base64UrlProofs.CanonicalTexts | packages/core/src/lib/base64Url.utils.ts:50-144 | a text is an encoding exactly when it is canonical: alphabet, length, zero unused bits |
| Base64UrlProofs.CanonicalBijection | apps/extension/src/adapters/codecs/artifact-codec.primitives.ts:124-145 | the canonical decoder is a bijection between canonical texts and byte sequences |
| Base64UrlProofs.EncodingIsBitString | packages/core/src/lib/base64Url.utils.ts:50-94 | the encoding spells the bit string of the bytes, six bits a digit |
| Base64UrlProofs.EncodeInjective | packages/core/src/lib/base64Url.utils.ts:50-94 | different bytes have different texts |
| Base64Decoding.RefusalsAreExact | packages/core/src/lib/base64Url.utils.ts:96-112 | each of the three errors if and only if its own condition on the characters, pads and length holds |
| Base64Decoding.DecodingIsBitString | packages/core/src/lib/base64Url.utils.ts:108-142 | every unpadded text of digits, canonical or not, decodes to the whole bytes of its bit string |
| JsonProofs.CanonicalIsIdempotent | packages/core/src/domain/common/json.utils.ts:1-25 | sorting twice is sorting once |
| JsonProofs.CanonicalIsDetermined | packages/core/src/domain/common/json.utils.ts:1-25 | values that differ only in key order have one canonical form |
| JsonPrinting.PrintInjective | packages/core/src/domain/common/json.utils.ts:27-35 | different JSON values print differently |
| JsonPrinting.ReadPrint | packages/core/src/domain/common/json.utils.ts:27-35 | a reader written from the grammar of RFC 8259 reads every printed value back as itself |
| JsonEquality.JsonEqualityIsTreeEquality | packages/core/src/domain/common/json.utils.ts:1-35 | two values, undefined properties and byte arrays included, compare equal exactly when their trees are the same without the undefined properties and with null for undefined items |
| JsonEquality.BytesCompareAsBytes | packages/core/src/domain/common/json.utils.ts:1-35 | byte arrays compare equal exactly when they have the same bytes |
| JsonEquality.PureJsonCompares | packages/core/src/domain/common/json.utils.ts:1-35 | values without undefined and bytes compare equal exactly when they differ only in key order, at every depth |
| CanonicalBytes.ConvertCanonicalJsonValue | apps/extension/src/adapters/crypto/web-crypto.adapter.ts:1281-1339 | the loops compute the conversion: undefined dropped or null, bytes encoded, the rest refused |
| CanonicalProofs.ConvertAgrees | apps/extension/src/adapters/crypto/web-crypto.adapter.ts:1281-1339 | conversion of an ordered value is conversion of its unordered tree |
| CanonicalProofs.CanonicalTextIsTree | apps/extension/src/adapters/crypto/web-crypto.adapter.ts:1265-1279 | two values have one canonical text exactly when their converted trees are equal |
| CanonicalReading.CanonicalTextIsRead | apps/extension/src/adapters/crypto/web-crypto.adapter.ts:1265-1279 | the canonical text exists exactly for supported values; read as JSON it is the value that stands for the given one, with keys ascending by UTF-16 code units at every depth |
| CanonicalReading.ConversionIsExact | apps/extension/src/adapters/crypto/web-crypto.adapter.ts:1281-1339 | what is refused, what is undefined, and which JSON value results, both ways, for every value |
| CanonicalReading.LessIsBefore | apps/extension/src/adapters/crypto/web-crypto.adapter.ts:1265-1279 | keys are compared at the first code unit in which they differ |
| ArtifactPrimitives.VectorCodec | apps/extension/src/adapters/codecs/artifact-codec.primitives.ts:105-122 | version vectors round-trip, and only their encodings decode |
| ArtifactPrimitives.EncryptedCodec | apps/extension/src/adapters/codecs/artifact-codec.primitives.ts:156-181 | protected values round-trip, and only their encodings decode |
| ArtifactPrimitives.SignatureCodec | apps/extension/src/adapters/codecs/artifact-codec.primitives.ts:203-215 | signatures round-trip, and only their encodings decode |
| SnapshotProofs.SnapshotRoundTrip | apps/extension/src/adapters/codecs/vault-snapshot.codec.ts:125-360 | decoding undoes encoding through trust chain, key slots, vectors and the optional upload identity |
| SnapshotProofs.SnapshotBack | apps/extension/src/adapters/codecs/vault-snapshot.codec.ts:251-329 | whatever decodes is, up to an undefined property, the encoding of a valid snapshot |
| SnapshotProofs.IdentityCodec | apps/extension/src/adapters/codecs/vault-snapshot.codec.ts:362-411 | identities and descriptors round-trip, and only their encodings decode |
| WireForms.SnapshotOnTheWire | apps/extension/src/adapters/codecs/vault-snapshot.codec.ts:331-360 | where certificates, key slots, content and signature of a snapshot are stored |
| WireForms.MetadataOnTheWire | apps/extension/src/adapters/codecs/vault-snapshot.codec.ts:331-360 | where the metadata fields are stored |
| WireForms.CertificateOnTheWire | apps/extension/src/adapters/codecs/vault-snapshot.codec.ts:181-193 | where the fields of a certificate are stored |
| WireForms.SlotOnTheWire | apps/extension/src/adapters/codecs/vault-snapshot.codec.ts:235-249 | where the fields of a key slot are stored |
| SnapshotProofs.SnapshotForms | apps/extension/src/adapters/crypto/web-crypto.adapter.ts:1281-1339 | the stored and the in-memory form of a snapshot convert to one JSON value |
| SnapshotProofs.DigestSurvivesStorage | apps/extension/src/adapters/crypto/web-crypto.adapter.ts:874-876 | the digested text is the same after encoding and decoding, for all key orders |
| SnapshotProofs.SignedTextSurvivesStorage | apps/extension/src/adapters/crypto/web-crypto.adapter.ts:763-776 | the text verified after decoding is the text that was signed |
| VaultStructure.RequireUniqueAcross | apps/extension/src/adapters/codecs/vault-snapshot.codec.ts:558-566 | ids are unique across live and deleted items exactly when the check passes |
| VaultStructure.RequireUniqueSiblings | apps/extension/src/adapters/codecs/vault-snapshot.codec.ts:625-632 | the sibling map is built and checked: it passes exactly when siblings have distinct normalised names |
| VaultStructure.RequireReferences | apps/extension/src/adapters/codecs/vault-snapshot.codec.ts:633-657 | the checks pass exactly when every tag, group, parent and folder reference resolves |
| VaultStructure.WalkToRoot | apps/extension/src/adapters/codecs/vault-snapshot.codec.ts:658-668 | the walk succeeds exactly when the folder reaches the root; it terminates, and every looked-up parent exists |
| VaultStructure.CheckStructure | apps/extension/src/adapters/codecs/vault-snapshot.codec.ts:558-668 | all relational checks together accept exactly the well-structured vaults |
| VaultProofs.DecodeVault | apps/extension/src/adapters/codecs/vault-snapshot.codec.ts:580-737 | decoding succeeds exactly when the fields decode and the vault is well structured |
| VaultProofs.VaultRoundTrip | apps/extension/src/adapters/codecs/vault-snapshot.codec.ts:580-798 | the encoding of a vault with valid fields decodes to it exactly when it is well structured, a pending removal with its rollback snapshot included |
| VaultProofs.DecodedIsStable | apps/extension/src/adapters/codecs/vault-snapshot.codec.ts:580-798 | whatever decodes is valid and well structured, and survives storing again |
| VaultSpelling.DecodedIsExact | apps/extension/src/adapters/codecs/vault-snapshot.codec.ts:413-737 | decodeVault yields a vault if and only if the stored value denotes it, property by property, its fields are valid and it is well structured |
| VaultSpelling.EncodingDenotes | apps/extension/src/adapters/codecs/vault-snapshot.codec.ts:739-798 | the encoding of a vault with valid fields denotes it |
| SecureWipe.Wipe | packages/core/src/lib/secure-wipe.utils.ts:15-17 | the buffer is zero |
| SecureWipe.BestEffortWipeArrayBuffers | packages/core/src/lib/secure-wipe.utils.ts:19-33 | every given buffer is zero |
| SessionMaterial.DecodeCanonicalBytes | apps/extension/src/adapters/codecs/artifact-codec.primitives.ts:124-145 | the result is a fresh copy, and every other buffer allocated on the way is zero |
| SessionMaterial.DecodeStoredMaterial | apps/extension/src/adapters/storage/unlocked-vault-session-material.codec.ts:197-271 | the material is what the stored fields say; only collected secrets are left non-zero |
| SessionMaterial.Deserialize | apps/extension/src/adapters/storage/unlocked-vault-session-material.codec.ts:146-160 | on failure, wherever it happens, every buffer allocated is zero; on success every one but the five secrets |
| SessionMaterial.DeserializeIdentity | apps/extension/src/adapters/storage/unlocked-vault-session-material.codec.ts:162-195 | the identity alone is returned and every buffer allocated is zero, on success too |
| SessionMaterial.MaterialRoundTrip | apps/extension/src/adapters/storage/unlocked-vault-session-material.codec.ts:102-271 | serialised material is read back field by field and byte by byte if it is valid, and is refused if it is not |
| WireForms.OnlyMaterialDecodes | apps/extension/src/adapters/storage/unlocked-vault-session-material.codec.ts:197-271 | whatever is accepted as session material is the serialisation of valid material |
| SessionStore.ReadsAgreeWithLastSave | apps/extension/src/adapters/storage/chrome-unlocked-vault-session-material-repository.adapter.ts:42-121 | with one writing context, all reads along a run return the material last saved successfully if and only if, whenever its cache entry is lost, no rejected save was applied over it and the codec accepts it |
| SessionStore.ReadsAgreeWithoutAppliedRejects | apps/extension/src/adapters/storage/chrome-unlocked-vault-session-material-repository.adapter.ts:42-121 | in particular they do when no rejected save was applied, whatever was evicted or failed |
| SessionStore.IdentityIsLastWritten | apps/extension/src/adapters/storage/chrome-unlocked-vault-session-material-repository.adapter.ts:75-85 | the identity read past the cache is that of the last save written, rejected or not |
| SessionStore.RemovalHoldsUntilEviction | apps/extension/src/adapters/storage/chrome-unlocked-vault-session-material-repository.adapter.ts:110-131 | after a removal, even a failed one, reads return null until a save or an eviction |
| SessionStore.RemovalIsExact | apps/extension/src/adapters/storage/chrome-unlocked-vault-session-material-repository.adapter.ts:110-131 | what reads return after a removal and any run that writes nothing: null across all evictions if it was applied, else the stored material from the first eviction on |
| SessionStore.EpochCountsWrites | apps/extension/src/adapters/storage/chrome-unlocked-vault-session-material-repository.adapter.ts:96-159 | over any run the epoch is its start plus the applied writes: it never falls, rises for each successful advance, and stays a safe integer |
| SessionStore.EpochCountsSuccesses | apps/extension/src/adapters/storage/chrome-unlocked-vault-session-material-repository.adapter.ts:96-108 | it has risen by exactly the successful advances if and only if no rejected one was applied |
| SessionStore.EpochReadsAreExact | apps/extension/src/adapters/storage/chrome-unlocked-vault-session-material-repository.adapter.ts:92-159 | over any run a read of the epoch returns its start plus the applied writes, or fails with its storage call |
| SessionStore.ReadsReplyHonestly | apps/extension/src/adapters/storage/chrome-unlocked-vault-session-material-repository.adapter.ts:53-73 | what a read answers from the cache, from storage, and when storage rejects |
| SessionStore.WritesReplyHonestly | apps/extension/src/adapters/storage/chrome-unlocked-vault-session-material-repository.adapter.ts:42-131 | a write is answered as done exactly when its storage calls are |
| SessionStore.QueueIsSerial | apps/extension/src/adapters/storage/chrome-unlocked-vault-session-material-repository.adapter.ts:133-140 | operations start in submission order, one at a time, and a failed one lets the next start |
| CapturedLogins.EnvelopeRoundTrip | apps/extension/src/adapters/browser-login/chrome-captured-login-repository.adapter.ts:43-74 | a written envelope is read back exactly when its parts are within bounds |
| CapturedLogins.OnlyEnvelopesDecode | apps/extension/src/adapters/browser-login/chrome-captured-login-repository.adapter.ts:43-74 | whatever is accepted is the writing of a valid envelope |
| CapturedLogins.SaveKeepsExactlyActive | apps/extension/src/adapters/browser-login/chrome-captured-login-repository.adapter.ts:129-165 | after a successful save the records are exactly the active ones of this session and the new one |
| CapturedLogins.SaveSucceedsExactly | apps/extension/src/adapters/browser-login/chrome-captured-login-repository.adapter.ts:108-166 | a save succeeds if and only if its calls do and there is room; whatever happens no other tab loses an active record |
| CapturedLogins.ActiveIsExact | apps/extension/src/adapters/browser-login/chrome-captured-login-repository.adapter.ts:129-145 | active means valid, of this vault and session, and not expired |
| CapturedLogins.ReadsWhatWasSaved | apps/extension/src/adapters/browser-login/chrome-captured-login-repository.adapter.ts:108-220 | a saved login is read back in the same context exactly when it fits |
| CapturedLogins.OtherContextsReadNothing | apps/extension/src/adapters/browser-login/chrome-captured-login-repository.adapter.ts:167-220 | a context of another vault or session reads nothing of it |
| CapturedLogins.MovedRecordIsUnreadable | apps/extension/src/adapters/browser-login/chrome-captured-login-repository.adapter.ts:96-100 | the associated data binds a record to its tab: moved to another tab it reads as absent |
| CapturedLogins.RemovalIsExact | apps/extension/src/adapters/browser-login/chrome-captured-login-repository.adapter.ts:221-229 | a removal takes away exactly the well-formed record of that tab and login, and no other key |
| CapturedLogins.ClearingIsExact | apps/extension/src/adapters/browser-login/chrome-captured-login-repository.adapter.ts:233-246 | a clearing leaves exactly the keys of other features and the well-formed records that were not chosen |
| CapturedLogins.NeverMoreThanTwenty | apps/extension/src/adapters/browser-login/chrome-captured-login-repository.adapter.ts:108-246 | over any run there are never more than twenty records |
| CapturedLogins.OtherKeysAreUntouched | apps/extension/src/adapters/browser-login/chrome-captured-login-repository.adapter.ts:108-246 | over any run keys of other features keep their values |
| CapturedLogins.SavedLoginSurvives | apps/extension/src/adapters/browser-login/chrome-captured-login-repository.adapter.ts:108-246 | a saved login is still read back after any run that has no business with it |
| PopupRoute.PopupRequests.PlaceRequest | apps/extension/src/extension/composition/popup-route.ts:8-22 | refused if and only if expired, stored for its window when the write succeeds; other windows keep their requests |
| PopupRoute.PopupRequests.FinishOpening | apps/extension/src/extension/composition/popup-route.ts:23-43 | a popup that did not open takes back its own request and leaves all others, also when the removal rejects |
| PopupRoute.PopupRequests.ConsumeReviewRequest | apps/extension/src/extension/composition/popup-route.ts:45-71 | detected if and only if a live request of the active tab is there; whatever it returns, the request is used up and others stay |
| PopupRoute.ConsumedAtMostOnce | apps/extension/src/extension/composition/popup-route.ts:8-71 | in every interleaving a request is consumed, withdrawn or lost at most once |
| PopupRoute.DetectedIsLiveAndActive | apps/extension/src/extension/composition/popup-route.ts:45-71 | in every interleaving a consumption sees a request placed in that window, and answers detected if and only if it is live and for the active tab |
| PopupRoute.WithdrawsOnlyItsOwn | apps/extension/src/extension/composition/popup-route.ts:28-42 | in every interleaving a failed open leaves all other pending requests |

## Left out

- Cryptography: sealing, digests, signatures and key imports are functions with the laws used (decryption undoes encryption, other associated data do not open, a digest is a function of the text).
- SDK, HTTP, Dexie, browser storage, alarms and Web Locks: a conditional store with retries, atomic transactions, maps, a set of one-shot alarms, and mutual exclusion released by a crash.
- A storage write of a crashed document that lands after its lock was released: writes under a lock take effect, or not, before the release.
- JavaScript object quirks: objects are maps, numbers are integers, and prototype keys, integer-key ordering, -0, dates and non-finite numbers are not modelled.
- Text: except in alarm names and in the order of keys, strings are sequences of Unicode scalar values, measured as such rather than in UTF-16 code units.
- Name normalisation tables: the normalised form of an organisation name is an arbitrary function of the name.
- Errors: which message a failing decoder throws is not modelled where the caller maps all of them to one.
- Public keys in session material: kept as values, so the unwiped buffers of public keys and digests are not modelled; neither are detached buffers and aliasing with callers of the session cache.
- Setup: copying, printing and saving of recovery words, password changes and unlocking, which change neither words nor receipts, and the delivery order of storage events, which may clear a session at any time here.
- Termination of the challenge draw: probabilistic in the original, so the loop is proved on a given list of draws.
- AlarmWorld.Meanwhile: does not let a pending alarm ring while its handler runs, because a retry lies a minute ahead, nor an action id be used twice.
- JsonEquality.JsonEqualityIsTreeEquality: leaves out functions, symbols, dates and non-finite numbers, which the compared records do not hold.
- Records of the session that a cleanup removes: only the active session and the clipboard and lock tasks are modelled, not the order in which the other records go.
- SnapshotProofs.SnapshotRoundTrip: returns an absent upload identity where the property was set to undefined, because the encoder's output does not survive as undefined.
- Single-record setters and removers of the local repository other than the removal of device-access material: each touches one record by design.
- Target and credential configuration decoding, enrolment artifacts, the user interface, page heuristics and all use cases not named above.
