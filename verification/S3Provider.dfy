// The S3 sync provider: what one call decides, and the conditional requests it makes.
// Conditions follow sections 13.1.1 (If-Match) and 13.1.2 (If-None-Match) of RFC 9110.
module S3Provider {
  import opened Common
  import opened Identities

  // ------------------------------------------------------------------ snapshots

  // Everything the protocol does not look into is in `rest`.
  datatype Snapshot = Snapshot(vaultId: string, vector: VersionVector, timestamp: int, rest: string)

  // The digest and the public-key check are functions of the snapshot alone.
  datatype Crypto = Crypto(digest: Snapshot -> string, keysValid: Snapshot -> bool)

  function Counter(v: VersionVector, device: string): int {
    if device in v then v[device] else 0
  }

  predicate SameVector(a: VersionVector, b: VersionVector) {
    forall d :: d in a.Keys + b.Keys ==> Counter(a, d) == Counter(b, d)
  }

  predicate SameDescriptor(a: Descriptor, b: Descriptor) {
    a.vaultId == b.vaultId && a.timestamp == b.timestamp && SameVector(a.vector, b.vector)
  }

  function ToDescriptor(vaultId: string, s: Snapshot): Descriptor {
    Descriptor(vaultId, s.vector, s.timestamp)
  }

  // ------------------------------------------------------------------ object bodies

  datatype Body = Record(descriptor: Descriptor, snapshot: Snapshot) | Unreadable

  function EncodeRecord(s: Snapshot): Body {
    Record(ToDescriptor(s.vaultId, s), s)
  }

  function DecodeRecord(c: Crypto, b: Body): Option<Body> {
    if b.Record? && b.snapshot.vaultId == b.descriptor.vaultId
       && SameDescriptor(b.descriptor, ToDescriptor(b.descriptor.vaultId, b.snapshot))
       && c.keysValid(b.snapshot)
    then Some(b) else None
  }

  datatype Stored = Stored(body: Body, etag: string)

  // The identity check of both prepare operations.
  predicate Matches(c: Crypto, b: Body, expected: Identity) {
    b.Record? && SameDescriptor(b.descriptor, expected.descriptor) && c.digest(b.snapshot) == expected.digest
  }

  // ------------------------------------------------------------------ requests

  datatype Request =
    | Put(body: Body, ifMatch: Option<string>)  // ifMatch None stands for If-None-Match: *
    | Delete(etag: string)

  // The store checks the condition of a request in one step with the write.
  predicate ConditionHolds(r: Request, current: Option<Stored>) {
    match r
    case Put(_, None) => current.None?
    case Put(_, Some(e)) => current.Some? && current.value.etag == e
    case Delete(e) => current.Some? && current.value.etag == e
  }

  function BodyAfter(r: Request): Option<Body> {
    match r case Put(b, _) => Some(b) case Delete(_) => None
  }

  // ------------------------------------------------------------------ reads

  datatype ProviderFailure = NotFound | OtherReadFailure

  datatype Read = Got(body: Option<Body>, etag: Option<string>) | ReadFailed(why: ProviderFailure)

  datatype RemoteObject = RemoteObject(record: Body, etag: Option<string>)

  datatype PrepareError = InvalidRecord | ReadError | RemoteChanged

  function GetRemote(c: Crypto, read: Read): Result<Option<RemoteObject>, PrepareError> {
    match read
    case ReadFailed(NotFound) => Ok(None)
    case ReadFailed(OtherReadFailure) => Err(ReadError)
    case Got(None, _) => Err(InvalidRecord)
    case Got(Some(body), etag) =>
      match DecodeRecord(c, body)
      case None => Err(InvalidRecord)
      case Some(record) => Ok(Some(RemoteObject(record, etag)))
  }

  function RequireEtag(o: RemoteObject): Result<string, PrepareError> {
    if o.etag.None? || |o.etag.value| == 0 then Err(InvalidRecord) else Ok(o.etag.value)
  }

  datatype Prepared =
    | Ready(request: Request)
    | NotStarted
    | AlreadyAbsent
    | Threw(error: PrepareError)

  // The read is made only when an earlier version is expected in the same vault.
  function PrepareUpload(c: Crypto, s: Snapshot, expected: Option<Identity>, read: Read): Prepared {
    match expected
    case None => Ready(Put(EncodeRecord(s), None))
    case Some(id) =>
      if id.descriptor.vaultId != s.vaultId then NotStarted
      else match GetRemote(c, read)
        case Err(e) => Threw(e)
        case Ok(None) => NotStarted
        case Ok(Some(current)) =>
          if !Matches(c, current.record, id) then NotStarted
          else match RequireEtag(current)
            case Err(e) => Threw(e)
            case Ok(etag) => Ready(Put(EncodeRecord(s), Some(etag)))
  }

  function PrepareRemoval(c: Crypto, vaultId: string, expected: Option<Identity>, read: Read): Prepared {
    match GetRemote(c, read)
    case Err(e) => Threw(e)
    case Ok(None) => AlreadyAbsent
    case Ok(Some(current)) =>
      if expected.None? || expected.value.descriptor.vaultId != vaultId
         || current.record.descriptor.vaultId != vaultId || !Matches(c, current.record, expected.value)
      then Threw(RemoteChanged)
      else match RequireEtag(current)
        case Err(e) => Threw(e)
        case Ok(etag) => Ready(Delete(etag))
  }

  // ------------------------------------------------------------------ when an operation is prepared

  // The same counters; an absent one counts as zero.
  ghost predicate CountersAgree(a: VersionVector, b: VersionVector) {
    forall d: string :: (if d in a then a[d] else 0) == (if d in b then b[d] else 0)
  }

  // The body is a record whose descriptor is that of its snapshot, with acceptable keys.
  ghost predicate IsRecord(c: Crypto, b: Body) {
    && b.Record? && b.descriptor.vaultId == b.snapshot.vaultId && b.descriptor.timestamp == b.snapshot.timestamp
    && CountersAgree(b.descriptor.vector, b.snapshot.vector) && c.keysValid(b.snapshot)
  }

  // It is a record of exactly the version that the identity names.
  ghost predicate IsVersion(c: Crypto, b: Body, id: Identity) {
    && IsRecord(c, b) && b.snapshot.vaultId == id.descriptor.vaultId && b.snapshot.timestamp == id.descriptor.timestamp
    && CountersAgree(b.descriptor.vector, id.descriptor.vector) && c.digest(b.snapshot) == id.digest
  }

  predicate Tagged(read: Read) {
    read.Got? && read.etag.Some? && read.etag.value != ""
  }

  // What an upload of s is sent as.
  function UploadBody(s: Snapshot): Body {
    Record(Descriptor(s.vaultId, s.vector, s.timestamp), s)
  }

  // The decision on an upload, by what the read found.
  ghost predicate UploadDecision(c: Crypto, s: Snapshot, expected: Option<Identity>, read: Read, p: Prepared) {
    if expected.None? then p == Ready(Put(UploadBody(s), None))
    else if expected.value.descriptor.vaultId != s.vaultId then p == NotStarted
    else match read
      case ReadFailed(why) => p == if why == NotFound then NotStarted else Threw(ReadError)
      case Got(body, etag) =>
        if body.None? || !IsRecord(c, body.value) then p == Threw(InvalidRecord)
        else if !IsVersion(c, body.value, expected.value) then p == NotStarted
        else p == if Tagged(read) then Ready(Put(UploadBody(s), etag)) else Threw(InvalidRecord)
  }

  ghost predicate RemovalDecision(c: Crypto, vaultId: string, expected: Option<Identity>, read: Read, p: Prepared) {
    match read
    case ReadFailed(why) => p == if why == NotFound then AlreadyAbsent else Threw(ReadError)
    case Got(body, etag) =>
      if body.None? || !IsRecord(c, body.value) then p == Threw(InvalidRecord)
      else if expected.None? || expected.value.descriptor.vaultId != vaultId || !IsVersion(c, body.value, expected.value)
      then p == Threw(RemoteChanged)
      else p == if Tagged(read) then Ready(Delete(etag.value)) else Threw(InvalidRecord)
  }

  lemma VectorsCompareByCounters(a: VersionVector, b: VersionVector)
    ensures SameVector(a, b) <==> CountersAgree(a, b)
  {
    if SameVector(a, b) {
      forall d: string ensures (if d in a then a[d] else 0) == (if d in b then b[d] else 0) {
        assert d in a.Keys + b.Keys ==> Counter(a, d) == Counter(b, d);
      }
    }
    if CountersAgree(a, b) {
      forall d | d in a.Keys + b.Keys ensures Counter(a, d) == Counter(b, d) {
        assert (if d in a then a[d] else 0) == (if d in b then b[d] else 0);
      }
    }
  }

  lemma DecodesRecords(c: Crypto, b: Body)
    ensures DecodeRecord(c, b) == if IsRecord(c, b) then Some(b) else None
  {
    if b.Record? { VectorsCompareByCounters(b.descriptor.vector, b.snapshot.vector); }
    hide SameVector, CountersAgree;
  }

  lemma MatchesVersions(c: Crypto, b: Body, id: Identity)
    requires IsRecord(c, b)
    ensures Matches(c, b, id) <==> IsVersion(c, b, id)
  {
    VectorsCompareByCounters(b.descriptor.vector, id.descriptor.vector);
    hide SameVector, CountersAgree;
  }

  lemma UploadsAreDecidedByTheRead(c: Crypto, s: Snapshot, expected: Option<Identity>, read: Read)
    ensures UploadDecision(c, s, expected, read, PrepareUpload(c, s, expected, read))
  {
    if read.Got? && read.body.Some? {
      DecodesRecords(c, read.body.value);
      if expected.Some? && IsRecord(c, read.body.value) { MatchesVersions(c, read.body.value, expected.value); }
    }
    hide DecodeRecord, Matches, IsRecord, IsVersion;
  }

  lemma RemovalsAreDecidedByTheRead(c: Crypto, vaultId: string, expected: Option<Identity>, read: Read)
    ensures RemovalDecision(c, vaultId, expected, read, PrepareRemoval(c, vaultId, expected, read))
  {
    if read.Got? && read.body.Some? && IsRecord(c, read.body.value) {
      if expected.Some? { MatchesVersions(c, read.body.value, expected.value); }
    }
    if read.Got? && read.body.Some? { DecodesRecords(c, read.body.value); }
    hide DecodeRecord, Matches;
  }

  // ------------------------------------------------------------------ failures

  // A property of an untrusted error object; Missing is undefined or null.
  datatype Property = Missing | Text(text: string) | OtherValue

  datatype ProviderError =
    | ErrorObject(attempts: Option<int>, status: Option<int>, upperCode: Property, lowerCode: Property, name: Property)
    | NotAnObject
    | ThrowsOnInspection

  function ErrorCode(e: ProviderError): Option<string> {
    if !e.ErrorObject? then None
    else
      var p := if e.upperCode != Missing then e.upperCode
               else if e.lowerCode != Missing then e.lowerCode else e.name;
      if p.Text? then Some(p.text) else None
  }

  function Status(e: ProviderError): Option<int> {
    if e.ErrorObject? then e.status else None
  }

  function Attempts(e: ProviderError): Option<int> {
    if e.ErrorObject? then e.attempts else None
  }

  const NOT_FOUND_CODES: set<string> := {"NoSuchKey", "NotFound"}

  const CONFLICT_CODES: set<string> := {"ConditionalRequestConflict", "OperationAborted", "PreconditionFailed"}

  const DEFINITIVE_REJECTION_CODES: set<string> := {
    "AccessDenied", "AuthorizationHeaderMalformed", "InvalidAccessKeyId", "InvalidBucketName",
    "InvalidRequest", "NoSuchBucket", "SignatureDoesNotMatch"
  }

  predicate CodeIn(e: ProviderError, codes: set<string>) {
    ErrorCode(e).Some? && ErrorCode(e).value in codes
  }

  // What the error claims the server answered, whatever the number of attempts.
  predicate ReportsCondition(e: ProviderError, hasIfMatch: bool) {
    || Status(e) == Some(409)
    || Status(e) == Some(412)
    || (Status(e) == Some(404) && hasIfMatch && (ErrorCode(e).None? || CodeIn(e, NOT_FOUND_CODES)))
    || CodeIn(e, CONFLICT_CODES)
    || (ErrorCode(e) == Some("NoSuchKey") && hasIfMatch)
  }

  predicate ReportsRejection(e: ProviderError) {
    CodeIn(e, DEFINITIVE_REJECTION_CODES)
  }

  datatype Reason = RemoteSnapshotChanged | ProviderRejected

  datatype UploadOutcome = Committed | DefinitelyNotCommitted(reason: Reason) | OutcomeUnknown

  function ClassifyUploadFailure(e: ProviderError, hasIfMatch: bool): UploadOutcome {
    if e == ThrowsOnInspection then OutcomeUnknown
    else if Attempts(e) == Some(1) && ReportsCondition(e, hasIfMatch) then DefinitelyNotCommitted(RemoteSnapshotChanged)
    else if Attempts(e) == Some(1) && ReportsRejection(e) then DefinitelyNotCommitted(ProviderRejected)
    else OutcomeUnknown
  }

  datatype RemovalOutcome = Removed | RemovalChanged | RemovalThrew

  function ClassifyRemovalFailure(e: ProviderError): RemovalOutcome {
    if CodeIn(e, NOT_FOUND_CODES) then Removed
    else if Status(e) == Some(412) || CodeIn(e, CONFLICT_CODES) then RemovalChanged
    else RemovalThrew
  }

  // The code that an error reports: the first of its three properties that is present.
  predicate HasCode(e: ProviderError, code: string) {
    && e.ErrorObject?
    && (|| e.upperCode == Text(code)
        || (e.upperCode == Missing && e.lowerCode == Text(code))
        || (e.upperCode == Missing && e.lowerCode == Missing && e.name == Text(code)))
  }

  // The first property that is present is not text, or none is.
  predicate HasNoCode(e: ProviderError) {
    && e.ErrorObject?
    && (|| e.upperCode == OtherValue
        || (e.upperCode == Missing && e.lowerCode == OtherValue)
        || (e.upperCode == Missing && e.lowerCode == Missing && !e.name.Text?))
  }

  predicate SaysNotFound(e: ProviderError) {
    HasCode(e, "NoSuchKey") || HasCode(e, "NotFound")
  }

  predicate SaysConflict(e: ProviderError) {
    HasCode(e, "PreconditionFailed") || HasCode(e, "ConditionalRequestConflict") || HasCode(e, "OperationAborted")
  }

  predicate SaysRejected(e: ProviderError) {
    || HasCode(e, "AccessDenied") || HasCode(e, "AuthorizationHeaderMalformed") || HasCode(e, "InvalidAccessKeyId")
    || HasCode(e, "InvalidBucketName") || HasCode(e, "InvalidRequest") || HasCode(e, "NoSuchBucket")
    || HasCode(e, "SignatureDoesNotMatch")
  }

  // The server's refusal of the condition of an upload.
  predicate RefusesCondition(e: ProviderError, overwrites: bool) {
    && e.ErrorObject?
    && (|| e.status == Some(409) || e.status == Some(412) || SaysConflict(e)
        || (overwrites && (HasCode(e, "NoSuchKey") || (e.status == Some(404) && (HasNoCode(e) || SaysNotFound(e))))))
  }

  // What a failed upload reports, and for which reason: only a single attempt is conclusive.
  lemma UploadFailuresAreExact(e: ProviderError, overwrites: bool)
    ensures ClassifyUploadFailure(e, overwrites) ==
      if !e.ErrorObject? || e.attempts != Some(1) then OutcomeUnknown
      else if RefusesCondition(e, overwrites) then DefinitelyNotCommitted(RemoteSnapshotChanged)
      else if SaysRejected(e) then DefinitelyNotCommitted(ProviderRejected)
      else OutcomeUnknown
  {
    if e.ErrorObject? { CodesAreReported(e); }
    hide HasCode, HasNoCode, ErrorCode;
  }

  lemma CodesAreReported(e: ProviderError)
    requires e.ErrorObject?
    ensures HasNoCode(e) <==> ErrorCode(e).None?
    ensures forall code {:trigger HasCode(e, code)} :: HasCode(e, code) <==> ErrorCode(e) == Some(code)
  {
  }

  // A failed removal is a success when the object is missing, and changed or thrown by its report.
  lemma RemovalFailuresAreExact(e: ProviderError)
    ensures ClassifyRemovalFailure(e) ==
      if SaysNotFound(e) then Removed
      else if (e.ErrorObject? && e.status == Some(412)) || SaysConflict(e) then RemovalChanged
      else RemovalThrew
  {
    if e.ErrorObject? { CodesAreReported(e); }
    hide HasNoCode, ErrorCode;
  }

  // ------------------------------------------------------------------ attempts

  datatype Refusal = PreconditionFailed | ObjectMissing | ConflictingWrite | RequestRejected

  // One attempt of the SDK, as the store saw it.
  datatype Try = InFlight | TookEffect | Refused(why: Refusal)

  // The answers a conditional store may give without writing.
  predicate MayRefuse(r: Request, current: Option<Stored>, why: Refusal) {
    match why
    case PreconditionFailed => !ConditionHolds(r, current)
    case ObjectMissing => current.None? && (r.Delete? || r.ifMatch.Some?)
    case ConflictingWrite => true
    case RequestRejected => true
  }

  predicate IsDefinite(e: ProviderError, hasIfMatch: bool) {
    ReportsCondition(e, hasIfMatch) || ReportsRejection(e)
  }

  // The transport is honest: an attempt count is the true count, a definite status or code is
  // the server's refusal of the last attempt, and "not found" is said only of a missing object.
  predicate Honest(e: ProviderError, r: Request, tries: seq<Try>) {
    && |tries| > 0
    && (Attempts(e).Some? ==> Attempts(e).value == |tries|)
    && (IsDefinite(e, r.Delete? || r.ifMatch.Some?) ==> tries[|tries| - 1].Refused?)
    && (r.Delete? && CodeIn(e, NOT_FOUND_CODES) ==> tries[|tries| - 1] == Refused(ObjectMissing))
  }

  // A read reports what the store holds at that moment; a response may lack its body or tag.
  predicate TruthfulRead(read: Read, remote: Option<Stored>) {
    match read
    case ReadFailed(NotFound) => remote.None?
    case ReadFailed(OtherReadFailure) => true
    case Got(body, etag) =>
      && remote.Some?
      && (body.Some? ==> body.value == remote.value.body)
      && (etag.Some? && |etag.value| > 0 ==> etag.value == remote.value.etag)
  }

  function BodyOf(stored: Option<Stored>): Option<Body> {
    if stored.None? then None else Some(stored.value.body)
  }

  function AfterRequest(r: Request, etag: string): Option<Stored> {
    match r case Put(b, _) => Some(Stored(b, etag)) case Delete(_) => None
  }

  // The client of one device, and the store as it finds it while no other device acts.
  class S3Client {
    var stored: Option<Stored>
    var gets: nat

    constructor (stored: Option<Stored>)
      ensures this.stored == stored && gets == 0
    {
      this.stored, gets := stored, 0;
    }

    method GetObject() returns (read: Read)
      modifies this`gets
      ensures TruthfulRead(read, stored) && gets == old(gets) + 1
    {
      read :| TruthfulRead(read, stored) by { assert TruthfulRead(ReadFailed(OtherReadFailure), stored); }
      gets := gets + 1;
    }

    // The SDK's retry loop: attempts may be refused or lost, and so may the reply of one that
    // took effect. The attempts are returned for the contract.
    method Send(r: Request) returns (failure: Option<ProviderError>, tries: seq<Try>)
      modifies this`stored
      ensures failure.None? ==> tries != [] && tries[|tries| - 1] == TookEffect
      ensures failure.Some? ==> Honest(failure.value, r, tries)
      ensures TookEffect !in tries ==> stored == old(stored)
      ensures TookEffect in tries ==>
        ConditionHolds(r, old(stored)) && BodyOf(stored) == BodyAfter(r)
      ensures Refused(ObjectMissing) in tries ==> stored.None?
    {
      tries := [];
      failure := Some(NotAnObject);
      var budget: nat := *;
      var go := true;
      while go
        invariant !go ==> tries != []
        invariant failure.None? ==> tries != [] && tries[|tries| - 1] == TookEffect
        invariant failure.Some? ==> failure.value == NotAnObject
        invariant TookEffect !in tries ==> stored == old(stored)
        invariant TookEffect in tries ==>
          ConditionHolds(r, old(stored)) && BodyOf(stored) == BodyAfter(r)
        invariant Refused(ObjectMissing) in tries ==> stored.None? && (r.Delete? || r.ifMatch.Some?)
        decreases budget, go
      {
        failure := Some(NotAnObject);
        var arrives, answered: bool := *, *;
        if arrives && ConditionHolds(r, stored) {
          var etag: string := *;
          stored := AfterRequest(r, etag);
          tries := tries + [TookEffect];
          if answered { failure := None; }
        } else if arrives {
          tries := tries + [Refused(if stored.None? && (r.Delete? || r.ifMatch.Some?) then ObjectMissing else PreconditionFailed)];
        } else {
          tries := tries + [InFlight];
        }
        if failure.None? || budget == 0 { go := false; } else { budget := budget - 1; }
      }
      if failure.Some? {
        var e :| Honest(e, r, tries) by { assert Honest(NotAnObject, r, tries); }
        failure := Some(e);
      }
    }

    method PrepareVaultSnapshotUpload(c: Crypto, s: Snapshot, expected: Option<Identity>)
      returns (p: Prepared, ghost read: Read)
      modifies this`gets
      ensures p == PrepareUpload(c, s, expected, read) && UploadDecision(c, s, expected, read, p)
      ensures expected.Some? && expected.value.descriptor.vaultId == s.vaultId ==>
        TruthfulRead(read, stored) && gets == old(gets) + 1
      ensures !(expected.Some? && expected.value.descriptor.vaultId == s.vaultId) ==> gets == old(gets)
    {
      hide UploadDecision, RemovalDecision, DecodeRecord, Matches, TruthfulRead;
      var body := EncodeRecord(s);
      read := ReadFailed(NotFound);
      UploadsAreDecidedByTheRead(c, s, expected, read);
      if expected.None? { return Ready(Put(body, None)), read; }
      if expected.value.descriptor.vaultId != s.vaultId { return NotStarted, read; }
      var response := GetObject();
      read := response;
      UploadsAreDecidedByTheRead(c, s, expected, read);
      var remote := GetRemote(c, response);
      if remote.Err? { return Threw(remote.error), read; }
      if remote.value.None? || !Matches(c, remote.value.value.record, expected.value) { return NotStarted, read; }
      var etag := RequireEtag(remote.value.value);
      if etag.Err? { return Threw(etag.error), read; }
      p := Ready(Put(body, Some(etag.value)));
    }

    method PrepareVaultSnapshotRemoval(c: Crypto, vaultId: string, expected: Option<Identity>)
      returns (p: Prepared, ghost read: Read)
      modifies this`gets
      ensures TruthfulRead(read, stored) && gets == old(gets) + 1
      ensures p == PrepareRemoval(c, vaultId, expected, read) && RemovalDecision(c, vaultId, expected, read, p)
    {
      hide UploadDecision, RemovalDecision, Matches, TruthfulRead;
      var response := GetObject();
      read := response;
      RemovalsAreDecidedByTheRead(c, vaultId, expected, read);
      var remote := GetRemote(c, response);
      if remote.Err? { return Threw(remote.error), read; }
      if remote.value.None? { return AlreadyAbsent, read; }
      var current := remote.value.value;
      if expected.None? || expected.value.descriptor.vaultId != vaultId
         || current.record.descriptor.vaultId != vaultId || !Matches(c, current.record, expected.value) {
        return Threw(RemoteChanged), read;
      }
      var etag := RequireEtag(current);
      if etag.Err? { return Threw(etag.error), read; }
      p := Ready(Delete(etag.value));
    }

    // With no other device acting, the outcome tells whether the object was replaced.
    method UploadRemoteVaultSnapshot(body: Body, ifMatch: Option<string>)
      returns (outcome: UploadOutcome, ghost failure: Option<ProviderError>)
      modifies this`stored
      ensures outcome == Committed <==> failure.None?
      ensures failure.Some? ==> outcome == ClassifyUploadFailure(failure.value, ifMatch.Some?)
      ensures outcome == Committed ==> stored.Some? && stored.value.body == body
      ensures outcome == Committed ==> ConditionHolds(Put(body, ifMatch), old(stored))
      ensures outcome.DefinitelyNotCommitted? ==> stored == old(stored)
      ensures outcome == OutcomeUnknown ==> stored == old(stored) || (stored.Some? && stored.value.body == body)
    {
      var error, tries := Send(Put(body, ifMatch));
      failure := error;
      if error.None? {
        outcome := Committed;
      } else {
        outcome := ClassifyUploadFailure(error.value, ifMatch.Some?);
      }
    }

    method RemoveRemoteVaultSnapshot(etag: string) returns (outcome: RemovalOutcome, ghost failure: Option<ProviderError>)
      modifies this`stored
      ensures outcome == if failure.None? then Removed else ClassifyRemovalFailure(failure.value)
      ensures outcome == Removed ==> stored.None?
      ensures stored == old(stored) || (stored.None? && ConditionHolds(Delete(etag), old(stored)))
    {
      var error, tries := Send(Delete(etag));
      failure := error;
      if error.None? {
        outcome := Removed;
      } else {
        outcome := ClassifyRemovalFailure(error.value);
      }
    }
  }
}
