// Uploads and removals of the expected version do go through: from every state, whatever other
// operations are in flight, there is a run that ends committed.
module S3Liveness {
  import opened Common
  import opened Identities
  import opened S3Provider
  import opened S3Protocol

  // One operation is submitted, prepared on this read, started, takes effect and is answered.
  function Course(id: nat, kind: Kind, read: Read, tag: string): seq<Label> {
    [Submit(id, kind), Prepare(id, read), Start(id), Effect(id, 0, tag), ReplyOk(id)]
  }

  lemma FiveSteps(c: Crypto, s: State, l: seq<Label>, s1: State, s2: State, s3: State, s4: State, s5: State)
    requires |l| == 5
    requires Enabled(c, s, l[0]) && s1 == Apply(c, s, l[0]) && Enabled(c, s1, l[1]) && s2 == Apply(c, s1, l[1])
    requires Enabled(c, s2, l[2]) && s3 == Apply(c, s2, l[2]) && Enabled(c, s3, l[3]) && s4 == Apply(c, s3, l[3])
    requires Enabled(c, s4, l[4]) && s5 == Apply(c, s4, l[4])
    ensures Run(c, s, l, s5)
  {
    hide Enabled, Apply;
    assert l[1..][1..] == l[2..] && l[2..][1..] == l[3..] && l[3..][1..] == l[4..] && l[4..][1..] == [];
    assert Run(c, s5, l[4..][1..], s5);
    assert Run(c, s4, l[4..], s5);
    assert Run(c, s3, l[3..], s5);
    assert Run(c, s2, l[2..], s5);
    assert Run(c, s1, l[1..], s5);
  }

  // A prepared request whose condition holds takes effect and is reported.
  lemma CourseRuns(c: Crypto, s: State, id: nat, kind: Kind, read: Read, tag: string, r: Request) returns (t: State)
    requires id !in s.ops && TruthfulRead(read, s.remote) && PrepareOp(c, kind, read) == Ready(r)
    requires ConditionHolds(r, s.remote) && (r.Put? ==> tag !in s.issued)
    ensures Run(c, s, Course(id, kind, read, tag), t)
    ensures t.remote == match r case Put(b, _) => Some(Stored(b, tag)) case Delete(_) => None
    ensures id in t.ops && t.ops[id].kind == kind
    ensures t.ops[id].result == Some(if r.Put? then UploadDone(Committed) else RemovalDone(Removed))
    ensures t.log == s.log + [Write(id, BodyOf(s.remote), BodyAfter(r))]
  {
    hide Run, PrepareOp, TruthfulRead;
    var l := Course(id, kind, read, tag);
    var s1 := Apply(c, s, l[0]);
    var s2 := Apply(c, s1, l[1]);
    var s3 := Apply(c, s2, l[2]);
    assert s3.ops[id] == Op(kind, Some(r), [InFlight], None);
    var s4 := Apply(c, s3, l[3]);
    t := Apply(c, s4, l[4]);
    FiveSteps(c, s, l, s1, s2, s3, s4, t);
  }

  // The upload of a snapshot over the version it expects, or as the first one, is committed, and
  // what is then stored is that snapshot.
  lemma ExpectedUploadCommits(c: Crypto, s: State, id: nat, snap: Snapshot, expected: Option<Identity>, tag: string)
    returns (read: Read, t: State)
    requires id !in s.ops && tag !in s.issued
    requires expected.None? ==> s.remote.None?
    requires expected.Some? ==>
      && expected.value.descriptor.vaultId == snap.vaultId
      && s.remote.Some? && s.remote.value.etag != "" && IsVersion(c, s.remote.value.body, expected.value)
    ensures Run(c, s, Course(id, Upload(snap, expected), read, tag), t)
    ensures t.remote == Some(Stored(Record(Descriptor(snap.vaultId, snap.vector, snap.timestamp), snap), tag))
    ensures id in t.ops && t.ops[id].result == Some(UploadDone(Committed))
  {
    read := if s.remote.None? then ReadFailed(NotFound) else Got(Some(s.remote.value.body), Some(s.remote.value.etag));
    UploadsAreDecidedByTheRead(c, snap, expected, read);
    hide Run, Course, IsVersion, IsRecord, PrepareUpload;
    var r := Put(UploadBody(snap), if expected.None? then None else Some(s.remote.value.etag));
    t := CourseRuns(c, s, id, Upload(snap, expected), read, tag, r);
  }

  // The removal of the expected version deletes it.
  lemma ExpectedRemovalDeletes(c: Crypto, s: State, id: nat, expected: Identity, tag: string) returns (read: Read, t: State)
    requires id !in s.ops
    requires s.remote.Some? && s.remote.value.etag != "" && IsVersion(c, s.remote.value.body, expected)
    ensures Run(c, s, Course(id, Removal(expected.descriptor.vaultId, Some(expected)), read, tag), t)
    ensures t.remote == None && id in t.ops && t.ops[id].result == Some(RemovalDone(Removed))
  {
    read := Got(Some(s.remote.value.body), Some(s.remote.value.etag));
    RemovalsAreDecidedByTheRead(c, expected.descriptor.vaultId, Some(expected), read);
    assert IsRecord(c, s.remote.value.body);
    hide Run, Course, IsVersion, IsRecord, PrepareRemoval;
    t := CourseRuns(c, s, id, Removal(expected.descriptor.vaultId, Some(expected)), read, tag, Delete(s.remote.value.etag));
  }

  // An error reply settles an operation as its report says, and changes neither store nor log.
  lemma ErrorsAreReported(c: Crypto, s: State, id: nat, e: ProviderError)
    requires Enabled(c, s, ReplyError(id, e))
    ensures var t := Apply(c, s, ReplyError(id, e));
      && t.remote == s.remote && t.log == s.log && id in t.ops
      && t.ops[id].result == Some(match s.ops[id].request.value
        case Put(_, ifMatch) => UploadDone(
          if !e.ErrorObject? || e.attempts != Some(1) then OutcomeUnknown
          else if RefusesCondition(e, ifMatch.Some?) then DefinitelyNotCommitted(RemoteSnapshotChanged)
          else if SaysRejected(e) then DefinitelyNotCommitted(ProviderRejected)
          else OutcomeUnknown)
        case Delete(_) => RemovalDone(
          if SaysNotFound(e) then Removed
          else if (e.ErrorObject? && e.status == Some(412)) || SaysConflict(e) then RemovalChanged
          else RemovalThrew))
  {
    hide ClassifyUploadFailure, ClassifyRemovalFailure, Honest, RefusesCondition, SaysRejected, SaysNotFound, SaysConflict;
    match s.ops[id].request.value
    case Put(_, ifMatch) => UploadFailuresAreExact(e, ifMatch.Some?);
    case Delete(_) => RemovalFailuresAreExact(e);
  }
}
