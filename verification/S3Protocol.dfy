// Any number of devices preparing and starting uploads and removals against one object, with
// SDK retries, lost replies and delayed requests, as a step system.
module S3Protocol {
  import opened Common
  import opened Identities
  import opened S3Provider

  datatype Kind =
    | Upload(snapshot: Snapshot, expected: Option<Identity>)
    | Removal(vaultId: string, expected: Option<Identity>)

  datatype OpResult =
    | UploadDone(outcome: UploadOutcome)
    | RemovalDone(removal: RemovalOutcome)
    | NeverStarted(prepared: Prepared)

  // One operation of one device: the request it prepared, the attempts it sent, its result. A
  // prepared request that is started again is another operation with the same request.
  datatype Op = Op(kind: Kind, request: Option<Request>, tries: seq<Try>, result: Option<OpResult>)

  datatype Write = Write(op: nat, before: Option<Body>, after: Option<Body>)

  // `issued` remembers which body each entity tag was given to; it is bookkeeping for the
  // assumption that equal tags mean equal bodies.
  datatype State = State(remote: Option<Stored>, issued: map<string, Body>, ops: map<nat, Op>, log: seq<Write>)

  datatype Label =
    | Submit(id: nat, kind: Kind)
    | Prepare(id: nat, read: Read)
    | Start(id: nat)
    | StartAgain(id: nat, again: nat)
    | Effect(id: nat, attempt: nat, etag: string)
    | Refuse(id: nat, attempt: nat, why: Refusal)
    | Retry(id: nat)
    | ReplyOk(id: nat)
    | ReplyError(id: nat, error: ProviderError)

  function RemoteBody(s: State): Option<Body> {
    BodyOf(s.remote)
  }

  function PrepareOp(c: Crypto, kind: Kind, read: Read): Prepared {
    match kind
    case Upload(snapshot, expected) => PrepareUpload(c, snapshot, expected, read)
    case Removal(vaultId, expected) => PrepareRemoval(c, vaultId, expected, read)
  }

  predicate FreshTag(issued: map<string, Body>, etag: string, b: Body) {
    etag in issued ==> issued[etag] == b
  }

  predicate AwaitsReply(o: Op) {
    o.request.Some? && |o.tries| > 0 && o.result.None?
  }

  // The store evaluates the condition of the k-th attempt and, if it holds, writes at once.
  predicate EffectEnabled(s: State, id: nat, k: nat, etag: string) {
    && id in s.ops && k < |s.ops[id].tries| && s.ops[id].tries[k] == InFlight && s.ops[id].request.Some?
    && ConditionHolds(s.ops[id].request.value, s.remote)
    && (s.ops[id].request.value.Put? ==> FreshTag(s.issued, etag, s.ops[id].request.value.body))
  }

  function ApplyEffect(s: State, id: nat, k: nat, etag: string): State
    requires EffectEnabled(s, id, k, etag)
  {
    var o := s.ops[id];
    var after := BodyAfter(o.request.value);
    State(
      if after.None? then None else Some(Stored(after.value, etag)),
      if after.None? then s.issued else s.issued[etag := after.value],
      s.ops[id := o.(tries := o.tries[k := TookEffect])],
      s.log + [Write(id, RemoteBody(s), after)])
  }

  predicate Enabled(c: Crypto, s: State, l: Label) {
    match l
    case Submit(id, _) => id !in s.ops
    case Prepare(id, read) =>
      && id in s.ops && s.ops[id].request.None? && s.ops[id].result.None? && TruthfulRead(read, s.remote)
    case Start(id) => id in s.ops && s.ops[id].request.Some? && s.ops[id].tries == [] && s.ops[id].result.None?
    case StartAgain(id, again) => id in s.ops && s.ops[id].request.Some? && again !in s.ops
    case Effect(id, k, etag) => EffectEnabled(s, id, k, etag)
    case Refuse(id, k, why) =>
      && id in s.ops && k < |s.ops[id].tries| && s.ops[id].tries[k] == InFlight && s.ops[id].request.Some?
      && MayRefuse(s.ops[id].request.value, s.remote, why)
    case Retry(id) => id in s.ops && AwaitsReply(s.ops[id])
    case ReplyOk(id) =>
      id in s.ops && AwaitsReply(s.ops[id]) && s.ops[id].tries[|s.ops[id].tries| - 1] == TookEffect
    case ReplyError(id, e) =>
      id in s.ops && AwaitsReply(s.ops[id]) && Honest(e, s.ops[id].request.value, s.ops[id].tries)
  }

  function AfterPrepare(o: Op, p: Prepared): Op {
    if p.Ready? then o.(request := Some(p.request)) else o.(result := Some(NeverStarted(p)))
  }

  function AfterReply(o: Op, error: Option<ProviderError>): Op
    requires o.request.Some?
  {
    var r := match o.request.value
      case Put(_, ifMatch) =>
        UploadDone(if error.None? then Committed else ClassifyUploadFailure(error.value, ifMatch.Some?))
      case Delete(_) =>
        RemovalDone(if error.None? then Removed else ClassifyRemovalFailure(error.value));
    o.(result := Some(r))
  }

  function Apply(c: Crypto, s: State, l: Label): State
    requires Enabled(c, s, l)
  {
    match l
    case Submit(id, kind) => s.(ops := s.ops[id := Op(kind, None, [], None)])
    case Prepare(id, read) =>
      s.(ops := s.ops[id := AfterPrepare(s.ops[id], PrepareOp(c, s.ops[id].kind, read))])
    case Start(id) => s.(ops := s.ops[id := s.ops[id].(tries := [InFlight])])
    case StartAgain(id, again) => s.(ops := s.ops[again := s.ops[id].(tries := [], result := None)])
    case Effect(id, k, etag) => ApplyEffect(s, id, k, etag)
    case Refuse(id, k, why) => s.(ops := s.ops[id := s.ops[id].(tries := s.ops[id].tries[k := Refused(why)])])
    case Retry(id) => s.(ops := s.ops[id := s.ops[id].(tries := s.ops[id].tries + [InFlight])])
    case ReplyOk(id) => s.(ops := s.ops[id := AfterReply(s.ops[id], None)])
    case ReplyError(id, e) => s.(ops := s.ops[id := AfterReply(s.ops[id], Some(e))])
  }

  // s reaches t through the given steps.
  ghost predicate Run(c: Crypto, s: State, labels: seq<Label>, t: State)
    decreases labels
  {
    if labels == [] then s == t
    else Enabled(c, s, labels[0]) && Run(c, Apply(c, s, labels[0]), labels[1..], t)
  }

  predicate Initial(s: State) {
    s.ops == map[] && s.log == []
    && s.issued == if s.remote.None? then map[] else map[s.remote.value.etag := s.remote.value.body]
  }

  // ------------------------------------------------------------------ the invariant

  predicate Expects(c: Crypto, kind: Kind, before: Option<Body>) {
    match kind.expected
    case None => before.None? && kind.Upload?
    case Some(id) => before.Some? && Matches(c, before.value, id)
  }

  // What an operation writes: its own snapshot, or nothing.
  function Written(kind: Kind): Option<Body> {
    match kind case Upload(s, _) => Some(EncodeRecord(s)) case Removal(_, _) => None
  }

  predicate GoodRequest(c: Crypto, issued: map<string, Body>, o: Op) {
    o.request.Some? ==>
      var r := o.request.value;
      && BodyAfter(r) == Written(o.kind)
      && (r.Put? && r.ifMatch.None? ==> Expects(c, o.kind, None))
      && (r.Put? && r.ifMatch.Some? ==>
            r.ifMatch.value in issued && Expects(c, o.kind, Some(issued[r.ifMatch.value])))
      && (r.Delete? ==> r.etag in issued && Expects(c, o.kind, Some(issued[r.etag])))
  }

  predicate GoodOp(c: Crypto, issued: map<string, Body>, o: Op) {
    && GoodRequest(c, issued, o)
    && (o.tries != [] ==> o.request.Some?)
    && (o.result.Some? && o.result.value.NeverStarted? ==> o.request.None?)
    && (o.result.Some? && !o.result.value.NeverStarted? ==> GoodResult(o))
  }

  predicate GoodResult(o: Op)
    requires o.result.Some?
  {
    && o.request.Some? && o.tries != []
    && (o.result.value == UploadDone(Committed) ==> TookEffect in o.tries)
    && (o.result.value.UploadDone? && o.result.value.outcome.DefinitelyNotCommitted? ==>
          |o.tries| == 1 && o.tries[0].Refused?)
    && (o.result.value == RemovalDone(Removed) ==> TookEffect in o.tries || Refused(ObjectMissing) in o.tries)
    && (o.result.value == RemovalDone(RemovalChanged) ==> o.tries[|o.tries| - 1].Refused?)
  }

  // The log is a chain from the initial body to the current one.
  predicate Chain(first: Option<Body>, log: seq<Write>, last: Option<Body>) {
    if log == [] then first == last
    else log[|log| - 1].after == last && Chain(first, log[..|log| - 1], log[|log| - 1].before)
  }

  predicate GoodWrite(c: Crypto, ops: map<nat, Op>, w: Write) {
    && w.op in ops
    && w.after == Written(ops[w.op].kind)
    && Expects(c, ops[w.op].kind, w.before)
  }

  function Writes(log: seq<Write>, id: nat): nat {
    if log == [] then 0
    else Writes(log[..|log| - 1], id) + if log[|log| - 1].op == id then 1 else 0
  }

  function Effects(tries: seq<Try>): nat {
    if tries == [] then 0
    else Effects(tries[..|tries| - 1]) + if tries[|tries| - 1] == TookEffect then 1 else 0
  }

  ghost predicate Inv(c: Crypto, first: Option<Body>, s: State) {
    && (s.remote.Some? ==> s.remote.value.etag in s.issued && s.issued[s.remote.value.etag] == s.remote.value.body)
    && (forall id :: id in s.ops ==> GoodOp(c, s.issued, s.ops[id]))
    && Chain(first, s.log, RemoteBody(s))
    && (forall i :: 0 <= i < |s.log| ==> GoodWrite(c, s.ops, s.log[i]))
    && (forall id :: id in s.ops ==> Writes(s.log, id) == Effects(s.ops[id].tries))
    && (forall id :: id !in s.ops ==> Writes(s.log, id) == 0)
  }
}
