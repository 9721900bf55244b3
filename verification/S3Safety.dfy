// Safety of the sync protocol over every run, and the runs that show its guards are needed.
module S3Safety {
  import opened Common
  import opened Identities
  import opened S3Provider
  import opened S3Protocol

  // ------------------------------------------------------------------ counting

  lemma {:induction false} EffectsUpdate(tries: seq<Try>, k: nat, t: Try)
    requires k < |tries|
    ensures Effects(tries[k := t]) ==
      Effects(tries) - (if tries[k] == TookEffect then 1 else 0) + (if t == TookEffect then 1 else 0)
  {
    var n := |tries| - 1;
    if k == n {
      assert tries[k := t][..n] == tries[..n];
    } else {
      assert tries[k := t][..n] == tries[..n][k := t];
      EffectsUpdate(tries[..n], k, t);
    }
  }

  lemma {:induction false} EffectsPositive(tries: seq<Try>)
    ensures Effects(tries) > 0 <==> TookEffect in tries
  {
    if tries != [] {
      EffectsPositive(tries[..|tries| - 1]);
      assert tries == tries[..|tries| - 1] + [tries[|tries| - 1]];
    }
  }

  lemma {:induction false} WritesPositive(log: seq<Write>, id: nat)
    ensures Writes(log, id) > 0 <==> exists i :: 0 <= i < |log| && log[i].op == id
  {
    if log != [] {
      var n := |log| - 1;
      WritesPositive(log[..n], id);
      if Writes(log[..n], id) > 0 {
        var i :| 0 <= i < n && log[..n][i].op == id;
        assert log[i].op == id;
      }
      if exists i :: 0 <= i < |log| && log[i].op == id {
        var i :| 0 <= i < |log| && log[i].op == id;
        assert i < n ==> log[..n][i].op == id;
      }
    }
  }

  // ------------------------------------------------------------------ one step

  lemma PrepareGivesGoodRequest(c: Crypto, s: State, kind: Kind, read: Read)
    requires TruthfulRead(read, s.remote)
    requires s.remote.Some? ==>
      s.remote.value.etag in s.issued && s.issued[s.remote.value.etag] == s.remote.value.body
    ensures GoodOp(c, s.issued, AfterPrepare(Op(kind, None, [], None), PrepareOp(c, kind, read)))
  {
  }

  // A step that changes one operation, but neither the store nor the log.
  lemma OpStep(c: Crypto, first: Option<Body>, s: State, id: nat, o: Op)
    requires Inv(c, first, s) && GoodOp(c, s.issued, o)
    requires id in s.ops ==> o.kind == s.ops[id].kind
    requires Effects(o.tries) == if id in s.ops then Effects(s.ops[id].tries) else 0
    ensures Inv(c, first, s.(ops := s.ops[id := o]))
  {
    hide GoodOp, Expects, Written, Chain;
    forall i | 0 <= i < |s.log| ensures GoodWrite(c, s.ops[id := o], s.log[i]) {
      assert GoodWrite(c, s.ops, s.log[i]);
    }
  }

  lemma GoodOpWhenIssuedGrows(c: Crypto, issued: map<string, Body>, more: map<string, Body>, o: Op)
    requires GoodOp(c, issued, o)
    requires forall e :: e in issued ==> e in more && more[e] == issued[e]
    ensures GoodOp(c, more, o)
  {
  }

  lemma EffectStep(c: Crypto, first: Option<Body>, s: State, id: nat, k: nat, etag: string)
    requires Inv(c, first, s) && EffectEnabled(s, id, k, etag)
    ensures Inv(c, first, ApplyEffect(s, id, k, etag))
  {
    var o := s.ops[id];
    var t := ApplyEffect(s, id, k, etag);
    var w := Write(id, RemoteBody(s), BodyAfter(o.request.value));
    InvParts(c, first, s, id);
    EffectMeetsExpectation(c, s, o);
    hide GoodOp, Expects, Written, ConditionHolds, Writes, Effects;
    EffectOnOps(c, first, s, id, k, t.issued, w);
    LogGrows(c, s.ops, t.ops, s.log, w);
    assert t.log[..|s.log|] == s.log;
  }

  lemma EffectOnOps(c: Crypto, first: Option<Body>, s: State, id: nat, k: nat, issued: map<string, Body>, w: Write)
    requires Inv(c, first, s) && id in s.ops && k < |s.ops[id].tries| && s.ops[id].tries[k] == InFlight && w.op == id
    requires forall e :: e in s.issued ==> e in issued && issued[e] == s.issued[e]
    ensures var ops := s.ops[id := s.ops[id].(tries := s.ops[id].tries[k := TookEffect])];
      && (forall i :: i in ops ==> GoodOp(c, issued, ops[i]) && Writes(s.log + [w], i) == Effects(ops[i].tries))
      && (forall i :: i !in ops ==> Writes(s.log + [w], i) == 0)
  {
    var o := s.ops[id];
    EffectsUpdate(o.tries, k, TookEffect);
    EffectKeepsResult(c, s.issued, o, k);
    hide GoodOp;
    assert (s.log + [w])[..|s.log|] == s.log;
    var ops := s.ops[id := o.(tries := o.tries[k := TookEffect])];
    forall i | i in ops ensures GoodOp(c, issued, ops[i]) {
      assert GoodOp(c, s.issued, s.ops[i]);
      GoodOpWhenIssuedGrows(c, s.issued, issued, ops[i]);
    }
  }

  lemma LogGrows(c: Crypto, ops: map<nat, Op>, more: map<nat, Op>, log: seq<Write>, w: Write)
    requires forall i :: 0 <= i < |log| ==> GoodWrite(c, ops, log[i])
    requires forall id :: id in ops ==> id in more && more[id].kind == ops[id].kind
    requires GoodWrite(c, ops, w)
    ensures forall i :: 0 <= i < |log + [w]| ==> GoodWrite(c, more, (log + [w])[i])
  {
    hide Expects, Written;
    forall i | 0 <= i < |log + [w]| ensures GoodWrite(c, more, (log + [w])[i]) {
      assert i < |log| ==> GoodWrite(c, ops, log[i]);
    }
  }

  // The condition of the request picks out the version whose identity was checked.
  lemma EffectMeetsExpectation(c: Crypto, s: State, o: Op)
    requires GoodOp(c, s.issued, o) && o.request.Some? && ConditionHolds(o.request.value, s.remote)
    requires s.remote.Some? ==>
      s.remote.value.etag in s.issued && s.issued[s.remote.value.etag] == s.remote.value.body
    ensures Expects(c, o.kind, RemoteBody(s)) && BodyAfter(o.request.value) == Written(o.kind)
  {
  }

  // An attempt that lands late cannot unsettle a result: a definite refusal leaves none open.
  lemma EffectKeepsResult(c: Crypto, issued: map<string, Body>, o: Op, k: nat)
    requires GoodOp(c, issued, o) && k < |o.tries| && o.tries[k] == InFlight
    ensures GoodOp(c, issued, o.(tries := o.tries[k := TookEffect]))
  {
    var tries := o.tries[k := TookEffect];
    forall t | t in o.tries && t != InFlight ensures t in tries {
      var i :| 0 <= i < |o.tries| && o.tries[i] == t;
      assert tries[i] == t;
    }
  }

  lemma RefuseKeepsResult(c: Crypto, issued: map<string, Body>, o: Op, k: nat, why: Refusal)
    requires GoodOp(c, issued, o) && k < |o.tries| && o.tries[k] == InFlight
    ensures GoodOp(c, issued, o.(tries := o.tries[k := Refused(why)]))
  {
    var tries := o.tries[k := Refused(why)];
    forall t | t in o.tries && t != InFlight ensures t in tries {
      var i :| 0 <= i < |o.tries| && o.tries[i] == t;
      assert tries[i] == t;
    }
  }

  lemma ReplyIsSound(c: Crypto, issued: map<string, Body>, o: Op, error: Option<ProviderError>)
    requires GoodOp(c, issued, o) && AwaitsReply(o)
    requires error.None? ==> o.tries[|o.tries| - 1] == TookEffect
    requires error.Some? ==> Honest(error.value, o.request.value, o.tries)
    ensures GoodOp(c, issued, AfterReply(o, error))
  {
  }

  lemma SubmitStep(c: Crypto, first: Option<Body>, s: State, l: Label)
    requires Inv(c, first, s) && l.Submit? && Enabled(c, s, l)
    ensures Inv(c, first, Apply(c, s, l))
  {
    hide Inv, GoodOp;
    NewOp(c, s.issued, l.kind);
    OpStep(c, first, s, l.id, Op(l.kind, None, [], None));
  }

  lemma PrepareStep(c: Crypto, first: Option<Body>, s: State, l: Label)
    requires Inv(c, first, s) && l.Prepare? && Enabled(c, s, l)
    ensures Inv(c, first, Apply(c, s, l))
  {
    hide Inv, GoodOp, PrepareOp, TruthfulRead;
    InvParts(c, first, s, l.id);
    PrepareGivesGoodRequest(c, s, s.ops[l.id].kind, l.read);
    assert s.ops[l.id] == Op(s.ops[l.id].kind, None, [], None);
    OpStep(c, first, s, l.id, AfterPrepare(s.ops[l.id], PrepareOp(c, s.ops[l.id].kind, l.read)));
  }

  lemma StartAgainStep(c: Crypto, first: Option<Body>, s: State, l: Label)
    requires Inv(c, first, s) && l.StartAgain? && Enabled(c, s, l)
    ensures Inv(c, first, Apply(c, s, l))
  {
    hide Inv;
    InvParts(c, first, s, l.id);
    hide GoodRequest;
    OpStep(c, first, s, l.again, s.ops[l.id].(tries := [], result := None));
  }

  lemma AttemptStep(c: Crypto, first: Option<Body>, s: State, l: Label)
    requires Inv(c, first, s) && (l.Start? || l.Refuse? || l.Retry?) && Enabled(c, s, l)
    ensures Inv(c, first, Apply(c, s, l))
  {
    hide Inv, GoodOp, MayRefuse;
    var o := s.ops[l.id];
    InvParts(c, first, s, l.id);
    if l.Start? {
      StartKeeps(c, s.issued, o);
      OpStep(c, first, s, l.id, o.(tries := [InFlight]));
    } else if l.Refuse? {
      RefuseKeepsResult(c, s.issued, o, l.attempt, l.why);
      EffectsUpdate(o.tries, l.attempt, Refused(l.why));
      OpStep(c, first, s, l.id, o.(tries := o.tries[l.attempt := Refused(l.why)]));
    } else {
      RetryKeeps(c, s.issued, o);
      assert (o.tries + [InFlight])[..|o.tries|] == o.tries;
      OpStep(c, first, s, l.id, o.(tries := o.tries + [InFlight]));
    }
  }

  lemma ReplyStep(c: Crypto, first: Option<Body>, s: State, l: Label)
    requires Inv(c, first, s) && (l.ReplyOk? || l.ReplyError?) && Enabled(c, s, l)
    ensures Inv(c, first, Apply(c, s, l))
  {
    hide Inv, GoodOp, Honest;
    var error := if l.ReplyOk? then None else Some(l.error);
    InvParts(c, first, s, l.id);
    ReplyIsSound(c, s.issued, s.ops[l.id], error);
    AfterReplyKeepsRest(s.ops[l.id], error);
    OpStep(c, first, s, l.id, AfterReply(s.ops[l.id], error));
    hide AfterReply;
  }

  lemma AfterReplyKeepsRest(o: Op, error: Option<ProviderError>)
    requires o.request.Some?
    ensures AfterReply(o, error).kind == o.kind && AfterReply(o, error).tries == o.tries
  {
  }

  lemma InvStep(c: Crypto, first: Option<Body>, s: State, l: Label)
    requires Inv(c, first, s) && Enabled(c, s, l)
    ensures Inv(c, first, Apply(c, s, l))
  {
    match l
    case Submit(_, _) => hide Inv, Apply, Enabled; SubmitStep(c, first, s, l);
    case Prepare(_, _) => hide Inv, Apply, Enabled; PrepareStep(c, first, s, l);
    case StartAgain(_, _) => hide Inv, Apply, Enabled; StartAgainStep(c, first, s, l);
    case Effect(id, k, etag) => hide Inv, EffectEnabled, ApplyEffect; EffectStep(c, first, s, id, k, etag);
    case ReplyOk(_) => hide Inv, Apply, Enabled; ReplyStep(c, first, s, l);
    case ReplyError(_, _) => hide Inv, Apply, Enabled; ReplyStep(c, first, s, l);
    case _ => hide Inv, Apply, Enabled; AttemptStep(c, first, s, l);
  }

  lemma InvParts(c: Crypto, first: Option<Body>, s: State, id: nat)
    requires Inv(c, first, s) && id in s.ops
    ensures GoodOp(c, s.issued, s.ops[id])
    ensures s.ops[id].request.None? ==> s.ops[id].tries == []
    ensures s.remote.Some? ==>
      s.remote.value.etag in s.issued && s.issued[s.remote.value.etag] == s.remote.value.body
  {
  }

  lemma NewOp(c: Crypto, issued: map<string, Body>, kind: Kind)
    ensures GoodOp(c, issued, Op(kind, None, [], None))
  {
  }

  lemma StartKeeps(c: Crypto, issued: map<string, Body>, o: Op)
    requires GoodOp(c, issued, o) && o.request.Some? && o.tries == [] && o.result.None?
    ensures GoodOp(c, issued, o.(tries := [InFlight]))
    ensures Effects([InFlight]) == 0
  {
    assert [InFlight][..0] == [];
  }

  lemma RetryKeeps(c: Crypto, issued: map<string, Body>, o: Op)
    requires GoodOp(c, issued, o) && AwaitsReply(o)
    ensures GoodOp(c, issued, o.(tries := o.tries + [InFlight]))
  {
  }

  lemma InitialInv(c: Crypto, s: State)
    requires Initial(s)
    ensures Inv(c, RemoteBody(s), s)
  {
  }

  lemma {:induction false} RunInv(c: Crypto, first: Option<Body>, s: State, labels: seq<Label>, t: State)
    requires Inv(c, first, s) && Run(c, s, labels, t)
    ensures Inv(c, first, t)
    decreases labels
  {
    if labels != [] {
      InvStep(c, first, s, labels[0]);
      RunInv(c, first, Apply(c, s, labels[0]), labels[1..], t);
    }
  }

  // ------------------------------------------------------------------ main results

  lemma {:induction false} ChainLinks(first: Option<Body>, log: seq<Write>, last: Option<Body>, i: nat)
    requires Chain(first, log, last) && i < |log|
    ensures log[i].before == if i == 0 then first else log[i - 1].after
    ensures log[|log| - 1].after == last
  {
    var n := |log| - 1;
    if i < n {
      ChainLinks(first, log[..n], log[n].before, i);
    } else if n > 0 {
      assert log[..n][n - 1] == log[n - 1];
    }
  }

  lemma InvGivesWrite(c: Crypto, first: Option<Body>, t: State, i: nat)
    requires Inv(c, first, t) && i < |t.log|
    ensures Chain(first, t.log, RemoteBody(t)) && GoodWrite(c, t.ops, t.log[i])
  {
  }

  lemma InvGivesOp(c: Crypto, first: Option<Body>, t: State, id: nat)
    requires Inv(c, first, t) && id in t.ops
    ensures GoodOp(c, t.issued, t.ops[id]) && Writes(t.log, id) == Effects(t.ops[id].tries)
  {
  }

  // No lost update: in every reachable state the effective writes form a chain from the first
  // remote body to the current one, and each write replaced what its operation expected: the
  // version with the expected descriptor and digest, or nothing.
  lemma NoLostUpdate(c: Crypto, s: State, labels: seq<Label>, t: State, i: nat)
    requires Initial(s) && Run(c, s, labels, t) && i < |t.log|
    ensures t.log[i].before == if i == 0 then RemoteBody(s) else t.log[i - 1].after
    ensures RemoteBody(t) == t.log[|t.log| - 1].after
    ensures t.log[i].op in t.ops
    ensures var kind := t.ops[t.log[i].op].kind;
      && t.log[i].after == Written(kind)
      && Expects(c, kind, t.log[i].before)
  {
    hide Run;
    InitialInv(c, s);
    RunInv(c, RemoteBody(s), s, labels, t);
    InvGivesWrite(c, RemoteBody(s), t, i);
    hide Inv, Initial, Expects, Written, RemoteBody;
    ChainLinks(RemoteBody(s), t.log, RemoteBody(t), i);
  }

  // Nothing written means nothing changed.
  lemma UnwrittenIsUnchanged(c: Crypto, s: State, labels: seq<Label>, t: State)
    requires Initial(s) && Run(c, s, labels, t) && t.log == []
    ensures RemoteBody(t) == RemoteBody(s)
  {
    InitialInv(c, s);
    RunInv(c, RemoteBody(s), s, labels, t);
  }

  lemma {:induction false} ResultsAreFinal(c: Crypto, s: State, labels: seq<Label>, t: State, id: nat)
    requires Run(c, s, labels, t) && id in s.ops && s.ops[id].result.Some?
    ensures id in t.ops && t.ops[id].result == s.ops[id].result && |t.ops[id].tries| == |s.ops[id].tries|
    ensures t.ops[id].request == s.ops[id].request
    decreases labels
  {
    if labels != [] {
      ResultsAreFinal(c, Apply(c, s, labels[0]), labels[1..], t, id);
    }
  }

  // Outcome soundness: a committed upload wrote; an upload that is definitely not committed or
  // was not started never writes, however long the run goes on and however late its requests
  // arrive; a removal that succeeded deleted, or found the object missing.
  lemma OutcomesAreSound(c: Crypto, s: State, l1: seq<Label>, m: State, l2: seq<Label>, t: State, id: nat)
    requires Initial(s) && Run(c, s, l1, m) && Run(c, m, l2, t) && id in m.ops && m.ops[id].result.Some?
    ensures m.ops[id].result.value == UploadDone(Committed) ==>
      exists i :: 0 <= i < |m.log| && m.log[i].op == id
    ensures m.ops[id].result.value.UploadDone? && m.ops[id].result.value.outcome.DefinitelyNotCommitted? ==>
      forall i :: 0 <= i < |t.log| ==> t.log[i].op != id
    ensures m.ops[id].result.value.NeverStarted? ==> forall i :: 0 <= i < |t.log| ==> t.log[i].op != id
    ensures m.ops[id].result.value == RemovalDone(Removed) ==>
      (exists i :: 0 <= i < |m.log| && m.log[i].op == id) || Refused(ObjectMissing) in m.ops[id].tries
    ensures m.ops[id].result.value == RemovalDone(RemovalChanged) && |m.ops[id].tries| == 1 ==>
      forall i :: 0 <= i < |t.log| ==> t.log[i].op != id
  {
    var first := RemoteBody(s);
    InitialInv(c, s);
    RunInv(c, first, s, l1, m);
    RunInv(c, first, m, l2, t);
    ResultsAreFinal(c, m, l2, t, id);
    InvGivesOp(c, first, m, id);
    InvGivesOp(c, first, t, id);
    hide Inv, Run, Initial, GoodRequest, Writes, Effects;
    EffectsPositive(m.ops[id].tries);
    EffectsPositive(t.ops[id].tries);
    WritesPositive(m.log, id);
    WritesPositive(t.log, id);
  }

  // ------------------------------------------------------------------ why the guards are there

  lemma {:induction false} RunAppend(c: Crypto, s: State, labels: seq<Label>, t: State, l: Label)
    requires Run(c, s, labels, t) && Enabled(c, t, l)
    ensures Run(c, s, labels + [l], Apply(c, t, l))
    decreases labels
  {
    if labels == [] {
      assert ([l])[1..] == [];
    } else {
      RunAppend(c, Apply(c, s, labels[0]), labels[1..], t, l);
      assert (labels + [l])[1..] == labels[1..] + [l];
    }
  }

  const EMPTY: State := State(None, map[], map[], [])

  function Failure412(attempts: int): ProviderError {
    ErrorObject(Some(attempts), Some(412), Text("PreconditionFailed"), Missing, Missing)
  }

  // An upload whose first attempt took effect, with a reply still awaited for its n-th attempt.
  lemma {:induction false} EffectThenRetries(c: Crypto, snap: Snapshot, n: nat)
    returns (labels: seq<Label>, t: State)
    requires n >= 1
    ensures Run(c, EMPTY, labels, t) && 0 in t.ops && AwaitsReply(t.ops[0])
    ensures t.ops[0].request == Some(Put(EncodeRecord(snap), None)) && t.remote.Some?
    ensures |t.ops[0].tries| == n && t.ops[0].tries[0] == TookEffect
    ensures n > 1 ==> t.ops[0].tries[n - 1] == InFlight
  {
    if n == 1 {
      var s1 := Apply(c, EMPTY, Submit(0, Upload(snap, None)));
      RunAppend(c, EMPTY, [], EMPTY, Submit(0, Upload(snap, None)));
      var s2 := Apply(c, s1, Prepare(0, ReadFailed(OtherReadFailure)));
      RunAppend(c, EMPTY, [Submit(0, Upload(snap, None))], s1, Prepare(0, ReadFailed(OtherReadFailure)));
      labels := [Submit(0, Upload(snap, None))] + [Prepare(0, ReadFailed(OtherReadFailure))];
      var s3 := Apply(c, s2, Start(0));
      RunAppend(c, EMPTY, labels, s2, Start(0));
      RunAppend(c, EMPTY, labels + [Start(0)], s3, Effect(0, 0, "tag"));
      labels := labels + [Start(0)] + [Effect(0, 0, "tag")];
      t := Apply(c, s3, Effect(0, 0, "tag"));
    } else {
      var shorter, u := EffectThenRetries(c, snap, n - 1);
      RunAppend(c, EMPTY, shorter, u, Retry(0));
      labels, t := shorter + [Retry(0)], Apply(c, u, Retry(0));
    }
  }

  lemma RefusalIsHonest(c: Crypto, u: State, snap: Snapshot, n: nat)
    requires n >= 2 && 0 in u.ops && AwaitsReply(u.ops[0]) && u.remote.Some?
    requires u.ops[0].request == Some(Put(EncodeRecord(snap), None))
    requires |u.ops[0].tries| == n && u.ops[0].tries[0] == TookEffect && u.ops[0].tries[n - 1] == InFlight
    ensures Enabled(c, u, Refuse(0, n - 1, PreconditionFailed))
    ensures var t := Apply(c, u, Refuse(0, n - 1, PreconditionFailed));
      && 0 in t.ops && AwaitsReply(t.ops[0]) && |t.ops[0].tries| == n && t.ops[0].tries[0] == TookEffect
      && Honest(Failure412(n), t.ops[0].request.value, t.ops[0].tries)
    ensures ReportsCondition(Failure412(n), false)
  {
    hide EncodeRecord;
  }

  // For every count other than one there is a run in which the upload took effect and yet the
  // honest final error reports a failed precondition: without the guard on the attempt count
  // it would be called definitely not committed.
  lemma AttemptGuardIsNeeded(c: Crypto, snap: Snapshot, n: nat) returns (labels: seq<Label>, t: State)
    requires n >= 2
    ensures Run(c, EMPTY, labels, t) && 0 in t.ops && AwaitsReply(t.ops[0]) && |t.ops[0].tries| == n
    ensures Honest(Failure412(n), t.ops[0].request.value, t.ops[0].tries)
    ensures ReportsCondition(Failure412(n), false)
    ensures exists i :: 0 <= i < |t.log| && t.log[i].op == 0
  {
    var shorter, u := EffectThenRetries(c, snap, n);
    RefusalIsHonest(c, u, snap, n);
    InitialInv(c, EMPTY);
    hide Inv, Run, Writes, Effects, GoodOp, Enabled, Apply, Honest, ReportsCondition, Failure412;
    labels, t := Then(c, EMPTY, shorter, u, Refuse(0, n - 1, PreconditionFailed));
    RunInv(c, None, EMPTY, labels, t);
    InvGivesOp(c, None, t, 0);
    EffectsPositive(t.ops[0].tries);
    WritesPositive(t.log, 0);
  }

  // A removal is different: "changed" is reported whatever the attempt count.
  ghost predicate ChangedMeansKept(c: Crypto, n: nat) {
    forall s, l1, m, l2, t, id ::
      Initial(s) && Run(c, s, l1, m) && Run(c, m, l2, t) && id in m.ops && |m.ops[id].tries| == n
      && m.ops[id].result == Some(RemovalDone(RemovalChanged)) ==>
        forall i :: 0 <= i < |t.log| ==> t.log[i].op != id
  }

  // "Changed" is reliable exactly for removals that were sent once.
  lemma ChangedIsReliableOnlyOnce(c: Crypto, s: State, first: Snapshot, second: Snapshot, n: nat)
    requires c.keysValid(first) && HoldsOnly(s, first) && n >= 1
    ensures ChangedMeansKept(c, n) <==> n == 1
  {
    if n == 1 {
      forall s, l1, m, l2, t, id |
        Initial(s) && Run(c, s, l1, m) && Run(c, m, l2, t) && id in m.ops && |m.ops[id].tries| == n
        && m.ops[id].result == Some(RemovalDone(RemovalChanged))
        ensures forall i :: 0 <= i < |t.log| ==> t.log[i].op != id
      {
        hide Run, Initial;
        OutcomesAreSound(c, s, l1, m, l2, t, id);
      }
    } else {
      var labels, t := ChangedRemovalMayHaveDeleted(c, s, first, second, n);
      assert Run(c, t, [], t);
      assert t.log[0].op == 0;
      hide Run, Initial;
    }
  }

  // The store holds that snapshot and nothing has happened yet.
  predicate HoldsOnly(s: State, snap: Snapshot) {
    Initial(s) && s.remote.Some? && |s.remote.value.etag| > 0 && s.remote.value.body == EncodeRecord(snap)
  }

  // For every valid snapshot that the store holds, whatever its tag, and every attempt count from
  // two on: the first attempt deletes the object, its reply is lost, another device uploads anew,
  // the last attempt is refused, and the removal reports a change although it did delete.
  lemma ChangedRemovalMayHaveDeleted(c: Crypto, s: State, first: Snapshot, second: Snapshot, n: nat)
    returns (labels: seq<Label>, t: State)
    requires c.keysValid(first) && HoldsOnly(s, first) && n >= 2
    ensures Run(c, s, labels, t) && 0 in t.ops && |t.ops[0].tries| == n
    ensures t.ops[0].result == Some(RemovalDone(RemovalChanged))
    ensures |t.log| > 0 && t.log[0].op == 0 && t.log[0].before == RemoteBody(s) && t.log[0].after == None
  {
    hide Run, EncodeRecord, HoldsOnly, PrepareOp;
    labels, t := DeleteThenRetry(c, s, first);
    labels, t := UploadMeanwhile(c, s, labels, t, second);
    labels, t := RetryUpTo(c, s, labels, t, n);
    RemovalRefusal(c, t, n);
    hide Enabled, Apply;
    labels, t := Then(c, s, labels, t, Refuse(0, n - 1, PreconditionFailed));
    labels, t := Then(c, s, labels, t, ReplyError(0, Failure412(n)));
  }

  // What the refusal of the last attempt leads to.
  lemma RemovalRefusal(c: Crypto, u: State, n: nat)
    requires n >= 2 && 0 in u.ops && |u.ops[0].tries| == n && u.ops[0].tries[n - 1] == InFlight && u.ops[0].result == None
    requires u.ops[0].request.Some? && u.ops[0].request.value.Delete?
    requires u.remote.Some? && u.remote.value.etag != u.ops[0].request.value.etag
    ensures Enabled(c, u, Refuse(0, n - 1, PreconditionFailed))
    ensures var v := Apply(c, u, Refuse(0, n - 1, PreconditionFailed));
      && Enabled(c, v, ReplyError(0, Failure412(n)))
      && var t := Apply(c, v, ReplyError(0, Failure412(n)));
         0 in t.ops && |t.ops[0].tries| == n && t.ops[0].result == Some(RemovalDone(RemovalChanged)) && t.log == u.log
  {
  }

  lemma {:induction false} RetryUpTo(c: Crypto, s: State, before: seq<Label>, u: State, n: nat)
    returns (labels: seq<Label>, t: State)
    requires Run(c, s, before, u) && 0 in u.ops && AwaitsReply(u.ops[0]) && 2 <= |u.ops[0].tries| <= n
    requires u.ops[0].tries[|u.ops[0].tries| - 1] == InFlight
    ensures Run(c, s, labels, t) && 0 in t.ops && |t.ops[0].tries| == n && t.ops[0].tries[n - 1] == InFlight
    ensures t.ops[0].request == u.ops[0].request && t.ops[0].result == None && t.remote == u.remote && t.log == u.log
    decreases n - |u.ops[0].tries|
  {
    hide Run;
    labels, t := before, u;
    if |u.ops[0].tries| < n {
      labels, t := Then(c, s, before, u, Retry(0));
      labels, t := RetryUpTo(c, s, labels, t, n);
    }
  }

  // The removal reads the object it expects and prepares a conditional delete.
  lemma RemovalIsPrepared(c: Crypto, s: State, snap: Snapshot) returns (labels: seq<Label>, t: State)
    requires c.keysValid(snap) && HoldsOnly(s, snap)
    ensures Run(c, s, labels, t)
    ensures exists kind :: t == s.(ops := map[0 := Op(kind, Some(Delete(s.remote.value.etag)), [], None)])
  {
    var id := Identity(ToDescriptor(snap.vaultId, snap), c.digest(snap));
    var read := Got(Some(EncodeRecord(snap)), Some(s.remote.value.etag));
    var kind := Removal(snap.vaultId, Some(id));
    assert PrepareOp(c, kind, read) == Ready(Delete(s.remote.value.etag));
    assert Run(c, s, [], s);
    hide Run, PrepareOp, EncodeRecord, ToDescriptor;
    labels, t := Then(c, s, [], s, Submit(0, kind));
    labels, t := Then(c, s, labels, t, Prepare(0, read));
    assert t == s.(ops := map[0 := Op(kind, Some(Delete(s.remote.value.etag)), [], None)]);
  }

  lemma DeleteThenRetry(c: Crypto, s: State, snap: Snapshot) returns (labels: seq<Label>, t: State)
    requires c.keysValid(snap) && HoldsOnly(s, snap)
    ensures Run(c, s, labels, t)
    ensures t.remote == None && t.ops.Keys == {0} && t.issued == s.issued && t.issued.Keys == {s.remote.value.etag}
    ensures t.ops[0].request == Some(Delete(s.remote.value.etag))
    ensures t.ops[0].tries == [TookEffect, InFlight] && t.ops[0].result == None
    ensures t.log == [Write(0, RemoteBody(s), None)]
  {
    hide Run, EncodeRecord, PrepareOp;
    labels, t := RemovalIsPrepared(c, s, snap);
    labels, t := Then(c, s, labels, t, Start(0));
    labels, t := Then(c, s, labels, t, Effect(0, 0, ""));
    labels, t := Then(c, s, labels, t, Retry(0));
  }

  lemma UploadMeanwhile(c: Crypto, s: State, before: seq<Label>, u: State, snap: Snapshot)
    returns (labels: seq<Label>, t: State)
    requires Run(c, s, before, u) && u.remote == None && u.ops.Keys == {0} && |u.issued.Keys| == 1 && |u.log| == 1
    ensures Run(c, s, labels, t) && t.ops.Keys == {0, 1} && t.ops[0] == u.ops[0]
    ensures t.remote.Some? && t.remote.value.etag !in u.issued && |t.log| == 2 && t.log[0] == u.log[0]
  {
    var taken :| taken in u.issued;
    assert u.issued.Keys == {taken} by { OnlyOne(u.issued.Keys, taken); }
    var tag := taken + "b";
    assert |tag| == |taken| + 1;
    hide Run, EncodeRecord;
    labels, t := before, u;
    labels, t := Then(c, s, labels, t, Submit(1, Upload(snap, None)));
    labels, t := Then(c, s, labels, t, Prepare(1, ReadFailed(OtherReadFailure)));
    labels, t := Then(c, s, labels, t, Start(1));
    labels, t := Then(c, s, labels, t, Effect(1, 0, tag));
  }

  lemma OnlyOne<T>(a: set<T>, x: T)
    requires |a| == 1 && x in a
    ensures a == {x}
  {
    assert |a - {x}| == 0;
  }

  lemma Then(c: Crypto, s: State, before: seq<Label>, u: State, l: Label) returns (labels: seq<Label>, t: State)
    requires Run(c, s, before, u) && Enabled(c, u, l)
    ensures Run(c, s, labels, t) && labels == before + [l] && t == Apply(c, u, l)
  {
    RunAppend(c, s, before, u, l);
    labels, t := before + [l], Apply(c, u, l);
  }
}
