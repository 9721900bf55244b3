// What every run of the setup protocol keeps: a completed receipt always speaks of the words that
// protect the vault now.
module SetupSafety {
  import opened Common
  import opened Texts
  import opened ChallengePositions
  import opened SetupProtocol

  // ------------------------------------------------------------------ the invariant

  // A completed vault was last verified with the words that protect it now.
  ghost predicate CompleteIsVerified(s: State) {
    forall v :: v in s.words && Stored(s, v).complete ==> v in s.verified && s.verified[v] == s.words[v]
  }

  // The recovery session of a document matches the stored receipt only while it holds the words
  // that protect the vault now. (An enrolling document sets its token before its session.)
  ghost predicate MatchingIsCurrent(s: State) {
    forall d :: d in s.docs && s.docs[d].recovery.Some? ==>
      var r := s.docs[d].recovery.value;
      r.vault in s.words && s.docs[d].token == Stored(s, r.vault).token ==>
        r.words == s.words[r.vault] || Activates(s, d)
  }

  predicate Activates(s: State, d: nat) {
    s.lock.Some? && s.lock.value.holder == d && s.lock.value.phase.Activating?
  }

  predicate IssuedToken(s: State, token: string) {
    token == "" || token in s.issued
  }

  ghost predicate TokensAreIssued(s: State) {
    && "" !in s.issued
    && (forall d :: d in s.docs ==> IssuedToken(s, s.docs[d].token))
    && (forall d :: d in s.docs && s.docs[d].recovery.Some? ==> s.docs[d].token != "")
    && (forall v :: v in s.prefs ==> IssuedToken(s, s.prefs[v].token))
  }

  ghost predicate VaultsAreKnown(s: State) {
    && s.words.Keys <= s.known && s.prefs.Keys <= s.known
    && forall d :: d in s.docs && s.docs[d].recovery.Some? ==> s.docs[d].recovery.value.vault in s.known
  }

  // No other document holds the receipt.
  ghost predicate Own(s: State, doc: nat, receipt: string) {
    receipt in s.issued && forall e :: e in s.docs && e != doc ==> s.docs[e].token != receipt
  }

  // Settings that may be written back while the words have not changed.
  ghost predicate Restorable(s: State, doc: nat, v: string, settings: Preference) {
    && v in s.words && IssuedToken(s, settings.token)
    && (settings.complete ==> v in s.verified && s.verified[v] == s.words[v])
    && forall e :: e in s.docs && e != doc && s.docs[e].recovery.Some? ==>
         s.docs[e].recovery.value.vault == v && s.docs[e].token == settings.token ==>
           s.docs[e].recovery.value.words == s.words[v]
  }

  ghost predicate NoSession(s: State, v: string) {
    forall d :: d in s.docs && s.docs[d].recovery.Some? ==> s.docs[d].recovery.value.vault != v
  }

  // The stored record is an unfinished one with this receipt.
  predicate Unfinished(p: Preference, receipt: string) {
    !p.complete && p.token == receipt
  }

  ghost predicate PhaseHolds(s: State, doc: nat, phase: Phase)
    requires doc in s.docs
  {
    match phase
    case Staging(kind, v, settings, receipt) =>
      s.docs[doc].recovery.None? && Own(s, doc, receipt) && v in s.words && settings == Stored(s, v)
    case Changing(kind, v, settings, receipt) =>
      && s.docs[doc].recovery.None? && Own(s, doc, receipt) && Restorable(s, doc, v, settings)
      && Unfinished(Stored(s, v), receipt)
    case Restoring(v, settings) => s.docs[doc].recovery.None? && Restorable(s, doc, v, settings)
    case Activating(v, words, receipt, unlocks) =>
      receipt in s.issued && v in s.words && s.words[v] == words && (unlocks ==> s.docs[doc].recovery.None?)
    case Reading(current) => Passed(s, current)
    case Rechecking(current, settings) => Passed(s, current) && settings == Stored(s, current.vault)
    case Completing(current, settings) => Passed(s, current) && settings == Stored(s, current.vault)
    case Saving(v, settings) =>
      v in s.words && settings.complete == Stored(s, v).complete && settings.token == Stored(s, v).token
    case Cleaning(v) => v !in s.words
    case EnrollStaging(v, settings, receipt) =>
      v !in s.words && v in s.known && Own(s, doc, receipt) && Unfinished(settings, receipt)
    case Enrolling(v, receipt) =>
      v !in s.words && v in s.known && Own(s, doc, receipt) && Unfinished(Stored(s, v), receipt)
    case CreateInspecting(v, words, duration, deviceName) =>
      v in s.words && s.words[v] == words && NoSession(s, v)
    case CreateStaging(v, words, settings, receipt) =>
      && v in s.words && s.words[v] == words && NoSession(s, v)
      && receipt in s.issued && Unfinished(settings, receipt)
  }

  ghost predicate Passed(s: State, current: Recovery) {
    var v := current.vault;
    v in s.words && s.words[v] == current.words && v in s.verified && s.verified[v] == current.words
  }

  ghost predicate LockHolds(s: State) {
    s.lock.Some? ==> s.lock.value.holder in s.docs && PhaseHolds(s, s.lock.value.holder, s.lock.value.phase)
  }

  ghost predicate Inv(s: State) {
    CompleteIsVerified(s) && MatchingIsCurrent(s) && TokensAreIssued(s) && VaultsAreKnown(s) && LockHolds(s)
  }

  // ------------------------------------------------------------------ steps outside the lock

  lemma InitialHolds()
    ensures Inv(INITIAL)
  {
  }

  lemma SameStored(s: State, t: State)
    requires s.prefs == t.prefs
    ensures forall v :: Stored(s, v) == Stored(t, v)
  {
  }

  // Documents may have lost their recovery session; nothing else differs.
  ghost predicate Forgets(s: State, t: State) {
    && t.prefs == s.prefs && t.words == s.words && t.verified == s.verified && t.issued == s.issued && t.known == s.known
    && forall d :: d in t.docs ==> t.docs[d] == CLEARED || (d in s.docs && t.docs[d] == s.docs[d])
  }

  lemma ForgettingKeepsOwn(s: State, t: State, doc: nat, receipt: string, v: string, settings: Preference)
    requires Forgets(s, t) && TokensAreIssued(s)
    ensures Own(s, doc, receipt) ==> Own(t, doc, receipt)
    ensures Restorable(s, doc, v, settings) ==> Restorable(t, doc, v, settings)
    ensures NoSession(s, v) ==> NoSession(t, v)
  {
  }

  lemma ForgettingKeepsPhase(s: State, t: State, doc: nat, phase: Phase)
    requires Forgets(s, t) && TokensAreIssued(s) && doc in s.docs && doc in t.docs && PhaseHolds(s, doc, phase)
    ensures PhaseHolds(t, doc, phase)
  {
    SameStored(s, t);
    forall receipt, v, settings
      ensures Own(s, doc, receipt) ==> Own(t, doc, receipt)
      ensures Restorable(s, doc, v, settings) ==> Restorable(t, doc, v, settings)
      ensures NoSession(s, v) ==> NoSession(t, v)
    {
      ForgettingKeepsOwn(s, t, doc, receipt, v, settings);
    }
    hide Stored, Own, Restorable, NoSession, TokensAreIssued;
  }

  lemma ForgettingHolds(s: State, t: State)
    requires Inv(s) && Forgets(s, t) && (t.lock.None? || (t.lock == s.lock && t.lock.value.holder in t.docs))
    requires t.lock.None? && s.lock.Some? ==> s.lock.value.holder !in t.docs
    ensures Inv(t)
  {
    SameStored(s, t);
    if t.lock.Some? { ForgettingKeepsPhase(s, t, t.lock.value.holder, t.lock.value.phase); }
    hide PhaseHolds, Stored;
  }

  // A document opens, or its recovery session is cleared.
  lemma ClearHolds(s: State, doc: nat)
    requires Inv(s)
    ensures Inv(SetDoc(s, doc, CLEARED))
  {
    assert LockHolds(s);
    hide PhaseHolds;
    ForgettingHolds(s, SetDoc(s, doc, CLEARED)) by { hide CompleteIsVerified, MatchingIsCurrent, TokensAreIssued; }
    hide Inv;
  }

  lemma CrashHolds(s: State, doc: nat)
    requires Inv(s)
    ensures Inv(Apply(s, Crash(doc)))
  {
    assert LockHolds(s);
    hide PhaseHolds;
    ForgettingHolds(s, Apply(s, Crash(doc))) by { hide CompleteIsVerified, MatchingIsCurrent, TokensAreIssued; }
    hide Inv;
  }

  // ------------------------------------------------------------------ operations begin

  lemma StageHolds(s: State, doc: nat, kind: Kind, v: string, receipt: string)
    requires Inv(s) && doc in s.docs && s.lock.None? && v in s.words && Fresh(s, receipt)
    ensures Inv(StageReceipt(s, doc, kind, v, receipt))
  {
  }

  lemma RecoverBegins(s: State, doc: nat, op: Operation)
    requires Inv(s) && doc in s.docs && s.lock.None? && FreshOp(s, op) && (op.DoRecover? || op.DoReplace?)
    ensures Inv(BeginOp(s, doc, op))
  {
    ClearHolds(s, doc);
    var c := SetDoc(s, doc, CLEARED);
    if op.vault in s.words { StageHolds(c, doc, if op.DoRecover? then Recover else Replace, op.vault, op.receipt); }
    hide Inv;
  }

  lemma VerifyBegins(s: State, doc: nat, op: Operation)
    requires Inv(s) && doc in s.docs && s.lock.None? && op.DoVerify?
    ensures Inv(BeginOp(s, doc, op))
  {
    ClearHolds(s, doc);
    hide Answered;
  }

  lemma OtherBegins(s: State, doc: nat, op: Operation)
    requires Inv(s) && doc in s.docs && s.lock.None? && (op.DoSaveDuration? || op.DoSaveDevice? || op.DoRemove?)
    ensures Inv(BeginOp(s, doc, op))
  {
    hide ValidDevice, Trim;
  }

  // An enrolling document keeps its recovery session, but with a token that no record holds.
  lemma TokenHolds(s: State, doc: nat, receipt: string)
    requires Inv(s) && doc in s.docs && s.lock.None? && Fresh(s, receipt)
    ensures Inv(SetDoc(Issue(s, receipt), doc, s.docs[doc].(token := receipt)))
    ensures Own(SetDoc(Issue(s, receipt), doc, s.docs[doc].(token := receipt)), doc, receipt)
  {
    var t := SetDoc(Issue(s, receipt), doc, s.docs[doc].(token := receipt));
    SameStored(s, t);
    assert forall v :: Stored(s, v).token != receipt;
    hide PhaseHolds, Stored;
  }

  lemma EnrollBegins(s: State, doc: nat, op: Operation)
    requires Inv(s) && doc in s.docs && s.lock.None? && FreshOp(s, op) && op.DoEnroll?
    ensures Inv(BeginOp(s, doc, op))
  {
    hide ValidDevice, Trim;
    TokenHolds(s, doc, op.receipt);
    var t := SetDoc(Issue(s, op.receipt), doc, s.docs[doc].(token := op.receipt));
    if BeginOp(s, doc, op).lock.Some? {
      LockSet(t, doc, op.vault, BeginOp(s, doc, op).lock.value.phase);
    }
  }

  // Taking the lock and knowing a vault id disturb nothing else.
  lemma LockSet(s: State, doc: nat, vault: string, phase: Phase)
    requires Inv(s) && s.lock.None? && doc in s.docs
    requires PhaseHolds(SetPhase(s.(known := s.known + {vault}), doc, phase), doc, phase)
    ensures Inv(SetPhase(s.(known := s.known + {vault}), doc, phase))
  {
    SameStored(s, SetPhase(s.(known := s.known + {vault}), doc, phase));
    hide PhaseHolds, Stored;
  }

  lemma CreateBegins(s: State, doc: nat, op: Operation)
    requires Inv(s) && doc in s.docs && s.lock.None? && FreshOp(s, op) && op.DoCreate?
    ensures Inv(BeginOp(s, doc, op))
  {
    hide ValidDevice, Trim;
  }

  lemma BeginHolds(s: State, doc: nat, op: Operation)
    requires Inv(s) && doc in s.docs && s.lock.None? && FreshOp(s, op)
    ensures Inv(BeginOp(s, doc, op))
  {
    hide Inv, BeginOp, FreshOp;
    match op
    case DoRecover(_, _, _) => RecoverBegins(s, doc, op);
    case DoReplace(_, _, _, _) => RecoverBegins(s, doc, op);
    case DoVerify(_, _) => VerifyBegins(s, doc, op);
    case DoEnroll(_, _, _, _) => EnrollBegins(s, doc, op);
    case DoCreate(_, _, _, _) => CreateBegins(s, doc, op);
    case _ => OtherBegins(s, doc, op);
  }

  // ------------------------------------------------------------------ the parts of a step

  ghost predicate MatchingIsStrict(s: State) {
    forall d :: d in s.docs && s.docs[d].recovery.Some? ==>
      var r := s.docs[d].recovery.value;
      r.vault in s.words && s.docs[d].token == Stored(s, r.vault).token ==> r.words == s.words[r.vault]
  }

  // The invariant without the lock.
  ghost predicate Quiet(s: State) {
    CompleteIsVerified(s) && MatchingIsStrict(s) && TokensAreIssued(s) && VaultsAreKnown(s)
  }

  ghost predicate Held(s: State, doc: nat, phase: Phase) {
    Inv(s) && s.lock == Some(Lock(doc, phase)) && doc in s.docs
  }

  lemma HeldIsQuiet(s: State, doc: nat, phase: Phase)
    requires Held(s, doc, phase)
    ensures PhaseHolds(s, doc, phase)
    ensures !phase.Activating? ==> Quiet(s)
  {
    hide PhaseHolds, Stored;
  }

  lemma Releases(s: State)
    requires Quiet(s)
    ensures Inv(Release(s))
  {
    SameStored(s, Release(s));
    hide Stored;
  }

  lemma Proceeds(s: State, doc: nat, phase: Phase)
    requires Quiet(s) && doc in s.docs && PhaseHolds(s, doc, phase)
    ensures Inv(SetPhase(s, doc, phase))
  {
    SameStored(s, SetPhase(s, doc, phase));
    SamePhase(s, doc, phase);
    hide Stored, PhaseHolds;
  }

  lemma SamePhase(s: State, doc: nat, phase: Phase)
    requires doc in s.docs && PhaseHolds(s, doc, phase)
    ensures PhaseHolds(SetPhase(s, doc, phase), doc, phase)
  {
    SameStored(s, SetPhase(s, doc, phase));
    hide Stored;
  }

  // What a written record must not break.
  ghost predicate MayWrite(s: State, v: string, p: Preference) {
    && v in s.known && IssuedToken(s, p.token)
    && (v in s.words && p.complete ==> v in s.verified && s.verified[v] == s.words[v])
    && (v in s.words ==> forall d :: d in s.docs && s.docs[d].recovery.Some? ==>
          var r := s.docs[d].recovery.value; r.vault == v && s.docs[d].token == p.token ==> r.words == s.words[v])
  }

  lemma Written(s: State, v: string, p: Preference)
    ensures var t := Write(s, v, p);
      && Stored(t, v).complete == p.complete && Stored(t, v).token == p.token
      && forall w :: w != v ==> Stored(t, w) == Stored(s, w)
  {
  }

  lemma SettleIsQuiet(s: State, v: string, p: Preference, reply: Reply)
    requires Quiet(s) && MayWrite(s, v, p)
    ensures Quiet(Settle(s, v, p, reply))
  {
    Written(s, v, p);
    hide Stored;
  }

  lemma ClearedIsQuiet(s: State, doc: nat)
    requires Quiet(s)
    ensures Quiet(SetDoc(s, doc, CLEARED))
  {
    SameStored(s, SetDoc(s, doc, CLEARED));
    hide Stored;
  }

  lemma TokenIsQuiet(s: State, doc: nat, receipt: string)
    requires Quiet(s) && doc in s.docs && Fresh(s, receipt)
    ensures Quiet(SetDoc(Issue(s, receipt), doc, s.docs[doc].(token := receipt)))
  {
    SameStored(s, SetDoc(Issue(s, receipt), doc, s.docs[doc].(token := receipt)));
    assert forall v :: Stored(s, v).token != receipt;
    hide Stored;
  }

  lemma PassedMayWrite(s: State, current: Recovery)
    requires Quiet(s) && Passed(s, current)
    ensures MayWrite(s, current.vault, Stored(s, current.vault).(complete := true))
  {
  }

  lemma RestoreToken(s: State, doc: nat, v: string, settings: Preference)
    requires Quiet(s) && doc in s.docs && s.docs[doc].recovery.None? && Restorable(s, doc, v, settings)
    ensures Inv(SetPhase(SetToken(s, doc, settings.token), doc, Restoring(v, settings)))
  {
    var t := SetToken(s, doc, settings.token);
    SameStored(s, t);
    assert Quiet(t) && Restorable(t, doc, v, settings) by { hide Stored; }
    hide Quiet, Restorable;
    Proceeds(t, doc, Restoring(v, settings));
  }

  // ------------------------------------------------------------------ operations go on

  lemma OwnMayWrite(s: State, doc: nat, v: string, p: Preference)
    requires TokensAreIssued(s) && v in s.known && Own(s, doc, p.token) && !p.complete && doc in s.docs
    requires s.docs[doc].recovery.None? || v !in s.words
    ensures MayWrite(s, v, p)
  {
  }

  lemma QuietRestorable(s: State, doc: nat, v: string)
    requires Quiet(s) && v in s.words
    ensures Restorable(s, doc, v, Stored(s, v))
  {
  }

  lemma StagingGoesOn(s: State, doc: nat, phase: Phase, reply: Reply)
    requires Held(s, doc, phase) && phase.Staging? && Ends(reply)
    ensures Inv(ResumeOp(s, doc, phase, reply))
  {
    HeldIsQuiet(s, doc, phase);
    var v, p := phase.vault, phase.settings.(complete := false, token := phase.receipt);
    assert Own(s, doc, p.token) && v in s.known;
    OwnMayWrite(s, doc, v, p);
    QuietRestorable(s, doc, v);
    SettleIsQuiet(s, v, p, reply);
    Written(s, v, p);
    var t := Settle(s, v, p, reply);
    assert Restorable(t, doc, v, phase.settings) by { hide Stored; }
    if reply.Done? {
      assert PhaseHolds(t, doc, Changing(phase.kind, v, phase.settings, phase.receipt)) by { hide Stored, Restorable; }
      hide Inv, PhaseHolds, Quiet, Stored, Restorable;
      Proceeds(t, doc, Changing(phase.kind, v, phase.settings, phase.receipt));
    } else if phase.kind == Recover {
      hide Inv, PhaseHolds, Quiet, Stored, Restorable;
      RestoreToken(t, doc, v, phase.settings);
    } else {
      hide Inv, PhaseHolds, Quiet, Stored, Restorable;
      Releases(t);
    }
  }

  lemma ChangingGoesOn(s: State, doc: nat, phase: Phase, reply: Reply)
    requires Held(s, doc, phase) && phase.Changing? && Honest(Resume(reply)) && (reply.Changed? || reply.Rejected?)
    ensures Inv(ResumeOp(s, doc, phase, reply))
  {
    HeldIsQuiet(s, doc, phase);
    hide Stored;
    if reply.Rejected? {
      hide Inv, Quiet, Restorable;
      RestoreToken(s, doc, phase.vault, phase.settings);
    } else {
      WordsChange(s, doc, phase.vault, reply.words, phase.receipt);
      var t := s.(words := s.words[phase.vault := reply.words]);
      hide Inv, Quiet;
      Proceeds(t, doc, Activating(phase.vault, reply.words, phase.receipt, phase.kind == Recover));
    }
  }

  // The words may change while no other document's session matches the stored record.
  lemma WordsChange(s: State, doc: nat, v: string, words: Words, receipt: string)
    requires Quiet(s) && doc in s.docs && s.docs[doc].recovery.None? && v in s.words
    requires Own(s, doc, receipt) && Unfinished(Stored(s, v), receipt)
    ensures Quiet(s.(words := s.words[v := words]))
  {
    SameStored(s, s.(words := s.words[v := words]));
    hide Stored;
  }

  lemma RestoringGoesOn(s: State, doc: nat, phase: Phase, reply: Reply)
    requires Held(s, doc, phase) && phase.Restoring? && Ends(reply)
    ensures Inv(ResumeOp(s, doc, phase, reply))
  {
    HeldIsQuiet(s, doc, phase);
    assert MayWrite(s, phase.vault, phase.settings) by { hide Stored; }
    hide Inv, PhaseHolds, Quiet, MayWrite;
    SettleIsQuiet(s, phase.vault, phase.settings, reply);
    Releases(Settle(s, phase.vault, phase.settings, reply));
  }

  // The document keeps the new words under the receipt it staged.
  lemma RememberHolds(s: State, doc: nat, phase: Phase, positions: seq<int>)
    requires Held(s, doc, phase) && phase.Activating?
    ensures Inv(Remember(s, doc, phase.vault, phase.words, phase.receipt, positions))
  {
    SameStored(s, Remember(s, doc, phase.vault, phase.words, phase.receipt, positions));
    hide Stored, IsChallenge;
  }

  lemma ActivatingGoesOn(s: State, doc: nat, phase: Phase, reply: Reply)
    requires Held(s, doc, phase) && phase.Activating? && (reply.Ready? || (reply.Lost? && phase.unlocks))
    ensures Inv(ResumeOp(s, doc, phase, reply))
  {
    if reply.Ready? {
      hide Inv, PhaseHolds, IsChallenge;
      RememberHolds(s, doc, phase, reply.positions);
    } else {
      hide Stored;
      assert Quiet(s);
      hide Inv, PhaseHolds, Quiet;
      Releases(s);
    }
  }

  lemma ReadingGoesOn(s: State, doc: nat, phase: Phase, reply: Reply)
    requires Held(s, doc, phase) && phase.Reading? && Ends(reply)
    ensures Inv(ResumeOp(s, doc, phase, reply))
  {
    HeldIsQuiet(s, doc, phase);
    hide Inv, Quiet, Stored;
    if reply.Done? {
      Proceeds(s, doc, Rechecking(phase.current, Stored(s, phase.current.vault)));
    } else {
      Releases(s);
    }
  }

  lemma RecheckingGoesOn(s: State, doc: nat, phase: Phase, reply: Reply)
    requires Held(s, doc, phase) && phase.Rechecking? && reply.Observed?
    ensures Inv(ResumeOp(s, doc, phase, reply))
  {
    HeldIsQuiet(s, doc, phase);
    ClearedIsQuiet(s, doc);
    hide Inv, Quiet, Stored;
    Releases(s);
    Releases(SetDoc(s, doc, CLEARED));
    Proceeds(s, doc, Completing(phase.current, phase.settings));
  }

  lemma CompletingGoesOn(s: State, doc: nat, phase: Phase, reply: Reply)
    requires Held(s, doc, phase) && phase.Completing? && Ends(reply)
    ensures Inv(ResumeOp(s, doc, phase, reply))
  {
    HeldIsQuiet(s, doc, phase);
    var v, p := phase.current.vault, phase.settings.(complete := true);
    PassedMayWrite(s, phase.current);
    hide Inv, PhaseHolds, Quiet, Stored, MayWrite;
    SettleIsQuiet(s, v, p, reply);
    var t := Settle(s, v, p, reply);
    ClearedIsQuiet(t, doc);
    Releases(t);
    Releases(SetDoc(t, doc, CLEARED));
  }

  lemma SavingGoesOn(s: State, doc: nat, phase: Phase, reply: Reply)
    requires Held(s, doc, phase) && phase.Saving? && Ends(reply)
    ensures Inv(ResumeOp(s, doc, phase, reply))
  {
    HeldIsQuiet(s, doc, phase);
    assert MayWrite(s, phase.vault, phase.settings);
    hide Inv, PhaseHolds, Quiet, Stored, MayWrite;
    SettleIsQuiet(s, phase.vault, phase.settings, reply);
    Releases(Settle(s, phase.vault, phase.settings, reply));
  }

  lemma CleaningGoesOn(s: State, doc: nat, phase: Phase, reply: Reply)
    requires Held(s, doc, phase) && phase.Cleaning? && Ends(reply)
    ensures Inv(ResumeOp(s, doc, phase, reply))
  {
    HeldIsQuiet(s, doc, phase);
    var t := s.(prefs := s.prefs - {phase.vault});
    assert forall w :: w != phase.vault ==> Stored(t, w) == Stored(s, w);
    assert Quiet(t) by { hide Stored; }
    hide Inv, PhaseHolds, Quiet, Stored;
    Releases(s);
    Releases(t);
  }

  lemma EnrollStagingGoesOn(s: State, doc: nat, phase: Phase, reply: Reply)
    requires Held(s, doc, phase) && phase.EnrollStaging? && Ends(reply)
    ensures Inv(ResumeOp(s, doc, phase, reply))
  {
    HeldIsQuiet(s, doc, phase);
    OwnMayWrite(s, doc, phase.vault, phase.settings);
    SettleIsQuiet(s, phase.vault, phase.settings, reply);
    Written(s, phase.vault, phase.settings);
    var t := Settle(s, phase.vault, phase.settings, reply);
    hide Inv, Quiet, Stored, MayWrite;
    if reply.Done? { Proceeds(t, doc, Enrolling(phase.vault, phase.receipt)); } else { Releases(t); }
  }

  lemma EnrollingGoesOn(s: State, doc: nat, phase: Phase, reply: Reply)
    requires Held(s, doc, phase) && phase.Enrolling? && Honest(Resume(reply)) && (reply.Changed? || reply.Rejected?)
    ensures Inv(ResumeOp(s, doc, phase, reply))
  {
    HeldIsQuiet(s, doc, phase);
    if reply.Rejected? {
      hide Inv, PhaseHolds, Quiet, Stored;
      Releases(s);
    } else {
      SameStored(s, ResumeOp(s, doc, phase, reply));
      hide Stored;
    }
  }

  lemma ReceiptStagesCreation(s: State, doc: nat, phase: Phase, receipt: string)
    requires doc in s.docs && phase.CreateInspecting? && PhaseHolds(s, doc, phase)
    ensures PhaseHolds(SetDoc(Issue(s, receipt), doc, s.docs[doc].(token := receipt)), doc,
      CreateStaging(phase.vault, phase.words, Preference(phase.duration, phase.deviceName, false, receipt), receipt))
  {
    hide Stored;
  }

  lemma CreateInspectingGoesOn(s: State, doc: nat, phase: Phase, reply: Reply)
    requires Held(s, doc, phase) && phase.CreateInspecting? && (reply.Observed? || reply.Lost?)
    ensures Inv(ResumeOp(s, doc, phase, reply))
  {
    HeldIsQuiet(s, doc, phase);
    if reply.Observed? && reply.session == Some(phase.vault) && Fresh(s, reply.receipt) {
      var t := SetDoc(Issue(s, reply.receipt), doc, s.docs[doc].(token := reply.receipt));
      TokenIsQuiet(s, doc, reply.receipt);
      ReceiptStagesCreation(s, doc, phase, reply.receipt);
      hide Inv, Quiet, Stored, PhaseHolds;
      Proceeds(t, doc, CreateStaging(phase.vault, phase.words,
        Preference(phase.duration, phase.deviceName, false, reply.receipt), reply.receipt));
    } else {
      hide Inv, PhaseHolds, Quiet, Stored;
      Releases(s);
    }
  }

  lemma CreateStagingGoesOn(s: State, doc: nat, phase: Phase, reply: Reply)
    requires Held(s, doc, phase) && phase.CreateStaging? && Ends(reply)
    ensures Inv(ResumeOp(s, doc, phase, reply))
  {
    HeldIsQuiet(s, doc, phase);
    assert MayWrite(s, phase.vault, phase.settings);
    SettleIsQuiet(s, phase.vault, phase.settings, reply);
    var t := Settle(s, phase.vault, phase.settings, reply);
    hide Inv, Quiet, Stored, MayWrite;
    if reply.Done? { Proceeds(t, doc, Activating(phase.vault, phase.words, phase.receipt, false)); } else { Releases(t); }
  }

  // A reply that the phase does not wait for changes nothing.
  predicate Awaited(phase: Phase, reply: Reply) {
    match phase
    case Changing(_, _, _, _) => reply.Changed? || reply.Rejected?
    case Enrolling(_, _) => reply.Changed? || reply.Rejected?
    case Activating(_, _, _, unlocks) => reply.Ready? || (reply.Lost? && unlocks)
    case Rechecking(_, _) => reply.Observed?
    case CreateInspecting(_, _, _, _) => reply.Observed? || reply.Lost?
    case _ => Ends(reply)
  }

  lemma OtherRepliesAreIgnored(s: State, doc: nat, phase: Phase, reply: Reply)
    requires doc in s.docs && !Awaited(phase, reply)
    ensures ResumeOp(s, doc, phase, reply) == s
  {
  }

  lemma GoesOn(s: State, doc: nat, phase: Phase, reply: Reply)
    requires Held(s, doc, phase) && Honest(Resume(reply)) && Awaited(phase, reply)
    ensures Inv(ResumeOp(s, doc, phase, reply))
  {
    hide Held, Inv, ResumeOp;
    match phase
    case Staging(_, _, _, _) => StagingGoesOn(s, doc, phase, reply);
    case Changing(_, _, _, _) => ChangingGoesOn(s, doc, phase, reply);
    case Restoring(_, _) => RestoringGoesOn(s, doc, phase, reply);
    case Activating(_, _, _, _) => ActivatingGoesOn(s, doc, phase, reply);
    case Reading(_) => ReadingGoesOn(s, doc, phase, reply);
    case Rechecking(_, _) => RecheckingGoesOn(s, doc, phase, reply);
    case Completing(_, _) => CompletingGoesOn(s, doc, phase, reply);
    case Saving(_, _) => SavingGoesOn(s, doc, phase, reply);
    case Cleaning(_) => CleaningGoesOn(s, doc, phase, reply);
    case EnrollStaging(_, _, _) => EnrollStagingGoesOn(s, doc, phase, reply);
    case Enrolling(_, _) => EnrollingGoesOn(s, doc, phase, reply);
    case CreateInspecting(_, _, _, _) => CreateInspectingGoesOn(s, doc, phase, reply);
    case CreateStaging(_, _, _, _) => CreateStagingGoesOn(s, doc, phase, reply);
  }

  // ------------------------------------------------------------------ whole runs

  lemma StepHolds(s: State, step: Step)
    requires Inv(s) && Honest(step)
    ensures Inv(Apply(s, step))
  {
    match step
    case Open(doc) => hide Inv; ClearHolds(s, doc);
    case Crash(doc) => hide Inv; CrashHolds(s, doc);
    case Clear(doc) => hide Inv; ClearHolds(s, doc);
    case Begin(doc, op) =>
      hide Inv, BeginOp, FreshOp;
      if doc in s.docs && s.lock.None? && FreshOp(s, op) { BeginHolds(s, doc, op); }
    case Resume(reply) =>
      if s.lock.Some? {
        var doc, phase := s.lock.value.holder, s.lock.value.phase;
        hide ResumeOp, PhaseHolds, CompleteIsVerified, MatchingIsCurrent, TokensAreIssued, VaultsAreKnown;
        assert Held(s, doc, phase);
        if Awaited(phase, reply) { GoesOn(s, doc, phase, reply); } else { OtherRepliesAreIgnored(s, doc, phase, reply); }
      }
  }

  ghost predicate AllHonest(steps: seq<Step>) {
    forall i :: 0 <= i < |steps| ==> Honest(steps[i])
  }

  lemma {:induction false} RunHolds(s: State, steps: seq<Step>)
    requires Inv(s) && AllHonest(steps)
    ensures Inv(Run(s, steps))
    decreases |steps|
  {
    hide Inv, Apply, Honest;
    if steps != [] {
      StepHolds(s, steps[0]);
      RunHolds(Apply(s, steps[0]), steps[1..]);
    }
  }

  // ------------------------------------------------------------------ the promises

  // Whatever the documents do, wherever they crash: while the stored record of an existing vault
  // says complete, the words last verified are those that protect its access records.
  lemma CompleteMeansCurrentWords(steps: seq<Step>, v: string)
    requires AllHonest(steps)
    ensures var s := Run(INITIAL, steps);
      v in s.words && Stored(s, v).complete ==> v in s.verified && s.verified[v] == s.words[v]
  {
    hide Run, AllHonest;
    RunHolds(INITIAL, steps) by { InitialHolds(); }
    hide MatchingIsCurrent, TokensAreIssued, VaultsAreKnown, LockHolds, Stored;
  }

  ghost predicate ChallengesAreSound(s: State) {
    forall d :: d in s.docs && s.docs[d].recovery.Some? ==>
      IsChallenge(s.docs[d].recovery.value.positions, |s.docs[d].recovery.value.words|)
  }

  // Only remembering new words starts a session.
  ghost predicate NoNewSession(s: State, t: State) {
    forall d :: d in t.docs && t.docs[d].recovery.Some? ==> d in s.docs && s.docs[d].recovery == t.docs[d].recovery
  }

  lemma BeginningStartsNoSession(s: State, doc: nat, op: Operation)
    requires doc in s.docs
    ensures NoNewSession(s, BeginOp(s, doc, op))
  {
    hide Stored, Inspect, Answered, ValidDevice, Trim;
  }

  lemma ReplyStartsNoSession(s: State, doc: nat, phase: Phase, reply: Reply)
    requires doc in s.docs && !(phase.Activating? && reply.Ready?)
    ensures NoNewSession(s, ResumeOp(s, doc, phase, reply))
  {
    if StagesWords(phase) {
      hide ResumeOp;
      StagingStartsNoSession(s, doc, phase, reply);
    } else {
      hide Stored, Inspect, Recheck, IsChallenge, Issue, Fresh;
    }
  }

  predicate StagesWords(phase: Phase) {
    phase.Staging? || phase.Changing? || phase.CreateInspecting?
  }

  lemma StagingStartsNoSession(s: State, doc: nat, phase: Phase, reply: Reply)
    requires doc in s.docs && StagesWords(phase)
    ensures NoNewSession(s, ResumeOp(s, doc, phase, reply))
  {
    hide Stored, Inspect, Recheck, IsChallenge, Fresh;
  }

  lemma StepKeepsChallenges(s: State, step: Step)
    requires ChallengesAreSound(s)
    ensures ChallengesAreSound(Apply(s, step))
  {
    hide BeginOp, FreshOp, IsChallenge, Stored;
    match step
    case Begin(doc, op) => if doc in s.docs { BeginningStartsNoSession(s, doc, op); }
    case Resume(reply) =>
      if s.lock.Some? && s.lock.value.holder in s.docs && !(s.lock.value.phase.Activating? && reply.Ready?) {
        hide ResumeOp;
        ReplyStartsNoSession(s, s.lock.value.holder, s.lock.value.phase, reply);
      }
    case _ =>
  }

  lemma {:induction false} RunKeepsChallenges(s: State, steps: seq<Step>)
    requires ChallengesAreSound(s)
    ensures ChallengesAreSound(Run(s, steps))
    decreases |steps|
  {
    hide Apply;
    if steps != [] {
      StepKeepsChallenges(s, steps[0]);
      RunKeepsChallenges(Apply(s, steps[0]), steps[1..]);
    }
  }

  // When a challenge is passed, the answers are words that protect the vault now, at three
  // different positions of the phrase, however many sessions other documents hold.
  lemma PassedChallengeIsCurrent(steps: seq<Step>, doc: nat, session: Session, answers: map<int, string>)
    requires AllHonest(steps)
    requires var s := Run(INITIAL, steps); doc in s.docs && s.lock.None?
    ensures var s := Run(INITIAL, steps);
      var t := Apply(s, Begin(doc, DoVerify(session, answers)));
      t.lock.Some? ==>
        && s.docs[doc].recovery.Some?
        && var r := s.docs[doc].recovery.value;
           && session == Some(r.vault) && r.vault in s.words && IsChallenge(r.positions, |s.words[r.vault]|)
           && forall i :: 0 <= i < |r.positions| ==>
                var p := r.positions[i];
                p in answers && 1 <= p <= |s.words[r.vault]| && Trim(answers[p]) == s.words[r.vault][p - 1]
  {
    hide Run, AllHonest, Stored;
    RunHolds(INITIAL, steps) by { InitialHolds(); }
    RunKeepsChallenges(INITIAL, steps);
    hide CompleteIsVerified, TokensAreIssued, VaultsAreKnown, LockHolds, IsChallenge;
  }

  // ------------------------------------------------------------------ what the promise rests on

  const FIRST: Preference := Preference(600000, "laptop", false, "first")

  function FirstRecovery(v: string, words: Words): Recovery {
    Recovery(v, words, [1, 2, 3], "first")
  }

  function CreateSteps(v: string, words: Words): seq<Step> {
    [Open(0), Begin(0, DoCreate(v, words, "laptop", 600000)), Resume(Observed(Some(v), "first")), Resume(Done)]
  }

  function VerifySteps(v: string, answers: map<int, string>): seq<Step> {
    [Begin(0, DoVerify(Some(v), answers)), Resume(Done), Resume(Observed(Some(v), "")), Resume(Done)]
  }

  // The first vault is created, its words are remembered and verified.
  function FirstSetup(v: string, words: Words, answers: map<int, string>): seq<Step> {
    CreateSteps(v, words) + ([Resume(Ready([1, 2, 3]))] + VerifySteps(v, answers))
  }

  lemma FirstVaultExists(v: string, words: Words)
    ensures var steps := CreateSteps(v, words);
      Apply(Apply(INITIAL, steps[0]), steps[1]) ==
        State(map[0 := CLEARED], map[], map[v := words], map[], {}, {v},
          Some(Lock(0, CreateInspecting(v, words, 600000, "laptop"))))
  {
    assert Trim("laptop") == "laptop" by { TrimLaws("laptop"); }
    assert Apply(INITIAL, Open(0)) == State(map[0 := CLEARED], map[], map[], map[], {}, {}, None);
    hide Trim;
  }

  lemma FirstVaultIsStaged(s: State, v: string, words: Words)
    requires s == State(map[0 := CLEARED], map[], map[v := words], map[], {}, {v},
      Some(Lock(0, CreateInspecting(v, words, 600000, "laptop"))))
    ensures var steps := CreateSteps(v, words);
      Apply(Apply(s, steps[2]), steps[3]) ==
        State(map[0 := Document(None, "first")], map[v := FIRST], map[v := words], map[], {"first"}, {v},
          Some(Lock(0, Activating(v, words, "first", false))))
  {
    var t := s.(docs := map[0 := Document(None, "first")], issued := {"first"},
      lock := Some(Lock(0, CreateStaging(v, words, FIRST, "first"))));
    assert Apply(s, Resume(Observed(Some(v), "first"))) == t;
  }

  lemma FirstVaultIsCreated(v: string, words: Words)
    ensures Run(INITIAL, CreateSteps(v, words)) ==
      State(map[0 := Document(None, "first")], map[v := FIRST], map[v := words], map[], {"first"}, {v},
        Some(Lock(0, Activating(v, words, "first", false))))
  {
    hide Apply;
    var steps := CreateSteps(v, words);
    FirstVaultExists(v, words);
    FirstVaultIsStaged(Apply(Apply(INITIAL, steps[0]), steps[1]), v, words);
    FourSteps(INITIAL, steps);
  }

  lemma FirstWordsAreRemembered(s: State, v: string, words: Words)
    requires |words| >= 3 && 0 in s.docs && s.lock == Some(Lock(0, Activating(v, words, "first", false)))
    ensures Run(s, [Resume(Ready([1, 2, 3]))]) ==
      s.(docs := s.docs[0 := Document(Some(FirstRecovery(v, words)), "first")], lock := None)
  {
    assert Run(s, [Resume(Ready([1, 2, 3]))]) == Run(Apply(s, Resume(Ready([1, 2, 3]))), []);
  }

  lemma FirstWordsAreVerified(s: State, v: string, words: Words, answers: map<int, string>)
    requires |words| >= 3 && (forall p :: 1 <= p <= 3 ==> p in answers && Trim(answers[p]) == words[p - 1])
    requires s == State(map[0 := Document(Some(FirstRecovery(v, words)), "first")], map[v := FIRST], map[v := words], map[],
      {"first"}, {v}, None)
    ensures Run(s, VerifySteps(v, answers)) ==
      State(map[0 := CLEARED], map[v := FIRST.(complete := true)], map[v := words], map[v := words], {"first"}, {v}, None)
  {
    var steps, r := VerifySteps(v, answers), FirstRecovery(v, words);
    assert Answered(r, answers);
    hide Answered;
    var s1 := s.(verified := map[v := words], lock := Some(Lock(0, Reading(r))));
    assert Apply(s, steps[0]) == s1;
    var s2 := s1.(lock := Some(Lock(0, Rechecking(r, FIRST))));
    assert Apply(s1, steps[1]) == s2;
    var s3 := s2.(lock := Some(Lock(0, Completing(r, FIRST))));
    assert Apply(s2, steps[2]) == s3;
    assert Apply(s3, steps[3]) ==
      s3.(docs := map[0 := CLEARED], prefs := map[v := FIRST.(complete := true)], lock := None);
    hide Apply;
    FourSteps(s, steps);
  }

  // The promise is not empty: the first setup ends complete.
  lemma FirstSetupCompletes(v: string, words: Words, answers: map<int, string>)
    requires |words| >= 3 && (forall p :: 1 <= p <= 3 ==> p in answers && Trim(answers[p]) == words[p - 1])
    ensures AllHonest(FirstSetup(v, words, answers))
    ensures var s := Run(INITIAL, FirstSetup(v, words, answers));
      && s.words == map[v := words] && s.verified == map[v := words] && Stored(s, v).complete
      && s.lock.None? && 0 in s.docs && s.issued == {"first"}
  {
    FirstVaultIsCreated(v, words);
    var a := Run(INITIAL, CreateSteps(v, words));
    FirstWordsAreRemembered(a, v, words);
    var b := Run(a, [Resume(Ready([1, 2, 3]))]);
    FirstWordsAreVerified(b, v, words, answers);
    SplitRun(INITIAL, CreateSteps(v, words), [Resume(Ready([1, 2, 3]))] + VerifySteps(v, answers));
    SplitRun(a, [Resume(Ready([1, 2, 3]))], VerifySteps(v, answers));
    hide Run;
  }

  lemma FourSteps(s: State, steps: seq<Step>)
    requires |steps| == 4
    ensures Run(s, steps) == Apply(Apply(Apply(Apply(s, steps[0]), steps[1]), steps[2]), steps[3])
  {
    hide Apply;
    var a := Apply(s, steps[0]);
    var b := Apply(a, steps[1]);
    var c := Apply(b, steps[2]);
    assert steps[1..][1..] == steps[2..] && steps[2..][1..] == steps[3..] && steps[3..][1..] == [];
    assert Run(a, steps[1..]) == Run(b, steps[2..]);
    assert Run(b, steps[2..]) == Run(c, steps[3..]);
    assert Run(c, steps[3..]) == Run(Apply(c, steps[3]), []);
  }

  lemma {:induction false} SplitRun(s: State, a: seq<Step>, b: seq<Step>)
    ensures Run(s, a + b) == Run(Run(s, a), b)
    decreases |a|
  {
    hide Apply;
    if a == [] {
      assert a + b == b;
    } else {
      assert (a + b)[1..] == a[1..] + b;
      SplitRun(Apply(s, a[0]), a[1..], b);
    }
  }

  // A recovery whose core call changes the words and still rejects.
  function LateRecovery(doc: nat, v: string, receipt: string, words: Words): seq<Step> {
    [Begin(doc, DoRecover(v, None, receipt)), Resume(Done), Resume(Rejected(Some(words))), Resume(Done)]
  }

  // The promise rests on that assumption. From every completed vault, one core call that rejects
  // after its write leaves the record complete although its words were never verified.
  lemma LateRejectionBreaksIt(s: State, doc: nat, v: string, receipt: string, words: Words)
    requires doc in s.docs && s.lock.None? && v in s.words && Stored(s, v).complete && Fresh(s, receipt)
    requires v in s.verified && s.verified[v] == s.words[v] && words != s.words[v]
    ensures var t := Run(s, LateRecovery(doc, v, receipt, words));
      && v in t.words && Stored(t, v).complete && t.lock.None? && t.words[v] == words
      && v in t.verified && t.verified[v] != t.words[v]
  {
    var steps := LateRecovery(doc, v, receipt, words);
    var settings := Stored(s, v);
    var s1 := Apply(s, steps[0]);
    assert s1.lock == Some(Lock(doc, Staging(Recover, v, settings, receipt)));
    var s2 := Apply(s1, steps[1]);
    assert s2.lock == Some(Lock(doc, Changing(Recover, v, settings, receipt)));
    var s3 := Apply(s2, steps[2]);
    assert s3.lock == Some(Lock(doc, Restoring(v, settings)));
    var s4 := Apply(s3, steps[3]);
    assert Stored(s4, v) == settings;
    FourSteps(s, steps);
  }
}
