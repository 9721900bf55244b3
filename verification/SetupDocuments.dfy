// The setup operations as statements between awaits. Each is the
// run of protocol steps it stands for, when nothing interferes.
module SetupDocuments {
  import opened Common
  import opened Texts
  import opened ChallengePositions
  import opened SetupProtocol
  import opened SetupSafety
  import opened SetupOutcomes

  // Nothing but this document, or this vault's record, differs.
  ghost predicate OnlyDoc(before: map<nat, Document>, after: map<nat, Document>, doc: nat) {
    forall e :: e != doc ==> (e in before <==> e in after) && (e in before ==> after[e] == before[e])
  }

  ghost predicate OnlyVault(before: map<string, Preference>, after: map<string, Preference>, vault: string) {
    forall v :: v != vault ==> (v in before <==> v in after) && (v in before ==> after[v] == before[v])
  }

  // The session of the document answered its challenge, and the record of its vault is complete
  // and otherwise as it was.
  ghost predicate PassedAndFinished(before: State, prefs: map<string, Preference>, doc: nat, answers: map<int, string>) {
    && doc in before.docs && before.docs[doc].recovery.Some?
    && var r := before.docs[doc].recovery.value;
       && Answered(r, answers) && r.vault in prefs && prefs[r.vault] == Stored(before, r.vault).(complete := true)
       && OnlyVault(before.prefs, prefs, r.vault)
  }

  predicate Staged(prefs: map<string, Preference>, vault: string, receipt: string) {
    vault in prefs && Unfinished(prefs[vault], receipt)
  }

  // Storage, the local vaults and the open documents. Only `lock` and what records history is ghost.
  class Setup {
    var docs: map<nat, Document>
    var prefs: map<string, Preference>
    var words: map<string, Words>
    ghost var verified: map<string, Words>
    ghost var issued: set<string>
    ghost var known: set<string>
    ghost var lock: Option<Lock>

    ghost function S(): State
      reads this
    {
      State(docs, prefs, words, verified, issued, known, lock)
    }

    function StoredPreference(vault: string): (p: Preference)
      reads this
      ensures p == Stored(S(), vault)
      ensures vault !in prefs ==> p == Preference(600000, "This browser", false, "")
      ensures vault in prefs ==>
        && p.deviceName == prefs[vault].deviceName && p.complete == prefs[vault].complete && p.token == prefs[vault].token
        && p.duration == if prefs[vault].duration in {60000, 300000, 600000, 1800000, 3600000} then prefs[vault].duration else 600000
    {
      if vault !in prefs then DEFAULT_PREFERENCE
      else if prefs[vault].duration in LOCK_DELAYS then prefs[vault]
      else prefs[vault].(duration := DEFAULT_PREFERENCE.duration)
    }

    function Inspected(session: Session, selected: string): (r: Option<(Option<string>, bool)>)
      reads this
      ensures r == Inspect(S(), session, selected)
    {
      if session.Some? then
        if session.value in words then Some((session, true)) else None
      else Some((if selected in words then Some(selected) else None, false))
    }

    ghost method Await(phase: Phase, doc: nat)
      modifies `lock
      ensures lock == Some(Lock(doc, phase))
    {
      lock := Some(Lock(doc, phase));
    }

    method WritePreference(vault: string, p: Preference, reply: Reply)
      modifies `prefs
      ensures prefs == Settle(old(S()), vault, p, reply).prefs
    {
      if reply.Done? || (reply.Lost? && reply.applied) { prefs := prefs[vault := p]; }
    }

    // ---------------------------------------------------------------- between two awaits

    method StartRecover(doc: nat, vault: string, session: Session, receipt: string) returns (settings: Option<Preference>)
      requires lock.None? && doc in docs && Fresh(S(), receipt)
      modifies this
      ensures S() == Apply(old(S()), Begin(doc, DoRecover(vault, session, receipt))) && doc in docs
      ensures lock == if settings.None? then None else Some(Lock(doc, Staging(SetupProtocol.Recover, vault, settings.value, receipt)))
      ensures settings.Some? <==> RecoverStarts(old(S()), vault, session)
      ensures words == old(words) && prefs == old(prefs) && OnlyDoc(old(docs), docs, doc) && docs[doc].recovery.None?
    {
      docs := docs[doc := CLEARED];
      if Inspected(session, vault) != Some((Some(vault), false)) { return None; }
      settings := Some(StoredPreference(vault));
      docs := docs[doc := Document(None, receipt)];
      issued := issued + {receipt};
      Await(Staging(SetupProtocol.Recover, vault, settings.value, receipt), doc);
    }

    method StartReplace(doc: nat, vault: string, session: Session, replacing: bool, receipt: string)
      returns (settings: Option<Preference>)
      requires lock.None? && doc in docs && Fresh(S(), receipt)
      modifies this
      ensures S() == Apply(old(S()), Begin(doc, DoReplace(vault, session, replacing, receipt))) && doc in docs
      ensures lock == if settings.None? then None else Some(Lock(doc, Staging(SetupProtocol.Replace, vault, settings.value, receipt)))
      ensures settings.Some? <==> ReplaceStarts(old(S()), vault, session, replacing)
      ensures words == old(words) && prefs == old(prefs) && OnlyDoc(old(docs), docs, doc) && docs[doc].recovery.None?
    {
      docs := docs[doc := CLEARED];
      if Inspected(session, vault) != Some((Some(vault), true)) { return None; }
      if StoredPreference(vault).complete && !replacing { return None; }
      settings := Some(StoredPreference(vault));
      docs := docs[doc := Document(None, receipt)];
      issued := issued + {receipt};
      Await(Staging(SetupProtocol.Replace, vault, settings.value, receipt), doc);
    }

    // The unfinished record is written before the words may change.
    method StageUnfinished(doc: nat, kind: Kind, vault: string, settings: Preference, receipt: string, reply: Reply)
      requires doc in docs && lock == Some(Lock(doc, Staging(kind, vault, settings, receipt))) && Ends(reply)
      modifies this
      ensures S() == Apply(old(S()), Resume(reply)) && doc in docs
      ensures lock == if reply.Done? then Some(Lock(doc, Changing(kind, vault, settings, receipt)))
        else if kind == SetupProtocol.Recover then Some(Lock(doc, Restoring(vault, settings))) else None
      ensures words == old(words) && OnlyVault(old(prefs), prefs, vault) && OnlyDoc(old(docs), docs, doc)
      ensures docs[doc].recovery == old(docs[doc].recovery) && (reply.Done? ==> Staged(prefs, vault, receipt))
    {
      WritePreference(vault, settings.(complete := false, token := receipt), reply);
      if reply.Done? {
        Await(Changing(kind, vault, settings, receipt), doc);
      } else if kind == SetupProtocol.Recover {
        docs := docs[doc := docs[doc].(token := settings.token)];
        Await(Restoring(vault, settings), doc);
      } else {
        lock := None;
      }
    }

    method ChangeWords(doc: nat, kind: Kind, vault: string, settings: Preference, receipt: string, reply: Reply)
      requires doc in docs && lock == Some(Lock(doc, Changing(kind, vault, settings, receipt)))
      requires reply.Changed? || reply == Rejected(None)
      modifies this
      ensures S() == Apply(old(S()), Resume(reply)) && doc in docs
      ensures lock == Some(Lock(doc,
        if reply.Changed? then Activating(vault, reply.words, receipt, kind == SetupProtocol.Recover) else Restoring(vault, settings)))
      ensures words == if reply.Changed? then old(words)[vault := reply.words] else old(words)
      ensures prefs == old(prefs) && OnlyDoc(old(docs), docs, doc) && docs[doc].recovery == old(docs[doc].recovery)
    {
      if reply.Changed? {
        words := words[vault := reply.words];
        Await(Activating(vault, reply.words, receipt, kind == SetupProtocol.Recover), doc);
      } else {
        docs := docs[doc := docs[doc].(token := settings.token)];
        Await(Restoring(vault, settings), doc);
      }
    }

    method RestoreSettings(doc: nat, vault: string, settings: Preference, reply: Reply)
      requires doc in docs && lock == Some(Lock(doc, Restoring(vault, settings))) && Ends(reply)
      modifies this
      ensures S() == Apply(old(S()), Resume(reply)) && lock.None?
      ensures words == old(words) && docs == old(docs) && OnlyVault(old(prefs), prefs, vault)
    {
      WritePreference(vault, settings, reply);
      lock := None;
    }

    method RememberWords(doc: nat, vault: string, newWords: Words, receipt: string, unlocks: bool, reply: Reply)
      requires doc in docs && lock == Some(Lock(doc, Activating(vault, newWords, receipt, unlocks)))
      requires (reply.Ready? && IsChallenge(reply.positions, |newWords|)) || (reply.Lost? && unlocks)
      modifies this
      ensures S() == Apply(old(S()), Resume(reply)) && lock.None? && doc in docs
      ensures reply.Ready? ==> docs[doc] == Document(Some(Recovery(vault, newWords, reply.positions, receipt)), receipt)
      ensures words == old(words) && prefs == old(prefs) && OnlyDoc(old(docs), docs, doc)
      ensures reply.Lost? ==> docs == old(docs)
    {
      lock := None;
      if reply.Ready? { docs := docs[doc := Document(Some(Recovery(vault, newWords, reply.positions, receipt)), receipt)]; }
    }

    // ---------------------------------------------------------------- whole operations

    // What follows the staged receipt, in `recover` and in `replace`: the words change and are
    // remembered, or the prior record is put back.
    method ChangeStagedWords(
        doc: nat, kind: Kind, vault: string, settings: Preference, receipt: string, write: Reply, core: Reply, last: Reply)
      returns (outcome: Outcome)
      requires doc in docs && lock == Some(Lock(doc, Staging(kind, vault, settings, receipt)))
      requires GoodReplies(kind, write, core, last)
      modifies this
      ensures S() == Apply(Apply(Apply(old(S()), Resume(write)), Resume(core)), Resume(last)) && lock.None?
      ensures doc in docs
      ensures outcome == Returned <==> write.Done? && core.Changed? && last.Ready?
      ensures outcome == CompletionThrown <==> write.Done? && core.Changed? && last.Lost?
      ensures outcome == Thrown <==> !(write.Done? && core.Changed?)
      ensures outcome == Returned ==>
        docs[doc] == Document(Some(Recovery(vault, core.words, last.positions, receipt)), receipt)
      ensures OnlyDoc(old(docs), docs, doc) && OnlyVault(old(prefs), prefs, vault)
      ensures words == if write.Done? && core.Changed? then old(words)[vault := core.words] else old(words)
      ensures outcome != Thrown ==> Staged(prefs, vault, receipt)
      ensures outcome != Returned ==> docs[doc].recovery == old(docs[doc].recovery)
    {
      hide Apply, IsChallenge, Stored;
      ghost var s0 := S();
      StageUnfinished(doc, kind, vault, settings, receipt, write);
      ghost var s1 := S();
      if !write.Done? {
        LateRepliesAreIgnored(s1, core);
        if kind == SetupProtocol.Recover { RestoreSettings(doc, vault, settings, last); }
        else { LateRepliesAreIgnored(s1, last); }
        return Thrown;
      }
      ChangeWords(doc, kind, vault, settings, receipt, core);
      if core.Changed? {
        RememberWords(doc, vault, core.words, receipt, kind == SetupProtocol.Recover, last);
        return if last.Ready? then Returned else CompletionThrown;
      }
      RestoreSettings(doc, vault, settings, last);
      outcome := Thrown;
    }

    // recover(vaultId, words, password)
    method Recover(doc: nat, vault: string, session: Session, receipt: string, write: Reply, core: Reply, last: Reply)
      returns (outcome: Outcome)
      requires lock.None? && doc in docs && Fresh(S(), receipt) && GoodReplies(SetupProtocol.Recover, write, core, last)
      modifies this
      ensures lock.None?
      ensures S() == Run(old(S()),
        [Begin(doc, DoRecover(vault, session, receipt)), Resume(write), Resume(core), Resume(last)])
      ensures RecoverLeaves(old(S()), S(), doc, vault, session, receipt, write, core, last)
      ensures outcome ==
        if !(RecoverStarts(old(S()), vault, session) && write.Done? && core.Changed?) then Thrown
        else if last.Ready? then Returned else CompletionThrown
      ensures OnlyDoc(old(docs), docs, doc) && OnlyVault(old(prefs), prefs, vault) && doc in docs
      ensures outcome == Thrown ==> words == old(words)
      ensures outcome != Thrown ==>
        core.Changed? && words == old(words)[vault := core.words] && Staged(prefs, vault, receipt)
      ensures outcome != Returned ==> docs[doc].recovery.None?
    {
      hide Apply;
      ghost var s0 := S();
      FourSteps(s0, [Begin(doc, DoRecover(vault, session, receipt)), Resume(write), Resume(core), Resume(last)]);
      RecoverIsExact(s0, doc, vault, session, receipt, write, core, last);
      hide Run, RecoverLeaves;
      var settings := StartRecover(doc, vault, session, receipt);
      if settings.None? {
        LateRepliesAreIgnored(S(), write);
        LateRepliesAreIgnored(S(), core);
        LateRepliesAreIgnored(S(), last);
        return Thrown;
      }
      outcome := ChangeStagedWords(doc, SetupProtocol.Recover, vault, settings.value, receipt, write, core, last);
    }

    // replace(vaultId, purpose)
    method Replace(
        doc: nat, vault: string, session: Session, replacing: bool, receipt: string, write: Reply, core: Reply, last: Reply)
      returns (outcome: Outcome)
      requires lock.None? && doc in docs && Fresh(S(), receipt) && GoodReplies(SetupProtocol.Replace, write, core, last)
      modifies this
      ensures lock.None?
      ensures S() == Run(old(S()),
        [Begin(doc, DoReplace(vault, session, replacing, receipt)), Resume(write), Resume(core), Resume(last)])
      ensures ReplaceLeaves(old(S()), S(), doc, vault, session, replacing, receipt, write, core, last)
      ensures outcome ==
        if ReplaceStarts(old(S()), vault, session, replacing) && write.Done? && core.Changed? then Returned else Thrown
      ensures OnlyDoc(old(docs), docs, doc) && OnlyVault(old(prefs), prefs, vault) && doc in docs
      ensures outcome == Thrown ==> words == old(words)
      ensures outcome != Thrown ==>
        core.Changed? && words == old(words)[vault := core.words] && Staged(prefs, vault, receipt)
      ensures outcome != Returned ==> docs[doc].recovery.None?
    {
      hide Apply;
      ghost var s0 := S();
      FourSteps(s0, [Begin(doc, DoReplace(vault, session, replacing, receipt)), Resume(write), Resume(core), Resume(last)]);
      ReplaceIsExact(s0, doc, vault, session, replacing, receipt, write, core, last);
      hide Run, ReplaceLeaves;
      var settings := StartReplace(doc, vault, session, replacing, receipt);
      if settings.None? {
        LateRepliesAreIgnored(S(), write);
        LateRepliesAreIgnored(S(), core);
        LateRepliesAreIgnored(S(), last);
        return Thrown;
      }
      outcome := ChangeStagedWords(doc, SetupProtocol.Replace, vault, settings.value, receipt, write, core, last);
    }

    // verify(answers)
    method Verify(
        doc: nat, session: Session, answers: map<int, string>, read: Reply, again: Session, write: Reply)
      returns (outcome: Outcome)
      requires lock.None? && doc in docs && Ends(read) && Ends(write)
      modifies this
      ensures lock.None?
      ensures S() == Run(old(S()),
        [Begin(doc, DoVerify(session, answers)), Resume(read), Resume(Observed(again, "")), Resume(write)])
      ensures VerifyLeaves(old(S()), S(), doc, session, answers, read, again, write)
      ensures outcome ==
        if VerifyAsks(old(S()), doc, session) && !VerifyPasses(old(S()), doc, session, answers) then ReturnedFalse
        else if Completes(old(S()), doc, session, answers, read, again) && write.Done? then Returned else Thrown
      ensures words == old(words) && OnlyDoc(old(docs), docs, doc) && doc in docs
      ensures outcome == Returned ==> docs[doc] == CLEARED && PassedAndFinished(old(S()), prefs, doc, answers)
      ensures outcome == ReturnedFalse ==> prefs == old(prefs) && docs == old(docs)
    {
      hide Apply;
      ghost var s0 := S();
      FourSteps(s0, [Begin(doc, DoVerify(session, answers)), Resume(read), Resume(Observed(again, "")), Resume(write)]);
      VerifyIsExact(s0, doc, session, answers, read, again, write);
      hide Run, VerifyLeaves, AllAnswered, Answered, Stored;
      var current;
      outcome, current := StartVerify(doc, session, answers);
      if outcome != Returned {
        LateRepliesAreIgnored(S(), read);
        LateRepliesAreIgnored(S(), Observed(again, ""));
        LateRepliesAreIgnored(S(), write);
        return;
      }
      outcome := ContinueVerify(doc, current, read, again, write);
    }

    // What follows a passed challenge.
    method ContinueVerify(doc: nat, current: Recovery, read: Reply, again: Session, write: Reply) returns (outcome: Outcome)
      requires doc in docs && lock == Some(Lock(doc, Reading(current))) && Ends(read) && Ends(write)
      requires docs[doc].recovery == Some(current) && current.vault in words
      requires Stored(S(), current.vault).token == docs[doc].token
      modifies this
      ensures S() == Apply(Apply(Apply(old(S()), Resume(read)), Resume(Observed(again, ""))), Resume(write)) && lock.None?
      ensures outcome == if read.Done? && again == Some(current.vault) && write.Done? then Returned else Thrown
      ensures words == old(words) && OnlyDoc(old(docs), docs, doc) && doc in docs
      ensures outcome == Returned ==>
        && docs[doc] == CLEARED && current.vault in prefs && OnlyVault(old(prefs), prefs, current.vault)
        && prefs[current.vault] == Stored(old(S()), current.vault).(complete := true)
    {
      hide Apply;
      var settings := ReadSettings(doc, current, read);
      if settings.None? {
        LateRepliesAreIgnored(S(), Observed(again, ""));
        LateRepliesAreIgnored(S(), write);
        return Thrown;
      }
      StoredInRecord(old(S()), S(), current.vault);
      hide Stored;
      var ok := RecheckRecovery(doc, current, settings.value, again);
      if !ok {
        LateRepliesAreIgnored(S(), write);
        return Thrown;
      }
      outcome := CompleteSetup(doc, current, settings.value, write);
    }

    method StartVerify(doc: nat, session: Session, answers: map<int, string>) returns (outcome: Outcome, current: Recovery)
      requires lock.None? && doc in docs
      modifies this
      ensures S() == Apply(old(S()), Begin(doc, DoVerify(session, answers))) && words == old(words)
      ensures outcome == Returned ==> lock == Some(Lock(doc, Reading(current)))
      ensures outcome != Returned ==> lock.None?
      ensures outcome == ReturnedFalse <==> VerifyAsks(old(S()), doc, session) && !VerifyPasses(old(S()), doc, session, answers)
      ensures outcome == Returned <==> VerifyPasses(old(S()), doc, session, answers)
      ensures outcome == Returned || outcome == ReturnedFalse || outcome == Thrown
      ensures outcome == Returned ==> current.vault in words && StoredPreference(current.vault).token == docs[doc].token
      ensures prefs == old(prefs) && OnlyDoc(old(docs), docs, doc) && doc in docs
      ensures outcome == Returned ==> Some(current) == old(docs[doc].recovery) && Answered(current, answers)
      ensures outcome == Returned || outcome == ReturnedFalse ==> docs == old(docs)
    {
      if docs[doc].recovery.None? { return Thrown, Recovery("", [], [], ""); }
      current := docs[doc].recovery.value;
      var seen := Inspected(session, current.vault);
      if seen.None? { return Thrown, current; }
      if seen.value != (Some(current.vault), true) || StoredPreference(current.vault).token != docs[doc].token {
        docs := docs[doc := CLEARED];
        return Thrown, current;
      }
      var passed := CheckAnswers(current, answers);
      AnsweredIsAllAnswered(current, answers);
      if !passed { return ReturnedFalse, current; }
      verified := verified[current.vault := current.words];
      Await(Reading(current), doc);
      outcome := Returned;
    }

    method CheckAnswers(current: Recovery, answers: map<int, string>) returns (ok: bool)
      ensures ok <==> Answered(current, answers)
    {
      for i := 0 to |current.positions|
        invariant forall j :: 0 <= j < i ==>
          var p := current.positions[j];
          p in answers && 1 <= p <= |current.words| && Trim(answers[p]) == current.words[p - 1]
      {
        var p := current.positions[i];
        if p !in answers || !(1 <= p <= |current.words|) || Trim(answers[p]) != current.words[p - 1] { return false; }
      }
      ok := true;
    }

    method ReadSettings(doc: nat, current: Recovery, reply: Reply) returns (settings: Option<Preference>)
      requires doc in docs && lock == Some(Lock(doc, Reading(current))) && Ends(reply)
      modifies this
      ensures S() == Apply(old(S()), Resume(reply)) && words == old(words) && doc in docs
      ensures lock == if settings.None? then None else Some(Lock(doc, Rechecking(current, settings.value)))
      ensures prefs == old(prefs) && docs == old(docs)
      ensures settings == if reply.Done? then Some(Stored(old(S()), current.vault)) else None
    {
      if !reply.Done? {
        lock := None;
        return None;
      }
      settings := Some(StoredPreference(current.vault));
      Await(Rechecking(current, settings.value), doc);
    }

    method RecheckRecovery(doc: nat, current: Recovery, settings: Preference, session: Session) returns (ok: bool)
      requires doc in docs && lock == Some(Lock(doc, Rechecking(current, settings)))
      modifies this
      ensures S() == Apply(old(S()), Resume(Observed(session, ""))) && words == old(words) && doc in docs
      ensures lock == if ok then Some(Lock(doc, Completing(current, settings))) else None
      ensures (old(docs[doc].recovery) == Some(current) && current.vault in words
               && Stored(old(S()), current.vault).token == old(docs[doc].token)) ==>
        (ok <==> session == Some(current.vault))
      ensures prefs == old(prefs) && OnlyDoc(old(docs), docs, doc)
    {
      lock := None;
      if docs[doc].recovery.None? { return false; }
      var again := docs[doc].recovery.value;
      var seen := Inspected(session, again.vault);
      if seen.None? { return false; }
      if seen.value != (Some(again.vault), true) || StoredPreference(again.vault).token != docs[doc].token {
        docs := docs[doc := CLEARED];
        return false;
      }
      Await(Completing(current, settings), doc);
      ok := true;
    }

    method CompleteSetup(doc: nat, current: Recovery, settings: Preference, reply: Reply) returns (outcome: Outcome)
      requires doc in docs && lock == Some(Lock(doc, Completing(current, settings))) && Ends(reply)
      modifies this
      ensures S() == Apply(old(S()), Resume(reply)) && words == old(words) && lock.None?
      ensures outcome == Returned <==> reply.Done?
      ensures outcome == Returned ==> doc in docs && docs[doc] == CLEARED
      ensures outcome == Returned || outcome == Thrown
      ensures OnlyDoc(old(docs), docs, doc) && OnlyVault(old(prefs), prefs, current.vault) && doc in docs
      ensures outcome == Returned ==> current.vault in prefs && prefs[current.vault] == settings.(complete := true)
    {
      WritePreference(current.vault, settings.(complete := true), reply);
      lock := None;
      if !reply.Done? { return Thrown; }
      docs := docs[doc := CLEARED];
      outcome := Returned;
    }

    // saveDuration(vaultId, duration)
    method SaveDuration(doc: nat, vault: string, session: Session, duration: int, write: Reply) returns (outcome: Outcome)
      requires lock.None? && doc in docs && Ends(write)
      modifies this
      ensures lock.None? && words == old(words) && docs == old(docs)
      ensures prefs == if DurationStarts(old(S()), vault, session, duration) && Applied(write)
        then old(prefs)[vault := Stored(old(S()), vault).(duration := duration)] else old(prefs)
      ensures outcome == if DurationStarts(old(S()), vault, session, duration) && write.Done? then Returned else Thrown
      ensures S() == Run(old(S()), [Begin(doc, DoSaveDuration(vault, session, duration)), Resume(write)])
    {
      ghost var s0 := S();
      TwoSteps(s0, Begin(doc, DoSaveDuration(vault, session, duration)), Resume(write));
      hide Run;
      var seen := Inspected(session, vault);
      if seen.None? || seen.value.0 != Some(vault) || duration !in LOCK_DELAYS {
        LateRepliesAreIgnored(S(), write);
        return Thrown;
      }
      outcome := WriteSettings(doc, vault, StoredPreference(vault).(duration := duration), write);
    }

    // saveDevice(vaultId, name, duration)
    method SaveDevice(doc: nat, vault: string, deviceName: string, duration: int, write: Reply) returns (outcome: Outcome)
      requires lock.None? && doc in docs && Ends(write)
      modifies this
      ensures lock.None? && words == old(words) && docs == old(docs)
      ensures prefs == if vault in words && GoodDevice(deviceName, duration) && Applied(write)
        then old(prefs)[vault := Stored(old(S()), vault).(deviceName := Trim(deviceName), duration := duration)] else old(prefs)
      ensures outcome == if vault in words && GoodDevice(deviceName, duration) && write.Done? then Returned else Thrown
      ensures S() == Run(old(S()), [Begin(doc, DoSaveDevice(vault, deviceName, duration)), Resume(write)])
    {
      ghost var s0 := S();
      TwoSteps(s0, Begin(doc, DoSaveDevice(vault, deviceName, duration)), Resume(write));
      hide Run;
      if !ValidDevice(deviceName, duration) || vault !in words {
        LateRepliesAreIgnored(S(), write);
        return Thrown;
      }
      outcome := WriteSettings(doc, vault, StoredPreference(vault).(deviceName := Trim(deviceName), duration := duration), write);
    }

    method WriteSettings(doc: nat, vault: string, settings: Preference, write: Reply) returns (outcome: Outcome)
      requires lock.None? && doc in docs && Ends(write)
      modifies this
      ensures lock.None? && words == old(words) && docs == old(docs)
      ensures prefs == if Applied(write) then old(prefs)[vault := settings] else old(prefs)
      ensures outcome == if write.Done? then Returned else Thrown
      ensures S() == Apply(SetPhase(old(S()), doc, Saving(vault, settings)), Resume(write))
    {
      WritePreference(vault, settings, write);
      outcome := if write.Done? then Returned else Thrown;
    }

    // removeLocalVault(vaultId): cleaning up the record cannot fail the removal.
    method RemoveLocalVault(doc: nat, vault: string, cleanup: Reply) returns (outcome: Outcome)
      requires lock.None? && doc in docs && Ends(cleanup)
      modifies this
      ensures lock.None? && words == old(words) - {vault} && docs == old(docs)
      ensures prefs == if vault in old(words) && Applied(cleanup) then old(prefs) - {vault} else old(prefs)
      ensures outcome == if vault in old(words) then Returned else Thrown
      ensures S() == Run(old(S()), [Begin(doc, DoRemove(vault)), Resume(cleanup)])
    {
      hide Apply;
      TwoSteps(S(), Begin(doc, DoRemove(vault)), Resume(cleanup));
      hide Run;
      var deleted := DeleteLocalVault(doc, vault);
      if deleted {
        CleanPreference(doc, vault, cleanup);
        return Returned;
      }
      LateRepliesAreIgnored(S(), cleanup);
      outcome := Thrown;
    }

    method DeleteLocalVault(doc: nat, vault: string) returns (deleted: bool)
      requires lock.None? && doc in docs
      modifies this
      ensures S() == Apply(old(S()), Begin(doc, DoRemove(vault)))
      ensures words == old(words) - {vault} && docs == old(docs) && prefs == old(prefs)
      ensures deleted <==> vault in old(words)
      ensures lock == if deleted then Some(Lock(doc, Cleaning(vault))) else None
    {
      if vault !in words { return false; }
      words := words - {vault};
      verified := verified - {vault};
      Await(Cleaning(vault), doc);
      deleted := true;
    }

    method CleanPreference(doc: nat, vault: string, cleanup: Reply)
      requires doc in docs && lock == Some(Lock(doc, Cleaning(vault))) && Ends(cleanup)
      modifies this
      ensures S() == Apply(old(S()), Resume(cleanup)) && lock.None? && docs == old(docs) && words == old(words)
      ensures prefs == if Applied(cleanup) then old(prefs) - {vault} else old(prefs)
    {
      if cleanup != Lost(false) { prefs := prefs - {vault}; }
      lock := None;
    }

    // enroll(params): the recovery session of the document is not cleared, only its token.
    method Enroll(
        doc: nat, vault: string, deviceName: string, duration: int, receipt: string, write: Reply, core: Reply, last: Reply)
      returns (outcome: Outcome)
      requires lock.None? && doc in docs && Fresh(S(), receipt) && Ends(write)
      requires core.Changed? || core == Rejected(None)
      requires last.Ready? && (core.Changed? ==> IsChallenge(last.positions, |core.words|))
      modifies this
      ensures lock.None?
      ensures S() == Run(old(S()),
        [Begin(doc, DoEnroll(vault, deviceName, duration, receipt)), Resume(write), Resume(core), Resume(last)])
      ensures EnrollLeaves(old(S()), S(), doc, vault, deviceName, duration, receipt, write, core, last)
      ensures outcome ==
        if GoodDevice(deviceName, duration) && vault !in old(words) && write.Done? && core.Changed? then Returned else Thrown
      ensures OnlyDoc(old(docs), docs, doc) && OnlyVault(old(prefs), prefs, vault) && doc in docs
      ensures outcome == Returned ==>
        vault !in old(words) && words == old(words)[vault := core.words] && Staged(prefs, vault, receipt)
      ensures outcome != Returned ==> words == old(words) && docs[doc].recovery == old(docs[doc].recovery)
    {
      hide Apply;
      ghost var s0 := S();
      FourSteps(s0, [Begin(doc, DoEnroll(vault, deviceName, duration, receipt)), Resume(write), Resume(core), Resume(last)]);
      EnrollIsExact(s0, doc, vault, deviceName, duration, receipt, write, core, last);
      hide Run, EnrollLeaves;
      var started := StartEnrollment(doc, vault, deviceName, duration, receipt);
      if !started {
        LateRepliesAreIgnored(S(), write);
        LateRepliesAreIgnored(S(), core);
        LateRepliesAreIgnored(S(), last);
        return Thrown;
      }
      var staged := StageEnrollment(doc, vault, Preference(duration, Trim(deviceName), false, receipt), receipt, write);
      if !staged {
        LateRepliesAreIgnored(S(), core);
        LateRepliesAreIgnored(S(), last);
        return Thrown;
      }
      PerformEnrollment(doc, vault, receipt, core);
      if !core.Changed? {
        LateRepliesAreIgnored(S(), last);
        return Thrown;
      }
      RememberWords(doc, vault, core.words, receipt, false, last);
      outcome := Returned;
    }

    method StartEnrollment(doc: nat, vault: string, deviceName: string, duration: int, receipt: string) returns (started: bool)
      requires lock.None? && doc in docs && Fresh(S(), receipt)
      modifies this
      ensures S() == Apply(old(S()), Begin(doc, DoEnroll(vault, deviceName, duration, receipt))) && doc in docs
      ensures lock == if started
        then Some(Lock(doc, EnrollStaging(vault, Preference(duration, Trim(deviceName), false, receipt), receipt))) else None
      ensures words == old(words) && prefs == old(prefs) && OnlyDoc(old(docs), docs, doc)
      ensures docs[doc].recovery == old(docs[doc].recovery)
      ensures started <==> GoodDevice(deviceName, duration) && vault !in words
    {
      hide Trim;
      if !ValidDevice(deviceName, duration) { return false; }
      docs := docs[doc := docs[doc].(token := receipt)];
      issued := issued + {receipt};
      if vault in words { return false; }
      known := known + {vault};
      Await(EnrollStaging(vault, Preference(duration, Trim(deviceName), false, receipt), receipt), doc);
      started := true;
    }

    method StageEnrollment(doc: nat, vault: string, settings: Preference, receipt: string, write: Reply) returns (staged: bool)
      requires doc in docs && lock == Some(Lock(doc, EnrollStaging(vault, settings, receipt))) && Ends(write)
      modifies this
      ensures S() == Apply(old(S()), Resume(write)) && doc in docs
      ensures lock == if staged then Some(Lock(doc, Enrolling(vault, receipt))) else None
      ensures words == old(words) && docs == old(docs) && OnlyVault(old(prefs), prefs, vault)
      ensures staged ==> vault in prefs && prefs[vault] == settings
      ensures staged <==> write.Done?
    {
      WritePreference(vault, settings, write);
      lock := None;
      staged := write.Done?;
      if staged { Await(Enrolling(vault, receipt), doc); }
    }

    method PerformEnrollment(doc: nat, vault: string, receipt: string, core: Reply)
      requires doc in docs && lock == Some(Lock(doc, Enrolling(vault, receipt))) && (core.Changed? || core == Rejected(None))
      modifies this
      ensures S() == Apply(old(S()), Resume(core)) && doc in docs
      ensures lock == if core.Changed? then Some(Lock(doc, Activating(vault, core.words, receipt, false))) else None
      ensures prefs == old(prefs) && docs == old(docs)
      ensures words == if core.Changed? then old(words)[vault := core.words] else old(words)
    {
      if core.Changed? {
        words := words[vault := core.words];
        verified := verified - {vault};
        Await(Activating(vault, core.words, receipt, false), doc);
      } else {
        lock := None;
      }
    }

    // create(params), for a document that finds no local vault.
    method Create(
        doc: nat, vault: string, newWords: Words, deviceName: string, duration: int, session: Session, receipt: string,
        write: Reply, last: Reply)
      returns (outcome: Outcome)
      requires lock.None? && doc in docs && Fresh(S(), receipt) && vault !in known && Ends(write)
      requires session.Some? ==> session.value == vault
      requires last.Ready? && IsChallenge(last.positions, |newWords|)
      modifies this
      ensures lock.None?
      ensures S() == Run(old(S()),
        [Begin(doc, DoCreate(vault, newWords, deviceName, duration)), Resume(Observed(session, receipt)), Resume(write),
          Resume(last)])
      ensures CreateLeaves(old(S()), S(), doc, vault, newWords, deviceName, duration, session, receipt, write, last)
      ensures outcome ==
        if old(words.Keys) == {} && GoodDevice(deviceName, duration) && session.Some? && write.Done? then Returned else Thrown
      ensures OnlyDoc(old(docs), docs, doc) && OnlyVault(old(prefs), prefs, vault)
      ensures outcome == Returned ==> words == map[vault := newWords] && Staged(prefs, vault, receipt)
      ensures old(words.Keys) != {} ==> outcome == Thrown && words == old(words) && docs == old(docs) && prefs == old(prefs)
    {
      hide Apply;
      ghost var s0 := S();
      FourSteps(s0, [Begin(doc, DoCreate(vault, newWords, deviceName, duration)), Resume(Observed(session, receipt)),
        Resume(write), Resume(last)]);
      CreateIsExact(s0, doc, vault, newWords, deviceName, duration, session, receipt, write, last);
      hide Run, CreateLeaves;
      var created := InitializeVault(doc, vault, newWords, deviceName, duration);
      if !created {
        LateRepliesAreIgnored(S(), Observed(session, receipt));
        LateRepliesAreIgnored(S(), write);
        LateRepliesAreIgnored(S(), last);
        return Thrown;
      }
      outcome := ContinueCreate(doc, vault, newWords, Trim(deviceName), duration, session, receipt, write, last);
    }

    // What follows the new vault.
    method ContinueCreate(
        doc: nat, vault: string, newWords: Words, deviceName: string, duration: int, session: Session, receipt: string,
        write: Reply, last: Reply)
      returns (outcome: Outcome)
      requires doc in docs && lock == Some(Lock(doc, CreateInspecting(vault, newWords, duration, deviceName)))
      requires Fresh(S(), receipt) && (session.Some? ==> session.value == vault) && Ends(write)
      requires last.Ready? && IsChallenge(last.positions, |newWords|)
      modifies this
      ensures S() == Apply(Apply(Apply(old(S()), Resume(Observed(session, receipt))), Resume(write)), Resume(last))
      ensures lock.None? && outcome == if session.Some? && write.Done? then Returned else Thrown
      ensures words == old(words) && OnlyDoc(old(docs), docs, doc) && OnlyVault(old(prefs), prefs, vault)
      ensures outcome == Returned ==> Staged(prefs, vault, receipt)
    {
      hide Apply, IsChallenge;
      var unlocked := IssueReceipt(doc, vault, newWords, deviceName, duration, session, receipt);
      if !unlocked {
        LateRepliesAreIgnored(S(), write);
        LateRepliesAreIgnored(S(), last);
        return Thrown;
      }
      var settings := Preference(duration, deviceName, false, receipt);
      var staged := StageCreation(doc, vault, newWords, settings, receipt, write);
      if !staged {
        LateRepliesAreIgnored(S(), last);
        return Thrown;
      }
      RememberWords(doc, vault, newWords, receipt, false, last);
      outcome := Returned;
    }

    method InitializeVault(doc: nat, vault: string, newWords: Words, deviceName: string, duration: int)
      returns (created: bool)
      requires lock.None? && doc in docs && vault !in known
      modifies this
      ensures S() == Apply(old(S()), Begin(doc, DoCreate(vault, newWords, deviceName, duration)))
      ensures created ==> old(words.Keys) == {} && issued == old(issued) && words == map[vault := newWords]
      ensures created <==> old(words.Keys) == {} && GoodDevice(deviceName, duration)
      ensures docs == old(docs) && prefs == old(prefs) && (!created ==> words == old(words))
      ensures doc in docs
      ensures lock == if created then Some(Lock(doc, CreateInspecting(vault, newWords, duration, Trim(deviceName)))) else None
    {
      hide Trim;
      if words.Keys != {} || !ValidDevice(deviceName, duration) { return false; }
      words := words[vault := newWords];
      verified := verified - {vault};
      known := known + {vault};
      Await(CreateInspecting(vault, newWords, duration, Trim(deviceName)), doc);
      created := true;
    }

    method IssueReceipt(
        doc: nat, vault: string, newWords: Words, deviceName: string, duration: int, session: Session, receipt: string)
      returns (unlocked: bool)
      requires doc in docs && lock == Some(Lock(doc, CreateInspecting(vault, newWords, duration, deviceName)))
      requires Fresh(S(), receipt) && (session.Some? ==> session.value == vault)
      modifies this
      ensures S() == Apply(old(S()), Resume(Observed(session, receipt))) && doc in docs
      ensures lock == if unlocked
        then Some(Lock(doc, CreateStaging(vault, newWords, Preference(duration, deviceName, false, receipt), receipt))) else None
      ensures words == old(words) && prefs == old(prefs) && OnlyDoc(old(docs), docs, doc)
      ensures unlocked <==> session.Some?
    {
      lock := None;
      if session.None? { return false; }
      docs := docs[doc := docs[doc].(token := receipt)];
      issued := issued + {receipt};
      Await(CreateStaging(vault, newWords, Preference(duration, deviceName, false, receipt), receipt), doc);
      unlocked := true;
    }

    method StageCreation(doc: nat, vault: string, newWords: Words, settings: Preference, receipt: string, write: Reply)
      returns (staged: bool)
      requires doc in docs && lock == Some(Lock(doc, CreateStaging(vault, newWords, settings, receipt))) && Ends(write)
      modifies this
      ensures S() == Apply(old(S()), Resume(write)) && doc in docs
      ensures lock == if staged then Some(Lock(doc, Activating(vault, newWords, receipt, false))) else None
      ensures words == old(words) && docs == old(docs) && OnlyVault(old(prefs), prefs, vault)
      ensures staged ==> vault in prefs && prefs[vault] == settings
      ensures staged <==> write.Done?
    {
      WritePreference(vault, settings, write);
      lock := None;
      staged := write.Done?;
      if staged { Await(Activating(vault, newWords, receipt, false), doc); }
    }
  }
}
