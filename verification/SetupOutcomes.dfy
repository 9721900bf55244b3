// What each setup operation leaves behind, for every way its awaits may end.
module SetupOutcomes {
  import opened Common
  import opened Texts
  import opened ChallengePositions
  import opened SetupProtocol
  import opened SetupSafety

  datatype Outcome = Returned | ReturnedFalse | Thrown | CompletionThrown

  // How the awaits of a word change may end. A replacement is remembered without another await.
  predicate GoodReplies(kind: Kind, write: Reply, core: Reply, last: Reply) {
    && Ends(write) && (core.Changed? || core == Rejected(None))
    && if write.Done? && core.Changed?
       then (last.Ready? && IsChallenge(last.positions, |core.words|)) || (last.Lost? && kind == SetupProtocol.Recover)
       else Ends(last)
  }

  // The write took effect.
  predicate Applied(write: Reply) {
    write == Done || write == Lost(true)
  }

  // The record as the operations see it: defaults for a missing record and an unsupported duration.
  lemma SettingsAreExact(s: State, vault: string)
    ensures vault !in s.prefs ==> Stored(s, vault) == Preference(600000, "This browser", false, "")
    ensures vault in s.prefs ==>
      var p, q := s.prefs[vault], Stored(s, vault);
      && q.deviceName == p.deviceName && q.complete == p.complete && q.token == p.token
      && q.duration == if p.duration in {60000, 300000, 600000, 1800000, 3600000} then p.duration else 600000
  {
  }

  predicate SameElsewhere(a: State, b: State) {
    b.lock.None? && b.verified == a.verified && b.known == a.known
  }

  // ------------------------------------------------------------------ recover and replace

  // The vault is local, locked and selected.
  predicate RecoverStarts(a: State, vault: string, session: Session) {
    session.None? && vault in a.words
  }

  // The vault is unlocked, and its words are unfinished or asked to be replaced.
  predicate ReplaceStarts(a: State, vault: string, session: Session, replacing: bool) {
    session == Some(vault) && vault in a.words && (Stored(a, vault).complete ==> replacing)
  }

  // After a failed change: the prior record if putting it back took effect, else the unfinished
  // one if that was written, else the record as it was.
  predicate PutBack(a: State, b: State, vault: string, receipt: string, write: Reply, last: Reply) {
    var prior := Stored(a, vault);
    b.prefs ==
      if Applied(last) then a.prefs[vault := prior]
      else if Applied(write) then a.prefs[vault := Preference(prior.duration, prior.deviceName, false, receipt)]
      else a.prefs
  }

  // Once the words have changed the record is unfinished under the receipt, and the document
  // remembers the words if it could.
  predicate WordsChanged(a: State, b: State, doc: nat, vault: string, receipt: string, words: Words, last: Reply) {
    var prior := Stored(a, vault);
    && b.words == a.words[vault := words]
    && b.prefs == a.prefs[vault := Preference(prior.duration, prior.deviceName, false, receipt)]
    && b.docs == a.docs[doc :=
         Document(if last.Ready? then Some(Recovery(vault, words, last.positions, receipt)) else None, receipt)]
  }

  predicate Refused(a: State, b: State, doc: nat) {
    b.words == a.words && b.prefs == a.prefs && b.issued == a.issued && b.docs == a.docs[doc := Document(None, "")]
  }

  predicate RecoverLeaves(
    a: State, b: State, doc: nat, vault: string, session: Session, receipt: string, write: Reply, core: Reply, last: Reply)
  {
    && SameElsewhere(a, b)
    && if !RecoverStarts(a, vault, session) then Refused(a, b, doc)
       else
         && b.issued == a.issued + {receipt}
         && if write.Done? && core.Changed? then WordsChanged(a, b, doc, vault, receipt, core.words, last)
            else
              && b.words == a.words && b.docs == a.docs[doc := Document(None, Stored(a, vault).token)]
              && PutBack(a, b, vault, receipt, write, last)
  }

  // A staged receipt that could not be written is not put back.
  predicate ReplaceLeaves(
    a: State, b: State, doc: nat, vault: string, session: Session, replacing: bool, receipt: string, write: Reply,
    core: Reply, last: Reply)
  {
    && SameElsewhere(a, b)
    && if !ReplaceStarts(a, vault, session, replacing) then Refused(a, b, doc)
       else
         && b.issued == a.issued + {receipt}
         && if write.Done? && core.Changed? then WordsChanged(a, b, doc, vault, receipt, core.words, last)
            else
              && b.words == a.words
              && b.docs == a.docs[doc := Document(None, if write.Done? then Stored(a, vault).token else receipt)]
              && PutBack(a, b, vault, receipt, write, if write.Done? then last else Lost(false))
  }

  // Where the awaits after a staged receipt lead.
  lemma StagedChangeIsExact(
    s: State, a: State, doc: nat, kind: Kind, vault: string, receipt: string, write: Reply, core: Reply, last: Reply)
    requires doc in a.docs && GoodReplies(kind, write, core, last)
    requires s == a.(docs := a.docs[doc := Document(None, receipt)], issued := a.issued + {receipt},
      lock := Some(Lock(doc, Staging(kind, vault, Stored(a, vault), receipt))))
    ensures var b := Apply(Apply(Apply(s, Resume(write)), Resume(core)), Resume(last));
      && SameElsewhere(a, b) && b.issued == a.issued + {receipt}
      && if write.Done? && core.Changed? then WordsChanged(a, b, doc, vault, receipt, core.words, last)
         else
           && b.words == a.words
           && b.docs == a.docs[doc :=
                Document(None, if write.Done? || kind == SetupProtocol.Recover then Stored(a, vault).token else receipt)]
           && PutBack(a, b, vault, receipt, write, if write.Done? || kind == SetupProtocol.Recover then last else Lost(false))
  {
    if write.Done? {
      StagedThenCore(s, a, doc, kind, vault, receipt, core, last);
    } else {
      StagingFailed(s, a, doc, kind, vault, receipt, write, core, last);
    }
    hide *;
  }

  lemma StagingFailed(
    s: State, a: State, doc: nat, kind: Kind, vault: string, receipt: string, write: Reply, core: Reply, last: Reply)
    requires doc in a.docs && write.Lost? && Ends(last) && (core.Changed? || core == Rejected(None))
    requires s == a.(docs := a.docs[doc := Document(None, receipt)], issued := a.issued + {receipt},
      lock := Some(Lock(doc, Staging(kind, vault, Stored(a, vault), receipt))))
    ensures var b := Apply(Apply(Apply(s, Resume(write)), Resume(core)), Resume(last));
      && SameElsewhere(a, b) && b.issued == a.issued + {receipt} && b.words == a.words
      && b.docs == a.docs[doc := Document(None, if kind == SetupProtocol.Recover then Stored(a, vault).token else receipt)]
      && PutBack(a, b, vault, receipt, write, if kind == SetupProtocol.Recover then last else Lost(false))
  {
    hide Stored;
    var p := Stored(a, vault);
    hide Apply;
    StagingIsRejected(s, doc, kind, vault, p, receipt, write);
    var s1 := Apply(s, Resume(write));
    LateRepliesAreIgnored(s1, core);
    if kind == SetupProtocol.Recover {
      RestoringEnds(s1, doc, vault, p, last);
    } else {
      LateRepliesAreIgnored(s1, last);
    }
  }

  lemma StagingIsRejected(s: State, doc: nat, kind: Kind, vault: string, p: Preference, receipt: string, write: Reply)
    requires doc in s.docs && s.docs[doc].recovery.None? && write.Lost?
    requires s.lock == Some(Lock(doc, Staging(kind, vault, p, receipt)))
    ensures Apply(s, Resume(write)) == s.(
      prefs := if Applied(write) then s.prefs[vault := p.(complete := false, token := receipt)] else s.prefs,
      docs := if kind == SetupProtocol.Recover then s.docs[doc := Document(None, p.token)] else s.docs,
      lock := if kind == SetupProtocol.Recover then Some(Lock(doc, Restoring(vault, p))) else None)
  {
  }

  // Without an operation that awaits such a reply it changes nothing.
  lemma LateRepliesAreIgnored(s: State, reply: Reply)
    requires s.lock.None? || (s.lock.value.phase.Restoring? && !Ends(reply))
    ensures Apply(s, Resume(reply)) == s
  {
  }

  lemma RestoringEnds(s: State, doc: nat, vault: string, p: Preference, last: Reply)
    requires doc in s.docs && Ends(last) && s.lock == Some(Lock(doc, Restoring(vault, p)))
    ensures Apply(s, Resume(last)) == s.(prefs := if Applied(last) then s.prefs[vault := p] else s.prefs, lock := None)
  {
  }

  lemma StagedThenCore(
    s: State, a: State, doc: nat, kind: Kind, vault: string, receipt: string, core: Reply, last: Reply)
    requires doc in a.docs && GoodReplies(kind, Done, core, last)
    requires s == a.(docs := a.docs[doc := Document(None, receipt)], issued := a.issued + {receipt},
      lock := Some(Lock(doc, Staging(kind, vault, Stored(a, vault), receipt))))
    ensures var b := Apply(Apply(Apply(s, Resume(Done)), Resume(core)), Resume(last));
      && SameElsewhere(a, b) && b.issued == a.issued + {receipt}
      && if core.Changed? then WordsChanged(a, b, doc, vault, receipt, core.words, last)
         else
           && b.words == a.words && b.docs == a.docs[doc := Document(None, Stored(a, vault).token)]
           && PutBack(a, b, vault, receipt, Done, last)
  {
    hide Stored, IsChallenge, PutBack, WordsChanged;
    var p := Stored(a, vault);
    var s1 := Apply(s, Resume(Done));
    assert s1 == s.(prefs := a.prefs[vault := p.(complete := false, token := receipt)],
      lock := Some(Lock(doc, Changing(kind, vault, p, receipt))));
    if core.Changed? { WordsAreRemembered(s1, a, doc, kind == SetupProtocol.Recover, kind, vault, receipt, core, last); }
    else { PriorIsPutBack(s1, a, doc, kind, vault, receipt, last); }
    hide Apply;
  }

  lemma WordsAreRemembered(
    s: State, a: State, doc: nat, unlocks: bool, kind: Kind, vault: string, receipt: string, core: Reply, last: Reply)
    requires doc in a.docs && core.Changed? && unlocks == (kind == SetupProtocol.Recover)
    requires (last.Ready? && IsChallenge(last.positions, |core.words|)) || (last.Lost? && unlocks)
    requires s == a.(docs := a.docs[doc := Document(None, receipt)], issued := a.issued + {receipt},
      prefs := a.prefs[vault := Stored(a, vault).(complete := false, token := receipt)],
      lock := Some(Lock(doc, Changing(kind, vault, Stored(a, vault), receipt))))
    ensures var b := Apply(Apply(s, Resume(core)), Resume(last));
      && SameElsewhere(a, b) && b.issued == a.issued + {receipt}
      && WordsChanged(a, b, doc, vault, receipt, core.words, last)
  {
    hide Stored, IsChallenge;
    assert Apply(s, Resume(core)) == s.(words := a.words[vault := core.words],
      lock := Some(Lock(doc, Activating(vault, core.words, receipt, unlocks))));
  }

  lemma PriorIsPutBack(s: State, a: State, doc: nat, kind: Kind, vault: string, receipt: string, last: Reply)
    requires doc in a.docs && Ends(last)
    requires s == a.(docs := a.docs[doc := Document(None, receipt)], issued := a.issued + {receipt},
      prefs := a.prefs[vault := Stored(a, vault).(complete := false, token := receipt)],
      lock := Some(Lock(doc, Changing(kind, vault, Stored(a, vault), receipt))))
    ensures var b := Apply(Apply(s, Resume(Rejected(None))), Resume(last));
      && SameElsewhere(a, b) && b.issued == a.issued + {receipt} && b.words == a.words
      && b.docs == a.docs[doc := Document(None, Stored(a, vault).token)] && PutBack(a, b, vault, receipt, Done, last)
  {
    hide Stored;
    var t := s.(docs := a.docs[doc := Document(None, Stored(a, vault).token)],
      lock := Some(Lock(doc, Restoring(vault, Stored(a, vault)))));
    assert Apply(s, Resume(Rejected(None))) == t;
    hide Apply;
    RestoringEnds(t, doc, vault, Stored(a, vault), last);
  }

  lemma RecoverIsExact(
    s: State, doc: nat, vault: string, session: Session, receipt: string, write: Reply, core: Reply, last: Reply)
    requires s.lock.None? && doc in s.docs && Fresh(s, receipt) && GoodReplies(SetupProtocol.Recover, write, core, last)
    ensures RecoverLeaves(
      s, Run(s, [Begin(doc, DoRecover(vault, session, receipt)), Resume(write), Resume(core), Resume(last)]),
      doc, vault, session, receipt, write, core, last)
  {
    var steps := [Begin(doc, DoRecover(vault, session, receipt)), Resume(write), Resume(core), Resume(last)];
    FourSteps(s, steps);
    var t := Apply(s, steps[0]);
    RecoverBegins(s, doc, vault, session, receipt);
    if RecoverStarts(s, vault, session) {
      StagedChangeIsExact(t, s, doc, SetupProtocol.Recover, vault, receipt, write, core, last);
    } else {
      NothingAwaited(t, write, core, last);
    }
    hide Apply, Run, Stored, WordsChanged, PutBack, IsChallenge;
  }

  lemma RecoverBegins(s: State, doc: nat, vault: string, session: Session, receipt: string)
    requires s.lock.None? && doc in s.docs && Fresh(s, receipt)
    ensures Apply(s, Begin(doc, DoRecover(vault, session, receipt))) ==
      if RecoverStarts(s, vault, session) then
        s.(docs := s.docs[doc := Document(None, receipt)], issued := s.issued + {receipt},
           lock := Some(Lock(doc, Staging(SetupProtocol.Recover, vault, Stored(s, vault), receipt))))
      else s.(docs := s.docs[doc := Document(None, "")])
  {
  }

  lemma ReplaceBegins(s: State, doc: nat, vault: string, session: Session, replacing: bool, receipt: string)
    requires s.lock.None? && doc in s.docs && Fresh(s, receipt)
    ensures Apply(s, Begin(doc, DoReplace(vault, session, replacing, receipt))) ==
      if ReplaceStarts(s, vault, session, replacing) then
        s.(docs := s.docs[doc := Document(None, receipt)], issued := s.issued + {receipt},
           lock := Some(Lock(doc, Staging(SetupProtocol.Replace, vault, Stored(s, vault), receipt))))
      else s.(docs := s.docs[doc := Document(None, "")])
  {
  }

  // Without an operation under the lock no reply is awaited.
  lemma NothingAwaited(s: State, a: Reply, b: Reply, c: Reply)
    requires s.lock.None?
    ensures Apply(Apply(Apply(s, Resume(a)), Resume(b)), Resume(c)) == s
  {
  }

  lemma ReplaceIsExact(
    s: State, doc: nat, vault: string, session: Session, replacing: bool, receipt: string, write: Reply, core: Reply,
    last: Reply)
    requires s.lock.None? && doc in s.docs && Fresh(s, receipt) && GoodReplies(SetupProtocol.Replace, write, core, last)
    ensures ReplaceLeaves(
      s, Run(s, [Begin(doc, DoReplace(vault, session, replacing, receipt)), Resume(write), Resume(core), Resume(last)]),
      doc, vault, session, replacing, receipt, write, core, last)
  {
    var steps := [Begin(doc, DoReplace(vault, session, replacing, receipt)), Resume(write), Resume(core), Resume(last)];
    FourSteps(s, steps);
    var t := Apply(s, steps[0]);
    ReplaceBegins(s, doc, vault, session, replacing, receipt);
    if ReplaceStarts(s, vault, session, replacing) {
      StagedChangeIsExact(t, s, doc, SetupProtocol.Replace, vault, receipt, write, core, last);
    } else {
      NothingAwaited(t, write, core, last);
    }
    hide Apply, Run, Stored, WordsChanged, PutBack, IsChallenge;
  }

  // ------------------------------------------------------------------ verify

  // The session that requireRecovery sees: an unknown vault makes it throw.
  predicate SessionUnknown(a: State, session: Session) {
    session.Some? && session.value !in a.words
  }

  // Every asked word is answered, white space around it aside.
  predicate AllAnswered(r: Recovery, answers: map<int, string>) {
    forall p :: p in r.positions ==> p in answers && 1 <= p <= |r.words| && Trim(answers[p]) == r.words[p - 1]
  }

  // The challenge is asked and passed.
  predicate VerifyPasses(a: State, doc: nat, session: Session, answers: map<int, string>)
    requires doc in a.docs
  {
    VerifyAsks(a, doc, session) && AllAnswered(a.docs[doc].recovery.value, answers)
  }

  // The document's recovery session is current and its vault unlocked.
  predicate VerifyAsks(a: State, doc: nat, session: Session)
    requires doc in a.docs
  {
    && a.docs[doc].recovery.Some?
    && session == Some(a.docs[doc].recovery.value.vault) && session.value in a.words
    && Stored(a, session.value).token == a.docs[doc].token
  }

  predicate Completes(a: State, doc: nat, session: Session, answers: map<int, string>, read: Reply, again: Session)
    requires doc in a.docs
  {
    VerifyPasses(a, doc, session, answers) && read.Done? && again == session
  }

  // Only a passed challenge writes, and then only that its vault is complete; a session that is
  // over is cleared.
  predicate VerifyLeaves(
    a: State, b: State, doc: nat, session: Session, answers: map<int, string>, read: Reply, again: Session, write: Reply)
    requires doc in a.docs
  {
    && b.words == a.words && b.issued == a.issued && b.known == a.known && b.lock.None?
    && b.verified == (if VerifyPasses(a, doc, session, answers)
         then a.verified[session.value := a.docs[doc].recovery.value.words] else a.verified)
    && b.prefs == (if Completes(a, doc, session, answers, read, again) && Applied(write)
         then a.prefs[session.value := Stored(a, session.value).(complete := true)] else a.prefs)
    && b.docs == (if VerifyClears(a, doc, session, answers, read, again, write)
         then a.docs[doc := Document(None, "")] else a.docs)
  }

  predicate VerifyClears(
    a: State, doc: nat, session: Session, answers: map<int, string>, read: Reply, again: Session, write: Reply)
    requires doc in a.docs
  {
    a.docs[doc].recovery.Some? &&
    if !VerifyAsks(a, doc, session) then !SessionUnknown(a, session)
    else
      && VerifyPasses(a, doc, session, answers) && read.Done?
      && if again == session then write.Done? else !SessionUnknown(a, again)
  }

  lemma AnsweredIsAllAnswered(r: Recovery, answers: map<int, string>)
    ensures Answered(r, answers) <==> AllAnswered(r, answers)
  {
    if Answered(r, answers) {
      forall p | p in r.positions ensures p in answers && 1 <= p <= |r.words| && Trim(answers[p]) == r.words[p - 1] {
        var i :| 0 <= i < |r.positions| && r.positions[i] == p;
      }
    }
    if AllAnswered(r, answers) {
      forall i | 0 <= i < |r.positions|
        ensures var p := r.positions[i]; p in answers && 1 <= p <= |r.words| && Trim(answers[p]) == r.words[p - 1]
      {
        assert r.positions[i] in r.positions;
      }
    }
  }

  lemma VerifyBegins(s: State, doc: nat, session: Session, answers: map<int, string>)
    requires s.lock.None? && doc in s.docs
    ensures Apply(s, Begin(doc, DoVerify(session, answers))) ==
      if VerifyPasses(s, doc, session, answers) then
        s.(verified := s.verified[session.value := s.docs[doc].recovery.value.words],
           lock := Some(Lock(doc, Reading(s.docs[doc].recovery.value))))
      else if s.docs[doc].recovery.Some? && !VerifyAsks(s, doc, session) && !SessionUnknown(s, session) then
        s.(docs := s.docs[doc := Document(None, "")])
      else s
  {
    if s.docs[doc].recovery.Some? { AnsweredIsAllAnswered(s.docs[doc].recovery.value, answers); }
    hide Answered, AllAnswered, Stored;
  }

  lemma VerifyIsExact(
    s: State, doc: nat, session: Session, answers: map<int, string>, read: Reply, again: Session, write: Reply)
    requires s.lock.None? && doc in s.docs && Ends(read) && Ends(write)
    ensures VerifyLeaves(
      s, Run(s, [Begin(doc, DoVerify(session, answers)), Resume(read), Resume(Observed(again, "")), Resume(write)]),
      doc, session, answers, read, again, write)
  {
    var steps := [Begin(doc, DoVerify(session, answers)), Resume(read), Resume(Observed(again, "")), Resume(write)];
    FourSteps(s, steps);
    var t := Apply(s, steps[0]);
    VerifyBegins(s, doc, session, answers);
    if VerifyPasses(s, doc, session, answers) {
      PassedVerifyIsExact(s, t, doc, session, answers, read, again, write);
    } else {
      NothingAwaited(t, read, Observed(again, ""), write);
    }
    hide Apply, Run, Stored, AllAnswered;
  }

  lemma PassedVerifyIsExact(
    s: State, t: State, doc: nat, session: Session, answers: map<int, string>, read: Reply, again: Session, write: Reply)
    requires s.lock.None? && doc in s.docs && Ends(read) && Ends(write) && VerifyPasses(s, doc, session, answers)
    requires t == s.(verified := s.verified[session.value := s.docs[doc].recovery.value.words],
      lock := Some(Lock(doc, Reading(s.docs[doc].recovery.value))))
    ensures VerifyLeaves(s, Apply(Apply(Apply(t, Resume(read)), Resume(Observed(again, ""))), Resume(write)),
      doc, session, answers, read, again, write)
  {
    var r := s.docs[doc].recovery.value;
    var p := Stored(s, r.vault);
    StoredInRecord(s, t, r.vault);
    hide Stored, AllAnswered;
    var t1 := Apply(t, Resume(read));
    if read.Done? {
      assert t1 == t.(lock := Some(Lock(doc, Rechecking(r, p))));
      hide Apply;
      VerifyRechecks(s, t1, doc, r, again);
      var t2 := Apply(t1, Resume(Observed(again, "")));
      if again == session { VerifyWrites(t2, doc, r, p, write); } else { LateRepliesAreIgnored(t2, write); }
    } else {
      assert t1 == t.(lock := None);
      hide Apply;
      LateRepliesAreIgnored(t1, Observed(again, ""));
      LateRepliesAreIgnored(t1, write);
    }
  }

  lemma VerifyRechecks(s: State, t: State, doc: nat, r: Recovery, again: Session)
    requires doc in t.docs && t.docs[doc].recovery == Some(r) && r.vault in s.words && t.words == s.words && t.prefs == s.prefs
    requires Stored(s, r.vault).token == t.docs[doc].token
    requires t.lock == Some(Lock(doc, Rechecking(r, Stored(s, r.vault))))
    ensures Apply(t, Resume(Observed(again, ""))) ==
      if again == Some(r.vault) then t.(lock := Some(Lock(doc, Completing(r, Stored(s, r.vault)))))
      else if SessionUnknown(s, again) then t.(lock := None)
      else t.(docs := t.docs[doc := Document(None, "")], lock := None)
  {
    StoredInRecord(s, t, r.vault);
    hide Stored;
  }

  lemma VerifyWrites(t: State, doc: nat, r: Recovery, p: Preference, write: Reply)
    requires doc in t.docs && Ends(write) && t.lock == Some(Lock(doc, Completing(r, p)))
    ensures Apply(t, Resume(write)) == t.(
      prefs := if Applied(write) then t.prefs[r.vault := p.(complete := true)] else t.prefs,
      docs := if write.Done? then t.docs[doc := Document(None, "")] else t.docs,
      lock := None)
  {
  }

  lemma StoredInRecord(s: State, t: State, vault: string)
    requires t.prefs == s.prefs
    ensures Stored(t, vault) == Stored(s, vault)
  {
  }

  // ------------------------------------------------------------------ enroll and create

  predicate GoodDevice(deviceName: string, duration: int) {
    1 <= |Trim(deviceName)| <= 80 && duration in {60000, 300000, 600000, 1800000, 3600000}
  }

  // The words are taken over only when the unfinished record was written and the core call changed
  // them; the token is new as soon as the parameters are good.
  predicate EnrollLeaves(
    a: State, b: State, doc: nat, vault: string, deviceName: string, duration: int, receipt: string, write: Reply,
    core: Reply, last: Reply)
    requires doc in a.docs
  {
    var starts := GoodDevice(deviceName, duration) && vault !in a.words;
    var changes := starts && write.Done? && core.Changed?;
    && b.lock.None?
    && b.issued == (if GoodDevice(deviceName, duration) then a.issued + {receipt} else a.issued)
    && b.known == (if starts then a.known + {vault} else a.known)
    && b.prefs == (if starts && Applied(write)
         then a.prefs[vault := Preference(duration, Trim(deviceName), false, receipt)] else a.prefs)
    && b.words == (if changes then a.words[vault := core.words] else a.words)
    && b.verified == (if changes then a.verified - {vault} else a.verified)
    && b.docs ==
         if changes && last.Ready? then a.docs[doc := Document(Some(Recovery(vault, core.words, last.positions, receipt)), receipt)]
         else if GoodDevice(deviceName, duration) then a.docs[doc := Document(a.docs[doc].recovery, receipt)]
         else a.docs
  }

  lemma EnrollBegins(s: State, doc: nat, vault: string, deviceName: string, duration: int, receipt: string)
    requires s.lock.None? && doc in s.docs && Fresh(s, receipt)
    ensures Apply(s, Begin(doc, DoEnroll(vault, deviceName, duration, receipt))) ==
      if !GoodDevice(deviceName, duration) then s
      else
        var t := s.(docs := s.docs[doc := Document(s.docs[doc].recovery, receipt)], issued := s.issued + {receipt});
        if vault in s.words then t
        else t.(known := s.known + {vault},
          lock := Some(Lock(doc, EnrollStaging(vault, Preference(duration, Trim(deviceName), false, receipt), receipt))))
  {
    hide Trim;
  }

  lemma EnrollIsExact(
    s: State, doc: nat, vault: string, deviceName: string, duration: int, receipt: string, write: Reply, core: Reply,
    last: Reply)
    requires s.lock.None? && doc in s.docs && Fresh(s, receipt) && Ends(write)
    requires core.Changed? || core == Rejected(None)
    requires last.Ready? && (core.Changed? ==> IsChallenge(last.positions, |core.words|))
    ensures EnrollLeaves(
      s, Run(s, [Begin(doc, DoEnroll(vault, deviceName, duration, receipt)), Resume(write), Resume(core), Resume(last)]),
      doc, vault, deviceName, duration, receipt, write, core, last)
  {
    var steps := [Begin(doc, DoEnroll(vault, deviceName, duration, receipt)), Resume(write), Resume(core), Resume(last)];
    FourSteps(s, steps);
    EnrollBegins(s, doc, vault, deviceName, duration, receipt);
    var t := Apply(s, steps[0]);
    hide Trim, Run, IsChallenge, Apply, GoodDevice;
    if t.lock.None? {
      NothingAwaited(t, write, core, last);
    } else {
      hide EnrollLeaves;
      EnrollGoesOn(s, t, doc, vault, deviceName, duration, receipt, write, core, last);
    }
  }

  lemma EnrollGoesOn(
    s: State, t: State, doc: nat, vault: string, deviceName: string, duration: int, receipt: string, write: Reply,
    core: Reply, last: Reply)
    requires doc in s.docs && Ends(write) && (core.Changed? || core == Rejected(None))
    requires last.Ready? && (core.Changed? ==> IsChallenge(last.positions, |core.words|))
    requires GoodDevice(deviceName, duration) && vault !in s.words
    requires t == s.(docs := s.docs[doc := Document(s.docs[doc].recovery, receipt)], issued := s.issued + {receipt},
      known := s.known + {vault},
      lock := Some(Lock(doc, EnrollStaging(vault, Preference(duration, Trim(deviceName), false, receipt), receipt))))
    ensures EnrollLeaves(s, Apply(Apply(Apply(t, Resume(write)), Resume(core)), Resume(last)),
      doc, vault, deviceName, duration, receipt, write, core, last)
  {
    hide Trim, IsChallenge, Apply, GoodDevice;
    var t1 := Apply(t, Resume(write));
    EnrollStages(t, doc, vault, t.lock.value.phase.settings, receipt, write);
    if write.Done? {
      EnrollChanges(t1, doc, vault, receipt, core, last);
    } else {
      LateRepliesAreIgnored(t1, core);
      LateRepliesAreIgnored(t1, last);
    }
  }

  lemma EnrollStages(t: State, doc: nat, vault: string, settings: Preference, receipt: string, write: Reply)
    requires doc in t.docs && Ends(write) && t.lock == Some(Lock(doc, EnrollStaging(vault, settings, receipt)))
    ensures Apply(t, Resume(write)) == t.(
      prefs := if Applied(write) then t.prefs[vault := settings] else t.prefs,
      lock := if write.Done? then Some(Lock(doc, Enrolling(vault, receipt))) else None)
  {
  }

  lemma EnrollChanges(t: State, doc: nat, vault: string, receipt: string, core: Reply, last: Reply)
    requires doc in t.docs && (core.Changed? || core == Rejected(None)) && t.lock == Some(Lock(doc, Enrolling(vault, receipt)))
    requires last.Ready? && (core.Changed? ==> IsChallenge(last.positions, |core.words|))
    ensures Apply(Apply(t, Resume(core)), Resume(last)) ==
      if core.Changed? then
        t.(words := t.words[vault := core.words], verified := t.verified - {vault},
           docs := t.docs[doc := Document(Some(Recovery(vault, core.words, last.positions, receipt)), receipt)], lock := None)
      else t.(lock := None)
  {
    hide IsChallenge;
  }

  // The vault exists as soon as the parameters are good and no other does; its record is written
  // and its words are remembered only in an unlocked session.
  predicate CreateLeaves(
    a: State, b: State, doc: nat, vault: string, newWords: Words, deviceName: string, duration: int, session: Session,
    receipt: string, write: Reply, last: Reply)
    requires doc in a.docs
  {
    var starts := a.words.Keys == {} && GoodDevice(deviceName, duration);
    && b.lock.None?
    && b.words == (if starts then map[vault := newWords] else a.words)
    && b.verified == (if starts then a.verified - {vault} else a.verified)
    && b.known == (if starts then a.known + {vault} else a.known)
    && b.issued == (if starts && session.Some? then a.issued + {receipt} else a.issued)
    && b.prefs == (if starts && session.Some? && Applied(write)
         then a.prefs[vault := Preference(duration, Trim(deviceName), false, receipt)] else a.prefs)
    && b.docs ==
         if !starts || session.None? then a.docs
         else if write.Done? && last.Ready? then
           a.docs[doc := Document(Some(Recovery(vault, newWords, last.positions, receipt)), receipt)]
         else a.docs[doc := Document(a.docs[doc].recovery, receipt)]
  }

  lemma CreateIsExact(
    s: State, doc: nat, vault: string, newWords: Words, deviceName: string, duration: int, session: Session,
    receipt: string, write: Reply, last: Reply)
    requires s.lock.None? && doc in s.docs && Fresh(s, receipt) && vault !in s.known && Ends(write)
    requires session.Some? ==> session.value == vault
    requires last.Ready? && IsChallenge(last.positions, |newWords|)
    ensures CreateLeaves(
      s, Run(s, [Begin(doc, DoCreate(vault, newWords, deviceName, duration)), Resume(Observed(session, receipt)),
        Resume(write), Resume(last)]),
      doc, vault, newWords, deviceName, duration, session, receipt, write, last)
  {
    var steps := [Begin(doc, DoCreate(vault, newWords, deviceName, duration)), Resume(Observed(session, receipt)),
      Resume(write), Resume(last)];
    FourSteps(s, steps);
    CreateBegins(s, doc, vault, newWords, deviceName, duration);
    var t := Apply(s, steps[0]);
    hide Trim, Run, IsChallenge, Apply, GoodDevice;
    if t.lock.None? {
      NothingAwaited(t, Observed(session, receipt), write, last);
    } else {
      var t1 := Apply(t, steps[1]);
      CreateLooks(t, doc, vault, newWords, duration, t.lock.value.phase.deviceName, session, receipt);
      if session.None? {
        LateRepliesAreIgnored(t1, write);
        LateRepliesAreIgnored(t1, last);
      } else {
        CreateStages(t1, doc, vault, newWords, t1.lock.value.phase.settings, receipt, write, last);
      }
    }
  }

  lemma CreateBegins(s: State, doc: nat, vault: string, newWords: Words, deviceName: string, duration: int)
    requires s.lock.None? && doc in s.docs && vault !in s.known
    ensures Apply(s, Begin(doc, DoCreate(vault, newWords, deviceName, duration))) ==
      if s.words.Keys == {} && GoodDevice(deviceName, duration) then
        s.(words := map[vault := newWords], verified := s.verified - {vault}, known := s.known + {vault},
           lock := Some(Lock(doc, CreateInspecting(vault, newWords, duration, Trim(deviceName)))))
      else s
  {
    hide Trim;
  }

  lemma CreateLooks(
    t: State, doc: nat, vault: string, newWords: Words, duration: int, deviceName: string, session: Session, receipt: string)
    requires doc in t.docs && Fresh(t, receipt) && (session.Some? ==> session.value == vault)
    requires t.lock == Some(Lock(doc, CreateInspecting(vault, newWords, duration, deviceName)))
    ensures Apply(t, Resume(Observed(session, receipt))) ==
      if session.None? then t.(lock := None)
      else t.(docs := t.docs[doc := Document(t.docs[doc].recovery, receipt)], issued := t.issued + {receipt},
        lock := Some(Lock(doc, CreateStaging(vault, newWords, Preference(duration, deviceName, false, receipt), receipt))))
  {
  }

  lemma CreateStages(
    t: State, doc: nat, vault: string, newWords: Words, settings: Preference, receipt: string, write: Reply, last: Reply)
    requires doc in t.docs && Ends(write) && t.lock == Some(Lock(doc, CreateStaging(vault, newWords, settings, receipt)))
    requires last.Ready? && IsChallenge(last.positions, |newWords|)
    ensures Apply(Apply(t, Resume(write)), Resume(last)) == t.(
      prefs := if Applied(write) then t.prefs[vault := settings] else t.prefs,
      docs := if write.Done? then t.docs[doc := Document(Some(Recovery(vault, newWords, last.positions, receipt)), receipt)] else t.docs,
      lock := None)
  {
    hide IsChallenge;
  }

  // ------------------------------------------------------------------ settings and removal

  predicate DurationStarts(a: State, vault: string, session: Session, duration: int) {
    && vault in a.words && (session.None? || session == Some(vault))
    && duration in {60000, 300000, 600000, 1800000, 3600000}
  }

  lemma SaveDurationIsExact(s: State, doc: nat, vault: string, session: Session, duration: int, write: Reply)
    requires s.lock.None? && doc in s.docs && Ends(write)
    ensures Run(s, [Begin(doc, DoSaveDuration(vault, session, duration)), Resume(write)]) ==
      if DurationStarts(s, vault, session, duration) && Applied(write)
      then s.(prefs := s.prefs[vault := Stored(s, vault).(duration := duration)]) else s
  {
    var begin := Begin(doc, DoSaveDuration(vault, session, duration));
    TwoSteps(s, begin, Resume(write));
    hide Run, Stored;
    var settings := Stored(s, vault).(duration := duration);
    if DurationStarts(s, vault, session, duration) {
      assert Apply(s, begin) == s.(lock := Some(Lock(doc, Saving(vault, settings))));
      hide Apply;
      SettingsAreSaved(s, doc, vault, settings, write);
    } else {
      assert Apply(s, begin) == s;
      hide Apply;
      LateRepliesAreIgnored(s, write);
    }
  }

  lemma SettingsAreSaved(s: State, doc: nat, vault: string, settings: Preference, write: Reply)
    requires s.lock.None? && doc in s.docs && Ends(write)
    ensures Apply(s.(lock := Some(Lock(doc, Saving(vault, settings)))), Resume(write)) ==
      if Applied(write) then s.(prefs := s.prefs[vault := settings]) else s
  {
  }

  lemma SaveDeviceIsExact(s: State, doc: nat, vault: string, deviceName: string, duration: int, write: Reply)
    requires s.lock.None? && doc in s.docs && Ends(write)
    ensures Run(s, [Begin(doc, DoSaveDevice(vault, deviceName, duration)), Resume(write)]) ==
      if vault in s.words && GoodDevice(deviceName, duration) && Applied(write)
      then s.(prefs := s.prefs[vault := Stored(s, vault).(deviceName := Trim(deviceName), duration := duration)]) else s
  {
    var begin := Begin(doc, DoSaveDevice(vault, deviceName, duration));
    TwoSteps(s, begin, Resume(write));
    hide Run, Stored, Trim;
    var settings := Stored(s, vault).(deviceName := Trim(deviceName), duration := duration);
    if vault in s.words && GoodDevice(deviceName, duration) {
      assert Apply(s, begin) == s.(lock := Some(Lock(doc, Saving(vault, settings))));
      hide Apply;
      SettingsAreSaved(s, doc, vault, settings, write);
    } else {
      assert Apply(s, begin) == s;
      hide Apply;
      LateRepliesAreIgnored(s, write);
    }
  }

  lemma RemoveIsExact(s: State, doc: nat, vault: string, cleanup: Reply)
    requires s.lock.None? && doc in s.docs && Ends(cleanup)
    ensures Run(s, [Begin(doc, DoRemove(vault)), Resume(cleanup)]) ==
      if vault !in s.words then s
      else s.(words := s.words - {vault}, verified := s.verified - {vault},
        prefs := if Applied(cleanup) then s.prefs - {vault} else s.prefs)
  {
    TwoSteps(s, Begin(doc, DoRemove(vault)), Resume(cleanup));
    hide Run;
  }

  lemma TwoSteps(s: State, a: Step, b: Step)
    ensures Run(s, [a, b]) == Apply(Apply(s, a), b)
  {
    hide Apply;
    assert [a, b][1..] == [b] && [b][1..] == [];
    assert Run(Apply(s, a), [b]) == Run(Apply(Apply(s, a), b), []);
  }
}
