// Recovery-word setup as a step system: any number of documents, vaults and operations, one shared
// lock, and a crash possible between any two awaits.
module SetupProtocol {
  import opened Common
  import opened Texts
  import opened ChallengePositions

  type Words = seq<string>

  datatype Preference = Preference(duration: int, deviceName: string, complete: bool, token: string)

  const DEFAULT_PREFERENCE := Preference(600000, "This browser", false, "")

  // The recovery session of a document. Its receipt stands for the identity of the object.
  datatype Recovery = Recovery(vault: string, words: Words, positions: seq<int>, receipt: string)

  datatype Document = Document(recovery: Option<Recovery>, token: string)

  const CLEARED := Document(None, "")

  datatype Kind = Recover | Replace

  // What the holder of the setup lock is waiting for.
  datatype Phase =
    | Staging(kind: Kind, vault: string, settings: Preference, receipt: string)
    | Changing(kind: Kind, vault: string, settings: Preference, receipt: string)
    | Restoring(vault: string, settings: Preference)
    | Activating(vault: string, words: Words, receipt: string, unlocks: bool)
    | Reading(current: Recovery)
    | Rechecking(current: Recovery, settings: Preference)
    | Completing(current: Recovery, settings: Preference)
    | Saving(vault: string, settings: Preference)
    | Cleaning(vault: string)
    | EnrollStaging(vault: string, settings: Preference, receipt: string)
    | Enrolling(vault: string, receipt: string)
    | CreateInspecting(vault: string, words: Words, duration: int, deviceName: string)
    | CreateStaging(vault: string, words: Words, settings: Preference, receipt: string)

  datatype Lock = Lock(holder: nat, phase: Phase)

  // `words` holds, for each existing vault, the words that protect its access records; `verified`
  // the words that last passed the challenge; `issued` every receipt drawn so far; `known` every
  // vault id used so far.
  datatype State = State(
    docs: map<nat, Document>, prefs: map<string, Preference>, words: map<string, Words>,
    verified: map<string, Words>, issued: set<string>, known: set<string>, lock: Option<Lock>)

  const INITIAL := State(map[], map[], map[], map[], {}, {}, None)

  const LOCK_DELAYS: set<int> := {60000, 300000, 600000, 1800000, 3600000}

  // `preference(vaultId)`: the stored record with an unsupported duration replaced by the default.
  function Stored(s: State, vault: string): Preference {
    if vault !in s.prefs then DEFAULT_PREFERENCE
    else
      var p := s.prefs[vault];
      if p.duration in LOCK_DELAYS then p else p.(duration := DEFAULT_PREFERENCE.duration)
  }

  // ------------------------------------------------------------------ steps

  // Which vault the session has unlocked, as the operation observes it.
  type Session = Option<string>

  datatype Operation =
    | DoRecover(vault: string, session: Session, receipt: string)
    | DoReplace(vault: string, session: Session, replacing: bool, receipt: string)
    | DoVerify(session: Session, answers: map<int, string>)
    | DoSaveDuration(vault: string, session: Session, duration: int)
    | DoSaveDevice(vault: string, deviceName: string, duration: int)
    | DoRemove(vault: string)
    | DoEnroll(vault: string, deviceName: string, duration: int, receipt: string)
    | DoCreate(vault: string, words: Words, deviceName: string, duration: int)

  // How the awaited call ends. A rejected storage write may still have been applied, and `late`
  // is a core call that rejects although it has changed the words.
  datatype Reply =
    | Done
    | Lost(applied: bool)
    | Changed(words: Words)
    | Rejected(late: Option<Words>)
    | Observed(session: Session, receipt: string)
    | Ready(positions: seq<int>)

  datatype Step =
    | Open(doc: nat)
    | Crash(doc: nat)
    | Clear(doc: nat)
    | Begin(doc: nat, op: Operation)
    | Resume(reply: Reply)

  function SetDoc(s: State, doc: nat, d: Document): State {
    s.(docs := s.docs[doc := d])
  }

  function SetPhase(s: State, doc: nat, phase: Phase): State {
    s.(lock := Some(Lock(doc, phase)))
  }

  function Release(s: State): State {
    s.(lock := None)
  }

  function Write(s: State, vault: string, p: Preference): State {
    s.(prefs := s.prefs[vault := p])
  }

  function Issue(s: State, receipt: string): State {
    s.(issued := s.issued + {receipt})
  }

  // crypto.randomUUID never repeats.
  predicate Fresh(s: State, receipt: string) {
    receipt != "" && receipt !in s.issued
  }

  // `inspect(selected)`: None is a throw; otherwise the selected vault and whether it is unlocked.
  function Inspect(s: State, session: Session, selected: string): Option<(Option<string>, bool)> {
    if session.Some? then
      if session.value in s.words then Some((session, true)) else None
    else Some((if selected in s.words then Some(selected) else None, false))
  }

  predicate Unlocked(s: State, session: Session, vault: string) {
    Inspect(s, session, vault) == Some((Some(vault), true))
  }

  // requireRecovery, for a document whose recovery session is `current`.
  function Recheck(s: State, session: Session, doc: nat, current: Recovery): Option<bool>
    requires doc in s.docs
  {
    if Inspect(s, session, current.vault).None? then None
    else Some(Unlocked(s, session, current.vault) && Stored(s, current.vault).token == s.docs[doc].token)
  }

  // The challenge: every asked word, with surrounding white space ignored.
  predicate Answered(r: Recovery, answers: map<int, string>) {
    forall i :: 0 <= i < |r.positions| ==>
      var p := r.positions[i];
      p in answers && 1 <= p <= |r.words| && Trim(answers[p]) == r.words[p - 1]
  }

  predicate ValidDevice(deviceName: string, duration: int) {
    1 <= |Trim(deviceName)| <= 80 && duration in LOCK_DELAYS
  }

  function BeginOp(s: State, doc: nat, op: Operation): State
    requires doc in s.docs
  {
    match op
    case DoRecover(vault, session, receipt) =>
      var cleared := SetDoc(s, doc, CLEARED);
      if Inspect(s, session, vault) != Some((Some(vault), false)) then cleared
      else StageReceipt(cleared, doc, Recover, vault, receipt)
    case DoReplace(vault, session, replacing, receipt) =>
      var cleared := SetDoc(s, doc, CLEARED);
      if !Unlocked(s, session, vault) || (Stored(s, vault).complete && !replacing) then cleared
      else StageReceipt(cleared, doc, Replace, vault, receipt)
    case DoVerify(session, answers) =>
      if s.docs[doc].recovery.None? then s
      else
        var current := s.docs[doc].recovery.value;
        (match Recheck(s, session, doc, current)
         case None => s
         case Some(false) => SetDoc(s, doc, CLEARED)
         case Some(true) =>
           if !Answered(current, answers) then s
           else SetPhase(s.(verified := s.verified[current.vault := current.words]), doc, Reading(current)))
    case DoSaveDuration(vault, session, duration) =>
      var seen := Inspect(s, session, vault);
      if seen.None? || seen.value.0 != Some(vault) || duration !in LOCK_DELAYS then s
      else SetPhase(s, doc, Saving(vault, Stored(s, vault).(duration := duration)))
    case DoSaveDevice(vault, deviceName, duration) =>
      if !ValidDevice(deviceName, duration) || vault !in s.words then s
      else SetPhase(s, doc, Saving(vault, Stored(s, vault).(deviceName := Trim(deviceName), duration := duration)))
    case DoRemove(vault) =>
      if vault !in s.words then s
      else SetPhase(s.(words := s.words - {vault}, verified := s.verified - {vault}), doc, Cleaning(vault))
    case DoEnroll(vault, deviceName, duration, receipt) =>
      if !ValidDevice(deviceName, duration) then s
      else
        var t := SetDoc(Issue(s, receipt), doc, s.docs[doc].(token := receipt));
        if vault in s.words then t
        else SetPhase(t.(known := t.known + {vault}), doc,
          EnrollStaging(vault, Preference(duration, Trim(deviceName), false, receipt), receipt))
    case DoCreate(vault, words, deviceName, duration) =>
      if s.words.Keys != {} || !ValidDevice(deviceName, duration) then s
      else SetPhase(
        s.(words := s.words[vault := words], verified := s.verified - {vault}, known := s.known + {vault}), doc,
        CreateInspecting(vault, words, duration, Trim(deviceName)))
  }

  function StageReceipt(s: State, doc: nat, kind: Kind, vault: string, receipt: string): State {
    SetPhase(SetDoc(Issue(s, receipt), doc, Document(None, receipt)), doc,
      Staging(kind, vault, Stored(s, vault), receipt))
  }

  function Remember(s: State, doc: nat, vault: string, words: Words, receipt: string, positions: seq<int>): State {
    Release(SetDoc(s, doc, Document(Some(Recovery(vault, words, positions, receipt)), receipt)))
  }

  function SetToken(s: State, doc: nat, token: string): State {
    if doc in s.docs then SetDoc(s, doc, s.docs[doc].(token := token)) else s
  }

  // A storage write: applied or not, answered or rejected.
  function Settle(s: State, vault: string, p: Preference, reply: Reply): State {
    if reply.Done? || (reply.Lost? && reply.applied) then Write(s, vault, p) else s
  }

  predicate Ends(reply: Reply) {
    reply.Done? || reply.Lost?
  }

  function ResumeOp(s: State, doc: nat, phase: Phase, reply: Reply): State
    requires doc in s.docs
  {
    match phase
    case Staging(kind, vault, settings, receipt) =>
      if !Ends(reply) then s
      else
        var t := Settle(s, vault, settings.(complete := false, token := receipt), reply);
        if reply.Done? then SetPhase(t, doc, Changing(kind, vault, settings, receipt))
        else if kind == Recover then SetPhase(SetToken(t, doc, settings.token), doc, Restoring(vault, settings))
        else Release(t)
    case Changing(kind, vault, settings, receipt) =>
      (match reply
       case Changed(words) =>
         SetPhase(s.(words := s.words[vault := words]), doc, Activating(vault, words, receipt, kind == Recover))
       case Rejected(late) =>
         var t := if late.None? then s else s.(words := s.words[vault := late.value]);
         SetPhase(SetToken(t, doc, settings.token), doc, Restoring(vault, settings))
       case _ => s)
    case Restoring(vault, settings) => if Ends(reply) then Release(Settle(s, vault, settings, reply)) else s
    case Activating(vault, words, receipt, unlocks) =>
      if reply.Ready? && IsChallenge(reply.positions, |words|) then Remember(s, doc, vault, words, receipt, reply.positions)
      else if reply.Lost? && unlocks then Release(s)
      else s
    case Reading(current) =>
      if reply.Done? then SetPhase(s, doc, Rechecking(current, Stored(s, current.vault)))
      else if reply.Lost? then Release(s) else s
    case Rechecking(current, settings) =>
      if !reply.Observed? then s
      else if s.docs[doc].recovery.None? then Release(s)
      else
        (match Recheck(s, reply.session, doc, s.docs[doc].recovery.value)
         case None => Release(s)
         case Some(false) => Release(SetDoc(s, doc, CLEARED))
         case Some(true) => SetPhase(s, doc, Completing(current, settings)))
    case Completing(current, settings) =>
      if !Ends(reply) then s
      else
        var t := Settle(s, current.vault, settings.(complete := true), reply);
        Release(if reply.Done? then SetDoc(t, doc, CLEARED) else t)
    case Saving(vault, settings) => if Ends(reply) then Release(Settle(s, vault, settings, reply)) else s
    case Cleaning(vault) =>
      if !Ends(reply) then s
      else Release(if reply == Lost(false) then s else s.(prefs := s.prefs - {vault}))
    case EnrollStaging(vault, settings, receipt) =>
      if !Ends(reply) then s
      else
        var t := Settle(s, vault, settings, reply);
        if reply.Done? then SetPhase(t, doc, Enrolling(vault, receipt)) else Release(t)
    case Enrolling(vault, receipt) =>
      (match reply
       case Changed(words) => SetPhase(Enroll(s, vault, words), doc, Activating(vault, words, receipt, false))
       case Rejected(late) => Release(if late.None? then s else Enroll(s, vault, late.value))
       case _ => s)
    case CreateInspecting(vault, words, duration, deviceName) =>
      (match reply
       case Observed(session, receipt) =>
         if session.None? then Release(s)
         else if session.value != vault || !Fresh(s, receipt) then s
         else SetPhase(SetDoc(Issue(s, receipt), doc, s.docs[doc].(token := receipt)), doc,
           CreateStaging(vault, words, Preference(duration, deviceName, false, receipt), receipt))
       case Lost(_) => Release(s)
       case _ => s)
    case CreateStaging(vault, words, settings, receipt) =>
      if !Ends(reply) then s
      else
        var t := Settle(s, vault, settings, reply);
        if reply.Done? then SetPhase(t, doc, Activating(vault, words, receipt, false)) else Release(t)
  }

  function Enroll(s: State, vault: string, words: Words): State {
    s.(words := s.words[vault := words], verified := s.verified - {vault})
  }

  // Receipts and the ids of new vaults are new.
  predicate FreshOp(s: State, op: Operation) {
    match op
    case DoRecover(_, _, receipt) => Fresh(s, receipt)
    case DoReplace(_, _, _, receipt) => Fresh(s, receipt)
    case DoEnroll(_, _, _, receipt) => Fresh(s, receipt)
    case DoCreate(vault, _, _, _) => vault !in s.known
    case _ => true
  }

  // A step that is not enabled changes nothing. Operations wait for the lock; a crash of its
  // holder releases it. The recovery session may be cleared at any time.
  function Apply(s: State, step: Step): State {
    match step
    case Open(doc) => if doc in s.docs then s else SetDoc(s, doc, CLEARED)
    case Crash(doc) =>
      s.(docs := s.docs - {doc}, lock := if s.lock.Some? && s.lock.value.holder == doc then None else s.lock)
    case Clear(doc) => if doc in s.docs then SetDoc(s, doc, CLEARED) else s
    case Begin(doc, op) => if doc !in s.docs || s.lock.Some? || !FreshOp(s, op) then s else BeginOp(s, doc, op)
    case Resume(reply) =>
      if s.lock.None? || s.lock.value.holder !in s.docs then s
      else ResumeOp(s, s.lock.value.holder, s.lock.value.phase, reply)
  }

  function Run(s: State, steps: seq<Step>): State
    decreases |steps|
  {
    if steps == [] then s else Run(Apply(s, steps[0]), steps[1..])
  }

  // LFSPM assumes, in its comments, that a core call that rejects has changed nothing.
  predicate Honest(step: Step) {
    step.Resume? && step.reply.Rejected? ==> step.reply.late.None?
  }
}
