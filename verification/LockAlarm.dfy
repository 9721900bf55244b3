// The work behind a vault-lock alarm, step by step, and exactly when its handler keeps its promise.
module LockAlarm {
  import opened Common
  import opened UriComponents
  import opened AlarmNames
  import opened AlarmWorld

  // ------------------------------------------------------------------ the cleanup service

  // Where the cleanup of the session fails: before its records are gone, or with them gone.
  datatype Trouble = NoTrouble | BeforeRemoval(sessionGone: bool) | AfterRemoval

  // How the awaits of a cleanup end.
  datatype Cleanup = Cleanup(
    initialReadOk: bool, between: Option<World>, claimReadOk: bool, sessionReadOk: bool, trouble: Trouble,
    clipboard: Attempt, clipboardAlarm: Attempt, finalReadOk: bool, removal: Attempt, cancel: Attempt)

  datatype Prepared = PrepareThrew | PreparedStale | PreparedClean(failed: bool)

  function ClipboardCleared(w: World, c: Cleanup): World {
    if w.clipboard.None? || !TookEffect(c.clipboard) then w
    else
      var t := w.(clipboard := None);
      if c.clipboard.ok then Disarm(t, Task(ClearClipboard, w.clipboard.value.actionId), c.clipboardAlarm) else t
  }

  predicate ClipboardFailed(w: World, c: Cleanup) {
    w.clipboard.Some? && !(c.clipboard.ok && c.clipboardAlarm.ok)
  }

  // The stored lock task is of the vault that is unlocked, if any is.
  predicate OfActiveSession(w: World) {
    w.lock.Some? && w.session.Some? ==> w.session.value == w.lock.value.vaultId
  }

  // prepareCleanup: a lock task of another vault than the active one is stale. An unreadable
  // session makes the call fail in the end, whether or not the records are removed.
  function Prepare(w: World, c: Cleanup): (World, Prepared) {
    if c.sessionReadOk && !OfActiveSession(w) then (w, PreparedStale)
    else
      var cleared := ClipboardCleared(w, c);
      match c.trouble
      case BeforeRemoval(gone) => (if gone then cleared.(session := None) else cleared, PrepareThrew)
      case AfterRemoval => (cleared.(session := None), PreparedClean(true))
      case NoTrouble =>
        (cleared.(session := None), PreparedClean(!c.initialReadOk || !c.sessionReadOk || ClipboardFailed(w, c)))
  }

  // removeIfActionIsActive: None is a throw.
  function RemovedIfActive(w: World, actionId: Units, readOk: bool, a: Attempt): (World, Option<bool>) {
    if !ValidActionId(actionId) || !readOk then (w, None)
    else if !HasLock(w, actionId) then (w, Some(false))
    else (if TookEffect(a) then w.(lock := None) else w, if a.ok then Some(true) else None)
  }

  // finalizeLockTask; false is a throw.
  function Finalize(w: World, task: Task, c: Cleanup): (World, bool) {
    var r := RemovedIfActive(w, task.actionId, c.finalReadOk, c.removal);
    if r.1.None? then (r.0, false) else (Disarm(r.0, task, c.cancel), c.cancel.ok)
  }

  // The world in which the claimed task is compared with the session.
  function Decided(w: World, task: Task, c: Cleanup): World {
    Meanwhile(w, c.between, task)
  }

  // The cleanup of an action; false is a throw.
  function CleanUp(w: World, task: Task, c: Cleanup): (World, bool) {
    if c.initialReadOk && !HasLock(w, task.actionId) then (w, true)
    else
      var d := Decided(w, task, c);
      if !ValidActionId(task.actionId) || !c.claimReadOk then (d, false)
      else if !HasLock(d, task.actionId) then (d, true)
      else
        var p := Prepare(d, c);
        match p.1
        case PrepareThrew => (p.0, false)
        case PreparedStale => (p.0, true)
        case PreparedClean(failed) =>
          var f := Finalize(p.0, task, c);
          (f.0, !failed && f.1)
  }

  // A cleanup that returns has ended the task, unless the task is of another vault than the
  // session; then it returns as well, and leaves everything as it was.
  lemma CleanUpEndsOwnTask(w: World, task: Task, c: Cleanup)
    requires task.name == LockVault && EncodeAlarmName(task).Some?
    ensures var r := CleanUp(w, task, c);
      && Rely(w, r.0, task)
      && (r.1 && OfActiveSession(Decided(w, task, c)) ==> !IsActive(r.0, task))
      && (r.1 && IsActive(r.0, task) ==> r.0 == Decided(w, task, c) && !OfActiveSession(Decided(w, task, c)))
  {
    hide EncodeAlarmName;
    ClipboardCleanupKeepsLock(Decided(w, task, c), task, c);
    hide ClipboardCleared;
  }

  lemma ClipboardCleanupKeepsLock(w: World, task: Task, c: Cleanup)
    requires task.name == LockVault && EncodeAlarmName(task).Some?
    ensures var t := ClipboardCleared(w, c);
      t.lock == w.lock && t.session == w.session && (Pending(w, task) ==> Pending(t, task))
  {
    hide EncodeAlarmName;
    if w.clipboard.Some? { NamesAreInjective(task, Task(ClearClipboard, w.clipboard.value.actionId)); }
  }

  // ------------------------------------------------------------------ the handler

  // How the awaits of the handler end, and what others do before them.
  datatype Choices = Choices(
    beforeRead: Option<World>, readOk: bool, beforeSchedule: Option<World>, schedule: Attempt,
    beforeCleanup: Option<World>, cleanup: Cleanup, beforeLast: Option<World>, again: Attempt, cancel: Attempt)

  // Nothing happens in between.
  predicate Quiet(c: Choices) {
    c.beforeRead.None? && c.beforeSchedule.None? && c.beforeCleanup.None? && c.cleanup.between.None? && c.beforeLast.None?
  }

  function ReplyOf(ok: bool): ClearReply {
    if ok then Cleared else ClearThrew
  }

  // What the handler of a vault-lock alarm leaves, and what it did.
  function Handled(w: World, task: Task, name: Units, now: int, c: Choices): (World, Outcome, seq<Effect>) {
    var runAt := now + RETRY_DELAY_MS;
    var read := Meanwhile(w, c.beforeRead, task);
    var armed := Arm(Meanwhile(read, c.beforeSchedule, task), task, c.schedule);
    if !c.readOk then (armed, Threw(ReadFailed), [Scheduled(name, runAt, c.schedule.ok)])
    else if !HasLock(read, task.actionId) then (read, Returned, [])
    else
      var cleanup := CleanUp(Meanwhile(armed, c.beforeCleanup, task), task, c.cleanup);
      var fx := [Scheduled(name, runAt, c.schedule.ok), Executed(name, true, ReplyOf(cleanup.1))];
      var last := Meanwhile(cleanup.0, c.beforeLast, task);
      if !cleanup.1 then
        if c.schedule.ok then (cleanup.0, Threw(ExecutorFailed), fx)
        else (Arm(last, task, c.again), Threw(ScheduleFailed), fx + [Scheduled(name, runAt, c.again.ok)])
      else if !c.schedule.ok then (cleanup.0, Returned, fx)
      else
        (Disarm(last, task, c.cancel), if c.cancel.ok then Returned else Threw(CancelFailed),
         fx + [Cancelled(name, c.cancel.ok)])
  }

  // The world in which the cleanup behind the handler compares the task with the session.
  function DecidedFor(w: World, task: Task, c: Choices): World {
    var armed := Arm(Meanwhile(Meanwhile(w, c.beforeRead, task), c.beforeSchedule, task), task, c.schedule);
    Decided(Meanwhile(armed, c.beforeCleanup, task), task, c.cleanup)
  }

  lemma ArmKeeps(w: World, task: Task, a: Attempt)
    requires EncodeAlarmName(task).Some?
    ensures Rely(w, Arm(w, task, a), task) && (a.ok ==> Pending(Arm(w, task, a), task))
    ensures IsActive(Arm(w, task, a), task) == IsActive(w, task) == IsActive(Disarm(w, task, a), task)
    ensures a.ok ==> !Pending(Disarm(w, task, a), task)
    ensures Arm(w, task, a).lock == w.lock && Arm(w, task, a).session == w.session
  {
    hide EncodeAlarmName;
  }

  // A failed ownership read is rescheduled; otherwise the task is over, or its alarm is pending,
  // or every attempt failed before the caller's eyes -- if the task is of the active session when
  // the two are compared.
  lemma PromiseHolds(w: World, task: Task, name: Units, now: int, c: Choices)
    requires task.name == LockVault && EncodeAlarmName(task) == Some(name)
    ensures var r := Handled(w, task, name, now, c);
      && Only(r.2, name) && Disciplined(r.2, now)
      && (OfActiveSession(DecidedFor(w, task, c)) ==> LockPromise(r.0, task, r.1, r.2))
  {
    HandledIsDisciplined(w, task, name, now, c);
    hide EncodeAlarmName, Disciplined, Only;
    if OfActiveSession(DecidedFor(w, task, c)) {
      var armed := Arm(Meanwhile(Meanwhile(w, c.beforeRead, task), c.beforeSchedule, task), task, c.schedule);
      var start := Meanwhile(armed, c.beforeCleanup, task);
      var cleanup := CleanUp(start, task, c.cleanup);
      var last := Meanwhile(cleanup.0, c.beforeLast, task);
      ArmKeeps(Meanwhile(Meanwhile(w, c.beforeRead, task), c.beforeSchedule, task), task, c.schedule);
      CleanUpEndsOwnTask(start, task, c.cleanup);
      ArmKeeps(last, task, c.again);
      ArmKeeps(last, task, c.cancel);
      var runAt := now + RETRY_DELAY_MS;
      TwiceFailed(name, runAt);
      hide CleanUp, Decided, OfActiveSession, Arm, Disarm, Meanwhile, Pending, IsActive, AllAttemptsFailed;
    }
  }

  // The handler takes its course, and reports a lock as done exactly when the cleanup returned.
  lemma LockTakesItsCourse(w: World, task: Task, name: Units, now: int, c: Choices)
    requires task.name == LockVault && EncodeAlarmName(task) == Some(name)
    ensures var r, read := Handled(w, task, name, now, c), Meanwhile(w, c.beforeRead, task);
      && LockCourse(name, now, c.readOk, IsActive(read, task), r.1, r.2)
      && (c.readOk && IsActive(read, task) ==>
            var start := Meanwhile(Arm(Meanwhile(read, c.beforeSchedule, task), task, c.schedule), c.beforeCleanup, task);
            r.2[1].reply == if CleanUp(start, task, c.cleanup).1 then Cleared else ClearThrew)
  {
    hide EncodeAlarmName, CleanUp, Arm, Disarm, Meanwhile, HasLock;
  }

  // What a cleanup that got hold of the task leaves: everything it is to remove, exactly when all
  // its calls succeeded.
  lemma CleanUpIsComplete(w: World, task: Task, c: Cleanup)
    requires task.name == LockVault && EncodeAlarmName(task).Some?
    requires c.claimReadOk && HasLock(Decided(w, task, c), task.actionId) && HasLock(w, task.actionId)
    requires c.sessionReadOk ==> OfActiveSession(Decided(w, task, c))
    ensures var d, r := Decided(w, task, c), CleanUp(w, task, c);
      && (r.1 <==>
            && c.initialReadOk && c.sessionReadOk && c.trouble.NoTrouble?
            && (d.clipboard.Some? ==> c.clipboard.ok && c.clipboardAlarm.ok)
            && c.finalReadOk && c.removal.ok && c.cancel.ok)
      && (r.1 ==>
            && r.0.session == None && r.0.lock == None && r.0.clipboard == None && !Pending(r.0, task)
            && (d.clipboard.Some? ==> !Pending(r.0, Task(ClearClipboard, d.clipboard.value.actionId))))
  {
    assert ValidActionId(task.actionId);
    hide EncodeAlarmName, ValidActionId, Meanwhile;
  }

  lemma TwiceFailed(name: Units, runAt: int)
    ensures AllAttemptsFailed(
      [Scheduled(name, runAt, false), Executed(name, true, ClearThrew)] + [Scheduled(name, runAt, false)])
  {
  }

  lemma HandledIsDisciplined(w: World, task: Task, name: Units, now: int, c: Choices)
    ensures var fx := Handled(w, task, name, now, c).2; Only(fx, name) && Disciplined(fx, now)
  {
    var runAt := now + RETRY_DELAY_MS;
    NothingDone(name, now);
    OnlyScheduled(name, now, c.schedule.ok);
    Armed(name, now, c.schedule.ok, Cleared);
    Armed(name, now, c.schedule.ok, ClearThrew);
    ArmedAgain(name, now, ClearThrew, c.again.ok);
    Disarmed(name, now, Cleared, c.cancel.ok);
    assert [Scheduled(name, runAt, false), Executed(name, true, ClearThrew)] + [Scheduled(name, runAt, c.again.ok)] ==
      [Scheduled(name, runAt, false), Executed(name, true, ClearThrew), Scheduled(name, runAt, c.again.ok)];
    assert [Scheduled(name, runAt, true), Executed(name, true, Cleared)] + [Cancelled(name, c.cancel.ok)] ==
      [Scheduled(name, runAt, true), Executed(name, true, Cleared), Cancelled(name, c.cancel.ok)];
    hide CleanUp, Arm, Disarm, Meanwhile, Only, Disciplined, HasLock;
  }

  // Every call succeeds and nothing happens in between.
  const SMOOTH: Choices := Choices(None, true, None, Attempt(true, true), None,
    Cleanup(true, None, true, true, NoTrouble, Attempt(true, true), Attempt(true, true), true, Attempt(true, true),
      Attempt(true, true)),
    None, Attempt(true, true), Attempt(true, true))

  // The loss: a lock task of another vault than the active session is left in the store with no
  // alarm, although every call of the handler succeeded and nothing was thrown.
  lemma OtherVaultIsLost(w: World, task: Task, name: Units, now: int)
    requires task.name == LockVault && EncodeAlarmName(task) == Some(name) && IsActive(w, task) && !OfActiveSession(w)
    ensures var r := Handled(w, task, name, now, SMOOTH);
      && r.1 == Returned && IsActive(r.0, task) && !Pending(r.0, task) && r.0.session == w.session
      && !LockPromise(r.0, task, r.1, r.2)
  {
    assert ValidActionId(task.actionId);
    hide EncodeAlarmName, ValidActionId;
  }

  // For an active task, the handler keeps its promise whatever fails exactly when no session is
  // active or the session's vault is the task's.
  lemma LockPromiseIsExact(w: World, task: Task, name: Units, now: int)
    requires task.name == LockVault && EncodeAlarmName(task) == Some(name) && IsActive(w, task)
    ensures (forall c :: Quiet(c) ==>
        LockPromise(Handled(w, task, name, now, c).0, task, Handled(w, task, name, now, c).1, Handled(w, task, name, now, c).2))
      <==> w.session.None? || w.session.value == w.lock.value.vaultId
  {
    if OfActiveSession(w) {
      forall c | Quiet(c)
        ensures LockPromise(Handled(w, task, name, now, c).0, task, Handled(w, task, name, now, c).1,
          Handled(w, task, name, now, c).2)
      {
        QuietDecides(w, task, c);
        PromiseHolds(w, task, name, now, c);
        hide Handled, LockPromise, Quiet;
      }
    } else {
      OtherVaultIsLost(w, task, name, now);
      assert Quiet(SMOOTH);
      hide Handled, LockPromise, Quiet;
    }
  }

  lemma QuietDecides(w: World, task: Task, c: Choices)
    requires Quiet(c)
    ensures OfActiveSession(DecidedFor(w, task, c)) <==> OfActiveSession(w)
  {
    hide EncodeAlarmName;
  }
}
