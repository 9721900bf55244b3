// The alarm handlers under arbitrary scheduling failures and interference from other contexts.
module AlarmRuntime {
  import opened Common
  import opened UriComponents
  import opened AlarmNames
  import opened AlarmWorld
  import opened LockAlarm

  class Runtime {
    var w: World
    ghost var effects: seq<Effect>

    method Interfere(task: Task, next: Option<World>)
      modifies `w
      ensures w == Meanwhile(old(w), next, task)
    {
      if next.Some? && Rely(w, next.value, task) { w := next.value; }
    }

    // chrome.alarms.create
    method ScheduleTask(task: Task, runAt: int, a: Attempt)
      requires EncodeAlarmName(task).Some?
      modifies this
      ensures w == Arm(old(w), task, a)
      ensures effects == old(effects) + [Scheduled(EncodeAlarmName(task).value, runAt, a.ok)]
    {
      if TookEffect(a) { w := w.(alarms := w.alarms + {EncodeAlarmName(task).value}); }
      effects := effects + [Scheduled(EncodeAlarmName(task).value, runAt, a.ok)];
    }

    // chrome.alarms.clear
    method CancelTask(task: Task, a: Attempt)
      requires EncodeAlarmName(task).Some?
      modifies this
      ensures w == Disarm(old(w), task, a)
      ensures effects == old(effects) + [Cancelled(EncodeAlarmName(task).value, a.ok)]
    {
      if TookEffect(a) { w := w.(alarms := w.alarms - {EncodeAlarmName(task).value}); }
      effects := effects + [Cancelled(EncodeAlarmName(task).value, a.ok)];
    }

    // ---------------------------------------------------------------- clearing the clipboard

    method InterfereSomehow(task: Task)
      modifies `w
      ensures Rely(old(w), w, task)
    {
      var next: Option<World> := *;
      Interfere(task, next);
    }

    method ScheduleSomehow(task: Task, runAt: int) returns (ok: bool)
      requires EncodeAlarmName(task).Some?
      modifies this
      ensures Rely(old(w), w, task) && (ok ==> Pending(w, task))
      ensures effects == old(effects) + [Scheduled(EncodeAlarmName(task).value, runAt, ok)]
    {
      InterfereSomehow(task);
      var a: Attempt := *;
      ScheduleTask(task, runAt, a);
      ok := a.ok;
    }

    method CancelSomehow(task: Task) returns (ok: bool)
      requires EncodeAlarmName(task).Some? && !IsActive(w, task)
      modifies this
      ensures !IsActive(w, task) && (ok ==> !Pending(w, task))
      ensures effects == old(effects) + [Cancelled(EncodeAlarmName(task).value, ok)]
    {
      InterfereSomehow(task);
      var a: Attempt := *;
      CancelTask(task, a);
      ok := a.ok;
    }

    // ClipboardClearService.clearTask, under the clipboard lock: the stored task is of that action
    // and expired if it must be; then the copied value, if still there, is overwritten, and the
    // task is removed.
    method ClearTask(task: Task, requireExpired: bool, c: Clearing) returns (r: ClearReply)
      requires task.name == ClearClipboard
      modifies `w
      ensures r == NoTask <==> c.taskReadable && old(w).clipboard.None?
      ensures r == StaleAction <==> c.taskReadable && old(w).clipboard.Some? && !IsActive(old(w), task)
      ensures r == NotExpired <==>
        c.taskReadable && IsActive(old(w), task) && requireExpired && c.now < old(w).clipboard.value.expiresAt
      ensures r == Cleared || r == ClipboardChanged <==> Clears(old(w), task, requireExpired, c) && c.removal.ok
      ensures r == Cleared ==> c.present
      ensures r == ClipboardChanged ==> !c.present
      ensures w == if Clears(old(w), task, requireExpired, c) && TookEffect(c.removal) then old(w).(clipboard := None) else old(w)
      ensures Rely(old(w), w, task) && (r != NotExpired && r != ClearThrew ==> !IsActive(w, task))
    {
      if !c.taskReadable { return ClearThrew; }
      if w.clipboard.None? { return NoTask; }
      if w.clipboard.value.actionId != task.actionId { return StaleAction; }
      if requireExpired && c.now < w.clipboard.value.expiresAt { return NotExpired; }
      if !c.clipboardReadable { return ClearThrew; }
      if c.present && !c.written { return ClearThrew; }
      if TookEffect(c.removal) { w := w.(clipboard := None); }
      if !c.removal.ok { return ClearThrew; }
      r := if c.present then Cleared else ClipboardChanged;
    }

    method ExecuteClear(task: Task, requireExpired: bool) returns (r: ClearReply)
      requires task.name == ClearClipboard && EncodeAlarmName(task).Some?
      modifies this
      ensures Rely(old(w), w, task)
      ensures r == NotExpired ==> requireExpired
      ensures r != NotExpired && r != ClearThrew ==> !IsActive(w, task)
      ensures effects == old(effects) + [Executed(EncodeAlarmName(task).value, requireExpired, r)]
    {
      InterfereSomehow(task);
      var c: Clearing := *;
      r := ClearTask(task, requireExpired, c);
      effects := effects + [Executed(EncodeAlarmName(task).value, requireExpired, r)];
    }

    // createClipboardAlarmHandler; fx is what it did.
    method HandleClipboardAlarm(name: Units, now: int, before: Option<World>, readOk: bool)
      returns (outcome: Outcome, ghost fx: seq<Effect>)
      modifies this
      ensures effects == old(effects) + fx && Only(fx, name) && Disciplined(fx, now)
      ensures DecodeAlarmName(name) == Invalid ==> outcome == Threw(BadName) && fx == []
      ensures DecodeAlarmName(name) == Foreign ==> outcome == Returned && fx == [] && w == old(w)
      ensures var parsed := DecodeAlarmName(name);
        parsed.Parsed? && parsed.task.name != ClearClipboard ==> outcome == Returned && fx == [] && w == old(w)
      ensures var parsed := DecodeAlarmName(name);
        parsed.Parsed? && parsed.task.name == ClearClipboard ==> ClipboardPromise(w, parsed.task, outcome, fx)
      ensures var parsed := DecodeAlarmName(name);
        parsed.Parsed? && parsed.task.name == ClearClipboard ==>
          ClipboardCourse(name, now, readOk, IsActive(Meanwhile(old(w), before, parsed.task), parsed.task), outcome, fx)
    {
      hide DecodeAlarmName, EncodeAlarmName, Only, Disciplined, AllAttemptsFailed;
      NothingDone(name, now);
      fx := [];
      var parsed := DecodeAlarmName(name);
      if parsed == Invalid { return Threw(BadName), []; }
      if parsed == Foreign || parsed.task.name != ClearClipboard { return Returned, []; }
      var task := parsed.task;
      DecodesExactlyNames(name, task);
      Interfere(task, before);
      if !readOk { return Threw(ReadFailed), []; }
      if !HasClipboard(w, task.actionId) { return Returned, []; }
      hide ClearingCourse;
      outcome, fx := ClearForAlarm(task, name, now);
    }

    method ClearForAlarm(task: Task, name: Units, now: int) returns (outcome: Outcome, ghost fx: seq<Effect>)
      requires task.name == ClearClipboard && EncodeAlarmName(task) == Some(name)
      modifies this
      ensures effects == old(effects) + fx && Only(fx, name) && Disciplined(fx, now)
      ensures ClearingCourse(name, now, outcome, fx) && outcome != Threw(ReadFailed) && ClipboardPromise(w, task, outcome, fx)
    {
      hide EncodeAlarmName, Only, Disciplined, AllAttemptsFailed;
      fx := [];
      var runAt := now + RETRY_DELAY_MS;
      var again: bool;
      var retryScheduled := ScheduleSomehow(task, runAt);
      var retryScheduleFailed := !retryScheduled;
      var result := ExecuteClear(task, true);
      fx := [Scheduled(name, runAt, retryScheduled), Executed(name, true, result)];
      Armed(name, now, retryScheduled, result);
      if result == ClearThrew {
        if !retryScheduled {
          again := ScheduleSomehow(task, runAt);
          fx := [Scheduled(name, runAt, false), Executed(name, true, result), Scheduled(name, runAt, again)];
          ArmedAgain(name, now, result, again);
        }
        outcome := Threw(if retryScheduleFailed then ScheduleFailed else ExecutorFailed);
        return;
      }
      if result == NotExpired {
        if !retryScheduled {
          again := ScheduleSomehow(task, runAt);
          fx := [Scheduled(name, runAt, false), Executed(name, true, result), Scheduled(name, runAt, again)];
          ArmedAgain(name, now, result, again);
          if !again {
            var forced := ExecuteClear(task, false);
            fx := [Scheduled(name, runAt, false), Executed(name, true, result), Scheduled(name, runAt, false),
              Executed(name, false, forced)];
            Forced(name, now, forced);
            if forced == ClearThrew {
              outcome := Threw(ScheduleFailed);
              return;
            }
          }
        }
        outcome := Returned;
        return;
      }
      if retryScheduled {
        var cancelled := CancelSomehow(task);
        fx := [Scheduled(name, runAt, true), Executed(name, true, result), Cancelled(name, cancelled)];
        Disarmed(name, now, result, cancelled);
        if !cancelled {
          outcome := Threw(CancelFailed);
          return;
        }
      }
      outcome := Returned;
    }

    // ---------------------------------------------------------------- the lock task repository

    // A task with an invalid action id is refused; a write that rejects may have been applied.
    method Save(task: LockTask, a: Attempt) returns (ok: bool)
      modifies `w
      ensures ok <==> a.ok && ValidActionId(task.actionId)
      ensures w == old(w) || w == old(w).(lock := Some(task))
      ensures ok ==> HasLock(w, task.actionId)
      ensures !ValidActionId(task.actionId) || !TookEffect(a) ==> w == old(w)
    {
      if !ValidActionId(task.actionId) { return false; }
      if TookEffect(a) { w := w.(lock := Some(task)); }
      ok := a.ok;
    }

    // None is a throw. Only the task of that action is ever removed.
    method RemoveIfActionIsActive(actionId: Units, readOk: bool, a: Attempt) returns (r: Option<bool>)
      modifies `w
      ensures (w, r) == RemovedIfActive(old(w), actionId, readOk, a)
      ensures r == Some(true) ==> HasLock(old(w), actionId) && w.lock.None?
      ensures r == Some(false) ==> !HasLock(old(w), actionId)
      ensures w == old(w) || (HasLock(old(w), actionId) && w == old(w).(lock := None))
    {
      if !ValidActionId(actionId) || !readOk { return None; }
      if !HasLock(w, actionId) { return Some(false); }
      if TookEffect(a) { w := w.(lock := None); }
      r := if a.ok then Some(true) else None;
    }

    // The operation, here the preparation of a cleanup, runs under the storage lock on the very
    // task it names; None is a stale action, and what the operation throws is passed on.
    method RunIfActionIsActive(task: Task, c: Cleanup) returns (r: Option<Prepared>)
      requires task.name == LockVault
      modifies `w
      ensures r.None? <==> ValidActionId(task.actionId) && c.claimReadOk && !IsActive(old(w), task)
      ensures r.None? ==> w == old(w)
      ensures r.Some? && IsActive(old(w), task) && ValidActionId(task.actionId) && c.claimReadOk ==>
        (w, r.value) == Prepare(old(w), c)
      ensures r.Some? && (!c.claimReadOk || !ValidActionId(task.actionId)) ==> w == old(w) && r.value == PrepareThrew
      ensures w.lock == old(w.lock)
    {
      if !ValidActionId(task.actionId) || !c.claimReadOk { return Some(PrepareThrew); }
      if !HasLock(w, task.actionId) { return None; }
      var prepared := PrepareCleanup(c);
      r := Some(prepared);
    }

    // ---------------------------------------------------------------- locking the vault

    method PrepareCleanup(c: Cleanup) returns (r: Prepared)
      modifies `w
      ensures (w, r) == Prepare(old(w), c) && w.lock == old(w.lock)
      ensures r == PreparedStale ==> w == old(w) && !OfActiveSession(w)
      ensures r.PreparedClean? ==> w.session.None?
    {
      if c.sessionReadOk && !OfActiveSession(w) { return PreparedStale; }
      var failed := !c.initialReadOk || !c.sessionReadOk || ClipboardFailed(w, c);
      w := ClipboardCleared(w, c);
      if c.trouble.BeforeRemoval? {
        if c.trouble.sessionGone { w := w.(session := None); }
        return PrepareThrew;
      }
      w := w.(session := None);
      r := PreparedClean(failed || c.trouble.AfterRemoval?);
    }

    // The cleanup of an action, as the lock use case runs it; false is a throw.
    method ExecuteLock(task: Task, c: Cleanup) returns (ok: bool)
      requires task.name == LockVault && EncodeAlarmName(task).Some?
      modifies `w
      ensures (w, ok) == CleanUp(old(w), task, c)
      ensures Rely(old(w), w, task)
      ensures ok && OfActiveSession(Decided(old(w), task, c)) ==> !IsActive(w, task)
    {
      hide EncodeAlarmName;
      CleanUpEndsOwnTask(w, task, c);
      if c.initialReadOk && !HasLock(w, task.actionId) { return true; }
      Interfere(task, c.between);
      var claimed := RunIfActionIsActive(task, c);
      if claimed.None? { return true; }
      match claimed.value
      case PrepareThrew => return false;
      case PreparedStale => return true;
      case PreparedClean(failed) =>
        var removed := RemoveIfActionIsActive(task.actionId, c.finalReadOk, c.removal);
        if removed.None? { return false; }
        w := Disarm(w, task, c.cancel);
        ok := !failed && c.cancel.ok;
    }

    // createVaultLockAlarmHandler; the promise holds when the task is of the active session.
    method HandleLockAlarm(name: Units, now: int, c: Choices) returns (outcome: Outcome, ghost fx: seq<Effect>)
      modifies this
      ensures effects == old(effects) + fx && Only(fx, name) && Disciplined(fx, now)
      ensures DecodeAlarmName(name) == Invalid ==> outcome == Threw(BadName) && fx == []
      ensures DecodeAlarmName(name) == Foreign ==> outcome == Returned && fx == [] && w == old(w)
      ensures var parsed := DecodeAlarmName(name);
        parsed.Parsed? && parsed.task.name != LockVault ==> outcome == Returned && fx == [] && w == old(w)
      ensures var parsed := DecodeAlarmName(name);
        parsed.Parsed? && parsed.task.name == LockVault ==>
          && (w, outcome, fx) == Handled(old(w), parsed.task, name, now, c)
          && (OfActiveSession(DecidedFor(old(w), parsed.task, c)) ==> LockPromise(w, parsed.task, outcome, fx))
          && LockCourse(name, now, c.readOk, IsActive(Meanwhile(old(w), c.beforeRead, parsed.task), parsed.task), outcome, fx)
    {
      hide DecodeAlarmName, EncodeAlarmName, Only, Disciplined, LockPromise, DecidedFor, OfActiveSession, LockCourse;
      NothingDone(name, now);
      fx := [];
      var parsed := DecodeAlarmName(name);
      if parsed == Invalid { return Threw(BadName), []; }
      if parsed == Foreign || parsed.task.name != LockVault { return Returned, []; }
      var task := parsed.task;
      DecodesExactlyNames(name, task);
      PromiseHolds(w, task, name, now, c);
      LockTakesItsCourse(w, task, name, now, c);
      outcome, fx := LockForAlarm(task, name, now, c);
    }

    method LockForAlarm(task: Task, name: Units, now: int, c: Choices) returns (outcome: Outcome, ghost fx: seq<Effect>)
      requires task.name == LockVault && EncodeAlarmName(task) == Some(name)
      modifies this
      ensures (w, outcome, fx) == Handled(old(w), task, name, now, c) && effects == old(effects) + fx
    {
      hide EncodeAlarmName, CleanUp, Arm, Disarm, Meanwhile;
      var runAt := now + RETRY_DELAY_MS;
      Interfere(task, c.beforeRead);
      if !c.readOk {
        Interfere(task, c.beforeSchedule);
        ScheduleTask(task, runAt, c.schedule);
        return Threw(ReadFailed), [Scheduled(name, runAt, c.schedule.ok)];
      }
      if !HasLock(w, task.actionId) { return Returned, []; }

      Interfere(task, c.beforeSchedule);
      ScheduleTask(task, runAt, c.schedule);
      Interfere(task, c.beforeCleanup);
      var locked := ExecuteLock(task, c.cleanup);
      effects := effects + [Executed(name, true, ReplyOf(locked))];
      fx := [Scheduled(name, runAt, c.schedule.ok), Executed(name, true, ReplyOf(locked))];
      if !locked {
        if !c.schedule.ok {
          Interfere(task, c.beforeLast);
          ScheduleTask(task, runAt, c.again);
          fx := fx + [Scheduled(name, runAt, c.again.ok)];
          return Threw(ScheduleFailed), fx;
        }
        return Threw(ExecutorFailed), fx;
      }
      outcome := Returned;
      if c.schedule.ok {
        Interfere(task, c.beforeLast);
        CancelTask(task, c.cancel);
        fx := fx + [Cancelled(name, c.cancel.ok)];
        if !c.cancel.ok { outcome := Threw(CancelFailed); }
      }
    }

    // composeScheduledTaskAlarmHandler: one of the two handlers acts on the alarm.
    method HandleAlarm(name: Units, now: int, before: Option<World>, readOk: bool, c: Choices)
      returns (outcome: Outcome, ghost fx: seq<Effect>)
      modifies this
      ensures effects == old(effects) + fx && Only(fx, name) && Disciplined(fx, now)
      ensures DecodeAlarmName(name) == Invalid ==> outcome == Threw(BadName) && fx == []
      ensures DecodeAlarmName(name) == Foreign ==> outcome == Returned && fx == [] && w == old(w)
      ensures var parsed := DecodeAlarmName(name);
        parsed.Parsed? && parsed.task.name == ClearClipboard ==> ClipboardPromise(w, parsed.task, outcome, fx)
      ensures var parsed := DecodeAlarmName(name);
        parsed.Parsed? && parsed.task.name == LockVault && OfActiveSession(DecidedFor(old(w), parsed.task, c)) ==>
          LockPromise(w, parsed.task, outcome, fx)
      ensures var parsed := DecodeAlarmName(name);
        parsed.Parsed? && parsed.task.name == ClearClipboard ==>
          ClipboardCourse(name, now, readOk, IsActive(Meanwhile(old(w), before, parsed.task), parsed.task), outcome, fx)
      ensures var parsed := DecodeAlarmName(name);
        parsed.Parsed? && parsed.task.name == LockVault ==>
          LockCourse(name, now, c.readOk, IsActive(Meanwhile(old(w), c.beforeRead, parsed.task), parsed.task), outcome, fx)
    {
      hide DecodeAlarmName, Disciplined, NotLost, Only, DecidedFor, OfActiveSession, Handled, ClearingCourse, Meanwhile;
      outcome, fx := HandleClipboardAlarm(name, now, before, readOk);
      if outcome.Threw? { return; }
      ghost var more;
      outcome, more := HandleLockAlarm(name, now, c);
      if fx == [] { fx := more; } else { assert more == []; }
    }
  }

  // A handler schedules and cancels only the alarm it was called for, which is no other task's.
  lemma OtherAlarmsAreUntouched(name: Units, effects: seq<Effect>, other: Task, i: nat)
    requires Only(effects, name) && DecodeAlarmName(name).Parsed? && other != DecodeAlarmName(name).task && i < |effects|
    ensures EncodeAlarmName(other) != Some(effects[i].name)
  {
    hide DecodeAlarmName, EncodeAlarmName;
    DecodesExactlyNames(name, DecodeAlarmName(name).task);
    DecodesExactlyNames(name, other);
  }
}
