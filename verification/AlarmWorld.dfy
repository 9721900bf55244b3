// What the alarm handlers act on, what they may do to it, and what they promise.
module AlarmWorld {
  import opened Common
  import opened UriComponents
  import opened AlarmNames

  datatype ClipboardTask = ClipboardTask(actionId: Units, expiresAt: int)

  datatype LockTask = LockTask(actionId: Units, vaultId: string, expiresAt: int)

  // The stored clipboard and lock tasks, the vault of the active session, and the names of the
  // pending one-shot alarms.
  datatype World = World(
    clipboard: Option<ClipboardTask>, lock: Option<LockTask>, session: Option<string>, alarms: set<Units>)

  predicate HasClipboard(w: World, actionId: Units) {
    w.clipboard.Some? && w.clipboard.value.actionId == actionId
  }

  predicate HasLock(w: World, actionId: Units) {
    w.lock.Some? && w.lock.value.actionId == actionId
  }

  predicate IsActive(w: World, task: Task) {
    if task.name == ClearClipboard then HasClipboard(w, task.actionId) else HasLock(w, task.actionId)
  }

  predicate Pending(w: World, task: Task) {
    EncodeAlarmName(task).Some? && EncodeAlarmName(task).value in w.alarms
  }

  // What other contexts may do between two awaits: action ids are never reused, so an inactive
  // task stays inactive, and nobody cancels the alarm of a task that stays active.
  predicate Rely(s: World, t: World, task: Task) {
    && (IsActive(t, task) ==> IsActive(s, task))
    && (IsActive(t, task) && Pending(s, task) ==> Pending(t, task))
  }

  // What happened in between: nothing, or what others may do.
  function Meanwhile(w: World, next: Option<World>, task: Task): (t: World)
    ensures Rely(w, t, task)
  {
    if next.Some? && Rely(w, next.value, task) then next.value else w
  }

  // How a call that changes something ends; one that rejects may have taken effect.
  datatype Attempt = Attempt(ok: bool, applied: bool)

  predicate TookEffect(a: Attempt) {
    a.ok || a.applied
  }

  function Arm(w: World, task: Task, a: Attempt): World {
    if TookEffect(a) && EncodeAlarmName(task).Some? then w.(alarms := w.alarms + {EncodeAlarmName(task).value}) else w
  }

  function Disarm(w: World, task: Task, a: Attempt): World {
    if TookEffect(a) && EncodeAlarmName(task).Some? then w.(alarms := w.alarms - {EncodeAlarmName(task).value}) else w
  }

  const RETRY_DELAY_MS: int := 60000

  datatype Effect =
    | Scheduled(name: Units, runAt: int, ok: bool)
    | Executed(name: Units, requireExpired: bool, reply: ClearReply)
    | Cancelled(name: Units, ok: bool)

  datatype Failure = BadName | ReadFailed | ScheduleFailed | ExecutorFailed | CancelFailed

  datatype Outcome = Returned | Threw(failure: Failure)

  datatype ClearReply = Cleared | ClipboardChanged | NoTask | NotExpired | StaleAction | ClearThrew

  // Every effect concerns this alarm.
  predicate Only(effects: seq<Effect>, name: Units) {
    forall i :: 0 <= i < |effects| ==> effects[i].name == name
  }

  // Both attempts to schedule the retry failed.
  predicate AllAttemptsFailed(effects: seq<Effect>) {
    && |effects| >= 3 && effects[0].Scheduled? && !effects[0].ok && effects[2].Scheduled? && !effects[2].ok
    && forall i :: 0 <= i < |effects| && effects[i].Scheduled? ==> !effects[i].ok
  }

  // The retry is armed before the work, for a minute after the alarm was handled; it is cancelled
  // only after the work returned, not finding the task unexpired; and the work is forced before its time only when
  // nothing could be scheduled.
  predicate Disciplined(effects: seq<Effect>, now: int) {
    && (effects != [] ==> effects[0].Scheduled?)
    && (forall i :: 0 <= i < |effects| && effects[i].Scheduled? ==> effects[i].runAt == now + RETRY_DELAY_MS)
    && (forall i :: 0 <= i < |effects| && effects[i].Executed? && !effects[i].requireExpired ==>
          i == 3 && AllAttemptsFailed(effects) && effects[1].Executed? && effects[1].reply == NotExpired)
    && (forall i :: 0 <= i < |effects| && effects[i].Cancelled? ==>
          i == 2 && effects[0].ok && effects[1].Executed? && effects[1].reply != NotExpired && effects[1].reply != ClearThrew)
  }

  // What a handler may have done when it ends.
  lemma NothingDone(name: Units, now: int)
    ensures Only([], name) && Disciplined([], now)
  {
  }

  lemma OnlyScheduled(name: Units, now: int, ok: bool)
    ensures var fx := [Scheduled(name, now + RETRY_DELAY_MS, ok)]; Only(fx, name) && Disciplined(fx, now)
  {
  }

  lemma Armed(name: Units, now: int, ok: bool, reply: ClearReply)
    ensures var fx := [Scheduled(name, now + RETRY_DELAY_MS, ok), Executed(name, true, reply)];
      Only(fx, name) && Disciplined(fx, now)
  {
  }

  lemma ArmedAgain(name: Units, now: int, reply: ClearReply, again: bool)
    ensures var fx := [Scheduled(name, now + RETRY_DELAY_MS, false), Executed(name, true, reply),
        Scheduled(name, now + RETRY_DELAY_MS, again)];
      Only(fx, name) && Disciplined(fx, now) && (!again ==> AllAttemptsFailed(fx))
  {
  }

  lemma Forced(name: Units, now: int, reply: ClearReply)
    ensures var fx := [Scheduled(name, now + RETRY_DELAY_MS, false), Executed(name, true, NotExpired),
        Scheduled(name, now + RETRY_DELAY_MS, false), Executed(name, false, reply)];
      Only(fx, name) && Disciplined(fx, now) && AllAttemptsFailed(fx)
  {
  }

  lemma Disarmed(name: Units, now: int, reply: ClearReply, ok: bool)
    requires reply != NotExpired && reply != ClearThrew
    ensures var fx := [Scheduled(name, now + RETRY_DELAY_MS, true), Executed(name, true, reply), Cancelled(name, ok)];
      Only(fx, name) && Disciplined(fx, now)
  {
  }

  // How one clearing goes: whether the stored task can be read, the time it is compared with,
  // whether the clipboard can be read, still holds the copied value and can be overwritten.
  datatype Clearing = Clearing(
    taskReadable: bool, now: int, clipboardReadable: bool, present: bool, written: bool, removal: Attempt)

  // The clearing gets as far as removing the task.
  predicate Clears(w: World, task: Task, requireExpired: bool, c: Clearing) {
    && c.taskReadable && HasClipboard(w, task.actionId) && (requireExpired ==> c.now >= w.clipboard.value.expiresAt)
    && c.clipboardReadable && (c.present ==> c.written)
  }

  // The promise: the task is over, or its alarm will ring again, or the caller saw every attempt fail.
  predicate NotLost(w: World, task: Task, outcome: Outcome, fx: seq<Effect>) {
    || !IsActive(w, task)
    || Pending(w, task)
    || (outcome.Threw? && AllAttemptsFailed(fx))
  }

  // What a handler promises for its own task, given what it did.
  predicate ClipboardPromise(w: World, task: Task, outcome: Outcome, fx: seq<Effect>) {
    if outcome == Threw(ReadFailed) then fx == []
    else
      && NotLost(w, task, outcome, fx)
      && (outcome == Returned && |fx| >= 2 && fx[0].Scheduled? && fx[0].ok && fx[1].Executed? && fx[1].reply != NotExpired ==>
            !Pending(w, task))
  }

  // A failed ownership read is rescheduled as well.
  predicate LockPromise(w: World, task: Task, outcome: Outcome, fx: seq<Effect>) {
    if outcome == Threw(ReadFailed) then |fx| == 1 && fx[0].Scheduled? && (fx[0].ok ==> Pending(w, task))
    else
      && NotLost(w, task, outcome, fx)
      && (outcome == Returned && |fx| >= 2 && fx[0].Scheduled? && fx[0].ok ==> !Pending(w, task))
  }

  // ------------------------------------------------------------------ what a handler does, exactly

  // How the handler of an active clipboard task ends, by what its effects were: the retry first,
  // the clearing second; whatever could not be scheduled is tried once more when the task is still
  // there; clearing is forced only after that failed too; the retry is cancelled when it is over.
  predicate ClearingCourse(name: Units, now: int, outcome: Outcome, fx: seq<Effect>) {
    && |fx| >= 2 && IsSchedule(fx[0], name, now) && fx[1].Executed?
    && fx[1] == Executed(name, true, fx[1].reply)
    && if fx[1].reply == ClearThrew then
         if fx[0].ok then outcome == Threw(ExecutorFailed) && |fx| == 2
         else outcome == Threw(ScheduleFailed) && |fx| == 3 && IsSchedule(fx[2], name, now)
       else if fx[1].reply == NotExpired then
         if fx[0].ok then outcome == Returned && |fx| == 2
         else
           && |fx| >= 3 && IsSchedule(fx[2], name, now)
           && if fx[2].ok then outcome == Returned && |fx| == 3
              else
                && |fx| == 4 && fx[3].Executed? && fx[3] == Executed(name, false, fx[3].reply)
                && outcome == if fx[3].reply == ClearThrew then Threw(ScheduleFailed) else Returned
       else if fx[0].ok then
         && |fx| == 3 && fx[2].Cancelled? && fx[2] == Cancelled(name, fx[2].ok)
         && outcome == if fx[2].ok then Returned else Threw(CancelFailed)
       else outcome == Returned && |fx| == 2
  }

  predicate IsSchedule(e: Effect, name: Units, now: int) {
    e.Scheduled? && e == Scheduled(name, now + 60000, e.ok)
  }

  // The clipboard handler, by whether the ownership read succeeded and found the task active.
  predicate ClipboardCourse(name: Units, now: int, readOk: bool, active: bool, outcome: Outcome, fx: seq<Effect>) {
    if !readOk then outcome == Threw(ReadFailed) && fx == []
    else if !active then outcome == Returned && fx == []
    else ClearingCourse(name, now, outcome, fx)
  }

  // The lock handler: a failed ownership read schedules the retry, and a lock is either done or thrown.
  predicate LockCourse(name: Units, now: int, readOk: bool, active: bool, outcome: Outcome, fx: seq<Effect>) {
    if !readOk then outcome == Threw(ReadFailed) && |fx| == 1 && IsSchedule(fx[0], name, now)
    else if !active then outcome == Returned && fx == []
    else ClearingCourse(name, now, outcome, fx) && fx[1].reply != NotExpired
  }
}
