// Scheduled-task alarm names: they are read back exactly, and two tasks never share one.
module AlarmNames {
  import opened Common
  import opened Texts
  import opened UriComponents

  function Ascii(s: string): (u: Units)
    requires forall i :: 0 <= i < |s| ==> s[i] as int < 128
    ensures |u| == |s|
  {
    seq(|s|, i requires 0 <= i < |s| => s[i] as int)
  }

  datatype TaskName = ClearClipboard | LockVault

  datatype Task = Task(name: TaskName, actionId: Units)

  const COLON: Unit := 58
  const PREFIX: Units := Ascii("lfspm:scheduled-task:")

  function NameText(name: TaskName): Units {
    match name
    case ClearClipboard => Ascii("clearClipboard")
    case LockVault => Ascii("lockVault")
  }

  // `trim().length !== 0`
  predicate NonBlankUnits(u: Units) {
    exists i :: 0 <= i < |u| && !IsWhitespaceCode(u[i])
  }

  // decodeActionId accepts what is not blank and can be encoded.
  predicate ValidActionId(id: Units) {
    NonBlankUnits(id) && EncodeURIComponent(id).Some?
  }

  // None is a thrown InvalidScheduledTaskRecordError.
  function EncodeAlarmName(task: Task): Option<Units> {
    if !ValidActionId(task.actionId) then None
    else Some(PREFIX + NameText(task.name) + [COLON] + EncodeURIComponent(task.actionId).value)
  }

  function IndexOf(u: Units, c: Unit): (r: Option<nat>)
    ensures r.Some? ==> r.value < |u| && u[r.value] == c && c !in u[..r.value]
    ensures r.None? ==> c !in u
  {
    if u == [] then None
    else if u[0] == c then Some(0)
    else
      var r := IndexOf(u[1..], c);
      assert u == [u[0]] + u[1..];
      if r.None? then None
      else
        assert u[..r.value + 1] == [u[0]] + u[1..][..r.value];
        Some(r.value + 1)
  }

  function DecodeTaskName(u: Units): Option<TaskName> {
    if u == NameText(ClearClipboard) then Some(ClearClipboard)
    else if u == NameText(LockVault) then Some(LockVault)
    else None
  }

  // `null` for an alarm of someone else, a thrown error, or a task.
  datatype Parsed = Foreign | Invalid | Parsed(task: Task)

  function DecodeAlarmName(value: Units): Parsed {
    if !(PREFIX <= value) then Foreign
    else
      var serialized := value[|PREFIX|..];
      var separator := IndexOf(serialized, COLON);
      if separator.None? || separator.value < 1 then Invalid
      else
        var name := DecodeTaskName(serialized[..separator.value]);
        var actionId := DecodeURIComponent(serialized[separator.value + 1..]);
        if name.None? || actionId.None? || !ValidActionId(actionId.value) then Invalid
        else
          var task := Task(name.value, actionId.value);
          if EncodeAlarmName(task) != Some(value) then Invalid else Parsed(task)
  }

  lemma NameHasNoColon(name: TaskName)
    ensures COLON !in NameText(name) && |NameText(name)| > 0 && DecodeTaskName(NameText(name)) == Some(name)
  {
    assert NameText(ClearClipboard)[0] != NameText(LockVault)[0];
  }

  lemma {:induction false} FirstColon(a: Units, b: Units)
    requires COLON !in a
    ensures IndexOf(a + [COLON] + b, COLON) == Some(|a|)
  {
    var u := a + [COLON] + b;
    if a != [] {
      assert u[0] == a[0] && u[1..] == a[1..] + [COLON] + b;
      FirstColon(a[1..], b);
    }
  }

  // An alarm name decodes to a task exactly when it is the name of that task.
  lemma DecodesExactlyNames(value: Units, task: Task)
    ensures DecodeAlarmName(value) == Parsed(task) <==> EncodeAlarmName(task) == Some(value)
    ensures DecodeAlarmName(value) == Foreign <==> !(PREFIX <= value)
  {
    hide IndexOf, EncodeURIComponent, DecodeURIComponent, NonBlankUnits, NameText, DecodeTaskName;
    if EncodeAlarmName(task) == Some(value) {
      var name, id := NameText(task.name), EncodeURIComponent(task.actionId).value;
      assert value == PREFIX + (name + [COLON] + id);
      assert value[|PREFIX|..] == name + [COLON] + id;
      NameHasNoColon(task.name);
      FirstColon(name, id);
      assert (name + [COLON] + id)[..|name|] == name && (name + [COLON] + id)[|name| + 1..] == id;
      UriRoundTrip(task.actionId);
    }
  }

  // So two tasks never share an alarm, and every valid task has one.
  lemma NamesAreInjective(a: Task, b: Task)
    ensures EncodeAlarmName(a).Some? && EncodeAlarmName(a) == EncodeAlarmName(b) ==> a == b
    ensures EncodeAlarmName(a).Some? <==> NonBlankUnits(a.actionId) && WellFormed(a.actionId)
  {
    hide NonBlankUnits, WellFormed, EncodeURIComponent;
    EncodableIsWellFormed(a.actionId);
    if EncodeAlarmName(a).Some? && EncodeAlarmName(a) == EncodeAlarmName(b) {
      DecodesExactlyNames(EncodeAlarmName(a).value, a);
      DecodesExactlyNames(EncodeAlarmName(a).value, b);
      hide DecodeAlarmName;
    }
  }
}
