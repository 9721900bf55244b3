// Logins captured from web pages: at most twenty sealed records per session, one for each tab.
module CapturedLogins {
  import opened Common
  import opened JsonValues
  import opened JsonPrinting

  const PREFIX: string := "lfspm.captured-login."
  const LIMIT: nat := 20
  const MAX_CIPHERTEXT: nat := 100000
  const TAG_LENGTH: nat := 16

  datatype Login = Login(id: string, tabId: int, url: string, login: string, password: string, expiresAt: Option<int>)

  datatype Context = Context(vaultId: string, sessionId: string, protectionKey: seq<Byte>)

  // What is authenticated with a record.
  datatype Associated = Associated(tabId: int, id: string, vaultId: string, sessionId: string)

  function Aad(tabId: int, id: string, c: Context): Associated {
    Associated(tabId, id, c.vaultId, c.sessionId)
  }

  type Storage = map<string, Tree>

  function Name(tabId: int): string {
    PREFIX + PrintInt(tabId)
  }

  lemma NamesAreInjective(a: int, b: int)
    ensures Name(a) == Name(b) ==> a == b
    ensures PREFIX <= Name(a)
  {
    if Name(a) == Name(b) {
      assert Name(a)[|PREFIX|..] == PrintInt(a) && Name(b)[|PREFIX|..] == PrintInt(b);
      assert Print(Num(a)) == PrintInt(a) && Print(Num(b)) == PrintInt(b);
      PrintInjective(Num(a), Num(b));
    }
  }

  // ------------------------------------------------------------------ cryptography, as its laws

  // Sealing is AES-GCM under a key derived from the context; printing is the JSON of a login.
  datatype Crypto = Crypto(
    seal: (Context, seq<Byte>, Associated, seq<Byte>) -> seq<Byte>,
    unseal: (Context, seq<Byte>, Associated, seq<Byte>) -> Option<seq<Byte>>,
    print_: Login -> seq<Byte>,
    parse: seq<Byte> -> Option<Login>)

  // Decrypting undoes encrypting under the same key and associated data, the tag adds sixteen
  // bytes, and parsing undoes printing.
  ghost predicate Lawful(k: Crypto) {
    && (forall c, iv, a, p :: k.unseal(c, iv, a, k.seal(c, iv, a, p)) == Some(p))
    && (forall c, iv, a, p :: |k.seal(c, iv, a, p)| == |p| + TAG_LENGTH)
    && (forall l :: k.parse(k.print_(l)) == Some(l))
  }

  // ------------------------------------------------------------------ envelopes

  datatype Envelope = Envelope(
    id: string, expiresAt: Option<int>, vaultId: string, sessionId: string, iv: seq<Byte>, ciphertext: seq<Byte>)

  const FIELDS: set<string> := {"id", "expiresAt", "vaultId", "sessionId", "iv", "ciphertext"}

  predicate IsByteArray(t: Tree, maximum: nat) {
    t.TArr? && |t.items| <= maximum && forall i :: 0 <= i < |t.items| ==> t.items[i].TNum? && 0 <= t.items[i].n <= 255
  }

  function BytesOf(t: Tree): (r: seq<Byte>)
    requires IsByteArray(t, MAX_CIPHERTEXT)
    ensures |r| == |t.items|
  {
    seq(|t.items|, i requires 0 <= i < |t.items| => t.items[i].n)
  }

  function ArrayOf(b: seq<Byte>): (t: Tree)
    ensures t.TArr? && |t.items| == |b|
  {
    TArr(seq(|b|, i requires 0 <= i < |b| => TNum(b[i])))
  }

  predicate NonEmptyText(t: Tree) {
    t.TText? && |t.s| > 0
  }

  // decodeCapturedLoginEnvelope
  function DecodeEnvelope(t: Tree): Option<Envelope> {
    if !t.TObj? || t.fields.Keys != FIELDS then None
    else
      var m := t.fields;
      if !NonEmptyText(m["id"]) || !NonEmptyText(m["vaultId"]) || !NonEmptyText(m["sessionId"])
         || !(m["expiresAt"].TNull? || m["expiresAt"].TNum?)
         || !IsByteArray(m["iv"], 12) || |m["iv"].items| != 12
         || !IsByteArray(m["ciphertext"], MAX_CIPHERTEXT) || |m["ciphertext"].items| < TAG_LENGTH
      then None
      else Some(Envelope(m["id"].s, if m["expiresAt"].TNull? then None else Some(m["expiresAt"].n), m["vaultId"].s,
        m["sessionId"].s, BytesOf(m["iv"]), BytesOf(m["ciphertext"])))
  }

  function EncodeEnvelope(e: Envelope): Tree {
    TObj(map["id" := TText(e.id), "expiresAt" := (if e.expiresAt.None? then TNull else TNum(e.expiresAt.value)),
      "vaultId" := TText(e.vaultId), "sessionId" := TText(e.sessionId), "iv" := ArrayOf(e.iv),
      "ciphertext" := ArrayOf(e.ciphertext)])
  }

  predicate ValidEnvelope(e: Envelope) {
    && |e.id| > 0 && |e.vaultId| > 0 && |e.sessionId| > 0 && |e.iv| == 12
    && TAG_LENGTH <= |e.ciphertext| <= MAX_CIPHERTEXT
  }

  // A written envelope is well-formed exactly when its parts are.
  lemma EnvelopeRoundTrip(e: Envelope)
    ensures DecodeEnvelope(EncodeEnvelope(e)) == if ValidEnvelope(e) then Some(e) else None
  {
    var t := EncodeEnvelope(e);
    assert t.fields.Keys == FIELDS;
    ArrayRoundTrip(e.iv);
    ArrayRoundTrip(e.ciphertext);
    hide ArrayOf, BytesOf, IsByteArray;
  }

  lemma ArrayRoundTrip(b: seq<Byte>)
    ensures IsByteArray(ArrayOf(b), MAX_CIPHERTEXT) <==> |b| <= MAX_CIPHERTEXT
    ensures IsByteArray(ArrayOf(b), 12) <==> |b| <= 12
    ensures |b| <= MAX_CIPHERTEXT ==> BytesOf(ArrayOf(b)) == b
  {
  }

  // What is well-formed is the writing of one valid envelope.
  lemma OnlyEnvelopesDecode(t: Tree)
    requires DecodeEnvelope(t).Some?
    ensures ValidEnvelope(DecodeEnvelope(t).value) && EncodeEnvelope(DecodeEnvelope(t).value) == t
  {
    var e := DecodeEnvelope(t).value;
    var m := EncodeEnvelope(e).fields;
    ArraysAreBytes(t.fields["iv"]);
    ArraysAreBytes(t.fields["ciphertext"]);
    hide ArrayOf, BytesOf, IsByteArray;
    assert m == t.fields;
  }

  lemma ArraysAreBytes(t: Tree)
    requires IsByteArray(t, MAX_CIPHERTEXT)
    ensures ArrayOf(BytesOf(t)) == t
  {
    assert ArrayOf(BytesOf(t)).items == t.items;
  }

  // ------------------------------------------------------------------ operations

  function Live(expiresAt: Option<int>, now: int): bool {
    expiresAt.None? || expiresAt.value > now
  }

  // Well-formed, of this vault and session, and not expired.
  predicate IsActive(t: Tree, c: Context, now: int) {
    var e := DecodeEnvelope(t);
    e.Some? && e.value.vaultId == c.vaultId && e.value.sessionId == c.sessionId && Live(e.value.expiresAt, now)
  }

  // The two stores agree on a key.
  predicate SameAt(s: Storage, t: Storage, name: string) {
    (name in s <==> name in t) && (name in s ==> t[name] == s[name])
  }

  // A well-formed record of that vault and session, for the login with that id.
  predicate Owns(t: Tree, c: Context, id: string) {
    var e := DecodeEnvelope(t);
    e.Some? && e.value.vaultId == c.vaultId && e.value.sessionId == c.sessionId && e.value.id == id
  }

  predicate HasId(t: Tree, id: string) {
    DecodeEnvelope(t).Some? && DecodeEnvelope(t).value.id == id
  }

  // A well-formed record that a clearing does not choose.
  predicate Spared(t: Tree, chosen: (Envelope, string) -> bool, name: string) {
    DecodeEnvelope(t).Some? && !chosen(DecodeEnvelope(t).value, name)
  }

  // A save that succeeds leaves the active records and that of its tab, one that fails adds at most
  // the latter, and neither touches another feature's keys.
  ghost predicate KeepsOwn(s: Storage, t: Storage, ok: bool, tabId: int, c: Context, now: int) {
    && (if ok then Records(t) == ActiveNames(s, c, now) + {Name(tabId)} else Records(t) <= Records(s) + {Name(tabId)})
    && forall name :: !(PREFIX <= name) ==> SameAt(s, t, name)
  }

  function Records(s: Storage): set<string> {
    set name | name in s && PREFIX <= name
  }

  function ActiveNames(s: Storage, c: Context, now: int): set<string> {
    set name | name in Records(s) && IsActive(s[name], c, now)
  }

  function SealedEnvelope(l: Login, c: Context, iv: seq<Byte>, k: Crypto): Envelope {
    Envelope(l.id, l.expiresAt, c.vaultId, c.sessionId, iv, k.seal(c, iv, Aad(l.tabId, l.id, c), k.print_(l)))
  }

  // How far a save gets: a call before the records are read may fail, the removal of the stale
  // ones may fail, applied or not, and so may the final write.
  datatype Outcome = FailEarly | FailRemove(applied: bool) | FailSet(applied: bool) | Succeed

  class Repository {
    var storage: Storage
    const crypto: Crypto

    constructor (k: Crypto)
      ensures storage == map[] && crypto == k
    {
      storage, crypto := map[], k;
    }

    // save(value, context); false is a throw.
    method Save(l: Login, c: Context, iv: seq<Byte>, now: int, outcome: Outcome) returns (ok: bool)
      modifies `storage
      ensures (storage, ok) == Saved(old(storage), l, c, iv, now, outcome, crypto)
      ensures KeepsOwn(old(storage), storage, ok, l.tabId, c, now)
    {
      SaveKeepsOwn(storage, l, c, iv, now, outcome, crypto);
      hide IsActive, EncodeEnvelope, SealedEnvelope, Name, Records, ActiveNames, KeepsOwn;
      var envelope := SealedEnvelope(l, c, iv, crypto);
      if outcome.FailEarly? { return false; }
      var all := storage;
      var activeNames := ActiveNames(all, c, now);
      var stale := Records(all) - activeNames;
      if stale != {} {
        if outcome.FailRemove? {
          if outcome.applied { storage := storage - stale; }
          return false;
        }
        storage := storage - stale;
      }
      assert storage == all - stale;
      if |activeNames| >= LIMIT && Name(l.tabId) !in activeNames { return false; }
      if !outcome.FailSet? || outcome.applied { storage := storage[Name(l.tabId) := EncodeEnvelope(envelope)]; }
      ok := !outcome.FailSet?;
    }

    // read(tabId, context)
    method Read(tabId: int, c: Context) returns (r: Option<Login>)
      ensures r == ReadBack(storage, tabId, c, crypto)
      ensures r.Some? ==> r.value.tabId == tabId && Name(tabId) in storage && Owns(storage[Name(tabId)], c, r.value.id)
    {
      var name := Name(tabId);
      if name !in storage { return None; }
      var stored := DecodeEnvelope(storage[name]);
      if stored.None? || stored.value.vaultId != c.vaultId || stored.value.sessionId != c.sessionId { return None; }
      var clear := crypto.unseal(c, stored.value.iv, Aad(tabId, stored.value.id, c), stored.value.ciphertext);
      if clear.None? { return None; }
      var value := crypto.parse(clear.value);
      if value.None? || value.value.id != stored.value.id || value.value.tabId != tabId { return None; }
      r := value;
    }

    // remove(tabId, id)
    method Remove(tabId: int, id: string)
      modifies `storage
      ensures storage == Removed(old(storage), tabId, id)
      ensures forall name :: name != Name(tabId) ==> SameAt(old(storage), storage, name)
      ensures Name(tabId) in old(storage) ==> (Name(tabId) !in storage <==> HasId(old(storage)[Name(tabId)], id))
    {
      var name := Name(tabId);
      if name in storage {
        var value := DecodeEnvelope(storage[name]);
        if value.Some? && value.value.id == id { storage := storage - {name}; }
      }
    }

    // clearCapturedLogins(predicate)
    method Clear(chosen: (Envelope, string) -> bool)
      modifies `storage
      ensures storage == ClearedOf(old(storage), chosen)
      ensures forall name :: !(PREFIX <= name) ==> SameAt(old(storage), storage, name)
      ensures forall name :: name in Records(storage) ==>
        name in old(storage) && storage[name] == old(storage)[name] && Spared(storage[name], chosen, name)
      ensures forall name :: name in Records(old(storage)) && Spared(old(storage)[name], chosen, name) ==> name in storage
    {
      var keys := set name | name in Records(storage)
        && (DecodeEnvelope(storage[name]).None? || chosen(DecodeEnvelope(storage[name]).value, name));
      storage := storage - keys;
    }
  }

  // ------------------------------------------------------------------ the operations as functions

  function Saved(s: Storage, l: Login, c: Context, iv: seq<Byte>, now: int, outcome: Outcome, k: Crypto): (Storage, bool) {
    var active := ActiveNames(s, c, now);
    var stale := Records(s) - active;
    var kept := s - stale;
    if outcome.FailEarly? then (s, false)
    else if outcome.FailRemove? && stale != {} then (if outcome.applied then kept else s, false)
    else if |active| >= LIMIT && Name(l.tabId) !in active then (kept, false)
    else if outcome == FailSet(false) then (kept, false)
    else (kept[Name(l.tabId) := EncodeEnvelope(SealedEnvelope(l, c, iv, k))], !outcome.FailSet?)
  }

  function ReadBack(s: Storage, tabId: int, c: Context, k: Crypto): Option<Login> {
    if Name(tabId) !in s then None
    else
      var stored := DecodeEnvelope(s[Name(tabId)]);
      if stored.None? || stored.value.vaultId != c.vaultId || stored.value.sessionId != c.sessionId then None
      else
        var clear := k.unseal(c, stored.value.iv, Aad(tabId, stored.value.id, c), stored.value.ciphertext);
        if clear.None? then None
        else
          var value := k.parse(clear.value);
          if value.None? || value.value.id != stored.value.id || value.value.tabId != tabId then None else value
  }

  function Removed(s: Storage, tabId: int, id: string): Storage {
    if Name(tabId) in s && DecodeEnvelope(s[Name(tabId)]).Some? && DecodeEnvelope(s[Name(tabId)]).value.id == id
    then s - {Name(tabId)} else s
  }

  function ClearedOf(s: Storage, chosen: (Envelope, string) -> bool): Storage {
    s - (set name | name in Records(s) && (DecodeEnvelope(s[name]).None? || chosen(DecodeEnvelope(s[name]).value, name)))
  }

  // ------------------------------------------------------------------ one save

  // A record is active when it is a valid envelope of that vault and session that has not expired.
  lemma ActiveIsExact(e: Envelope, t: Tree, c: Context, now: int)
    ensures IsActive(EncodeEnvelope(e), c, now) <==>
      ValidEnvelope(e) && e.vaultId == c.vaultId && e.sessionId == c.sessionId && (e.expiresAt.Some? ==> now < e.expiresAt.value)
    ensures IsActive(t, c, now) ==> exists f :: t == EncodeEnvelope(f) && ValidEnvelope(f)
  {
    EnvelopeRoundTrip(e);
    if IsActive(t, c, now) { OnlyEnvelopesDecode(t); }
    hide EncodeEnvelope, DecodeEnvelope;
  }

  // A save succeeds exactly when its calls do and there is room: fewer than twenty active records,
  // or one of this tab to be replaced. Whatever happens no other tab's active record is lost.
  lemma SaveSucceedsExactly(
    s: Storage, l: Login, c: Context, iv: seq<Byte>, now: int, outcome: Outcome, k: Crypto, name: string)
    ensures Saved(s, l, c, iv, now, outcome, k).1 <==>
      && !outcome.FailEarly? && !outcome.FailSet?
      && (outcome.FailRemove? ==> Records(s) == ActiveNames(s, c, now))
      && (Name(l.tabId) in ActiveNames(s, c, now) || |ActiveNames(s, c, now)| < 20)
    ensures name in ActiveNames(s, c, now) && name != Name(l.tabId) ==>
      var t := Saved(s, l, c, iv, now, outcome, k).0; name in t && t[name] == s[name]
  {
    hide IsActive, EncodeEnvelope, SealedEnvelope, Name, PREFIX;
    assert ActiveNames(s, c, now) <= Records(s);
    NothingLeft(Records(s), ActiveNames(s, c, now));
  }

  lemma NothingLeft<T>(a: set<T>, b: set<T>)
    requires b <= a
    ensures a - b == {} <==> a == b
  {
    if a - b == {} {
      forall x | x in a ensures x in b { assert x !in a - b; }
    }
  }

  // After a successful save every remaining record is well-formed, of the saving vault and session
  // and was unexpired when checked, the new one aside; no other record of that kind was lost.
  lemma SaveKeepsExactlyActive(s: Storage, l: Login, c: Context, iv: seq<Byte>, now: int, k: Crypto, outcome: Outcome)
    requires Saved(s, l, c, iv, now, outcome, k).1
    ensures var t := Saved(s, l, c, iv, now, outcome, k).0;
      && Records(t) == ActiveNames(s, c, now) + {Name(l.tabId)}
      && (forall name :: name in Records(t) && name != Name(l.tabId) ==> t[name] == s[name] && IsActive(t[name], c, now))
      && Name(l.tabId) in t && t[Name(l.tabId)] == EncodeEnvelope(SealedEnvelope(l, c, iv, k))
  {
    NamesAreInjective(l.tabId, l.tabId);
    hide IsActive, EncodeEnvelope, SealedEnvelope;
    var t := Saved(s, l, c, iv, now, outcome, k).0;
    assert Records(t) == ActiveNames(s, c, now) + {Name(l.tabId)};
  }

  // Another vault or session reads nothing of what was saved.
  lemma OtherContextsReadNothing(
    s: Storage, l: Login, c: Context, iv: seq<Byte>, now: int, k: Crypto, outcome: Outcome, other: Context)
    requires Saved(s, l, c, iv, now, outcome, k).1 && (other.vaultId != c.vaultId || other.sessionId != c.sessionId)
    ensures ReadBack(Saved(s, l, c, iv, now, outcome, k).0, l.tabId, other, k) == None
  {
    SaveKeepsExactlyActive(s, l, c, iv, now, k, outcome);
    EnvelopeRoundTrip(SealedEnvelope(l, c, iv, k));
    hide EncodeEnvelope, DecodeEnvelope, Saved, Name;
  }

  // What was sealed with other associated data does not open.
  ghost predicate Authentic(k: Crypto) {
    forall c, iv, a, b, p :: a != b ==> k.unseal(c, iv, a, k.seal(c, iv, b, p)) == None
  }

  // A record that was moved to another tab reads as absent there.
  lemma MovedRecordIsUnreadable(s: Storage, l: Login, c: Context, iv: seq<Byte>, k: Crypto, tabId: int)
    requires Authentic(k) && tabId != l.tabId
    requires Name(tabId) in s && s[Name(tabId)] == EncodeEnvelope(SealedEnvelope(l, c, iv, k))
    ensures ReadBack(s, tabId, c, k) == None
  {
    EnvelopeRoundTrip(SealedEnvelope(l, c, iv, k));
    hide EncodeEnvelope, DecodeEnvelope, Name;
  }

  // A removal takes away the record of that tab and login, and leaves every other key as it was.
  lemma RemovalIsExact(s: Storage, tabId: int, id: string, name: string)
    ensures name in Removed(s, tabId, id) <==> name in s && !(name == Name(tabId) && HasId(s[name], id))
    ensures name in Removed(s, tabId, id) ==> Removed(s, tabId, id)[name] == s[name]
    ensures ReadBackId(Removed(s, tabId, id), tabId) != Some(id)
  {
    hide DecodeEnvelope, Name;
  }

  // The login whose record a tab has.
  function ReadBackId(s: Storage, tabId: int): Option<string> {
    if Name(tabId) in s && DecodeEnvelope(s[Name(tabId)]).Some? then Some(DecodeEnvelope(s[Name(tabId)]).value.id) else None
  }

  // A clearing leaves exactly the keys of other features and the well-formed records not chosen.
  lemma ClearingIsExact(s: Storage, chosen: (Envelope, string) -> bool, name: string)
    ensures name in ClearedOf(s, chosen) <==> name in s && (PREFIX <= name ==> Spared(s[name], chosen, name))
    ensures name in ClearedOf(s, chosen) ==> ClearedOf(s, chosen)[name] == s[name]
  {
    hide DecodeEnvelope, PREFIX;
  }

  lemma SaveKeepsOwn(s: Storage, l: Login, c: Context, iv: seq<Byte>, now: int, outcome: Outcome, k: Crypto)
    ensures var r := Saved(s, l, c, iv, now, outcome, k); KeepsOwn(s, r.0, r.1, l.tabId, c, now)
  {
    hide Saved, Records, ActiveNames, SameAt, Name;
    if Saved(s, l, c, iv, now, outcome, k).1 { SaveKeepsExactlyActive(s, l, c, iv, now, k, outcome); }
    SaveAddsOne(s, l, c, iv, now, outcome, k);
    forall name | !(PREFIX <= name) ensures SameAt(s, Saved(s, l, c, iv, now, outcome, k).0, name) {
      SaveLeavesOthers(s, l, c, iv, now, outcome, k, name);
    }
    hide PREFIX;
  }

  lemma SaveAddsOne(s: Storage, l: Login, c: Context, iv: seq<Byte>, now: int, outcome: Outcome, k: Crypto)
    ensures Records(Saved(s, l, c, iv, now, outcome, k).0) <= Records(s) + {Name(l.tabId)}
  {
    hide IsActive, EncodeEnvelope, SealedEnvelope, Name, PREFIX;
  }

  lemma SaveLeavesOthers(
    s: Storage, l: Login, c: Context, iv: seq<Byte>, now: int, outcome: Outcome, k: Crypto, name: string)
    requires !(PREFIX <= name)
    ensures SameAt(s, Saved(s, l, c, iv, now, outcome, k).0, name)
  {
    NamesAreInjective(l.tabId, l.tabId);
    hide IsActive, EncodeEnvelope, SealedEnvelope, Name, PREFIX;
  }

  // What a caller can check before saving.
  predicate Fits(l: Login, c: Context, iv: seq<Byte>, k: Crypto) {
    && |l.id| > 0 && |c.vaultId| > 0 && |c.sessionId| > 0 && |iv| == 12
    && |k.print_(l)| + TAG_LENGTH <= MAX_CIPHERTEXT
  }

  // A login that was saved is read back in the same context exactly when it fits: the save itself
  // does not check, and a record that does not fit reads as absent.
  lemma ReadsWhatWasSaved(s: Storage, l: Login, c: Context, iv: seq<Byte>, now: int, k: Crypto, outcome: Outcome)
    requires Lawful(k) && Saved(s, l, c, iv, now, outcome, k).1
    ensures ReadBack(Saved(s, l, c, iv, now, outcome, k).0, l.tabId, c, k) == if Fits(l, c, iv, k) then Some(l) else None
  {
    SaveKeepsExactlyActive(s, l, c, iv, now, k, outcome);
    EnvelopeRoundTrip(SealedEnvelope(l, c, iv, k));
    hide EncodeEnvelope, DecodeEnvelope, Saved, Name;
  }

  // ------------------------------------------------------------------ whole runs

  // Operations as the lock orders them. A removal or clearing that rejects is one that was made or
  // one that was not.
  datatype Operation =
    | DoSave(login: Login, context: Context, iv: seq<Byte>, now: int, outcome: Outcome)
    | DoRead(tabId: int, context: Context)
    | DoRemove(tabId: int, id: string)
    | DoClear(chosen: (Envelope, string) -> bool)

  function Apply(s: Storage, op: Operation, k: Crypto): Storage {
    match op
    case DoSave(l, c, iv, now, outcome) => Saved(s, l, c, iv, now, outcome, k).0
    case DoRead(_, _) => s
    case DoRemove(tabId, id) => Removed(s, tabId, id)
    case DoClear(chosen) => ClearedOf(s, chosen)
  }

  function Run(s: Storage, ops: seq<Operation>, k: Crypto): Storage
    decreases |ops|
  {
    if ops == [] then s else Run(Apply(s, ops[0], k), ops[1..], k)
  }

  lemma SaveKeepsLimit(s: Storage, l: Login, c: Context, iv: seq<Byte>, now: int, outcome: Outcome, k: Crypto)
    requires |Records(s)| <= LIMIT
    ensures |Records(Saved(s, l, c, iv, now, outcome, k).0)| <= LIMIT
  {
    hide IsActive, EncodeEnvelope, SealedEnvelope;
    NamesAreInjective(l.tabId, l.tabId);
    hide Name;
    var t := Saved(s, l, c, iv, now, outcome, k).0;
    var active, name := ActiveNames(s, c, now), Name(l.tabId);
    SubsetSize(active, Records(s));
    if Records(t) <= Records(s) {
      SubsetSize(Records(t), Records(s));
    } else {
      assert Records(t) <= active + {name};
      SubsetSize(Records(t), active + {name});
    }
  }

  lemma StepKeepsLimit(s: Storage, op: Operation, k: Crypto)
    requires |Records(s)| <= LIMIT
    ensures |Records(Apply(s, op, k))| <= LIMIT
  {
    match op
    case DoSave(l, c, iv, now, outcome) => SaveKeepsLimit(s, l, c, iv, now, outcome, k);
    case _ =>
      hide DecodeEnvelope, Name;
      SubsetSize(Records(Apply(s, op, k)), Records(s));
  }

  // Starting with at most twenty records there are never more.
  lemma {:induction false} NeverMoreThanTwenty(s: Storage, ops: seq<Operation>, k: Crypto)
    requires |Records(s)| <= LIMIT
    ensures |Records(Run(s, ops, k))| <= LIMIT
    decreases |ops|
  {
    hide Apply, Records;
    if ops != [] {
      StepKeepsLimit(s, ops[0], k);
      NeverMoreThanTwenty(Apply(s, ops[0], k), ops[1..], k);
    }
  }

  lemma StepLeavesOthers(s: Storage, op: Operation, k: Crypto, name: string)
    requires !(PREFIX <= name)
    ensures name in Apply(s, op, k) <==> name in s
    ensures name in s ==> Apply(s, op, k)[name] == s[name]
  {
    hide DecodeEnvelope, IsActive, EncodeEnvelope, SealedEnvelope;
    if op.DoSave? { NamesAreInjective(op.login.tabId, 0); }
    if op.DoRemove? { NamesAreInjective(op.tabId, 0); }
    hide Name;
  }

  // Keys of other features are untouched.
  lemma {:induction false} OtherKeysAreUntouched(s: Storage, ops: seq<Operation>, k: Crypto, name: string)
    requires !(PREFIX <= name)
    ensures name in Run(s, ops, k) <==> name in s
    ensures name in s ==> Run(s, ops, k)[name] == s[name]
    decreases |ops|
  {
    hide Apply;
    if ops != [] {
      StepLeavesOthers(s, ops[0], k, name);
      OtherKeysAreUntouched(Apply(s, ops[0], k), ops[1..], k, name);
    }
  }

  // An operation that has no business with the record e of this tab: a save for another tab in the
  // same session while e has not expired, a read, a removal that names another tab or login, a
  // clearing that does not choose it.
  predicate Spares(op: Operation, tabId: int, e: Envelope) {
    match op
    case DoSave(l, c, iv, now, outcome) =>
      l.tabId != tabId && c.vaultId == e.vaultId && c.sessionId == e.sessionId && Live(e.expiresAt, now)
    case DoRead(_, _) => true
    case DoRemove(otherTab, id) => otherTab != tabId || id != e.id
    case DoClear(chosen) => !chosen(e, Name(tabId))
  }

  ghost predicate HoldsRecord(s: Storage, tabId: int, e: Envelope) {
    Name(tabId) in s && s[Name(tabId)] == EncodeEnvelope(e)
  }

  lemma StepSpares(s: Storage, op: Operation, k: Crypto, tabId: int, e: Envelope)
    requires ValidEnvelope(e) && HoldsRecord(s, tabId, e) && Spares(op, tabId, e)
    ensures HoldsRecord(Apply(s, op, k), tabId, e)
  {
    EnvelopeRoundTrip(e);
    NamesAreInjective(tabId, tabId);
    if op.DoSave? { NamesAreInjective(tabId, op.login.tabId); }
    if op.DoRemove? { NamesAreInjective(tabId, op.tabId); }
    hide EncodeEnvelope, DecodeEnvelope, SealedEnvelope, Name;
  }

  lemma {:induction false} RunSpares(s: Storage, ops: seq<Operation>, k: Crypto, tabId: int, e: Envelope)
    requires ValidEnvelope(e) && HoldsRecord(s, tabId, e)
    requires forall i :: 0 <= i < |ops| ==> Spares(ops[i], tabId, e)
    ensures HoldsRecord(Run(s, ops, k), tabId, e)
    decreases |ops|
  {
    hide Apply, HoldsRecord, Spares;
    if ops != [] {
      StepSpares(s, ops[0], k, tabId, e);
      RunSpares(Apply(s, ops[0], k), ops[1..], k, tabId, e);
    }
  }

  // What was saved is still read back, in the same context, after any run of operations that have
  // no business with it.
  lemma SavedLoginSurvives(
    s: Storage, l: Login, c: Context, iv: seq<Byte>, now: int, outcome: Outcome, k: Crypto, ops: seq<Operation>)
    requires Lawful(k) && Fits(l, c, iv, k) && Saved(s, l, c, iv, now, outcome, k).1
    requires forall i :: 0 <= i < |ops| ==> Spares(ops[i], l.tabId, SealedEnvelope(l, c, iv, k))
    ensures ReadBack(Run(Saved(s, l, c, iv, now, outcome, k).0, ops, k), l.tabId, c, k) == Some(l)
  {
    var e := SealedEnvelope(l, c, iv, k);
    var t := Saved(s, l, c, iv, now, outcome, k).0;
    SaveKeepsExactlyActive(s, l, c, iv, now, k, outcome);
    EnvelopeRoundTrip(e);
    hide EncodeEnvelope, DecodeEnvelope, Saved, Name, Spares, Run;
    RunSpares(t, ops, k, l.tabId, e);
  }
}
