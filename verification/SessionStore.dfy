// The session material repository: its cache, its epoch and its operation queue.
module SessionStore {
  import opened Common
  import opened JsonValues
  import opened ArtifactPrimitives
  import opened SessionMaterial

  // `cachedMaterial`: undefined, null, or material.
  datatype Cached = Unknown | NoMaterial | Has(material: MaterialValue)

  datatype Store = Store(stored: Option<Tree>, epoch: Option<Tree>, cached: Cached)

  // Each operation with the outcome of its storage calls; a write that rejects may have been applied.
  datatype Operation =
    | Save(material: MaterialValue, ok: bool, applied: bool)
    | Get(ok: bool)
    | GetIdentity(ok: bool)
    | GetEpoch(ok: bool)
    | AdvanceEpoch(readOk: bool, writeOk: bool, applied: bool)
    | Evict(sessionId: Option<string>)
    | Remove(ok: bool, applied: bool)

  datatype Reply =
    | Nothing
    | Found(material: Option<MaterialValue>)
    | Identified(identity: Option<SessionIdentity>)
    | Epoch(epoch: int)
    | Failed

  // readUnlockedVaultSessionEpoch: None is a throw.
  function ReadEpoch(epoch: Option<Tree>): (r: Option<int>)
    ensures r.Some? ==> 0 <= r.value <= MAX_SAFE_INTEGER
  {
    if epoch.None? then Some(0) else SafeInteger(epoch.value, 0)
  }

  function Decoded(t: Tree, v: Validator): Reply {
    if Accepted(t, v) then Found(Some(DecodedMaterial(t).value)) else Failed
  }

  // Writing the epoch takes a legible epoch below the last safe integer.
  predicate WritesEpoch(s: Store, op: Operation) {
    && op.AdvanceEpoch? && op.readOk && (op.writeOk || op.applied)
    && ReadEpoch(s.epoch).Some? && ReadEpoch(s.epoch).value < MAX_SAFE_INTEGER
  }

  function Step(s: Store, op: Operation, v: Validator): (Store, Reply) {
    match op
    case Save(material, ok, applied) =>
      (s.(stored := if ok || applied then Some(SerializeMaterial(material)) else s.stored,
          cached := if ok then Has(material) else s.cached), if ok then Nothing else Failed)
    case Get(ok) =>
      (match s.cached
       case NoMaterial => (s, Found(None))
       case Has(material) => (s, Found(Some(material)))
       case Unknown =>
         if !ok then (s, Failed)
         else if s.stored.None? then (s, Found(None))
         else
           var reply := Decoded(s.stored.value, v);
           (if reply.Found? then s.(cached := Has(reply.material.value)) else s, reply))
    case GetIdentity(ok) =>
      if !ok then (s, Failed)
      else if s.stored.None? then (s, Identified(None))
      else if Accepted(s.stored.value, v) then (s, Identified(Some(DecodedMaterial(s.stored.value).value.identity)))
      else (s, Failed)
    case GetEpoch(ok) =>
      (s, if ok && ReadEpoch(s.epoch).Some? then Epoch(ReadEpoch(s.epoch).value) else Failed)
    case AdvanceEpoch(readOk, writeOk, applied) =>
      var t := if WritesEpoch(s, op) then s.(epoch := Some(TNum(ReadEpoch(s.epoch).value + 1))) else s;
      (t, if WritesEpoch(s, op) && writeOk then Nothing else Failed)
    case Evict(sessionId) =>
      if s.cached.NoMaterial?
         || (sessionId.Some? && s.cached.Has? && s.cached.material.identity.sessionId == sessionId.value)
      then (s.(cached := Unknown), Nothing) else (s, Nothing)
    case Remove(ok, applied) =>
      (s.(stored := if ok || applied then None else s.stored, cached := NoMaterial), if ok then Nothing else Failed)
  }

  // The store after a run.
  function Run(s: Store, ops: seq<Operation>, v: Validator): Store {
    if ops == [] then s else Step(Run(s, ops[..|ops| - 1], v), ops[|ops| - 1], v).0
  }

  // What a read that reaches its data would return.
  function ReadNow(s: Store, v: Validator): Reply {
    Step(s, Get(true), v).1
  }

  lemma ReadingIsStable(s: Store, ok: bool, v: Validator)
    ensures ReadNow(Step(s, Get(ok), v).0, v) == ReadNow(s, v)
  {
    hide SerializeMaterial, DecodedMaterial, Accepted, WritesEpoch;
  }

  // What a write answers: it is done when its storage calls are, whatever was applied.
  lemma WritesReplyHonestly(s: Store, m: MaterialValue, sessionId: Option<string>, ok: bool, applied: bool, readOk: bool, v: Validator)
    ensures Step(s, Save(m, ok, applied), v).1 == Step(s, Remove(ok, applied), v).1 == if ok then Nothing else Failed
    ensures Step(s, Evict(sessionId), v).1 == Nothing
    ensures Step(s, AdvanceEpoch(readOk, ok, applied), v).1 ==
      if readOk && ok && ReadEpoch(s.epoch).Some? && ReadEpoch(s.epoch).value < MAX_SAFE_INTEGER then Nothing else Failed
  {
    hide SerializeMaterial, ReadEpoch;
  }

  // What a read answers: from the cache, or from storage if its call is not rejected.
  lemma ReadsReplyHonestly(s: Store, ok: bool, v: Validator)
    ensures Step(s, Get(ok), v).1 ==
      if s.cached == NoMaterial then Found(None)
      else if s.cached.Has? then Found(Some(s.cached.material))
      else if !ok then Failed
      else if s.stored.None? then Found(None)
      else if Accepted(s.stored.value, v) then Found(DecodedMaterial(s.stored.value)) else Failed
  {
    if s.stored.Some? { AcceptedIsDecoded(s.stored.value, v); }
    hide Accepted, DecodedMaterial, SerializeMaterial, ReadEpoch;
  }

  lemma IdentityReadsReplyHonestly(s: Store, ok: bool, v: Validator)
    ensures Step(s, GetIdentity(ok), v).1 ==
      if !ok || (s.stored.Some? && !Accepted(s.stored.value, v)) then Failed
      else if s.stored.None? then Identified(None)
      else Identified(Some(DecodedMaterial(s.stored.value).value.identity))
  {
    hide Accepted, DecodedMaterial, SerializeMaterial, ReadEpoch;
  }

  lemma AcceptedIsDecoded(t: Tree, v: Validator)
    ensures Accepted(t, v) ==> DecodedMaterial(t).Some?
  {
    hide DecodedMaterial;
  }

  // A missing epoch is zero; a stored one is read as it is, if it is a safe natural number.
  lemma EpochIsReadExactly(n: int, t: Tree)
    ensures ReadEpoch(None) == Some(0)
    ensures ReadEpoch(Some(TNum(n))) == if 0 <= n < 0x20_0000_0000_0000 then Some(n) else None
    ensures !t.TNum? ==> ReadEpoch(Some(t)) == None
  {
  }

  // ------------------------------------------------------------------ the repository

  class Repository {
    var stored: Option<Tree>
    var epoch: Option<Tree>
    var cachedMaterial: Cached
    const validator: Validator

    constructor (v: Validator)
      ensures S() == Store(None, None, Unknown) && validator == v
    {
      stored, epoch, cachedMaterial, validator := None, None, Unknown, v;
    }

    function S(): Store
      reads this
    {
      Store(stored, epoch, cachedMaterial)
    }

    // A save that succeeds is what the next read returns; one that rejects is not seen through the
    // cache, even if it was applied.
    method SaveMaterial(material: MaterialValue, ok: bool, applied: bool) returns (reply: Reply)
      modifies this
      ensures (S(), reply) == Step(old(S()), Save(material, ok, applied), validator)
      ensures ok ==> ReadNow(S(), validator) == Found(Some(material))
      ensures !ok && old(cachedMaterial) != Unknown ==> ReadNow(S(), validator) == ReadNow(old(S()), validator)
      ensures !ok && !applied ==> S() == old(S())
    {
      if ok || applied { stored := Some(SerializeMaterial(material)); }
      if !ok { return Failed; }
      cachedMaterial := Has(material);
      reply := Nothing;
    }

    // A read neither writes nor changes what the next one returns.
    method GetMaterial(ok: bool) returns (reply: Reply)
      modifies this
      ensures (S(), reply) == Step(old(S()), Get(ok), validator)
      ensures stored == old(stored) && epoch == old(epoch) && ReadNow(S(), validator) == ReadNow(old(S()), validator)
      ensures ok ==> reply == ReadNow(old(S()), validator)
      ensures reply.Found? && reply.material.Some? ==> cachedMaterial == Has(reply.material.value)
      ensures !ok && old(cachedMaterial) == Unknown ==> reply == Failed
      ensures reply == Failed ==> S() == old(S())
    {
      hide SerializeMaterial, DecodedMaterial, Accepted, WritesEpoch;
      ReadingIsStable(S(), ok, validator);
      if cachedMaterial.NoMaterial? { return Found(None); }
      if cachedMaterial.Has? { return Found(Some(cachedMaterial.material)); }
      if !ok { return Failed; }
      if stored.None? { return Found(None); }
      reply := Decoded(stored.value, validator);
      if reply.Found? { cachedMaterial := Has(reply.material.value); }
    }

    method GetPersistedIdentity(ok: bool) returns (reply: Reply)
      ensures (S(), reply) == Step(old(S()), GetIdentity(ok), validator)
    {
      if !ok { return Failed; }
      if stored.None? { return Identified(None); }
      if !Accepted(stored.value, validator) { return Failed; }
      reply := Identified(Some(DecodedMaterial(stored.value).value.identity));
    }

    method GetSessionEpoch(ok: bool) returns (reply: Reply)
      ensures (S(), reply) == Step(old(S()), GetEpoch(ok), validator)
    {
      var current := ReadEpoch(epoch);
      reply := if ok && current.Some? then Epoch(current.value) else Failed;
    }

    // The epoch rises by one when the call succeeds, and at most by one when it fails.
    method AdvanceSessionEpoch(readOk: bool, writeOk: bool, applied: bool) returns (reply: Reply)
      modifies this
      ensures (S(), reply) == Step(old(S()), AdvanceEpoch(readOk, writeOk, applied), validator)
      ensures stored == old(stored) && cachedMaterial == old(cachedMaterial)
      ensures reply == Nothing ==>
        ReadEpoch(old(epoch)).Some? && ReadEpoch(epoch) == Some(ReadEpoch(old(epoch)).value + 1)
      ensures reply == Failed ==>
        epoch == old(epoch) || (applied && ReadEpoch(epoch) == Some(ReadEpoch(old(epoch)).value + 1))
      ensures ReadEpoch(old(epoch)) == Some(MAX_SAFE_INTEGER) ==> reply == Failed && epoch == old(epoch)
    {
      var current := ReadEpoch(epoch);
      if !readOk || current.None? { return Failed; }
      if current.value == MAX_SAFE_INTEGER { return Failed; }
      if writeOk || applied { epoch := Some(TNum(current.value + 1)); }
      reply := if writeOk then Nothing else Failed;
    }

    // Afterwards a read goes to storage, unless the cache holds material of another session.
    method EvictCached(sessionId: Option<string>)
      modifies this
      ensures (S(), Nothing) == Step(old(S()), Evict(sessionId), validator)
      ensures stored == old(stored) && epoch == old(epoch) && cachedMaterial != NoMaterial
      ensures cachedMaterial.Has? && sessionId.Some? ==> cachedMaterial.material.identity.sessionId != sessionId.value
    {
      if cachedMaterial.NoMaterial?
         || (sessionId.Some? && cachedMaterial.Has? && cachedMaterial.material.identity.sessionId == sessionId.value)
      {
        cachedMaterial := Unknown;
      }
    }

    // The cache forgets the material whether or not the storage call succeeds.
    method RemoveMaterial(ok: bool, applied: bool) returns (reply: Reply)
      modifies this
      ensures (S(), reply) == Step(old(S()), Remove(ok, applied), validator)
      ensures forall readOk :: Step(S(), Get(readOk), validator).1 == Found(None)
      ensures epoch == old(epoch) && (stored == old(stored) || stored.None?)
    {
      if ok || applied { stored := None; }
      cachedMaterial := NoMaterial;
      reply := if ok then Nothing else Failed;
    }
  }

  // ------------------------------------------------------------------ reads after a save

  // Material that the codec accepts again.
  predicate Storable(m: MaterialValue, v: Validator) {
    ValidMaterial(m) && KeysImport(v, m)
  }

  // Serialised material reads as itself, or not at all.
  lemma StoredReadsBack(m: MaterialValue, v: Validator)
    ensures Decoded(SerializeMaterial(m), v) == if Storable(m, v) then Found(Some(m)) else Failed
  {
    hide SerializeMaterial, DecodedMaterial, ValidMaterial, KeysImport;
    MaterialRoundTrip(m);
  }

  // No other save succeeds and nothing is removed; saves may be rejected.
  predicate AfterSave(op: Operation) {
    !(op.Save? && op.ok) && !op.Remove?
  }

  predicate AllAfterSave(ops: seq<Operation>) {
    forall i :: 0 <= i < |ops| ==> AfterSave(ops[i])
  }

  // What storage holds: the last rejected save that was applied, or else m.
  function LastWritten(m: MaterialValue, ops: seq<Operation>): MaterialValue {
    if ops == [] then m
    else
      var last := ops[|ops| - 1];
      if last.Save? && last.applied then last.material else LastWritten(m, ops[..|ops| - 1])
  }

  // The cache entry of m was evicted and has not been read again.
  predicate EntryLost(m: MaterialValue, ops: seq<Operation>) {
    if ops == [] then false
    else
      var last := ops[|ops| - 1];
      if last.Evict? && last.sessionId == Some(m.identity.sessionId) then true
      else if last == Get(true) then false
      else EntryLost(m, ops[..|ops| - 1])
  }

  // Whenever the entry is lost, storage still holds m, and can be read.
  predicate Backed(m: MaterialValue, ops: seq<Operation>, v: Validator) {
    EntryLost(m, ops) ==> LastWritten(m, ops) == m && Storable(m, v)
  }

  function Start(s: Store, m: MaterialValue, v: Validator): Store {
    Step(s, Save(m, true, true), v).0
  }

  lemma {:induction false} StorageHoldsLastWritten(s: Store, m: MaterialValue, ops: seq<Operation>, v: Validator)
    requires AllAfterSave(ops)
    ensures Run(Start(s, m, v), ops, v).stored == Some(SerializeMaterial(LastWritten(m, ops)))
  {
    hide SerializeMaterial, Decoded, Accepted, DecodedMaterial, WritesEpoch;
    if ops != [] {
      assert AfterSave(ops[|ops| - 1]);
      StorageHoldsLastWritten(s, m, ops[..|ops| - 1], v);
    }
  }

  // Whether the entry is lost after one more operation.
  predicate LostAfter(m: MaterialValue, lost: bool, op: Operation) {
    if op.Evict? && op.sessionId == Some(m.identity.sessionId) then true
    else if op == Get(true) then false
    else lost
  }

  lemma EntryLostLast(m: MaterialValue, ops: seq<Operation>)
    requires ops != []
    ensures EntryLost(m, ops) == LostAfter(m, EntryLost(m, ops[..|ops| - 1]), ops[|ops| - 1])
  {
  }

  lemma CacheStep(s: Store, m: MaterialValue, lost: bool, op: Operation, v: Validator)
    requires AfterSave(op) && s.cached == (if lost then Unknown else Has(m))
    requires s.stored.Some? && (lost ==> Decoded(s.stored.value, v) == Found(Some(m)))
    ensures Step(s, op, v).0.cached == if LostAfter(m, lost, op) then Unknown else Has(m)
  {
    hide SerializeMaterial, Decoded, WritesEpoch, Accepted, DecodedMaterial;
  }

  lemma {:induction false} CacheHoldsOrIsLost(s: Store, m: MaterialValue, ops: seq<Operation>, v: Validator)
    requires AllAfterSave(ops) && forall k :: 0 <= k < |ops| ==> Backed(m, ops[..k], v)
    ensures Run(Start(s, m, v), ops, v).cached == if EntryLost(m, ops) then Unknown else Has(m)
  {
    hide SerializeMaterial, Decoded, Storable, LastWritten, AfterSave, WritesEpoch, Accepted, DecodedMaterial;
    if ops != [] {
      hide Step, Start, EntryLost;
      var n := |ops| - 1;
      assert forall k :: 0 <= k < n ==> ops[..n][..k] == ops[..k];
      CacheHoldsOrIsLost(s, m, ops[..n], v);
      StorageHoldsLastWritten(s, m, ops[..n], v);
      StoredReadsBack(m, v);
      EntryLostLast(m, ops);
      assert Backed(m, ops[..n], v);
      CacheStep(Run(Start(s, m, v), ops[..n], v), m, EntryLost(m, ops[..n]), ops[n], v);
    }
  }

  lemma ReadAtTheEnd(s: Store, m: MaterialValue, ops: seq<Operation>, v: Validator)
    requires AllAfterSave(ops) && forall k :: 0 <= k < |ops| ==> Backed(m, ops[..k], v)
    ensures ReadNow(Run(Start(s, m, v), ops, v), v) == Found(Some(m)) <==> Backed(m, ops, v)
  {
    hide SerializeMaterial, Storable, Run, Start, EntryLost, LastWritten, Decoded, WritesEpoch, Accepted, DecodedMaterial;
    CacheHoldsOrIsLost(s, m, ops, v);
    StorageHoldsLastWritten(s, m, ops, v);
    StoredReadsBack(LastWritten(m, ops), v);
    var t := Run(Start(s, m, v), ops, v);
    assert ReadNow(t, v) == if EntryLost(m, ops) then Decoded(t.stored.value, v) else Found(Some(m));
    hide Step;
  }

  // Every read along the run, wherever it is made, returns m.
  predicate ReadsAgree(s: Store, m: MaterialValue, ops: seq<Operation>, v: Validator) {
    forall k :: 0 <= k <= |ops| ==> ReadNow(Run(Start(s, m, v), ops[..k], v), v) == Found(Some(m))
  }

  // With one writing context, reads return the material last saved exactly while this holds: when
  // its cache entry is lost, no rejected save has been applied over it, and the codec accepts it.
  lemma {:induction false} ReadsAgreeWithLastSave(s: Store, m: MaterialValue, ops: seq<Operation>, v: Validator)
    requires AllAfterSave(ops)
    ensures ReadsAgree(s, m, ops, v) <==> forall k :: 0 <= k <= |ops| ==> Backed(m, ops[..k], v)
  {
    hide Step, Backed, Start, ReadNow, Run;
    assert ops[..|ops|] == ops;
    if ops == [] {
      ReadAtTheEnd(s, m, ops, v);
    } else {
      var n := |ops| - 1;
      assert forall k :: 0 <= k <= n ==> ops[..n][..k] == ops[..k];
      ReadsAgreeWithLastSave(s, m, ops[..n], v);
      if forall k :: 0 <= k <= n ==> Backed(m, ops[..k], v) {
        ReadAtTheEnd(s, m, ops, v);
      }
    }
  }

  // In particular reads always agree when no rejected save was applied.
  lemma ReadsAgreeWithoutAppliedRejects(s: Store, m: MaterialValue, ops: seq<Operation>, v: Validator)
    requires AllAfterSave(ops) && Storable(m, v) && forall i :: 0 <= i < |ops| && ops[i].Save? ==> !ops[i].applied
    ensures ReadsAgree(s, m, ops, v)
  {
    forall k | 0 <= k <= |ops| ensures Backed(m, ops[..k], v) { UnwrittenIsKept(m, ops[..k]); }
    hide Backed, ReadsAgree;
    ReadsAgreeWithLastSave(s, m, ops, v);
  }

  lemma {:induction false} UnwrittenIsKept(m: MaterialValue, ops: seq<Operation>)
    requires forall i :: 0 <= i < |ops| && ops[i].Save? ==> !ops[i].applied
    ensures LastWritten(m, ops) == m
  {
    if ops != [] { UnwrittenIsKept(m, ops[..|ops| - 1]); }
  }

  // The identity is read from storage, past the cache.
  lemma IdentityIsLastWritten(s: Store, m: MaterialValue, ops: seq<Operation>, v: Validator)
    requires AllAfterSave(ops)
    ensures Step(Run(Start(s, m, v), ops, v), GetIdentity(true), v).1 ==
      if Storable(LastWritten(m, ops), v) then Identified(Some(LastWritten(m, ops).identity)) else Failed
  {
    StorageHoldsLastWritten(s, m, ops, v);
    StoredReadsBack(LastWritten(m, ops), v);
    hide SerializeMaterial, Storable, Run, Start, LastWritten, DecodedMaterial;
  }

  // ------------------------------------------------------------------ reads after a removal

  predicate KeepsRemoved(op: Operation) {
    !(op.Save? && op.ok) && !op.Evict?
  }

  // After a removal, even one whose storage call failed, reads return null until a save or an eviction.
  lemma {:induction false} RemovalHoldsUntilEviction(s: Store, ok: bool, applied: bool, ops: seq<Operation>, readOk: bool, v: Validator)
    requires forall i :: 0 <= i < |ops| ==> KeepsRemoved(ops[i])
    ensures var t := Run(Step(s, Remove(ok, applied), v).0, ops, v);
      t.cached == NoMaterial && Step(t, Get(readOk), v).1 == Found(None)
  {
    hide SerializeMaterial, DecodedMaterial, Accepted, ReadEpoch, WritesEpoch, Decoded;
    if ops != [] {
      assert KeepsRemoved(ops[|ops| - 1]);
      RemovalHoldsUntilEviction(s, ok, applied, ops[..|ops| - 1], readOk, v);
    }
  }

  // Nothing is written and nothing else removed.
  predicate AfterRemoval(op: Operation) {
    !(op.Save? && (op.ok || op.applied)) && !op.Remove?
  }

  predicate Evicts(ops: seq<Operation>) {
    exists i :: 0 <= i < |ops| && ops[i].Evict?
  }

  lemma EvictsLast(ops: seq<Operation>)
    requires ops != []
    ensures Evicts(ops) <==> Evicts(ops[..|ops| - 1]) || ops[|ops| - 1].Evict?
  {
    var n := |ops| - 1;
    if Evicts(ops) {
      var i :| 0 <= i < |ops| && ops[i].Evict?;
      assert i < n ==> ops[..n][i].Evict?;
    }
    if Evicts(ops[..n]) {
      var i :| 0 <= i < n && ops[..n][i].Evict?;
      assert ops[i].Evict?;
    }
  }

  // What the store is after a removal: the cache is unaware of storage until an eviction.
  predicate RemovedState(t: Store, left: Option<Tree>, evicted: bool, v: Validator) {
    && t.stored == left
    && (if evicted then
          t.cached == Unknown || (left.Some? && t.cached.Has? && Decoded(left.value, v) == Found(Some(t.cached.material)))
        else t.cached == NoMaterial)
  }

  lemma RemovedStep(t: Store, left: Option<Tree>, evicted: bool, op: Operation, v: Validator)
    requires RemovedState(t, left, evicted, v) && AfterRemoval(op)
    ensures RemovedState(Step(t, op, v).0, left, evicted || op.Evict?, v)
  {
    hide SerializeMaterial, DecodedMaterial, Accepted, WritesEpoch;
  }

  lemma {:induction false} RemovedRun(s: Store, ok: bool, applied: bool, ops: seq<Operation>, v: Validator)
    requires forall i :: 0 <= i < |ops| ==> AfterRemoval(ops[i])
    ensures RemovedState(Run(Step(s, Remove(ok, applied), v).0, ops, v),
      if ok || applied then None else s.stored, Evicts(ops), v)
  {
    if ops != [] {
      var n := |ops| - 1;
      RemovedRun(s, ok, applied, ops[..n], v);
      EvictsLast(ops);
      hide RemovedState, Evicts, Step;
      RemovedStep(Run(Step(s, Remove(ok, applied), v).0, ops[..n], v), if ok || applied then None else s.stored,
        Evicts(ops[..n]), ops[n], v);
    }
  }

  lemma RemovedReads(t: Store, left: Option<Tree>, evicted: bool, v: Validator)
    requires RemovedState(t, left, evicted, v)
    ensures ReadNow(t, v) == if left.Some? && evicted then Decoded(left.value, v) else Found(None)
  {
    hide SerializeMaterial, DecodedMaterial, Accepted, WritesEpoch;
  }

  // What reads return after a removal and any run that writes nothing: null for ever when the
  // removal was applied or nothing was stored, and otherwise until the first eviction, which
  // brings the material back.
  lemma RemovalIsExact(s: Store, ok: bool, applied: bool, ops: seq<Operation>, v: Validator)
    requires forall i :: 0 <= i < |ops| ==> AfterRemoval(ops[i])
    ensures ReadNow(Run(Step(s, Remove(ok, applied), v).0, ops, v), v) ==
      if ok || applied || s.stored.None? || !Evicts(ops) then Found(None) else Decoded(s.stored.value, v)
  {
    RemovedRun(s, ok, applied, ops, v);
    RemovedReads(Run(Step(s, Remove(ok, applied), v).0, ops, v), if ok || applied then None else s.stored, Evicts(ops), v);
    hide Run, Evicts, Decoded, Step, RemovedState;
  }

  // ------------------------------------------------------------------ the epoch over whole runs

  predicate Succeeds(s: Store, op: Operation, v: Validator) {
    op.AdvanceEpoch? && Step(s, op, v).1 == Nothing
  }

  function Written(s: Store, ops: seq<Operation>, v: Validator): nat {
    if ops == [] then 0
    else
      var n := |ops| - 1;
      Written(s, ops[..n], v) + if WritesEpoch(Run(s, ops[..n], v), ops[n]) then 1 else 0
  }

  function Succeeded(s: Store, ops: seq<Operation>, v: Validator): nat {
    if ops == [] then 0
    else
      var n := |ops| - 1;
      Succeeded(s, ops[..n], v) + if Succeeds(Run(s, ops[..n], v), ops[n], v) then 1 else 0
  }

  lemma EpochStep(s: Store, op: Operation, v: Validator)
    requires ReadEpoch(s.epoch).Some?
    ensures ReadEpoch(Step(s, op, v).0.epoch) == Some(ReadEpoch(s.epoch).value + if WritesEpoch(s, op) then 1 else 0)
    ensures Succeeds(s, op, v) <==> WritesEpoch(s, op) && op.writeOk
  {
    hide SerializeMaterial, DecodedMaterial, Accepted, Decoded;
  }

  // The epoch equals its start plus the number of writes that were applied: it never falls, rises
  // at least once for each successful advance, and stays a safe integer.
  lemma {:induction false} EpochCountsWrites(s: Store, ops: seq<Operation>, v: Validator)
    requires ReadEpoch(s.epoch).Some?
    ensures ReadEpoch(Run(s, ops, v).epoch) == Some(ReadEpoch(s.epoch).value + Written(s, ops, v))
    ensures Succeeded(s, ops, v) <= Written(s, ops, v)
    ensures ReadEpoch(s.epoch).value + Written(s, ops, v) <= MAX_SAFE_INTEGER
  {
    if ops != [] {
      var n := |ops| - 1;
      EpochCountsWrites(s, ops[..n], v);
      EpochStep(Run(s, ops[..n], v), ops[n], v);
      hide Step, WritesEpoch, Succeeds;
    }
  }

  // A read of the epoch returns that number, or fails with its storage call.
  lemma EpochReadsAreExact(s: Store, ops: seq<Operation>, ok: bool, v: Validator)
    requires ReadEpoch(s.epoch).Some?
    ensures Step(Run(s, ops, v), GetEpoch(ok), v).1 ==
      if ok then Epoch(ReadEpoch(s.epoch).value + Written(s, ops, v)) else Failed
  {
    EpochCountsWrites(s, ops, v);
    hide Run, Written, ReadEpoch;
  }

  // It has risen by exactly the successes when and only when no rejected advance was applied.
  predicate AppliedAlthoughRejected(s: Store, ops: seq<Operation>, i: nat, v: Validator)
    requires i < |ops|
  {
    WritesEpoch(Run(s, ops[..i], v), ops[i]) && !ops[i].writeOk
  }

  lemma {:induction false} EpochCountsSuccesses(s: Store, ops: seq<Operation>, v: Validator)
    requires ReadEpoch(s.epoch).Some?
    ensures Written(s, ops, v) == Succeeded(s, ops, v) <==>
      forall i :: 0 <= i < |ops| ==> !AppliedAlthoughRejected(s, ops, i, v)
  {
    if ops != [] {
      var n := |ops| - 1;
      EpochCountsSuccesses(s, ops[..n], v);
      EpochCountsWrites(s, ops[..n], v);
      EpochStep(Run(s, ops[..n], v), ops[n], v);
      forall i | 0 <= i < n
        ensures AppliedAlthoughRejected(s, ops, i, v) == AppliedAlthoughRejected(s, ops[..n], i, v)
      {
        assert ops[..n][..i] == ops[..i];
      }
      assert AppliedAlthoughRejected(s, ops, n, v) <==>
        WritesEpoch(Run(s, ops[..n], v), ops[n]) && !Succeeds(Run(s, ops[..n], v), ops[n], v);
      hide Step, WritesEpoch, Succeeds, Run, AppliedAlthoughRejected, ReadEpoch;
    }
  }

  // ------------------------------------------------------------------ the operation queue

  datatype Status = Waiting | Running | Settled(ok: bool)

  // An operation waits for the promise that was pending when it was submitted.
  datatype Queued = Queued(after: Option<nat>, status: Status)

  // `pending` is the operation whose settling `pendingOperation` follows; `started` is history.
  datatype Queue = Queue(ops: seq<Queued>, pending: Option<nat>, started: seq<nat>)

  const EMPTY_QUEUE := Queue([], None, [])

  datatype QueueStep = Submit | Start(index: nat) | Finish(index: nat, ok: bool)

  // Both handlers of `then` are the operation, so a failed predecessor starts it as well.
  predicate MayStart(q: Queue, k: nat) {
    && k < |q.ops| && q.ops[k].status.Waiting?
    && (q.ops[k].after.Some? ==> q.ops[k].after.value < |q.ops| && q.ops[q.ops[k].after.value].status.Settled?)
  }

  function QueueApply(q: Queue, step: QueueStep): Queue {
    match step
    case Submit => Queue(q.ops + [Queued(q.pending, Waiting)], Some(|q.ops|), q.started)
    case Start(k) =>
      if MayStart(q, k) then q.(ops := q.ops[k := q.ops[k].(status := Running)], started := q.started + [k]) else q
    case Finish(k, ok) =>
      if k < |q.ops| && q.ops[k].status.Running? then q.(ops := q.ops[k := q.ops[k].(status := Settled(ok))]) else q
  }

  function QueueRun(q: Queue, steps: seq<QueueStep>): Queue
    decreases |steps|
  {
    if steps == [] then q else QueueRun(QueueApply(q, steps[0]), steps[1..])
  }

  // The first n operations have started, in order; all but the last of them are settled.
  ghost predicate InOrder(q: Queue) {
    var n := |q.started|;
    && n <= |q.ops| && q.pending == (if |q.ops| == 0 then None else Some(|q.ops| - 1))
    && (forall i :: 0 <= i < n ==> q.started[i] == i)
    && (forall i :: 0 <= i < |q.ops| ==> q.ops[i].after == if i == 0 then None else Some(i - 1))
    && (forall i :: 0 <= i < |q.ops| ==> (q.ops[i].status.Waiting? <==> i >= n))
    && (forall i :: 0 <= i < n - 1 ==> q.ops[i].status.Settled?)
  }

  lemma QueueStepKeepsOrder(q: Queue, step: QueueStep)
    requires InOrder(q)
    ensures InOrder(QueueApply(q, step))
  {
  }

  lemma {:induction false} QueueRunKeepsOrder(q: Queue, steps: seq<QueueStep>)
    requires InOrder(q)
    ensures InOrder(QueueRun(q, steps))
    decreases |steps|
  {
    hide InOrder, QueueApply;
    if steps != [] {
      QueueStepKeepsOrder(q, steps[0]);
      QueueRunKeepsOrder(QueueApply(q, steps[0]), steps[1..]);
    }
  }

  // In every run, operations start in submission order, one at a time, and a settled one, failed
  // or not, lets the next start.
  lemma QueueIsSerial(steps: seq<QueueStep>, i: nat, j: nat)
    ensures var q := QueueRun(EMPTY_QUEUE, steps);
      && (i < |q.started| ==> q.started[i] == i)
      && (i < |q.ops| && j < |q.ops| && q.ops[i].status.Running? && q.ops[j].status.Running? ==> i == j)
      && (i < |q.ops| && q.ops[i].status.Waiting? && (i > 0 ==> q.ops[i - 1].status.Settled?) ==> MayStart(q, i))
      && (i < j < |q.ops| && !q.ops[j].status.Waiting? ==> q.ops[i].status.Settled?)
  {
    QueueRunKeepsOrder(EMPTY_QUEUE, steps);
    hide QueueRun;
  }
}
