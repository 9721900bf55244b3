// What every run of repository operations keeps.
module LocalHistory {
  import opened Common
  import opened LocalRepository

  datatype Op =
    | Initialize(init: InitParams)
    | ReplaceAccess(access: AccessParams)
    | SaveSnapshot(save: SnapshotParams)
    | RemoveMatching(removal: RemoveParams)
    | RemoveVault(id: string)
    | RemoveMaterial(id: string)

  type Digest = Snapshot -> string

  predicate Succeeded(d: Digest, t: Tables, op: Op) {
    match op
    case Initialize(p) => InitError(t, p).None?
    case ReplaceAccess(p) => ReplaceError(t, p).None?
    case SaveSnapshot(p) => SaveError(d, t, p).None?
    case RemoveMatching(p) => RemovalVerdict(d, t, p) == Ok(true)
    case RemoveVault(_) => true
    case RemoveMaterial(_) => true
  }

  function Apply(d: Digest, t: Tables, op: Op): Tables {
    if !Succeeded(d, t, op) then t
    else match op
      case Initialize(p) => Initialized(t, p)
      case ReplaceAccess(p) => Replaced(t, p)
      case SaveSnapshot(p) => Saved(t, p)
      case RemoveMatching(p) => RemovedAll(t, p.vaultId)
      case RemoveVault(id) => RemovedAll(t, id)
      case RemoveMaterial(id) => t.(materials := t.materials - {id})
  }

  // The state after a run.
  function Exec(d: Digest, t: Tables, ops: seq<Op>): Tables {
    if ops == [] then t else Apply(d, Exec(d, t, ops[..|ops| - 1]), ops[|ops| - 1])
  }

  // ------------------------------------------------------------------ all or none

  predicate WholeVaults(t: Tables) {
    && t.descriptors.Keys == t.materials.Keys == t.backups.Keys == t.snapshots.Keys == t.checkpoints.Keys
    && t.credentials.Keys <= t.descriptors.Keys
  }

  // A vault's five mandatory records stay all present or all absent.
  lemma {:induction false} WholeVaultsKept(d: Digest, t: Tables, ops: seq<Op>)
    requires WholeVaults(t) && forall i :: 0 <= i < |ops| ==> !ops[i].RemoveMaterial?
    ensures WholeVaults(Exec(d, t, ops))
  {
    if ops != [] {
      var n := |ops| - 1;
      WholeVaultsKept(d, t, ops[..n]);
      WholeVaultsStep(d, Exec(d, t, ops[..n]), ops[n]);
    }
  }

  lemma WholeVaultsStep(d: Digest, t: Tables, op: Op)
    requires WholeVaults(t) && !op.RemoveMaterial?
    ensures WholeVaults(Apply(d, t, op))
  {
    if op.ReplaceAccess? && Succeeded(d, t, op) {
      ReplacementTestIsThePromise(op.access, Value(Find(t.materials, op.access.material.identity.vaultId)),
        Value(Find(t.backups, op.access.material.identity.vaultId)));
    }
  }

  // ------------------------------------------------------------------ sound access records

  predicate SoundRow(id: string, row: Stored<Access>) {
    && row.Readable?
    && row.value.identity.vaultId == id && id != ""
    && row.value.identity.deviceId != "" && row.value.identity.suiteId != ""
    && row.value.generation != ""
    && 1 <= row.value.revision <= MAX_SAFE_INTEGER
  }

  predicate SoundAccess(t: Tables) {
    && (forall id :: id in t.backups ==> SoundRow(id, t.backups[id]))
    && (forall id :: id in t.materials ==>
          && SoundRow(id, t.materials[id])
          && id in t.backups && t.backups[id].Readable?
          && t.materials[id].value.identity == t.backups[id].value.identity
          && t.materials[id].value.generation == t.backups[id].value.generation)
  }

  lemma ReplaceFacts(t: Tables, p: AccessParams)
    requires ReplaceError(t, p).None?
    ensures var id := p.material.identity.vaultId;
      && id in t.backups && t.backups[id].Readable?
      && ExpectationMet(p, Value(Find(t.materials, id)), t.backups[id].value)
      && SoundPair(Value(Find(t.materials, id)), t.backups[id].value)
      && LocalRepository.Succeeds(p, Value(Find(t.materials, id)), t.backups[id].value)
  {
    var id := p.material.identity.vaultId;
    ReplacementTestIsThePromise(p, Value(Find(t.materials, id)), Value(Find(t.backups, id)));
  }

  lemma SoundInitialize(d: Digest, t: Tables, p: InitParams)
    requires SoundAccess(t)
    ensures SoundAccess(Apply(d, t, Initialize(p)))
  {
  }

  lemma SoundRemoval(t: Tables, id: string)
    requires SoundAccess(t)
    ensures SoundAccess(RemovedAll(t, id)) && SoundAccess(t.(materials := t.materials - {id}))
  {
  }

  // Stored material and backup share identity and generation, whatever operations run.
  lemma SoundAccessStep(d: Digest, t: Tables, op: Op)
    requires SoundAccess(t)
    ensures SoundAccess(Apply(d, t, op))
  {
    hide InitError, ReplaceError, RemovalVerdict, SaveError;
    match op
    case Initialize(p) => hide Apply, SoundAccess; SoundInitialize(d, t, p);
    case ReplaceAccess(p) => hide Apply, SoundAccess; SoundReplace(d, t, p);
    case RemoveMatching(p) => SoundRemoval(t, p.vaultId); hide SoundAccess, RemovedAll;
    case RemoveVault(id) => SoundRemoval(t, id); hide SoundAccess, RemovedAll;
    case RemoveMaterial(id) => SoundRemoval(t, id); hide SoundAccess;
    case SaveSnapshot(p) =>
  }

  lemma SoundReplace(d: Digest, t: Tables, p: AccessParams)
    requires SoundAccess(t)
    ensures SoundAccess(Apply(d, t, ReplaceAccess(p)))
  {
    hide IsValidReplacement;
    if ReplaceError(t, p).None? {
      ReplaceFacts(t, p);
      hide ReplaceError;
    }
  }

  lemma {:induction false} SoundAccessKept(d: Digest, t: Tables, ops: seq<Op>)
    requires SoundAccess(t)
    ensures SoundAccess(Exec(d, t, ops))
  {
    if ops != [] {
      SoundAccessKept(d, t, ops[..|ops| - 1]);
      SoundAccessStep(d, Exec(d, t, ops[..|ops| - 1]), ops[|ops| - 1]);
    }
  }

  // ------------------------------------------------------------------ revision history

  // The operation does not remove the vault.
  predicate Keeps(op: Op, id: string) {
    op != RemoveVault(id) && !(op.RemoveMatching? && op.removal.vaultId == id)
  }

  predicate KeepsAll(ops: seq<Op>, id: string) {
    forall i :: 0 <= i < |ops| ==> Keeps(ops[i], id)
  }

  predicate Won(d: Digest, t: Tables, op: Op, id: string) {
    op.ReplaceAccess? && op.access.material.identity.vaultId == id && Succeeded(d, t, op)
  }

  // How many replacements of the vault's access records succeeded in a run.
  function Wins(d: Digest, t: Tables, ops: seq<Op>, id: string): nat {
    if ops == [] then 0
    else
      var n := |ops| - 1;
      Wins(d, t, ops[..n], id) + if Won(d, Exec(d, t, ops[..n]), ops[n], id) then 1 else 0
  }

  lemma BackupStep(d: Digest, t: Tables, op: Op, id: string)
    requires SoundAccess(t) && id in t.backups && Keeps(op, id)
    ensures var u := Apply(d, t, op);
      && id in u.backups && u.backups[id].Readable?
      && u.backups[id].value.identity == t.backups[id].value.identity
      && (if Won(d, t, op, id) then
            u.backups[id].value.revision == t.backups[id].value.revision + 1 <= MAX_SAFE_INTEGER
            && op.access.expectedBackupRevision == t.backups[id].value.revision
          else u.backups[id] == t.backups[id])
  {
    if op.ReplaceAccess? && Succeeded(d, t, op) {
      hide IsValidReplacement;
      ReplaceFacts(t, op.access);
    }
  }

  // Until its removal a vault keeps its identity, and its backup revision counts the successful
  // replacements one by one.
  lemma {:induction false} RevisionCountsReplacements(d: Digest, t: Tables, ops: seq<Op>, id: string)
    requires SoundAccess(t) && id in t.backups && KeepsAll(ops, id)
    ensures var u := Exec(d, t, ops);
      && id in u.backups && u.backups[id].Readable?
      && u.backups[id].value.identity == t.backups[id].value.identity
      && u.backups[id].value.revision == t.backups[id].value.revision + Wins(d, t, ops, id)
      && u.backups[id].value.revision <= MAX_SAFE_INTEGER
  {
    if ops != [] {
      var n := |ops| - 1;
      RevisionCountsReplacements(d, t, ops[..n], id);
      SoundAccessKept(d, t, ops[..n]);
      BackupStep(d, Exec(d, t, ops[..n]), ops[n], id);
    }
  }

  lemma {:induction false} BackupsGrow(d: Digest, t: Tables, ops: seq<Op>, id: string, i: nat)
    requires SoundAccess(t) && id in t.backups && KeepsAll(ops, id) && i <= |ops|
    ensures var a, b := Exec(d, t, ops[..i]), Exec(d, t, ops);
      && id in a.backups && id in b.backups && a.backups[id].Readable? && b.backups[id].Readable?
      && (a.backups[id] == b.backups[id] || a.backups[id].value.revision < b.backups[id].value.revision)
    decreases |ops|
  {
    RevisionCountsReplacements(d, t, ops, id);
    if i == |ops| {
      assert ops[..i] == ops;
    } else {
      var n := |ops| - 1;
      BackupsGrow(d, t, ops[..n], id, i);
      assert ops[..n][..i] == ops[..i];
      SoundAccessKept(d, t, ops[..n]);
      BackupStep(d, Exec(d, t, ops[..n]), ops[n], id);
    }
  }

  // No (revision, generation) pair of the backup comes back: at two moments of a run either the
  // backup is the very same record, or its revision has grown.
  lemma NoBackupPairRecurs(d: Digest, t: Tables, ops: seq<Op>, id: string, i: nat, j: nat)
    requires SoundAccess(t) && id in t.backups && KeepsAll(ops, id) && i <= j <= |ops|
    ensures var a, b := Exec(d, t, ops[..i]), Exec(d, t, ops[..j]);
      && id in a.backups && id in b.backups && a.backups[id].Readable? && b.backups[id].Readable?
      && (a.backups[id] == b.backups[id] || a.backups[id].value.revision < b.backups[id].value.revision)
  {
    BackupsGrow(d, t, ops[..j], id, i);
    assert ops[..j][..i] == ops[..i];
  }

  // Of two callers holding the same expectation at most one succeeds.
  lemma AtMostOneWinner(d: Digest, t: Tables, ops: seq<Op>, id: string, i: nat, j: nat)
    requires SoundAccess(t) && id in t.backups && KeepsAll(ops, id) && i < j < |ops|
    requires Won(d, Exec(d, t, ops[..i]), ops[i], id) && Won(d, Exec(d, t, ops[..j]), ops[j], id)
    ensures ops[i].access.expectedBackupRevision < ops[j].access.expectedBackupRevision
  {
    RevisionCountsReplacements(d, t, ops[..i], id);
    SoundAccessKept(d, t, ops[..i]);
    BackupStep(d, Exec(d, t, ops[..i]), ops[i], id);
    assert ops[..i + 1][..i] == ops[..i];
    NoBackupPairRecurs(d, t, ops, id, i + 1, j);
    SoundAccessKept(d, t, ops[..j]);
    BackupStep(d, Exec(d, t, ops[..j]), ops[j], id);
  }

  // ------------------------------------------------------------------ the material itself

  lemma MaterialStep(d: Digest, t: Tables, op: Op, id: string)
    requires SoundAccess(t) && id in t.materials && Keeps(op, id) && op != RemoveMaterial(id)
    ensures var u := Apply(d, t, op);
      && id in u.materials && u.materials[id].Readable? && t.materials[id].Readable?
      && (if Won(d, t, op, id) then u.materials[id].value.revision == t.materials[id].value.revision + 1
          else u.materials[id] == t.materials[id])
  {
    if op.ReplaceAccess? && Succeeded(d, t, op) {
      hide IsValidReplacement;
      ReplaceFacts(t, op.access);
    }
  }

  // While the material is not removed on its own, its revision too counts the replacements.
  lemma {:induction false} MaterialRevisions(d: Digest, t: Tables, ops: seq<Op>, id: string)
    requires SoundAccess(t) && id in t.materials && KeepsAll(ops, id)
    requires forall i :: 0 <= i < |ops| ==> ops[i] != RemoveMaterial(id)
    ensures var u := Exec(d, t, ops);
      && t.materials[id].Readable? && id in u.materials && u.materials[id].Readable?
      && u.materials[id].value.revision == t.materials[id].value.revision + Wins(d, t, ops, id)
  {
    if ops != [] {
      var n := |ops| - 1;
      MaterialRevisions(d, t, ops[..n], id);
      SoundAccessKept(d, t, ops[..n]);
      MaterialStep(d, Exec(d, t, ops[..n]), ops[n], id);
    }
  }

  // ------------------------------------------------------------------ when a material pair comes back

  // The pair that names a version of the material.
  function PairOf(t: Tables, id: string): Option<(int, string)> {
    if id in t.materials && t.materials[id].Readable?
    then Some((t.materials[id].value.revision, t.materials[id].value.generation)) else None
  }

  // After the run the pair is what it was before, although it was something else, or nothing, in between.
  ghost predicate Recurs(d: Digest, t: Tables, ops: seq<Op>, id: string) {
    && KeepsAll(ops, id) && PairOf(Exec(d, t, ops), id) == PairOf(t, id)
    && exists i :: 0 <= i <= |ops| && PairOf(Exec(d, t, ops[..i]), id) != PairOf(t, id)
  }

  // Without a removal of the material alone nothing comes back.
  lemma NothingRecursWithoutRemoval(d: Digest, t: Tables, ops: seq<Op>, id: string)
    requires SoundAccess(t) && id in t.materials && forall i :: 0 <= i < |ops| ==> ops[i] != RemoveMaterial(id)
    ensures !Recurs(d, t, ops, id)
  {
    if Recurs(d, t, ops, id) {
      var i :| 0 <= i <= |ops| && PairOf(Exec(d, t, ops[..i]), id) != PairOf(t, id);
      MaterialRevisions(d, t, ops, id);
      MaterialRevisions(d, t, ops[..i], id);
      WinsGrow(d, t, ops, id, i);
      MaterialWithoutWins(d, t, ops[..i], id);
    }
  }

  lemma {:induction false} WinsGrow(d: Digest, t: Tables, ops: seq<Op>, id: string, i: nat)
    requires i <= |ops|
    ensures Wins(d, t, ops[..i], id) <= Wins(d, t, ops, id)
    decreases |ops|
  {
    if i == |ops| {
      assert ops[..i] == ops;
    } else {
      WinsGrow(d, t, ops[..|ops| - 1], id, i);
      assert ops[..|ops| - 1][..i] == ops[..i];
    }
  }

  lemma {:induction false} MaterialWithoutWins(d: Digest, t: Tables, ops: seq<Op>, id: string)
    requires SoundAccess(t) && id in t.materials && KeepsAll(ops, id) && Wins(d, t, ops, id) == 0
    requires forall i :: 0 <= i < |ops| ==> ops[i] != RemoveMaterial(id)
    ensures id in Exec(d, t, ops).materials && Exec(d, t, ops).materials[id] == t.materials[id]
  {
    if ops != [] {
      var n := |ops| - 1;
      MaterialWithoutWins(d, t, ops[..n], id);
      SoundAccessKept(d, t, ops[..n]);
      MaterialStep(d, Exec(d, t, ops[..n]), ops[n], id);
    }
  }

  // What is known of the material during a run: either nothing removed it and its revision has
  // counted every replacement, or it has counted only replacements after a removal.
  predicate Counted(t: Tables, u: Tables, wins: nat, removed: bool, id: string)
    requires id in t.materials && t.materials[id].Readable? && id in t.backups && t.backups[id].Readable?
  {
    && (wins == 0 ==> id in u.backups && u.backups[id] == t.backups[id])
    && (id in u.materials ==> u.materials[id].Readable?)
    && (!removed ==> id in u.materials && u.materials[id].value.revision == t.materials[id].value.revision + wins)
    && (removed && id in u.materials ==> u.materials[id].value.revision <= wins)
    && (removed && id in u.materials && wins == 1 ==>
          u.materials[id].value.generation != t.backups[id].value.generation)
  }

  lemma CountedStep(d: Digest, t: Tables, u: Tables, op: Op, wins: nat, removed: bool, id: string)
    requires SoundAccess(t) && id in t.materials && SoundAccess(u) && id in u.backups && Keeps(op, id)
    requires Counted(t, u, wins, removed, id)
    ensures Counted(t, Apply(d, u, op), wins + if Won(d, u, op, id) then 1 else 0, removed || op == RemoveMaterial(id), id)
  {
    BackupStep(d, u, op, id);
    if op == RemoveMaterial(id) {
    } else if Won(d, u, op, id) {
      ReplaceFacts(u, op.access);
      hide IsValidReplacement, ReplaceError;
    } else if id in u.materials {
      MaterialStep(d, u, op, id);
      hide Apply;
    } else {
      hide IsValidReplacement, SaveError, RemovalVerdict;
      AbsentStaysAbsent(d, u, op, id);
    }
  }

  // A vault with a backup gets material only by a replacement.
  lemma AbsentStaysAbsent(d: Digest, u: Tables, op: Op, id: string)
    requires id in u.backups && id !in u.materials && !Won(d, u, op, id)
    ensures id !in Apply(d, u, op).materials
  {
    hide IsValidReplacement, SaveError, RemovalVerdict;
  }

  predicate Removes(ops: seq<Op>, id: string) {
    exists i :: 0 <= i < |ops| && ops[i] == RemoveMaterial(id)
  }

  lemma {:induction false} CountedRun(d: Digest, t: Tables, ops: seq<Op>, id: string)
    requires SoundAccess(t) && id in t.materials && KeepsAll(ops, id)
    ensures Counted(t, Exec(d, t, ops), Wins(d, t, ops, id), Removes(ops, id), id)
  {
    if ops != [] {
      var n := |ops| - 1;
      CountedRun(d, t, ops[..n], id);
      SoundAccessKept(d, t, ops[..n]);
      RevisionCountsReplacements(d, t, ops[..n], id);
      CountedStep(d, t, Exec(d, t, ops[..n]), ops[n], Wins(d, t, ops[..n], id), Removes(ops[..n], id), id);
      RemovesLast(ops, id);
      hide Counted, Apply, Won, KeepsAll;
    }
  }

  lemma RemovesLast(ops: seq<Op>, id: string)
    requires ops != []
    ensures Removes(ops, id) <==> Removes(ops[..|ops| - 1], id) || ops[|ops| - 1] == RemoveMaterial(id)
  {
    var n := |ops| - 1;
    if Removes(ops, id) {
      var i :| 0 <= i < |ops| && ops[i] == RemoveMaterial(id);
      assert i < n ==> ops[..n][i] == RemoveMaterial(id);
    }
    if Removes(ops[..n], id) {
      var i :| 0 <= i < n && ops[..n][i] == RemoveMaterial(id);
      assert ops[i] == RemoveMaterial(id);
    }
  }

  // A pair that comes back has cost that many backup revisions.
  lemma RecurrenceCosts(d: Digest, t: Tables, ops: seq<Op>, id: string)
    requires SoundAccess(t) && id in t.materials && Recurs(d, t, ops, id)
    ensures t.backups[id].value.revision + RevisionsNeeded(t, id) <= MAX_SAFE_INTEGER
  {
    if !Removes(ops, id) {
      assert forall i :: 0 <= i < |ops| ==> ops[i] != RemoveMaterial(id);
      NothingRecursWithoutRemoval(d, t, ops, id);
    }
    CountedRun(d, t, ops, id);
    RevisionCountsReplacements(d, t, ops, id);
    hide Exec, Wins, KeepsAll;
  }

  // To come back, revision r takes r replacements after the removal; the first of them cannot
  // have the generation that the backup has, so r == 1 takes one more.
  function RevisionsNeeded(t: Tables, id: string): int
    requires id in t.materials && t.materials[id].Readable?
  {
    if t.materials[id].value.revision == 1 then 2 else t.materials[id].value.revision
  }

  // ------------------------------------------------------------------ a run that brings it back

  // The generation of the k-th replacement of the run: g comes last, and no two in a row agree.
  function GenerationAt(g: string, r: nat, k: nat): string {
    if k == r then g else if k % 2 == 1 then g + "a" else g + "b"
  }

  function VersionOf(base: Access, r: nat, k: nat, revision: int): Access {
    Access(base.identity, revision, GenerationAt(base.generation, r, k), "")
  }

  // The k-th replacement after the removal; `base` is the backup before it.
  function Rebuilding(base: Access, r: nat, k: nat): Op
    requires k >= 1
  {
    var previous := if k == 1 then None else Some(GenerationAt(base.generation, r, k - 1));
    ReplaceAccess(AccessParams(
      if k == 1 then None else Some(k - 1), previous,
      base.revision + k - 1, if k == 1 then base.generation else previous.value,
      VersionOf(base, r, k, k), VersionOf(base, r, k, base.revision + k)))
  }

  function Rebuild(base: Access, r: nat, k: nat): (ops: seq<Op>)
    ensures |ops| == k
  {
    if k == 0 then [] else Rebuild(base, r, k - 1) + [Rebuilding(base, r, k)]
  }

  // Where the first k replacements lead.
  predicate RebuiltTo(u: Tables, id: string, base: Access, r: nat, k: nat) {
    if k == 0 then id !in u.materials && id in u.backups && u.backups[id] == Readable(base)
    else
      && id in u.materials && u.materials[id] == Readable(VersionOf(base, r, k, k))
      && id in u.backups && u.backups[id] == Readable(VersionOf(base, r, k, base.revision + k))
  }

  lemma {:induction false} RebuildWorks(d: Digest, t: Tables, id: string, base: Access, r: nat, k: nat)
    requires RebuiltTo(t, id, base, r, 0) && SoundRow(id, Readable(base))
    requires k <= r && r != 1 && base.revision + r <= MAX_SAFE_INTEGER
    ensures RebuiltTo(Exec(d, t, Rebuild(base, r, k)), id, base, r, k)
  {
    hide Apply, RebuiltTo, SoundRow;
    if k > 0 {
      var shorter := Rebuild(base, r, k - 1);
      RebuildWorks(d, t, id, base, r, k - 1);
      RebuildStep(d, Exec(d, t, shorter), id, base, r, k);
      hide Rebuilding;
      ExecAppend(d, t, shorter, [Rebuilding(base, r, k)]);
      ExecOne(d, Exec(d, t, shorter), Rebuilding(base, r, k));
      hide Exec;
    }
  }

  lemma {:induction false} RebuildKeeps(base: Access, r: nat, k: nat, id: string)
    ensures KeepsAll(Rebuild(base, r, k), id)
  {
    if k > 0 {
      RebuildKeeps(base, r, k - 1, id);
      ReplacingKeeps(base, r, k, id);
      hide Rebuilding, Keeps;
    }
  }

  lemma ReplacingKeeps(base: Access, r: nat, k: nat, id: string)
    requires k >= 1
    ensures Keeps(Rebuilding(base, r, k), id)
  {
  }

  // A replacement that meets the promise of the test takes place.
  lemma ReplaceWorks(d: Digest, u: Tables, p: AccessParams, backup: Access)
    requires var id := p.material.identity.vaultId;
      && (id in u.materials ==> u.materials[id].Readable? && u.materials[id].value.identity.vaultId == id)
      && id in u.backups && u.backups[id] == Readable(backup) && backup.identity.vaultId == id
      && ExpectationMet(p, Value(Find(u.materials, id)), backup) && SoundPair(Value(Find(u.materials, id)), backup)
      && LocalRepository.Succeeds(p, Value(Find(u.materials, id)), backup)
    ensures Apply(d, u, ReplaceAccess(p)) == Replaced(u, p)
  {
    var id := p.material.identity.vaultId;
    ReplacementTestIsThePromise(p, Value(Find(u.materials, id)), Value(Find(u.backups, id)));
    hide IsValidReplacement;
  }

  lemma RebuildStep(d: Digest, u: Tables, id: string, base: Access, r: nat, k: nat)
    requires 1 <= k <= r && r != 1 && base.revision + r <= MAX_SAFE_INTEGER && SoundRow(id, Readable(base))
    requires RebuiltTo(u, id, base, r, k - 1)
    ensures RebuiltTo(Apply(d, u, Rebuilding(base, r, k)), id, base, r, k)
  {
    GenerationsDiffer(base.generation, r, k);
    hide GenerationAt;
    if k > 1 { GenerationsDiffer(base.generation, r, k - 1); }
    var p := Rebuilding(base, r, k).access;
    ReplaceWorks(d, u, p, u.backups[id].value);
    hide Apply;
  }

  lemma GenerationsDiffer(g: string, r: nat, k: nat)
    requires 1 <= k <= r && r != 1 && g != ""
    ensures GenerationAt(g, r, k) != "" && GenerationAt(g, r, k) != (if k == 1 then g else GenerationAt(g, r, k - 1))
  {
    assert |g + "a"| == |g| + 1 && (g + "a")[|g|] == 'a' && (g + "b")[|g|] == 'b';
  }

  lemma {:induction false} ExecAppend(d: Digest, t: Tables, a: seq<Op>, b: seq<Op>)
    ensures Exec(d, t, a + b) == Exec(d, Exec(d, t, a), b)
    decreases |b|
  {
    hide Apply;
    if b == [] {
      assert a + b == a;
    } else {
      var n := |b| - 1;
      assert (a + b)[..|a| + n] == a + b[..n];
      ExecAppend(d, t, a, b[..n]);
    }
  }

  lemma ExecOne(d: Digest, t: Tables, op: Op)
    ensures Exec(d, t, [op]) == Apply(d, t, op)
  {
    hide Apply;
    assert [op][..0] == [];
  }

  // From revision two on: remove the material and replace r times.
  lemma RemoveAndRebuild(d: Digest, t: Tables, id: string) returns (ops: seq<Op>)
    requires SoundAccess(t) && id in t.materials && t.materials[id].value.revision >= 2
    requires t.backups[id].value.revision + t.materials[id].value.revision <= MAX_SAFE_INTEGER
    ensures Recurs(d, t, ops, id)
  {
    var base, r := t.backups[id].value, t.materials[id].value.revision;
    var t1 := t.(materials := t.materials - {id});
    assert base.generation == t.materials[id].value.generation && SoundRow(id, Readable(base));
    assert Apply(d, t, RemoveMaterial(id)) == t1;
    hide SoundAccess, Apply, SoundRow;
    ExecOne(d, t, RemoveMaterial(id));
    assert RebuiltTo(t1, id, base, r, 0);
    RebuildWorks(d, t1, id, base, r, r);
    RebuildKeeps(base, r, r, id);
    var tail := Rebuild(base, r, r);
    ops := [RemoveMaterial(id)] + tail;
    ExecAppend(d, t, [RemoveMaterial(id)], tail);
    assert ops[..1] == [RemoveMaterial(id)];
    hide Rebuild, Exec;
    assert PairOf(Exec(d, t, ops[..1]), id) == None;
    forall i | 0 <= i < |ops| ensures Keeps(ops[i], id) { assert i > 0 ==> ops[i] == tail[i - 1]; }
  }

  // Revision one: the backup must leave the generation first.
  function Leaving(base: Access): AccessParams {
    var h := base.generation + "a";
    AccessParams(Some(1), Some(base.generation), base.revision, base.generation,
      Access(base.identity, 2, h, ""), Access(base.identity, base.revision + 1, h, ""))
  }

  function Returning(base: Access): AccessParams {
    AccessParams(None, None, base.revision + 1, base.generation + "a",
      Access(base.identity, 1, base.generation, ""), Access(base.identity, base.revision + 2, base.generation, ""))
  }

  lemma LeavingWorks(d: Digest, t: Tables, id: string)
    requires SoundAccess(t) && id in t.materials && t.materials[id].value.revision == 1
    requires t.backups[id].value.revision + 2 <= MAX_SAFE_INTEGER
    ensures var base := t.backups[id].value; Apply(d, t, ReplaceAccess(Leaving(base))) == Replaced(t, Leaving(base))
  {
    var g := t.backups[id].value.generation;
    assert |g + "a"| == |g| + 1;
    ReplaceWorks(d, t, Leaving(t.backups[id].value), t.backups[id].value);
    hide Apply;
  }

  lemma ReturningWorks(d: Digest, u: Tables, id: string, base: Access)
    requires SoundRow(id, Readable(base)) && base.revision + 2 <= MAX_SAFE_INTEGER
    requires id !in u.materials && id in u.backups && u.backups[id] == Readable(Leaving(base).backup)
    ensures Apply(d, u, ReplaceAccess(Returning(base))) == Replaced(u, Returning(base))
  {
    var g := base.generation;
    assert |g + "a"| == |g| + 1;
    ReplaceWorks(d, u, Returning(base), Leaving(base).backup);
    hide Apply;
  }

  lemma LeaveAndReturn(d: Digest, t: Tables, id: string) returns (ops: seq<Op>)
    requires SoundAccess(t) && id in t.materials && t.materials[id].value.revision == 1
    requires t.backups[id].value.revision + 2 <= MAX_SAFE_INTEGER
    ensures Recurs(d, t, ops, id)
  {
    var base := t.backups[id].value;
    var t1 := Replaced(t, Leaving(base));
    var t2 := t1.(materials := t1.materials - {id});
    LeavingWorks(d, t, id);
    RemovingWorks(d, t1, id);
    assert SoundRow(id, Readable(base)) && base.generation == t.materials[id].value.generation;
    hide SoundAccess, Apply, Exec;
    ReturningWorks(d, t2, id, base);
    ops := [ReplaceAccess(Leaving(base)), RemoveMaterial(id), ReplaceAccess(Returning(base))];
    ExecThree(d, t, ops);
    assert PairOf(Exec(d, t, ops[..1]), id) == Some((2, base.generation + "a"));
  }

  lemma RemovingWorks(d: Digest, t: Tables, id: string)
    ensures Apply(d, t, RemoveMaterial(id)) == t.(materials := t.materials - {id})
  {
  }

  // The pair of the material can come back exactly when the backup has enough revisions left, and
  // then only by a removal of the material alone.
  lemma MaterialPairMayRecur(d: Digest, t: Tables, id: string)
    requires SoundAccess(t) && id in t.materials
    ensures (exists ops :: Recurs(d, t, ops, id)) <==>
      t.backups[id].value.revision + RevisionsNeeded(t, id) <= MAX_SAFE_INTEGER
    ensures forall ops :: Recurs(d, t, ops, id) ==> Removes(ops, id)
  {
    forall ops | Recurs(d, t, ops, id)
      ensures t.backups[id].value.revision + RevisionsNeeded(t, id) <= MAX_SAFE_INTEGER && Removes(ops, id)
    {
      hide Recurs;
      RecurrenceCosts(d, t, ops, id);
      if !Removes(ops, id) {
        assert forall i :: 0 <= i < |ops| ==> ops[i] != RemoveMaterial(id);
        NothingRecursWithoutRemoval(d, t, ops, id);
      }
    }
    if t.backups[id].value.revision + RevisionsNeeded(t, id) <= MAX_SAFE_INTEGER {
      var ops;
      if t.materials[id].value.revision == 1 {
        ops := LeaveAndReturn(d, t, id);
      } else {
        ops := RemoveAndRebuild(d, t, id);
      }
      assert Recurs(d, t, ops, id);
    }
  }

  lemma ExecThree(d: Digest, t: Tables, ops: seq<Op>)
    requires |ops| == 3
    ensures Exec(d, t, ops[..1]) == Apply(d, t, ops[0])
    ensures Exec(d, t, ops) == Apply(d, Apply(d, Apply(d, t, ops[0]), ops[1]), ops[2])
  {
    hide Apply;
    assert ops[..1][..0] == [] && ops[..2][..1] == ops[..1];
  }

  // ------------------------------------------------------------------ snapshot history

  predicate SavedBy(d: Digest, t: Tables, op: Op, id: string) {
    op.SaveSnapshot? && op.save.snapshot.id == id && Succeeded(d, t, op)
  }

  lemma SnapshotStep(d: Digest, t: Tables, op: Op, id: string)
    requires id in t.snapshots && Keeps(op, id)
    ensures var u := Apply(d, t, op);
      && id in u.snapshots
      && (if SavedBy(d, t, op, id) then
            && Find(t.snapshots, id) == Some(Readable(t.snapshots[id].value))
            && d(t.snapshots[id].value) == op.save.expectedDigest
            && Find(t.checkpoints, id) == Some(Readable(op.save.expectedCheckpoint))
            && (Replaces(op.save.credential) ==> Value(Find(t.credentials, id)) == FieldValue(op.save.expectedCredential))
            && u.snapshots[id] == Readable(op.save.snapshot)
            && Find(u.checkpoints, id) == Some(Readable(op.save.checkpoint))
            && (if Replaces(op.save.credential) then Value(Find(u.credentials, id)) == FieldValue(op.save.credential)
                else Find(u.credentials, id) == Find(t.credentials, id))
          else (u.snapshots[id] == t.snapshots[id]
                && Find(u.checkpoints, id) == Find(t.checkpoints, id)
                && Find(u.credentials, id) == Find(t.credentials, id)))
  {
  }

  // No save of the vault succeeds from position i on.
  predicate Quiet(d: Digest, t: Tables, ops: seq<Op>, id: string, i: nat) {
    forall k :: i <= k < |ops| ==> !SavedBy(d, Exec(d, t, ops[..k]), ops[k], id)
  }

  lemma {:induction false} QuietKeepsSnapshot(d: Digest, t: Tables, ops: seq<Op>, id: string, i: nat)
    requires i <= |ops| && KeepsAll(ops, id) && id in Exec(d, t, ops[..i]).snapshots && Quiet(d, t, ops, id, i)
    ensures var a, b := Exec(d, t, ops[..i]), Exec(d, t, ops);
      && Find(b.snapshots, id) == Find(a.snapshots, id)
      && Find(b.checkpoints, id) == Find(a.checkpoints, id)
      && Find(b.credentials, id) == Find(a.credentials, id)
    decreases |ops|
  {
    if i == |ops| {
      assert ops[..i] == ops;
    } else {
      var n := |ops| - 1;
      assert ops[..n][..i] == ops[..i];
      forall k | i <= k < n ensures !SavedBy(d, Exec(d, t, ops[..n][..k]), ops[..n][k], id) {
        assert ops[..n][..k] == ops[..k];
      }
      QuietKeepsSnapshot(d, t, ops[..n], id, i);
      assert !SavedBy(d, Exec(d, t, ops[..n]), ops[n], id);
      SnapshotStep(d, Exec(d, t, ops[..n]), ops[n], id);
    }
  }

  // No lost update: of two successive successful saves the later one expected exactly the
  // snapshot digest, checkpoint and (when both supply it) credential the earlier one wrote.
  lemma SavesFormAChain(d: Digest, t: Tables, ops: seq<Op>, id: string, i: nat, j: nat)
    requires i < j < |ops| && KeepsAll(ops, id) && id in Exec(d, t, ops[..i]).snapshots
    requires SavedBy(d, Exec(d, t, ops[..i]), ops[i], id) && SavedBy(d, Exec(d, t, ops[..j]), ops[j], id)
    requires Quiet(d, t, ops[..j], id, i + 1)
    ensures ops[j].save.expectedDigest == d(ops[i].save.snapshot)
    ensures ops[j].save.expectedCheckpoint == ops[i].save.checkpoint
    ensures Replaces(ops[i].save.credential) && Replaces(ops[j].save.credential) ==>
      FieldValue(ops[j].save.expectedCredential) == FieldValue(ops[i].save.credential)
  {
    assert ops[..i + 1][..i] == ops[..i] && ops[..j][..i + 1] == ops[..i + 1];
    SnapshotStep(d, Exec(d, t, ops[..i]), ops[i], id);
    QuietKeepsSnapshot(d, t, ops[..j], id, i + 1);
    SnapshotStep(d, Exec(d, t, ops[..j]), ops[j], id);
  }

  // ------------------------------------------------------------------ credential history

  predicate WritesCredential(d: Digest, t: Tables, op: Op, id: string) {
    SavedBy(d, t, op, id) && Replaces(op.save.credential)
  }

  // Saves of the vault may go on from position i, but keep the credential.
  predicate KeepsCredential(d: Digest, t: Tables, ops: seq<Op>, id: string, i: nat) {
    forall k :: i <= k < |ops| ==> !WritesCredential(d, Exec(d, t, ops[..k]), ops[k], id)
  }

  lemma {:induction false} CredentialKept(d: Digest, t: Tables, ops: seq<Op>, id: string, i: nat)
    requires i <= |ops| && KeepsAll(ops, id) && id in Exec(d, t, ops[..i]).snapshots && KeepsCredential(d, t, ops, id, i)
    ensures id in Exec(d, t, ops).snapshots
    ensures Find(Exec(d, t, ops).credentials, id) == Find(Exec(d, t, ops[..i]).credentials, id)
    decreases |ops|
  {
    if i == |ops| {
      assert ops[..i] == ops;
    } else {
      var n := |ops| - 1;
      assert ops[..n][..i] == ops[..i];
      forall k | i <= k < n ensures !WritesCredential(d, Exec(d, t, ops[..n][..k]), ops[..n][k], id) {
        assert ops[..n][..k] == ops[..k];
      }
      CredentialKept(d, t, ops[..n], id, i);
      assert !WritesCredential(d, Exec(d, t, ops[..n]), ops[n], id);
      SnapshotStep(d, Exec(d, t, ops[..n]), ops[n], id);
      hide Apply, SavedBy;
    }
  }

  // No lost credential: across any saves that keep it, the next save that supplies one expected
  // exactly the credential that the last one wrote or deleted.
  lemma CredentialsFormAChain(d: Digest, t: Tables, ops: seq<Op>, id: string, i: nat, j: nat)
    requires i < j < |ops| && KeepsAll(ops, id) && id in Exec(d, t, ops[..i]).snapshots
    requires WritesCredential(d, Exec(d, t, ops[..i]), ops[i], id) && WritesCredential(d, Exec(d, t, ops[..j]), ops[j], id)
    requires KeepsCredential(d, t, ops[..j], id, i + 1)
    ensures FieldValue(ops[j].save.expectedCredential) == FieldValue(ops[i].save.credential)
  {
    assert ops[..i + 1][..i] == ops[..i] && ops[..j][..i + 1] == ops[..i + 1];
    SnapshotStep(d, Exec(d, t, ops[..i]), ops[i], id);
    CredentialKept(d, t, ops[..j], id, i + 1);
    SnapshotStep(d, Exec(d, t, ops[..j]), ops[j], id);
    hide Apply, SavedBy;
  }
}
