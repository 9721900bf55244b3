// The checks of decodeVault that relate items to each other, and what they decide.
module VaultStructure {
  import opened Common
  import opened Texts
  import opened VaultCodec

  // normalizedOrganizationName is a function of the name: trimmed, NFKC, lower case.
  type Normalizer = string -> string

  // ------------------------------------------------------------------ what a vault must be

  function EntryId(e: Entry): string { e.id }
  function DeletedId(d: Deleted): string { d.id }
  function ProfileId(p: Profile): string { p.id }
  function TagId(g: Tag): string { g.id }
  function TagName(g: Tag): string { g.name }
  function GroupId(g: Group): string { g.id }
  function GroupName(g: Group): string { g.name }
  function FolderId(f: Folder): string { f.id }
  function FolderName(f: Folder): string { f.name }

  ghost predicate UniqueBy<T>(key: T -> string, items: seq<T>) {
    forall i, j :: 0 <= i < j < |items| ==> key(items[i]) != key(items[j])
  }

  ghost predicate UniqueAcross<T>(id: T -> string, active: seq<T>, deleted: seq<Deleted>) {
    && UniqueBy(id, active)
    && (forall i, j :: 0 <= i < j < |deleted| ==> deleted[i].id != deleted[j].id)
    && (forall i, j :: 0 <= i < |active| && 0 <= j < |deleted| ==> id(active[i]) != deleted[j].id)
  }

  ghost predicate UniqueNormalized(norm: Normalizer, names: seq<string>) {
    forall i, j :: 0 <= i < j < |names| ==> norm(names[i]) != norm(names[j])
  }

  ghost predicate UniqueSiblings(norm: Normalizer, folders: seq<Folder>) {
    forall i, j :: 0 <= i < j < |folders| && folders[i].parentId == folders[j].parentId ==>
      norm(folders[i].name) != norm(folders[j].name)
  }

  predicate HasFolder(folders: seq<Folder>, id: string) {
    exists i :: 0 <= i < |folders| && folders[i].id == id
  }

  predicate HasTag(tags: seq<Tag>, id: string) {
    exists i :: 0 <= i < |tags| && tags[i].id == id
  }

  predicate HasGroup(groups: seq<Group>, id: string) {
    exists i :: 0 <= i < |groups| && groups[i].id == id
  }

  ghost predicate TagsResolve(v: Vault) {
    forall i, k :: 0 <= i < |v.entries| && 0 <= k < |v.entries[i].tags| ==> HasTag(v.tags, v.entries[i].tags[k])
  }

  ghost predicate GroupsResolve(v: Vault) {
    forall i :: 0 <= i < |v.tags| ==> HasGroup(v.groups, v.tags[i].groupId)
  }

  ghost predicate ParentsResolve(folders: seq<Folder>) {
    forall i :: 0 <= i < |folders| && folders[i].parentId.Some? ==> HasFolder(folders, folders[i].parentId.value)
  }

  ghost predicate FoldersResolve(v: Vault) {
    forall i :: 0 <= i < |v.entries| && v.entries[i].folderId != UNCATEGORIZED ==>
      HasFolder(v.folders, v.entries[i].folderId)
  }

  ghost predicate References(v: Vault) {
    TagsResolve(v) && GroupsResolve(v) && ParentsResolve(v.folders) && FoldersResolve(v)
  }

  // Folder `id` reaches the root in exactly n steps to a parent.
  ghost predicate ReachesRoot(folders: seq<Folder>, id: string, n: nat)
    decreases n
  {
    exists i :: 0 <= i < |folders| && folders[i].id == id &&
      if folders[i].parentId.None? then n == 0 else n > 0 && ReachesRoot(folders, folders[i].parentId.value, n - 1)
  }

  ghost predicate Reaches(folders: seq<Folder>, id: string) {
    exists n: nat :: ReachesRoot(folders, id, n)
  }

  // The parent relation is a forest.
  ghost predicate Forest(folders: seq<Folder>) {
    forall i :: 0 <= i < |folders| ==> Reaches(folders, folders[i].id)
  }

  ghost predicate WellStructured(norm: Normalizer, v: Vault) {
    && UniqueAcross(EntryId, v.entries, v.deletedEntries)
    && UniqueAcross(ProfileId, v.profiles, v.deletedProfiles)
    && UniqueAcross(TagId, v.tags, v.deletedTags)
    && UniqueAcross(FolderId, v.folders, v.deletedFolders)
    && UniqueBy(GroupId, v.groups)
    && UniqueNormalized(norm, MapSeq(TagName, v.tags))
    && UniqueNormalized(norm, MapSeq(GroupName, v.groups))
    && UniqueSiblings(norm, v.folders)
    && References(v)
    && Forest(v.folders)
  }

  // ------------------------------------------------------------------ uniqueness

  lemma UniqueByIsDistinct<T>(key: T -> string, items: seq<T>)
    ensures |SetOf(MapSeq(key, items))| == |items| <==> UniqueBy(key, items)
  {
    SetSizeDecidesDistinct(MapSeq(key, items));
  }

  function DeletedIds(deleted: seq<Deleted>): seq<string> {
    MapSeq(DeletedId, deleted)
  }

  method RequireUniqueAcross<T>(id: T -> string, active: seq<T>, deleted: seq<Deleted>) returns (ok: bool)
    ensures ok <==> UniqueAcross(id, active, deleted)
  {
    var ids := MapSeq(id, active) + DeletedIds(deleted);
    ok := |SetOf(ids)| == |ids|;
    SetSizeDecidesDistinct(ids);
    if Distinct(ids) {
      forall i, j | 0 <= i < j < |active| ensures id(active[i]) != id(active[j]) { assert ids[i] != ids[j]; }
      forall i, j | 0 <= i < j < |deleted| ensures deleted[i].id != deleted[j].id {
        assert ids[|active| + i] != ids[|active| + j];
      }
      forall i, j | 0 <= i < |active| && 0 <= j < |deleted| ensures id(active[i]) != deleted[j].id {
        assert ids[i] != ids[|active| + j];
      }
    }
  }

  method RequireUniqueNames(norm: Normalizer, names: seq<string>) returns (ok: bool)
    ensures ok <==> UniqueNormalized(norm, names)
  {
    var normalized := MapSeq(norm, names);
    ok := |SetOf(normalized)| == |normalized|;
    SetSizeDecidesDistinct(normalized);
  }

  // ------------------------------------------------------------------ siblings

  function Children(folders: seq<Folder>, parent: Option<string>): (r: seq<Folder>)
    ensures forall k :: 0 <= k < |r| ==> r[k] in folders && r[k].parentId == parent
  {
    if folders == [] then []
    else
      var last := folders[|folders| - 1];
      Children(folders[..|folders| - 1], parent) + if last.parentId == parent then [last] else []
  }

  ghost predicate UniqueNames(norm: Normalizer, folders: seq<Folder>) {
    forall i, j :: 0 <= i < j < |folders| ==> norm(folders[i].name) != norm(folders[j].name)
  }

  lemma {:induction false} ChildrenHold(folders: seq<Folder>, i: nat)
    requires i < |folders|
    ensures folders[i] in Children(folders, folders[i].parentId)
  {
    var n := |folders| - 1;
    if i < n { ChildrenHold(folders[..n], i); }
  }

  // Distinct names in every group of siblings is distinct names among siblings.
  lemma {:induction false} GroupsOfUniqueSiblings(norm: Normalizer, folders: seq<Folder>, p: Option<string>)
    requires UniqueSiblings(norm, folders)
    ensures UniqueNames(norm, Children(folders, p))
  {
    if folders != [] {
      GroupsOfUniqueSiblings(norm, folders[..|folders| - 1], p);
      LastIsNew(norm, folders, p);
    }
  }

  lemma ChildrenInOrder(folders: seq<Folder>, i: nat, j: nat) returns (k: nat, l: nat)
    requires i < j < |folders| && folders[i].parentId == folders[j].parentId
    ensures var c := Children(folders, folders[j].parentId); k < l < |c| && c[k] == folders[i] && c[l] == folders[j]
  {
    var n := |folders| - 1;
    var p := folders[j].parentId;
    var init := Children(folders[..n], p);
    if j < n {
      k, l := ChildrenInOrder(folders[..n], i, j);
    } else {
      ChildrenHold(folders[..n], i);
      k :| 0 <= k < |init| && init[k] == folders[i];
      l := |init|;
    }
  }

  lemma UniqueGroupsOfSiblings(norm: Normalizer, folders: seq<Folder>)
    requires forall p :: UniqueNames(norm, Children(folders, p))
    ensures UniqueSiblings(norm, folders)
  {
    forall i, j | 0 <= i < j < |folders| && folders[i].parentId == folders[j].parentId
      ensures norm(folders[i].name) != norm(folders[j].name)
    {
      var k, l := ChildrenInOrder(folders, i, j);
      assert UniqueNames(norm, Children(folders, folders[j].parentId));
    }
  }

  lemma LastIsNew(norm: Normalizer, folders: seq<Folder>, p: Option<string>)
    requires folders != [] && UniqueSiblings(norm, folders)
    requires UniqueNames(norm, Children(folders[..|folders| - 1], p))
    ensures UniqueNames(norm, Children(folders, p))
  {
    var n := |folders| - 1;
    var c := Children(folders[..n], p);
    if folders[n].parentId == p {
      forall k | 0 <= k < |c| ensures norm(c[k].name) != norm(folders[n].name) {
        assert c[k] in folders[..n];
        var i :| 0 <= i < n && folders[i] == c[k];
      }
    }
  }

  type Siblings = map<Option<string>, seq<Folder>>

  function GroupOf(siblings: Siblings, parent: Option<string>): seq<Folder> {
    if parent in siblings then siblings[parent] else []
  }

  // The map of siblings is built folder by folder.
  method GroupSiblings(folders: seq<Folder>) returns (siblings: Siblings)
    ensures forall p :: GroupOf(siblings, p) == Children(folders, p)
  {
    siblings := map[];
    for i := 0 to |folders|
      invariant forall p :: GroupOf(siblings, p) == Children(folders[..i], p)
    {
      assert folders[..i + 1][..i] == folders[..i];
      siblings := siblings[folders[i].parentId := GroupOf(siblings, folders[i].parentId) + [folders[i]]];
    }
    assert folders[..|folders|] == folders;
  }

  lemma NamesOfFolders(norm: Normalizer, folders: seq<Folder>)
    ensures UniqueNormalized(norm, MapSeq(FolderName, folders)) <==> UniqueNames(norm, folders)
  {
    var names := MapSeq(FolderName, folders);
    assert forall i :: 0 <= i < |folders| ==> names[i] == folders[i].name;
  }

  // Then each group is checked.
  method RequireUniqueSiblings(norm: Normalizer, folders: seq<Folder>) returns (ok: bool)
    ensures ok <==> UniqueSiblings(norm, folders)
  {
    hide UniqueNames, UniqueSiblings, UniqueNormalized, Children, MapSeq;
    var siblings := GroupSiblings(folders);
    var rest := siblings.Keys;
    while rest != {}
      invariant rest <= siblings.Keys
      invariant forall p :: p in siblings && p !in rest ==> UniqueNames(norm, siblings[p])
      decreases |rest|
    {
      var p :| p in rest;
      var unique := RequireUniqueNames(norm, MapSeq(FolderName, siblings[p]));
      NamesOfFolders(norm, siblings[p]);
      if !unique {
        assert GroupOf(siblings, p) == Children(folders, p);
        if UniqueSiblings(norm, folders) { GroupsOfUniqueSiblings(norm, folders, p); }
        return false;
      }
      rest := rest - {p};
    }
    forall p ensures UniqueNames(norm, Children(folders, p)) {
      assert GroupOf(siblings, p) == Children(folders, p);
      if p !in siblings { NoNames(norm); }
    }
    UniqueGroupsOfSiblings(norm, folders);
    ok := true;
  }

  lemma NoNames(norm: Normalizer)
    ensures UniqueNames(norm, [])
  {
  }

  // ------------------------------------------------------------------ the folder walk

  // `folders.find(c => c.id === id)`
  function FindFolder(folders: seq<Folder>, id: string): (r: Option<Folder>)
    ensures r.Some? <==> HasFolder(folders, id)
    ensures r.Some? ==> r.value in folders && r.value.id == id
  {
    if folders == [] then None
    else if folders[0].id == id then Some(folders[0])
    else
      var r := FindFolder(folders[1..], id);
      assert forall i :: 0 <= i < |folders[1..]| ==> folders[1..][i] == folders[i + 1];
      assert HasFolder(folders, id) ==> HasFolder(folders[1..], id) by {
        if HasFolder(folders, id) {
          var i :| 0 <= i < |folders| && folders[i].id == id;
          assert folders[1..][i - 1].id == id;
        }
      }
      r
  }

  ghost predicate UniqueFolders(folders: seq<Folder>) {
    UniqueBy(FolderId, folders)
  }

  lemma {:induction false} ReachesOnce(folders: seq<Folder>, id: string, m: nat, n: nat)
    requires UniqueFolders(folders) && ReachesRoot(folders, id, m) && ReachesRoot(folders, id, n)
    ensures m == n
    decreases m
  {
    var i :| 0 <= i < |folders| && folders[i].id == id &&
      if folders[i].parentId.None? then m == 0 else m > 0 && ReachesRoot(folders, folders[i].parentId.value, m - 1);
    var j :| 0 <= j < |folders| && folders[j].id == id &&
      if folders[j].parentId.None? then n == 0 else n > 0 && ReachesRoot(folders, folders[j].parentId.value, n - 1);
    SameFolder(folders, i, j);
    if m > 0 { ReachesOnce(folders, folders[i].parentId.value, m - 1, n - 1); }
  }

  lemma SameFolder(folders: seq<Folder>, i: nat, j: nat)
    requires UniqueFolders(folders) && i < |folders| && j < |folders| && folders[i].id == folders[j].id
    ensures i == j
  {
  }

  // One step of the walk, seen from the root.
  lemma StepToParent(folders: seq<Folder>, f: Folder, n: nat)
    requires UniqueFolders(folders) && f in folders
    ensures f.parentId.None? ==> (ReachesRoot(folders, f.id, n) <==> n == 0)
    ensures f.parentId.Some? ==>
      (ReachesRoot(folders, f.id, n) <==> n > 0 && ReachesRoot(folders, f.parentId.value, n - 1))
  {
    var k :| 0 <= k < |folders| && folders[k] == f;
    if ReachesRoot(folders, f.id, n) {
      var i :| 0 <= i < |folders| && folders[i].id == f.id &&
        if folders[i].parentId.None? then n == 0 else n > 0 && ReachesRoot(folders, folders[i].parentId.value, n - 1);
      SameFolder(folders, i, k);
    }
  }

  // From the i-th folder of the walk the root is i steps nearer than from the first.
  ghost predicate Descends(folders: seq<Folder>, start: Folder, walk: seq<Folder>) {
    forall i, n: nat :: 0 <= i < |walk| && ReachesRoot(folders, start.id, n) ==>
      n >= i && ReachesRoot(folders, walk[i].id, n - i)
  }

  // The folder `last` is k steps up from `start`.
  ghost predicate Climbs(folders: seq<Folder>, start: Folder, last: Folder, k: nat) {
    forall n: nat :: ReachesRoot(folders, last.id, n) ==> ReachesRoot(folders, start.id, n + k)
  }

  lemma DescendsAt(folders: seq<Folder>, start: Folder, walk: seq<Folder>, i: nat, n: nat)
    requires Descends(folders, start, walk) && i < |walk| && ReachesRoot(folders, start.id, n)
    ensures n >= i && ReachesRoot(folders, walk[i].id, n - i)
  {
    hide ReachesRoot;
  }

  lemma ExtendClimb(folders: seq<Folder>, start: Folder, last: Folder, k: nat, next: Folder)
    requires UniqueFolders(folders) && last in folders && last.parentId == Some(next.id) && Climbs(folders, start, last, k)
    ensures Climbs(folders, start, next, k + 1)
  {
    hide UniqueFolders, ReachesRoot;
    forall n: nat | ReachesRoot(folders, next.id, n) ensures ReachesRoot(folders, start.id, n + (k + 1)) {
      StepToParent(folders, last, n + 1);
      assert ReachesRoot(folders, start.id, (n + 1) + k);
    }
  }

  lemma ExtendDescent(folders: seq<Folder>, start: Folder, walk: seq<Folder>, next: Folder)
    requires UniqueFolders(folders) && |walk| > 0 && walk[|walk| - 1] in folders
    requires walk[|walk| - 1].parentId == Some(next.id) && Descends(folders, start, walk)
    ensures Descends(folders, start, walk + [next])
  {
    var longer := walk + [next];
    forall i, n: nat | 0 <= i < |longer| && ReachesRoot(folders, start.id, n)
      ensures n >= i && ReachesRoot(folders, longer[i].id, n - i)
    {
      hide UniqueFolders, ReachesRoot, Descends;
      if i < |walk| {
        DescendsAt(folders, start, walk, i, n);
      } else {
        DescendsAt(folders, start, walk, i - 1, n);
        StepToParent(folders, walk[i - 1], n - (i - 1));
      }
    }
  }

  // Walking up from one folder meets the root exactly when the folder reaches it. The measure is
  // the number of folders not yet visited; every looked-up parent exists.
  method WalkToRoot(folders: seq<Folder>, start: Folder) returns (ok: bool)
    requires UniqueFolders(folders) && start in folders
    requires ParentsResolve(folders)
    ensures ok <==> Reaches(folders, start.id)
  {
    var visited := {start.id};
    var parentId := start.parentId;
    ghost var walk := [start];
    while parentId.Some?
      invariant GoodWalk(folders, start, walk, visited) && walk[|walk| - 1].parentId == parentId
      decreases |SetOf(MapSeq(FolderId, folders)) - visited|
    {
      if parentId.value in visited {
        CycleNeverReaches(folders, start, walk);
        return false;
      }
      var found := FindFolder(folders, parentId.value);
      assert found.Some?;
      NextWalk(folders, start, walk, visited, found.value);
      VisitedGrows(folders, visited, found.value);
      visited := visited + {parentId.value};
      parentId := found.value.parentId;
      walk := walk + [found.value];
    }
    var last := walk[|walk| - 1];
    StepToParent(folders, last, 0);
    assert ReachesRoot(folders, start.id, 0 + (|walk| - 1));
    ok := true;
  }

  ghost predicate GoodWalk(folders: seq<Folder>, start: Folder, walk: seq<Folder>, visited: set<string>) {
    && |walk| > 0 && walk[0] == start
    && (forall i :: 0 <= i < |walk| ==> walk[i] in folders)
    && visited == SetOf(MapSeq(FolderId, walk))
    && Descends(folders, start, walk) && Climbs(folders, start, walk[|walk| - 1], |walk| - 1)
  }

  lemma NextWalk(folders: seq<Folder>, start: Folder, walk: seq<Folder>, visited: set<string>, next: Folder)
    requires UniqueFolders(folders) && GoodWalk(folders, start, walk, visited)
    requires next in folders && walk[|walk| - 1].parentId == Some(next.id)
    ensures GoodWalk(folders, start, walk + [next], visited + {next.id})
  {
    hide Descends, Climbs, UniqueFolders;
    ExtendDescent(folders, start, walk, next);
    ExtendClimb(folders, start, walk[|walk| - 1], |walk| - 1, next);
    assert MapSeq(FolderId, walk + [next]) == MapSeq(FolderId, walk) + [next.id];
  }

  lemma VisitedGrows(folders: seq<Folder>, visited: set<string>, next: Folder)
    requires next in folders && next.id !in visited
    ensures |SetOf(MapSeq(FolderId, folders)) - (visited + {next.id})| < |SetOf(MapSeq(FolderId, folders)) - visited|
  {
    var all := SetOf(MapSeq(FolderId, folders));
    InSetOfIds(folders, next);
    assert next.id in all - visited;
    CardinalityShrinks(all - (visited + {next.id}), all - visited);
  }

  lemma CardinalityShrinks(a: set<string>, b: set<string>)
    requires a < b
    ensures |a| < |b|
  {
    var x :| x in b && x !in a;
    assert |b| == |b - {x}| + 1;
    SubsetSize(a, b - {x});
  }

  lemma InSetOfIds(folders: seq<Folder>, f: Folder)
    requires f in folders
    ensures f.id in SetOf(MapSeq(FolderId, folders))
  {
    var k :| 0 <= k < |folders| && folders[k] == f;
    assert MapSeq(FolderId, folders)[k] == f.id;
  }

  // A folder met again would be two different numbers of steps from the root.
  lemma CycleHasNoDepth(folders: seq<Folder>, start: Folder, walk: seq<Folder>, i: nat, n: nat)
    requires UniqueFolders(folders) && Descends(folders, start, walk)
    requires i < |walk| && walk[|walk| - 1] in folders && walk[|walk| - 1].parentId == Some(walk[i].id)
    ensures !ReachesRoot(folders, start.id, n)
  {
    hide Descends, UniqueFolders, ReachesRoot;
    var k := |walk| - 1;
    if ReachesRoot(folders, start.id, n) {
      DescendsAt(folders, start, walk, i, n);
      DescendsAt(folders, start, walk, k, n);
      StepToParent(folders, walk[k], n - k);
      ReachesOnce(folders, walk[i].id, n - i, n - k - 1);
    }
  }

  lemma CycleNeverReaches(folders: seq<Folder>, start: Folder, walk: seq<Folder>)
    requires UniqueFolders(folders) && GoodWalk(folders, start, walk, SetOf(MapSeq(FolderId, walk)))
    requires walk[|walk| - 1].parentId.Some? && walk[|walk| - 1].parentId.value in SetOf(MapSeq(FolderId, walk))
    ensures !Reaches(folders, start.id)
  {
    hide Descends, Climbs, UniqueFolders, ReachesRoot;
    var i :| 0 <= i < |walk| && MapSeq(FolderId, walk)[i] == walk[|walk| - 1].parentId.value;
    forall n: nat ensures !ReachesRoot(folders, start.id, n) {
      CycleHasNoDepth(folders, start, walk, i, n);
    }
  }

  // ------------------------------------------------------------------ all the checks

  // The relational checks of decodeVault, one after another: they accept exactly the
  // well-structured vaults.
  method CheckStructure(norm: Normalizer, v: Vault) returns (ok: bool)
    ensures ok <==> WellStructured(norm, v)
  {
    var entries := RequireUniqueAcross(EntryId, v.entries, v.deletedEntries);
    if !entries { return false; }
    var profiles := RequireUniqueAcross(ProfileId, v.profiles, v.deletedProfiles);
    if !profiles { return false; }
    var tags := RequireUniqueAcross(TagId, v.tags, v.deletedTags);
    if !tags { return false; }
    var folders := RequireUniqueAcross(FolderId, v.folders, v.deletedFolders);
    if !folders { return false; }
    UniqueByIsDistinct(GroupId, v.groups);
    if |SetOf(MapSeq(GroupId, v.groups))| != |v.groups| { return false; }
    var tagNames := RequireUniqueNames(norm, MapSeq(TagName, v.tags));
    if !tagNames { return false; }
    var groupNames := RequireUniqueNames(norm, MapSeq(GroupName, v.groups));
    if !groupNames { return false; }
    var siblings := RequireUniqueSiblings(norm, v.folders);
    if !siblings { return false; }
    var references := RequireReferences(v);
    if !references { return false; }
    ok := RequireForest(v.folders);
  }

  // The sets of ids answer membership as the items do.
  lemma TagIdsDecide(tags: seq<Tag>, id: string)
    ensures id in SetOf(MapSeq(TagId, tags)) <==> HasTag(tags, id)
  {
    if HasTag(tags, id) {
      var j :| 0 <= j < |tags| && tags[j].id == id;
      assert MapSeq(TagId, tags)[j] == id;
    }
  }

  lemma GroupIdsDecide(groups: seq<Group>, id: string)
    ensures id in SetOf(MapSeq(GroupId, groups)) <==> HasGroup(groups, id)
  {
    if HasGroup(groups, id) {
      var j :| 0 <= j < |groups| && groups[j].id == id;
      assert MapSeq(GroupId, groups)[j] == id;
    }
  }

  lemma FolderIdsDecide(folders: seq<Folder>, id: string)
    ensures id in SetOf(MapSeq(FolderId, folders)) <==> HasFolder(folders, id)
  {
    if HasFolder(folders, id) {
      var j :| 0 <= j < |folders| && folders[j].id == id;
      assert MapSeq(FolderId, folders)[j] == id;
    }
  }

  method RequireReferences(v: Vault) returns (ok: bool)
    ensures ok <==> References(v)
  {
    hide HasTag, HasGroup, HasFolder, MapSeq, SetOf;
    var tagIds, groupIds := SetOf(MapSeq(TagId, v.tags)), SetOf(MapSeq(GroupId, v.groups));
    var folderIds := SetOf(MapSeq(FolderId, v.folders));
    forall id ensures id in tagIds <==> HasTag(v.tags, id) { TagIdsDecide(v.tags, id); }
    forall id ensures id in groupIds <==> HasGroup(v.groups, id) { GroupIdsDecide(v.groups, id); }
    forall id ensures id in folderIds <==> HasFolder(v.folders, id) { FolderIdsDecide(v.folders, id); }
    if exists i :: 0 <= i < |v.entries| && exists k :: 0 <= k < |v.entries[i].tags| && v.entries[i].tags[k] !in tagIds {
      assert !TagsResolve(v);
      return false;
    }
    assert TagsResolve(v);
    if exists i :: 0 <= i < |v.tags| && v.tags[i].groupId !in groupIds {
      assert !GroupsResolve(v);
      return false;
    }
    assert GroupsResolve(v);
    if exists i :: 0 <= i < |v.folders| && v.folders[i].parentId.Some? && v.folders[i].parentId.value !in folderIds {
      assert !ParentsResolve(v.folders);
      return false;
    }
    assert ParentsResolve(v.folders);
    if exists i :: 0 <= i < |v.entries| && v.entries[i].folderId != UNCATEGORIZED && v.entries[i].folderId !in folderIds {
      assert !FoldersResolve(v);
      return false;
    }
    ok := true;
  }

  method RequireForest(folders: seq<Folder>) returns (ok: bool)
    requires UniqueFolders(folders) && ParentsResolve(folders)
    ensures ok <==> Forest(folders)
  {
    hide Reaches, ReachesRoot, UniqueFolders, ParentsResolve;
    for i := 0 to |folders|
      invariant forall j :: 0 <= j < i ==> Reaches(folders, folders[j].id)
    {
      var reaches := WalkToRoot(folders, folders[i]);
      if !reaches { return false; }
    }
    ok := true;
  }
}
