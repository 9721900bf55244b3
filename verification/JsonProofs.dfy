// Sorting forgets exactly the key order, and printing forgets nothing.
module JsonProofs {
  import opened Common
  import opened JsonValues

  // ------------------------------------------------------------------ objects as maps

  ghost predicate DistinctKeys(fields: seq<Field>) {
    forall i, j :: 0 <= i < j < |fields| ==> fields[i].key != fields[j].key
  }

  lemma {:induction false} MapOfAt(fields: seq<Field>, i: nat)
    requires DistinctKeys(fields) && i < |fields|
    ensures fields[i].key in MapOf(fields) && MapOf(fields)[fields[i].key] == TreeOf(fields[i].value)
  {
    if i > 0 { MapOfAt(fields[1..], i - 1); }
  }

  ghost predicate Bound(fields: seq<Field>, key: string, t: Tree) {
    exists i :: 0 <= i < |fields| && fields[i].key == key && TreeOf(fields[i].value) == t
  }

  lemma BoundInMap(fields: seq<Field>, key: string, t: Tree)
    requires DistinctKeys(fields)
    ensures Bound(fields, key, t) <==> key in MapOf(fields) && MapOf(fields)[key] == t
  {
    hide MapOf, TreeOf;
    forall i | 0 <= i < |fields|
      ensures fields[i].key in MapOf(fields) && MapOf(fields)[fields[i].key] == TreeOf(fields[i].value)
    {
      MapOfAt(fields, i);
    }
    if key in MapOf(fields).Keys {
      var i :| 0 <= i < |fields| && fields[i].key == key;
    }
  }

  // A map is determined by its bindings.
  lemma MapOfIsDetermined(f: seq<Field>, g: seq<Field>)
    requires DistinctKeys(f) && DistinctKeys(g)
    requires forall k, t :: Bound(f, k, t) <==> Bound(g, k, t)
    ensures MapOf(f) == MapOf(g)
  {
    hide MapOf, Bound;
    forall k | k in MapOf(f) ensures k in MapOf(g) && MapOf(g)[k] == MapOf(f)[k] {
      BoundInMap(f, k, MapOf(f)[k]);
      BoundInMap(g, k, MapOf(f)[k]);
    }
    forall k | k in MapOf(g) ensures k in MapOf(f) {
      BoundInMap(f, k, MapOf(g)[k]);
      BoundInMap(g, k, MapOf(g)[k]);
    }
  }

  // ------------------------------------------------------------------ sorting

  predicate StrictlySorted(fields: seq<Field>) {
    forall i, j :: 0 <= i < j < |fields| ==> Less(fields[i].key, fields[j].key)
  }

  lemma {:induction false} InsertKeeps(f: Field, s: seq<Field>)
    requires StrictlySorted(s) && forall i :: 0 <= i < |s| ==> s[i].key != f.key
    ensures StrictlySorted(Insert(f, s)) && SetOf(Insert(f, s)) == SetOf(s) + {f}
  {
    hide Less;
    if s == [] {
      assert Insert(f, s) == [f];
    } else if Less(f.key, s[0].key) {
      assert Insert(f, s) == [f] + s;
      forall j | 0 <= j < |s| ensures Less(f.key, s[j].key) {
        if j > 0 { LessIsTransitive(f.key, s[0].key, s[j].key); }
      }
    } else {
      LessIsTotal(f.key, s[0].key);
      InsertKeeps(f, s[1..]);
      var r := Insert(f, s[1..]);
      assert Insert(f, s) == [s[0]] + r;
      hide Insert;
      assert s == [s[0]] + s[1..];
      forall j | 0 <= j < |r| ensures Less(s[0].key, r[j].key) {
        assert r[j] in SetOf(s[1..]) + {f};
        if r[j] != f {
          var k :| 0 <= k < |s[1..]| && s[1..][k] == r[j];
          assert s[k + 1] == r[j];
        }
      }
    }
  }

  lemma {:induction false} SortSorts(fields: seq<Field>)
    requires DistinctKeys(fields)
    ensures StrictlySorted(Sort(fields)) && SetOf(Sort(fields)) == SetOf(fields)
  {
    if fields != [] {
      SortSorts(fields[1..]);
      assert fields == [fields[0]] + fields[1..];
      forall i | 0 <= i < |Sort(fields[1..])| ensures Sort(fields[1..])[i].key != fields[0].key {
        assert Sort(fields[1..])[i] in SetOf(fields[1..]);
        var k :| 0 <= k < |fields[1..]| && fields[1..][k] == Sort(fields[1..])[i];
        assert fields[k + 1].key != fields[0].key;
      }
      InsertKeeps(fields[0], Sort(fields[1..]));
    }
  }

  lemma SortedIsDistinct(fields: seq<Field>)
    requires StrictlySorted(fields)
    ensures DistinctKeys(fields)
  {
    forall i, j | 0 <= i < j < |fields| ensures fields[i].key != fields[j].key {
      LessIsIrreflexive(fields[i].key);
    }
  }

  lemma HasElements(f: seq<Field>)
    requires f != []
    ensures SetOf(f) != {}
  {
    assert f[0] in SetOf(f);
  }

  // A strictly sorted list is determined by its elements.
  lemma {:induction false} SortedIsUnique(f: seq<Field>, g: seq<Field>)
    requires StrictlySorted(f) && StrictlySorted(g) && SetOf(f) == SetOf(g)
    ensures f == g
  {
    assert forall i :: 0 <= i < |g| ==> g[i] in SetOf(g);
    if f != [] {
      assert f[0] in SetOf(g) && g != [];
      assert g[0] in SetOf(f);
      if f[0] != g[0] {
        var i :| 0 <= i < |g| && g[i] == f[0];
        var j :| 0 <= j < |f| && f[j] == g[0];
        LessIsTransitive(f[0].key, g[0].key, f[0].key);
        LessIsIrreflexive(f[0].key);
        assert false;
      }
      SortedTail(f);
      SortedTail(g);
      SortedIsUnique(f[1..], g[1..]);
    } else if g != [] {
      HasElements(g);
      assert false;
    }
  }

  lemma SortedTail(f: seq<Field>)
    requires f != [] && StrictlySorted(f)
    ensures StrictlySorted(f[1..]) && SetOf(f[1..]) == SetOf(f) - {f[0]}
  {
    SortedIsDistinct(f);
    assert f == [f[0]] + f[1..];
  }

  // ------------------------------------------------------------------ canonical forms

  lemma ObjIsDistinct(v: Value)
    requires Valid(v) && v.Obj?
    ensures DistinctKeys(v.fields) && DistinctKeys(CanonicalFields(v.fields))
  {
  }

  // Sorting keeps validity and the unordered value.
  lemma {:induction false} CanonicalKeepsTree(v: Value)
    requires Valid(v)
    ensures Valid(Canonical(v)) && TreeOf(Canonical(v)) == TreeOf(v)
    decreases v
  {
    match v
    case Arr(items) =>
      forall i | 0 <= i < |items| ensures Valid(Canonical(items[i])) && TreeOf(Canonical(items[i])) == TreeOf(items[i]) {
        CanonicalKeepsTree(items[i]);
      }
      assert TreesOf(CanonicalItems(items)) == TreesOf(items);
    case Obj(fields) =>
      forall i | 0 <= i < |fields|
        ensures Valid(Canonical(fields[i].value)) && TreeOf(Canonical(fields[i].value)) == TreeOf(fields[i].value)
      {
        CanonicalKeepsTree(fields[i].value);
      }
      ObjIsDistinct(v);
      SortedObject(CanonicalFields(fields));
      SameTreesSameMap(fields, CanonicalFields(fields));
    case _ =>
  }

  lemma SortedObject(c: seq<Field>)
    requires Valid(Obj(c))
    ensures Valid(Obj(Sort(c))) && MapOf(Sort(c)) == MapOf(c)
  {
    var s := Sort(c);
    SortSorts(c);
    SortedIsDistinct(s);
    SameElementsSameMap(c, s);
    hide Sort, MapOf, TreeOf, StrictlySorted;
    forall i | 0 <= i < |s| ensures Valid(s[i].value) {
      assert s[i] in SetOf(c);
    }
  }

  lemma SameElementsSameMap(c: seq<Field>, s: seq<Field>)
    requires DistinctKeys(c) && DistinctKeys(s) && SetOf(c) == SetOf(s)
    ensures MapOf(c) == MapOf(s)
  {
    hide MapOf, TreeOf;
    forall k, t ensures Bound(s, k, t) <==> Bound(c, k, t) {
      if Bound(s, k, t) {
        var i :| 0 <= i < |s| && s[i].key == k && TreeOf(s[i].value) == t;
        assert s[i] in SetOf(c);
      }
      if Bound(c, k, t) {
        var j :| 0 <= j < |c| && c[j].key == k && TreeOf(c[j].value) == t;
        assert c[j] in SetOf(s);
      }
    }
    MapOfIsDetermined(c, s);
  }

  lemma {:induction false} SameTreesSameMap(f: seq<Field>, g: seq<Field>)
    requires |f| == |g|
    requires forall i :: 0 <= i < |f| ==> f[i].key == g[i].key && TreeOf(f[i].value) == TreeOf(g[i].value)
    ensures MapOf(f) == MapOf(g)
  {
    if f != [] { SameTreesSameMap(f[1..], g[1..]); }
  }

  // Values that differ only in the order of keys have the same canonical form.
  lemma {:induction false} CanonicalIsDetermined(a: Value, b: Value)
    requires Valid(a) && Valid(b) && TreeOf(a) == TreeOf(b)
    ensures Canonical(a) == Canonical(b)
    decreases a
  {
    match a
    case Arr(items) =>
      forall i | 0 <= i < |items| ensures Canonical(items[i]) == Canonical(b.items[i]) {
        assert TreesOf(items)[i] == TreesOf(b.items)[i];
        CanonicalIsDetermined(items[i], b.items[i]);
      }
    case Obj(fields) =>
      ObjIsDistinct(a);
      ObjIsDistinct(b);
      var f, g := CanonicalFields(fields), CanonicalFields(b.fields);
      forall i | 0 <= i < |fields| ensures f[i] in g {
        var j := SameBinding(fields, b.fields, i);
        CanonicalIsDetermined(fields[i].value, b.fields[j].value);
        assert f[i] == g[j];
      }
      forall j | 0 <= j < |b.fields| ensures g[j] in f {
        var i := SameBinding(b.fields, fields, j);
        CanonicalIsDetermined(fields[i].value, b.fields[j].value);
        assert f[i] == g[j];
      }
      SortSorts(f);
      SortSorts(g);
      SortedIsUnique(Sort(f), Sort(g));
    case _ =>
  }

  lemma SameBinding(f: seq<Field>, g: seq<Field>, i: nat) returns (j: nat)
    requires DistinctKeys(f) && DistinctKeys(g) && MapOf(f) == MapOf(g) && i < |f|
    ensures j < |g| && g[j].key == f[i].key && TreeOf(g[j].value) == TreeOf(f[i].value)
  {
    MapOfAt(f, i);
    assert f[i].key in MapOf(g).Keys;
    j :| 0 <= j < |g| && g[j].key == f[i].key;
    MapOfAt(g, j);
  }

  lemma CanonicalIsIdempotent(v: Value)
    requires Valid(v)
    ensures Canonical(Canonical(v)) == Canonical(v)
  {
    CanonicalKeepsTree(v);
    CanonicalIsDetermined(Canonical(v), v);
  }

  lemma {:induction false} CanonicalIsJson(v: Value)
    requires IsJson(v) && Valid(v)
    ensures IsJson(Canonical(v))
    decreases v
  {
    match v
    case Arr(items) =>
      forall i | 0 <= i < |items| ensures IsJson(Canonical(items[i])) { CanonicalIsJson(items[i]); }
    case Obj(fields) =>
      forall i | 0 <= i < |fields| ensures IsJson(Canonical(fields[i].value)) { CanonicalIsJson(fields[i].value); }
      ObjIsDistinct(v);
      var s := Sort(CanonicalFields(fields));
      SortSorts(CanonicalFields(fields));
      forall i | 0 <= i < |s| ensures IsJson(s[i].value) {
        assert s[i] in SetOf(CanonicalFields(fields));
      }
    case _ =>
  }
}
