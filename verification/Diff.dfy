// Manifests of directory trees and the sorted change list between two of them.
module Diff {
  import opened Order
  import opened Tree
  import opened Paths

  datatype Entry = Entry(path: string, node: Node)
  datatype Manifest = Manifest(version: nat, entries: seq<Entry>)

  /** The entries as a map; of two entries with one path the later counts. */
  function Tabulate(entries: seq<Entry>): Tree {
    if entries == [] then map[]
    else
      var last := entries[|entries| - 1];
      Tabulate(entries[..|entries| - 1])[last.path := last.node]
  }

  /** What Build returns: the manifest of an actual directory tree. */
  ghost predicate Real(m: Manifest) {
    Closed(Tabulate(m.entries)) && forall p :: p in Tabulate(m.entries) ==> Clean(p)
  }

  predicate EntryLess(a: Entry, b: Entry) { Less(a.path, b.path) }

  lemma EntryLessIsOrdering()
    ensures Ordering(EntryLess)
  {
    LessIsOrdering();
    assert forall x, y :: EntryLess(x, y) ==> Less(x.path, y.path);
  }

  lemma {:induction false} TabulateMembers(entries: seq<Entry>)
    requires forall i, j :: 0 <= i < j < |entries| ==> entries[i].path != entries[j].path
    ensures forall e :: e in entries <==> At(Tabulate(entries), e.path) == Some(e.node)
  {
    if entries != [] {
      var n := |entries| - 1;
      TabulateMembers(entries[..n]);
      forall e ensures e in entries <==> At(Tabulate(entries), e.path) == Some(e.node) {
        assert e in entries <==> e in entries[..n] || e == entries[n];
        if e in entries[..n] { assert e.path != entries[n].path; }
      }
    }
  }

  const EntryPath: Entry -> string := (e: Entry) => e.path

  lemma SortedEntries(t: Tree, found: seq<Entry>, sorted: seq<Entry>)
    requires forall i, j :: 0 <= i < j < |found| ==> found[i].path != found[j].path
    requires forall e :: e in found <==> At(t, e.path) == Some(e.node)
    requires multiset(sorted) == multiset(found) && Sorted(sorted, EntryLess)
    ensures Tabulate(sorted) == t
    ensures forall i, j :: 0 <= i < j < |sorted| ==> Less(sorted[i].path, sorted[j].path)
  {
    forall i, j | 0 <= i < j < |sorted| ensures !Less(EntryPath(sorted[j]), EntryPath(sorted[i])) {
      assert !EntryLess(sorted[j], sorted[i]);
    }
    DistinctKeysIncrease(found, sorted, EntryPath);
    forall i, j | 0 <= i < j < |sorted|
      ensures Less(sorted[i].path, sorted[j].path) && sorted[i].path != sorted[j].path {
      assert Less(EntryPath(sorted[i]), EntryPath(sorted[j]));
      LessIrreflexive(sorted[i].path);
    }
    TabulateMembers(sorted);
    forall p ensures At(Tabulate(sorted), p) == At(t, p) {
      forall n ensures At(Tabulate(sorted), p) == Some(n) <==> At(t, p) == Some(n) {
        var e := Entry(p, n);
        assert e in sorted <==> e in multiset(sorted);
        assert e in found <==> e in multiset(found);
      }
    }
    TreesEqual(Tabulate(sorted), t);
  }

  /** manifest.Build: walk the tree, record every node, sort by path. */
  method Build(t: Tree) returns (m: Manifest)
    ensures Tabulate(m.entries) == t
    ensures forall i, j :: 0 <= i < j < |m.entries| ==> Less(m.entries[i].path, m.entries[j].path)
  {
    var found: seq<Entry> := [];
    var todo := t.Keys;
    while todo != {}
      invariant todo <= t.Keys
      invariant forall e :: e in found <==> e.path !in todo && At(t, e.path) == Some(e.node)
      invariant forall i, j :: 0 <= i < j < |found| ==> found[i].path != found[j].path
      decreases todo
    {
      var p :| p in todo;
      assert forall i :: 0 <= i < |found| ==> found[i] in found;
      found := found + [Entry(p, t[p])];
      todo := todo - {p};
    }
    EntryLessIsOrdering();
    var sorted := Sort(found, EntryLess);
    SortedEntries(t, found, sorted);
    m := Manifest(1, sorted);
  }

  // -- diff.Compare -------------------------------------------------------------

  datatype Kind = Created | Modified | Deleted
  datatype Change = Change(path: string, kind: Kind, before: Option<Node>, after: Option<Node>)

  /** The change, if any, that turns left into right at p. */
  function ChangeAt(left: Tree, right: Tree, p: string): Option<Change> {
    match (At(left, p), At(right, p))
    case (None, None) => None
    case (None, Some(r)) => Some(Change(p, Created, None, Some(r)))
    case (Some(l), None) => Some(Change(p, Deleted, Some(l), None))
    case (Some(l), Some(r)) => if l == r then None else Some(Change(p, Modified, Some(l), Some(r)))
  }

  ghost predicate PathsIncrease(cs: seq<Change>) {
    forall i, j :: 0 <= i < j < |cs| ==> Less(cs[i].path, cs[j].path)
  }

  /** cs lists exactly the paths at which the trees differ, in path order. */
  ghost predicate ChangesBetween(left: Tree, right: Tree, cs: seq<Change>) {
    && PathsIncrease(cs)
    && forall c :: c in cs <==> ChangeAt(left, right, c.path) == Some(c)
  }

  predicate ChangeLess(a: Change, b: Change) { Less(a.path, b.path) }

  /** diff.Compare. */
  method Compare(before: Manifest, after: Manifest) returns (changes: seq<Change>)
    ensures ChangesBetween(Tabulate(before.entries), Tabulate(after.entries), changes)
  {
    var left := Table(before.entries);
    var right := Table(after.entries);
    var found: seq<Change> := [];
    var todo := left.Keys;
    while todo != {}
      invariant todo <= left.Keys
      invariant Distinct(found)
      invariant forall c ::
        c in found <==> c.path in left && c.path !in todo && ChangeAt(left, right, c.path) == Some(c)
      decreases todo
    {
      var p :| p in todo;
      ghost var seen := found;
      if p !in right {
        found := found + [Change(p, Deleted, Some(left[p]), None)];
      } else if left[p] != right[p] {
        found := found + [Change(p, Modified, Some(left[p]), Some(right[p]))];
      }
      todo := todo - {p};
      forall c ensures c in found <==> c.path in left && c.path !in todo && ChangeAt(left, right, c.path) == Some(c) {
        assert c in seen <==>
          c.path in left && c.path !in todo && c.path != p && ChangeAt(left, right, c.path) == Some(c);
      }
    }
    todo := right.Keys;
    while todo != {}
      invariant todo <= right.Keys
      invariant Distinct(found)
      invariant forall c :: c in found <==>
        (c.path in left || (c.path in right && c.path !in todo)) && ChangeAt(left, right, c.path) == Some(c)
      decreases todo
    {
      var p :| p in todo;
      ghost var seen := found;
      if p !in left {
        found := found + [Change(p, Created, None, Some(right[p]))];
      }
      todo := todo - {p};
      forall c ensures c in found <==>
        (c.path in left || (c.path in right && c.path !in todo)) && ChangeAt(left, right, c.path) == Some(c) {
        assert c in seen <==>
          (c.path in left || (c.path in right && c.path !in todo && c.path != p))
            && ChangeAt(left, right, c.path) == Some(c);
      }
    }
    changes := SortChanges(found);
  }

  /** Filling a map entry by entry. */
  method Table(entries: seq<Entry>) returns (t: Tree)
    ensures t == Tabulate(entries)
  {
    t := map[];
    for i := 0 to |entries|
      invariant t == Tabulate(entries[..i])
    {
      t := t[entries[i].path := entries[i].node];
      assert entries[..i + 1][..i] == entries[..i];
    }
    assert entries[..|entries|] == entries;
  }

  ghost predicate Distinct(cs: seq<Change>) {
    forall i, j :: 0 <= i < |cs| && 0 <= j < |cs| && cs[i].path == cs[j].path ==> i == j
  }

  const ChangePath: Change -> string := (c: Change) => c.path

  method SortChanges(s: seq<Change>) returns (r: seq<Change>)
    requires Distinct(s)
    ensures PathsIncrease(r)
    ensures forall c :: c in r <==> c in s
  {
    LessIsOrdering();
    assert Ordering(ChangeLess) by { assert forall x, y :: ChangeLess(x, y) ==> Less(x.path, y.path); }
    r := Sort(s, ChangeLess);
    SortMembers(s, ChangeLess);
    forall i, j | 0 <= i < j < |r| ensures !Less(ChangePath(r[j]), ChangePath(r[i])) {
      assert !ChangeLess(r[j], r[i]);
    }
    DistinctKeysIncrease(s, r, ChangePath);
    assert forall i, j :: 0 <= i < j < |r| ==> Less(ChangePath(r[i]), ChangePath(r[j]));
  }

  // -- What a change list is for ------------------------------------------------

  /** Carry out a change list on a map of entries. */
  function Patch(t: Tree, cs: seq<Change>): Tree {
    if cs == [] then t
    else
      var done := Patch(t, cs[..|cs| - 1]);
      var c := cs[|cs| - 1];
      match c.after
      case Some(n) => done[c.path := n]
      case None => done - {c.path}
  }

  lemma {:induction false} PatchAt(t: Tree, cs: seq<Change>, p: string)
    requires PathsIncrease(cs)
    ensures (forall c :: c in cs ==> c.path != p) ==> At(Patch(t, cs), p) == At(t, p)
    ensures forall c :: c in cs && c.path == p ==> At(Patch(t, cs), p) == c.after
  {
    if cs != [] {
      var n := |cs| - 1;
      PatchAt(t, cs[..n], p);
      LessIrreflexive(p);
      assert forall c :: c in cs <==> c in cs[..n] || c == cs[n];
      forall c | c in cs && c.path == p ensures At(Patch(t, cs), p) == c.after {
        if c in cs[..n] { assert c.path != cs[n].path; }
      }
    }
  }

  /** The change list is complete and exact: it turns the first tree into the second. */
  lemma PatchInvertsCompare(left: Tree, right: Tree, cs: seq<Change>)
    requires ChangesBetween(left, right, cs)
    ensures Patch(left, cs) == right
  {
    forall p ensures At(Patch(left, cs), p) == At(right, p) {
      PatchAt(left, cs, p);
      match ChangeAt(left, right, p)
      case Some(c) => assert c in cs;
      case None =>
        forall c | c in cs ensures c.path != p { assert ChangeAt(left, right, c.path) == Some(c); }
    }
    TreesEqual(Patch(left, cs), right);
  }

  /** The change list is canonical: two trees have one. */
  lemma CompareIsUnique(left: Tree, right: Tree, cs: seq<Change>, ds: seq<Change>)
    requires ChangesBetween(left, right, cs) && ChangesBetween(left, right, ds)
    ensures cs == ds
  {
    SameIncreasingChanges(cs, ds);
  }

  lemma {:induction false} SameIncreasingChanges(cs: seq<Change>, ds: seq<Change>)
    requires PathsIncrease(cs) && PathsIncrease(ds) && forall c :: c in cs <==> c in ds
    ensures cs == ds
  {
    if cs != [] && ds != [] {
      assert cs[0] in ds && ds[0] in cs;
      var i :| 0 <= i < |ds| && ds[i] == cs[0];
      var j :| 0 <= j < |cs| && cs[j] == ds[0];
      LessIrreflexive(cs[0].path);
      if i != 0 && j != 0 { LessTransitive(cs[0].path, ds[0].path, cs[0].path); }
      assert cs[0] == ds[0];
      forall c ensures c in cs[1..] <==> c in ds[1..] {
        assert c in cs[1..] ==> Less(cs[0].path, c.path) && c in ds;
        assert c in ds[1..] ==> Less(ds[0].path, c.path) && c in cs;
      }
      SameIncreasingChanges(cs[1..], ds[1..]);
      assert cs == [cs[0]] + cs[1..] && ds == [ds[0]] + ds[1..];
    } else {
      NoMembers(cs);
      NoMembers(ds);
    }
  }

  lemma NoMembers(cs: seq<Change>)
    ensures cs == [] || exists c :: c in cs
  {
    if cs != [] { assert cs[0] in cs; }
  }
}
