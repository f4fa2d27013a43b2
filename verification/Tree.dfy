// Directory trees: slash-separated paths below a root, what a manifest records
// about each node, and a file system whose operations can fail at any point.
module Tree {

  datatype Option<+T> = None | Some(value: T)

  /** What a manifest records about one path. File contents are identified by size and digest. */
  datatype Node =
    | Directory(mode: nat)
    | File(mode: nat, size: nat, sha256: string)
    | Symlink(mode: nat, target: string)
    | Other(mode: nat)

  /** A tree maps every path below its root to a node; the root itself is "". */
  type Tree = map<string, Node>

  function At(t: Tree, p: string): Option<Node> {
    if p in t then Some(t[p]) else None
  }

  /** a is a proper ancestor directory of p. */
  predicate Ancestor(a: string, p: string) {
    p != "" && (a == "" || (|a| < |p| && p[..|a|] == a && p[|a|] == '/'))
  }

  /** p is a or lies below it. */
  predicate Within(a: string, p: string) {
    a == p || Ancestor(a, p)
  }

  lemma AncestorTransitive(a: string, b: string, c: string)
    requires Ancestor(a, b) && Ancestor(b, c)
    ensures Ancestor(a, c)
  {
    if a != "" { assert c[..|b|][..|a|] == c[..|a|]; }
  }

  /** Two ancestors of one path lie on one branch. */
  lemma AncestorsOnOneBranch(a: string, b: string, p: string)
    requires Within(a, p) && Within(b, p) && |a| < |b|
    ensures Ancestor(a, b)
  {
    if b != p && a != "" { assert p[..|b|][..|a|] == p[..|a|]; }
  }

  /** Every node sits in directories that exist, as in a real tree. */
  ghost predicate Closed(t: Tree) {
    && "" !in t
    && forall p, a :: p in t && Ancestor(a, p) && a != "" ==> a in t && t[a].Directory?
  }

  /** The directory that holds p. */
  function Dir(p: string): (d: string)
    requires p != ""
    ensures Ancestor(d, p)
    ensures forall a :: Ancestor(a, p) ==> Within(a, d)
  {
    DirFrom(p, |p| - 1)
  }

  function DirFrom(p: string, i: nat): (d: string)
    requires i < |p|
    requires forall j :: i < j < |p| ==> p[j] != '/'
    ensures Ancestor(d, p)
    ensures forall a :: Ancestor(a, p) ==> Within(a, d)
  {
    if i == 0 then ""
    else if p[i] == '/' then
      assert forall a :: Ancestor(a, p) ==> Within(a, p[..i]) by {
        forall a | Ancestor(a, p) ensures Within(a, p[..i]) {
          if |a| < i { AncestorsOnOneBranch(a, p[..i], p); }
        }
      }
      p[..i]
    else DirFrom(p, i - 1)
  }

  // -- What the system calls do to a tree --------------------------------------

  /** s is t after MkdirAll(p, mode). */
  ghost predicate MadeDirs(t: Tree, s: Tree, p: string, mode: nat) {
    forall q :: At(s, q) == if q != "" && Within(q, p) && q !in t then Some(Directory(mode)) else At(t, q)
  }

  /** s is t somewhere during MkdirAll(p, mode). */
  ghost predicate MakingDirs(t: Tree, s: Tree, p: string, mode: nat) {
    forall q :: At(s, q) == At(t, q) || (q != "" && Within(q, p) && q !in t && At(s, q) == Some(Directory(mode)))
  }

  /** The same, with every directory above the ith character there, and nothing done below. */
  ghost predicate Making(t: Tree, s: Tree, p: string, i: nat, mode: nat) {
    && MakingDirs(t, s, p, mode)
    && (forall a :: a != "" && Within(a, p) && |a| < i ==> a in s && s[a].Directory?)
    && forall a :: |a| >= i ==> At(s, a) == At(t, a)
  }

  lemma StartsMaking(t: Tree, p: string, mode: nat)
    ensures Making(t, t, p, 1, mode) && MakingDirs(t, t, p, mode)
  {
  }

  lemma MakingSkips(t: Tree, s: Tree, p: string, i: nat, mode: nat)
    requires Making(t, s, p, i, mode) && i < |p| && p[i] != '/'
    ensures Making(t, s, p, i + 1, mode)
  {
  }

  /** At a directory's end: it is there, or its parents are and it can be made. */
  lemma MakingAt(t: Tree, s: Tree, p: string, i: nat, mode: nat)
    requires Making(t, s, p, i, mode) && 0 < i <= |p| && (i == |p| || p[i] == '/')
    ensures p[..i] in s && s[p[..i]].Directory? ==> Making(t, s, p, i + 1, mode)
    ensures p[..i] in s && !s[p[..i]].Directory? ==> !WayIsClear(t, p)
    ensures p[..i] !in s ==>
      && (forall a :: Ancestor(a, p[..i]) && a != "" ==> a in s && s[a].Directory?)
      && Making(t, s[p[..i] := Directory(mode)], p, i + 1, mode)
      && MakingDirs(t, s[p[..i] := Directory(mode)], p, mode)
  {
    var d := p[..i];
    OnlyPrefix(p, i);
    hide Within;
    assert At(s, d) == At(t, d);
    if d !in s {
      forall a | Ancestor(a, d) && a != "" ensures a in s && s[a].Directory? {
        if d != p { AncestorTransitive(a, d, p); }
      }
      assert d !in t;
      var made := s[d := Directory(mode)];
      assert forall q :: q != d ==> At(made, q) == At(s, q);
    }
  }

  lemma OnlyPrefix(p: string, i: nat)
    requires 0 < i <= |p| && (i == |p| || p[i] == '/')
    ensures Within(p[..i], p) && (p[..i] == p || Ancestor(p[..i], p))
    ensures forall a :: a != "" && Within(a, p) && |a| == i ==> a == p[..i]
  {
  }

  lemma AllMade(t: Tree, s: Tree, p: string, mode: nat)
    requires Making(t, s, p, |p| + 1, mode)
    ensures MadeDirs(t, s, p, mode) && forall a :: a != "" && Within(a, p) ==> a in s && s[a].Directory?
    ensures WayIsClear(t, p)
  {
    forall q ensures At(s, q)
      == if q != "" && Within(q, p) && q !in t then Some(Directory(mode)) else At(t, q) {
      if q != "" && Within(q, p) && q !in t { assert q in s; }
    }
  }

  /** s is t after RemoveAll(p). */
  ghost predicate Removed(t: Tree, s: Tree, p: string) {
    forall q :: At(s, q) == if Within(p, q) then None else At(t, q)
  }

  /** s is t somewhere during RemoveAll(p). */
  ghost predicate Removing(t: Tree, s: Tree, p: string) {
    forall q :: At(s, q) == At(t, q) || (Within(p, q) && At(s, q) == None)
  }

  lemma IsLeaf(t: Tree, p: string, q: string, left: set<string>)
    requires left == (set r | r in t && Within(p, r)) && q in left && forall r :: r in left ==> !Ancestor(q, r)
    ensures forall r :: r in t ==> !Ancestor(q, r)
  {
    forall r | r in t ensures !Ancestor(q, r) {
      if Ancestor(q, r) && p != q { AncestorTransitive(p, q, r); }
    }
  }

  lemma StartsRemoving(t: Tree, p: string)
    ensures Removing(t, t, p)
  {
  }

  lemma RemovingMore(t: Tree, s: Tree, p: string, q: string)
    requires Removing(t, s, p) && Within(p, q)
    ensures Removing(t, s - {q}, p)
  {
    assert forall r :: r != q ==> At(s - {q}, r) == At(s, r);
  }

  lemma AllGone(t: Tree, s: Tree, p: string)
    requires Removing(t, s, p) && forall q :: q in s ==> !Within(p, q)
    ensures Removed(t, s, p)
  {
    forall q ensures At(s, q) == if Within(p, q) then None else At(t, q) {
      assert At(s, q) == At(t, q) || (Within(p, q) && At(s, q) == None);
    }
  }

  /** rename works between places apart, onto nothing, or onto a node of the same kind with nothing below it. */
  ghost predicate CanRename(t: Tree, from: string, to: string)
    requires from in t
  {
    && !Within(from, to) && !Within(to, from)
    && (to in t ==> t[from].Directory? == t[to].Directory? && forall q :: q in t ==> !Ancestor(to, q))
  }

  /** Everything on the way to p, p included, is a directory or missing: MkdirAll can work. */
  ghost predicate WayIsClear(t: Tree, p: string) {
    forall a :: a != "" && Within(a, p) && a in t ==> t[a].Directory?
  }

  /** s is t after moving the subtree at from to to. */
  ghost predicate Moved(t: Tree, s: Tree, from: string, to: string) {
    forall q :: At(s, q) ==
      if Within(to, q) then At(t, from + q[|to|..])
      else if Within(from, q) then None
      else At(t, q)
  }

  /** s is t except at p. */
  ghost predicate SameBut(t: Tree, s: Tree, p: string) {
    forall q :: q != p ==> At(s, q) == At(t, q)
  }

  lemma TreesEqual(s: Tree, t: Tree)
    requires forall q :: At(s, q) == At(t, q)
    ensures s == t
  {
    forall q ensures q in s <==> q in t { assert At(s, q) == At(t, q); }
    forall q | q in s ensures s[q] == t[q] { assert At(s, q) == At(t, q); }
  }

  /** A nonempty set of paths has one with nothing of the set below it. */
  lemma {:induction false} DeepestPath(paths: set<string>) returns (leaf: string)
    requires paths != {}
    ensures leaf in paths && forall q :: q in paths ==> !Ancestor(leaf, q)
  {
    leaf :| leaf in paths;
    if exists q :: q in paths && Ancestor(leaf, q) {
      var below := set q | q in paths && Ancestor(leaf, q);
      assert leaf !in below;
      assert below < paths;
      var lower :| lower in paths && Ancestor(leaf, lower);
      assert lower in below;
      var inner := DeepestPath(below);
      forall q | q in paths ensures !Ancestor(inner, q) {
        if Ancestor(inner, q) { AncestorTransitive(leaf, inner, q); }
      }
      leaf := inner;
    }
  }

  function MoveKey(from: string, to: string, q: string): string
    requires |from| <= |q|
  {
    to + q[|from|..]
  }

  lemma MoveKeyBack(from: string, to: string, q: string)
    requires from != "" && to != ""
    requires Within(from, q)
    ensures Within(to, MoveKey(from, to, q))
    ensures from + MoveKey(from, to, q)[|to|..] == q
  {
    var m := MoveKey(from, to, q);
    assert m[|to|..] == q[|from|..];
    assert m[..|to|] == to;
    assert q == from + q[|from|..];
  }

  /** The tree after a subtree move, as a value. */
  function Move(t: Tree, from: string, to: string): (s: Tree)
    requires from != "" && to != ""
    requires !Within(from, to) && !Within(to, from)
    ensures Moved(t, s, from, to)
  {
    var stay := map q | q in t && !Within(from, q) && !Within(to, q) :: t[q];
    var keys := set q | q in t && Within(from, q) :: MoveKey(from, to, q);
    var go := map m | m in keys && from + m[|to|..] in t :: t[from + m[|to|..]];
    var s := stay + go;
    assert Moved(t, s, from, to) by {
      forall q | q in keys ensures Within(to, q) {
        var r :| r in t && Within(from, r) && MoveKey(from, to, r) == q;
        MoveKeyBack(from, to, r);
      }
      forall q ensures At(s, q)
        == (if Within(to, q) then At(t, from + q[|to|..]) else if Within(from, q) then None else At(t, q)) {
        if Within(to, q) {
          MoveKeyBack(to, from, q);
          assert Within(from, MoveKey(to, from, q));
          assert to + q[|to|..] == q;
          var r := from + q[|to|..];
          assert MoveKey(from, to, r) == q;
          if r in t { assert q in keys; }
        }
      }
    }
    s
  }

  lemma MoveKeepsClosed(t: Tree, s: Tree, from: string, to: string)
    requires Closed(t) && from in t && to != ""
    requires !Within(from, to) && !Within(to, from)
    requires Moved(t, s, from, to)
    requires forall a :: Ancestor(a, to) && a != "" ==> a in t && t[a].Directory?
    ensures Closed(s)
  {
    assert At(s, "") == At(t, "");
    forall p, a | p in s && Ancestor(a, p) && a != "" ensures a in s && s[a].Directory? {
      assert At(s, p) != None && At(s, a) == At(s, a);
      if Within(to, p) {
        MoveKeyBack(to, from, p);
        var r := from + p[|to|..];
        assert r in t;
        if |a| < |to| {
          AncestorsOnOneBranch(a, to, p);
          if Within(from, a) { if from != a { AncestorTransitive(from, a, to); } }
        } else if a == to {
          assert from + a[|to|..] == from;
          assert Ancestor(from, r);
        } else {
          AncestorsOnOneBranch(to, a, p);
          MoveKeyBack(to, from, a);
          var b := from + a[|to|..];
          assert Ancestor(b, r) by {
            assert p[..|a|] == a;
            assert r[..|b|] == from + p[|to|..|a|];
            assert r[|b|] == p[|a|];
          }
        }
      } else {
        assert p in t && !Within(from, p);
        if Within(to, a) { if to != a { AncestorTransitive(to, a, p); } }
        if Within(from, a) { if from != a { AncestorTransitive(from, a, p); } }
      }
    }
  }

  /**
   * A mutable directory tree. Any call may fail, and history keeps every state
   * the tree has been in, so that a claim about history is a claim about what a
   * crash or an error can leave behind. faults counts the calls that failed though
   * the tree gave them no reason to.
   */
  class FileSystem {
    var tree: Tree
    ghost var history: seq<Tree>
    ghost var faults: nat

    ghost predicate Valid()
      reads this
    {
      && Closed(tree)
      && history != [] && history[|history| - 1] == tree
      && forall i :: 0 <= i < |history| ==> "" !in history[i]
    }

    constructor (t: Tree)
      requires Closed(t)
      ensures Valid() && tree == t && history == [t] && faults == 0
    {
      tree := t;
      history := [t];
      faults := 0;
    }

    /** Does a call that could succeed do so? */
    method Works() returns (ok: bool)
      modifies this`faults
      ensures faults == old(faults) + if ok then 0 else 1
    {
      ok := *;
      if !ok { faults := faults + 1; }
    }

    /** os.Mkdir for a path whose parents exist and that does not exist itself. */
    method Mkdir(p: string, mode: nat) returns (ok: bool)
      requires Valid() && p != "" && p !in tree
      requires forall a :: Ancestor(a, p) && a != "" ==> a in tree && tree[a].Directory?
      modifies this
      ensures Valid()
      ensures ok ==> tree == old(tree)[p := Directory(mode)] && history == old(history) + [tree]
      ensures !ok ==> tree == old(tree) && history == old(history)
      ensures faults == old(faults) + if ok then 0 else 1
    {
      ok := Works();
      if ok {
        tree := tree[p := Directory(mode)];
        history := history + [tree];
      }
    }

    /** os.MkdirAll: every missing directory on the way gets the mode; existing ones keep theirs. */
    method MkdirAll(p: string, mode: nat) returns (ok: bool)
      requires Valid()
      modifies this
      ensures Valid() && old(history) <= history
      ensures forall k :: |old(history)| <= k < |history| ==> MakingDirs(old(tree), history[k], p, mode)
      ensures MakingDirs(old(tree), tree, p, mode)
      ensures ok ==> MadeDirs(old(tree), tree, p, mode)
      ensures ok ==> forall a :: a != "" && Within(a, p) ==> a in tree && tree[a].Directory?
      ensures old(faults) <= faults && (ok <==> WayIsClear(old(tree), p) && faults == old(faults))
    {
      hide MakingDirs, MadeDirs, Making, Within, Ancestor, WayIsClear;
      StartsMaking(tree, p, mode);
      var i := 1;
      while i <= |p|
        invariant Valid() && old(history) <= history && 1 <= i <= |p| + 1
        invariant forall k :: |old(history)| <= k < |history| ==> MakingDirs(old(tree), history[k], p, mode)
        invariant Making(old(tree), tree, p, i, mode) && MakingDirs(old(tree), tree, p, mode)
        invariant faults == old(faults)
      {
        if i == |p| || p[i] == '/' {
          var d := p[..i];
          MakingAt(old(tree), tree, p, i, mode);
          if d in tree {
            if !tree[d].Directory? { return false; }
          } else {
            var made := Mkdir(d, mode);
            if !made { return false; }
          }
        } else {
          MakingSkips(old(tree), tree, p, i, mode);
        }
        i := i + 1;
      }
      AllMade(old(tree), tree, p, mode);
      return true;
    }

    /** Unlink or rmdir of a path with nothing below it. */
    method RemoveLeaf(p: string) returns (ok: bool)
      requires Valid() && p in tree && forall q :: q in tree ==> !Ancestor(p, q)
      modifies this
      ensures Valid()
      ensures ok ==> tree == old(tree) - {p} && history == old(history) + [tree]
      ensures !ok ==> tree == old(tree) && history == old(history)
      ensures faults == old(faults) + if ok then 0 else 1
    {
      ok := Works();
      if ok {
        tree := tree - {p};
        history := history + [tree];
      }
    }

    /** os.RemoveAll: children before their directory; it may stop part-way. */
    method RemoveAll(p: string) returns (ok: bool)
      requires Valid()
      modifies this
      ensures Valid() && old(history) <= history
      ensures forall k :: |old(history)| <= k < |history| ==> Removing(old(tree), history[k], p)
      ensures Removing(old(tree), tree, p)
      ensures ok ==> Removed(old(tree), tree, p)
      ensures old(faults) <= faults && (ok <==> faults == old(faults))
    {
      hide Removing, Removed, Within, Ancestor;
      StartsRemoving(tree, p);
      var left := set q | q in tree && Within(p, q);
      while left != {}
        invariant Valid() && old(history) <= history
        invariant forall k :: |old(history)| <= k < |history| ==> Removing(old(tree), history[k], p)
        invariant Removing(old(tree), tree, p) && faults == old(faults)
        invariant left == set q | q in tree && Within(p, q)
        decreases left
      {
        ghost var deepest := DeepestPath(left);
        var q :| q in left && forall r :: r in left ==> !Ancestor(q, r);
        IsLeaf(tree, p, q, left);
        RemovingMore(old(tree), tree, p, q);
        var gone := RemoveLeaf(q);
        if !gone { return false; }
        left := left - {q};
      }
      assert forall q :: q in tree && Within(p, q) ==> q in left;
      AllGone(old(tree), tree, p);
      return true;
    }

    /** Write a file node at p: create it, change its mode or its contents. */
    method Put(p: string, node: Node) returns (ok: bool)
      requires Valid() && p != "" && node.File? && (p in tree ==> tree[p].File?)
      requires forall a :: Ancestor(a, p) && a != "" ==> a in tree && tree[a].Directory?
      modifies this
      ensures Valid()
      ensures ok ==> tree == old(tree)[p := node] && history == old(history) + [tree]
      ensures !ok ==> tree == old(tree) && history == old(history)
      ensures faults == old(faults) + if ok then 0 else 1
    {
      ok := Works();
      if ok {
        assert forall q :: q in tree ==> !(Ancestor(p, q) && p in tree);
        tree := tree[p := node];
        history := history + [tree];
      }
    }

    /** os.Rename of a file or a subtree. */
    method Rename(from: string, to: string) returns (ok: bool)
      requires Valid() && from in tree && to != "" && from != to
      requires forall a :: Ancestor(a, to) && a != "" ==> a in tree && tree[a].Directory?
      modifies this
      ensures Valid()
      ensures ok ==> Moved(old(tree), tree, from, to) && history == old(history) + [tree]
      ensures ok ==> !Within(from, to) && !Within(to, from)
      ensures ok && to in old(tree) ==> old(tree)[from].Directory? == old(tree)[to].Directory?
      ensures !ok ==> tree == old(tree) && history == old(history)
      ensures old(faults) <= faults && (ok <==> CanRename(old(tree), from, to) && faults == old(faults))
    {
      if Within(from, to) || Within(to, from) { return false; }
      if to in tree && tree[from].Directory? != tree[to].Directory? { return false; }
      if to in tree && exists q :: q in tree && Ancestor(to, q) { return false; }
      ok := Works();
      if ok {
        ghost var before := tree;
        tree := Move(tree, from, to);
        MoveKeepsClosed(before, tree, from, to);
        history := history + [tree];
      }
    }
  }
}
