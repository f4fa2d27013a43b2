// Moving sensitive paths out of the view before a native run and back into it
// afterwards.
module NativeHide {
  import opened Tree
  import Order

  /** Neither path lies within the other. */
  predicate Apart(a: string, b: string) {
    !Within(a, b) && !Within(b, a)
  }

  lemma ApartBelow(a: string, b: string, q: string)
    requires Apart(a, b) && Within(a, q)
    ensures !Within(b, q)
  {
    if Within(b, q) {
      if |a| < |b| { AncestorsOnOneBranch(a, b, q); }
      if |b| < |a| { AncestorsOnOneBranch(b, a, q); }
    }
  }

  lemma WithinTransitive(a: string, b: string, c: string)
    requires Within(a, b) && Within(b, c)
    ensures Within(a, c)
  {
    if a != b && b != c { AncestorTransitive(a, b, c); }
  }

  lemma ApartDeeper(a: string, b: string, p: string, q: string)
    requires Apart(a, b) && Within(a, p) && Within(b, q)
    ensures Apart(p, q)
  {
    if Within(p, q) { WithinTransitive(a, p, q); ApartBelow(a, b, q); }
    if Within(q, p) { WithinTransitive(b, q, p); ApartBelow(b, a, p); }
  }

  /** The place of a path of one directory in another. */
  function Relocate(from: string, to: string, p: string): string
    requires |from| <= |p|
  {
    to + p[|from|..]
  }

  lemma RelocateWithin(from: string, to: string, p: string, q: string)
    requires from != "" && to != "" && Ancestor(from, p) && Ancestor(from, q)
    ensures Ancestor(to, Relocate(from, to, p)) && Ancestor(to, Relocate(from, to, q))
    ensures Within(Relocate(from, to, p), Relocate(from, to, q)) <==> Within(p, q)
  {
    var p', q' := Relocate(from, to, p), Relocate(from, to, q);
    assert p == from + p[|from|..] && q == from + q[|from|..];
    assert p'[..|to|] == to && p'[|to|] == p[|from|] && q'[..|to|] == to && q'[|to|] == q[|from|];
    if |p| <= |q| {
      assert q'[..|p'|] == to + q[|from|..|p|];
      assert q[..|p|] == from + q[|from|..|p|];
      assert |p| < |q| ==> q'[|p'|] == q[|p|];
    }
  }

  datatype Hidden = Hidden(original: string, hidden: string)

  /** Which items belong to a view and a hidden root: each original is inside the view, none inside another. */
  ghost predicate Items(items: seq<Hidden>, view: string, root: string) {
    && (forall i :: 0 <= i < |items| ==>
         Ancestor(view, items[i].original) && items[i].hidden == Relocate(view, root, items[i].original))
    && forall i, j :: 0 <= i < j < |items| ==> Apart(items[i].original, items[j].original)
  }

  /** The view and the hidden root are separate directories. */
  predicate Roots(view: string, root: string) {
    view != "" && root != "" && Apart(view, root)
  }

  /** Each hidden subtree is what the original was. */
  ghost predicate Stashed(before: Tree, now: Tree, items: seq<Hidden>) {
    forall i, q :: 0 <= i < |items| && Within(items[i].hidden, q) ==>
      At(now, q) == At(before, items[i].original + q[|items[i].hidden|..])
  }

  ghost predicate Gone(now: Tree, items: seq<Hidden>) {
    forall i, q :: 0 <= i < |items| && Within(items[i].original, q) ==> q !in now
  }

  predicate Covered(items: seq<Hidden>, q: string) {
    exists i :: 0 <= i < |items| && Within(items[i].original, q)
  }

  /** Everything else is untouched, apart from the hidden root and the way to it. */
  ghost predicate ElseSame(before: Tree, now: Tree, items: seq<Hidden>, root: string) {
    forall q :: !Covered(items, q) && !Within(root, q) && !Within(q, root) ==> At(now, q) == At(before, q)
  }

  ghost predicate HiddenAway(before: Tree, now: Tree, items: seq<Hidden>, view: string, root: string) {
    && Items(items, view, root) && Stashed(before, now, items) && Gone(now, items) && ElseSame(before, now, items, root)
  }

  const MODE: nat := 448

  /** Hidden places are apart when the originals are. */
  lemma HiddenApart(items: seq<Hidden>, view: string, root: string, p: string, i: nat)
    requires Roots(view, root) && Items(items, view, root) && Ancestor(view, p) && i < |items|
      && Apart(items[i].original, p)
    ensures var target := Relocate(view, root, p);
      Ancestor(root, target) && Apart(items[i].hidden, target) && Apart(items[i].original, target)
        && Apart(p, items[i].hidden)
  {
    RelocateWithin(view, root, items[i].original, p);
    RelocateWithin(view, root, p, items[i].original);
    ApartDeeper(view, root, items[i].original, Relocate(view, root, p));
    ApartDeeper(view, root, p, items[i].hidden);
  }

  /** Nothing below a path apart from the target is on the way to the target. */
  lemma NotOnTheWay(a: string, target: string, d: string, q: string)
    requires Apart(a, target) && Within(d, target) && Within(a, q)
    ensures !Within(q, d)
  {
    if Within(q, d) {
      WithinTransitive(q, d, target);
      WithinTransitive(a, q, target);
    }
  }

  /** Making directories on the way to a new hidden place disturbs nothing. */
  lemma WayMade(before: Tree, t: Tree, s: Tree, items: seq<Hidden>, view: string, root: string, p: string, d: string)
    requires Roots(view, root) && HiddenAway(before, t, items, view, root)
    requires Ancestor(view, p) && forall i :: 0 <= i < |items| ==> Apart(items[i].original, p)
    requires Within(d, Relocate(view, root, p)) && MadeDirs(t, s, d, MODE)
    ensures HiddenAway(before, s, items, view, root)
    ensures forall q :: Within(p, q) ==> At(s, q) == At(t, q)
  {
    var target := Relocate(view, root, p);
    hide Within, Ancestor, Apart, Relocate;
    InsideRoots(view, root, p);
    forall q, i | 0 <= i < |items| && (Within(items[i].hidden, q) || Within(items[i].original, q))
      ensures At(s, q) == At(t, q) {
      HiddenApart(items, view, root, p, i);
      if Within(items[i].hidden, q) { NotOnTheWay(items[i].hidden, target, d, q); }
      if Within(items[i].original, q) { NotOnTheWay(items[i].original, target, d, q); }
    }
    assert Gone(s, items) by {
      forall i, q | 0 <= i < |items| && Within(items[i].original, q) ensures q !in s { assert At(s, q) == At(t, q); }
    }
    forall q | !Within(root, q) && !Within(q, root) ensures At(s, q) == At(t, q) {
      if Within(q, d) {
        WithinTransitive(q, d, target);
        OneBranch(q, root, target);
      }
    }
    forall q | Within(p, q) ensures At(s, q) == At(t, q) {
      NotOnTheWay(p, target, d, q);
    }
  }

  lemma InsideRoots(view: string, root: string, p: string)
    requires Roots(view, root) && Ancestor(view, p)
    ensures var target := Relocate(view, root, p); Ancestor(root, target) && Within(root, target) && Apart(p, target)
  {
    RelocateWithin(view, root, p, p);
    ApartDeeper(view, root, p, Relocate(view, root, p));
  }

  lemma OneBranch(a: string, b: string, p: string)
    requires Within(a, p) && Within(b, p)
    ensures Within(a, b) || Within(b, a)
  {
    if |a| < |b| { AncestorsOnOneBranch(a, b, p); }
    if |b| < |a| { AncestorsOnOneBranch(b, a, p); }
  }

  function Hide(view: string, root: string, p: string): Hidden
    requires |view| <= |p|
  {
    Hidden(p, Relocate(view, root, p))
  }

  lemma MoreItems(items: seq<Hidden>, view: string, root: string, p: string)
    requires Items(items, view, root) && Ancestor(view, p)
    requires forall i :: 0 <= i < |items| ==> Apart(items[i].original, p)
    ensures Items(items + [Hide(view, root, p)], view, root)
    ensures forall q :: Covered(items + [Hide(view, root, p)], q) <==> Covered(items, q) || Within(p, q)
  {
    var more := items + [Hide(view, root, p)];
    forall q ensures Covered(more, q) <==> Covered(items, q) || Within(p, q) {
      if Covered(items, q) {
        var i :| 0 <= i < |items| && Within(items[i].original, q);
        assert more[i] == items[i];
      }
      if Within(p, q) { assert more[|items|].original == p; }
    }
  }

  /** Moving one more path to its hidden place. */
  lemma OneMoreHidden(before: Tree, t: Tree, s: Tree, items: seq<Hidden>, view: string, root: string, p: string)
    requires Roots(view, root) && HiddenAway(before, t, items, view, root)
    requires Ancestor(view, p) && forall i :: 0 <= i < |items| ==> Apart(items[i].original, p)
    requires Moved(t, s, p, Relocate(view, root, p))
    ensures HiddenAway(before, s, items + [Hide(view, root, p)], view, root)
  {
    var target := Relocate(view, root, p);
    var more := items + [Hide(view, root, p)];
    MoreItems(items, view, root, p);
    RelocateWithin(view, root, p, p);
    ApartDeeper(view, root, p, target);
    forall i, q | 0 <= i < |more| && Within(more[i].hidden, q)
      ensures At(s, q) == At(before, more[i].original + q[|more[i].hidden|..])
    {
      if i < |items| {
        HiddenApart(items, view, root, p, i);
        ApartBelow(items[i].hidden, target, q);
        ApartBelow(items[i].hidden, p, q);
      } else {
        StashedFrom(before, t, items, view, root, p, q);
      }
    }
    forall i, q | 0 <= i < |more| && Within(more[i].original, q) ensures q !in s {
      assert At(s, q) == At(s, q);
      if i < |items| {
        HiddenApart(items, view, root, p, i);
        ApartBelow(items[i].original, target, q);
      } else {
        ApartBelow(p, target, q);
      }
    }
    forall q | !Covered(more, q) && !Within(root, q) && !Within(q, root) ensures At(s, q) == At(before, q) {
      if Within(target, q) { WithinTransitive(root, target, q); }
    }
  }

  /** What is moved comes unchanged from the tree before anything was hidden. */
  lemma StashedFrom(before: Tree, t: Tree, items: seq<Hidden>, view: string, root: string, p: string, q: string)
    requires Roots(view, root) && ElseSame(before, t, items, root)
    requires Ancestor(view, p) && forall i :: 0 <= i < |items| ==> Apart(items[i].original, p)
    requires Within(Relocate(view, root, p), q)
    ensures var r := p + q[|Relocate(view, root, p)|..]; At(t, r) == At(before, r)
  {
    RelocateWithin(view, root, p, p);
    MoveKeyBack(Relocate(view, root, p), p, q);
    var r := MoveKey(Relocate(view, root, p), p, q);
    WithinTransitive(view, p, r);
    ApartBelow(view, root, r);
    if Within(r, root) { WithinTransitive(view, r, root); }
    forall i | 0 <= i < |items| ensures !Within(items[i].original, r) {
      ApartBelow(p, items[i].original, r);
    }
  }

  // -- Hiding --------------------------------------------------------------------------

  const ByLength := (a: string, b: string) => |a| < |b|

  /** Shorter paths first. */
  function ShortestFirst(paths: seq<string>): (r: seq<string>)
    ensures forall x :: x in r <==> x in paths
    ensures forall i, j :: 0 <= i < j < |r| ==> |r[i]| <= |r[j]|
  {
    assert Order.Ordering(ByLength);
    Order.SortMembers(paths, ByLength);
    var r := Order.Sort(paths, ByLength);
    assert forall i, j :: 0 <= i < j < |r| ==> !ByLength(r[j], r[i]);
    r
  }

  lemma NothingHidden(before: Tree, now: Tree, view: string, root: string)
    requires MadeDirs(before, now, root, MODE)
    ensures HiddenAway(before, now, [], view, root)
  {
  }

  /** Move one path to its hidden place. */
  method HideOne(fs: FileSystem, view: string, root: string, items: seq<Hidden>, path: string, ghost before: Tree)
    returns (ok: bool)
    requires fs.Valid() && Roots(view, root) && HiddenAway(before, fs.tree, items, view, root)
    requires Ancestor(view, path) && path in fs.tree
    requires forall i :: 0 <= i < |items| ==> Apart(items[i].original, path)
    modifies fs
    ensures fs.Valid()
    ensures ok ==> HiddenAway(before, fs.tree, items + [Hide(view, root, path)], view, root)
    ensures old(fs.faults) <= fs.faults && (ok ==> fs.faults == old(fs.faults))
    ensures Fresh(old(fs.tree), items, root) ==> (ok <==> fs.faults == old(fs.faults))
    ensures Fresh(old(fs.tree), items, root) && ok ==> Fresh(fs.tree, items + [Hide(view, root, path)], root)
  {
    var target := Relocate(view, root, path);
    InsideRoots(view, root, path);
    hide HiddenAway, MadeDirs, Moved, Fresh, WayIsClear, CanRename;
    ghost var t := fs.tree;
    if Fresh(t, items, root) { FreshIsFree(before, t, items, view, root, path); }
    ok := fs.MkdirAll(Dir(target), MODE);
    if !ok { return; }
    WayMade(before, t, fs.tree, items, view, root, path, Dir(target));
    assert At(fs.tree, path) == At(t, path);
    ghost var s := fs.tree;
    if Fresh(t, items, root) { FreeStays(t, s, path, target); }
    ok := fs.Rename(path, target);
    if ok { OneMoreHidden(before, s, fs.tree, items, view, root, path); }
    if ok && Fresh(t, items, root) { FreshMore(t, s, fs.tree, items, view, root, path); }
  }

  /** Nothing is below the hidden root but what has been hidden, and directories on the way there. */
  ghost predicate Fresh(t: Tree, items: seq<Hidden>, root: string) {
    && WayIsClear(t, root)
    && forall q :: q in t && Within(root, q) ==>
         (exists i :: 0 <= i < |items| && Within(items[i].hidden, q))
         || (t[q].Directory? && (q == root || exists i :: 0 <= i < |items| && Ancestor(q, items[i].hidden)))
  }

  /** A tree in which the hidden root can be made and is not there yet. */
  ghost predicate FreshRoot(t: Tree, root: string) {
    WayIsClear(t, root) && forall q :: q in t ==> !Within(root, q)
  }

  lemma FreshAtFirst(t: Tree, s: Tree, root: string)
    requires FreshRoot(t, root) && MadeDirs(t, s, root, MODE)
    ensures Fresh(s, [], root)
  {
    forall q | q in s && Within(root, q) ensures q == root && s[q].Directory? {
      assert At(s, q) != None && (q in t <==> At(t, q) != None);
      if Within(q, root) { assert q == root; }
    }
    assert forall a :: a in s ==> At(s, a) != None;
  }

  /** Then nothing is in the way of one more path. */
  lemma FreshIsFree(before: Tree, t: Tree, items: seq<Hidden>, view: string, root: string, p: string)
    requires Roots(view, root) && HiddenAway(before, t, items, view, root) && Fresh(t, items, root)
    requires Ancestor(view, p) && forall i :: 0 <= i < |items| ==> Apart(items[i].original, p)
    ensures var target := Relocate(view, root, p);
      target != "" && WayIsClear(t, Dir(target)) && forall q :: q in t ==> !Within(target, q)
  {
    var target := Relocate(view, root, p);
    InsideRoots(view, root, p);
    forall i | 0 <= i < |items| ensures Apart(items[i].hidden, target) { HiddenApart(items, view, root, p, i); }
    hide Relocate;
    forall q | q in t ensures !Within(target, q) {
      if Within(target, q) {
        WithinTransitive(root, target, q);
        forall i | 0 <= i < |items| ensures !Within(items[i].hidden, q) && !Ancestor(q, items[i].hidden) {
          ApartBelow(target, items[i].hidden, q);
          if Ancestor(q, items[i].hidden) { WithinTransitive(target, q, items[i].hidden); }
        }
      }
    }
    forall a | a != "" && Within(a, Dir(target)) && a in t ensures t[a].Directory? {
      WithinTransitive(a, Dir(target), target);
      OneBranch(a, root, target);
      if Within(root, a) {
        forall i | 0 <= i < |items| ensures !Within(items[i].hidden, a) {
          if Within(items[i].hidden, a) { WithinTransitive(items[i].hidden, a, target); }
        }
      }
    }
  }

  lemma FreeStays(t: Tree, s: Tree, path: string, target: string)
    requires Closed(t) && target != "" && MadeDirs(t, s, Dir(target), MODE) && Apart(path, target)
    requires path in s && forall q :: q in t ==> !Within(target, q)
    ensures CanRename(s, path, target)
  {
    forall q | q in s ensures !Within(target, q) {
      assert At(s, q) != None && (q in t <==> At(t, q) != None);
      if Within(target, q) { OnWay(target, Dir(target), q); }
    }
    assert target !in s by { if target in s { assert Within(target, target); } }
  }

  lemma FreshMore(t: Tree, s: Tree, r: Tree, items: seq<Hidden>, view: string, root: string, p: string)
    requires Roots(view, root) && Ancestor(view, p) && Fresh(t, items, root)
    requires var target := Relocate(view, root, p);
      target != "" && MadeDirs(t, s, Dir(target), MODE) && Moved(s, r, p, target)
    ensures Fresh(r, items + [Hide(view, root, p)], root)
  {
    var target, more := Relocate(view, root, p), items + [Hide(view, root, p)];
    InsideRoots(view, root, p);
    hide Relocate;
    assert more[|items|].hidden == target && forall i :: 0 <= i < |items| ==> more[i] == items[i];
    forall q | q in r && Within(root, q) && !Within(target, q)
      ensures (exists i :: 0 <= i < |more| && Within(more[i].hidden, q))
        || (r[q].Directory? && (q == root || exists i :: 0 <= i < |more| && Ancestor(q, more[i].hidden))) {
      if Within(p, q) { WithinTransitive(view, p, q); ApartBelow(view, root, q); }
      assert At(r, q) == At(s, q);
      OnWay(target, Dir(target), q);
      if q in t {
        assert At(r, q) == At(t, q);
        if i :| 0 <= i < |items| && Within(items[i].hidden, q) { assert Within(more[i].hidden, q); }
        if i :| 0 <= i < |items| && Ancestor(q, items[i].hidden) { assert Ancestor(q, more[i].hidden); }
      } else {
        assert At(t, q) == None;
        assert Ancestor(q, more[|items|].hidden);
      }
    }
    forall a | a != "" && Within(a, root) && a in r ensures r[a].Directory? {
      if Within(target, a) { WithinTransitive(target, a, root); }
      if Within(p, a) { WithinTransitive(view, p, a); WithinTransitive(view, a, root); }
      assert At(r, a) == At(s, a);
      assert a in t <==> At(t, a) != None;
    }
  }

  /** Is the path inside something that is hidden already? */
  method Nested(items: seq<Hidden>, path: string) returns (nested: bool)
    ensures nested <==> Covered(items, path)
  {
    for i := 0 to |items|
      invariant !Covered(items[..i], path)
    {
      if Within(items[i].original, path) { return true; }
      assert forall k :: 0 <= k < i + 1 ==> items[..i + 1][k] == items[k];
      assert forall k :: 0 <= k < i ==> items[..i][k] == items[k];
    }
    assert items[..|items|] == items;
    return false;
  }

  /** Hide one denied path, unless it is not there or already hidden with a directory above it. */
  method HideNext(fs: FileSystem, view: string, root: string, items: seq<Hidden>, path: string, ghost before: Tree)
    returns (more: Option<seq<Hidden>>)
    requires fs.Valid() && Roots(view, root) && HiddenAway(before, fs.tree, items, view, root)
    requires forall i :: 0 <= i < |items| ==> |items[i].original| <= |path|
    modifies fs
    ensures fs.Valid()
    ensures more.Some? ==>
      && HiddenAway(before, fs.tree, more.value, view, root)
      && Ancestor(view, path) && Accounted(before, more.value, path)
      && (more.value == items || more.value == items + [Hide(view, root, path)])
    ensures old(fs.faults) <= fs.faults && (more.Some? ==> fs.faults == old(fs.faults))
    ensures Fresh(old(fs.tree), items, root) ==>
      && (more.Some? <==> Ancestor(view, path) && fs.faults == old(fs.faults))
      && (more.Some? ==> Fresh(fs.tree, more.value, root))
  {
    hide HiddenAway, Roots, Fresh;
    if !Ancestor(view, path) { return None; }
    var readable := fs.Works();
    if !readable { return None; }
    if path !in fs.tree {
      AbsentIsAccounted(before, fs.tree, items, view, root, path);
      return Some(items);
    }
    var nested := Nested(items, path);
    if nested { return Some(items); }
    LongerIsApart(items, path);
    var ok := HideOne(fs, view, root, items, path, before);
    if !ok { return None; }
    CoveredMore(items, Hide(view, root, path));
    return Some(items + [Hide(view, root, path)]);
  }

  /** Every path up to the nth is accounted for, and nothing hidden is longer than what is to come. */
  ghost predicate Progressed(before: Tree, items: seq<Hidden>, view: string, sorted: seq<string>, n: nat)
    requires n <= |sorted|
  {
    && (forall k :: 0 <= k < n ==> Ancestor(view, sorted[k]) && Accounted(before, items, sorted[k]))
    && (forall j, k :: 0 <= j < |items| && n <= k < |sorted| ==> |items[j].original| <= |sorted[k]|)
    && forall j :: 0 <= j < |items| ==> items[j].original in sorted
  }

  lemma Progress(before: Tree, items: seq<Hidden>, more: seq<Hidden>, view: string, root: string,
                 sorted: seq<string>, n: nat)
    requires n < |sorted| && Progressed(before, items, view, sorted, n)
    requires forall i, j :: 0 <= i < j < |sorted| ==> |sorted[i]| <= |sorted[j]|
    requires Ancestor(view, sorted[n]) && Accounted(before, more, sorted[n])
    requires more == items || more == items + [Hide(view, root, sorted[n])]
    ensures Progressed(before, more, view, sorted, n + 1)
  {
    CoveredMore(items, Hide(view, root, sorted[n]));
  }

  /** The paths one by one, shorter ones first. */
  method HideAll(fs: FileSystem, view: string, root: string, sorted: seq<string>, ghost before: Tree)
    returns (hidden: Option<seq<Hidden>>)
    requires fs.Valid() && Roots(view, root) && HiddenAway(before, fs.tree, [], view, root)
    requires forall i, j :: 0 <= i < j < |sorted| ==> |sorted[i]| <= |sorted[j]|
    modifies fs
    ensures fs.Valid()
    ensures hidden.Some? ==>
      HiddenAway(before, fs.tree, hidden.value, view, root) &&
      Progressed(before, hidden.value, view, sorted, |sorted|)
    ensures old(fs.faults) <= fs.faults && (hidden.Some? ==> fs.faults == old(fs.faults))
    ensures Fresh(old(fs.tree), [], root) ==>
      (hidden.Some? <==> fs.faults == old(fs.faults) && forall p :: p in sorted ==> Ancestor(view, p))
  {
    hide Fresh, HiddenAway, Roots, Covered, Accounted, Ancestor;
    var items: seq<Hidden> := [];
    for i := 0 to |sorted|
      invariant fs.Valid() && HiddenAway(before, fs.tree, items, view, root)
      invariant Progressed(before, items, view, sorted, i) && fs.faults == old(fs.faults)
      invariant Fresh(old(fs.tree), [], root) ==> Fresh(fs.tree, items, root)
    {
      assert sorted[i] in sorted;
      var more := HideNext(fs, view, root, items, sorted[i], before);
      if more.None? { return None; }
      Progress(before, items, more.value, view, root, sorted, i);
      items := more.value;
    }
    return Some(items);
  }

  /**
   * hideNativePaths. On success every denied path is gone from the view with
   * everything below it, no hidden path lies inside another, each hidden subtree is
   * what the original was, and the rest of the view is untouched.
   */
  method HidePaths(fs: FileSystem, view: string, root: string, paths: seq<string>) returns (hidden: Option<seq<Hidden>>)
    requires fs.Valid() && Roots(view, root)
    modifies fs
    ensures fs.Valid()
    ensures hidden.Some? ==> HiddenAway(old(fs.tree), fs.tree, hidden.value, view, root)
    ensures hidden.Some? ==> forall p, q :: p in paths && Within(p, q) ==> q !in fs.tree
    ensures hidden.Some? ==> forall p :: p in paths ==> Ancestor(view, p)
    ensures hidden.Some? ==> forall j :: 0 <= j < |hidden.value| ==> hidden.value[j].original in paths
    ensures old(fs.faults) <= fs.faults && (hidden.Some? ==> fs.faults == old(fs.faults))
    ensures FreshRoot(old(fs.tree), root) ==>
      (hidden.Some? <==> fs.faults == old(fs.faults) && forall p :: p in paths ==> Ancestor(view, p))
  {
    hide Fresh, FreshRoot, WayIsClear, HiddenAway, Roots, Covered, Accounted, Within, Ancestor, MakingDirs, MadeDirs;
    ghost var before := fs.tree;
    if FreshRoot(before, root) { FreshIsClear(before, root); }
    var made := fs.MkdirAll(root, MODE);
    if !made { return None; }
    if FreshRoot(before, root) { FreshAtFirst(before, fs.tree, root); }
    var sorted := ShortestFirst(paths);
    NothingHidden(before, fs.tree, view, root);
    hidden := HideAll(fs, view, root, sorted, before);
    if hidden.Some? { AllAbsent(before, fs.tree, hidden.value, view, root, sorted); }
  }

  lemma FreshIsClear(t: Tree, root: string)
    requires FreshRoot(t, root)
    ensures WayIsClear(t, root)
  {
  }

  /** A denied path is hidden, or was never there. */
  predicate Accounted(before: Tree, items: seq<Hidden>, p: string) {
    Covered(items, p) || p !in before
  }

  lemma OutsideRoot(view: string, root: string, p: string)
    requires Roots(view, root) && Ancestor(view, p)
    ensures !Within(root, p) && !Within(p, root)
  {
    ApartBelow(view, root, p);
    if Within(p, root) { WithinTransitive(view, p, root); }
  }

  lemma AbsentIsAccounted(before: Tree, now: Tree, items: seq<Hidden>, view: string, root: string, p: string)
    requires Roots(view, root) && HiddenAway(before, now, items, view, root) && Ancestor(view, p) && p !in now
    ensures Accounted(before, items, p)
  {
    OutsideRoot(view, root, p);
    if !Covered(items, p) { assert At(now, p) == At(before, p); }
  }

  lemma LongerIsApart(items: seq<Hidden>, p: string)
    requires !Covered(items, p) && forall i :: 0 <= i < |items| ==> |items[i].original| <= |p|
    ensures forall i :: 0 <= i < |items| ==> Apart(items[i].original, p)
  {
  }

  lemma CoveredMore(items: seq<Hidden>, item: Hidden)
    ensures forall q :: Covered(items + [item], q) <==> Covered(items, q) || Within(item.original, q)
  {
    var more := items + [item];
    forall q ensures Covered(more, q) <==> Covered(items, q) || Within(item.original, q) {
      if Covered(items, q) {
        var i :| 0 <= i < |items| && Within(items[i].original, q);
        assert more[i] == items[i];
      }
      if Within(item.original, q) { assert more[|items|] == item; }
    }
  }

  lemma AllAbsent(before: Tree, now: Tree, items: seq<Hidden>, view: string, root: string, paths: seq<string>)
    requires Roots(view, root) && HiddenAway(before, now, items, view, root) && Closed(now)
    requires forall p :: p in paths ==> Ancestor(view, p) && Accounted(before, items, p)
    ensures forall p, q :: p in paths && Within(p, q) ==> q !in now
  {
    forall p, q | p in paths && Within(p, q) ensures q !in now {
      OutsideRoot(view, root, p);
      if !Covered(items, p) { assert At(now, p) == At(before, p); }
      assert p !in now;
    }
  }

  // -- Restoring -----------------------------------------------------------------------

  /** The path lies in an original that was there and has been put back, counting from the last. */
  predicate PutBack(items: seq<Hidden>, before: Tree, from: nat, q: string) {
    exists j :: from <= j < |items| && items[j].original in before && Within(items[j].original, q)
  }

  /** A directory on the way to an original that has been put back. */
  predicate OnTheWay(items: seq<Hidden>, from: nat, q: string) {
    exists j :: from <= j < |items| && Ancestor(q, items[j].original)
  }

  /** What has been put back is what it was before hiding. */
  ghost predicate Back(before: Tree, now: Tree, items: seq<Hidden>, from: nat) {
    forall j, q :: from <= j < |items| && items[j].original in before && Within(items[j].original, q)
      ==> At(now, q) == At(before, q)
  }

  /** Everything else is as the agent left it, apart from directories that had to be made again. */
  ghost predicate AsLeft(before: Tree, agent: Tree, now: Tree, items: seq<Hidden>, root: string, from: nat) {
    forall q :: q != "" && !Within(root, q) && !PutBack(items, before, from, q) ==>
      At(now, q) == At(agent, q)
        || (At(agent, q) == None && OnTheWay(items, from, q) && At(now, q) == Some(Directory(MODE)))
  }

  ghost predicate Restored(before: Tree, agent: Tree, now: Tree, items: seq<Hidden>, root: string, from: nat)
    requires from <= |items|
  {
    Stashed(before, now, items[..from]) && Back(before, now, items, from)
      && AsLeft(before, agent, now, items, root, from)
  }

  /** Where each item's places lie. */
  lemma Places(items: seq<Hidden>, view: string, root: string, i: nat, j: nat)
    requires Roots(view, root) && Items(items, view, root) && i < |items| && j < |items|
    ensures Ancestor(root, items[i].hidden) && Ancestor(view, items[i].original)
      && Apart(items[i].original, items[j].hidden)
    ensures i != j ==> Apart(items[i].original, items[j].original) && Apart(items[i].hidden, items[j].hidden)
  {
    InsideRoots(view, root, items[i].original);
    InsideRoots(view, root, items[j].original);
    ApartDeeper(view, root, items[i].original, items[j].hidden);
    if i != j {
      RelocateWithin(view, root, items[i].original, items[j].original);
      RelocateWithin(view, root, items[j].original, items[i].original);
    }
  }

  /** t, with the agent's version of an original removed, the way to it made, and the hidden subtree moved back. */
  ghost predicate MovedBack(t: Tree, s: Tree, item: Hidden) {
    forall q :: At(s, q) ==
      if Within(item.original, q) then At(t, item.hidden + q[|item.original|..])
      else if Within(item.hidden, q) then None
      else if Ancestor(q, item.original) && q != "" && q !in t then Some(Directory(MODE))
      else At(t, q)
  }

  lemma ThreeSteps(t: Tree, a: Tree, b: Tree, s: Tree, item: Hidden)
    requires item.original != "" && Apart(item.original, item.hidden)
    requires Removed(t, a, item.original) && MadeDirs(a, b, Dir(item.original), MODE)
      && Moved(b, s, item.hidden, item.original)
    ensures MovedBack(t, s, item)
  {
    var d := Dir(item.original);
    forall q ensures At(s, q) ==
      if Within(item.original, q) then At(t, item.hidden + q[|item.original|..])
      else if Within(item.hidden, q) then None
      else if Ancestor(q, item.original) && q != "" && q !in t then Some(Directory(MODE))
      else At(t, q)
    {
      OnWay(item.original, d, q);
      assert q in t <==> At(t, q) != None;
      assert q in a <==> At(a, q) != None;
      if Within(item.original, q) {
        MoveKeyBack(item.original, item.hidden, q);
        var r := MoveKey(item.original, item.hidden, q);
        ApartBelow(item.hidden, item.original, r);
        OnWay(item.original, d, r);
        NotOnTheWay(item.hidden, item.original, d, r);
      }
    }
  }

  /** The ancestors of a path are its directory and that directory's ancestors. */
  lemma OnWay(p: string, d: string, q: string)
    requires p != "" && d == Dir(p)
    ensures Within(q, d) <==> Ancestor(q, p)
    ensures Ancestor(q, p) ==> !Within(p, q)
  {
    if Within(q, d) && q != d { AncestorTransitive(q, d, p); }
  }

  lemma OneMoreBack(before: Tree, agent: Tree, t: Tree, s: Tree, items: seq<Hidden>, view: string, root: string, i: nat)
    requires Roots(view, root) && Items(items, view, root) && i < |items|
    requires Restored(before, agent, t, items, root, i + 1) && MovedBack(t, s, items[i]) && items[i].hidden in t
    ensures Restored(before, agent, s, items, root, i)
  {
    StashStays(before, t, s, items, view, root, i);
    BackStays(before, t, s, items, view, root, i);
    AsLeftStays(before, agent, t, s, items, view, root, i);
  }

  lemma StashStays(before: Tree, t: Tree, s: Tree, items: seq<Hidden>, view: string, root: string, i: nat)
    requires Roots(view, root) && Items(items, view, root) && i < |items|
    requires Stashed(before, t, items[..i + 1]) && MovedBack(t, s, items[i])
    ensures Stashed(before, s, items[..i])
    ensures items[i].hidden in t ==> items[i].original in before
  {
    forall j, q | 0 <= j < i && Within(items[j].hidden, q)
      ensures At(s, q) == At(before, items[j].original + q[|items[j].hidden|..]) {
      Places(items, view, root, i, j);
      assert items[..i + 1][j] == items[j];
      ApartBelow(items[j].hidden, items[i].original, q);
      ApartBelow(items[j].hidden, items[i].hidden, q);
      if Ancestor(q, items[i].original) { WithinTransitive(items[j].hidden, q, items[i].original); }
    }
    assert items[..i + 1][i] == items[i];
    assert items[i].original + items[i].hidden[|items[i].hidden|..] == items[i].original;
    assert At(t, items[i].hidden) == At(before, items[i].original);
  }

  lemma BackStays(before: Tree, t: Tree, s: Tree, items: seq<Hidden>, view: string, root: string, i: nat)
    requires Roots(view, root) && Items(items, view, root) && i < |items|
    requires Stashed(before, t, items[..i + 1]) && Back(before, t, items, i + 1) && MovedBack(t, s, items[i])
    ensures Back(before, s, items, i)
  {
    forall j, q | i <= j < |items| && items[j].original in before && Within(items[j].original, q)
      ensures At(s, q) == At(before, q) {
      Places(items, view, root, i, j);
      Places(items, view, root, j, i);
      if j == i {
        MoveKeyBack(items[i].original, items[i].hidden, q);
        assert items[..i + 1][i] == items[i];
        assert Within(items[i].hidden, MoveKey(items[i].original, items[i].hidden, q));
      } else {
        ApartBelow(items[j].original, items[i].original, q);
        ApartBelow(items[j].original, items[i].hidden, q);
        if Ancestor(q, items[i].original) { WithinTransitive(items[j].original, q, items[i].original); }
      }
    }
  }

  lemma AsLeftStays(before: Tree, agent: Tree, t: Tree, s: Tree, items: seq<Hidden>, view: string, root: string, i: nat)
    requires Roots(view, root) && Items(items, view, root) && i < |items| && items[i].original in before
    requires AsLeft(before, agent, t, items, root, i + 1) && MovedBack(t, s, items[i])
    ensures AsLeft(before, agent, s, items, root, i)
  {
    Places(items, view, root, i, i);
    forall q | q != "" && !Within(root, q) && !PutBack(items, before, i, q)
      ensures At(s, q) == At(agent, q)
        || (At(agent, q) == None && OnTheWay(items, i, q) && At(s, q) == Some(Directory(MODE)))
    {
      assert !PutBack(items, before, i + 1, q);
      assert !Within(items[i].original, q);
      if Within(items[i].hidden, q) { WithinTransitive(root, items[i].hidden, q); }
      assert OnTheWay(items, i + 1, q) ==> OnTheWay(items, i, q);
    }
  }

  /** What is on the way to a path is not below it. */
  lemma RemovedIsClear(t: Tree, a: Tree, p: string)
    requires p != "" && Removed(t, a, p)
    ensures WayIsClear(a, Dir(p)) <==> WayIsClear(t, Dir(p))
  {
    forall q | Within(q, Dir(p)) ensures At(a, q) == At(t, q) { OnWay(p, Dir(p), q); }
    assert forall q :: (q in a <==> At(a, q) != None) && (q in t <==> At(t, q) != None);
  }

  lemma EmptyPlace(t: Tree, a: Tree, b: Tree, item: Hidden)
    requires item.original != "" && item.hidden in b && Apart(item.original, item.hidden)
    requires Removed(t, a, item.original) && MadeDirs(a, b, Dir(item.original), MODE)
    ensures CanRename(b, item.hidden, item.original)
  {
    OnWay(item.original, Dir(item.original), item.original);
    assert At(b, item.original) == None;
  }

  /** A hidden subtree that is there can go back: the way to its place is clear. */
  ghost predicate Reopens(t: Tree, item: Hidden) {
    item.original != "" && (item.hidden in t ==> WayIsClear(t, Dir(item.original)))
  }

  /** Putting one subtree back leaves the ways to the others as they were. */
  lemma ReopensStays(t: Tree, s: Tree, items: seq<Hidden>, view: string, root: string, i: nat, j: nat)
    requires Roots(view, root) && Items(items, view, root) && i < |items| && j < |items| && i != j
    requires MovedBack(t, s, items[i])
    ensures Reopens(s, items[j]) <==> Reopens(t, items[j])
  {
    Places(items, view, root, i, j);
    Places(items, view, root, j, i);
    var d := Dir(items[j].original);
    forall a | a != "" && Within(a, d)
      ensures a in s && !s[a].Directory? <==> a in t && !t[a].Directory? {
      WithinTransitive(a, d, items[j].original);
      if Within(items[i].original, a) { WithinTransitive(items[i].original, a, items[j].original); }
      if Within(items[i].hidden, a) { WithinTransitive(items[i].hidden, a, items[j].original); }
      assert (a in s <==> At(s, a) != None) && (a in t <==> At(t, a) != None);
    }
    var h := items[j].hidden;
    assert (h in s <==> At(s, h) != None) && (h in t <==> At(t, h) != None);
  }

  /** Put one hidden subtree back in place of whatever the agent left there. */
  method RestoreOne(fs: FileSystem, item: Hidden) returns (ok: bool)
    requires fs.Valid() && item.original != "" && item.hidden in fs.tree && Apart(item.original, item.hidden)
    modifies fs
    ensures fs.Valid()
    ensures ok ==> MovedBack(old(fs.tree), fs.tree, item)
    ensures old(fs.faults) <= fs.faults
    ensures ok <==> fs.faults == old(fs.faults) && WayIsClear(old(fs.tree), Dir(item.original))
  {
    hide WayIsClear, CanRename, Closed;
    ghost var t := fs.tree;
    ok := fs.RemoveAll(item.original);
    if !ok { return; }
    ghost var a := fs.tree;
    RemovedIsClear(t, a, item.original);
    ok := fs.MkdirAll(Dir(item.original), MODE);
    if !ok { return; }
    ghost var b := fs.tree;
    assert item.hidden in fs.tree by {
      ApartBelow(item.hidden, item.original, item.hidden);
      OnWay(item.original, Dir(item.original), item.hidden);
      assert At(a, item.hidden) == At(t, item.hidden) && At(b, item.hidden) == At(a, item.hidden);
    }
    EmptyPlace(t, a, b, item);
    ok := fs.Rename(item.hidden, item.original);
    if ok { ThreeSteps(t, a, b, fs.tree, item); }
  }

  lemma NothingRestored(before: Tree, agent: Tree, items: seq<Hidden>, root: string)
    requires Stashed(before, agent, items)
    ensures Restored(before, agent, agent, items, root, |items|)
  {
    assert items[..|items|] == items;
  }

  lemma AllRestored(before: Tree, agent: Tree, t: Tree, items: seq<Hidden>, root: string)
    requires Restored(before, agent, t, items, root, 0)
    ensures Back(before, t, items, 0) && AsLeft(before, agent, t, items, root, 0)
  {
  }

  /** One iteration: the item's hidden subtree, if there is one, goes back to its place. */
  method RestoreNext(fs: FileSystem, items: seq<Hidden>, view: string, root: string, i: nat, ghost before: Tree,
                     ghost agent: Tree) returns (ok: bool)
    requires fs.Valid() && Roots(view, root) && Items(items, view, root) && i < |items|
    requires Restored(before, agent, fs.tree, items, root, i + 1)
    modifies fs
    ensures fs.Valid() && (ok ==> Restored(before, agent, fs.tree, items, root, i))
    ensures old(fs.faults) <= fs.faults && (ok <==> fs.faults == old(fs.faults) && Reopens(old(fs.tree), items[i]))
    ensures ok ==> forall j :: 0 <= j < i ==> (Reopens(fs.tree, items[j]) <==> Reopens(old(fs.tree), items[j]))
  {
    hide Back, AsLeft, Roots, Stashed, Items, Restored, MovedBack, WayIsClear;
    ghost var t := fs.tree;
    Places(items, view, root, i, i);
    var readable := fs.Works();
    if !readable { return false; }
    if items[i].hidden !in fs.tree {
      NothingToRestore(before, agent, t, items, root, i);
      return true;
    }
    ok := RestoreOne(fs, items[i]);
    if ok {
      OneMoreBack(before, agent, t, fs.tree, items, view, root, i);
      forall j | 0 <= j < i ensures Reopens(fs.tree, items[j]) <==> Reopens(t, items[j]) {
        ReopensStays(t, fs.tree, items, view, root, i, j);
      }
    }
  }

  /** restoreNativePaths, the last hidden path first. */
  method RestorePaths(fs: FileSystem, items: seq<Hidden>, view: string, root: string,
                      ghost before: Tree) returns (ok: bool)
    requires fs.Valid() && Roots(view, root) && Items(items, view, root) && Stashed(before, fs.tree, items)
    modifies fs
    ensures fs.Valid()
    ensures ok ==> Back(before, fs.tree, items, 0) && AsLeft(before, old(fs.tree), fs.tree, items, root, 0)
    ensures old(fs.faults) <= fs.faults
    ensures ok <==> fs.faults == old(fs.faults) && forall j :: 0 <= j < |items| ==> Reopens(old(fs.tree), items[j])
  {
    hide Reopens, Roots, Items, Stashed, Back, AsLeft, Restored, Closed;
    ghost var agent := fs.tree;
    NothingRestored(before, agent, items, root);
    var i := |items|;
    while i > 0
      invariant 0 <= i <= |items| && fs.Valid() && Restored(before, agent, fs.tree, items, root, i)
      invariant fs.faults == old(fs.faults) && forall j :: i <= j < |items| ==> Reopens(agent, items[j])
      invariant forall j :: 0 <= j < i ==> (Reopens(fs.tree, items[j]) <==> Reopens(agent, items[j]))
    {
      ok := RestoreNext(fs, items, view, root, i - 1, before, agent);
      if !ok { return; }
      i := i - 1;
    }
    AllRestored(before, agent, fs.tree, items, root);
    return true;
  }

  /** An item whose hidden place is empty stands for an original that was never there. */
  lemma NothingToRestore(before: Tree, agent: Tree, t: Tree, items: seq<Hidden>, root: string, i: nat)
    requires i < |items| && Restored(before, agent, t, items, root, i + 1) && items[i].hidden !in t
    ensures Restored(before, agent, t, items, root, i)
  {
    assert items[..i + 1][i] == items[i];
    assert items[i].original + items[i].hidden[|items[i].hidden|..] == items[i].original;
    assert At(t, items[i].hidden) == At(before, items[i].original);
    assert forall j :: 0 <= j < i ==> items[..i][j] == items[..i + 1][j];
    forall q | !PutBack(items, before, i, q) ensures !PutBack(items, before, i + 1, q) {}
    forall q | OnTheWay(items, i + 1, q) ensures OnTheWay(items, i, q) {}
  }

  // -- A whole native run ---------------------------------------------------------------

  /** The agent may do anything inside the view, and nothing outside it. */
  ghost predicate StaysInside(agent: Tree -> Tree, view: string) {
    forall t :: Closed(t) ==> Closed(agent(t)) && forall q :: !Within(view, q) ==> At(agent(t), q) == At(t, q)
  }

  method RunAgent(fs: FileSystem, agent: Tree -> Tree, ghost view: string)
    requires fs.Valid() && StaysInside(agent, view)
    modifies fs
    ensures fs.Valid() && fs.tree == agent(old(fs.tree)) && fs.faults == old(fs.faults)
  {
    fs.tree := agent(fs.tree);
    fs.history := fs.history + [fs.tree];
  }

  /**
   * Hide, run, restore. Whatever the agent does in the view, each hidden subtree is
   * in the end exactly as it was, and every other path of the view is as the agent
   * left it, unless it is a missing directory that leads to a hidden path.
   */
  method HideRunRestore(fs: FileSystem, view: string, root: string, paths: seq<string>, agent: Tree -> Tree)
    returns (ok: bool, items: seq<Hidden>, ghost left: Tree)
    requires fs.Valid() && Roots(view, root) && StaysInside(agent, view)
    modifies fs
    ensures fs.Valid()
    ensures ok ==> Items(items, view, root) && forall p :: p in paths ==> Covered(items, p) || p !in old(fs.tree)
    ensures ok ==> forall j :: 0 <= j < |items| ==> items[j].original in paths
    ensures ok ==> Back(old(fs.tree), fs.tree, items, 0) && AsLeft(old(fs.tree), left, fs.tree, items, root, 0)
    ensures ok ==> exists hidden :: HiddenAway(old(fs.tree), hidden, items, view, root) && left == agent(hidden)
    ensures old(fs.faults) <= fs.faults
    ensures FreshRoot(old(fs.tree), root) ==>
      (ok <==>
        && fs.faults == old(fs.faults) && (forall p :: p in paths ==> Ancestor(view, p))
        && forall j :: 0 <= j < |items| ==> Reopens(left, items[j]))
  {
    hide FreshRoot, Reopens, Covered, Back, AsLeft, Stashed, Gone, ElseSame, Roots;
    ghost var before := fs.tree;
    left := fs.tree;
    var hidden := HidePaths(fs, view, root, paths);
    if hidden.None? { return false, [], left; }
    items := hidden.value;
    ghost var away := fs.tree;
    AllAccounted(before, away, items, view, root, paths);
    RunAgent(fs, agent, view);
    left := fs.tree;
    StashOutside(before, away, left, items, view, root);
    ok := RestorePaths(fs, items, view, root, before);
  }

  lemma AllAccounted(before: Tree, now: Tree, items: seq<Hidden>, view: string, root: string, paths: seq<string>)
    requires Roots(view, root) && HiddenAway(before, now, items, view, root)
    requires forall p :: p in paths ==> Ancestor(view, p) && p !in now
    ensures forall p :: p in paths ==> Covered(items, p) || p !in before
  {
    forall p | p in paths ensures Covered(items, p) || p !in before {
      AbsentIsAccounted(before, now, items, view, root, p);
    }
  }

  lemma StashOutside(before: Tree, away: Tree, left: Tree, items: seq<Hidden>, view: string, root: string)
    requires Roots(view, root) && HiddenAway(before, away, items, view, root)
    requires forall q :: !Within(view, q) ==> At(left, q) == At(away, q)
    ensures Stashed(before, left, items)
  {
    forall i, q | 0 <= i < |items| && Within(items[i].hidden, q)
      ensures At(left, q) == At(before, items[i].original + q[|items[i].hidden|..])
    {
      Places(items, view, root, i, i);
      WithinTransitive(root, items[i].hidden, q);
      ApartBelow(root, view, q);
    }
  }
}
