// The conflict-checked commit: a three-way comparison of manifests, and the
// ordered mutation of the destination tree that carries the candidate over.
module Acceptance {
  import opened Order
  import opened Tree
  import opened Paths
  import opened Diff

  datatype Report = Report(canApply: bool, changes: seq<Change>, conflicts: seq<string>)

  // -- Check ---------------------------------------------------------------------

  /** Both sides moved away from the base at p. */
  ghost predicate Conflict(base: Tree, destination: Tree, candidate: Tree, p: string) {
    At(base, p) != At(candidate, p) && At(base, p) != At(destination, p)
  }

  /** acceptance.Check. */
  method Check(base: Manifest, destination: Manifest, candidate: Manifest) returns (report: Report)
    ensures ChangesBetween(Tabulate(base.entries), Tabulate(candidate.entries), report.changes)
    ensures forall i, j :: 0 <= i < j < |report.conflicts| ==> !Less(report.conflicts[j], report.conflicts[i])
    ensures forall p :: p in report.conflicts <==>
      Conflict(Tabulate(base.entries), Tabulate(destination.entries), Tabulate(candidate.entries), p)
    ensures report.canApply <==>
      forall p :: !Conflict(Tabulate(base.entries), Tabulate(destination.entries), Tabulate(candidate.entries), p)
  {
    ghost var b, d, c := Tabulate(base.entries), Tabulate(destination.entries), Tabulate(candidate.entries);
    var candidateChanges := Compare(base, candidate);
    var destinationChanges := Compare(base, destination);
    var changed: set<string> := {};
    for i := 0 to |candidateChanges|
      invariant forall p :: p in changed <==> exists j :: 0 <= j < i && candidateChanges[j].path == p
    {
      changed := changed + {candidateChanges[i].path};
    }
    ChangedPaths(b, c, candidateChanges);
    ChangedPaths(b, d, destinationChanges);
    var conflicts: seq<string> := [];
    for i := 0 to |destinationChanges|
      invariant forall p ::
        p in conflicts <==> p in changed && exists j :: 0 <= j < i && destinationChanges[j].path == p
    {
      if destinationChanges[i].path in changed {
        conflicts := conflicts + [destinationChanges[i].path];
      }
    }
    assert forall p :: p in conflicts <==> Conflict(b, d, c, p);
    report := Report(conflicts == [], candidateChanges, SortStrings(conflicts));
    if conflicts != [] { assert Conflict(b, d, c, conflicts[0]); }
  }

  lemma ChangedPaths(left: Tree, right: Tree, cs: seq<Change>)
    requires ChangesBetween(left, right, cs)
    ensures forall p :: (exists j :: 0 <= j < |cs| && cs[j].path == p) <==> At(left, p) != At(right, p)
  {
    forall p ensures (exists j :: 0 <= j < |cs| && cs[j].path == p) <==> At(left, p) != At(right, p) {
      if At(left, p) != At(right, p) {
        var c := ChangeAt(left, right, p).value;
        assert c in cs;
      }
      forall j | 0 <= j < |cs| && cs[j].path == p ensures At(left, p) != At(right, p) {
        assert cs[j] in cs;
      }
    }
  }

  // -- The order Apply works in ----------------------------------------------------

  /** The comparison Apply sorts by: deletions last, otherwise by path. */
  predicate ApplyLess(a: Change, b: Change) {
    if a.kind.Deleted? && !b.kind.Deleted? then false
    else if !a.kind.Deleted? && b.kind.Deleted? then true
    else Less(a.path, b.path)
  }

  /** The same comparison as a single string key. */
  function ApplyKey(c: Change): string {
    (if c.kind.Deleted? then "1" else "0") + c.path
  }

  lemma ApplyLessIsKeyOrder(a: Change, b: Change)
    ensures ApplyLess(a, b) == Less(ApplyKey(a), ApplyKey(b))
  {
    assert ApplyKey(a)[1..] == a.path && ApplyKey(b)[1..] == b.path;
  }

  ghost predicate ApplyOrder(cs: seq<Change>) {
    forall i, j :: 0 <= i < j < |cs| ==> ApplyLess(cs[i], cs[j])
  }

  method SortForApply(changes: seq<Change>) returns (cs: seq<Change>)
    requires PathsIncrease(changes)
    ensures ApplyOrder(cs)
    ensures forall c :: c in cs <==> c in changes
  {
    ApplyOrdering();
    cs := Sort(changes, ApplyLess);
    SortMembers(changes, ApplyLess);
    SortedByKey(changes, cs);
  }

  lemma ApplyOrdering()
    ensures Ordering(ApplyLess)
  {
    hide Less, ApplyLess, ApplyKey;
    LessIsOrdering();
    forall x, y ensures ApplyLess(x, y) == Less(ApplyKey(x), ApplyKey(y)) { ApplyLessIsKeyOrder(x, y); }
  }

  lemma SortedByKey(changes: seq<Change>, cs: seq<Change>)
    requires PathsIncrease(changes) && multiset(cs) == multiset(changes) && Sorted(cs, ApplyLess)
    ensures ApplyOrder(cs)
  {
    forall i, j | 0 <= i < j < |changes| ensures ApplyKey(changes[i]) != ApplyKey(changes[j]) {
      LessIrreflexive(changes[i].path);
      assert ApplyKey(changes[i])[1..] == changes[i].path && ApplyKey(changes[j])[1..] == changes[j].path;
    }
    hide Less, ApplyKey;
    forall i, j | 0 <= i < j < |cs| ensures !Less(ApplyKey(cs[j]), ApplyKey(cs[i])) {
      assert !ApplyLess(cs[j], cs[i]);
      ApplyLessIsKeyOrder(cs[j], cs[i]);
    }
    DistinctKeysIncrease(changes, cs, ApplyKey);
    IncreasingKeys(cs);
  }

  lemma IncreasingKeys(cs: seq<Change>)
    requires forall i, j :: 0 <= i < j < |cs| ==> Less(ApplyKey(cs[i]), ApplyKey(cs[j]))
    ensures ApplyOrder(cs)
  {
    forall i, j | 0 <= i < j < |cs| ensures ApplyLess(cs[i], cs[j]) { ApplyLessIsKeyOrder(cs[i], cs[j]); }
  }

  // -- What one change does, and what the whole list does ---------------------------

  const PARENT_MODE: nat := 0x1ed  // 0o755

  /** The mode copyEntry gives directories it has to create on the way to an entry. */
  function ParentMode(node: Node): nat {
    if node.Directory? then node.mode else PARENT_MODE
  }

  /** The node at q once copyEntry has put node at path in t. */
  function CopyAt(t: Tree, path: string, node: Node, q: string): Option<Node> {
    if q == path then (if node.Directory? && q in t then At(t, q) else Some(node))
    else if q != "" && Ancestor(q, path) && q !in t then Some(Directory(ParentMode(node)))
    else At(t, q)
  }

  ghost predicate Copied(t: Tree, s: Tree, path: string, node: Node) {
    && (forall q :: At(s, q) == CopyAt(t, path, node, q))
    && (node.Directory? || node.File?)
    && (path in t ==> t[path].Directory? == node.Directory?)
  }

  ghost predicate Copying(t: Tree, s: Tree, path: string, node: Node, tmp: string) {
    forall q :: q != tmp ==> At(s, q) == At(t, q) || At(s, q) == CopyAt(t, path, node, q)
  }

  predicate Touches(d: Tree, c: Change, q: string) {
    if c.after.None? then Within(c.path, q)
    else q == c.path || (q != "" && q !in d && Ancestor(q, c.path))
  }

  /** What a change leaves at a path it touches. */
  function Leaves(d: Tree, c: Change, q: string): Option<Node> {
    match c.after
    case None => None
    case Some(node) => CopyAt(d, c.path, node, q)
  }

  ghost predicate TouchedBefore(d: Tree, cs: seq<Change>, k: nat, q: string)
    requires k <= |cs|
  {
    exists j :: 0 <= j < k && Touches(d, cs[j], q)
  }

  /**
   * The node at q after the first k changes: the first of them that touches q
   * decides, and a path that none touches keeps what the destination had.
   */
  ghost function Decided(d: Tree, cs: seq<Change>, k: nat, q: string): (r: Option<Node>)
    requires k <= |cs|
    ensures !TouchedBefore(d, cs, k, q) ==> r == At(d, q)
  {
    if k == 0 || TouchedBefore(d, cs, k - 1, q) || !Touches(d, cs[k - 1], q) then
      if k == 0 then At(d, q) else Decided(d, cs, k - 1, q)
    else Leaves(d, cs[k - 1], q)
  }

  /** A path changes at most once: from then on it holds its final node. */
  lemma {:induction false} DecidedOnce(d: Tree, cs: seq<Change>, k: nat, n: nat, q: string)
    requires k <= n <= |cs|
    ensures TouchedBefore(d, cs, k, q) ==> Decided(d, cs, n, q) == Decided(d, cs, k, q)
    ensures Decided(d, cs, k, q) == At(d, q) || Decided(d, cs, k, q) == Decided(d, cs, n, q)
  {
    if k < n { DecidedOnce(d, cs, k, n - 1, q); }
  }

  // -- Why the order is right ---------------------------------------------------------

  /** A list of changes from base to candidate, in the order Apply uses. */
  ghost predicate Plan(base: Tree, candidate: Tree, cs: seq<Change>) {
    && ApplyOrder(cs)
    && forall c :: c in cs <==> ChangeAt(base, candidate, c.path) == Some(c)
  }

  /** A written path has not been touched before its turn: directories come before their contents. */
  lemma WriteIsFirst(d: Tree, base: Tree, candidate: Tree, cs: seq<Change>, k: nat)
    requires Plan(base, candidate, cs) && k < |cs| && cs[k].after.Some?
    ensures forall j :: 0 <= j < k ==> cs[j].after.Some?
    ensures !TouchedBefore(d, cs, k, cs[k].path)
  {
    assert cs[k] in cs;
    forall j | 0 <= j < k ensures cs[j].after.Some? && !Touches(d, cs[j], cs[k].path) {
      assert ApplyLess(cs[j], cs[k]) && cs[j] in cs;
      var p, w := cs[k].path, cs[j].path;
      LessIrreflexive(p);
      if p != "" && Ancestor(p, w) {
        PrefixIsLess(p, w);
        LessTransitive(p, w, p);
      }
    }
  }

  /** Nothing that was written, and no directory made on the way, lies at or below a deleted path. */
  lemma DeletionIsApart(d: Tree, base: Tree, candidate: Tree, cs: seq<Change>, k: nat, j: nat, q: string)
    requires Plan(base, candidate, cs) && Closed(candidate) && "" !in base
    requires k < |cs| && j < |cs| && cs[k].after.None? && cs[j].after.Some?
    requires Within(cs[k].path, q)
    ensures !Touches(d, cs[j], q)
  {
    assert cs[k] in cs && cs[j] in cs;
    var gone, w := cs[k].path, cs[j].path;
    assert gone in base && gone !in candidate && w in candidate;
    if Touches(d, cs[j], q) {
      if q != w && gone != q { AncestorTransitive(gone, q, w); }
    }
  }

  /** One write step carries the tree from what k changes decide to what k + 1 decide. */
  lemma WriteStep(d: Tree, base: Tree, candidate: Tree, cs: seq<Change>, k: nat, t: Tree, q: string)
    requires Plan(base, candidate, cs) && k < |cs| && cs[k].after.Some?
    requires forall r :: At(t, r) == Decided(d, cs, k, r)
    ensures CopyAt(t, cs[k].path, cs[k].after.value, q) == Decided(d, cs, k + 1, q)
  {
    WriteIsFirst(d, base, candidate, cs, k);
    WrittenStays(d, cs, k, q);
    assert At(t, q) == Decided(d, cs, k, q);
    assert At(t, cs[k].path) == At(d, cs[k].path);
    if TouchedBefore(d, cs, k, q) {
      assert At(t, q).Some?;
    } else {
      assert At(t, q) == At(d, q);
    }
  }

  /** While only writes have happened, every touched path and every old path is there. */
  lemma {:induction false} WrittenStays(d: Tree, cs: seq<Change>, k: nat, q: string)
    requires k <= |cs| && forall j :: 0 <= j < k ==> cs[j].after.Some?
    ensures TouchedBefore(d, cs, k, q) || q in d ==> Decided(d, cs, k, q).Some?
  {
    if k > 0 { WrittenStays(d, cs, k - 1, q); }
  }

  lemma WritesLoseNothing(d: Tree, base: Tree, candidate: Tree, cs: seq<Change>, k: nat, q: string)
    requires Plan(base, candidate, cs) && k < |cs| && cs[k].after.Some? && q in d
    ensures Decided(d, cs, k, q).Some? && Decided(d, cs, k + 1, q).Some?
  {
    WriteIsFirst(d, base, candidate, cs, k);
    WrittenStays(d, cs, k, q);
    WrittenStays(d, cs, k + 1, q);
  }

  /** One deletion step does too. */
  lemma DeleteStep(d: Tree, base: Tree, candidate: Tree, cs: seq<Change>, k: nat, q: string)
    requires Plan(base, candidate, cs) && Closed(candidate) && "" !in base
    requires k < |cs| && cs[k].after.None?
    ensures Decided(d, cs, k + 1, q) == if Within(cs[k].path, q) then None else Decided(d, cs, k, q)
  {
    if Within(cs[k].path, q) && TouchedBefore(d, cs, k, q) {
      forall j | 0 <= j < k && cs[j].after.Some? ensures !Touches(d, cs[j], q) {
        DeletionIsApart(d, base, candidate, cs, k, j, q);
      }
      OnlyDeletionsTouch(d, cs, k, q);
    }
  }

  lemma {:induction false} OnlyDeletionsTouch(d: Tree, cs: seq<Change>, k: nat, q: string)
    requires k <= |cs| && TouchedBefore(d, cs, k, q)
    requires forall j :: 0 <= j < k && cs[j].after.Some? ==> !Touches(d, cs[j], q)
    ensures Decided(d, cs, k, q) == None
  {
    if TouchedBefore(d, cs, k - 1, q) { OnlyDeletionsTouch(d, cs, k - 1, q); }
  }

  // -- copyEntry and Apply ---------------------------------------------------------------

  datatype Error =
    | ConflictsFound(conflicts: seq<string>)
    | NotADirectory
    | UnsafePath(path: string)
    | CannotRemove(path: string)
    | CannotCopy(path: string)

  const TEMP_PREFIX := ".rewind-accept-"

  /** No file at all (""), or one that only CreateTemp makes. */
  ghost predicate Scratch(tmp: string) {
    tmp != "" ==> exists dir :: TempIn(dir, tmp)
  }

  predicate TempIn(dir: string, name: string) {
    (if dir == "" then TEMP_PREFIX else dir + "/" + TEMP_PREFIX) <= name
  }

  /** The name CreateTemp picks next to a file about to be replaced. */
  function TempName(dir: string, random: string): (name: string)
    requires '/' !in random
    ensures name != "" && Scratch(name)
    ensures forall a :: Ancestor(a, name) ==> Within(a, dir)
    ensures Dir(name) == dir
  {
    var base := TEMP_PREFIX + random;
    var name := if dir == "" then base else dir + "/" + base;
    assert forall i :: |name| - |base| <= i < |name| ==> name[i] != '/' by {
      assert '/' !in TEMP_PREFIX;
      assert forall i :: |name| - |base| <= i < |name| ==> name[i] == base[i - (|name| - |base|)];
    }
    assert TempIn(dir, name);
    assert forall a :: Ancestor(a, name) ==> Within(a, dir) by {
      forall a | Ancestor(a, name) ensures Within(a, dir) {
        if dir != "" {
          assert name[..|dir|] == dir;
          if |a| < |dir| { AncestorsOnOneBranch(a, dir, name); } else { assert |a| == |dir|; }
        }
      }
    }
    assert Ancestor(dir, name) && Within(dir, Dir(name)) && Within(Dir(name), dir);
    name
  }

  /** Renaming a file over p changes nothing but the two names. */
  lemma FileMoved(t: Tree, s: Tree, from: string, p: string)
    requires Closed(t) && Moved(t, s, from, p) && from in t && t[from].File?
    requires p in t ==> !t[p].Directory?
    requires p != "" && from != p
    ensures forall q :: At(s, q) == if q == p then At(t, from) else if q == from then None else At(t, q)
  {
    forall q ensures At(s, q) == if q == p then At(t, from) else if q == from then None else At(t, q) {
      if q == p {
        assert from + q[|p|..] == from;
      } else if Within(p, q) {
        var r := from + q[|p|..];
        assert r[..|from|] == from && r[|from|] == '/';
        assert Ancestor(from, r);
        assert r !in t && q !in t;
        assert At(s, q) == At(t, r);
      } else if Within(from, q) && q != from {
        assert q !in t;
      }
    }
  }

  /** The node copyEntry writes for an entry: its mode, the source's contents. */
  function Incoming(source: Tree, entry: Entry): Option<Node> {
    match (SafeJoin(entry.path), entry.node)
    case (Some(_), Directory(mode)) => Some(Directory(mode))
    case (Some(from), File(mode, _, _)) =>
      (match At(source, from)
       case Some(File(_, size, sha256)) => Some(File(mode, size, sha256))
       case _ => None)
    case (_, _) => None
  }

  lemma TempIsLeaf(t: Tree, temp: string)
    requires Closed(t) && temp != "" && temp !in t
    ensures !Ancestor(temp, temp) && forall q :: q in t ==> !Ancestor(temp, q)
  {
  }

  /** Every state since is as before but for one file, if that is there. */
  ghost predicate OnlyTemp(t: Tree, history: seq<Tree>, from: nat, temp: string) {
    forall k :: from <= k < |history| ==> SameBut(t, history[k], temp)
  }

  lemma SameButOne(t: Tree, temp: string)
    ensures SameBut(t, t, temp) && forall node {:trigger t[temp := node]} :: SameBut(t, t[temp := node], temp)
  {
  }

  lemma OnlyTempMore(t: Tree, history: seq<Tree>, from: nat, temp: string, node: Node)
    requires OnlyTemp(t, history, from, temp)
    ensures OnlyTemp(t, history + [t[temp := node]], from, temp)
  {
    var more := history + [t[temp := node]];
    assert forall k :: 0 <= k < |history| ==> more[k] == history[k];
    assert more[|history|] == t[temp := node];
  }

  /** Change the temporary file. */
  method Rewrite(fs: FileSystem, temp: string, node: Node, ghost start: Tree) returns (ok: bool)
    requires fs.Valid() && temp in fs.tree && fs.tree[temp].File? && temp != "" && node.File?
    requires fs.tree == start[temp := fs.tree[temp]]
    modifies fs
    ensures fs.Valid() && (!ok ==> fs.tree == old(fs.tree) && fs.history == old(fs.history))
    ensures ok ==> fs.tree == start[temp := node] && fs.history == old(fs.history) + [fs.tree]
    ensures fs.faults == old(fs.faults) + if ok then 0 else 1
  {
    assert fs.tree[temp := node] == start[temp := node];
    ok := fs.Put(temp, node);
  }

  /** Create the temporary file, set its mode and copy the contents. */
  method WriteTemp(fs: FileSystem, temp: string, node: Node) returns (ok: bool)
    requires fs.Valid() && temp != "" && temp !in fs.tree && node.File?
    requires forall a :: Ancestor(a, temp) && a != "" ==> a in fs.tree && fs.tree[a].Directory?
    modifies fs
    ensures fs.Valid() && old(fs.history) <= fs.history
    ensures OnlyTemp(old(fs.tree), fs.history, |old(fs.history)|, temp)
    ensures temp in fs.tree ==> fs.tree[temp].File? && forall q :: q in fs.tree ==> !Ancestor(temp, q)
    ensures SameBut(old(fs.tree), fs.tree, temp)
    ensures ok ==> fs.tree == old(fs.tree)[temp := node]
    ensures ok ==> fs.history == old(fs.history) + [old(fs.tree)[temp := File(0x180, 0, "")],
      old(fs.tree)[temp := File(node.mode, 0, "")], old(fs.tree)[temp := node]]
    ensures old(fs.faults) <= fs.faults && (ok <==> fs.faults == old(fs.faults))
  {
    ghost var start, history, n := fs.tree, fs.history, |fs.history|;
    ghost var created, moded := File(0x180, 0, ""), File(node.mode, 0, "");
    TempIsLeaf(start, temp);
    OnlyTempMore(start, history, n, temp, created);
    OnlyTempMore(start, history + [start[temp := created]], n, temp, moded);
    OnlyTempMore(start, history + [start[temp := created]] + [start[temp := moded]], n, temp, node);
    SameButOne(start, temp);
    hide Ancestor, Closed, SameBut, OnlyTemp;
    ok := fs.Put(temp, node.(mode := 0x180, size := 0, sha256 := ""));
    if !ok { return; }
    ok := Rewrite(fs, temp, node.(size := 0, sha256 := ""), start);
    if !ok { return; }
    ok := Rewrite(fs, temp, node, start);
  }

  /** Whether a file next to p can be renamed over p depends on what is at p. */
  lemma TempCanReplace(t: Tree, full: Tree, temp: string, p: string)
    requires Closed(t) && temp !in t && temp in full && full[temp].File? && temp != p && SameBut(t, full, temp)
    requires forall a :: Ancestor(a, p) && a != "" ==> a in t && t[a].Directory?
    requires p != "" && temp != "" && forall a :: Ancestor(a, temp) ==> Within(a, Dir(p))
    ensures CanRename(full, temp, p) <==> (p in t ==> !t[p].Directory?)
  {
    assert !Within(p, Dir(p));
    assert At(full, p) == At(t, p);
    if p in t && !t[p].Directory? {
      forall q | q in full ensures !Ancestor(p, q) {
        if q != temp { assert At(full, q) == At(t, q); }
      }
    }
  }

  lemma Replaced(t: Tree, full: Tree, s: Tree, temp: string, p: string, node: Node)
    requires Closed(full) && temp !in t && full == t[temp := node] && node.File? && Moved(full, s, temp, p)
    requires (p in full ==> !full[p].Directory?) && p != "" && temp != p
    ensures s == t[p := node]
  {
    FileMoved(full, s, temp, p);
    assert forall q :: At(s, q) == At(t[p := node], q);
    TreesEqual(s, t[p := node]);
  }

  /** Write a temporary file next to p, then rename it over p. */
  method ReplaceFile(fs: FileSystem, p: string, node: Node) returns (ok: bool, ghost tmp: string)
    requires fs.Valid() && p != "" && node.File?
    requires forall a :: Ancestor(a, p) && a != "" ==> a in fs.tree && fs.tree[a].Directory?
    modifies fs
    ensures fs.Valid() && old(fs.history) <= fs.history
    ensures tmp != p && tmp !in old(fs.tree) && Scratch(tmp)
    ensures ok ==> fs.tree == old(fs.tree)[p := node] && (p in old(fs.tree) ==> !old(fs.tree)[p].Directory?)
    ensures forall k :: |old(fs.history)| <= k < |fs.history| ==>
      SameBut(old(fs.tree), fs.history[k], tmp) || fs.history[k] == old(fs.tree)[p := node]
    ensures tmp != "" ==> Dir(tmp) == Dir(p)
    ensures !ok ==> SameBut(old(fs.tree), fs.tree, tmp)
    ensures old(fs.faults) <= fs.faults
    ensures ok <==> fs.faults == old(fs.faults) && (p in old(fs.tree) ==> !old(fs.tree)[p].Directory?)
  {
    hide Scratch, SameBut, Ancestor, Closed;
    tmp := "";
    NoScratch();
    NothingElse(fs.tree);
    var random: string := *;
    var temp := if '/' in random then "" else TempName(Dir(p), random);
    if temp == "" || temp in fs.tree || temp == p {
      fs.faults := fs.faults + 1;
      return false, tmp;
    }
    tmp := temp;
    ghost var start := fs.tree;
    SameParents(start, p, temp);
    ok := WriteTemp(fs, temp, node);
    if temp !in fs.tree { return; }
    ok := RenameTemp(fs, temp, p, node, start, ok);
  }

  lemma SameParents(t: Tree, p: string, temp: string)
    requires p != "" && forall a :: Ancestor(a, p) && a != "" ==> a in t && t[a].Directory?
    requires forall a :: Ancestor(a, temp) ==> Within(a, Dir(p))
    ensures forall a :: Ancestor(a, temp) && a != "" ==> a in t && t[a].Directory?
  {
    forall a | Ancestor(a, temp) && a != "" ensures a in t && t[a].Directory? {
      if a != Dir(p) { AncestorTransitive(a, Dir(p), p); }
    }
  }

  /** Rename a written temporary file over p; if it could not be written or renamed, remove it. */
  method RenameTemp(fs: FileSystem, temp: string, p: string, node: Node, ghost start: Tree, written: bool)
    returns (ok: bool)
    requires fs.Valid() && Closed(start) && p != "" && temp != "" && temp != p && node.File? && temp !in start
    requires temp in fs.tree && fs.tree[temp].File? && forall q :: q in fs.tree ==> !Ancestor(temp, q)
    requires SameBut(start, fs.tree, temp) && (written ==> fs.tree == start[temp := node])
    requires forall a :: Ancestor(a, p) && a != "" ==> a in start && start[a].Directory?
    requires forall a :: Ancestor(a, temp) ==> Within(a, Dir(p))
    modifies fs
    ensures fs.Valid() && old(fs.history) <= fs.history && old(fs.faults) <= fs.faults
    ensures ok ==> fs.tree == start[p := node]
    ensures forall k :: |old(fs.history)| <= k < |fs.history| ==>
      SameBut(start, fs.history[k], temp) || fs.history[k] == start[p := node]
    ensures !ok ==> SameBut(start, fs.tree, temp)
    ensures ok <==> written && fs.faults == old(fs.faults) && (p in start ==> !start[p].Directory?)
  {
    ghost var full := fs.tree;
    if written {
      TempCanReplace(start, full, temp, p);
      hide CanRename, Moved;
      assert forall a :: Ancestor(a, p) && a != "" && a != temp ==> At(full, a) == At(start, a);
      ok := fs.Rename(temp, p);
      if ok {
        assert p in full ==> At(full, p) == At(start, p);
        Replaced(start, full, fs.tree, temp, p, node);
        return true;
      }
    }
    var cleaned := fs.RemoveLeaf(temp);
    ok := false;
  }

  /** A node copyEntry accepts: a file or directory that meets its own kind or nothing. */
  ghost predicate CanCopyTo(d: Tree, node: Node, p: string) {
    (node.File? || node.Directory?) && (p in d ==> d[p].Directory? == node.Directory?)
  }

  /** It also needs every directory on the way to be one, or missing. */
  ghost predicate CanPlace(d: Tree, node: Node, p: string) {
    CanCopyTo(d, node, p) && forall a :: Ancestor(a, p) && a != "" && a in d ==> d[a].Directory?
  }

  lemma PlaceIsWay(d: Tree, node: Node, p: string)
    requires p != "" && (node.File? || node.Directory?)
    ensures CanPlace(d, node, p) <==>
      WayIsClear(d, if node.Directory? then p else Dir(p)) && (p in d ==> d[p].Directory? == node.Directory?)
  {
    if node.File? {
      forall a ensures a != "" && Within(a, Dir(p)) <==> a != "" && Ancestor(a, p) {
        if a != "" && Ancestor(a, Dir(p)) { AncestorTransitive(a, Dir(p), p); }
      }
    }
  }

  /**
   * copyEntry. On the way only the entry, missing parents and one temporary
   * file next to the entry are ever touched.
   */
  method CopyEntry(fs: FileSystem, source: Tree, destination: string, entry: Entry)
    returns (ok: bool, ghost tmp: string)
    requires fs.Valid() && destination != ""
    modifies fs
    ensures fs.Valid() && old(fs.history) <= fs.history
    ensures !entry.node.File? && !entry.node.Directory? ==> !ok && fs.history == old(fs.history)
    ensures tmp !in old(fs.tree) && Scratch(tmp)
    ensures ok ==> Incoming(source, entry).Some?
    ensures ok ==> Copied(old(fs.tree), fs.tree, destination, Incoming(source, entry).value)
    ensures Incoming(source, entry).Some? ==>
      forall k :: |old(fs.history)| <= k < |fs.history| ==>
        Copying(old(fs.tree), fs.history[k], destination, Incoming(source, entry).value, tmp)
    ensures old(fs.faults) <= fs.faults
    ensures ok <==> fs.faults == old(fs.faults) && Incoming(source, entry).Some?
                    && CanPlace(old(fs.tree), Incoming(source, entry).value, destination)
  {
    tmp := "";
    ghost var start := fs.tree;
    var from := SafeJoin(entry.path);
    if from.None? { return false, tmp; }
    if Incoming(source, entry).Some? { PlaceIsWay(start, Incoming(source, entry).value, destination); }
    match entry.node {
      case Symlink(_, _) => return false, tmp;
      case Other(_) => return false, tmp;
      case Directory(mode) =>
        ok := fs.MkdirAll(destination, mode);
        MkdirIsCopying(start, fs.history, |old(fs.history)|, destination, destination, mode, entry.node, tmp);
      case File(_, _, _) => ok, tmp := CopyFile(fs, source, destination, entry, from.value);
    }
  }

  /** The rest of copyEntry for a file. */
  method CopyFile(fs: FileSystem, source: Tree, destination: string, entry: Entry, from: string)
    returns (ok: bool, ghost tmp: string)
    requires fs.Valid() && destination != "" && entry.node.File? && SafeJoin(entry.path) == Some(from)
    modifies fs
    ensures fs.Valid() && old(fs.history) <= fs.history
    ensures tmp !in old(fs.tree) && Scratch(tmp)
    ensures ok ==> Incoming(source, entry).Some?
    ensures ok ==> Copied(old(fs.tree), fs.tree, destination, Incoming(source, entry).value)
    ensures Incoming(source, entry).Some? ==>
      forall k :: |old(fs.history)| <= k < |fs.history| ==>
        Copying(old(fs.tree), fs.history[k], destination, Incoming(source, entry).value, tmp)
    ensures old(fs.faults) <= fs.faults
    ensures ok <==> fs.faults == old(fs.faults) && Incoming(source, entry).Some?
                    && CanPlace(old(fs.tree), Incoming(source, entry).value, destination)
  {
    hide MadeDirs, MakingDirs, SameBut, Scratch, CanPlace, WayIsClear, Copying;
    tmp := "";
    ghost var start := fs.tree;
    if Incoming(source, entry).Some? { PlaceIsWay(start, Incoming(source, entry).value, destination); }
    ok := fs.MkdirAll(Dir(destination), PARENT_MODE);
    ghost var made := fs.history;
    NoScratch();
    if ok && from in source && source[from].File? {
      var node := File(entry.node.mode, source[from].size, source[from].sha256);
      ghost var prepared := fs.tree;
      ok, tmp := ReplaceFile(fs, destination, node);
      ReplaceIsCopying(start, prepared, fs.history, |made|, destination, node, tmp);
      MkdirIsCopying(start, made, |old(fs.history)|, Dir(destination), destination, PARENT_MODE, node, tmp);
      NotMade(start, prepared, Dir(destination), PARENT_MODE, tmp);
    } else {
      ok := false;
      if Incoming(source, entry).Some? {
        MkdirIsCopying(start, made, |old(fs.history)|, Dir(destination), destination, PARENT_MODE,
          Incoming(source, entry).value, tmp);
      }
    }
  }

  lemma NothingElse(t: Tree)
    ensures forall tmp :: SameBut(t, t, tmp)
  {
  }

  lemma NoScratch()
    ensures Scratch("")
  {
  }

  lemma NotMade(t: Tree, s: Tree, p: string, mode: nat, q: string)
    requires MadeDirs(t, s, p, mode) && q !in s
    ensures q !in t
  {
    assert At(s, q) == None;
  }

  lemma MkdirIsCopying(t: Tree, history: seq<Tree>, n: nat, dir: string, path: string, mode: nat, node: Node,
                       tmp: string)
    requires n <= |history| && path != "" && (dir == path || dir == Dir(path))
    requires forall k :: n <= k < |history| ==> MakingDirs(t, history[k], dir, mode)
    requires mode == ParentMode(node) && (dir == path ==> node == Directory(mode))
    ensures forall k :: n <= k < |history| ==> Copying(t, history[k], path, node, tmp)
  {
    forall k | n <= k < |history| ensures Copying(t, history[k], path, node, tmp) {
      assert MakingDirs(t, history[k], dir, mode);
      forall q | q != tmp ensures At(history[k], q) == At(t, q) || At(history[k], q) == CopyAt(t, path, node, q) {
        if At(history[k], q) != At(t, q) && dir != path && q != dir { AncestorTransitive(q, dir, path); }
      }
    }
  }

  lemma ReplaceIsCopying(t: Tree, prepared: Tree, history: seq<Tree>, n: nat, path: string, node: Node, tmp: string)
    requires n <= |history| && path != "" && node.File?
    requires MadeDirs(t, prepared, Dir(path), PARENT_MODE)
    requires forall k ::
      n <= k < |history| ==> SameBut(prepared, history[k], tmp) || history[k] == prepared[path := node]
    ensures forall q :: q != path ==> At(prepared, q) == CopyAt(t, path, node, q)
    ensures At(prepared, path) == At(t, path)
    ensures forall k :: n <= k < |history| ==> Copying(t, history[k], path, node, tmp)
  {
    var dir := Dir(path);
    assert !Within(path, dir);
    forall q | q != path ensures At(prepared, q) == CopyAt(t, path, node, q) {
      if Within(q, dir) && q != dir { AncestorTransitive(q, dir, path); }
    }
    forall k | n <= k < |history| ensures Copying(t, history[k], path, node, tmp) {
      forall q | q != tmp ensures At(history[k], q) == At(t, q) || At(history[k], q) == CopyAt(t, path, node, q) {
      }
    }
  }

  // -- What a reader of the result sees -----------------------------------------------------

  /** The candidate created or modified p. */
  ghost predicate Written(base: Tree, candidate: Tree, p: string) {
    p in candidate && At(base, p) != At(candidate, p)
  }

  /** The candidate deleted p or a directory above it. */
  ghost predicate Gone(base: Tree, candidate: Tree, p: string) {
    exists g :: g in base && g !in candidate && Within(g, p)
  }

  /** p is missing from the destination and leads to an entry the candidate wrote. */
  ghost predicate MissingParent(base: Tree, destination: Tree, candidate: Tree, p: string) {
    p != "" && p !in destination && exists w :: Written(base, candidate, w) && Ancestor(p, w)
  }

  /** w is the first written path, in string order, below p. */
  ghost predicate FirstBelow(base: Tree, candidate: Tree, p: string, w: string) {
    && Written(base, candidate, w) && Ancestor(p, w)
    && forall v :: Written(base, candidate, v) && Ancestor(p, v) ==> !Less(v, w)
  }

  /** What a commit leaves at every path. */
  ghost predicate Merged(base: Tree, destination: Tree, candidate: Tree, result: Tree) {
    forall p :: MergedAt(base, destination, candidate, At(result, p), p)
  }

  ghost predicate MergedAt(base: Tree, destination: Tree, candidate: Tree, r: Option<Node>, p: string) {
    if Written(base, candidate, p) then
      r == if candidate[p].Directory? && p in destination then At(destination, p) else At(candidate, p)
    else if Gone(base, candidate, p) then r == None
    else if MissingParent(base, destination, candidate, p) then
      exists w :: FirstBelow(base, candidate, p, w) && r == Some(Directory(ParentMode(candidate[w])))
    else r == At(destination, p)
  }

  lemma {:induction false} FirstToucher(d: Tree, cs: seq<Change>, n: nat, q: string) returns (j: nat)
    requires n <= |cs| && TouchedBefore(d, cs, n, q)
    ensures j < n && Touches(d, cs[j], q) && !TouchedBefore(d, cs, j, q)
    ensures Decided(d, cs, n, q) == Leaves(d, cs[j], q)
  {
    if TouchedBefore(d, cs, n - 1, q) { j := FirstToucher(d, cs, n - 1, q); } else { j := n - 1; }
  }

  lemma PlannedWrite(base: Tree, candidate: Tree, cs: seq<Change>, p: string) returns (j: nat)
    requires Plan(base, candidate, cs) && At(base, p) != At(candidate, p)
    ensures j < |cs| && cs[j].path == p && cs[j].after == At(candidate, p)
  {
    var c := ChangeAt(base, candidate, p).value;
    assert c in cs;
    j :| 0 <= j < |cs| && cs[j] == c;
  }

  /** A path the candidate writes is decided by its own change. */
  lemma DecidedByWrite(d: Tree, base: Tree, candidate: Tree, cs: seq<Change>, p: string)
    requires Plan(base, candidate, cs) && Closed(candidate) && "" !in base && Written(base, candidate, p)
    ensures MergedAt(base, d, candidate, Decided(d, cs, |cs|, p), p)
  {
    var j := PlannedWrite(base, candidate, cs, p);
    assert Touches(d, cs[j], p);
    var f := FirstToucher(d, cs, |cs|, p);
    if f < j { WriteIsFirst(d, base, candidate, cs, j); assert false; }
  }

  /** A path at or below a deletion is decided by a deletion. */
  lemma DecidedByDeletion(d: Tree, base: Tree, candidate: Tree, cs: seq<Change>, p: string)
    requires Plan(base, candidate, cs) && Closed(candidate) && "" !in base
    requires !Written(base, candidate, p) && Gone(base, candidate, p)
    ensures MergedAt(base, d, candidate, Decided(d, cs, |cs|, p), p)
  {
    var g :| g in base && g !in candidate && Within(g, p);
    var j := PlannedWrite(base, candidate, cs, g);
    assert Touches(d, cs[j], p);
    var f := FirstToucher(d, cs, |cs|, p);
    if cs[f].after.Some? { DeletionIsApart(d, base, candidate, cs, j, f, p); }
  }

  /** Any other path that is touched is a missing parent, made by the first write below it. */
  lemma DecidedByParent(d: Tree, base: Tree, candidate: Tree, cs: seq<Change>, p: string)
    requires Plan(base, candidate, cs) && Closed(candidate) && "" !in base
    requires !Written(base, candidate, p) && !Gone(base, candidate, p) && TouchedBefore(d, cs, |cs|, p)
    ensures MergedAt(base, d, candidate, Decided(d, cs, |cs|, p), p)
  {
    var f := FirstToucher(d, cs, |cs|, p);
    assert cs[f] in cs && cs[f].after.Some? && p != cs[f].path;
    FirstWriteBelow(d, base, candidate, cs, p, f);
  }

  lemma FirstWriteBelow(d: Tree, base: Tree, candidate: Tree, cs: seq<Change>, p: string, f: nat)
    requires Plan(base, candidate, cs) && f < |cs| && Touches(d, cs[f], p) && !TouchedBefore(d, cs, f, p)
    requires cs[f].after.Some? && p != cs[f].path && p !in d && p != ""
    ensures FirstBelow(base, candidate, p, cs[f].path)
  {
    var w := cs[f].path;
    assert cs[f] in cs;
    hide Decided;
    forall v | Written(base, candidate, v) && Ancestor(p, v) ensures !Less(v, w) {
      var i := PlannedWrite(base, candidate, cs, v);
      assert Touches(d, cs[i], p);
      LessIrreflexive(v);
      if f < i && Less(v, w) { assert ApplyLess(cs[f], cs[i]); LessTransitive(v, w, v); }
    }
  }

  /** The path-by-path decisions add up to the merge. */
  lemma DecidedIsMerged(d: Tree, base: Tree, candidate: Tree, cs: seq<Change>, p: string)
    requires Plan(base, candidate, cs) && Closed(candidate) && "" !in base
    ensures MergedAt(base, d, candidate, Decided(d, cs, |cs|, p), p)
  {
    if Written(base, candidate, p) {
      DecidedByWrite(d, base, candidate, cs, p);
    } else if Gone(base, candidate, p) {
      DecidedByDeletion(d, base, candidate, cs, p);
    } else if TouchedBefore(d, cs, |cs|, p) {
      DecidedByParent(d, base, candidate, cs, p);
    } else if MissingParent(base, d, candidate, p) {
      var w :| Written(base, candidate, w) && Ancestor(p, w);
      var i := PlannedWrite(base, candidate, cs, w);
    }
  }

  /** A commit has one possible result. */
  lemma MergedIsUnique(base: Tree, destination: Tree, candidate: Tree, s: Tree, t: Tree)
    requires Merged(base, destination, candidate, s) && Merged(base, destination, candidate, t)
    ensures s == t
  {
    forall p ensures At(s, p) == At(t, p) {
      assert MergedAt(base, destination, candidate, At(s, p), p) && MergedAt(base, destination, candidate, At(t, p), p);
      if !Written(base, candidate, p) && !Gone(base, candidate, p) && MissingParent(base, destination, candidate, p) {
        var v :| FirstBelow(base, candidate, p, v) && At(s, p) == Some(Directory(ParentMode(candidate[v])));
        var w :| FirstBelow(base, candidate, p, w) && At(t, p) == Some(Directory(ParentMode(candidate[w])));
        LessTotal(v, w);
      }
    }
    TreesEqual(s, t);
  }

  /**
   * With an untouched destination the commit yields the candidate tree exactly
   * when no entry modified by the candidate is a directory: MkdirAll leaves the
   * mode of a directory that is already there.
   */
  lemma CommitYieldsCandidate(base: Tree, candidate: Tree, result: Tree)
    requires Closed(base) && Closed(candidate) && Merged(base, base, candidate, result)
    ensures result == candidate <==>
      forall p :: p in base && p in candidate && candidate[p].Directory? ==> base[p] == candidate[p]
  {
    forall p ensures At(result, p) == At(candidate, p) <==>
      (p in base && p in candidate && candidate[p].Directory? ==> base[p] == candidate[p])
    {
      assert MergedAt(base, base, candidate, At(result, p), p);
      if Gone(base, candidate, p) {
        var g :| g in base && g !in candidate && Within(g, p);
        assert p !in candidate;
      } else if !Written(base, candidate, p) {
        if p in base && p !in candidate { assert Within(p, p); }
        assert p != "" ==> forall w :: Written(base, candidate, w) && Ancestor(p, w) ==> p in candidate;
      }
    }
    if result == candidate {
      forall p | p in base && p in candidate && candidate[p].Directory? ensures base[p] == candidate[p] {
        assert At(result, p) == At(candidate, p);
      }
    } else if forall p :: p in base && p in candidate && candidate[p].Directory? ==> base[p] == candidate[p] {
      TreesEqual(result, candidate);
    }
  }

  /** A candidate that only changes the mode of a directory is not carried over. */
  lemma DirectoryModeIsLost()
    ensures var base, candidate := map["d" := Directory(0x1ed)], map["d" := Directory(0x1c0)];
            Closed(base) && Closed(candidate) && Merged(base, base, candidate, base) && base != candidate
  {
    var base, candidate: Tree := map["d" := Directory(0x1ed)], map["d" := Directory(0x1c0)];
    forall p ensures MergedAt(base, base, candidate, At(base, p), p) {
      assert base.Keys == candidate.Keys == {"d"};
      assert !Gone(base, candidate, p);
      assert forall w :: Written(base, candidate, w) ==> w == "d";
    }
    assert base["d"] != candidate["d"];
  }

  // -- Whether an allowed commit keeps the destination's edits ------------------------------------

  /** Every path that the destination has changed since the base is in the result as the destination has it. */
  ghost predicate EditsSurvive(base: Tree, destination: Tree, result: Tree) {
    forall p :: At(base, p) != At(destination, p) ==> At(result, p) == At(destination, p)
  }

  /** An edit that the commit undoes: something below a deleted directory, or the deletion of a needed parent. */
  ghost predicate Undone(base: Tree, destination: Tree, candidate: Tree, p: string) {
    && At(base, p) != At(destination, p)
    && ((p in destination && Gone(base, candidate, p)) || MissingParent(base, destination, candidate, p))
  }

  /** Nothing the candidate wrote lies below something it deleted. */
  lemma NeededIsNotGone(base: Tree, destination: Tree, candidate: Tree, p: string)
    requires Closed(candidate) && "" !in base && MissingParent(base, destination, candidate, p)
    ensures !Gone(base, candidate, p)
  {
    var w :| Written(base, candidate, w) && Ancestor(p, w);
    forall g | g in base && Within(g, p) ensures g in candidate {
      if g != p { AncestorTransitive(g, p, w); }
    }
  }

  /**
   * A commit that the check allows keeps all of the destination's edits if and only if
   * the destination has changed nothing below a directory that the candidate deleted,
   * and has deleted no directory that an entry written by the candidate needs.
   */
  lemma AllowedKeepsEdits(base: Tree, destination: Tree, candidate: Tree, result: Tree)
    requires Closed(candidate) && "" !in base && "" !in destination
    requires Merged(base, destination, candidate, result)
    requires forall p :: !Conflict(base, destination, candidate, p)
    ensures EditsSurvive(base, destination, result) <==> forall p :: !Undone(base, destination, candidate, p)
  {
    forall p | At(base, p) != At(destination, p)
      ensures At(result, p) == At(destination, p) <==> !Undone(base, destination, candidate, p) {
      assert !Conflict(base, destination, candidate, p) && MergedAt(base, destination, candidate, At(result, p), p);
      if MissingParent(base, destination, candidate, p) { NeededIsNotGone(base, destination, candidate, p); }
    }
  }

  /** A file that the destination adds to a directory the candidate deletes is removed. */
  lemma AddedFileIsRemoved(mode: nat, node: Node)
    ensures var base: Tree := map["a" := Directory(mode)];
      var destination := base["a/y" := node];
      && Closed(base) && Closed(destination) && (forall p :: !Conflict(base, destination, map[], p))
      && Merged(base, destination, map[], map[]) && !EditsSurvive(base, destination, map[])
  {
    var base: Tree := map["a" := Directory(mode)];
    var destination := base["a/y" := node];
    assert Ancestor("a", "a/y") by { assert "a/y"[..1] == "a"; }
    forall q, r | q in destination && Ancestor(r, q) && r != "" ensures r == "a" && q == "a/y" {
      assert |r| < |q| && q[..|r|] == r;
    }
    forall p ensures MergedAt(base, destination, map[], None, p) {
      assert !exists w :: Written(base, map[], w);
      if p in destination { assert Within("a", p); assert Gone(base, map[], p); }
    }
    assert At(base, "a/y") != At(destination, "a/y");
  }

  /** A directory that the destination deletes comes back when the candidate adds something to it. */
  lemma DeletedParentComesBack(node: Node)
    requires node.File?
    ensures var base: Tree := map["a" := Directory(PARENT_MODE)];
      var candidate := base["a/x" := node];
      && Closed(base) && Closed(candidate) && (forall p :: !Conflict(base, map[], candidate, p))
      && forall result :: Merged(base, map[], candidate, result) ==> !EditsSurvive(base, map[], result)
  {
    var base: Tree := map["a" := Directory(PARENT_MODE)];
    var candidate := base["a/x" := node];
    assert Ancestor("a", "a/x") by { assert "a/x"[..1] == "a"; }
    forall q, r | q in candidate && Ancestor(r, q) && r != "" ensures r == "a" && q == "a/x" {
      assert |r| < |q| && q[..|r|] == r;
    }
    assert Written(base, candidate, "a/x") && MissingParent(base, map[], candidate, "a");
    forall result | Merged(base, map[], candidate, result) ensures !EditsSurvive(base, map[], result) {
      AllowedKeepsEdits(base, map[], candidate, result);
      assert Undone(base, map[], candidate, "a");
    }
  }

  // -- Apply -----------------------------------------------------------------------------------

  /** h is a state between the k-th and the next step; tmp is a temporary file. */
  ghost predicate DuringStep(d: Tree, cs: seq<Change>, k: nat, h: Tree, tmp: string) {
    && k < |cs|
    && (forall q :: q != tmp ==> At(h, q) == Decided(d, cs, k, q) || At(h, q) == Decided(d, cs, k + 1, q))
    && tmp !in d && Scratch(tmp) && (cs[k].after.None? ==> tmp == "")
    && "" !in h
  }

  ghost predicate DuringApply(d: Tree, cs: seq<Change>, h: Tree) {
    exists k, tmp :: DuringStep(d, cs, k, h, tmp)
  }

  /**
   * What a crash or an error can leave: apart from one temporary file every path
   * holds its original node or the one a finished commit gives it, and if any
   * original path is missing then everything the candidate wrote is in place.
   */
  ghost predicate Recoverable(base: Tree, d: Tree, candidate: Tree, h: Tree) {
    exists tmp :: RecoverableBut(base, d, candidate, h, tmp)
  }

  ghost predicate RecoverableBut(base: Tree, d: Tree, candidate: Tree, h: Tree, tmp: string) {
    && tmp !in d && Scratch(tmp)
    && NothingForeign(base, d, candidate, h, tmp)
    && (SomethingLost(d, h) ==> AllWritten(base, d, candidate, h))
  }

  ghost predicate NothingForeign(base: Tree, d: Tree, candidate: Tree, h: Tree, tmp: string) {
    forall q :: q != tmp ==> At(h, q) == At(d, q) || MergedAt(base, d, candidate, At(h, q), q)
  }

  ghost predicate SomethingLost(d: Tree, h: Tree) {
    exists q :: q in d && q !in h
  }

  ghost predicate AllWritten(base: Tree, d: Tree, candidate: Tree, h: Tree) {
    forall w :: Written(base, candidate, w) ==> MergedAt(base, d, candidate, At(h, w), w)
  }

  /** A value seen at q during step k is the original one or the final one; the latter once q has been touched. */
  lemma DuringStepAt(d: Tree, base: Tree, candidate: Tree, cs: seq<Change>, k: nat, r: Option<Node>, q: string)
    requires Plan(base, candidate, cs) && Closed(candidate) && "" !in base && k < |cs|
    requires r == Decided(d, cs, k, q) || r == Decided(d, cs, k + 1, q)
    ensures r == At(d, q) || MergedAt(base, d, candidate, r, q)
    ensures TouchedBefore(d, cs, k, q) ==> MergedAt(base, d, candidate, r, q)
  {
    DecidedOnce(d, cs, k, |cs|, q);
    DecidedOnce(d, cs, k + 1, |cs|, q);
    DecidedIsMerged(d, base, candidate, cs, q);
  }

  lemma DuringApplyIsRecoverable(d: Tree, base: Tree, candidate: Tree, cs: seq<Change>, h: Tree)
    requires Plan(base, candidate, cs) && Closed(candidate) && "" !in base && "" !in d
    requires DuringApply(d, cs, h)
    ensures Recoverable(base, d, candidate, h)
  {
    var k, tmp :| DuringStep(d, cs, k, h, tmp);
    assert NothingForeign(base, d, candidate, h, tmp) by {
      forall q | q != tmp ensures At(h, q) == At(d, q) || MergedAt(base, d, candidate, At(h, q), q) {
        DuringStepAt(d, base, candidate, cs, k, At(h, q), q);
      }
    }
    if SomethingLost(d, h) { LossComesLast(d, base, candidate, cs, k, h, tmp); }
    assert RecoverableBut(base, d, candidate, h, tmp);
  }

  /** If an original path is missing, the step under way is a deletion and all writes are done. */
  lemma LossComesLast(d: Tree, base: Tree, candidate: Tree, cs: seq<Change>, k: nat, h: Tree, tmp: string)
    requires Plan(base, candidate, cs) && Closed(candidate) && "" !in base
    requires DuringStep(d, cs, k, h, tmp) && SomethingLost(d, h)
    ensures AllWritten(base, d, candidate, h)
  {
    assert cs[k].after.None? by {
      var lost :| lost in d && lost !in h;
      assert At(h, lost) == None;
      if cs[k].after.Some? { WritesLoseNothing(d, base, candidate, cs, k, lost); }
    }
    forall w | Written(base, candidate, w) ensures MergedAt(base, d, candidate, At(h, w), w) {
      var j := PlannedWrite(base, candidate, cs, w);
      WriteBeforeDeletion(base, candidate, cs, j, k);
      assert Touches(d, cs[j], w);
      assert w != tmp;
      DuringStepAt(d, base, candidate, cs, k, At(h, w), w);
    }
  }

  lemma WriteBeforeDeletion(base: Tree, candidate: Tree, cs: seq<Change>, j: nat, k: nat)
    requires Plan(base, candidate, cs) && j < |cs| && k < |cs| && cs[j].after.Some? && cs[k].after.None?
    ensures j < k
  {
    assert cs[k] in cs && cs[j] in cs;
  }

  lemma WritingIsDuring(d: Tree, base: Tree, candidate: Tree, cs: seq<Change>, k: nat, t: Tree, h: Tree, tmp: string)
    requires Plan(base, candidate, cs) && k < |cs| && cs[k].after.Some?
    requires forall q :: At(t, q) == Decided(d, cs, k, q)
    requires Copying(t, h, cs[k].path, cs[k].after.value, tmp) && tmp !in t && Scratch(tmp) && "" !in h
    ensures DuringStep(d, cs, k, h, tmp)
  {
    forall q ensures CopyAt(t, cs[k].path, cs[k].after.value, q) == Decided(d, cs, k + 1, q) {
      WriteStep(d, base, candidate, cs, k, t, q);
    }
    if tmp in d { WritesLoseNothing(d, base, candidate, cs, k, tmp); }
    assert At(t, tmp) == Decided(d, cs, k, tmp);
  }

  lemma RemovingIsDuring(d: Tree, base: Tree, candidate: Tree, cs: seq<Change>, k: nat, t: Tree, h: Tree)
    requires Plan(base, candidate, cs) && Closed(candidate) && "" !in base && "" !in d
    requires k < |cs| && cs[k].after.None?
    requires forall q :: At(t, q) == Decided(d, cs, k, q)
    requires Removing(t, h, cs[k].path) && "" !in h
    ensures DuringStep(d, cs, k, h, "")
  {
    forall q ensures At(h, q) == Decided(d, cs, k, q) || At(h, q) == Decided(d, cs, k + 1, q) {
      DeleteStep(d, base, candidate, cs, k, q);
    }
  }

  ghost predicate CanCopy(d: Tree, c: Change) {
    c.after.Some? ==> CanCopyTo(d, c.after.value, c.path)
  }

  /** Nothing in the destination stands in a change's way. */
  ghost predicate CanDo(d: Tree, c: Change) {
    c.after.Some? ==> CanPlace(d, c.after.value, c.path)
  }

  /** What stands in a write's way when its turn comes is what stood there from the start. */
  lemma PlaceIsAsBefore(d: Tree, base: Tree, candidate: Tree, cs: seq<Change>, k: nat, t: Tree)
    requires Plan(base, candidate, cs) && Closed(candidate) && "" !in base && k < |cs| && cs[k].after.Some?
    requires forall q :: At(t, q) == Decided(d, cs, k, q)
    requires forall j :: 0 <= j < k ==> CanDo(d, cs[j])
    ensures CanPlace(t, cs[k].after.value, cs[k].path) <==> CanDo(d, cs[k])
  {
    var p := cs[k].path;
    WriteIsFirst(d, base, candidate, cs, k);
    assert At(t, p) == At(d, p);
    forall a | Ancestor(a, p) && a != ""
      ensures a in t && !t[a].Directory? <==> a in d && !d[a].Directory? {
      assert At(t, a) == Decided(d, cs, k, a);
      if TouchedBefore(d, cs, k, a) { ParentTouched(d, base, candidate, cs, k, a); }
    }
  }

  /** A parent that an earlier write has touched is a directory, as it was if it was there. */
  lemma ParentTouched(d: Tree, base: Tree, candidate: Tree, cs: seq<Change>, k: nat, a: string)
    requires Plan(base, candidate, cs) && Closed(candidate) && k < |cs| && cs[k].after.Some?
    requires forall j :: 0 <= j < k ==> cs[j].after.Some? && CanDo(d, cs[j])
    requires Ancestor(a, cs[k].path) && a != "" && TouchedBefore(d, cs, k, a)
    ensures Decided(d, cs, k, a).Some? && Decided(d, cs, k, a).value.Directory? && (a in d ==> d[a].Directory?)
  {
    var f := FirstToucher(d, cs, k, a);
    assert cs[f] in cs && cs[k] in cs;
    assert cs[k].path in candidate;
  }

  lemma CopyStep(d: Tree, base: Tree, candidate: Tree, cs: seq<Change>, k: nat, t: Tree, s: Tree,
                 history: seq<Tree>, n: nat, tmp: string, ok: bool)
    requires Plan(base, candidate, cs) && Closed(candidate) && "" !in base && "" !in d
    requires k < |cs| && cs[k].after.Some? && n <= |history|
    requires forall q :: At(t, q) == Decided(d, cs, k, q)
    requires forall i :: n <= i < |history| ==> "" !in history[i]
    requires tmp !in t && Scratch(tmp)
    requires cs[k].after.value.File? || cs[k].after.value.Directory? ==>
      forall i :: n <= i < |history| ==> Copying(t, history[i], cs[k].path, cs[k].after.value, tmp)
    requires cs[k].after.value.Symlink? || cs[k].after.value.Other? ==> !ok && |history| == n
    requires ok ==> Copied(t, s, cs[k].path, cs[k].after.value)
    ensures forall i :: n <= i < |history| ==> Recoverable(base, d, candidate, history[i])
    ensures ok ==> CanCopy(d, cs[k]) && forall q :: At(s, q) == Decided(d, cs, k + 1, q)
  {
    forall i | n <= i < |history| ensures Recoverable(base, d, candidate, history[i]) {
      WritingIsDuring(d, base, candidate, cs, k, t, history[i], tmp);
      DuringApplyIsRecoverable(d, base, candidate, cs, history[i]);
    }
    if ok {
      forall q ensures At(s, q) == Decided(d, cs, k + 1, q) { WriteStep(d, base, candidate, cs, k, t, q); }
      WriteIsFirst(d, base, candidate, cs, k);
      assert At(t, cs[k].path) == At(d, cs[k].path);
    }
  }

  lemma RemoveStep(d: Tree, base: Tree, candidate: Tree, cs: seq<Change>, k: nat, t: Tree, s: Tree,
                   history: seq<Tree>, n: nat, ok: bool)
    requires Plan(base, candidate, cs) && Closed(candidate) && "" !in base && "" !in d
    requires k < |cs| && cs[k].after.None? && n <= |history|
    requires forall q :: At(t, q) == Decided(d, cs, k, q)
    requires forall i :: n <= i < |history| ==> "" !in history[i] && Removing(t, history[i], cs[k].path)
    requires ok ==> Removed(t, s, cs[k].path)
    ensures forall i :: n <= i < |history| ==> Recoverable(base, d, candidate, history[i])
    ensures ok ==> forall q :: At(s, q) == Decided(d, cs, k + 1, q)
  {
    forall i | n <= i < |history| ensures Recoverable(base, d, candidate, history[i]) {
      RemovingIsDuring(d, base, candidate, cs, k, t, history[i]);
      DuringApplyIsRecoverable(d, base, candidate, cs, history[i]);
    }
    if ok {
      forall q ensures At(s, q) == Decided(d, cs, k + 1, q) { DeleteStep(d, base, candidate, cs, k, q); }
    }
  }

  /** The manifests describe the trees they were built from. */
  ghost predicate Faithful(base: Manifest, destination: Manifest, candidate: Manifest, target: Tree, source: Tree) {
    && Real(base) && Real(candidate)
    && Tabulate(destination.entries) == target && Tabulate(candidate.entries) == source
  }

  ghost predicate AllRecoverable(base: Tree, d: Tree, candidate: Tree, history: seq<Tree>, n: nat) {
    forall i :: n <= i < |history| ==> Recoverable(base, d, candidate, history[i])
  }

  ghost predicate Reached(d: Tree, cs: seq<Change>, k: nat, t: Tree)
    requires k <= |cs|
  {
    forall q :: At(t, q) == Decided(d, cs, k, q)
  }

  /** One iteration of Apply's loop. */
  method ApplyChange(fs: FileSystem, source: Tree, change: Change, entries: Tree,
                     ghost b: Tree, ghost d: Tree, ghost cs: seq<Change>, ghost k: nat, ghost faithful: bool)
    returns (error: Option<Error>)
    requires fs.Valid() && k < |cs| && change == cs[k] && Plan(b, entries, cs)
    requires faithful ==> Reached(d, cs, k, fs.tree)
    requires faithful ==> source == entries && Clean(change.path) && Closed(entries) && "" !in b && "" !in d
    modifies fs
    ensures fs.Valid() && old(fs.history) <= fs.history
    ensures error.Some? ==> !error.value.ConflictsFound?
    ensures faithful ==> AllRecoverable(b, d, entries, fs.history, |old(fs.history)|)
    ensures faithful && error.None? ==> CanCopy(d, cs[k]) && Reached(d, cs, k + 1, fs.tree)
    ensures old(fs.faults) <= fs.faults
    ensures faithful && (forall j :: 0 <= j < k ==> CanDo(d, cs[j])) ==>
      (error.None? <==> fs.faults == old(fs.faults) && CanDo(d, cs[k]))
  {
    assert change in cs;
    var path := SafeJoin(change.path);
    if path.None? { return Some(UnsafePath(change.path)); }
    ghost var t, n := fs.tree, |fs.history|;
    if change.kind.Deleted? {
      var ok := fs.RemoveAll(path.value);
      if faithful { RemoveStep(d, b, entries, cs, k, t, fs.tree, fs.history, n, ok); }
      error := if ok then None else Some(CannotRemove(change.path));
    } else {
      var ok, tmp := CopyEntry(fs, source, path.value, Entry(change.path, entries[change.path]));
      if faithful {
        CopyStep(d, b, entries, cs, k, t, fs.tree, fs.history, n, tmp, ok);
        if forall j :: 0 <= j < k ==> CanDo(d, cs[j]) { PlaceIsAsBefore(d, b, entries, cs, k, t); }
      }
      error := if ok then None else Some(CannotCopy(change.path));
    }
  }

  /** acceptance.Apply. */
  method Apply(fs: FileSystem, source: Tree, base: Manifest, destination: Manifest, candidate: Manifest,
               rootsExist: bool)
    returns (report: Report, error: Option<Error>)
    requires fs.Valid()
    modifies fs
    ensures fs.Valid() && old(fs.history) <= fs.history
    ensures error.Some? && error.value.ConflictsFound? <==>
      exists p :: Conflict(Tabulate(base.entries), Tabulate(destination.entries), Tabulate(candidate.entries), p)
    ensures !report.canApply || !rootsExist ==> error.Some? && fs.history == old(fs.history)
    ensures Faithful(base, destination, candidate, old(fs.tree), source) && error.None? ==>
      Merged(Tabulate(base.entries), old(fs.tree), source, fs.tree)
    ensures Faithful(base, destination, candidate, old(fs.tree), source) && error.None? ==>
      forall p :: Written(Tabulate(base.entries), source, p) ==>
        CanCopyTo(old(fs.tree), source[p], p)
    ensures Faithful(base, destination, candidate, old(fs.tree), source) ==>
      AllRecoverable(Tabulate(base.entries), old(fs.tree), source, fs.history, |old(fs.history)|)
    ensures Faithful(base, destination, candidate, old(fs.tree), source) && report.canApply && rootsExist ==>
      (error.None? <==>
        && fs.faults == old(fs.faults)
        && forall p :: Written(Tabulate(base.entries), source, p) ==> CanPlace(old(fs.tree), source[p], p))
    ensures ChangesBetween(Tabulate(base.entries), Tabulate(candidate.entries), report.changes)
    ensures report.canApply <==>
      forall p :: !Conflict(Tabulate(base.entries), Tabulate(destination.entries), Tabulate(candidate.entries), p)
    ensures report.canApply && !rootsExist ==> error == Some(NotADirectory)
  {
    report := Check(base, destination, candidate);
    if !report.canApply { return report, Some(ConflictsFound(report.conflicts)); }
    if !rootsExist { return report, Some(NotADirectory); }
    var entries := Table(candidate.entries);
    var cs := SortForApply(report.changes);
    ghost var b, c, d := Tabulate(base.entries), entries, fs.tree;
    ghost var faithful := Faithful(base, destination, candidate, d, source);
    assert Plan(b, c, cs);
    if faithful { ReadyToApply(base, candidate, b, d, c, cs); }
    error := ApplyAll(fs, source, cs, entries, b, d, faithful);
    if faithful { AllDoable(b, d, c, cs); }
    if faithful && error.None? { AllApplied(b, d, c, cs, fs.tree); }
  }

  /** The loop of Apply: one change after the other, until one fails. */
  method ApplyAll(fs: FileSystem, source: Tree, cs: seq<Change>, entries: Tree, ghost b: Tree, ghost d: Tree,
                  ghost faithful: bool)
    returns (error: Option<Error>)
    requires fs.Valid() && Plan(b, entries, cs)
    requires faithful ==> Ready(b, d, entries, cs) && source == entries && fs.tree == d
    modifies fs
    ensures fs.Valid() && old(fs.history) <= fs.history
    ensures error.Some? ==> !error.value.ConflictsFound?
    ensures faithful ==> AllRecoverable(b, d, entries, fs.history, |old(fs.history)|)
    ensures faithful && error.None? ==>
      Reached(d, cs, |cs|, fs.tree) && forall j :: 0 <= j < |cs| && cs[j].after.Some? ==> CanCopy(d, cs[j])
    ensures faithful ==>
      (error.None? <==> fs.faults == old(fs.faults) && forall j :: 0 <= j < |cs| ==> CanDo(d, cs[j]))
  {
    if faithful { NothingApplied(d, cs); }
    hide Recoverable, Reached, Plan, CanCopy, CanDo;
    for k := 0 to |cs|
      invariant fs.Valid() && old(fs.history) <= fs.history
      invariant faithful ==> Reached(d, cs, k, fs.tree)
      invariant faithful ==> AllRecoverable(b, d, entries, fs.history, |old(fs.history)|)
      invariant faithful ==> forall j :: 0 <= j < k && cs[j].after.Some? ==> CanCopy(d, cs[j])
      invariant old(fs.faults) <= fs.faults
      invariant faithful ==> fs.faults == old(fs.faults) && forall j :: 0 <= j < k ==> CanDo(d, cs[j])
    {
      error := ApplyChange(fs, source, cs[k], entries, b, d, cs, k, faithful);
      if error.Some? { return; }
    }
    error := None;
  }

  /** What the recovery argument needs of the plan. */
  ghost predicate Ready(b: Tree, d: Tree, entries: Tree, cs: seq<Change>) {
    Closed(entries) && "" !in b && "" !in d && forall k :: 0 <= k < |cs| ==> Clean(cs[k].path)
  }

  lemma ReadyToApply(base: Manifest, candidate: Manifest, b: Tree, d: Tree, c: Tree, cs: seq<Change>)
    requires Real(base) && Real(candidate) && b == Tabulate(base.entries) && c == Tabulate(candidate.entries)
    requires Plan(b, c, cs) && "" !in d
    ensures Ready(b, d, c, cs)
  {
    forall k | 0 <= k < |cs| ensures Clean(cs[k].path) { assert cs[k] in cs; }
  }

  lemma NothingApplied(d: Tree, cs: seq<Change>)
    ensures Reached(d, cs, 0, d)
  {
  }

  lemma AllDoable(b: Tree, d: Tree, c: Tree, cs: seq<Change>)
    requires Plan(b, c, cs)
    ensures (forall j :: 0 <= j < |cs| ==> CanDo(d, cs[j]))
      <==> forall p :: Written(b, c, p) ==> CanPlace(d, c[p], p)
  {
    hide CanPlace;
    if forall j :: 0 <= j < |cs| ==> CanDo(d, cs[j]) {
      forall p | Written(b, c, p) ensures CanPlace(d, c[p], p) {
        var j := PlannedWrite(b, c, cs, p);
        assert CanDo(d, cs[j]);
      }
    }
    if forall p :: Written(b, c, p) ==> CanPlace(d, c[p], p) {
      forall j | 0 <= j < |cs| ensures CanDo(d, cs[j]) {
        assert cs[j] in cs;
        if cs[j].after.Some? { assert Written(b, c, cs[j].path); }
      }
    }
  }

  /** All changes made: the result is the merge. */
  lemma AllApplied(b: Tree, d: Tree, c: Tree, cs: seq<Change>, result: Tree)
    requires Plan(b, c, cs) && Closed(c) && "" !in b && Reached(d, cs, |cs|, result)
    requires forall j :: 0 <= j < |cs| && cs[j].after.Some? ==> CanCopy(d, cs[j])
    ensures Merged(b, d, c, result)
    ensures forall p :: Written(b, c, p) ==> CanCopyTo(d, c[p], p)
  {
    forall p ensures MergedAt(b, d, c, At(result, p), p) { DecidedIsMerged(d, b, c, cs, p); }
    forall p | Written(b, c, p) ensures CanCopyTo(d, c[p], p) { var j := PlannedWrite(b, c, cs, p); }
  }
}
