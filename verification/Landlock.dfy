// The allowlist handed to Landlock: compiled rules plus the runtime directories.
module Landlock {
  import opened Order
  import opened Text
  import opened Diff
  import opened Policy
  import opened ReadRules
  import Paths

  datatype Plan = Plan(root: string, allowedFiles: seq<string>, allowedDirs: seq<string>, runtimeRoots: seq<string>)

  datatype Outcome = Built(plan: Plan) | NotEnforced | Escapes(path: string) | BadRuntimeRoot(root: string)

  /** A runtime root must be an existing directory, named absolutely, that shares nothing with the workspace. */
  predicate Usable(runtimeRoot: string, root: seq<string>, isDir: string -> bool) {
    && runtimeRoot != "" && runtimeRoot[0] == '/' && isDir(runtimeRoot)
    && !Inside(root, AbsSegments(runtimeRoot)) && !Inside(AbsSegments(runtimeRoot), root)
  }

  /** The first path outside the root, if any. */
  method FindEscape(paths: seq<string>, root: seq<string>) returns (at: int)
    ensures at < 0 ==> forall i :: 0 <= i < |paths| ==> Inside(root, AbsSegments(paths[i]))
    ensures at >= 0 ==> at < |paths| && !Inside(root, AbsSegments(paths[at]))
  {
    for i := 0 to |paths|
      invariant forall k :: 0 <= k < i ==> Inside(root, AbsSegments(paths[k]))
    {
      if !Inside(root, AbsSegments(paths[i])) { return i; }
    }
    return -1;
  }

  method FindUnusable(runtimeRoots: seq<string>, root: seq<string>, isDir: string -> bool) returns (at: int)
    ensures at < 0 ==> forall i :: 0 <= i < |runtimeRoots| ==> Usable(runtimeRoots[i], root, isDir)
    ensures at >= 0 ==> at < |runtimeRoots| && !Usable(runtimeRoots[at], root, isDir)
  {
    for i := 0 to |runtimeRoots|
      invariant forall k :: 0 <= k < i ==> Usable(runtimeRoots[k], root, isDir)
    {
      var path := runtimeRoots[i];
      if path == "" || path[0] != '/' { return i; }
      if !isDir(path) { return i; }
      var clean := AbsSegments(path);
      if Inside(root, clean) || Inside(clean, root) { return i; }
    }
    return -1;
  }

  /** BuildPlan: refused outside enforce mode, for a path outside the root, or for an unusable runtime root. */
  method BuildPlan(root: string, rules: Compiled, runtimeRoots: seq<string>, isDir: string -> bool) returns (o: Outcome)
    ensures o.NotEnforced? <==> !rules.mode.Enforce?
    ensures o.Escapes? ==>
      (o.path in rules.allowedFiles || o.path in rules.allowedDirs) && !Inside(AbsSegments(root), AbsSegments(o.path))
    ensures o.BadRuntimeRoot? ==> o.root in runtimeRoots && !Usable(o.root, AbsSegments(root), isDir)
    ensures o.Built? ==>
      && (forall x :: x in rules.allowedFiles || x in rules.allowedDirs ==> Inside(AbsSegments(root), AbsSegments(x)))
      && (forall x :: x in runtimeRoots ==> Usable(x, AbsSegments(root), isDir))
      && o.plan == Plan(Absolute(AbsSegments(root)), SortStrings(rules.allowedFiles),
        SortStrings(rules.allowedDirs), SortStrings(runtimeRoots))
  {
    hide Usable, Inside, SortStrings;
    if !rules.mode.Enforce? { return NotEnforced; }
    var base := AbsSegments(root);
    var paths := rules.allowedFiles + rules.allowedDirs;
    var at := FindEscape(paths, base);
    if at >= 0 {
      assert paths[at] in paths;
      return Escapes(paths[at]);
    }
    assert forall x :: x in paths <==> x in rules.allowedFiles || x in rules.allowedDirs;
    at := FindUnusable(runtimeRoots, base, isDir);
    if at >= 0 { return BadRuntimeRoot(runtimeRoots[at]); }
    return Built(Plan(Absolute(base), SortStrings(rules.allowedFiles), SortStrings(rules.allowedDirs),
      SortStrings(runtimeRoots)));
  }

  // -- The plan and the rules it comes from --------------------------------------------------

  /** Whatever was compiled lies inside the root, so a plan for it never fails on that account. */
  lemma CompiledStaysInside(p: ReadPolicy, root: string, entries: seq<Entry>, c: Compiled, glob: Glob, x: string)
    requires IsCompiled(p, AbsSegments(root), entries, c, glob) && AllCompilable(entries, AbsSegments(root))
    requires x in c.allowedFiles || x in c.allowedDirs
    ensures Inside(AbsSegments(root), AbsSegments(x))
  {
    hide Rooted, Normalize, Matches;
    var base := AbsSegments(root);
    RootedIsPlain(Paths.Split(root));
    NothingElse(p, base, entries, c, glob, x);
    var k :| 0 <= k < |entries| && Relevant(entries[k]) && Path(entries[k], base) == x;
    PlaceIsPlain(entries[k], base);
    CleanAgain(Place(entries[k], base));
    assert Compilable(entries[k], base);
  }

  lemma {:induction false} SortOfSorted(s: seq<string>)
    requires Ordering(ByString) && Sorted(s, ByString)
    ensures Sort(s, ByString) == s
  {
    if s != [] {
      assert forall i :: 0 < i < |s| ==> s[1..][i - 1] == s[i];
      SortOfSorted(s[1..]);
      assert s == [s[0]] + s[1..];
      if |s| > 1 { assert !ByString(s[1], s[0]); }
    }
  }

  /** Sorting the allowlists again changes nothing. */
  lemma SortedAgain(s: seq<string>)
    ensures SortStrings(SortStrings(s)) == SortStrings(s)
  {
    LessIsOrdering();
    assert Ordering(ByString);
    var r := SortStrings(s);
    assert forall i, j :: 0 <= i < j < |r| ==> !ByString(r[j], r[i]);
    SortOfSorted(r);
  }

  /**
   * From policy to kernel: compiling in enforce mode and planning succeeds whenever
   * the runtime roots are usable, and the plan's lists are exactly the sorted files
   * and directories of the manifest that no deny pattern matches.
   */
  method Protect(p: ReadPolicy, root: string, manifest: Manifest, runtimeRoots: seq<string>, isDir: string -> bool,
                 glob: Glob)
    returns (compiled: Compiled, o: Outcome)
    requires Valid(p) && p.mode.Enforce? && AllCompilable(manifest.entries, AbsSegments(root))
    ensures o.Built? <==> forall x :: x in runtimeRoots ==> Usable(x, AbsSegments(root), isDir)
    ensures IsCompiled(p, AbsSegments(root), manifest.entries, compiled, glob)
    ensures o.Built? ==> o.plan.allowedFiles == compiled.allowedFiles && o.plan.allowedDirs == compiled.allowedDirs
    ensures o.Built? ==> forall x ::
      x in o.plan.allowedFiles <==> !Matches(p.deny, x, glob) && IsEntry(manifest.entries, root, x, true)
    ensures o.Built? ==> forall x ::
      x in o.plan.allowedDirs <==> !Matches(p.deny, x, glob) && IsEntry(manifest.entries, root, x, false)
  {
    hide Valid, AllCompilable, Usable, Inside, Matches, SortStrings, AbsSegments, AllowedPaths, RulesAre, Path;
    var c := CompileRead(p, root, manifest, glob);
    compiled := c.value;
    o := BuildPlan(root, compiled, runtimeRoots, isDir);
    forall x | x in compiled.allowedFiles || x in compiled.allowedDirs
      ensures Inside(AbsSegments(root), AbsSegments(x)) {
      CompiledStaysInside(p, root, manifest.entries, compiled, glob, x);
    }
    SortedAgain(AllowedPaths(p, manifest.entries, AbsSegments(root), true, glob));
    SortedAgain(AllowedPaths(p, manifest.entries, AbsSegments(root), false, glob));
    AllowedMembers(p, manifest.entries, AbsSegments(root), true, glob);
    AllowedMembers(p, manifest.entries, AbsSegments(root), false, glob);
  }

  /** The manifest has a file, or a directory, with this path. */
  ghost predicate IsEntry(entries: seq<Entry>, root: string, path: string, file: bool) {
    exists k :: 0 <= k < |entries| && Relevant(entries[k]) && entries[k].node.File? == file
      && Path(entries[k], AbsSegments(root)) == path
  }
}
