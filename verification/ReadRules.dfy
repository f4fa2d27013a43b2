// Compiling a read policy against a manifest: exact rules for the paths that are
// there, and exact allowlists.
module ReadRules {
  import opened Order
  import opened Text
  import opened Tree
  import opened Diff
  import opened Policy
  import Paths

  /** filepath.Clean of an absolute path, on its segments: .. at the root stays at the root. */
  function Rooted(segments: seq<string>): seq<string> {
    if segments == [] then []
    else
      var before, last := Rooted(Front(segments)), Last(segments);
      if last == "" || last == "." then before
      else if last == ".." then (if before == [] then [] else Front(before))
      else before + [last]
  }

  /** The segments of an absolute path. */
  function AbsSegments(path: string): seq<string> {
    Rooted(Paths.Split(path))
  }

  function Absolute(segments: seq<string>): string {
    "/" + Paths.Join(segments)
  }

  /** isWithin, segment by segment. */
  predicate Inside(root: seq<string>, path: seq<string>)
    ensures Inside(root, path) <==> |root| <= |path| && forall i :: 0 <= i < |root| ==> path[i] == root[i]
  {
    root <= path
  }

  /** NormalizePath. */
  function Normalize(path: string): string {
    var p := Trim(path);
    if p == "." then "" else if "./" <= p then p[2..] else p
  }

  const MAX_KERNEL_PATH_BYTES: nat := 255

  datatype ReadRule = ReadRule(path: string, decision: Decision)

  datatype Compiled = Compiled(mode: Mode, rules: seq<ReadRule>, allowedFiles: seq<string>, allowedDirs: seq<string>)

  predicate Relevant(e: Entry) {
    e.node.File? || e.node.Directory?
  }

  function Place(e: Entry, root: seq<string>): seq<string> {
    Rooted(root + Paths.Split(Normalize(e.path)))
  }

  function Path(e: Entry, root: seq<string>): string {
    Absolute(Place(e, root))
  }

  predicate Compilable(e: Entry, root: seq<string>) {
    Relevant(e) ==> Inside(root, Place(e, root)) && |Path(e, root)| <= 255
  }

  predicate AllCompilable(entries: seq<Entry>, root: seq<string>) {
    forall i :: 0 <= i < |entries| ==> Compilable(entries[i], root)
  }

  /** The allowed paths of one kind, in the manifest's order. */
  ghost function AllowedPaths(p: ReadPolicy, entries: seq<Entry>, root: seq<string>, files: bool,
                              glob: Glob): seq<string> {
    if entries == [] then []
    else
      var before, e := AllowedPaths(p, Front(entries), root, files, glob), Last(entries);
      if p.mode.Enforce? && Relevant(e) && e.node.File? == files && Verdict(p, Path(e, root), glob).Allowed?
      then before + [Path(e, root)] else before
  }

  /** Some entry has this path. */
  ghost predicate Listed(entries: seq<Entry>, root: seq<string>, path: string) {
    exists k :: 0 <= k < |entries| && Relevant(entries[k]) && Path(entries[k], root) == path
  }

  /** The rules are the paths that are not simply allowed, in order; the allowlists are the sorted allowed paths. */
  ghost predicate IsCompiled(p: ReadPolicy, root: seq<string>, entries: seq<Entry>, c: Compiled, glob: Glob) {
    && c.mode == p.mode
    && RulesAre(p, root, entries, c.rules, glob)
    && c.allowedFiles == SortStrings(AllowedPaths(p, entries, root, true, glob))
    && c.allowedDirs == SortStrings(AllowedPaths(p, entries, root, false, glob))
  }

  ghost predicate RulesAre(p: ReadPolicy, root: seq<string>, entries: seq<Entry>, rules: seq<ReadRule>, glob: Glob) {
    && (forall i, j :: 0 <= i < j < |rules| ==> Less(rules[i].path, rules[j].path))
    && forall rule :: rule in rules <==>
      Listed(entries, root, rule.path) && !rule.decision.Allowed? && rule.decision == Verdict(p, rule.path, glob)
  }

  const ByPath := (a: ReadRule, b: ReadRule) => Less(a.path, b.path)

  /** The rules of a table, whatever order its keys come in, sorted by path. */
  method SortedRules(byPath: map<string, Decision>) returns (rules: seq<ReadRule>)
    ensures forall i, j :: 0 <= i < j < |rules| ==> Less(rules[i].path, rules[j].path)
    ensures forall rule :: rule in rules <==> rule.path in byPath && byPath[rule.path] == rule.decision
  {
    var listed := ListRules(byPath);
    LessIsOrdering();
    assert Ordering(ByPath);
    SortMembers(listed, ByPath);
    rules := Sort(listed, ByPath);
    assert forall i, j :: 0 <= i < j < |rules| ==> !ByPath(rules[j], rules[i]);
    DistinctKeysIncrease(listed, rules, (r: ReadRule) => r.path);
  }

  /** The table's entries in the order of the map's iteration. */
  method ListRules(byPath: map<string, Decision>) returns (listed: seq<ReadRule>)
    ensures forall i, j :: 0 <= i < j < |listed| ==> listed[i].path != listed[j].path
    ensures forall rule :: rule in listed <==> rule.path in byPath && byPath[rule.path] == rule.decision
  {
    listed := [];
    var left := byPath.Keys;
    while left != {}
      invariant left <= byPath.Keys
      invariant forall rule ::
        rule in listed <==> rule.path in byPath && rule.path !in left && byPath[rule.path] == rule.decision
      invariant forall i, j :: 0 <= i < j < |listed| ==> listed[i].path != listed[j].path
      decreases left
    {
      var path :| path in left;
      assert forall i :: 0 <= i < |listed| ==> listed[i] in listed;
      listed := listed + [ReadRule(path, byPath[path])];
      left := left - {path};
    }
  }

  /** The table holds the entries seen so far that are not simply allowed. */
  ghost predicate TableIs(p: ReadPolicy, root: seq<string>, entries: seq<Entry>, byPath: map<string, Decision>,
                          glob: Glob) {
    forall path :: Lookup(byPath, path) ==
      if Listed(entries, root, path) && !Verdict(p, path, glob).Allowed? then Some(Verdict(p, path, glob)) else None
  }

  function Lookup(m: map<string, Decision>, path: string): Option<Decision> {
    if path in m then Some(m[path]) else None
  }

  lemma ListedMore(entries: seq<Entry>, e: Entry, root: seq<string>)
    ensures forall path ::
      Listed(entries + [e], root, path) <==> Listed(entries, root, path) || (Relevant(e) && Path(e, root) == path)
  {
    var more := entries + [e];
    assert more[|entries|] == e;
    forall path ensures Listed(more, root, path)
      <==> Listed(entries, root, path) || (Relevant(e) && Path(e, root) == path) {
      if Listed(entries, root, path) {
        var k :| 0 <= k < |entries| && Relevant(entries[k]) && Path(entries[k], root) == path;
        assert more[k] == entries[k];
      }
    }
  }

  lemma TableMore(p: ReadPolicy, root: seq<string>, entries: seq<Entry>, e: Entry, byPath: map<string, Decision>,
                  glob: Glob)
    requires TableIs(p, root, entries, byPath, glob)
    ensures !Relevant(e) || Verdict(p, Path(e, root), glob).Allowed? ==> TableIs(p, root, entries + [e], byPath, glob)
    ensures Relevant(e) && !Verdict(p, Path(e, root), glob).Allowed? ==>
      TableIs(p, root, entries + [e], byPath[Path(e, root) := Verdict(p, Path(e, root), glob)], glob)
  {
    hide Verdict, Path, Listed;
    ListedMore(entries, e, root);
  }

  lemma RulesFromTable(p: ReadPolicy, root: seq<string>, entries: seq<Entry>, byPath: map<string, Decision>,
                       rules: seq<ReadRule>, glob: Glob)
    requires TableIs(p, root, entries, byPath, glob)
    requires forall i, j :: 0 <= i < j < |rules| ==> Less(rules[i].path, rules[j].path)
    requires forall rule :: rule in rules <==> rule.path in byPath && byPath[rule.path] == rule.decision
    ensures RulesAre(p, root, entries, rules, glob)
  {
    hide Verdict, Listed;
    forall rule: ReadRule
      ensures rule in rules <==>
        Listed(entries, root, rule.path) && !rule.decision.Allowed? && rule.decision == Verdict(p, rule.path, glob)
    {
      assert Lookup(byPath, rule.path) ==
        if Listed(entries, root, rule.path) && !Verdict(p, rule.path, glob).Allowed?
          then Some(Verdict(p, rule.path, glob)) else None;
    }
  }

  lemma AllowedMore(p: ReadPolicy, entries: seq<Entry>, e: Entry, root: seq<string>, files: bool, glob: Glob)
    ensures AllowedPaths(p, entries + [e], root, files, glob) ==
      AllowedPaths(p, entries, root, files, glob) +
      if p.mode.Enforce? && Relevant(e) && e.node.File? == files && Verdict(p, Path(e, root), glob).Allowed?
        then [Path(e, root)] else []
  {
    assert Front(entries + [e]) == entries && Last(entries + [e]) == e;
  }

  /** What the loop over the entries has built. */
  ghost predicate Built(p: ReadPolicy, root: seq<string>, entries: seq<Entry>, byPath: map<string, Decision>,
                        files: seq<string>, dirs: seq<string>, glob: Glob) {
    && TableIs(p, root, entries, byPath, glob)
    && files == AllowedPaths(p, entries, root, true, glob)
    && dirs == AllowedPaths(p, entries, root, false, glob)
  }

  lemma BuiltMore(p: ReadPolicy, root: seq<string>, entries: seq<Entry>, e: Entry, byPath: map<string, Decision>,
                  files: seq<string>, dirs: seq<string>, glob: Glob)
    requires Built(p, root, entries, byPath, files, dirs, glob)
    ensures var path := Path(e, root);
      var decision := Verdict(p, path, glob);
      if !Relevant(e) then Built(p, root, entries + [e], byPath, files, dirs, glob)
      else if !decision.Allowed? then Built(p, root, entries + [e], byPath[path := decision], files, dirs, glob)
      else if !p.mode.Enforce? then Built(p, root, entries + [e], byPath, files, dirs, glob)
      else if e.node.File? then Built(p, root, entries + [e], byPath, files + [path], dirs, glob)
      else Built(p, root, entries + [e], byPath, files, dirs + [path], glob)
  {
    hide Verdict, Path, TableIs, AllowedPaths;
    TableMore(p, root, entries, e, byPath, glob);
    AllowedMore(p, entries, e, root, true, glob);
    AllowedMore(p, entries, e, root, false, glob);
  }

  lemma NothingBuilt(p: ReadPolicy, root: seq<string>, glob: Glob)
    ensures Built(p, root, [], map[], [], [], glob)
  {
  }

  /** One entry: nothing, a rule, or a place on an allowlist. */
  method CompileEntry(p: ReadPolicy, root: seq<string>, e: Entry, before: map<string, Decision>, oldFiles: seq<string>,
                      oldDirs: seq<string>, ghost done: seq<Entry>, glob: Glob)
    returns (ok: bool, byPath: map<string, Decision>, files: seq<string>, dirs: seq<string>)
    requires Built(p, root, done, before, oldFiles, oldDirs, glob)
    ensures ok <==> Compilable(e, root)
    ensures ok ==> Built(p, root, done + [e], byPath, files, dirs, glob)
  {
    hide Verdict, Built, Matches, Match;
    byPath, files, dirs := before, oldFiles, oldDirs;
    BuiltMore(p, root, done, e, before, oldFiles, oldDirs, glob);
    if !e.node.File? && !e.node.Directory? { return true, byPath, files, dirs; }
    var place := Place(e, root);
    var candidate := Absolute(place);
    if !Inside(root, place) { return false, byPath, files, dirs; }
    if |candidate| > MAX_KERNEL_PATH_BYTES { return false, byPath, files, dirs; }
    hide Place, Absolute, Inside;
    var explanation := Explain(p, candidate, glob);
    if !explanation.decision.Allowed? {
      byPath := byPath[candidate := explanation.decision];
    } else if p.mode.Enforce? {
      if e.node.File? { files := files + [candidate]; } else { dirs := dirs + [candidate]; }
    }
    return true, byPath, files, dirs;
  }

  /** The entries one by one, up to one that escapes the root or is too long for the kernel. */
  method CompileEntries(p: ReadPolicy, root: seq<string>, entries: seq<Entry>, glob: Glob)
    returns (ok: bool, byPath: map<string, Decision>, files: seq<string>, dirs: seq<string>)
    ensures ok <==> AllCompilable(entries, root)
    ensures ok ==> Built(p, root, entries, byPath, files, dirs, glob)
  {
    hide Compilable, Built;
    ok, byPath, files, dirs := true, map[], [], [];
    NothingBuilt(p, root, glob);
    for i := 0 to |entries|
      invariant ok && forall k :: 0 <= k < i ==> Compilable(entries[k], root)
      invariant Built(p, root, entries[..i], byPath, files, dirs, glob)
    {
      ok, byPath, files, dirs := CompileEntry(p, root, entries[i], byPath, files, dirs, entries[..i], glob);
      assert entries[..i + 1] == entries[..i] + [entries[i]];
      if !ok { return; }
    }
    assert entries[..|entries|] == entries;
  }

  /** CompileRead; None when the policy is not valid or an entry cannot be compiled. */
  method CompileRead(p: ReadPolicy, root: string, manifest: Manifest, glob: Glob) returns (c: Option<Compiled>)
    ensures c.Some? <==> Valid(p) && (p.mode.Off? || AllCompilable(manifest.entries, AbsSegments(root)))
    ensures c.Some? && p.mode.Off? ==> c.value == Compiled(Off, [], [], [])
    ensures c.Some? && !p.mode.Off? ==> IsCompiled(p, AbsSegments(root), manifest.entries, c.value, glob)
  {
    hide AllCompilable, Verdict, Match, AllowedPaths, TableIs, RulesAre;
    var valid := Validate(p);
    if !valid { return None; }
    if p.mode.Off? { return Some(Compiled(p.mode, [], [], [])); }
    var ok, byPath, files, dirs := CompileEntries(p, AbsSegments(root), manifest.entries, glob);
    if !ok { return None; }
    var rules := SortedRules(byPath);
    RulesFromTable(p, AbsSegments(root), manifest.entries, byPath, rules, glob);
    return Some(Compiled(p.mode, rules, SortStrings(files), SortStrings(dirs)));
  }

  // -- Where an entry's path lies ----------------------------------------------------------

  predicate AllPlain(segments: seq<string>) {
    forall i :: 0 <= i < |segments| ==> Paths.Plain(segments[i]) && '/' !in segments[i]
  }

  lemma {:induction false} RootedIsPlain(segments: seq<string>)
    requires forall i :: 0 <= i < |segments| ==> '/' !in segments[i]
    ensures AllPlain(Rooted(segments))
  {
    if segments != [] {
      RootedIsPlain(Front(segments));
      var before := Rooted(Front(segments));
      assert before != [] ==> AllPlain(Front(before));
    }
  }

  lemma {:induction false} RootedOfPlain(segments: seq<string>)
    requires AllPlain(segments)
    ensures Rooted(segments) == segments && Rooted([""] + segments) == segments
  {
    if segments == [] {
      assert Front([""] + segments) == [] && Last([""] + segments) == "";
    } else {
      RootedOfPlain(Front(segments));
      assert segments == Front(segments) + [Last(segments)];
      assert Front([""] + segments) == [""] + Front(segments) && Last([""] + segments) == Last(segments);
    }
  }

  /** Cleaning a clean absolute path gives the same path. */
  lemma CleanAgain(segments: seq<string>)
    requires AllPlain(segments)
    ensures AbsSegments(Absolute(segments)) == segments
  {
    if segments == [] {
      assert Absolute(segments) == "/" && Paths.Split("/") == ["", ""];
      assert Front(["", ""]) == [""] && Rooted([""]) == [] && Rooted(["", ""]) == [];
    } else {
      Paths.SplitJoin(segments);
      Paths.SplitPiece("", Paths.Join(segments));
      assert "" + "/" + Paths.Join(segments) == Absolute(segments);
      RootedOfPlain(segments);
    }
  }

  lemma PlaceIsPlain(e: Entry, root: seq<string>)
    requires AllPlain(root)
    ensures AllPlain(Place(e, root))
  {
    RootedIsPlain(root + Paths.Split(Normalize(e.path)));
  }

  lemma {:induction false} TrimShortens(s: string)
    ensures Trim(s) == s || |Trim(s)| < |s|
  {
    if s != "" {
      if IsSpace(s[0]) { TrimShortens(s[1..]); } else if IsSpace(s[|s| - 1]) { TrimShortens(s[..|s| - 1]); }
    }
  }

  /** The length of some segments with a slash behind each. */
  function Bulk(segments: seq<string>): nat {
    if segments == [] then 0 else Bulk(Front(segments)) + |Last(segments)| + 1
  }

  lemma {:induction false} BulkOver(a: seq<string>, b: seq<string>)
    ensures Bulk(a + b) == Bulk(a) + Bulk(b)
  {
    if b == [] {
      assert a + b == a;
    } else {
      BulkOver(a, Front(b));
      assert Front(a + b) == a + Front(b) && Last(a + b) == Last(b);
    }
  }

  lemma {:induction false} RootedBulk(segments: seq<string>)
    ensures Bulk(Rooted(segments)) <= Bulk(segments)
  {
    if segments != [] {
      RootedBulk(Front(segments));
      var before, last := Rooted(Front(segments)), Last(segments);
      assert Front(before + [last]) == before;
    }
  }

  lemma {:induction false} JoinBulk(segments: seq<string>)
    requires segments != []
    ensures Bulk(segments) == |Paths.Join(segments)| + 1
  {
    assert segments == [segments[0]] + segments[1..];
    BulkOver([segments[0]], segments[1..]);
    assert Front([segments[0]]) == [];
    if |segments| > 1 { JoinBulk(segments[1..]); }
  }

  /** A clean path has no dots to normalise away. */
  lemma CleanIsNormal(path: string)
    requires Paths.Clean(path)
    ensures path != "." && !("./" <= path)
  {
    assert Paths.Plain(Paths.Split(path)[0]);
    hide Paths.Split, Paths.Clean;
    Paths.SplitPiece(".", "");
    if "./" <= path {
      assert path == "." + "/" + path[2..];
      Paths.SplitPiece(".", path[2..]);
    }
  }

  /** An entry is compiled under its own path exactly if that has no white space at its ends. */
  lemma EntryKeepsItsPath(e: Entry, root: seq<string>)
    requires AllPlain(root) && Paths.Clean(e.path)
    ensures Place(e, root) == root + Paths.Split(e.path) <==> Trim(e.path) == e.path
  {
    var own, taken := Paths.Split(e.path), Paths.Split(Normalize(e.path));
    if Trim(e.path) == e.path {
      CleanIsNormal(e.path);
      RootedOfPlain(root + own);
    } else {
      TrimShortens(e.path);
      RootedBulk(root + taken);
      BulkOver(root, own);
      BulkOver(root, taken);
      Paths.JoinSplit(e.path);
      Paths.JoinSplit(Normalize(e.path));
      JoinBulk(own);
      JoinBulk(taken);
    }
  }

  /** The entries of a manifest have different paths when compiled, white space at their ends excepted. */
  lemma EntriesStayApart(entries: seq<Entry>, root: seq<string>)
    requires AllPlain(root)
    requires forall i :: 0 <= i < |entries| ==> Paths.Clean(entries[i].path) && Trim(entries[i].path) == entries[i].path
    requires forall i, j :: 0 <= i < j < |entries| ==> entries[i].path != entries[j].path
    ensures DistinctPaths(entries, root)
  {
    hide Place, Absolute, AbsSegments, Paths.Split, Paths.Clean, Trim;
    forall i, j | 0 <= i < j < |entries| && Relevant(entries[i]) && Relevant(entries[j])
      ensures Path(entries[i], root) != Path(entries[j], root)
    {
      EntryKeepsItsPath(entries[i], root);
      EntryKeepsItsPath(entries[j], root);
      PlaceIsPlain(entries[i], root);
      PlaceIsPlain(entries[j], root);
      CleanAgain(Place(entries[i], root));
      CleanAgain(Place(entries[j], root));
      Paths.JoinSplit(entries[i].path);
      Paths.JoinSplit(entries[j].path);
      SameTail(root, Paths.Split(entries[i].path), Paths.Split(entries[j].path));
    }
  }

  lemma SameTail(root: seq<string>, a: seq<string>, b: seq<string>)
    requires a != b
    ensures root + a != root + b
  {
    assert (root + a)[|root|..] == a && (root + b)[|root|..] == b;
  }

  // -- What compiled rules mean --------------------------------------------------------------

  lemma {:induction false} AllowedMembers(p: ReadPolicy, entries: seq<Entry>, root: seq<string>, files: bool,
                                          glob: Glob)
    ensures forall x :: x in AllowedPaths(p, entries, root, files, glob) <==>
      p.mode.Enforce? && Verdict(p, x, glob).Allowed?
      && exists k ::
        0 <= k < |entries| && Relevant(entries[k]) && entries[k].node.File? == files && Path(entries[k], root) == x
  {
    hide Verdict, Path;
    if entries != [] {
      AllowedMembers(p, Front(entries), root, files, glob);
      assert entries == Front(entries) + [Last(entries)];
    }
  }

  /** Different entries have different paths. */
  ghost predicate DistinctPaths(entries: seq<Entry>, root: seq<string>) {
    forall i, j :: 0 <= i < j < |entries| && Relevant(entries[i]) && Relevant(entries[j])
      ==> Path(entries[i], root) != Path(entries[j], root)
  }

  /**
   * In enforce mode every file and directory of the manifest lands in exactly one of
   * the deny rules, the allowed files and the allowed directories: in the rules
   * exactly when a deny pattern matches it, else in the list of its kind.
   */
  lemma ExactlyOne(p: ReadPolicy, root: seq<string>, entries: seq<Entry>, c: Compiled, glob: Glob, k: nat)
    requires IsCompiled(p, root, entries, c, glob) && p.mode.Enforce? && DistinctPaths(entries, root)
    requires k < |entries| && Relevant(entries[k])
    ensures var path := Path(entries[k], root);
      var denied := Matches(p.deny, path, glob);
      && (ReadRule(path, Denied) in c.rules <==> denied)
      && (path in c.allowedFiles <==> !denied && entries[k].node.File?)
      && (path in c.allowedDirs <==> !denied && entries[k].node.Directory?)
  {
    hide Path, Matches;
    RuledOut(p, root, entries, c, glob, k);
    AllowedMembers(p, entries, root, true, glob);
    AllowedMembers(p, entries, root, false, glob);
  }

  lemma RuledOut(p: ReadPolicy, root: seq<string>, entries: seq<Entry>, c: Compiled, glob: Glob, k: nat)
    requires IsCompiled(p, root, entries, c, glob) && p.mode.Enforce? && k < |entries| && Relevant(entries[k])
    ensures var path := Path(entries[k], root); ReadRule(path, Denied) in c.rules <==> Matches(p.deny, path, glob)
  {
    hide Path, Matches;
    assert Listed(entries, root, Path(entries[k], root));
    assert ReadRule(Path(entries[k], root), Denied).path == Path(entries[k], root);
  }

  /** Only what the manifest lists is ever ruled on or allowed. */
  lemma NothingElse(p: ReadPolicy, root: seq<string>, entries: seq<Entry>, c: Compiled, glob: Glob, x: string)
    requires IsCompiled(p, root, entries, c, glob)
    requires x in c.allowedFiles || x in c.allowedDirs || exists rule :: rule in c.rules && rule.path == x
    ensures Listed(entries, root, x)
  {
    hide Path, Verdict;
    AllowedMembers(p, entries, root, true, glob);
    AllowedMembers(p, entries, root, false, glob);
  }

  /** One more deny pattern takes exactly the paths it matches off the allowlists. */
  lemma DenyShrinks(p: ReadPolicy, pattern: string, root: seq<string>, entries: seq<Entry>, c: Compiled, d: Compiled,
                    glob: Glob)
    requires p.mode.Enforce? && IsCompiled(p, root, entries, c, glob)
    requires IsCompiled(p.(deny := p.deny + [pattern]), root, entries, d, glob)
    ensures forall x :: x in d.allowedFiles <==> x in c.allowedFiles && !Match(pattern, x, glob)
    ensures forall x :: x in d.allowedDirs <==> x in c.allowedDirs && !Match(pattern, x, glob)
  {
    hide Path, Match, SortStrings;
    var q := p.(deny := p.deny + [pattern]);
    forall x ensures Matches(q.deny, x, glob) <==> Matches(p.deny, x, glob) || Match(pattern, x, glob) {
      MatchesMore(p.deny, pattern, x, glob);
    }
    AllowedMembers(p, entries, root, true, glob);
    AllowedMembers(p, entries, root, false, glob);
    AllowedMembers(q, entries, root, true, glob);
    AllowedMembers(q, entries, root, false, glob);
  }

  lemma MatchesMore(patterns: seq<string>, pattern: string, x: string, glob: Glob)
    ensures Matches(patterns + [pattern], x, glob) <==> Matches(patterns, x, glob) || Match(pattern, x, glob)
  {
    var more := patterns + [pattern];
    assert more[|patterns|] == pattern;
    if Matches(patterns, x, glob) {
      var i :| 0 <= i < |patterns| && Match(patterns[i], x, glob);
      assert more[i] == patterns[i];
    }
  }

  /** Allow patterns change nothing that is compiled. */
  lemma {:induction false} AllowChangesNothing(p: ReadPolicy, allow: seq<string>, root: seq<string>,
                                               entries: seq<Entry>, c: Compiled, glob: Glob)
    requires IsCompiled(p, root, entries, c, glob)
    ensures IsCompiled(p.(allow := allow), root, entries, c, glob)
  {
    AllowedIgnoresAllow(p, allow, root, entries, true, glob);
    AllowedIgnoresAllow(p, allow, root, entries, false, glob);
    hide AllowedPaths, Matches, Listed;
    assert forall x :: Verdict(p.(allow := allow), x, glob) == Verdict(p, x, glob);
  }

  lemma {:induction false} AllowedIgnoresAllow(p: ReadPolicy, allow: seq<string>, root: seq<string>,
                                               entries: seq<Entry>, files: bool, glob: Glob)
    ensures AllowedPaths(p.(allow := allow), entries, root, files, glob) == AllowedPaths(p, entries, root, files, glob)
  {
    hide Path, Matches;
    if entries != [] { AllowedIgnoresAllow(p, allow, root, Front(entries), files, glob); }
  }

  /** The compiled rules are determined by the policy and the manifest. */
  lemma CompiledIsUnique(p: ReadPolicy, root: seq<string>, entries: seq<Entry>, c: Compiled, d: Compiled, glob: Glob)
    requires IsCompiled(p, root, entries, c, glob) && IsCompiled(p, root, entries, d, glob)
    ensures c == d
  {
    hide AllowedPaths, Listed, Verdict;
    SameRules(c.rules, d.rules);
  }

  lemma {:induction false} SameRules(a: seq<ReadRule>, b: seq<ReadRule>)
    requires forall i, j :: 0 <= i < j < |a| ==> Less(a[i].path, a[j].path)
    requires forall i, j :: 0 <= i < j < |b| ==> Less(b[i].path, b[j].path)
    requires forall rule :: rule in a <==> rule in b
    ensures a == b
  {
    var s, t := RulePaths(a), RulePaths(b);
    forall x ensures x in s <==> x in t {
      if x in s {
        var i :| 0 <= i < |s| && s[i] == x;
        assert a[i] in b;
        var j :| 0 <= j < |b| && b[j] == a[i];
        assert t[j] == x;
      }
      if x in t {
        var i :| 0 <= i < |t| && t[i] == x;
        assert b[i] in a;
        var j :| 0 <= j < |a| && a[j] == b[i];
        assert s[j] == x;
      }
    }
    IncreasingIsUnique(s, t);
    forall i | 0 <= i < |a| ensures a[i] == b[i] {
      assert a[i] in b;
      var j :| 0 <= j < |b| && b[j] == a[i];
      assert s[i] == t[i] && t[j] == s[i];
      if i < j { LessIrreflexive(t[i]); }
      if j < i { LessIrreflexive(t[j]); }
    }
  }

  function RulePaths(rules: seq<ReadRule>): (r: seq<string>)
    ensures |r| == |rules| && forall i :: 0 <= i < |r| ==> r[i] == rules[i].path
  {
    if rules == [] then [] else [rules[0].path] + RulePaths(rules[1..])
  }
}
