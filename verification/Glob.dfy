// Listing files by a pattern: Go's filepath.Glob over the contents of directories.
module Glob {
  import opened Order
  import opened Tree

  /** The names in each directory. */
  type Dirs = map<string, seq<string>>

  /** A directory holds each name once, and no name holds a slash. */
  ghost predicate Proper(dirs: Dirs) {
    forall d :: d in dirs ==>
      Apart(dirs[d]) && forall i :: 0 <= i < |dirs[d]| ==> '/' !in dirs[d][i]
  }

  ghost predicate Apart(s: seq<string>) { forall i, j :: 0 <= i < j < |s| ==> s[i] != s[j] }

  // -- Patterns -----------------------------------------------------------------------------

  datatype Token = Star | Any | OneOf(negated: bool, ranges: seq<(char, char)>) | Only(c: char)

  predicate Bracket(c: char) { c == '[' || c == '\\' }

  predicate Magic(c: char) { c == '*' || c == '?' || Bracket(c) }

  predicate HasMeta(s: string) { exists i :: 0 <= i < |s| && Magic(s[i]) }

  predicate HasBracket(s: string) { exists i :: 0 <= i < |s| && Bracket(s[i]) }

  /** One end of a range in a class, and what follows, which must not be nothing. */
  function Endpoint(s: string): (r: Option<(char, string)>)
    ensures r.Some? ==> 0 < |r.value.1| < |s|
  {
    if s == "" || s[0] == '-' || s[0] == ']' then None
    else if s[0] == '\\' then if |s| < 3 then None else Some((s[1], s[2..]))
    else if |s| < 2 then None
    else Some((s[0], s[1..]))
  }

  /** The ranges of a class up to its closing bracket, and what follows. */
  function Ranges(s: string, some: bool): (r: Option<(seq<(char, char)>, string)>)
    ensures r.Some? ==> |r.value.1| < |s|
    decreases |s|
  {
    if s != "" && s[0] == ']' && some then Some(([], s[1..]))
    else
      match Endpoint(s)
      case None => None
      case Some((low, rest)) =>
        var high := if rest[0] == '-' then Endpoint(rest[1..]) else Some((low, rest));
        match high
        case None => None
        case Some((top, after)) =>
          match Ranges(after, true)
          case None => None
          case Some((more, end)) => Some(([(low, top)] + more, end))
  }

  function Then(t: Token, rest: Option<seq<Token>>): Option<seq<Token>> {
    match rest
    case None => None
    case Some(tokens) => Some([t] + tokens)
  }

  /** The meaning of a pattern; None when it is malformed. */
  function Parse(p: string): Option<seq<Token>>
    decreases |p|
  {
    if p == "" then Some([])
    else if p[0] == '*' then Then(Star, Parse(p[1..]))
    else if p[0] == '?' then Then(Any, Parse(p[1..]))
    else if p[0] == '\\' then if |p| == 1 then None else Then(Only(p[1]), Parse(p[2..]))
    else if p[0] == '[' then
      var negated := |p| > 1 && p[1] == '^';
      match Ranges(p[if negated then 2 else 1..], false)
      case None => None
      case Some((ranges, rest)) => Then(OneOf(negated, ranges), Parse(rest))
    else Then(Only(p[0]), Parse(p[1..]))
  }

  predicate Takes(t: Token, c: char) {
    match t
    case Star => c != '/'
    case Any => c != '/'
    case OneOf(negated, ranges) =>
      negated != exists i :: 0 <= i < |ranges| && ranges[i].0 <= c <= ranges[i].1
    case Only(d) => c == d
  }

  predicate Matches(tokens: seq<Token>, name: string)
    decreases |tokens| + |name|
  {
    if tokens == [] then name == ""
    else if tokens[0].Star? then
      Matches(tokens[1..], name) || (name != "" && Takes(Star, name[0]) && Matches(tokens, name[1..]))
    else name != "" && Takes(tokens[0], name[0]) && Matches(tokens[1..], name[1..])
  }

  // -- Paths --------------------------------------------------------------------------------

  /** How much of a path is its directory, the last slash included. */
  function Cut(path: string): (n: nat)
    ensures n <= |path| && '/' !in path[n..] && (n > 0 ==> path[n - 1] == '/')
  {
    if path == "" then 0
    else if path[|path| - 1] == '/' then |path|
    else
      var n := Cut(path[..|path| - 1]);
      assert path[n..] == path[..|path| - 1][n..] + [path[|path| - 1]];
      n
  }

  lemma CutUnique(path: string, n: nat)
    requires n <= |path| && '/' !in path[n..] && (n > 0 ==> path[n - 1] == '/')
    ensures Cut(path) == n
  {
    hide Cut;
    assert forall k :: n <= k < |path| ==> path[k] == path[n..][k - n];
    assert forall k :: Cut(path) <= k < |path| ==> path[k] == path[Cut(path)..][k - Cut(path)];
  }

  /** The directory without its trailing slash. */
  function DirOf(dir: string): string {
    if dir == "" then "." else if dir == "/" then dir else dir[..|dir| - 1]
  }

  /** filepath.Join of a cleaned directory and a name in it. */
  function InDir(dir: string, name: string): string {
    if dir == "." then name else if dir == "/" then dir + name else dir + "/" + name
  }

  // -- Listing ------------------------------------------------------------------------------

  function Joined(dir: string, names: seq<string>, tokens: seq<Token>): seq<string> {
    if names == [] then []
    else (if Matches(tokens, names[0]) then [InDir(dir, names[0])] else []) + Joined(dir, names[1..], tokens)
  }

  /** The matching files of one directory; a directory that cannot be read has none. */
  function ListDir(dirs: Dirs, dir: string, tokens: seq<Token>): seq<string> {
    if dir in dirs then Joined(dir, SortStrings(dirs[dir]), tokens) else []
  }

  function ListDirs(dirs: Dirs, among: seq<string>, tokens: seq<Token>): seq<string> {
    if among == [] then [] else ListDir(dirs, among[0], tokens) + ListDirs(dirs, among[1..], tokens)
  }

  /** Is there a file or a directory of that name? */
  predicate Exists(dirs: Dirs, path: string) {
    path in dirs || (DirOf(path[..Cut(path)]) in dirs && path[Cut(path)..] in dirs[DirOf(path[..Cut(path)])])
  }

  /** filepath.Glob, with errors ignored. */
  function Listing(dirs: Dirs, pattern: string): seq<string>
    decreases |pattern|
  {
    var dir, file := pattern[..Cut(pattern)], pattern[Cut(pattern)..];
    if Parse(pattern).None? then []
    else if !HasMeta(pattern) then if Exists(dirs, pattern) then [pattern] else []
    else if Parse(file).None? then []
    else if !HasMeta(DirOf(dir)) then ListDir(dirs, DirOf(dir), Parse(file).value)
    else ListDirs(dirs, Listing(dirs, DirOf(dir)), Parse(file).value)
  }

  lemma {:induction false} JoinedMembers(dir: string, names: seq<string>, tokens: seq<Token>, p: string)
    ensures p in Joined(dir, names, tokens)
      <==> exists name :: name in names && Matches(tokens, name) && p == InDir(dir, name)
  {
    hide Matches, InDir;
    if names != [] {
      JoinedMembers(dir, names[1..], tokens, p);
      assert names == [names[0]] + names[1..];
      assert forall name :: name in names <==> name == names[0] || name in names[1..];
    }
  }

  /** What is in a directory's listing. */
  lemma ListDirMembers(dirs: Dirs, dir: string, tokens: seq<Token>, p: string)
    ensures p in ListDir(dirs, dir, tokens)
      <==> dir in dirs && exists name :: name in dirs[dir] && Matches(tokens, name) && p == InDir(dir, name)
  {
    if dir in dirs { JoinedMembers(dir, SortStrings(dirs[dir]), tokens, p); }
  }

  lemma InDirApart(dir: string, a: string, b: string)
    requires a != b
    ensures InDir(dir, a) != InDir(dir, b)
  {
    var k := |InDir(dir, a)| - |a|;
    assert InDir(dir, a)[k..] == a && InDir(dir, b)[k..] == b;
  }

  lemma ApartCons(x: string, s: seq<string>)
    requires Apart(s) && x !in s
    ensures Apart([x] + s)
  {
    assert forall i :: 0 < i < |[x] + s| ==> ([x] + s)[i] == s[i - 1];
  }

  lemma ApartTail(s: seq<string>)
    requires Apart(s) && s != []
    ensures Apart(s[1..]) && s[0] !in s[1..]
  {
  }

  lemma {:induction false} JoinedApart(dir: string, names: seq<string>, tokens: seq<Token>)
    requires Apart(names)
    ensures Apart(Joined(dir, names, tokens))
  {
    hide Matches, InDir, Apart;
    if names == [] {
      NoneApart();
    } else {
      ApartTail(names);
      JoinedApart(dir, names[1..], tokens);
      var rest, x := Joined(dir, names[1..], tokens), InDir(dir, names[0]);
      JoinedMembers(dir, names[1..], tokens, x);
      forall name | name in names[1..] ensures InDir(dir, name) != x { InDirApart(dir, name, names[0]); }
      if Matches(tokens, names[0]) { ApartCons(x, rest); } else { assert [] + rest == rest; }
    }
  }

  lemma NoneApart()
    ensures Apart([])
  {
  }

  /** A directory's listing names each file once. */
  lemma ListDirApart(dirs: Dirs, dir: string, tokens: seq<Token>)
    requires Proper(dirs)
    ensures Apart(ListDir(dirs, dir, tokens))
  {
    hide Joined;
    if dir in dirs {
      DistinctKeysIncrease(dirs[dir], SortStrings(dirs[dir]), s => s);
      var names := SortStrings(dirs[dir]);
      forall i, j | 0 <= i < j < |names| ensures names[i] != names[j] { LessIrreflexive(names[i]); }
      JoinedApart(dir, names, tokens);
      assert ListDir(dirs, dir, tokens) == Joined(dir, names, tokens);
    } else {
      assert ListDir(dirs, dir, tokens) == [];
    }
  }

  lemma {:induction false} ListDirsMembers(dirs: Dirs, among: seq<string>, tokens: seq<Token>, p: string)
    ensures p in ListDirs(dirs, among, tokens) <==> exists d :: d in among && p in ListDir(dirs, d, tokens)
  {
    hide ListDir;
    if among != [] {
      ListDirsMembers(dirs, among[1..], tokens, p);
      assert among == [among[0]] + among[1..];
    }
  }

  // -- Under the root directory ------------------------------------------------------------------

  /** An absolute path; the root itself only where it says so. */
  predicate Rooted(path: string) { path != "" && path[0] == '/' }

  lemma InDirRooted(dir: string, name: string)
    requires Rooted(dir) && '/' !in name
    ensures Rooted(InDir(dir, name)) && |InDir(dir, name)| == |dir| + |name| + if dir == "/" then 0 else 1
    ensures Cut(InDir(dir, name)) == if dir == "/" then 1 else |dir| + 1
    ensures InDir(dir, name)[Cut(InDir(dir, name))..] == name
  {
    hide Cut;
    if dir == "/" {
      CutUnique(dir + name, 1);
    } else {
      CutUnique(dir + "/" + name, |dir| + 1);
    }
  }

  /** A file's path tells its directory and its name. */
  lemma InDirUnique(dir: string, name: string, other: string, also: string)
    requires Rooted(dir) && Rooted(other) && '/' !in name && '/' !in also && InDir(dir, name) == InDir(other, also)
    ensures dir == other && name == also
  {
    hide Cut;
    InDirRooted(dir, name);
    InDirRooted(other, also);
    var p := InDir(dir, name);
    assert dir != "/" ==> p[..|dir|] == dir;
    assert other != "/" ==> p[..|other|] == other;
  }

  ghost predicate AllRooted(paths: seq<string>) { forall p :: p in paths ==> Rooted(p) }

  lemma ListDirRooted(dirs: Dirs, dir: string, tokens: seq<Token>)
    requires Proper(dirs) && Rooted(dir)
    ensures AllRooted(ListDir(dirs, dir, tokens))
  {
    hide ListDir, Matches;
    forall p | p in ListDir(dirs, dir, tokens) ensures Rooted(p) {
      ListDirMembers(dirs, dir, tokens, p);
      var name :| name in dirs[dir] && Matches(tokens, name) && p == InDir(dir, name);
      InDirRooted(dir, name);
    }
  }

  lemma ApartOver(a: seq<string>, b: seq<string>)
    requires Apart(a) && Apart(b) && forall x :: x in a ==> x !in b
    ensures Apart(a + b)
  {
    var c := a + b;
    forall i, j | 0 <= i < j < |c| ensures c[i] != c[j] {
      if i < |a| && |a| <= j { assert c[i] in a && c[j] in b; }
    }
  }

  lemma {:induction false} ListDirsRooted(dirs: Dirs, among: seq<string>, tokens: seq<Token>)
    requires Proper(dirs) && AllRooted(among) && Apart(among)
    ensures AllRooted(ListDirs(dirs, among, tokens)) && Apart(ListDirs(dirs, among, tokens))
  {
    hide ListDir, Matches, Apart, Proper;
    if among == [] {
      NoneApart();
    } else {
      var here, rest := ListDir(dirs, among[0], tokens), ListDirs(dirs, among[1..], tokens);
      ApartTail(among);
      ListDirsRooted(dirs, among[1..], tokens);
      ListDirRooted(dirs, among[0], tokens);
      ListDirApart(dirs, among[0], tokens);
      forall p | p in here ensures p !in rest { ListedOnce(dirs, among[0], among[1..], tokens, p); }
      ApartOver(here, rest);
    }
  }

  lemma SameHome(dirs: Dirs, dir: string, other: string, tokens: seq<Token>, p: string)
    requires Proper(dirs) && Rooted(dir) && Rooted(other)
    requires p in ListDir(dirs, dir, tokens) && p in ListDir(dirs, other, tokens)
    ensures dir == other
  {
    hide ListDir, Matches, InDir;
    ListDirMembers(dirs, dir, tokens, p);
    ListDirMembers(dirs, other, tokens, p);
    var name :| name in dirs[dir] && Matches(tokens, name) && p == InDir(dir, name);
    var also :| also in dirs[other] && Matches(tokens, also) && p == InDir(other, also);
    InDirUnique(dir, name, other, also);
  }

  lemma ListedOnce(dirs: Dirs, dir: string, others: seq<string>, tokens: seq<Token>, p: string)
    requires Proper(dirs) && Rooted(dir) && AllRooted(others) && dir !in others && p in ListDir(dirs, dir, tokens)
    ensures p !in ListDirs(dirs, others, tokens)
  {
    hide ListDir, Proper;
    ListDirsMembers(dirs, others, tokens, p);
    forall d | d in others && p in ListDir(dirs, d, tokens) ensures d == dir { SameHome(dirs, d, dir, tokens, p); }
  }

  /** What an absolute pattern lists is absolute, and each path is listed once. */
  lemma {:induction false} ListingRooted(dirs: Dirs, pattern: string)
    requires Proper(dirs) && Rooted(pattern)
    ensures AllRooted(Listing(dirs, pattern)) && Apart(Listing(dirs, pattern))
    decreases |pattern|
  {
    hide ListDir, ListDirs, Parse, Proper;
    var dir, file := pattern[..Cut(pattern)], pattern[Cut(pattern)..];
    assert pattern[0..] == pattern && dir != "";
    var home := DirOf(dir);
    if Parse(pattern).Some? && HasMeta(pattern) && Parse(file).Some? {
      if HasMeta(home) {
        ListingRooted(dirs, home);
        ListDirsRooted(dirs, Listing(dirs, home), Parse(file).value);
      } else {
        ListDirRooted(dirs, home, Parse(file).value);
        ListDirApart(dirs, home, Parse(file).value);
      }
    }
  }

  // -- Patterns without a wildcard in them ------------------------------------------------------

  function Literal(s: string): (r: seq<Token>)
    ensures |r| == |s| && forall i :: 0 <= i < |r| ==> r[i] == Only(s[i])
  {
    if s == "" then [] else [Only(s[0])] + Literal(s[1..])
  }

  lemma PlainTail(s: string)
    requires !HasMeta(s) && s != ""
    ensures !Magic(s[0]) && !HasMeta(s[1..])
  {
    assert forall i :: 0 <= i < |s[1..]| ==> s[1..][i] == s[i + 1];
  }

  lemma PlainFirst(c: char, rest: string)
    requires !Magic(c)
    ensures Parse([c] + rest) == Then(Only(c), Parse(rest))
  {
    assert ([c] + rest)[1..] == rest;
  }

  lemma {:induction false} LiteralParses(s: string, rest: string)
    requires !HasMeta(s) && Parse(rest).Some?
    ensures Parse(s + rest) == Some(Literal(s) + Parse(rest).value)
  {
    hide Parse, Magic, HasMeta;
    if s == "" {
      assert s + rest == rest && Literal(s) + Parse(rest).value == Parse(rest).value;
    } else {
      PlainTail(s);
      LiteralParses(s[1..], rest);
      PlainFirst(s[0], s[1..] + rest);
      assert s + rest == [s[0]] + (s[1..] + rest);
      assert [Only(s[0])] + (Literal(s[1..]) + Parse(rest).value) == Literal(s) + Parse(rest).value;
    }
  }

  lemma {:induction false} LiteralMatches(s: string, tokens: seq<Token>, name: string)
    ensures Matches(Literal(s) + tokens, name) <==> s <= name && Matches(tokens, name[|s|..])
  {
    if s == "" {
      assert Literal(s) + tokens == tokens && name[0..] == name;
    } else {
      assert (Literal(s) + tokens)[1..] == Literal(s[1..]) + tokens;
      if name != "" {
        LiteralMatches(s[1..], tokens, name[1..]);
        assert s <= name <==> s[0] == name[0] && s[1..] <= name[1..];
        if s <= name { assert name[1..][|s| - 1..] == name[|s|..]; }
      }
    }
  }

  predicate EndsWith(name: string, tail: string) {
    |tail| <= |name| && name[|name| - |tail|..] == tail
  }

  lemma {:induction false} StarMatches(tail: string, name: string)
    requires '/' !in name
    ensures Matches([Star] + Literal(tail), name) <==> EndsWith(name, tail)
  {
    var tokens := [Star] + Literal(tail);
    assert tokens[1..] == Literal(tail) && Literal(tail) + [] == Literal(tail);
    LiteralMatches(tail, [], name);
    if name == "" {
    } else {
      StarMatches(tail, name[1..]);
      if |tail| < |name| { assert name[1..][|name[1..]| - |tail|..] == name[|name| - |tail|..]; }
    }
  }

  /** The path is that of a directory, or of a name in one. */
  ghost predicate Stands(dirs: Dirs, path: string) {
    path in dirs || exists d, name :: d in dirs && Rooted(d) && name in dirs[d] && path == InDir(d, name)
  }

  /** A cleaned path is a name in a directory. */
  lemma HomeAndName(path: string)
    requires Rooted(path) && (Cut(path) > 1 ==> path[Cut(path) - 2] != '/')
    ensures var home := DirOf(path[..Cut(path)]); Rooted(home) && path == InDir(home, path[Cut(path)..])
  {
    CutRooted(path);
    hide Cut;
    assert path == path[..Cut(path)] + path[Cut(path)..];
    var dir := path[..Cut(path)];
    if dir != "/" {
      assert dir == dir[..|dir| - 1] + "/";
      assert dir[..|dir| - 1][|dir| - 2] == path[Cut(path) - 2];
    }
  }

  lemma CutRooted(path: string)
    requires Rooted(path)
    ensures Cut(path) > 0
  {
    var tail := path[Cut(path)..];
    assert Cut(path) == 0 ==> tail == path;
    assert path[0] in path;
  }

  lemma StandsAtHome(dirs: Dirs, home: string, name: string)
    requires Proper(dirs) && Rooted(home) && '/' !in name
    ensures Stands(dirs, InDir(home, name)) <==> InDir(home, name) in dirs || (home in dirs && name in dirs[home])
  {
    hide InDir, Rooted;
    forall d, other | d in dirs && Rooted(d) && other in dirs[d] && InDir(home, name) == InDir(d, other)
      ensures d == home && other == name
    {
      InDirUnique(d, other, home, name);
    }
  }

  /** A pattern without wildcards lists itself, if there is such a file. */
  lemma ListingOfPlain(dirs: Dirs, path: string)
    requires Proper(dirs) && Rooted(path) && !HasMeta(path) && (Cut(path) > 1 ==> path[Cut(path) - 2] != '/')
    ensures Listing(dirs, path) == if Stands(dirs, path) then [path] else []
  {
    LiteralParses(path, "");
    assert path + "" == path;
    HomeAndName(path);
    hide HasMeta, Parse, InDir, DirOf, Cut, Stands, Proper;
    StandsAtHome(dirs, DirOf(path[..Cut(path)]), path[Cut(path)..]);
  }

  // -- Patterns with brackets -------------------------------------------------------------------

  ghost predicate Starless(tokens: seq<Token>) { forall i :: 0 <= i < |tokens| ==> !tokens[i].Star? }

  /** A pattern without stars is at least as long as what it matches, and longer if it has a bracket. */
  lemma {:induction false} ParseShort(p: string)
    requires Parse(p).Some? && '*' !in p
    ensures Starless(Parse(p).value) && |Parse(p).value| <= |p| && (HasBracket(p) ==> |Parse(p).value| < |p|)
    decreases |p|
  {
    if p != "" {
      var rest :=
        if p[0] == '\\' then p[2..]
        else if p[0] == '[' then Ranges(p[if |p| > 1 && p[1] == '^' then 2 else 1..], false).value.1
        else p[1..];
      RangesEnd(p);
      assert forall i :: 0 <= i < |rest| ==> rest[i] in p;
      ParseShort(rest);
      if !Bracket(p[0]) { assert forall i :: 0 < i < |p| ==> p[i] == rest[i - 1]; }
    }
  }

  lemma {:induction false} RangesAreTail(s: string, some: bool)
    requires Ranges(s, some).Some?
    ensures var rest := Ranges(s, some).value.1; rest == s[|s| - |rest|..]
    decreases |s|
  {
    if s == "" || s[0] != ']' || !some {
      var rest := Endpoint(s).value.1;
      var after := if rest[0] == '-' then Endpoint(rest[1..]).value.1 else rest;
      EndpointIsTail(s);
      if rest[0] == '-' { EndpointIsTail(rest[1..]); }
      RangesAreTail(after, true);
      var end := Ranges(after, true).value.1;
      hide Endpoint, Ranges;
      TailOfTail(s, rest, after, end);
    }
  }

  lemma TailOfTail(s: string, rest: string, after: string, end: string)
    requires |rest| <= |s| && rest == s[|s| - |rest|..] && |end| <= |after|
    requires (rest != "" && after == rest)
      || (rest != "" && |after| <= |rest| - 1 && after == rest[1..][|rest| - 1 - |after|..])
    requires end == after[|after| - |end|..]
    ensures |end| <= |s| && end == s[|s| - |end|..]
  {
    assert after == s[|s| - |after|..];
  }

  lemma EndpointIsTail(s: string)
    requires Endpoint(s).Some?
    ensures var rest := Endpoint(s).value.1; rest == s[|s| - |rest|..]
  {
  }

  lemma RangesEnd(p: string)
    requires Parse(p).Some?
    ensures p != "" && p[0] == '[' ==>
      var ranges := p[if |p| > 1 && p[1] == '^' then 2 else 1..];
      && Ranges(ranges, false).Some? && |Ranges(ranges, false).value.1| + 1 < |p|
      && forall i :: 0 <= i < |Ranges(ranges, false).value.1| ==> Ranges(ranges, false).value.1[i] in p
  {
    if p != "" && p[0] == '[' {
      var ranges := p[if |p| > 1 && p[1] == '^' then 2 else 1..];
      RangesAreTail(ranges, false);
    }
  }

  lemma {:induction false} StarlessLength(tokens: seq<Token>, name: string)
    requires Starless(tokens) && Matches(tokens, name)
    ensures |name| == |tokens|
  {
    if tokens != [] {
      assert forall i :: 0 <= i < |tokens[1..]| ==> tokens[1..][i] == tokens[i + 1];
      StarlessLength(tokens[1..], name[1..]);
    }
  }

  lemma ListDirShort(dirs: Dirs, d: string, dir: string, file: string, p: string)
    requires Parse(file).Some? && '*' !in file && p in ListDir(dirs, d, Parse(file).value)
    requires |d| <= |DirOf(dir)| && (dir == "" || dir == "/" ==> d == DirOf(dir))
    ensures |p| <= |dir| + |file|
    ensures |d| < |DirOf(dir)| || HasBracket(file) ==> |p| < |dir| + |file|
  {
    hide Parse, Matches, ListDir;
    ListDirMembers(dirs, d, Parse(file).value, p);
    var name :| name in dirs[d] && Matches(Parse(file).value, name) && p == InDir(d, name);
    ParseShort(file);
    StarlessLength(Parse(file).value, name);
  }

  /** The same of whole paths. */
  lemma {:induction false} GlobShort(dirs: Dirs, pattern: string, p: string)
    requires '*' !in pattern && p in Listing(dirs, pattern)
    ensures |p| <= |pattern| && (HasBracket(pattern) ==> |p| < |pattern|)
    decreases |pattern|
  {
    hide Parse, ListDir, Matches;
    var dir, file := pattern[..Cut(pattern)], pattern[Cut(pattern)..];
    assert pattern == dir + file;
    if HasMeta(pattern) {
      if HasMeta(DirOf(dir)) {
        ListDirsMembers(dirs, Listing(dirs, DirOf(dir)), Parse(file).value, p);
        var d :| d in Listing(dirs, DirOf(dir)) && p in ListDir(dirs, d, Parse(file).value);
        GlobShort(dirs, DirOf(dir), d);
        ListDirShort(dirs, d, dir, file, p);
        BracketsDivide(dir, file);
      } else {
        ListDirShort(dirs, DirOf(dir), dir, file, p);
        BracketsDivide(dir, file);
        BracketIsMeta(DirOf(dir));
      }
    } else {
      BracketIsMeta(pattern);
    }
  }

  lemma BracketIsMeta(s: string)
    ensures HasBracket(s) ==> HasMeta(s)
  {
    assert forall i :: 0 <= i < |s| && Bracket(s[i]) ==> Magic(s[i]);
  }

  lemma BracketsDivide(dir: string, file: string)
    requires dir != "" ==> dir[|dir| - 1] == '/'
    ensures HasBracket(dir + file) ==> HasBracket(DirOf(dir)) || HasBracket(file)
  {
    if i :| 0 <= i < |dir + file| && Bracket((dir + file)[i]) {
      if i < |dir| { assert DirOf(dir)[i] == dir[i]; } else { assert file[i - |dir|] == (dir + file)[i]; }
    }
  }
}
