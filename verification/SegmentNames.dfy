// The names of rotated journal files, and finding the files again and putting them
// back in order by their names.
module SegmentNames {
  import opened Glob
  import opened Order
  import opened Text
  import opened Tree

  function Digit(d: nat): char
    requires d < 10
  {
    ('0' as int + d) as char
  }

  /** Decimal digits. */
  function Digits(n: nat): (r: string)
    ensures r != ""
  {
    if n < 10 then [Digit(n)] else Digits(n / 10) + [Digit(n % 10)]
  }

  function Zeros(k: nat): (r: string)
    ensures |r| == k
  {
    if k == 0 then "" else "0" + Zeros(k - 1)
  }

  /** The format %06d. */
  function Padded(n: nat): string {
    var digits := Digits(n);
    if |digits| < 6 then Zeros(6 - |digits|) + digits else digits
  }

  /** The file opened by the nth rotation. */
  function Name(stem: string, n: nat): string {
    stem + ("-" + (Padded(n) + ".jsonl"))
  }

  /** Exactly w digits. */
  function Fixed(n: nat, w: nat): (r: string)
    ensures |r| == w
  {
    if w == 0 then "" else Fixed(n / 10, w - 1) + [Digit(n % 10)]
  }

  function Power(w: nat): nat { if w == 0 then 1 else 10 * Power(w - 1) }

  lemma {:induction false} LessAppend(a: string, b: string, x: string, y: string)
    requires |a| == |b| && Less(a, b)
    ensures Less(a + x, b + y)
  {
    assert (a + x)[1..] == a[1..] + x && (b + y)[1..] == b[1..] + y;
    if a[0] == b[0] { LessAppend(a[1..], b[1..], x, y); }
  }

  lemma {:induction false} LessPrepend(p: string, a: string, b: string)
    ensures Less(p + a, p + b) <==> Less(a, b)
  {
    if p == "" {
      assert p + a == a && p + b == b;
    } else {
      assert (p + a)[1..] == p[1..] + a && (p + b)[1..] == p[1..] + b;
      LessPrepend(p[1..], a, b);
    }
  }

  lemma {:induction false} FixedIncreases(i: nat, j: nat, w: nat)
    requires i < j < Power(w)
    ensures Less(Fixed(i, w), Fixed(j, w))
  {
    if i / 10 < j / 10 {
      FixedIncreases(i / 10, j / 10, w - 1);
      LessAppend(Fixed(i / 10, w - 1), Fixed(j / 10, w - 1), [Digit(i % 10)], [Digit(j % 10)]);
    } else {
      LessPrepend(Fixed(i / 10, w - 1), [Digit(i % 10)], [Digit(j % 10)]);
    }
  }

  lemma {:induction false} FixedZero(w: nat)
    ensures Fixed(0, w) == Zeros(w)
  {
    if w > 0 {
      FixedZero(w - 1);
      ZerosSnoc(w - 1);
    }
  }

  lemma {:induction false} ZerosSnoc(k: nat)
    ensures Zeros(k + 1) == Zeros(k) + "0"
  {
    if k > 0 { ZerosSnoc(k - 1); }
  }

  /** Padding with zeros gives the fixed-width form, as long as the number fits. */
  lemma {:induction false} PaddedIsFixed(n: nat, w: nat)
    requires n < Power(w) && w > 0
    ensures |Digits(n)| <= w && Zeros(w - |Digits(n)|) + Digits(n) == Fixed(n, w)
  {
    if n < 10 {
      FixedZero(w - 1);
    } else {
      PaddedIsFixed(n / 10, w - 1);
      var zeros := Zeros(w - |Digits(n)|);
      assert zeros + Digits(n) == (zeros + Digits(n / 10)) + [Digit(n % 10)];
    }
  }

  const LIMIT: nat := 999_999

  lemma SixDigits()
    ensures Power(6) == LIMIT + 1
  {
    assert Power(1) == 10 && Power(2) == 100 && Power(3) == 1000;
    assert Power(4) == 10_000 && Power(5) == 100_000;
  }

  /** Up to 999,999 rotations, later names sort later. */
  lemma NamesIncrease(stem: string, i: nat, j: nat)
    requires i < j <= LIMIT
    ensures Less(Name(stem, i), Name(stem, j))
  {
    SixDigits();
    PaddedIsFixed(i, 6);
    PaddedIsFixed(j, 6);
    assert Zeros(0) + Digits(i) == Digits(i) && Zeros(0) + Digits(j) == Digits(j);
    FixedIncreases(i, j, 6);
    LessAppend(Padded(i), Padded(j), ".jsonl", ".jsonl");
    LessPrepend("-", Padded(i) + ".jsonl", Padded(j) + ".jsonl");
    LessPrepend(stem, "-" + (Padded(i) + ".jsonl"), "-" + (Padded(j) + ".jsonl"));
  }

  lemma {:induction false} FirstDigits()
    ensures Padded(LIMIT) == "999999" && Padded(LIMIT + 1) == "1000000"
  {
    assert Digits(99) == "99" && Digits(999) == "999" && Digits(9_999) == "9999";
    assert Digits(99_999) == "99999" && Digits(999_999) == "999999";
    assert Digits(10) == "10" && Digits(100) == "100" && Digits(1_000) == "1000";
    assert Digits(10_000) == "10000" && Digits(100_000) == "100000" && Digits(1_000_000) == "1000000";
  }

  /** The millionth rotation sorts before the one before it. */
  lemma MillionthComesEarly(stem: string)
    ensures Less(Name(stem, LIMIT + 1), Name(stem, LIMIT))
  {
    FirstDigits();
    LessAppend("1", "9", "000000" + ".jsonl", "99999" + ".jsonl");
    assert "1000000" + ".jsonl" == "1" + ("000000" + ".jsonl") && "999999" + ".jsonl" == "9" + ("99999" + ".jsonl");
    LessPrepend("-", "1000000" + ".jsonl", "999999" + ".jsonl");
    LessPrepend(stem, "-" + ("1000000" + ".jsonl"), "-" + ("999999" + ".jsonl"));
  }

  /** The names of n rotations, in the order they were made. */
  function Names(stem: string, n: nat): (r: seq<string>)
    ensures |r| == n && forall i :: 0 <= i < n ==> r[i] == Name(stem, i + 1)
  {
    if n == 0 then [] else Names(stem, n - 1) + [Name(stem, n)]
  }

  /** A path without its extension. */
  function Stem(path: string): string { path[..Dot(path)] }

  /** Where the extension starts: at the last dot behind the last slash. */
  function Dot(path: string): (n: nat)
    ensures n <= |path| && '/' !in path[n..]
    ensures n < |path| ==> path[n] == '.' && '.' !in path[n + 1..]
    ensures n == |path| ==> forall i :: 0 <= i < |path| && path[i] == '.' ==> '/' in path[i..]
  {
    var dot := LastDot(path);
    assert dot < Cut(path) ==> forall i :: 0 <= i < |path| && path[i] == '.' ==> path[i..][Cut(path) - 1 - i] == '/';
    assert dot >= Cut(path) ==> path[dot..] == path[Cut(path)..][dot - Cut(path)..];
    if dot < Cut(path) then |path| else dot
  }

  function LastDot(path: string): (n: int)
    ensures -1 <= n < |path| && (n >= 0 ==> path[n] == '.') && forall i :: n < i < |path| ==> path[i] != '.'
  {
    if path == "" then -1 else if path[|path| - 1] == '.' then |path| - 1 else LastDot(path[..|path| - 1])
  }

  /** The pattern for the rotated files of a journal. */
  function Pattern(eventsPath: string): string { Stem(eventsPath) + "-*.jsonl" }

  /** discoverEventPaths: the first file, then whatever matches the pattern, sorted. */
  function Discovered(eventsPath: string, dirs: Dirs): seq<string> {
    if Trim(eventsPath) == "" then [] else [eventsPath] + SortStrings(Listing(dirs, Pattern(eventsPath)))
  }

  lemma NamesApart(stem: string, n: nat)
    requires n <= LIMIT
    ensures Increasing(Names(stem, n)) && Apart(Names(stem, n))
  {
    hide Less, Name;
    var names := Names(stem, n);
    forall i, j | 0 <= i < j < n ensures Less(names[i], names[j]) && names[i] != names[j] {
      NamesIncrease(stem, i + 1, j + 1);
      LessIrreflexive(names[i]);
    }
  }

  /**
   * Sorting whatever was found gives the rotated files in the order in which they were
   * written, exactly when it was these that were found and there are at most 999,999.
   */
  lemma OrderRestored(stem: string, found: seq<string>, n: nat)
    ensures SortStrings(found) == Names(stem, n) <==> n <= LIMIT && multiset(found) == multiset(Names(stem, n))
  {
    var names, sorted := Names(stem, n), SortStrings(found);
    if n <= LIMIT {
      NamesApart(stem, n);
      if multiset(found) == multiset(names) {
        DistinctKeysIncrease(names, sorted, s => s);
        SameMembers(names, sorted);
        IncreasingIsUnique(names, sorted);
      }
    } else {
      MillionthComesEarly(stem);
      assert Less(names[LIMIT], names[LIMIT - 1]);
    }
  }

  lemma SameMembers(s: seq<string>, t: seq<string>)
    requires multiset(s) == multiset(t)
    ensures forall x :: x in s <==> x in t
  {
    forall x ensures x in s <==> x in t {
      assert x in s <==> x in multiset(s);
      assert x in t <==> x in multiset(t);
    }
  }

  lemma {:induction false} SameMultiset(s: seq<string>, t: seq<string>)
    requires forall x :: x in s <==> x in t
    requires Apart(s) && Apart(t)
    ensures multiset(s) == multiset(t)
  {
    forall x ensures multiset(s)[x] == multiset(t)[x] {
      if x in s {
        assert x in t;
        var a :| 0 <= a < |s| && s[a] == x;
        var b :| 0 <= b < |t| && t[b] == x;
        Once(s, a);
        Once(t, b);
      } else {
        assert x !in t && x !in multiset(s) && x !in multiset(t);
      }
    }
  }

  // -- A journal in a directory whose name is not a pattern -----------------------------------

  /** The path of a file, as filepath.Join leaves it under an absolute root. */
  predicate Placed(path: string) {
    path != "" && path[0] == '/' && (Cut(path) > 1 ==> path[Cut(path) - 2] != '/')
  }

  function Dir(path: string): string { DirOf(path[..Cut(path)]) }

  /** The last element of a path's stem. */
  function Base(path: string): string { Stem(path)[Cut(Stem(path))..] }

  /** Names that look like those of rotated files. */
  predicate Rotated(base: string, name: string) {
    |base| + 7 <= |name| && base + "-" <= name && EndsWith(name, ".jsonl")
  }

  /** The directory's names that look like those of rotated files are those of the n that there are. */
  ghost predicate OnlyOwn(eventsPath: string, dirs: Dirs, n: nat) {
    forall name :: OwnAlone(eventsPath, dirs, n, name)
  }

  ghost predicate OwnAlone(eventsPath: string, dirs: Dirs, n: nat, name: string) {
    (Dir(eventsPath) in dirs && name in dirs[Dir(eventsPath)] && Rotated(Base(eventsPath), name))
      <==> exists i :: 1 <= i <= n && name == Name(Base(eventsPath), i)
  }

  lemma {:induction false} TrimKeepsFirst(s: string)
    requires s != "" && !IsSpace(s[0])
    ensures Trim(s) != ""
  {
    if |s| > 1 && IsSpace(s[|s| - 1]) { TrimKeepsFirst(s[..|s| - 1]); }
  }

  /** A stem has its path's directory. */
  lemma StemInDir(path: string)
    ensures Cut(Stem(path)) == Cut(path) <= |Stem(path)| && Stem(path)[..Cut(path)] == path[..Cut(path)]
    ensures Stem(path) == path[..Cut(path)] + Base(path) && '/' !in Base(path)
  {
    hide Cut, LastDot;
    assert forall k :: Cut(path) <= k < |path| ==> path[k] == path[Cut(path)..][k - Cut(path)];
    CutUnique(Stem(path), Cut(path));
  }

  lemma CutPattern(stem: string, tail: string)
    requires '/' !in tail
    ensures Cut(stem + tail) == Cut(stem) && (stem + tail)[Cut(stem)..] == stem[Cut(stem)..] + tail
  {
    hide Cut;
    CutUnique(stem + tail, Cut(stem));
  }

  /** What the pattern matches of the names in a directory. */
  lemma PatternMatches(base: string, name: string)
    requires !HasMeta(base) && '/' !in name
    ensures Parse(base + "-*.jsonl").Some?
    ensures Matches(Parse(base + "-*.jsonl").value, name) <==> Rotated(base, name)
  {
    hide Matches, Parse;
    LastPiece();
    LiteralParses(base + "-", "*.jsonl");
    assert base + "-*.jsonl" == (base + "-") + "*.jsonl";
    LiteralMatches(base + "-", [Star] + Literal(".jsonl"), name);
    if base + "-" <= name {
      var rest := name[|base| + 1..];
      StarMatches(".jsonl", rest);
      if |base| + 7 <= |name| { assert rest[|rest| - 6..] == name[|name| - 6..]; }
    }
  }

  lemma LastPiece()
    ensures Parse("*.jsonl") == Some([Star] + Literal(".jsonl"))
  {
    LiteralParses(".jsonl", "");
    assert ".jsonl" + "" == ".jsonl" && "*.jsonl"[1..] == ".jsonl";
    assert Literal(".jsonl") + [] == Literal(".jsonl");
  }

  lemma PlacedHasDir(path: string)
    requires Placed(path)
    ensures Cut(path) > 0
  {
    hide Cut;
    assert path[0..] == path && '/' in path;
  }

  lemma PlainPattern(stem: string)
    requires !HasMeta(stem)
    ensures HasMeta(stem + "-*.jsonl") && Parse(stem + "-*.jsonl").Some?
  {
    hide Parse;
    LastPiece();
    LiteralParses(stem + "-", "*.jsonl");
    assert stem + "-*.jsonl" == (stem + "-") + "*.jsonl";
    assert (stem + "-*.jsonl")[|stem| + 1] == '*';
  }

  lemma PlainParts(path: string)
    requires !HasMeta(Stem(path))
    ensures !HasMeta(Base(path)) && (Cut(path) > 0 ==> !HasMeta(Dir(path)))
  {
    hide Cut, Stem;
    StemInDir(path);
    var stem, n := Stem(path), Cut(path);
    assert forall i :: n <= i < |stem| ==> stem[i] == Base(path)[i - n];
    if n > 0 { assert forall i :: 0 <= i < |Dir(path)| ==> stem[i] == Dir(path)[i]; }
  }

  lemma PlainPaths(eventsPath: string, name: string)
    requires Placed(eventsPath)
    ensures InDir(Dir(eventsPath), name) == eventsPath[..Cut(eventsPath)] + name
  {
    hide Cut;
    var n := Cut(eventsPath);
    PlacedHasDir(eventsPath);
    var dir := eventsPath[..n];
    assert dir[0] == '/' && dir[n - 1] == '/';
    if n == 1 { assert dir == "/"; } else { assert dir == dir[..n - 1] + "/" && dir[..n - 1][0] == '/'; }
  }

  lemma OwnNames(eventsPath: string, i: nat)
    ensures Name(Stem(eventsPath), i) == eventsPath[..Cut(eventsPath)] + Name(Base(eventsPath), i)
  {
    hide Cut, Stem, Padded;
    StemInDir(eventsPath);
    var tail := "-" + (Padded(i) + ".jsonl");
    assert eventsPath[..Cut(eventsPath)] + Base(eventsPath) + tail
      == eventsPath[..Cut(eventsPath)] + (Base(eventsPath) + tail);
  }

  ghost predicate Same(s: seq<string>, t: seq<string>) { forall p :: p in s <==> p in t }

  lemma SameTail(x: string, s: seq<string>, t: seq<string>)
    ensures [x] + s == [x] + t <==> s == t
  {
    assert ([x] + s)[1..] == s && ([x] + t)[1..] == t;
  }

  /** Whatever the stem: the order is right exactly when what the pattern lists are the journals. */
  lemma ListingDecides(eventsPath: string, dirs: Dirs, n: nat)
    requires Trim(eventsPath) != ""
    ensures Discovered(eventsPath, dirs) == [eventsPath] + Names(Stem(eventsPath), n)
      <==> n <= LIMIT && multiset(Listing(dirs, Pattern(eventsPath))) == multiset(Names(Stem(eventsPath), n))
  {
    hide Listing, Stem;
    SameTail(eventsPath, SortStrings(Listing(dirs, Pattern(eventsPath))), Names(Stem(eventsPath), n));
    OrderRestored(Stem(eventsPath), Listing(dirs, Pattern(eventsPath)), n);
  }

  // -- A directory whose name may be a pattern -------------------------------------------------

  /** The directories in which the pattern is looked up: those that the journal's directory, as a pattern, lists. */
  function Homes(eventsPath: string, dirs: Dirs): seq<string> {
    if Parse(Pattern(eventsPath)).None? then []
    else if HasMeta(Dir(eventsPath)) then Listing(dirs, Dir(eventsPath))
    else [Dir(eventsPath)]
  }

  /** A name in one of these directories that looks rotated is one of the n, in the journal's own directory. */
  ghost predicate OwnOnly(eventsPath: string, dirs: Dirs, n: nat, d: string, name: string) {
    (d in Homes(eventsPath, dirs) && d in dirs && name in dirs[d] && Rotated(Base(eventsPath), name))
      <==> d == Dir(eventsPath) && exists i :: 1 <= i <= n && name == Name(Base(eventsPath), i)
  }

  lemma AnyListing(eventsPath: string, dirs: Dirs)
    requires !HasMeta(Base(eventsPath))
    ensures Parse(Base(eventsPath) + "-*.jsonl").Some?
    ensures Listing(dirs, Pattern(eventsPath))
      == ListDirs(dirs, Homes(eventsPath, dirs), Parse(Base(eventsPath) + "-*.jsonl").value)
  {
    hide Parse, Cut, ListDir, Stem;
    var stem, tail := Stem(eventsPath), "-*.jsonl";
    StemInDir(eventsPath);
    CutPattern(stem, tail);
    assert (stem + tail)[..Cut(stem)] == stem[..Cut(stem)];
    PlainPattern(Base(eventsPath));
    assert (stem + tail)[|stem| + 1] == '*';
    OneHome(dirs, Dir(eventsPath), Parse(Base(eventsPath) + tail).value);
  }

  lemma OneHome(dirs: Dirs, dir: string, tokens: seq<Token>)
    ensures ListDirs(dirs, [dir], tokens) == ListDir(dirs, dir, tokens) && ListDirs(dirs, [], tokens) == []
  {
    assert [dir][1..] == [] && ListDir(dirs, dir, tokens) + [] == ListDir(dirs, dir, tokens);
  }

  lemma HomesRooted(eventsPath: string, dirs: Dirs)
    requires Proper(dirs) && Placed(eventsPath)
    ensures Rooted(Dir(eventsPath)) && AllRooted(Homes(eventsPath, dirs)) && Apart(Homes(eventsPath, dirs))
  {
    hide Parse, Cut, Listing, HasMeta;
    PlacedHasDir(eventsPath);
    ListingRooted(dirs, Dir(eventsPath));
  }

  /** What is found: in each of these directories, the names that look rotated. */
  lemma AnyMembers(eventsPath: string, dirs: Dirs, d: string, name: string)
    requires Proper(dirs) && Placed(eventsPath) && !HasMeta(Base(eventsPath)) && Rooted(d) && '/' !in name
    ensures InDir(d, name) in Listing(dirs, Pattern(eventsPath))
      <==> d in Homes(eventsPath, dirs) && d in dirs && name in dirs[d] && Rotated(Base(eventsPath), name)
  {
    hide Listing, Cut, ListDir, Matches, Parse, Rotated, HasMeta, Base, InDir, Placed, Homes;
    var tokens, homes := Parse(Base(eventsPath) + "-*.jsonl"), Homes(eventsPath, dirs);
    AnyListing(eventsPath, dirs);
    HomesRooted(eventsPath, dirs);
    var p := InDir(d, name);
    ListDirsMembers(dirs, homes, tokens.value, p);
    PatternMatches(Base(eventsPath), name);
    ListDirMembers(dirs, d, tokens.value, p);
    forall e | e in homes && p in ListDir(dirs, e, tokens.value)
      ensures e == d && d in dirs && name in dirs[d] && Matches(tokens.value, name) {
      ListDirMembers(dirs, e, tokens.value, p);
      var also :| also in dirs[e] && Matches(tokens.value, also) && p == InDir(e, also);
      InDirUnique(d, name, e, also);
    }
  }

  lemma AnyFound(eventsPath: string, dirs: Dirs, p: string) returns (d: string, name: string)
    requires Proper(dirs) && Placed(eventsPath) && !HasMeta(Base(eventsPath)) && p in Listing(dirs, Pattern(eventsPath))
    ensures Rooted(d) && '/' !in name && p == InDir(d, name)
  {
    hide Listing, Cut, ListDir, Matches, Parse, HasMeta, Base, InDir, Placed, Homes;
    var tokens, homes := Parse(Base(eventsPath) + "-*.jsonl"), Homes(eventsPath, dirs);
    AnyListing(eventsPath, dirs);
    HomesRooted(eventsPath, dirs);
    ListDirsMembers(dirs, homes, tokens.value, p);
    d :| d in homes && p in ListDir(dirs, d, tokens.value);
    ListDirMembers(dirs, d, tokens.value, p);
    name :| name in dirs[d] && Matches(tokens.value, name) && p == InDir(d, name);
  }

  lemma OwnPath(eventsPath: string, n: nat, d: string, name: string)
    requires Placed(eventsPath) && Rooted(d) && '/' !in name
    ensures InDir(d, name) in Names(Stem(eventsPath), n)
      <==> d == Dir(eventsPath) && exists i :: 1 <= i <= n && name == Name(Base(eventsPath), i)
  {
    hide Cut, Stem, Name, Base, InDir, Placed, Dir;
    var names := Names(Stem(eventsPath), n);
    if InDir(d, name) in names {
      var i :| 0 <= i < n && names[i] == InDir(d, name);
      OwnInDir(eventsPath, i + 1);
      InDirUnique(d, name, Dir(eventsPath), Name(Base(eventsPath), i + 1));
    }
    if i :| 1 <= i <= n && d == Dir(eventsPath) && name == Name(Base(eventsPath), i) {
      OwnInDir(eventsPath, i);
      assert names[i - 1] == InDir(d, name);
    }
  }

  lemma OwnInDir(eventsPath: string, i: nat)
    requires Placed(eventsPath)
    ensures Rooted(Dir(eventsPath)) && '/' !in Name(Base(eventsPath), i)
    ensures Name(Stem(eventsPath), i) == InDir(Dir(eventsPath), Name(Base(eventsPath), i))
  {
    hide Cut, Stem, Padded;
    PlacedHasDir(eventsPath);
    StemInDir(eventsPath);
    PaddedHasNoSlash(i);
    OwnNames(eventsPath, i);
    PlainPaths(eventsPath, Name(Base(eventsPath), i));
  }

  /**
   * Whatever characters the root has: the journals are found in the order in which they
   * were written if and only if there are at most 999,999 rotated ones and, of all the
   * directories that the root matches as a pattern, only their own has names of that
   * form, and only theirs. A look at these directories tells.
   */
  lemma PatternDecides(eventsPath: string, dirs: Dirs, n: nat)
    requires Proper(dirs) && Placed(eventsPath) && !HasMeta(Base(eventsPath))
    ensures Discovered(eventsPath, dirs) == [eventsPath] + Names(Stem(eventsPath), n)
      <==> n <= LIMIT && forall d, name :: Rooted(d) && '/' !in name ==> OwnOnly(eventsPath, dirs, n, d, name)
  {
    hide Listing, Stem, Proper, OwnOnly, HasMeta, ListDirs, Placed, Homes, Names, Rooted;
    TrimKeepsFirstOf(eventsPath);
    ListingDecides(eventsPath, dirs, n);
    var found, names := Listing(dirs, Pattern(eventsPath)), Names(Stem(eventsPath), n);
    forall d, name | Rooted(d) && '/' !in name
      ensures OwnOnly(eventsPath, dirs, n, d, name) <==> (InDir(d, name) in found <==> InDir(d, name) in names) {
      OneOfAny(eventsPath, dirs, n, d, name);
    }
    if n <= LIMIT {
      NamesApart(Stem(eventsPath), n);
      FoundApart(eventsPath, dirs);
      if multiset(found) == multiset(names) { SameMembers(found, names); }
      if forall d, name :: Rooted(d) && '/' !in name ==> OwnOnly(eventsPath, dirs, n, d, name) {
        AllOwn(eventsPath, dirs, n);
        SameMultiset(found, names);
      }
    }
  }

  lemma TrimKeepsFirstOf(eventsPath: string)
    requires Placed(eventsPath)
    ensures Trim(eventsPath) != ""
  {
    TrimKeepsFirst(eventsPath);
  }

  lemma OneOfAny(eventsPath: string, dirs: Dirs, n: nat, d: string, name: string)
    requires Proper(dirs) && Placed(eventsPath) && !HasMeta(Base(eventsPath)) && Rooted(d) && '/' !in name
    ensures var p := InDir(d, name);
      OwnOnly(eventsPath, dirs, n, d, name)
      <==> (p in Listing(dirs, Pattern(eventsPath)) <==> p in Names(Stem(eventsPath), n))
  {
    hide Listing, Stem, Proper, HasMeta, Placed, Homes, Names, Rooted, Rotated, Base, Dir, Name;
    AnyMembers(eventsPath, dirs, d, name);
    OwnPath(eventsPath, n, d, name);
  }

  lemma FoundApart(eventsPath: string, dirs: Dirs)
    requires Proper(dirs) && Placed(eventsPath) && !HasMeta(Base(eventsPath))
    ensures Apart(Listing(dirs, Pattern(eventsPath)))
  {
    hide Listing, Parse, Homes, ListDirs, Placed;
    AnyListing(eventsPath, dirs);
    HomesRooted(eventsPath, dirs);
    ListDirsRooted(dirs, Homes(eventsPath, dirs), Parse(Base(eventsPath) + "-*.jsonl").value);
  }

  lemma AllOwn(eventsPath: string, dirs: Dirs, n: nat)
    requires Proper(dirs) && Placed(eventsPath) && !HasMeta(Base(eventsPath))
    requires forall d, name :: Rooted(d) && '/' !in name ==> OwnOnly(eventsPath, dirs, n, d, name)
    ensures Same(Listing(dirs, Pattern(eventsPath)), Names(Stem(eventsPath), n))
  {
    hide Listing, Stem, Proper, OwnOnly, HasMeta, Placed, Homes, Rooted, InDir, Name, Base, Dir;
    var found, names := Listing(dirs, Pattern(eventsPath)), Names(Stem(eventsPath), n);
    forall p ensures p in found <==> p in names {
      if p in found {
        var d, name := AnyFound(eventsPath, dirs, p);
        OneOfAny(eventsPath, dirs, n, d, name);
      } else if i :| 0 <= i < n && names[i] == p {
        OwnInDir(eventsPath, i + 1);
        OneOfAny(eventsPath, dirs, n, Dir(eventsPath), Name(Base(eventsPath), i + 1));
      }
    }
  }

  lemma PlainHome(eventsPath: string, dirs: Dirs)
    requires Placed(eventsPath) && !HasMeta(Stem(eventsPath))
    ensures !HasMeta(Base(eventsPath)) && Homes(eventsPath, dirs) == [Dir(eventsPath)]
  {
    hide Parse, Cut, Stem, HasMeta, Listing, Placed;
    PlacedHasDir(eventsPath);
    PlainParts(eventsPath);
    PlainPattern(Stem(eventsPath));
  }

  /**
   * Under a root without magic characters the journals are found in the order in which
   * they were written if and only if there are at most 999,999 rotated ones and the
   * directory has no other name of that form.
   */
  lemma DirectoryDecides(eventsPath: string, dirs: Dirs, n: nat)
    requires Proper(dirs) && Placed(eventsPath) && !HasMeta(Stem(eventsPath))
    ensures Discovered(eventsPath, dirs) == [eventsPath] + Names(Stem(eventsPath), n)
      <==> n <= LIMIT && OnlyOwn(eventsPath, dirs, n)
  {
    hide Discovered, Names, Stem, HasMeta, Placed, Homes, Rotated, Dir, Base, Name, Rooted;
    PlainHome(eventsPath, dirs);
    PatternDecides(eventsPath, dirs, n);
    HomesRooted(eventsPath, dirs);
    forall i: nat ensures '/' !in Name(Base(eventsPath), i) { OwnInDir(eventsPath, i); }
    if OnlyOwn(eventsPath, dirs, n) {
      forall d, name | Rooted(d) && '/' !in name ensures OwnOnly(eventsPath, dirs, n, d, name) {
        assert OwnAlone(eventsPath, dirs, n, name);
      }
    }
    if forall d, name :: Rooted(d) && '/' !in name ==> OwnOnly(eventsPath, dirs, n, d, name) {
      forall name ensures OwnAlone(eventsPath, dirs, n, name) {
        if '/' !in name { assert OwnOnly(eventsPath, dirs, n, Dir(eventsPath), name); }
      }
    }
  }

  /** A root with a bracket or a backslash, and no star, hides the journals that are in it. */
  lemma BracketHides(eventsPath: string, dirs: Dirs, i: nat)
    requires Proper(dirs) && HasBracket(Dir(eventsPath)) && '*' !in Dir(eventsPath)
    ensures Name(Stem(eventsPath), i) !in Listing(dirs, Pattern(eventsPath))
  {
    hide Parse, Cut, Stem, ListDir, Listing, Matches, Padded, Digits;
    var own, dir := Name(Stem(eventsPath), i), Dir(eventsPath);
    if own in Listing(dirs, Pattern(eventsPath)) {
      var d, name := ListedUnder(eventsPath, dirs, own);
      GlobShort(dirs, dir, d);
      OwnNames(eventsPath, i);
      CutOfJoined(d, name);
      StemInDir(eventsPath);
      CutOfOwn(eventsPath, i);
      assert false;
    }
  }

  lemma CutOfJoined(d: string, name: string)
    requires '/' !in name
    ensures Cut(InDir(d, name)) <= |d| + 1
  {
    hide Cut;
    if d == "." { CutUnique(name, 0); }
    else if d == "/" { CutUnique(d + name, 1); }
    else { CutUnique(d + "/" + name, |d| + 1); }
  }

  lemma CutOfOwn(eventsPath: string, i: nat)
    ensures Cut(Name(Stem(eventsPath), i)) == Cut(eventsPath)
  {
    hide Cut, Stem, Padded;
    StemInDir(eventsPath);
    PaddedHasNoSlash(i);
    CutPattern(Stem(eventsPath), "-" + (Padded(i) + ".jsonl"));
  }

  lemma PaddedHasNoSlash(n: nat)
    ensures '/' !in Padded(n)
  {
    DigitsHaveNoSlash(n);
    if |Digits(n)| < 6 { ZerosHaveNoSlash(6 - |Digits(n)|); }
  }

  lemma {:induction false} DigitsHaveNoSlash(n: nat)
    ensures '/' !in Digits(n)
  {
    if n >= 10 { DigitsHaveNoSlash(n / 10); }
  }

  lemma {:induction false} ZerosHaveNoSlash(k: nat)
    ensures '/' !in Zeros(k)
  {
    if k > 0 { ZerosHaveNoSlash(k - 1); }
  }

  /** Where the listing of a pattern with magic characters in its directory finds things. */
  lemma ListedUnder(eventsPath: string, dirs: Dirs, p: string) returns (d: string, name: string)
    requires Proper(dirs) && HasBracket(Dir(eventsPath)) && p in Listing(dirs, Pattern(eventsPath))
    ensures d in Listing(dirs, Dir(eventsPath)) && '/' !in name && p == InDir(d, name)
  {
    hide Parse, Cut, Stem, ListDir, Matches;
    var stem, tail := Stem(eventsPath), "-*.jsonl";
    StemInDir(eventsPath);
    CutPattern(stem, tail);
    assert (stem + tail)[..Cut(stem)] == stem[..Cut(stem)];
    BracketIsMeta(Dir(eventsPath));
    assert (stem + tail)[|stem| + 1] == '*';
    var tokens := Parse(Base(eventsPath) + tail).value;
    ListDirsMembers(dirs, Listing(dirs, Dir(eventsPath)), tokens, p);
    d :| d in Listing(dirs, Dir(eventsPath)) && p in ListDir(dirs, d, tokens);
    ListDirMembers(dirs, d, tokens, p);
    name :| name in dirs[d] && p == InDir(d, name);
  }

  /** Under such a root no rotated journal is ever found in its place. */
  lemma BracketLosesAll(eventsPath: string, dirs: Dirs, n: nat)
    requires Proper(dirs) && Trim(eventsPath) != "" && HasBracket(Dir(eventsPath)) && '*' !in Dir(eventsPath)
    ensures Discovered(eventsPath, dirs) == [eventsPath] + Names(Stem(eventsPath), n)
      <==> n == 0 && Listing(dirs, Pattern(eventsPath)) == []
    ensures forall i: nat :: Name(Stem(eventsPath), i) !in Listing(dirs, Pattern(eventsPath))
  {
    hide Listing, Stem, Dir, Name;
    forall i: nat ensures Name(Stem(eventsPath), i) !in Listing(dirs, Pattern(eventsPath)) {
      BracketHides(eventsPath, dirs, i);
    }
    ListingDecides(eventsPath, dirs, n);
    var found, names := Listing(dirs, Pattern(eventsPath)), Names(Stem(eventsPath), n);
    FirstIsShared(found, names);
  }

  lemma FirstIsShared(s: seq<string>, t: seq<string>)
    ensures multiset(s) == multiset(t) ==> |s| == |t| && (t != [] ==> t[0] in s)
  {
    assert |multiset(s)| == |s| && |multiset(t)| == |t|;
    if multiset(s) == multiset(t) { SameMembers(s, t); }
  }

  /** A root such as /tmp/run[1]. */
  lemma BracketedRun(dirs: Dirs, n: nat)
    requires Proper(dirs)
    ensures Discovered("/tmp/run[1]/events.jsonl", dirs)
      == ["/tmp/run[1]/events.jsonl"] + Names(Stem("/tmp/run[1]/events.jsonl"), n)
      ==> n == 0
  {
    hide Listing, Stem, Name, Trim, Cut;
    var path := "/tmp/run[1]/events.jsonl";
    CutUnique(path, 12);
    TrimKeepsFirst(path);
    assert Dir(path) == "/tmp/run[1]" && Bracket(Dir(path)[8]);
    BracketLosesAll(path, dirs, n);
  }

  lemma NameLooksRotated(base: string, i: nat)
    ensures Rotated(base, Name(base, i))
  {
    hide Padded;
    var name := Name(base, i);
    assert name == base + "-" + (Padded(i) + ".jsonl");
    assert name == (base + "-" + Padded(i)) + ".jsonl";
  }

  /** A rotated journal that an earlier run left behind is taken for one of this run. */
  lemma StaleIsListed(eventsPath: string, dirs: Dirs, n: nat, i: nat)
    requires Proper(dirs) && Placed(eventsPath) && !HasMeta(Stem(eventsPath))
    requires Dir(eventsPath) in dirs && Name(Base(eventsPath), i) in dirs[Dir(eventsPath)]
    ensures Name(Stem(eventsPath), i) in Discovered(eventsPath, dirs)
    ensures n < i <= LIMIT ==> Discovered(eventsPath, dirs) != [eventsPath] + Names(Stem(eventsPath), n)
  {
    hide Listing, Stem, Dir, Base, Name, Rotated, HasMeta, Cut, Homes;
    NameLooksRotated(Base(eventsPath), i);
    PlainHome(eventsPath, dirs);
    OwnInDir(eventsPath, i);
    AnyMembers(eventsPath, dirs, Dir(eventsPath), Name(Base(eventsPath), i));
    TrimKeepsFirst(eventsPath);
    var found, own, names := Listing(dirs, Pattern(eventsPath)), Name(Stem(eventsPath), i), Names(Stem(eventsPath), n);
    assert own in SortStrings(found);
    SameTail(eventsPath, SortStrings(found), names);
    if n < i <= LIMIT {
      forall k | 0 <= k < n ensures names[k] != own {
        NamesIncrease(Stem(eventsPath), k + 1, i);
        LessIrreflexive(own);
      }
    }
  }
}
