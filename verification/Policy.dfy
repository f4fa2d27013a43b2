// Read policies: globs over path segments, and the decision for a path.
module Policy {
  import opened Text
  import opened Tree
  import Paths

  /** path.Match of one pattern segment against one path segment; false when the pattern is malformed. */
  type Glob = (string, string) -> bool

  function Stars(): string { "**" }

  /** matchSegments. */
  predicate MatchSegments(pattern: seq<string>, candidate: seq<string>, glob: Glob)
    decreases |pattern| + |candidate|
  {
    if pattern == [] then candidate == []
    else if pattern[0] == Stars() then
      MatchSegments(pattern[1..], candidate, glob) || (candidate != [] && MatchSegments(pattern, candidate[1..], glob))
    else
      candidate != [] && glob(pattern[0], candidate[0]) && MatchSegments(pattern[1..], candidate[1..], glob)
  }

  function Flat(parts: seq<seq<string>>): seq<string> {
    if parts == [] then [] else parts[0] + Flat(parts[1..])
  }

  /** Each ** stands for any segments at all, any other pattern segment for one segment it matches. */
  ghost predicate Fits(pattern: seq<string>, parts: seq<seq<string>>, glob: Glob) {
    && |parts| == |pattern|
    && forall k :: 0 <= k < |pattern| ==> pattern[k] == Stars() || (|parts[k]| == 1 && glob(pattern[k], parts[k][0]))
  }

  lemma FitsCons(pattern: seq<string>, parts: seq<seq<string>>, part: seq<string>, glob: Glob)
    requires pattern != [] && Fits(pattern[1..], parts, glob)
    requires pattern[0] == Stars() || (|part| == 1 && glob(pattern[0], part[0]))
    ensures Fits(pattern, [part] + parts, glob) && Flat([part] + parts) == part + Flat(parts)
  {
    var more := [part] + parts;
    assert more[1..] == parts;
    forall k | 0 < k < |pattern| ensures pattern[k] == Stars() || (|more[k]| == 1 && glob(pattern[k], more[k][0])) {
      assert pattern[1..][k - 1] == pattern[k] && more[k] == parts[k - 1];
    }
  }

  lemma FitsTail(pattern: seq<string>, parts: seq<seq<string>>, glob: Glob)
    requires pattern != [] && Fits(pattern, parts, glob)
    ensures Fits(pattern[1..], parts[1..], glob)
  {
  }

  /** A match gives the segments each part of the pattern stands for. */
  lemma {:induction false} MatchFits(pattern: seq<string>, candidate: seq<string>,
                                     glob: Glob) returns (parts: seq<seq<string>>)
    requires MatchSegments(pattern, candidate, glob)
    ensures Fits(pattern, parts, glob) && Flat(parts) == candidate
    decreases |pattern| + |candidate|
  {
    if pattern == [] {
      parts := [];
    } else if pattern[0] == Stars() {
      if MatchSegments(pattern[1..], candidate, glob) {
        var rest := MatchFits(pattern[1..], candidate, glob);
        FitsCons(pattern, rest, [], glob);
        parts := [[]] + rest;
      } else {
        var rest := MatchFits(pattern, candidate[1..], glob);
        FitsTail(pattern, rest, glob);
        FitsCons(pattern, rest[1..], [candidate[0]] + rest[0], glob);
        parts := [[candidate[0]] + rest[0]] + rest[1..];
        assert candidate == [candidate[0]] + candidate[1..];
        assert ([candidate[0]] + rest[0]) + Flat(rest[1..]) == [candidate[0]] + (rest[0] + Flat(rest[1..]));
      }
    } else {
      var rest := MatchFits(pattern[1..], candidate[1..], glob);
      FitsCons(pattern, rest, [candidate[0]], glob);
      parts := [[candidate[0]]] + rest;
    }
  }

  lemma {:induction false} FitsMatch(pattern: seq<string>, parts: seq<seq<string>>, glob: Glob)
    requires Fits(pattern, parts, glob)
    ensures MatchSegments(pattern, Flat(parts), glob)
    decreases |pattern| + |Flat(parts)|
  {
    if pattern != [] {
      var part, rest := parts[0], Flat(parts[1..]);
      FitsTail(pattern, parts, glob);
      if pattern[0] == Stars() && part != [] {
        var fewer := [part[1..]] + parts[1..];
        FitsCons(pattern, parts[1..], part[1..], glob);
        assert Flat(parts)[1..] == part[1..] + rest;
        FitsMatch(pattern, fewer, glob);
      } else {
        FitsMatch(pattern[1..], parts[1..], glob);
        if part == [] { assert Flat(parts) == rest; } else { assert Flat(parts)[1..] == rest; }
      }
    }
  }

  /** The recursive matcher decides exactly the declarative meaning of a pattern. */
  lemma MatchMeaning(pattern: seq<string>, candidate: seq<string>, glob: Glob)
    ensures MatchSegments(pattern, candidate, glob)
      <==> exists parts :: Fits(pattern, parts, glob) && Flat(parts) == candidate
  {
    if MatchSegments(pattern, candidate, glob) {
      var parts := MatchFits(pattern, candidate, glob);
    }
    if exists parts :: Fits(pattern, parts, glob) && Flat(parts) == candidate {
      var parts :| Fits(pattern, parts, glob) && Flat(parts) == candidate;
      FitsMatch(pattern, parts, glob);
    }
  }

  lemma {:induction false} FlatOver(a: seq<seq<string>>, b: seq<seq<string>>)
    ensures Flat(a + b) == Flat(a) + Flat(b)
  {
    if a == [] {
      assert a + b == b;
    } else {
      assert (a + b)[1..] == a[1..] + b;
      FlatOver(a[1..], b);
    }
  }

  lemma CutAt(p: seq<string>, q: seq<string>, candidate: seq<string>, glob: Glob) returns (k: nat)
    requires MatchSegments(p + q, candidate, glob)
    ensures k <= |candidate| && MatchSegments(p, candidate[..k], glob) && MatchSegments(q, candidate[k..], glob)
  {
    var parts := MatchFits(p + q, candidate, glob);
    var a, b := parts[..|p|], parts[|p|..];
    hide MatchSegments, Fits;
    assert parts == a + b;
    FlatOver(a, b);
    FitsParts(p, q, a, b, glob);
    FitsMatch(p, a, glob);
    FitsMatch(q, b, glob);
    k := |Flat(a)|;
    assert candidate[..k] == Flat(a) && candidate[k..] == Flat(b);
  }

  lemma PasteAt(p: seq<string>, q: seq<string>, candidate: seq<string>, k: nat, glob: Glob)
    requires k <= |candidate| && MatchSegments(p, candidate[..k], glob) && MatchSegments(q, candidate[k..], glob)
    ensures MatchSegments(p + q, candidate, glob)
  {
    var a := MatchFits(p, candidate[..k], glob);
    var b := MatchFits(q, candidate[k..], glob);
    FitsParts(p, q, a, b, glob);
    hide MatchSegments, Fits, Flat;
    FlatOver(a, b);
    FitsMatch(p + q, a + b, glob);
    assert candidate == candidate[..k] + candidate[k..];
  }

  /** Where a path can be cut so that each piece of the pattern matches its part. */
  ghost predicate Cuts(p: seq<string>, q: seq<string>, candidate: seq<string>, k: int, glob: Glob) {
    0 <= k <= |candidate| && MatchSegments(p, candidate[..k], glob) && MatchSegments(q, candidate[k..], glob)
  }

  /** A pattern in two pieces matches exactly when the path can be cut to match. */
  lemma MatchConcat(p: seq<string>, q: seq<string>, candidate: seq<string>, glob: Glob)
    ensures MatchSegments(p + q, candidate, glob) <==> exists k :: Cuts(p, q, candidate, k, glob)
  {
    hide MatchSegments;
    if MatchSegments(p + q, candidate, glob) {
      var k := CutAt(p, q, candidate, glob);
      assert Cuts(p, q, candidate, k, glob);
    }
    if exists k :: Cuts(p, q, candidate, k, glob) {
      var k :| Cuts(p, q, candidate, k, glob);
      PasteAt(p, q, candidate, k, glob);
    }
  }

  lemma FitsParts(p: seq<string>, q: seq<string>, a: seq<seq<string>>, b: seq<seq<string>>, glob: Glob)
    requires |a| == |p| && |b| == |q|
    ensures Fits(p + q, a + b, glob) <==> Fits(p, a, glob) && Fits(q, b, glob)
  {
    var r, c := p + q, a + b;
    assert forall k :: 0 <= k < |p| ==> r[k] == p[k] && c[k] == a[k];
    assert forall k :: 0 <= k < |q| ==> r[|p| + k] == q[k] && c[|p| + k] == b[k];
    if Fits(r, c, glob) {
      forall k | 0 <= k < |q| ensures q[k] == Stars() || (|b[k]| == 1 && glob(q[k], b[k][0])) {
        assert r[|p| + k] == q[k];
      }
    }
  }

  // -- Patterns and paths as text ------------------------------------------------------------

  /** strings.ReplaceAll(s, "\\", "/"). */
  function Slashes(s: string): (r: string)
    ensures |r| == |s|
  {
    if s == "" then "" else [if s[0] == '\\' then '/' else s[0]] + Slashes(s[1..])
  }

  /** strings.Trim(s, "/"). */
  function TrimSlashes(s: string): string {
    if s == "" then ""
    else if s[0] == '/' then TrimSlashes(s[1..])
    else if s[|s| - 1] == '/' then TrimSlashes(s[..|s| - 1])
    else s
  }

  function Segments(s: string): seq<string> {
    var trimmed := TrimSlashes(s);
    if trimmed == "" then [] else Paths.Split(trimmed)
  }

  predicate Match(pattern: string, candidate: string, glob: Glob) {
    var p, c := Trim(Slashes(pattern)), Trim(Slashes(candidate));
    if p == "" || c == "" then false
    else
      var d := if p[0] != '/' && c[0] == '/' then c[1..] else c;
      MatchSegments(Segments(p), Segments(d), glob)
  }

  lemma SegmentsOfRooted(s: string)
    ensures Segments("/" + s) == Segments(s)
  {
    assert ("/" + s)[1..] == s;
  }

  /** Whether the candidate's own leading slash is dropped first makes no difference. */
  lemma MatchIsSegments(pattern: string, candidate: string, glob: Glob)
    ensures var p, c := Trim(Slashes(pattern)), Trim(Slashes(candidate));
      Match(pattern, candidate, glob) <==> p != "" && c != "" && MatchSegments(Segments(p), Segments(c), glob)
  {
    var c := Trim(Slashes(candidate));
    if c != "" && c[0] == '/' {
      SegmentsOfRooted(c[1..]);
      assert c == "/" + c[1..];
    }
  }

  /** strings.TrimRightFunc with IsSpace. */
  function TrimEnd(s: string): string {
    if s == "" then "" else if IsSpace(s[|s| - 1]) then TrimEnd(s[..|s| - 1]) else s
  }

  lemma {:induction false} TrimAfterSlash(s: string)
    ensures Trim("/" + s) == "/" + TrimEnd(s)
  {
    if s != "" && IsSpace(s[|s| - 1]) {
      assert ("/" + s)[..|"/" + s| - 1] == "/" + s[..|s| - 1];
      TrimAfterSlash(s[..|s| - 1]);
    }
  }

  lemma SlashesCons(s: string)
    ensures Slashes("/" + s) == "/" + Slashes(s)
  {
    assert ("/" + s)[1..] == s;
  }

  /** The pattern does not start with white space. */
  predicate Unindented(pattern: string) {
    Slashes(pattern) == "" || !IsSpace(Slashes(pattern)[0])
  }

  lemma {:induction false} TrimUnindented(s: string)
    requires s != "" && !IsSpace(s[0])
    ensures Trim(s) == TrimEnd(s) != ""
  {
    if IsSpace(s[|s| - 1]) { TrimUnindented(s[..|s| - 1]); }
  }

  /** Where a pattern's text starts, behind the white space that Trim takes off. */
  lemma {:induction false} TrimStarts(s: string) returns (k: nat)
    requires TrimEnd(s) != ""
    ensures var x := TrimEnd(s);
      k < |x| && Trim(s) == x[k..] && (forall i :: 0 <= i < k ==> IsSpace(x[i])) && !IsSpace(x[k])
        && !IsSpace(x[|x| - 1])
    ensures IsSpace(s[0]) ==> k > 0
    ensures forall c :: c in TrimEnd(s) ==> c in s
  {
    if IsSpace(s[|s| - 1]) {
      k := TrimStarts(s[..|s| - 1]);
      TrimSplits(s);
    } else if IsSpace(s[0]) {
      var j := TrimStarts(s[1..]);
      k := j + 1;
      assert s[1..][j..] == s[k..] && s[1..][|s| - 2] == s[|s| - 1];
    } else {
      k := 0;
    }
  }

  /** White space at the end may be taken off first. */
  lemma {:induction false} TrimSplits(s: string)
    requires s != "" && IsSpace(s[|s| - 1])
    ensures Trim(s) == Trim(s[..|s| - 1])
  {
    if IsSpace(s[0]) && |s| > 1 {
      TrimSplits(s[1..]);
      assert s[1..][..|s| - 2] == s[..|s| - 1][1..];
    }
  }

  lemma LeadingSlashKeeps(pattern: string, candidate: string, glob: Glob)
    requires pattern != "" && Unindented(pattern)
    ensures Match("/" + pattern, candidate, glob) == Match(pattern, candidate, glob)
  {
    hide MatchSegments, Match, Segments, Trim;
    var s := Slashes(pattern);
    SlashesCons(pattern);
    TrimAfterSlash(s);
    TrimUnindented(s);
    MatchIsSegments("/" + pattern, candidate, glob);
    MatchIsSegments(pattern, candidate, glob);
    SegmentsOfRooted(TrimEnd(s));
  }

  // -- An indented pattern is changed by a leading slash

  lemma {:induction false} SlashesPlain(s: string)
    requires '\\' !in s
    ensures Slashes(s) == s
  {
    if s != "" {
      assert s[0] in s && forall c :: c in s[1..] ==> c in s;
      SlashesPlain(s[1..]);
    }
  }

  lemma {:induction false} SlashesHasNone(s: string)
    ensures '\\' !in Slashes(s)
  {
    if s != "" { SlashesHasNone(s[1..]); }
  }

  /** A text without white space at its ends and without backslashes is taken as it is. */
  lemma TakenAsIs(c: string)
    requires c != "" && '\\' !in c && !IsSpace(c[0]) && !IsSpace(c[|c| - 1])
    ensures Trim(Slashes(c)) == c
  {
    SlashesPlain(c);
  }

  lemma {:induction false} TrimSlashesKeepsHead(s: string)
    requires s != "" && s[0] != '/'
    ensures TrimSlashes(s) != "" && TrimSlashes(s)[0] == s[0]
  {
    if s[|s| - 1] == '/' { TrimSlashesKeepsHead(s[..|s| - 1]); }
  }

  /** The first segment of a text that does not start with a slash starts as the text does. */
  lemma FirstSegment(s: string)
    requires s != "" && s[0] != '/'
    ensures Segments(s) != [] && Segments(s)[0] != "" && Segments(s)[0][0] == s[0]
  {
    TrimSlashesKeepsHead(s);
    Paths.SplitCons(TrimSlashes(s));
  }

  /** Taken literally, a path matches itself. */
  lemma {:induction false} MatchesItself(p: seq<string>)
    ensures MatchSegments(p, p, (a, b) => a == b)
  {
    if p != [] {
      MatchesItself(p[1..]);
      if p[0] == Stars() { assert MatchSegments(p, p[1..], (a, b) => a == b); }
    }
  }

  /** The segments that stand for exactly one. */
  function Singles(p: seq<string>): nat {
    if p == [] then 0 else (if p[0] == Stars() then 0 else 1) + Singles(p[1..])
  }

  function Anything(): Glob { (a, b) => true }

  /** When every segment matches, a path of the least length does, and no shorter one. */
  lemma {:induction false} LeastLength(p: seq<string>, c: seq<string>)
    ensures |c| == Singles(p) ==> MatchSegments(p, c, Anything())
    ensures MatchSegments(p, c, Anything()) ==> |c| >= Singles(p)
    decreases |p| + |c|
  {
    if p != [] {
      LeastLength(p[1..], c);
      if c != [] {
        LeastLength(p[1..], c[1..]);
        LeastLength(p, c[1..]);
      }
    }
  }

  /** A path of n segments. */
  function Rungs(n: nat): (r: string)
    ensures '\\' !in r && (n > 0 ==> r != "" && r[0] == 'a' && r[|r| - 1] == 'a')
  {
    if n == 0 then "" else if n == 1 then "a" else "a/" + Rungs(n - 1)
  }

  lemma {:induction false} RungsSplit(n: nat)
    requires n > 0
    ensures |Paths.Split(Rungs(n))| == n
  {
    if n == 1 {
      Paths.SplitPiece("a", "");
    } else {
      RungsSplit(n - 1);
      Paths.SplitPiece("a", Rungs(n - 1));
      assert "a" + "/" + Rungs(n - 1) == Rungs(n);
    }
  }

  lemma Ladder(n: nat)
    ensures Trim(Slashes("/" + Rungs(n))) == "/" + Rungs(n) && |Segments("/" + Rungs(n))| == n
  {
    TakenAsIs("/" + Rungs(n));
    SegmentsOfRooted(Rungs(n));
    if n > 0 { RungsSplit(n); }
  }

  lemma {:induction false} SinglesAfterSlash(s: string)
    ensures Singles(Paths.Split("/" + s)) == 1 + Singles(Paths.Split(s))
  {
    Paths.SplitPiece("", s);
    assert "" + "/" + s == "/" + s;
    assert ([""] + Paths.Split(s))[1..] == Paths.Split(s);
  }

  /** Dropping slashes in front takes segments away. */
  lemma {:induction false} SinglesOfSegments(s: string)
    requires s != "" && s[|s| - 1] != '/'
    ensures Singles(Paths.Split(s)) >= Singles(Segments(s))
  {
    if s[0] == '/' {
      assert s == "/" + s[1..] && s[1..][|s| - 2] == s[|s| - 1];
      SinglesAfterSlash(s[1..]);
      SinglesOfSegments(s[1..]);
    }
  }

  /** White space in front of a slash is a segment of its own. */
  lemma {:induction false} BlankSegment(blank: string, rest: string)
    requires blank != "" && '/' !in blank && blank != Stars()
    ensures Singles(Segments(blank + "/" + rest)) > Singles(Segments("/" + rest))
  {
    var x := blank + "/" + rest;
    SegmentsOfRooted(rest);
    if rest == "" {
      assert x[..|x| - 1] == blank;
      BlankAlone(blank);
    } else if rest[|rest| - 1] == '/' {
      var less := rest[..|rest| - 1];
      assert x[..|x| - 1] == blank + "/" + less;
      BlankSegment(blank, less);
      SegmentsOfRooted(less);
      TrailingSlash(rest);
    } else {
      Paths.SplitPiece(blank, rest);
      assert ([blank] + Paths.Split(rest))[1..] == Paths.Split(rest);
      SinglesOfSegments(rest);
    }
  }

  lemma BlankAlone(blank: string)
    requires blank != "" && '/' !in blank && blank != Stars()
    ensures Segments(blank + "/") == Segments(blank) == [blank] && Singles([blank]) == 1 && Segments("") == []
  {
    assert (blank + "/")[..|blank|] == blank;
    assert blank[0] in blank && blank[|blank| - 1] in blank;
    Paths.SplitPiece(blank, "");
  }

  lemma {:induction false} TrailingSlash(s: string)
    requires s != "" && s[|s| - 1] == '/'
    ensures TrimSlashes(s) == TrimSlashes(s[..|s| - 1])
  {
    if |s| == 1 {
      assert s[1..] == "" && s[..0] == "";
    } else if s[0] == '/' {
      assert s[1..][..|s| - 2] == s[..|s| - 1][1..] && s[1..][|s| - 2] == s[|s| - 1];
      TrailingSlash(s[1..]);
    }
  }

  /** The two patterns as text. */
  lemma BothTrimmed(pattern: string)
    ensures var s := Slashes(pattern); Trim(Slashes("/" + pattern)) == "/" + TrimEnd(s)
  {
    SlashesCons(pattern);
    TrimAfterSlash(Slashes(pattern));
  }

  /** Whether the two differ on a path is a matter of the segments. */
  lemma BothMatch(pattern: string, c: string, glob: Glob)
    requires TrimEnd(Slashes(pattern)) != "" && Trim(Slashes(c)) == c && c != ""
    ensures Match("/" + pattern, c, glob) <==> MatchSegments(Segments(TrimEnd(Slashes(pattern))), Segments(c), glob)
    ensures Match(pattern, c, glob) <==>
      Trim(Slashes(pattern)) != "" && MatchSegments(Segments(Trim(Slashes(pattern))), Segments(c), glob)
  {
    hide MatchSegments, Match, Segments, Trim, TrimEnd, Slashes;
    BothTrimmed(pattern);
    SegmentsOfRooted(TrimEnd(Slashes(pattern)));
    MatchIsSegments("/" + pattern, c, glob);
    MatchIsSegments(pattern, c, glob);
  }

  lemma BlankChanges(pattern: string, glob: Glob)
    requires TrimEnd(Slashes(pattern)) == ""
    ensures Match("/" + pattern, "/", glob) && !Match(pattern, "/", glob)
  {
    hide MatchSegments, Match, Segments, Trim, TrimEnd, Slashes;
    BothTrimmed(pattern);
    OnlyBlank(Slashes(pattern));
    RootTaken(glob);
    assert "/" + "" == "/";
    MatchIsSegments("/" + pattern, "/", glob);
    MatchIsSegments(pattern, "/", glob);
  }

  lemma RootTaken(glob: Glob)
    ensures Trim(Slashes("/")) == "/" && Segments("/") == [] && MatchSegments([], [], glob)
  {
    TakenAsIs("/");
    assert TrimSlashes("/") == "";
  }

  /** Before a word: taken literally, the pattern without the slash matches the word itself. */
  lemma WordChanges(pattern: string, k: nat)
    requires var x := TrimEnd(Slashes(pattern));
      0 < k < |x| && Trim(Slashes(pattern)) == x[k..] && IsSpace(x[0]) && !IsSpace(x[k]) && !IsSpace(x[|x| - 1])
    requires '\\' !in TrimEnd(Slashes(pattern)) && TrimEnd(Slashes(pattern))[k] != '/'
    ensures var y := Trim(Slashes(pattern));
      Match("/" + pattern, y, (a, b) => a == b) != Match(pattern, y, (a, b) => a == b)
  {
    var x := TrimEnd(Slashes(pattern));
    var y := x[k..];
    TakenAsIs(y);
    FirstSegment(x);
    FirstSegment(y);
    MatchesItself(Segments(y));
    DifferentHeads(Segments(x), Segments(y));
    BothMatch(pattern, y, (a, b) => a == b);
  }

  lemma DifferentHeads(p: seq<string>, c: seq<string>)
    requires p != [] && c != [] && p[0] != c[0] && p[0] != Stars()
    ensures !MatchSegments(p, c, (a, b) => a == b)
  {
  }

  lemma OneMoreSingle(x: string, k: nat)
    requires 0 < k < |x| && x[k] == '/' && forall i :: 0 <= i < k ==> IsSpace(x[i])
    ensures Singles(Segments(x)) > Singles(Segments(x[k..]))
  {
    var blank, rest := x[..k], x[k + 1..];
    assert IsSpace(blank[0]) && forall i :: 0 <= i < |blank| ==> blank[i] != '/';
    assert x == blank + "/" + rest && x[k..] == "/" + rest;
    hide Singles, Segments;
    BlankSegment(blank, rest);
  }

  /** Before a slash: the white space is one more segment, so the pattern is longer. */
  lemma SlashChanges(pattern: string, k: nat)
    requires var x := TrimEnd(Slashes(pattern));
      0 < k < |x| && Trim(Slashes(pattern)) == x[k..] && x[k] == '/' && forall i :: 0 <= i < k ==> IsSpace(x[i])
    ensures var c := "/" + Rungs(Singles(Segments(Trim(Slashes(pattern)))));
      Match("/" + pattern, c, Anything()) != Match(pattern, c, Anything())
  {
    hide MatchSegments, Match, Segments, Trim, TrimEnd, Slashes, Singles, Rungs, IsSpace;
    var x, y := TrimEnd(Slashes(pattern)), Trim(Slashes(pattern));
    var c := "/" + Rungs(Singles(Segments(y)));
    Ladder(Singles(Segments(y)));
    BothMatch(pattern, c, Anything());
    OneMoreSingle(x, k);
    LeastLength(Segments(x), Segments(c));
    LeastLength(Segments(y), Segments(c));
  }

  /** For an indented pattern, and for the empty one, there is a path that only one of the two matches. */
  lemma LeadingSlashChanges(pattern: string) returns (candidate: string, glob: Glob)
    requires pattern == "" || !Unindented(pattern)
    ensures Match("/" + pattern, candidate, glob) != Match(pattern, candidate, glob)
  {
    hide MatchSegments, Match, Segments, Trim, TrimEnd, Slashes, Singles, Rungs;
    if TrimEnd(Slashes(pattern)) == "" {
      candidate, glob := "/", Anything();
      BlankChanges(pattern, glob);
    } else {
      NotNothing(pattern);
      var k := TrimStarts(Slashes(pattern));
      SlashesHasNone(pattern);
      var y := Trim(Slashes(pattern));
      if TrimEnd(Slashes(pattern))[k] != '/' {
        candidate, glob := y, (a, b) => a == b;
        WordChanges(pattern, k);
      } else {
        candidate, glob := "/" + Rungs(Singles(Segments(y))), Anything();
        SlashChanges(pattern, k);
      }
    }
  }

  lemma NotNothing(pattern: string)
    requires TrimEnd(Slashes(pattern)) != ""
    ensures pattern != ""
  {
  }

  lemma {:induction false} OnlyBlank(s: string)
    requires TrimEnd(s) == ""
    ensures Trim(s) == ""
  {
    if s != "" {
      OnlyBlank(s[..|s| - 1]);
      TrimSplits(s);
    }
  }

  /**
   * A leading slash never changes what a pattern matches, whatever the path and the
   * glob, if and only if the pattern is not empty and does not start with white space.
   */
  lemma LeadingSlash(pattern: string)
    ensures (forall candidate, glob: Glob :: Match("/" + pattern, candidate, glob) == Match(pattern, candidate, glob))
      <==> pattern != "" && Unindented(pattern)
  {
    if pattern != "" && Unindented(pattern) {
      forall candidate, glob: Glob ensures Match("/" + pattern, candidate, glob) == Match(pattern, candidate, glob) {
        LeadingSlashKeeps(pattern, candidate, glob);
      }
    } else {
      var candidate, glob := LeadingSlashChanges(pattern);
    }
  }

  /** A pattern that Validate accepts and a leading slash changes. */
  lemma IndentedPattern()
    ensures var literal: Glob := (a, b) => a == b; Match(" a", "a", literal) && !Match("/ a", "a", literal)
  {
    assert Slashes(" a") == " a" && Slashes("a") == "a" && Slashes("/ a") == "/ a";
    assert Trim(" a") == "a" && Trim("a") == "a" && Trim("/ a") == "/ a";
    assert TrimSlashes("/ a") == " a" && TrimSlashes("a") == "a";
    Paths.SplitPiece("a", "");
    Paths.SplitPiece(" a", "");
  }

  // -- Decisions ---------------------------------------------------------------------------

  datatype Mode = Unset | Off | Audit | Enforce | Unknown

  datatype ReadPolicy = ReadPolicy(mode: Mode, deny: seq<string>, allow: seq<string>, pii: Mode)

  datatype Decision = Allowed | Audited | Denied

  datatype Rule = DefaultRule | DenyRule | AllowRule

  datatype Explanation = Explanation(decision: Decision, rule: Rule, matched: Option<string>)

  predicate Valid(p: ReadPolicy) {
    && !p.mode.Unknown? && !p.pii.Unknown? && (p.pii.Enforce? ==> p.mode.Enforce?)
    && (forall i :: 0 <= i < |p.deny| ==> Trim(p.deny[i]) != "")
    && (forall i :: 0 <= i < |p.allow| ==> Trim(p.allow[i]) != "")
  }

  /** Validate, pattern by pattern. */
  method Validate(p: ReadPolicy) returns (ok: bool)
    ensures ok <==> Valid(p)
  {
    if p.mode.Unknown? { return false; }
    var patterns := p.deny + p.allow;
    for i := 0 to |patterns|
      invariant forall k :: 0 <= k < i ==> Trim(patterns[k]) != ""
    {
      if Trim(patterns[i]) == "" {
        assert patterns[i] == if i < |p.deny| then p.deny[i] else p.allow[i - |p.deny|];
        return false;
      }
    }
    assert forall k :: 0 <= k < |p.deny| ==> p.deny[k] == patterns[k];
    assert forall k :: 0 <= k < |p.allow| ==> p.allow[k] == patterns[|p.deny| + k];
    if p.pii.Unknown? { return false; }
    return !(p.pii.Enforce? && !p.mode.Enforce?);
  }

  /** Does any of the patterns match? */
  ghost predicate Matches(patterns: seq<string>, candidate: string, glob: Glob) {
    exists i :: 0 <= i < |patterns| && Match(patterns[i], candidate, glob)
  }

  /** What the deny patterns alone decide. */
  ghost function Verdict(p: ReadPolicy, candidate: string, glob: Glob): Decision {
    if !Matches(p.deny, candidate, glob) then Allowed
    else if p.mode.Audit? then Audited
    else if p.mode.Enforce? then Denied
    else Allowed
  }

  /** The pattern is the first of the list that matches. */
  ghost predicate FirstOf(patterns: seq<string>, candidate: string, pattern: string, glob: Glob) {
    exists i :: 0 <= i < |patterns| && patterns[i] == pattern && FirstAt(patterns, candidate, i, glob)
  }

  ghost predicate FirstAt(patterns: seq<string>, candidate: string, i: nat, glob: Glob)
    requires i < |patterns|
  {
    Match(patterns[i], candidate, glob) && forall j :: 0 <= j < i ==> !Match(patterns[j], candidate, glob)
  }

  method FirstMatch(patterns: seq<string>, candidate: string, glob: Glob) returns (found: Option<string>)
    ensures found.None? <==> !Matches(patterns, candidate, glob)
    ensures found.Some? ==> FirstOf(patterns, candidate, found.value, glob)
  {
    hide Match;
    for i := 0 to |patterns|
      invariant forall j :: 0 <= j < i ==> !Match(patterns[j], candidate, glob)
    {
      if Match(patterns[i], candidate, glob) {
        assert FirstAt(patterns, candidate, i, glob);
        return Some(patterns[i]);
      }
    }
    return None;
  }

  /**
   * Explain: deny patterns come first, and only they and the mode bear on the
   * decision; the pattern reported is the first match of the list that decided.
   */
  method Explain(p: ReadPolicy, candidate: string, glob: Glob) returns (e: Explanation)
    ensures e.decision == Verdict(p, candidate, glob)
    ensures e.decision.Denied? <==> p.mode.Enforce? && Matches(p.deny, candidate, glob)
    ensures e.decision.Audited? <==> p.mode.Audit? && Matches(p.deny, candidate, glob)
    ensures e.rule.DenyRule? <==> Matches(p.deny, candidate, glob)
    ensures e.rule.AllowRule? <==> !Matches(p.deny, candidate, glob) && Matches(p.allow, candidate, glob)
    ensures e.matched.Some? <==> !e.rule.DefaultRule?
    ensures e.matched.Some? ==> FirstOf(if e.rule.DenyRule? then p.deny else p.allow, candidate, e.matched.value, glob)
  {
    hide Match;
    var denied := FirstMatch(p.deny, candidate, glob);
    if denied.Some? {
      var decision := if p.mode.Audit? then Audited else if p.mode.Enforce? then Denied else Allowed;
      return Explanation(decision, DenyRule, denied);
    }
    var allowed := FirstMatch(p.allow, candidate, glob);
    if allowed.Some? { return Explanation(Allowed, AllowRule, allowed); }
    return Explanation(Allowed, DefaultRule, None);
  }
}
