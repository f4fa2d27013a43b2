// Splitting, cleaning and joining of slash-separated paths.
module Paths {
  import opened Text
  import opened Tree

  /** strings.Split(s, "/"): never empty; the pieces hold no slash. */
  function Split(s: string): (r: seq<string>)
    ensures r != []
    ensures forall i :: 0 <= i < |r| ==> '/' !in r[i]
  {
    SlashFree(s);
    SplitBy(s, "/")
  }

  lemma {:induction false} SlashFree(s: string)
    ensures forall i :: 0 <= i < |SplitBy(s, "/")| ==> '/' !in SplitBy(s, "/")[i]
  {
    if s != "" {
      SlashFree(s[1..]);
      assert "/" <= s <==> s[0] == '/';
    }
  }

  /** Splitting one character at a time. */
  lemma SplitCons(s: string)
    requires s != ""
    ensures var rest := Split(s[1..]);
      Split(s) == if s[0] == '/' then [""] + rest else [[s[0]] + rest[0]] + rest[1..]
  {
    assert "/" <= s <==> s[0] == '/';
  }

  /** strings.Join(segments, "/"). */
  function Join(segments: seq<string>): string
  {
    if segments == [] then ""
    else if |segments| == 1 then segments[0]
    else segments[0] + "/" + Join(segments[1..])
  }

  lemma {:induction false} JoinSplit(s: string)
    ensures Join(Split(s)) == s
  {
    if s != [] {
      JoinSplit(s[1..]);
      SplitCons(s);
      var rest := Split(s[1..]);
      if s[0] == '/' {
        assert Split(s)[1..] == rest;
        assert "" + "/" + s[1..] == s;
      } else {
        var head := [s[0]] + rest[0];
        assert Split(s)[1..] == rest[1..];
        if |rest| == 1 {
          assert head == s;
        } else {
          calc {
            Join(Split(s));
            head + "/" + Join(rest[1..]);
            [s[0]] + (rest[0] + "/" + Join(rest[1..]));
            [s[0]] + s[1..];
            s;
          }
        }
      }
    }
  }

  lemma SplitPiece(piece: string, rest: string)
    requires '/' !in piece
    ensures Split(piece) == [piece]
    ensures Split(piece + "/" + rest) == [piece] + Split(rest)
  {
    hide SplitBy;
    CharOccurs(piece, '/');
    SplitWhole(piece, "/");
    PieceSplits(piece, '/', rest);
  }

  lemma {:induction false} SplitJoin(segments: seq<string>)
    requires segments != [] && forall i :: 0 <= i < |segments| ==> '/' !in segments[i]
    ensures Split(Join(segments)) == segments
  {
    SplitPiece(segments[0], "");
    if |segments| > 1 {
      SplitJoin(segments[1..]);
      SplitPiece(segments[0], Join(segments[1..]));
    }
    assert segments == [segments[0]] + segments[1..];
  }

  predicate Plain(segment: string) {
    segment != "" && segment != "." && segment != ".."
  }

  /** A relative path in the form a manifest records it. */
  predicate Clean(p: string) {
    p != "" && forall i :: 0 <= i < |Split(p)| ==> Plain(Split(p)[i])
  }

  /** filepath.Clean on the segments of a relative path. */
  function Resolve(segments: seq<string>): (r: seq<string>)
    ensures forall i :: 0 <= i < |r| ==> r[i] in segments && r[i] != "" && r[i] != "."
    ensures r != [] && r[0] != ".." ==> forall i :: 0 <= i < |r| ==> r[i] != ".."
  {
    if segments == [] then []
    else
      var before := Resolve(segments[..|segments| - 1]);
      var last := segments[|segments| - 1];
      if last == "" || last == "." then before
      else if last == ".." && before != [] && before[|before| - 1] != ".." then before[..|before| - 1]
      else before + [last]
  }

  lemma {:induction false} ResolvePlain(segments: seq<string>)
    requires forall i :: 0 <= i < |segments| ==> Plain(segments[i])
    ensures Resolve(segments) == segments
  {
    if segments != [] {
      var n := |segments| - 1;
      ResolvePlain(segments[..n]);
      assert segments == segments[..n] + [segments[n]];
    }
  }

  /** The path below a root that a relative name denotes, unless it would leave the root. */
  function SafeJoin(relative: string): (r: Option<string>)
    ensures r.Some? ==> Clean(r.value)
    ensures Clean(relative) ==> r == Some(relative)
  {
    if relative == "" || relative[0] == '/' then
      assert relative != "" ==> Split(relative)[0] == "";
      None
    else
      var clean := Resolve(Split(relative));
      assert Clean(relative) ==> clean == Split(relative) by {
        if Clean(relative) { ResolvePlain(Split(relative)); }
      }
      if clean == [] || clean[0] == ".." then None
      else
        JoinSplit(relative);
        SplitJoin(clean);
        assert Split("") == [""];
        Some(Join(clean))
  }

  // -- What it means for a path to stay below the root ------------------------------------

  /** How deep a walk along the segments ends up. */
  function Depth(segments: seq<string>): int {
    if segments == [] then 0
    else
      var last := segments[|segments| - 1];
      Depth(segments[..|segments| - 1]) + if last == "" || last == "." then 0 else if last == ".." then -1 else 1
  }

  /** The walk never goes above where it began. */
  ghost predicate StaysBelow(segments: seq<string>) {
    forall i :: 0 <= i <= |segments| ==> Depth(segments[..i]) >= 0
  }

  lemma StaysLonger(segments: seq<string>)
    requires segments != []
    ensures StaysBelow(segments) <==> StaysBelow(segments[..|segments| - 1]) && Depth(segments) >= 0
  {
    var n := |segments| - 1;
    assert segments[..n + 1] == segments;
    assert forall i :: 0 <= i <= n ==> segments[..n][..i] == segments[..i];
    if StaysBelow(segments[..n]) && Depth(segments) >= 0 {
      forall i | 0 <= i <= n + 1 ensures Depth(segments[..i]) >= 0 {
        if i <= n { assert Depth(segments[..n][..i]) >= 0; }
      }
    }
    if StaysBelow(segments) {
      forall i | 0 <= i <= n ensures Depth(segments[..n][..i]) >= 0 { assert Depth(segments[..i]) >= 0; }
      assert Depth(segments[..n + 1]) >= 0;
    }
  }

  lemma {:induction false} ResolveStays(segments: seq<string>)
    ensures StaysBelow(segments) ==>
      |Resolve(segments)| == Depth(segments) && forall i :: 0 <= i < |Resolve(segments)| ==> Plain(Resolve(segments)[i])
    ensures !StaysBelow(segments) ==> Resolve(segments) != [] && Resolve(segments)[0] == ".."
  {
    if segments == [] {
      assert StaysBelow(segments);
    } else {
      ResolveStays(segments[..|segments| - 1]);
      StaysLonger(segments);
      hide StaysBelow;
    }
  }

  /** A path is accepted exactly if it is relative and the walk along it stays below the root and ends there. */
  lemma SafeJoinExactly(relative: string)
    ensures SafeJoin(relative).Some? <==>
      relative != "" && relative[0] != '/' && StaysBelow(Split(relative)) && Depth(Split(relative)) > 0
    ensures SafeJoin(relative).Some? ==> |Split(SafeJoin(relative).value)| == Depth(Split(relative))
  {
    hide StaysBelow, Depth, SplitBy;
    ResolveStays(Split(relative));
    var clean := Resolve(Split(relative));
    if SafeJoin(relative).Some? { SplitJoin(clean); }
  }

  /** What a segment and a step back leave behind is nothing; and so with empty segments and dots. */
  lemma StepBack(before: seq<string>, name: string, after: seq<string>)
    requires Plain(name)
    ensures Resolve(before + [name, ".."] + after) == Resolve(before + after)
    ensures Resolve(before + [""] + after) == Resolve(before + ["."] + after) == Resolve(before + after)
  {
    assert before + [name, ".."] == before + [name] + [".."];
    ResolveLast(before, name);
    ResolveLast(before + [name], "..");
    ResolveLast(before, "");
    ResolveLast(before, ".");
    hide Resolve;
    assert (Resolve(before) + [name])[..|Resolve(before)|] == Resolve(before);
    ResolveOver(before + [name, ".."], before, after);
    ResolveOver(before + [""], before, after);
    ResolveOver(before + ["."], before, after);
  }

  lemma ResolveLast(before: seq<string>, last: string)
    ensures Resolve(before + [last]) == (
      var r := Resolve(before);
      if last == "" || last == "." then r
      else if last == ".." && r != [] && r[|r| - 1] != ".." then r[..|r| - 1]
      else r + [last])
  {
    assert (before + [last])[..|before|] == before;
  }

  lemma {:induction false} ResolveOver(first: seq<string>, second: seq<string>, after: seq<string>)
    requires Resolve(first) == Resolve(second)
    ensures Resolve(first + after) == Resolve(second + after)
  {
    hide Resolve;
    if after == [] {
      assert first + after == first && second + after == second;
    } else {
      var n := |after| - 1;
      ResolveOver(first, second, after[..n]);
      ResolveLast(first + after[..n], after[n]);
      ResolveLast(second + after[..n], after[n]);
      assert first + after == first + after[..n] + [after[n]];
      assert second + after == second + after[..n] + [after[n]];
    }
  }
}
