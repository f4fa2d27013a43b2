// Cutting text at a separator, the way strings.Split and String.split do, and
// trimming white space.
module Text {

  /** The pieces between separators, found from the left; never empty. */
  function SplitBy(s: string, sep: string): (r: seq<string>)
    requires sep != ""
    ensures r != []
    decreases |s|
  {
    if s == "" then [""]
    else if sep <= s then [""] + SplitBy(s[|sep|..], sep)
    else
      var rest := SplitBy(s[1..], sep);
      [[s[0]] + rest[0]] + rest[1..]
  }

  function Last<T>(s: seq<T>): T
    requires s != []
  {
    s[|s| - 1]
  }

  function Front<T>(s: seq<T>): seq<T>
    requires s != []
  {
    s[..|s| - 1]
  }

  /** Does the separator occur? */
  predicate Occurs(s: string, sep: string) {
    sep <= s || (s != "" && Occurs(s[1..], sep))
  }

  lemma {:induction false} SplitWhole(s: string, sep: string)
    requires sep != ""
    ensures |SplitBy(s, sep)| == 1 <==> !Occurs(s, sep)
    ensures |SplitBy(s, sep)| == 1 ==> SplitBy(s, sep) == [s]
    decreases |s|
  {
    if s != "" && !(sep <= s) {
      SplitWhole(s[1..], sep);
      assert s == [s[0]] + s[1..];
    }
  }

  lemma ShortHolds(s: string, sep: string)
    requires |s| < |sep|
    ensures !Occurs(s, sep)
  {
  }

  /** The first piece, when there is a separator further on. */
  lemma SplitStep(s: string, sep: string)
    requires sep != "" && s != "" && !(sep <= s)
    ensures var rest := SplitBy(s[1..], sep); SplitBy(s, sep) == [[s[0]] + rest[0]] + rest[1..]
  {
  }

  /** One character more in front of text that has a separator. */
  lemma SplitLonger(a: string, b: string, sep: string)
    requires sep != "" && |a| >= |sep| && !(sep <= a) && |SplitBy(a[1..], sep)| > 1
    requires var rest := SplitBy(a[1..], sep);
      SplitBy(a[1..] + b, sep) == Front(rest) + SplitBy(Last(rest) + b, sep)
    ensures SplitBy(a + b, sep) == Front(SplitBy(a, sep)) + SplitBy(Last(SplitBy(a, sep)) + b, sep)
  {
    assert a[..|sep|] == (a + b)[..|sep|];
    assert (a + b)[1..] == a[1..] + b && (a + b)[0] == a[0];
    SplitStep(a, sep);
    SplitStep(a + b, sep);
    hide SplitBy, Front, Last;
    Glued(a[0], SplitBy(a[1..], sep), SplitBy(Last(SplitBy(a[1..], sep)) + b, sep));
  }

  lemma Glued(c: char, rest: seq<string>, tail: seq<string>)
    requires |rest| > 1
    ensures var all, first := Front(rest) + tail, [[c] + rest[0]] + rest[1..];
      all != [] && [[c] + all[0]] + all[1..] == Front(first) + tail && Last(first) == Last(rest)
  {
    var first := [[c] + rest[0]] + rest[1..];
    assert Front(first) == [[c] + rest[0]] + Front(rest)[1..];
    assert (Front(rest) + tail)[1..] == Front(rest)[1..] + tail;
  }

  /**
   * Text may be split as it comes in: everything but the last piece is final, and
   * the last piece, with what follows, splits like the rest of the whole.
   */
  lemma {:induction false} SplitOver(a: string, b: string, sep: string)
    requires sep != ""
    ensures SplitBy(a + b, sep) == Front(SplitBy(a, sep)) + SplitBy(Last(SplitBy(a, sep)) + b, sep)
    decreases |a|
  {
    SplitWhole(a, sep);
    if |a| < |sep| {
      ShortHolds(a, sep);
    } else if Occurs(a, sep) {
      if sep <= a {
        assert sep <= a + b && (a + b)[|sep|..] == a[|sep|..] + b;
        SplitOver(a[|sep|..], b, sep);
      } else {
        SplitWhole(a[1..], sep);
        SplitOver(a[1..], b, sep);
        SplitLonger(a, b, sep);
      }
    }
  }

  lemma {:induction false} LastPieceIsWhole(s: string, sep: string)
    requires sep != ""
    ensures !Occurs(Last(SplitBy(s, sep)), sep)
    decreases |s|
  {
    SplitWhole(s, sep);
    if s != "" {
      if sep <= s { LastPieceIsWhole(s[|sep|..], sep); } else { LastPieceIsWhole(s[1..], sep); }
    } else {
      assert !Occurs("", sep);
    }
  }

  /** A piece that ends where the first separator starts. */
  lemma {:induction false} SplitAt(piece: string, sep: string, rest: string)
    requires sep != "" && (forall i :: 0 <= i < |piece| ==> !(sep <= (piece + sep)[i..]))
    ensures SplitBy(piece + sep + rest, sep) == [piece] + SplitBy(rest, sep)
    decreases |piece|
  {
    var s := piece + sep + rest;
    if piece == "" {
      assert s == sep + rest && s[|sep|..] == rest;
    } else {
      assert !(sep <= s) by {
        assert s[..|sep|] == (piece + sep)[0..][..|sep|];
      }
      assert s[1..] == piece[1..] + sep + rest;
      assert forall i :: 0 <= i < |piece[1..]| ==> (piece[1..] + sep)[i..] == (piece + sep)[i + 1..];
      SplitAt(piece[1..], sep, rest);
      assert [piece[0]] + piece[1..] == piece;
    }
  }

  /** unicode.IsSpace. */
  predicate IsSpace(c: char) {
    || '\t' <= c <= '\r' || c == ' ' || c == '\U{0085}' || c == '\U{00A0}' || c == '\U{1680}'
      || '\U{2000}' <= c <= '\U{200A}'
    || c == '\U{2028}' || c == '\U{2029}' || c == '\U{202F}' || c == '\U{205F}' || c == '\U{3000}'
  }

  /** strings.TrimSpace. */
  function Trim(s: string): string {
    if s == "" then ""
    else if IsSpace(s[0]) then Trim(s[1..])
    else if IsSpace(s[|s| - 1]) then Trim(s[..|s| - 1])
    else s
  }

  lemma {:induction false} TrimKeepsChars(s: string)
    ensures forall c :: c in Trim(s) ==> c in s
  {
    if s != "" {
      if IsSpace(s[0]) { TrimKeepsChars(s[1..]); }
      else if IsSpace(s[|s| - 1]) { TrimKeepsChars(s[..|s| - 1]); }
    }
  }

  function Concat(texts: seq<string>): string {
    if texts == [] then "" else texts[0] + Concat(texts[1..])
  }

  lemma {:induction false} ConcatOver(a: seq<string>, b: seq<string>)
    ensures Concat(a + b) == Concat(a) + Concat(b)
  {
    if a == [] {
      assert a + b == b;
    } else {
      assert (a + b)[1..] == a[1..] + b;
      ConcatOver(a[1..], b);
    }
  }

  lemma ConcatOne(text: string)
    ensures Concat([text]) == text
  {
    assert [text][1..] == [] && text + "" == text;
  }

  lemma {:induction false} CharOccurs(s: string, c: char)
    ensures Occurs(s, [c]) <==> c in s
  {
    if s != "" {
      CharOccurs(s[1..], c);
      assert forall d :: d in s <==> d == s[0] || d in s[1..];
      assert [c] <= s <==> s[0] == c;
    }
  }

  /** A piece without the separating character, up to the next separator. */
  lemma PieceSplits(piece: string, c: char, rest: string)
    requires c !in piece
    ensures SplitBy(piece + [c] + rest, [c]) == [piece] + SplitBy(rest, [c])
  {
    forall i | 0 <= i < |piece| ensures !([c] <= (piece + [c])[i..]) {
      assert (piece + [c])[i..][0] == piece[i];
    }
    SplitAt(piece, [c], rest);
  }

  lemma NewlineOccurs(s: string)
    ensures Occurs(s, "\n") <==> '\n' in s
  {
    CharOccurs(s, '\n');
  }

  lemma LineSplits(line: string, rest: string)
    requires '\n' !in line
    ensures SplitBy(line + "\n" + rest, "\n") == [line] + SplitBy(rest, "\n")
  {
    PieceSplits(line, '\n', rest);
  }

  lemma NoPieces()
    ensures SplitBy("", "\n") == [""] && Front([""]) == [] && Last([""]) == ""
  {
  }

  /** A complete line after some text closes the text's last piece. */
  lemma LineEnds(front: string, b: string)
    ensures var pieces := SplitBy(front, "\n");
      SplitBy(front + "\n" + b, "\n") == pieces + SplitBy(b, "\n")
  {
    hide SplitBy;
    var pieces := SplitBy(front, "\n");
    LastPieceIsWhole(front, "\n");
    NewlineOccurs(Last(pieces));
    assert front + "\n" + b == front + ("\n" + b) && Last(pieces) + ("\n" + b) == Last(pieces) + "\n" + b;
    SplitOver(front, "\n" + b, "\n");
    LineSplits(Last(pieces), b);
    assert pieces == Front(pieces) + [Last(pieces)];
  }
}
