// The written form of a pattern, and that Glob.Parse reads exactly it.
module GlobSyntax {
  import opened Tree
  import opened Glob

  /** A character as written: quoted by a backslash or not. */
  datatype Mark = Mark(c: char, quoted: bool)

  datatype Piece = One(mark: Mark) | Range(low: Mark, high: Mark)

  datatype Glyph = AnyNumber | AnyOne | Char(mark: Mark) | Class(negated: bool, pieces: seq<Piece>)

  function ShowMark(m: Mark): string {
    if m.quoted then ['\\', m.c] else [m.c]
  }

  function ShowPiece(p: Piece): string {
    match p
    case One(m) => ShowMark(m)
    case Range(low, high) => ShowMark(low) + "-" + ShowMark(high)
  }

  function ShowPieces(pieces: seq<Piece>): string {
    if pieces == [] then "" else ShowPiece(pieces[0]) + ShowPieces(pieces[1..])
  }

  function ShowGlyph(g: Glyph): string {
    match g
    case AnyNumber => "*"
    case AnyOne => "?"
    case Char(m) => ShowMark(m)
    case Class(negated, pieces) => Opening(negated) + (ShowPieces(pieces) + "]")
  }

  function Show(glyphs: seq<Glyph>): string {
    if glyphs == [] then "" else ShowGlyph(glyphs[0]) + Show(glyphs[1..])
  }

  /** An end of a range: a dash, a bracket or a backslash has to be quoted there. */
  predicate GoodEnd(m: Mark) {
    m.quoted || (m.c != '-' && m.c != ']' && m.c != '\\')
  }

  predicate GoodPiece(p: Piece) {
    match p
    case One(m) => GoodEnd(m)
    case Range(low, high) => GoodEnd(low) && GoodEnd(high)
  }

  predicate GoodPieces(pieces: seq<Piece>) {
    forall i :: 0 <= i < |pieces| ==> GoodPiece(pieces[i])
  }

  /** A class is not empty, and one that is not negated does not begin with a bare caret. */
  predicate GoodGlyph(g: Glyph) {
    match g
    case Char(m) => m.quoted || !Magic(m.c)
    case Class(negated, pieces) =>
      GoodPieces(pieces) && pieces != [] && (negated || ShowPieces(pieces)[..1] != "^")
    case _ => true
  }

  predicate Good(glyphs: seq<Glyph>) {
    forall i :: 0 <= i < |glyphs| ==> GoodGlyph(glyphs[i])
  }

  function Span(p: Piece): (char, char) {
    match p
    case One(m) => (m.c, m.c)
    case Range(low, high) => (low.c, high.c)
  }

  function Spans(pieces: seq<Piece>): seq<(char, char)> {
    if pieces == [] then [] else [Span(pieces[0])] + Spans(pieces[1..])
  }

  function TokenOf(g: Glyph): Token {
    match g
    case AnyNumber => Star
    case AnyOne => Any
    case Char(m) => Only(m.c)
    case Class(negated, pieces) => OneOf(negated, Spans(pieces))
  }

  function Meaning(glyphs: seq<Glyph>): seq<Token> {
    if glyphs == [] then [] else [TokenOf(glyphs[0])] + Meaning(glyphs[1..])
  }

  // -- Reading what was written ---------------------------------------------------------------

  lemma EndpointOf(m: Mark, rest: string)
    requires GoodEnd(m) && rest != ""
    ensures Endpoint(ShowMark(m) + rest) == Some((m.c, rest))
  {
    var s := ShowMark(m) + rest;
    assert s[|ShowMark(m)|..] == rest;
  }

  lemma PieceOf(p: Piece, rest: string, some: bool)
    requires GoodPiece(p) && rest != "" && rest[0] != '-'
    ensures Ranges(ShowPiece(p) + rest, some) == (
      match Ranges(rest, true)
      case None => None
      case Some((more, end)) => Some(([Span(p)] + more, end)))
  {
    hide Endpoint;
    var s := ShowPiece(p) + rest;
    match p
    case One(m) =>
      EndpointOf(m, rest);
    case Range(low, high) =>
      var tail := ShowMark(high) + rest;
      EndpointOf(low, "-" + tail);
      EndpointOf(high, rest);
      assert s == ShowMark(low) + ("-" + tail) && ("-" + tail)[1..] == tail;
  }

  lemma {:induction false} RangesOf(pieces: seq<Piece>, rest: string, some: bool)
    requires GoodPieces(pieces) && (some || pieces != [])
    ensures Ranges(ShowPieces(pieces) + ("]" + rest), some) == Some((Spans(pieces), rest))
  {
    if pieces == [] {
      assert ShowPieces(pieces) + ("]" + rest) == "]" + rest && ("]" + rest)[1..] == rest;
    } else {
      var tail := ShowPieces(pieces[1..]) + ("]" + rest);
      RangesOf(pieces[1..], rest, true);
      assert tail[0] != '-' by { NoDash(pieces[1..], "]" + rest); }
      assert ShowPieces(pieces) + ("]" + rest) == ShowPiece(pieces[0]) + tail;
      hide Ranges, ShowPiece;
      assert GoodPiece(pieces[0]);
      PieceOf(pieces[0], tail, some);
    }
  }

  lemma NoDash(pieces: seq<Piece>, rest: string)
    requires GoodPieces(pieces) && rest != "" && rest[0] != '-'
    ensures ShowPieces(pieces) + rest != "" && (ShowPieces(pieces) + rest)[0] != '-'
  {
    if pieces != [] { assert GoodPiece(pieces[0]); }
  }

  function Opening(negated: bool): string { if negated then "[^" else "[" }

  lemma ParseClass(negated: bool, inner: string)
    requires negated || inner[..if inner == "" then 0 else 1] != "^"
    ensures Parse(Opening(negated) + inner) == (
      match Ranges(inner, false)
      case None => None
      case Some((ranges, rest)) => Then(OneOf(negated, ranges), Parse(rest)))
  {
    hide Ranges;
    var p := Opening(negated) + inner;
    assert p[if negated then 2 else 1..] == inner;
    assert |p| > 1 && p[1] == '^' <==> negated by {
      if !negated && inner != "" { assert p[1] == inner[0] == inner[..1][0]; }
    }
  }

  /** What follows the opening of a class that is not empty. */
  lemma InnerFirst(pieces: seq<Piece>, rest: string)
    requires GoodPieces(pieces) && pieces != []
    ensures var inner := ShowPieces(pieces) + ("]" + rest); inner != "" && inner[..1] == ShowPieces(pieces)[..1]
  {
    assert GoodPiece(pieces[0]) && |ShowPieces(pieces)| > 0;
  }

  lemma ClassOf(negated: bool, pieces: seq<Piece>, rest: string)
    requires GoodGlyph(Class(negated, pieces))
    ensures Parse(ShowGlyph(Class(negated, pieces)) + rest) == Then(OneOf(negated, Spans(pieces)), Parse(rest))
  {
    var inner := ShowPieces(pieces) + ("]" + rest);
    RangesOf(pieces, rest, false);
    InnerFirst(pieces, rest);
    hide Ranges, ShowPieces, Parse;
    ParseClass(negated, inner);
    assert ShowGlyph(Class(negated, pieces)) + rest == Opening(negated) + inner;
  }

  lemma GlyphOf(g: Glyph, rest: string)
    requires GoodGlyph(g)
    ensures Parse(ShowGlyph(g) + rest) == Then(TokenOf(g), Parse(rest))
  {
    match g
    case Class(negated, pieces) => ClassOf(negated, pieces, rest);
    case _ =>
      var p := ShowGlyph(g) + rest;
      assert p[|ShowGlyph(g)|..] == rest;
  }

  /** What is written is read back. */
  lemma {:induction false} ReadBack(glyphs: seq<Glyph>)
    requires Good(glyphs)
    ensures Parse(Show(glyphs)) == Some(Meaning(glyphs))
  {
    if glyphs != [] {
      ReadBack(glyphs[1..]);
      assert GoodGlyph(glyphs[0]);
      hide Parse, ShowGlyph, GoodGlyph, TokenOf;
      GlyphOf(glyphs[0], Show(glyphs[1..]));
    }
  }

  // -- Nothing else is read ---------------------------------------------------------------------

  lemma EndpointShows(s: string) returns (m: Mark)
    requires Endpoint(s).Some?
    ensures var (c, rest) := Endpoint(s).value; GoodEnd(m) && m.c == c && rest != "" && s == ShowMark(m) + rest
  {
    m := if s[0] == '\\' then Mark(s[1], true) else Mark(s[0], false);
  }

  lemma {:induction false} RangesShow(s: string, some: bool) returns (pieces: seq<Piece>)
    requires Ranges(s, some).Some?
    ensures var (ranges, rest) := Ranges(s, some).value;
      && GoodPieces(pieces) && (some || pieces != []) && Spans(pieces) == ranges
      && s == ShowPieces(pieces) + ("]" + rest)
    decreases |s|
  {
    if s != "" && s[0] == ']' && some {
      assert s == "" + ("]" + s[1..]);
      return [];
    }
    var low := EndpointShows(s);
    var rest := Endpoint(s).value.1;
    var first, after;
    if rest[0] == '-' {
      var high := EndpointShows(rest[1..]);
      first, after := Range(low, high), Endpoint(rest[1..]).value.1;
      assert s == ShowPiece(first) + after;
    } else {
      first, after := One(low), rest;
    }
    var more := RangesShow(after, true);
    pieces := [first] + more;
    OnePieceMore(first, more, s, after, Ranges(after, true).value.1);
  }

  lemma OnePieceMore(first: Piece, more: seq<Piece>, s: string, after: string, rest: string)
    requires GoodPiece(first) && GoodPieces(more)
    requires s == ShowPiece(first) + after && after == ShowPieces(more) + ("]" + rest)
    ensures var pieces := [first] + more;
      && GoodPieces(pieces) && s == ShowPieces(pieces) + ("]" + rest) && Spans(pieces) == [Span(first)] + Spans(more)
  {
    var pieces := [first] + more;
    assert pieces[1..] == more;
    assert ShowPieces(pieces) + ("]" + rest) == ShowPiece(first) + (ShowPieces(more) + ("]" + rest));
  }

  lemma FirstClass(p: string) returns (g: Glyph, rest: string)
    requires p != "" && p[0] == '[' && Parse(p).Some?
    ensures GoodGlyph(g) && p == ShowGlyph(g) + rest
    ensures Parse(rest).Some? && Parse(p).value == [TokenOf(g)] + Parse(rest).value
  {
    hide Parse, Ranges, ShowPieces;
    var negated := |p| > 1 && p[1] == '^';
    var inner := p[if negated then 2 else 1..];
    assert p == Opening(negated) + inner;
    assert negated || inner[..if inner == "" then 0 else 1] != "^" by {
      if !negated && inner != "" { assert inner[..1][0] == p[1]; }
    }
    ParseClass(negated, inner);
    var pieces := RangesShow(inner, false);
    g, rest := Class(negated, pieces), Ranges(inner, false).value.1;
    InnerFirst(pieces, rest);
  }

  lemma FirstGlyph(p: string) returns (g: Glyph, rest: string)
    requires p != "" && Parse(p).Some?
    ensures GoodGlyph(g) && p == ShowGlyph(g) + rest && |rest| < |p|
    ensures Parse(rest).Some? && Parse(p).value == [TokenOf(g)] + Parse(rest).value
  {
    hide Ranges, ShowPieces;
    if p[0] == '[' {
      g, rest := FirstClass(p);
    } else if p[0] == '\\' {
      g, rest := Char(Mark(p[1], true)), p[2..];
    } else {
      g := if p[0] == '*' then AnyNumber else if p[0] == '?' then AnyOne else Char(Mark(p[0], false));
      rest := p[1..];
    }
  }

  lemma {:induction false} Written(p: string) returns (glyphs: seq<Glyph>)
    requires Parse(p).Some?
    ensures Good(glyphs) && Show(glyphs) == p && Meaning(glyphs) == Parse(p).value
    decreases |p|
  {
    if p == "" { return []; }
    var g, rest := FirstGlyph(p);
    hide Parse, ShowGlyph, GoodGlyph, TokenOf;
    var more := Written(rest);
    glyphs := [g] + more;
    assert glyphs[1..] == more;
  }

  /** A pattern has a meaning exactly if it is written as one, and then the one that was written. */
  lemma ParseExactly(p: string, tokens: seq<Token>)
    ensures Parse(p) == Some(tokens) <==>
      exists glyphs :: Good(glyphs) && Show(glyphs) == p && Meaning(glyphs) == tokens
  {
    if Parse(p) == Some(tokens) { var glyphs := Written(p); }
    forall glyphs | Good(glyphs) && Show(glyphs) == p && Meaning(glyphs) == tokens ensures Parse(p) == Some(tokens) {
      ReadBack(glyphs);
    }
  }

  // -- What a pattern matches -------------------------------------------------------------------

  /** Two patterns in a row match what can be cut into what each of them matches. */
  lemma {:induction false} MatchInTwo(first: seq<Token>, second: seq<Token>, name: string)
    ensures Matches(first + second, name) <==>
      exists k :: 0 <= k <= |name| && Matches(first, name[..k]) && Matches(second, name[k..])
    decreases |first| + |name|
  {
    if first == [] {
      assert first + second == second && name[0..] == name && name[..0] == "";
      assert forall k :: 0 <= k <= |name| && Matches([], name[..k]) ==> k == 0;
    } else {
      MatchOneMore(first, second, name);
    }
  }

  /** One step of the matcher, in front of a second pattern. */
  lemma {:induction false} MatchOneMore(first: seq<Token>, second: seq<Token>, name: string)
    requires first != []
    ensures Matches(first + second, name) <==>
      exists k :: 0 <= k <= |name| && Matches(first, name[..k]) && Matches(second, name[k..])
    decreases |first| + |name|, 0
  {
    var both := first + second;
    assert both[1..] == first[1..] + second;
    MatchInTwo(first[1..], second, name);
    if name != "" {
      MatchInTwo(if first[0].Star? then first else first[1..], second, name[1..]);
    }
    if Matches(both, name) {
      if first[0].Star? && Matches(both[1..], name) {
        var k :| 0 <= k <= |name| && Matches(first[1..], name[..k]) && Matches(second, name[k..]);
        assert Matches(first, name[..k]);
      } else {
        var left := if first[0].Star? then first else first[1..];
        var k :| 0 <= k <= |name[1..]| && Matches(left, name[1..][..k]) && Matches(second, name[1..][k..]);
        assert name[..k + 1][1..] == name[1..][..k] && name[k + 1..] == name[1..][k..];
        assert Matches(first, name[..k + 1]);
      }
    }
    forall k | 0 <= k <= |name| && Matches(first, name[..k]) && Matches(second, name[k..]) ensures Matches(both, name) {
      if !(first[0].Star? && Matches(first[1..], name[..k])) {
        assert name[..k][1..] == name[1..][..k - 1] && name[k..] == name[1..][k - 1..];
      }
    }
  }

  /** What one token matches. */
  lemma MatchOne(t: Token, name: string)
    ensures Matches([t], name) <==>
      match t
      case Star => '/' !in name
      case Any => |name| == 1 && name[0] != '/'
      case Only(c) => name == [c]
      case OneOf(negated, ranges) =>
        |name| == 1 && (negated <==> forall i :: 0 <= i < |ranges| ==> !(ranges[i].0 <= name[0] <= ranges[i].1))
  {
    assert [t][1..] == [];
    if t.Star? { StarTakes(name); }
  }

  lemma {:induction false} StarTakes(name: string)
    ensures Matches([Star], name) <==> '/' !in name
  {
    if name != "" {
      StarTakes(name[1..]);
      assert name == [name[0]] + name[1..];
    }
  }
}
