// The browser's side of the event stream: frames put together again from
// whatever chunks the network delivers.
module EventClient {
  import opened Tree
  import opened Text
  import EventTail

  function Prefix(): string { "data: " }

  /** The first line of a block that carries data, without its prefix. */
  function Payload(lines: seq<string>): Option<string> {
    if lines == [] then None
    else if Prefix() <= lines[0] then Some(lines[0][|Prefix()|..])
    else Payload(lines[1..])
  }

  /** What one block makes onEvent receive: nothing without data, or when it does not parse. */
  function Received<T>(block: string, parse: string -> Option<T>): seq<T> {
    match Payload(SplitBy(block, "\n"))
    case None => []
    case Some(data) => if parse(data).Some? then [parse(data).value] else []
  }

  function ReceivedAll<T>(blocks: seq<string>, parse: string -> Option<T>): seq<T> {
    if blocks == [] then [] else Received(blocks[0], parse) + ReceivedAll(blocks[1..], parse)
  }

  /** The stream parsed at once: every block that an empty line ends. */
  function Parsed<T>(stream: string, parse: string -> Option<T>): seq<T> {
    ReceivedAll(Front(SplitBy(stream, "\n\n")), parse)
  }

  lemma {:induction false} ReceivedOver<T>(a: seq<string>, b: seq<string>, parse: string -> Option<T>)
    ensures ReceivedAll(a + b, parse) == ReceivedAll(a, parse) + ReceivedAll(b, parse)
  {
    if a == [] {
      assert a + b == b;
    } else {
      hide Received;
      assert (a + b)[1..] == a[1..] + b;
      ReceivedOver(a[1..], b, parse);
    }
  }

  /** More of the stream only adds to what was received, and the buffered rest is all that is needed. */
  lemma ParsedOver<T>(a: string, b: string, parse: string -> Option<T>)
    ensures Parsed(a + b, parse) == Parsed(a, parse) + Parsed(Last(SplitBy(a, "\n\n")) + b, parse)
    ensures Last(SplitBy(a + b, "\n\n")) == Last(SplitBy(Last(SplitBy(a, "\n\n")) + b, "\n\n"))
  {
    hide SplitBy, ReceivedAll;
    SplitOver(a, b, "\n\n");
    var done, rest := Front(SplitBy(a, "\n\n")), SplitBy(Last(SplitBy(a, "\n\n")) + b, "\n\n");
    assert Front(done + rest) == done + Front(rest);
    ReceivedOver(done, Front(rest), parse);
  }

  /** A response that is cut short anywhere has delivered a prefix of the events. */
  lemma CutShort<T>(a: string, whole: string, parse: string -> Option<T>)
    requires a <= whole
    ensures Parsed(a, parse) <= Parsed(whole, parse)
  {
    hide Parsed;
    assert whole == a + whole[|a|..];
    ParsedOver(a, whole[|a|..], parse);
  }

  lemma NothingParsed<T>(parse: string -> Option<T>)
    ensures SplitBy("", "\n\n") == [""] && Parsed("", parse) == []
  {
    assert Front([""]) == [];
  }

  lemma ConcatMore(chunks: seq<string>, i: nat)
    requires i < |chunks|
    ensures Concat(chunks[..i + 1]) == Concat(chunks[..i]) + chunks[i]
  {
    ConcatOver(chunks[..i], [chunks[i]]);
    ConcatOne(chunks[i]);
    assert chunks[..i + 1] == chunks[..i] + [chunks[i]];
  }

  /** The blocks of one chunk, each handed to onEvent if it holds an event. */
  method Deliver<T>(blocks: seq<string>, parse: string -> Option<T>) returns (received: seq<T>)
    ensures received == ReceivedAll(blocks, parse)
  {
    received := [];
    for i := 0 to |blocks|
      invariant received == ReceivedAll(blocks[..i], parse)
    {
      ReceivedOver(blocks[..i], [blocks[i]], parse);
      assert blocks[..i + 1] == blocks[..i] + [blocks[i]] && [blocks[i]][1..] == [];
      assert ReceivedAll([blocks[i]], parse) == Received(blocks[i], parse) + [] == Received(blocks[i], parse);
      var data := Payload(SplitBy(blocks[i], "\n"));
      if data.None? { continue; }
      var event := parse(data.value);
      if event.Some? { received := received + [event.value]; }
    }
    assert blocks[..|blocks|] == blocks;
  }

  /**
   * followEvents: however the response is cut into chunks, onEvent receives the
   * events of the whole stream parsed at once.
   */
  method FollowEvents<T>(chunks: seq<string>, parse: string -> Option<T>) returns (received: seq<T>)
    ensures received == Parsed(Concat(chunks), parse)
  {
    hide Parsed, ReceivedAll, SplitBy;
    var buffer := "";
    received := [];
    NothingParsed(parse);
    for i := 0 to |chunks|
      invariant received == Parsed(Concat(chunks[..i]), parse)
      invariant buffer == Last(SplitBy(Concat(chunks[..i]), "\n\n"))
    {
      ConcatMore(chunks, i);
      ParsedOver(Concat(chunks[..i]), chunks[i], parse);
      ParsedIs(buffer + chunks[i], parse);
      buffer := buffer + chunks[i];
      var blocks := SplitBy(buffer, "\n\n");
      buffer := Last(blocks);
      var more := Deliver(Front(blocks), parse);
      received := received + more;
    }
    assert chunks[..|chunks|] == chunks;
  }

  lemma ParsedIs<T>(stream: string, parse: string -> Option<T>)
    ensures Parsed(stream, parse) == ReceivedAll(Front(SplitBy(stream, "\n\n")), parse)
  {
  }

  // -- Server and client together ----------------------------------------------------------

  /** What the supervisor writes for the lines it sends. */
  function Frames(lines: seq<string>): string {
    if lines == [] then "" else Prefix() + lines[0] + "\n\n" + Frames(lines[1..])
  }

  /** The lines that parse, parsed. */
  function ParseAll<T>(lines: seq<string>, parse: string -> Option<T>): seq<T> {
    if lines == [] then []
    else (if parse(lines[0]).Some? then [parse(lines[0]).value] else []) + ParseAll(lines[1..], parse)
  }

  lemma FrameIsReceived<T>(line: string, parse: string -> Option<T>)
    requires '\n' !in line
    ensures Received(Prefix() + line, parse) == if parse(line).Some? then [parse(line).value] else []
  {
    var block := Prefix() + line;
    NewlineOccurs(block);
    SplitWhole(block, "\n");
    assert block[|Prefix()|..] == line;
  }

  lemma FrameSplits(line: string, rest: string)
    requires '\n' !in line
    ensures SplitBy(Prefix() + line + "\n\n" + rest, "\n\n") == [Prefix() + line] + SplitBy(rest, "\n\n")
  {
    var block := Prefix() + line;
    forall i | 0 <= i < |block| ensures !("\n\n" <= (block + "\n\n")[i..]) {
      assert (block + "\n\n")[i..][0] == block[i] && block[i] != '\n';
    }
    SplitAt(block, "\n\n", rest);
  }

  /** Parsing what the server writes gives back its lines, in order. */
  lemma {:induction false} FramesRoundTrip<T>(lines: seq<string>, parse: string -> Option<T>)
    requires forall i :: 0 <= i < |lines| ==> '\n' !in lines[i]
    ensures Parsed(Frames(lines), parse) == ParseAll(lines, parse)
  {
    hide SplitBy, Received;
    NothingParsed(parse);
    if lines != [] {
      var rest := Frames(lines[1..]);
      FramesRoundTrip(lines[1..], parse);
      FrameSplits(lines[0], rest);
      FrameIsReceived(lines[0], parse);
      var blocks := [Prefix() + lines[0]] + SplitBy(rest, "\n\n");
      assert Front(blocks)[1..] == Front(SplitBy(rest, "\n\n"));
    }
  }

  lemma {:induction false} KeptHaveNoNewline(pieces: seq<string>, json: string -> bool)
    requires forall i :: 0 <= i < |pieces| ==> '\n' !in pieces[i]
    ensures forall i :: 0 <= i < |EventTail.Kept(pieces, json)| ==> '\n' !in EventTail.Kept(pieces, json)[i]
  {
    if pieces != [] {
      TrimKeepsChars(pieces[0]);
      KeptHaveNoNewline(pieces[1..], json);
    }
  }

  lemma {:induction false} PiecesHaveNoNewline(s: string)
    ensures forall i :: 0 <= i < |SplitBy(s, "\n")| ==> '\n' !in SplitBy(s, "\n")[i]
    decreases |s|
  {
    if s != "" {
      PiecesHaveNoNewline(s[1..]);
      assert "\n" <= s <==> s[0] == '\n';
    }
  }

  /**
   * From the journal to the page: whatever the chunks, a client that receives all a
   * follower has sent gets exactly the events of the journal's whole lines, in order.
   */
  lemma EndToEnd<T>(chunks: seq<string>, text: string, json: string -> bool, parse: string -> Option<T>)
    requires Concat(chunks) == Frames(EventTail.Events(text, json))
    ensures Parsed(Concat(chunks), parse) == ParseAll(EventTail.Events(text, json), parse)
    ensures (forall line: string :: json(line) ==> parse(line).Some?) ==>
      |Parsed(Concat(chunks), parse)| == |EventTail.Events(text, json)|
  {
    PiecesHaveNoNewline(EventTail.Complete(text));
    KeptHaveNoNewline(SplitBy(EventTail.Complete(text), "\n"), json);
    FramesRoundTrip(EventTail.Events(text, json), parse);
    if forall line: string :: json(line) ==> parse(line).Some? {
      KeptParse(SplitBy(EventTail.Complete(text), "\n"), json, parse);
    }
  }

  lemma {:induction false} KeptParse<T>(pieces: seq<string>, json: string -> bool, parse: string -> Option<T>)
    requires forall line: string :: json(line) ==> parse(line).Some?
    ensures |ParseAll(EventTail.Kept(pieces, json), parse)| == |EventTail.Kept(pieces, json)|
  {
    if pieces != [] {
      KeptParse(pieces[1..], json, parse);
      var line := Trim(pieces[0]);
      if EventTail.Sendable(line, json) {
        assert EventTail.Kept(pieces, json)[1..] == EventTail.Kept(pieces[1..], json);
      } else {
        assert EventTail.Kept(pieces, json) == EventTail.Kept(pieces[1..], json);
      }
    }
  }
}
