// The supervisor's live event stream of a protected run, whose journal is rotated:
// tailing the journals that the run's record lists.
module RunTail {
  import opened Tree
  import opened Text
  import opened EventTail
  import Lifecycle

  // -- Many journals in one stream ---------------------------------------------------------

  /** A line sent, with the journal it came from. */
  datatype Sent = Sent(path: string, line: string)

  datatype Across = Across(positions: map<string, nat>, sent: seq<Sent>)

  function Position(a: Across, path: string): nat {
    if path in a.positions then a.positions[path] else 0
  }

  function Tag(path: string, lines: seq<string>): (r: seq<Sent>)
    ensures |r| == |lines| && forall i :: 0 <= i < |r| ==> r[i] == Sent(path, lines[i])
  {
    if lines == [] then [] else [Sent(path, lines[0])] + Tag(path, lines[1..])
  }

  function Lines(sent: seq<Sent>): (r: seq<string>)
    ensures |r| == |sent| && forall i :: 0 <= i < |r| ==> r[i] == sent[i].line
  {
    if sent == [] then [] else [sent[0].line] + Lines(sent[1..])
  }

  /** The lines sent from one journal. */
  function Of(sent: seq<Sent>, path: string): seq<string> {
    if sent == [] then []
    else (if sent[0].path == path then [sent[0].line] else []) + Of(sent[1..], path)
  }

  lemma {:induction false} OfOver(a: seq<Sent>, b: seq<Sent>, path: string)
    ensures Of(a + b, path) == Of(a, path) + Of(b, path)
  {
    if a == [] {
      assert a + b == b;
    } else {
      assert (a + b)[1..] == a[1..] + b;
      OfOver(a[1..], b, path);
    }
  }

  lemma {:induction false} OfTag(path: string, lines: seq<string>, other: string)
    ensures Of(Tag(path, lines), other) == if path == other then lines else []
  {
    if lines != [] {
      OfTag(path, lines[1..], other);
      assert Tag(path, lines)[1..] == Tag(path, lines[1..]);
    }
  }

  /** One journal's turn in a round of streamEventDelta. */
  function LookIn(a: Across, path: string, text: Option<string>, json: string -> bool): Across {
    var p := Look(Progress(Position(a, path), []), text, json);
    if p.position == Position(a, path) then a
    else Across(a.positions[path := p.position], a.sent + Tag(path, p.sent))
  }

  function LookInAll(looks: seq<(string, Option<string>)>, json: string -> bool): Across {
    if looks == [] then Across(map[], [])
    else LookIn(LookInAll(Front(looks), json), Last(looks).0, Last(looks).1, json)
  }

  /** The looks at one journal. */
  function LooksAt(looks: seq<(string, Option<string>)>, path: string): seq<Option<string>> {
    if looks == [] then []
    else LooksAt(Front(looks), path) + if Last(looks).0 == path then [Last(looks).1] else []
  }

  lemma LookAddsSent(position: nat, sent: seq<string>, text: Option<string>, json: string -> bool)
    ensures var p, q := Look(Progress(position, []), text, json), Look(Progress(position, sent), text, json);
      q.position == p.position && q.sent == sent + p.sent && (p.position == position ==> p.sent == [])
  {
    if text.Some? && position <= |text.value| {
      var data := text.value[position..];
      if |Complete(data)| == 0 { NoLineYet(data, json); }
    }
  }

  /** What one turn does to each journal's progress. */
  lemma OneTurn(a: Across, turn: string, text: Option<string>, path: string, json: string -> bool)
    ensures var b := LookIn(a, turn, text, json);
      var mine := Progress(Position(a, path), Of(a.sent, path));
      Progress(Position(b, path), Of(b.sent, path)) == if turn == path then Look(mine, text, json) else mine
  {
    hide Look, Of, Tag;
    var p := Look(Progress(Position(a, turn), []), text, json);
    LookAddsSent(Position(a, turn), Of(a.sent, path), text, json);
    OfOver(a.sent, Tag(turn, p.sent), path);
    OfTag(turn, p.sent, path);
  }

  /** Tailing many journals with a table of positions is tailing each of them on its own. */
  lemma {:induction false} EachOnItsOwn(looks: seq<(string, Option<string>)>, path: string, json: string -> bool)
    ensures var a := LookInAll(looks, json);
      Progress(Position(a, path), Of(a.sent, path)) == LookAll(LooksAt(looks, path), json)
  {
    if looks != [] {
      hide Look, LookIn, Of, Position;
      var last := Last(looks);
      EachOnItsOwn(Front(looks), path, json);
      OneTurn(LookInAll(Front(looks), json), last.0, last.1, path, json);
      var mine := LooksAt(Front(looks), path);
      assert Front(mine + [last.1]) == mine && Last(mine + [last.1]) == last.1;
      assert mine + [] == mine;
    }
  }

  lemma {:induction false} ConcatComplete(texts: seq<string>)
    requires forall i :: 0 <= i < |texts| ==> Complete(texts[i]) == texts[i]
    ensures Complete(Concat(texts)) == Concat(texts)
  {
    if texts != [] {
      ConcatComplete(texts[1..]);
      CompleteOver(texts[0], Concat(texts[1..]));
    }
  }

  lemma CompleteIsPrefix(s: string)
    ensures Complete(s) <= s
  {
  }

  lemma PartialSendsNothing(text: string, json: string -> bool)
    ensures Events(text[|Complete(text)|..], json) == []
  {
    var done := Complete(text);
    var rest := text[|done|..];
    CompleteIsComplete(text);
    assert text == done + rest;
    CompleteOver(done, rest);
    assert Complete(rest) == "";
    NoPieces();
    KeptOne("", json);
  }

  /** Rotation: journals are distinct, and only the last one listed is still being written. */
  ghost predicate Rotated(paths: seq<string>, texts: seq<string>) {
    && |texts| == |paths|
    && (forall i, j :: 0 <= i < j < |paths| ==> paths[i] != paths[j])
    && forall j :: 0 <= j < |texts| - 1 ==> Complete(texts[j]) == texts[j]
  }

  lemma {:induction false} LinesOver(a: seq<Sent>, b: seq<Sent>)
    ensures Lines(a + b) == Lines(a) + Lines(b)
  {
    assert forall i :: 0 <= i < |a + b| ==> Lines(a + b)[i] == (Lines(a) + Lines(b))[i];
  }

  lemma {:induction false} LinesOfTag(path: string, lines: seq<string>)
    ensures Lines(Tag(path, lines)) == lines
  {
    assert forall i :: 0 <= i < |lines| ==> Lines(Tag(path, lines))[i] == lines[i];
  }

  // -- A run's journals and its record --------------------------------------------------------

  /** Journals grow at the end of the last one; a new one is begun only behind a whole line. */
  ghost predicate Grown(paths: seq<string>, texts: seq<string>, morePaths: seq<string>, moreTexts: seq<string>) {
    && |texts| == |paths| > 0 && |moreTexts| == |morePaths| && paths <= morePaths
    && (forall j :: 0 <= j < |texts| ==> texts[j] <= moreTexts[j])
    && forall j :: 0 <= j < |texts| - 1 ==> texts[j] == moreTexts[j]
  }

  lemma GrownTwice(p: seq<string>, t: seq<string>, q: seq<string>, u: seq<string>, r: seq<string>, v: seq<string>)
    requires Grown(p, t, q, u) && Grown(q, u, r, v)
    ensures Grown(p, t, r, v)
  {
  }

  /** What the listed journals held at an earlier time: all but the last of them are closed. */
  ghost predicate Held(held: seq<string>, texts: seq<string>) {
    && 0 < |held| <= |texts|
    && (forall j :: 0 <= j < |held| ==> held[j] <= texts[j])
    && forall j :: 0 <= j < |held| - 1 ==> held[j] == texts[j]
  }

  lemma HeldGrows(held: seq<string>, paths: seq<string>, texts: seq<string>, morePaths: seq<string>,
                  moreTexts: seq<string>)
    requires Held(held, texts) && Grown(paths, texts, morePaths, moreTexts)
    ensures Held(held, moreTexts)
  {
  }

  /** A run's record, with what the journals it lists held when it was written. */
  datatype RunRecord = RunRecord(runId: string, state: Lifecycle.State, held: seq<string>)

  const FINAL: set<Lifecycle.State> :=
    {Lifecycle.Succeeded, Lifecycle.Failed, Lifecycle.Committed, Lifecycle.RolledBack}

  predicate IsTerminal(state: Lifecycle.State)
    ensures IsTerminal(state) <==> state in FINAL
  {
    state.Succeeded? || state.Failed? || state.Committed? || state.RolledBack?
  }

  /** What is on disk: the journals by path, in the order of rotation, and the record. */
  datatype Stored = Stored(paths: seq<string>, texts: seq<string>, record: RunRecord)

  /** What the run may do: append in any pieces, go on to another journal, write the record. */
  datatype Deed = More(more: string) | Turnover(name: string) | Write(state: Lifecycle.State)

  /** One deed: another journal is begun only behind a whole line, and under a new name. */
  function AfterDeed(d: Stored, deed: Deed): Stored {
    match deed
    case More(more) => if d.texts == [] then d else d.(texts := Front(d.texts) + [Last(d.texts) + more])
    case Turnover(name) =>
      if name !in d.paths && d.texts != [] && Complete(Last(d.texts)) == Last(d.texts)
      then d.(paths := d.paths + [name], texts := d.texts + [""]) else d
    case Write(state) => d.(record := d.record.(state := state, held := d.texts))
  }

  function AfterDeeds(d: Stored, deeds: seq<Deed>): Stored {
    if deeds == [] then d else AfterDeed(AfterDeeds(d, Front(deeds)), Last(deeds))
  }

  /** After the deeds before each of the first n looks. */
  function AfterTurns(d: Stored, deeds: nat -> seq<Deed>, n: nat): Stored {
    if n == 0 then d else AfterDeeds(AfterTurns(d, deeds, n - 1), deeds(n - 1))
  }

  class RunFiles {
    var paths: seq<string>
    var texts: seq<string>
    var record: RunRecord
    ghost var shown: seq<RunRecord>  // the record at each try to read it

    ghost predicate Valid()
      reads this
    {
      Rotated(paths, texts) && paths != [] && Held(record.held, texts)
    }

    function State(): Stored
      reads this
    {
      Stored(paths, texts, record)
    }

    constructor (first: string, runId: string, state: Lifecycle.State)
      ensures Valid() && State() == Stored([first], [""], RunRecord(runId, state, [""])) && shown == []
    {
      paths, texts := [first], [""];
      record := RunRecord(runId, state, [""]);
      shown := [];
    }

    /** A reader tries to read the record. */
    method ReadRecord(works: bool) returns (answer: Option<RunRecord>)
      modifies this`shown
      ensures shown == old(shown) + [record] && answer == if works then Some(record) else None
    {
      shown := shown + [record];
      answer := if works then Some(record) else None;
    }

    method Do(deed: Deed)
      requires Valid()
      modifies this`paths, this`texts, this`record
      ensures Valid() && Grown(old(paths), old(texts), paths, texts)
      ensures State() == AfterDeed(old(State()), deed)
    {
      match deed
      case More(more) =>
        texts := texts[|texts| - 1 := Last(texts) + more];
        assert texts == Front(old(texts)) + [Last(old(texts)) + more];
      case Turnover(name) =>
        if name !in paths && Complete(Last(texts)) == Last(texts) {
          paths, texts := paths + [name], texts + [""];
        }
      case Write(state) =>
        record := record.(state := state, held := texts);
    }

    /** Whatever the run does meanwhile. */
    method Progress(deeds: seq<Deed>)
      requires Valid()
      modifies this`paths, this`texts, this`record
      ensures Valid() && Grown(old(paths), old(texts), paths, texts)
      ensures State() == AfterDeeds(old(State()), deeds)
    {
      GrownNot(paths, texts);
      hide AfterDeed, Grown, Rotated, Held;
      for i := 0 to |deeds|
        invariant Valid() && Grown(old(paths), old(texts), paths, texts)
        invariant State() == AfterDeeds(old(State()), deeds[..i])
      {
        assert Front(deeds[..i + 1]) == deeds[..i] && Last(deeds[..i + 1]) == deeds[i];
        ghost var p, t := paths, texts;
        Do(deeds[i]);
        GrownTwice(old(paths), old(texts), p, t, paths, texts);
      }
      assert deeds[..|deeds|] == deeds;
    }
  }

  // -- What a follower has seen ----------------------------------------------------------------

  /** Each journal has been tailed on its own account, and only journals of the run have been looked at. */
  ghost predicate Tracks(a: Across, looks: seq<(string, Option<string>)>, paths: seq<string>, texts: seq<string>,
                         json: string -> bool) {
    && a == LookInAll(looks, json) && |texts| == |paths|
    && (forall p :: p !in paths ==> LooksAt(looks, p) == [])
    && forall j :: 0 <= j < |paths| ==> Tailed(LooksAt(looks, paths[j]), texts[j])
  }

  ghost predicate Tailed(looks: seq<Option<string>>, text: string) {
    Appending(looks) && SeenBefore(looks, text)
  }

  lemma TailedMore(looks: seq<Option<string>>, before: string, after: string)
    requires Tailed(looks, before) && before <= after
    ensures Tailed(looks, after)
  {
  }

  lemma TracksGrow(a: Across, looks: seq<(string, Option<string>)>, paths: seq<string>, texts: seq<string>,
                   morePaths: seq<string>, moreTexts: seq<string>, json: string -> bool)
    requires Tracks(a, looks, paths, texts, json) && Grown(paths, texts, morePaths, moreTexts)
      && Rotated(morePaths, moreTexts)
    ensures Tracks(a, looks, morePaths, moreTexts, json)
  {
    hide LooksAt, LookInAll, Tailed;
    forall j | 0 <= j < |morePaths| ensures Tailed(LooksAt(looks, morePaths[j]), moreTexts[j]) {
      if j < |paths| {
        assert morePaths[j] == paths[j];
        TailedMore(LooksAt(looks, paths[j]), texts[j], moreTexts[j]);
      } else {
        NewcomerIsUnseen(paths, morePaths, j);
        NeverLooked(moreTexts[j]);
      }
    }
  }

  lemma NewcomerIsUnseen(paths: seq<string>, more: seq<string>, j: nat)
    requires paths <= more && |paths| <= j < |more| && forall i, k :: 0 <= i < k < |more| ==> more[i] != more[k]
    ensures more[j] !in paths
  {
    assert forall i :: 0 <= i < |paths| ==> paths[i] == more[i];
  }

  lemma NeverLooked(text: string)
    ensures Tailed([], text)
  {
  }

  lemma LooksMore(looks: seq<(string, Option<string>)>, path: string, look: Option<string>, q: string,
                  json: string -> bool)
    ensures LooksAt(looks + [(path, look)], q) == LooksAt(looks, q) + if q == path then [look] else []
    ensures LookInAll(looks + [(path, look)], json) == LookIn(LookInAll(looks, json), path, look, json)
  {
    var more := looks + [(path, look)];
    assert Front(more) == looks && Last(more) == (path, look);
  }

  lemma TracksMore(a: Across, looks: seq<(string, Option<string>)>, paths: seq<string>, texts: seq<string>, i: nat,
                   look: Option<string>, json: string -> bool)
    requires Tracks(a, looks, paths, texts, json) && Rotated(paths, texts)
    requires i < |paths| && (look.Some? ==> look.value == texts[i])
    ensures Tracks(LookIn(a, paths[i], look, json), looks + [(paths[i], look)], paths, texts, json)
  {
    hide LooksAt, LookInAll, LookIn;
    var more := looks + [(paths[i], look)];
    forall q ensures LooksAt(more, q) == LooksAt(looks, q) + if q == paths[i] then [look] else [] {
      LooksMore(looks, paths[i], look, q, json);
    }
    LooksMore(looks, paths[i], look, paths[i], json);
    forall j | 0 <= j < |paths| ensures Tailed(LooksAt(more, paths[j]), texts[j]) {
      if j == i {
        SeenNow(LooksAt(looks, paths[i]), look, texts[i]);
      } else {
        assert paths[j] != paths[i];
        assert LooksAt(looks, paths[j]) + [] == LooksAt(looks, paths[j]);
      }
    }
    forall p | p !in paths ensures LooksAt(more, p) == [] {
      assert LooksAt(looks, p) + [] == LooksAt(looks, p);
    }
  }

  // -- The order of rotation ---------------------------------------------------------------------

  /** Has a line of this journal been sent? */
  ghost predicate Heard(sent: seq<Sent>, path: string) {
    exists k :: 0 <= k < |sent| && sent[k].path == path
  }

  /** Has a line of the later journal been sent before one of the earlier? */
  ghost predicate Swapped(sent: seq<Sent>, earlier: string, later: string) {
    exists k, l :: 0 <= k < l < |sent| && sent[k].path == later && sent[l].path == earlier
  }

  /** The lines of these journals come in the order of the journals. */
  ghost predicate InRotation(sent: seq<Sent>, paths: seq<string>) {
    forall i, j :: 0 <= i < j < |paths| ==> !Swapped(sent, paths[i], paths[j])
  }

  /** What of a journal has not been sent. */
  function Left(a: Across, paths: seq<string>, texts: seq<string>, i: nat, json: string -> bool): seq<string>
    requires i < |paths| == |texts|
  {
    Unsent(texts[i], Position(a, paths[i]), json)
  }

  /** Nothing of the first n journals is left to send. */
  predicate Settled(a: Across, paths: seq<string>, texts: seq<string>, n: nat, json: string -> bool) {
    n <= |paths| == |texts| && forall i :: 0 <= i < n ==> Left(a, paths, texts, i, json) == []
  }

  /** The journals of which a turn has sent lines while something of an earlier one was left to send. */
  function Jumps(a: Across, paths: seq<string>, texts: seq<string>, i: nat, text: Option<string>, jumps: set<nat>,
                 json: string -> bool): set<nat>
    requires i < |paths|
  {
    if LookIn(a, paths[i], text, json).sent != a.sent && !Settled(a, paths, texts, i, json) then jumps + {i} else jumps
  }

  /** What a turn does. */
  lemma TurnSends(a: Across, path: string, text: string, json: string -> bool)
    ensures var b := LookIn(a, path, Some(text), json);
      && b.sent == a.sent + Tag(path, Unsent(text, Position(a, path), json))
      && Unsent(text, Position(b, path), json) == []
      && forall p :: p != path ==> Position(b, p) == Position(a, p)
  {
    hide Events, Complete, Tag;
    LookAddsSent(Position(a, path), [], Some(text), json);
    NothingTagged(path);
    if Position(a, path) <= |text| {
      var data := text[Position(a, path)..];
      PartialSendsNothing(data, json);
      CompleteIsPrefix(data);
      assert text[Position(a, path) + |Complete(data)|..] == data[|Complete(data)|..];
      assert [] + Events(data, json) == Events(data, json);
    }
    assert a.sent + [] == a.sent;
  }

  lemma NothingTagged(path: string)
    ensures Tag(path, []) == []
  {
  }

  lemma HeardMore(sent: seq<Sent>, path: string, lines: seq<string>, p: string)
    ensures Heard(sent + Tag(path, lines), p) <==> Heard(sent, p) || (p == path && lines != [])
  {
    hide Tag;
    var more := sent + Tag(path, lines);
    if k :| 0 <= k < |sent| && sent[k].path == p { assert more[k].path == p; }
    if lines != [] { assert more[|sent|].path == path; }
  }

  lemma SwappedMore(sent: seq<Sent>, path: string, lines: seq<string>, earlier: string, later: string)
    requires earlier != later
    ensures Swapped(sent + Tag(path, lines), earlier, later)
      <==> Swapped(sent, earlier, later) || (earlier == path && lines != [] && Heard(sent, later))
  {
    hide Tag;
    var more := sent + Tag(path, lines);
    if k, l :| 0 <= k < l < |sent| && sent[k].path == later && sent[l].path == earlier {
      assert more[k].path == later && more[l].path == earlier;
    }
    if k, l :| 0 <= k < l < |more| && more[k].path == later && more[l].path == earlier {
      assert k < |sent| ==> sent[k].path == later;
      assert l < |sent| ==> sent[l].path == earlier;
    }
    if lines != [] && earlier == path {
      if k :| 0 <= k < |sent| && sent[k].path == later {
        assert more[k].path == later && more[|sent|].path == earlier;
      }
    }
  }

  /** A jump over an earlier journal has swapped lines or will when what is left of that journal is sent. */
  ghost predicate JumpedOver(a: Across, paths: seq<string>, texts: seq<string>, i: nat, j: nat, json: string -> bool)
    requires i < j < |paths| == |texts|
  {
    Left(a, paths, texts, i, json) != [] || Swapped(a.sent, paths[i], paths[j])
  }

  /** The jumps tell which lines are, or will be, out of order. */
  ghost predicate Explained(a: Across, paths: seq<string>, texts: seq<string>, jumps: set<nat>, json: string -> bool) {
    && |texts| == |paths|
    && (forall j :: j in jumps ==>
          j < |paths| && Heard(a.sent, paths[j]) && exists i :: 0 <= i < j && JumpedOver(a, paths, texts, i, j, json))
    && (forall j :: 0 <= j < |paths| && Heard(a.sent, paths[j]) && j !in jumps ==> Settled(a, paths, texts, j, json))
    && forall i, j :: 0 <= i < j < |paths| && Swapped(a.sent, paths[i], paths[j]) ==> j in jumps
  }

  /** What one turn does to one journal's rest, to who has been heard and to who is swapped. */
  lemma TurnMoves(a: Across, paths: seq<string>, texts: seq<string>, t: nat, json: string -> bool)
    requires Rotated(paths, texts) && t < |paths|
    ensures var b, lines := LookIn(a, paths[t], Some(texts[t]), json), Left(a, paths, texts, t, json);
      && (b.sent != a.sent <==> lines != [])
      && (forall i :: 0 <= i < |paths| ==>
            Left(b, paths, texts, i, json) == if i == t then [] else Left(a, paths, texts, i, json))
      && (forall j :: 0 <= j < |paths| ==>
            (Heard(b.sent, paths[j]) <==> Heard(a.sent, paths[j]) || (j == t && lines != [])))
      && forall i, j :: 0 <= i < j < |paths| ==>
           (Swapped(b.sent, paths[i], paths[j])
            <==> Swapped(a.sent, paths[i], paths[j]) || (i == t && lines != [] && Heard(a.sent, paths[j])))
  {
    hide LookIn, Tag, Heard, Swapped, Unsent;
    var lines := Left(a, paths, texts, t, json);
    TurnSends(a, paths[t], texts[t], json);
    TagLength(paths[t], lines);
    forall j | 0 <= j < |paths| ensures paths[j] == paths[t] <==> j == t { }
    forall j | 0 <= j < |paths|
      ensures Heard(a.sent + Tag(paths[t], lines), paths[j]) <==> Heard(a.sent, paths[j]) || (j == t && lines != []) {
      HeardMore(a.sent, paths[t], lines, paths[j]);
    }
    forall i, j | 0 <= i < j < |paths|
      ensures Swapped(a.sent + Tag(paths[t], lines), paths[i], paths[j])
        <==> Swapped(a.sent, paths[i], paths[j]) || (i == t && lines != [] && Heard(a.sent, paths[j])) {
      SwappedMore(a.sent, paths[t], lines, paths[i], paths[j]);
    }
  }

  lemma TagLength(path: string, lines: seq<string>)
    ensures |Tag(path, lines)| == |lines|
  {
  }

  /** A turn keeps the account of the jumps right. */
  lemma ExplainedMore(a: Across, paths: seq<string>, texts: seq<string>, t: nat, text: Option<string>,
                      jumps: set<nat>, json: string -> bool)
    requires Explained(a, paths, texts, jumps, json) && Rotated(paths, texts)
    requires t < |paths| && (text.Some? ==> text.value == texts[t])
    ensures Explained(LookIn(a, paths[t], text, json), paths, texts, Jumps(a, paths, texts, t, text, jumps, json), json)
  {
    hide LookIn, Left, Heard, Swapped, Rotated;
    if text.None? {
      NothingFound(a, paths[t], json);
    } else {
      TurnMoves(a, paths, texts, t, json);
      var b, more := LookIn(a, paths[t], text, json), Jumps(a, paths, texts, t, text, jumps, json);
      forall j | j in more ensures exists i :: 0 <= i < j && JumpedOver(b, paths, texts, i, j, json) {
        if j in jumps {
          var i :| 0 <= i < j && JumpedOver(a, paths, texts, i, j, json);
          assert JumpedOver(b, paths, texts, i, j, json);
        } else {
          var i :| 0 <= i < j && Left(a, paths, texts, i, json) != [];
          assert JumpedOver(b, paths, texts, i, j, json);
        }
      }
    }
  }

  lemma UnheardOf(sent: seq<Sent>, path: string)
    ensures Of(sent, path) == [] <==> !Heard(sent, path)
  {
    if sent != [] {
      UnheardOf(sent[1..], path);
      if k :| 0 <= k < |sent[1..]| && sent[1..][k].path == path { assert sent[k + 1].path == path; }
      if k :| 0 <= k < |sent| && sent[k].path == path { assert k > 0 ==> sent[1..][k - 1].path == path; }
    }
  }

  lemma UnlookedIsUnheard(looks: seq<(string, Option<string>)>, path: string, json: string -> bool)
    requires LooksAt(looks, path) == []
    ensures !Heard(LookInAll(looks, json).sent, path)
  {
    EachOnItsOwn(looks, path, json);
    UnheardOf(LookInAll(looks, json).sent, path);
  }

  lemma SwappedIsHeard(sent: seq<Sent>, earlier: string, later: string)
    requires Swapped(sent, earlier, later)
    ensures Heard(sent, later)
  {
  }

  /** What the run writes meanwhile changes nothing: a journal that has a successor is closed. */
  lemma ExplainedGrow(a: Across, looks: seq<(string, Option<string>)>, paths: seq<string>, texts: seq<string>,
                      jumps: set<nat>, morePaths: seq<string>, moreTexts: seq<string>, json: string -> bool)
    requires Tracks(a, looks, paths, texts, json) && Explained(a, paths, texts, jumps, json)
    requires Grown(paths, texts, morePaths, moreTexts) && Rotated(morePaths, moreTexts)
    ensures Explained(a, morePaths, moreTexts, jumps, json)
  {
    hide LooksAt, LookInAll, Swapped, Heard, Unsent;
    assert forall i :: 0 <= i < |paths| ==> morePaths[i] == paths[i];
    assert forall i ::
      0 <= i < |paths| - 1 ==> Left(a, morePaths, moreTexts, i, json) == Left(a, paths, texts, i, json);
    forall j | |paths| <= j < |morePaths| ensures !Heard(a.sent, morePaths[j]) {
      NewcomerIsUnseen(paths, morePaths, j);
      UnlookedIsUnheard(looks, morePaths[j], json);
    }
    forall i, j | 0 <= i < j < |morePaths| && Swapped(a.sent, morePaths[i], morePaths[j]) ensures j in jumps {
      SwappedIsHeard(a.sent, morePaths[i], morePaths[j]);
    }
    forall j | j in jumps ensures exists i :: 0 <= i < j && JumpedOver(a, morePaths, moreTexts, i, j, json) {
      var i :| 0 <= i < j && JumpedOver(a, paths, texts, i, j, json);
      assert JumpedOver(a, morePaths, moreTexts, i, j, json);
    }
  }

  lemma SettledGrow(a: Across, paths: seq<string>, texts: seq<string>, n: nat, morePaths: seq<string>,
                    moreTexts: seq<string>, json: string -> bool)
    requires Settled(a, paths, texts, n, json) && n < |paths| && Grown(paths, texts, morePaths, moreTexts)
    ensures Settled(a, morePaths, moreTexts, n, json)
  {
    hide Unsent;
    assert forall i :: 0 <= i < n ==> morePaths[i] == paths[i] && moreTexts[i] == texts[i];
    assert forall i :: 0 <= i < n ==> Left(a, morePaths, moreTexts, i, json) == Left(a, paths, texts, i, json);
  }

  lemma SettledMore(a: Across, paths: seq<string>, texts: seq<string>, i: nat, json: string -> bool)
    requires Settled(a, paths, texts, i, json) && Rotated(paths, texts) && i < |paths|
    ensures Settled(LookIn(a, paths[i], Some(texts[i]), json), paths, texts, i + 1, json)
  {
    hide Left, LookIn;
    TurnMoves(a, paths, texts, i, json);
  }

  /** Once nothing is left of the first n - 1 journals, the jumps among the first n are what is out of order there. */
  lemma JumpsAreSwaps(a: Across, paths: seq<string>, texts: seq<string>, jumps: set<nat>, n: nat, json: string -> bool)
    requires Explained(a, paths, texts, jumps, json) && 0 < n <= |paths| && Settled(a, paths, texts, n - 1, json)
    ensures InRotation(a.sent, paths[..n]) <==> forall j :: j in jumps ==> n <= j
  {
    hide Left, Swapped, Heard;
    if j :| j in jumps && j < n {
      var i :| 0 <= i < j && JumpedOver(a, paths, texts, i, j, json);
      assert Swapped(a.sent, paths[..n][i], paths[..n][j]);
    }
  }

  // -- Lines that are in order -------------------------------------------------------------------

  /** The lines that come from some of the journals. */
  function Among(sent: seq<Sent>, paths: seq<string>): seq<Sent> {
    if sent == [] then [] else Among(Front(sent), paths) + if Last(sent).path in paths then [Last(sent)] else []
  }

  /** One journal's lines after the other's. */
  function ByJournal(sent: seq<Sent>, paths: seq<string>): seq<Sent> {
    if paths == [] then [] else ByJournal(sent, Front(paths)) + Tag(Last(paths), Of(sent, Last(paths)))
  }

  lemma OfLast(sent: seq<Sent>, path: string)
    requires sent != []
    ensures Of(sent, path) == Of(Front(sent), path) + if Last(sent).path == path then [Last(sent).line] else []
  {
    OfOver(Front(sent), [Last(sent)], path);
    assert sent == Front(sent) + [Last(sent)] && [Last(sent)][1..] == [];
  }

  lemma TagLast(path: string, lines: seq<string>, line: string)
    ensures Tag(path, lines + [line]) == Tag(path, lines) + [Sent(path, line)]
  {
    hide Tag;
    var both := Tag(path, lines) + [Sent(path, line)];
    assert forall i :: 0 <= i < |both| ==> Tag(path, lines + [line])[i] == both[i];
  }

  lemma {:induction false} ByJournalSame(sent: seq<Sent>, paths: seq<string>)
    requires sent != [] && Last(sent).path !in paths
    ensures ByJournal(sent, paths) == ByJournal(Front(sent), paths)
  {
    if paths != [] {
      assert paths == Front(paths) + [Last(paths)];
      ByJournalSame(sent, Front(paths));
      OfLast(sent, Last(paths));
      assert Of(Front(sent), Last(paths)) + [] == Of(Front(sent), Last(paths));
    }
  }

  lemma {:induction false} ByJournalLast(sent: seq<Sent>, paths: seq<string>, i: nat)
    requires sent != [] && i < |paths| && Last(sent).path == paths[i]
    requires forall j, k :: 0 <= j < k < |paths| ==> paths[j] != paths[k]
    requires forall j :: i < j < |paths| ==> Of(sent, paths[j]) == []
    ensures ByJournal(sent, paths) == ByJournal(Front(sent), paths) + [Last(sent)]
  {
    hide Of, Tag;
    var p := Last(paths);
    OfLast(sent, p);
    assert Front(paths) == paths[..|paths| - 1];
    if i < |paths| - 1 {
      ByJournalLast(sent, Front(paths), i);
      NothingTagged(p);
      assert Of(Front(sent), p) == [] && Of(sent, p) == [];
      assert forall s: seq<Sent> :: s + [] == s;
    } else {
      ByJournalSame(sent, Front(paths));
      TagLast(p, Of(Front(sent), p), Last(sent).line);
      var front := ByJournal(Front(sent), Front(paths));
      assert front + (Tag(p, Of(Front(sent), p)) + [Last(sent)]) == front + Tag(p, Of(Front(sent), p)) + [Last(sent)];
    }
  }

  lemma {:induction false} NothingByJournal(paths: seq<string>)
    ensures ByJournal([], paths) == []
  {
    if paths != [] {
      NothingByJournal(Front(paths));
      NothingTagged(Last(paths));
    }
  }

  lemma SwappedBefore(sent: seq<Sent>, earlier: string, later: string)
    requires sent != []
    ensures Swapped(Front(sent), earlier, later) ==> Swapped(sent, earlier, later)
    ensures Heard(Front(sent), later) && Last(sent).path == earlier ==> Swapped(sent, earlier, later)
  {
    assert forall k :: 0 <= k < |sent| - 1 ==> Front(sent)[k] == sent[k];
    assert Last(sent) == sent[|sent| - 1];
  }

  lemma InRotationBefore(sent: seq<Sent>, paths: seq<string>)
    requires InRotation(sent, paths) && sent != []
    ensures InRotation(Front(sent), paths)
    ensures forall i, j :: 0 <= i < j < |paths| && Last(sent).path == paths[i] ==> !Heard(Front(sent), paths[j])
  {
    hide Swapped, Heard;
    forall i, j | 0 <= i < j < |paths|
      ensures !Swapped(Front(sent), paths[i], paths[j])
      ensures Last(sent).path == paths[i] ==> !Heard(Front(sent), paths[j]) {
      SwappedBefore(sent, paths[i], paths[j]);
    }
  }

  /** Lines in the order of rotation are one journal's lines after the other's. */
  lemma {:induction false} RotationIsByJournal(sent: seq<Sent>, paths: seq<string>)
    requires InRotation(sent, paths) && forall j, k :: 0 <= j < k < |paths| ==> paths[j] != paths[k]
    ensures Among(sent, paths) == ByJournal(sent, paths)
  {
    hide Of, InRotation;
    if sent == [] {
      NothingByJournal(paths);
    } else {
      InRotationBefore(sent, paths);
      RotationIsByJournal(Front(sent), paths);
      if i :| 0 <= i < |paths| && Last(sent).path == paths[i] {
        forall j | i < j < |paths| ensures Of(sent, paths[j]) == [] {
          OfLast(sent, paths[j]);
          UnheardOf(Front(sent), paths[j]);
        }
        ByJournalLast(sent, paths, i);
      } else {
        ByJournalSame(sent, paths);
      }
    }
  }

  /** They start with the events that the journals held, when all but the last of them have been sent in full. */
  lemma {:induction false} ByJournalHolds(sent: seq<Sent>, paths: seq<string>, held: seq<string>, json: string -> bool)
    requires 0 < |held| == |paths| && forall j :: 0 <= j < |held| ==> Events(held[j], json) <= Of(sent, paths[j])
    requires forall j ::
      0 <= j < |held| - 1 ==> Of(sent, paths[j]) == Events(held[j], json) && Complete(held[j]) == held[j]
    ensures Events(Concat(held), json) <= Lines(ByJournal(sent, paths))
    ensures Of(sent, Last(paths)) == Events(Last(held), json) ==>
      Events(Concat(held), json) == Lines(ByJournal(sent, paths))
  {
    hide Of, Events, Complete, Concat, Tag, Lines;
    var n := |held| - 1;
    var before, p := ByJournal(sent, Front(paths)), Last(paths);
    LinesOver(before, Tag(p, Of(sent, p)));
    LinesOfTag(p, Of(sent, p));
    ConcatOver(Front(held), [held[n]]);
    ConcatOne(held[n]);
    assert held == Front(held) + [held[n]];
    if n == 0 {
      NoLines();
      assert [] + Of(sent, p) == Of(sent, p);
      assert Front(paths) == [] && Front(held) == [] && Concat([]) + held[0] == held[0];
    } else {
      ByJournalHolds(sent, Front(paths), Front(held), json);
      ConcatComplete(Front(held));
      EventsOver(Concat(Front(held)), held[n], json);
    }
  }

  lemma NoLines()
    ensures Lines([]) == [] && Concat([]) == "" && forall sent :: ByJournal(sent, []) == []
  {
  }

  lemma {:induction false} ByJournalPrefix(sent: seq<Sent>, paths: seq<string>, n: nat)
    requires n <= |paths|
    ensures Lines(ByJournal(sent, paths[..n])) <= Lines(ByJournal(sent, paths))
    decreases |paths|
  {
    hide Of, Tag, Lines;
    if n == |paths| {
      assert paths[..n] == paths;
    } else {
      assert Front(paths)[..n] == paths[..n];
      ByJournalPrefix(sent, Front(paths), n);
      LinesOver(ByJournal(sent, Front(paths)), Tag(Last(paths), Of(sent, Last(paths))));
    }
  }

  lemma {:induction false} AmongAll(sent: seq<Sent>, paths: seq<string>)
    requires AllFrom(sent, paths)
    ensures Among(sent, paths) == sent
  {
    hide AllFrom;
    if sent != [] {
      AllFromFront(sent, paths);
      AmongAll(Front(sent), paths);
      assert sent == Front(sent) + [Last(sent)];
    }
  }

  ghost predicate AllFrom(sent: seq<Sent>, paths: seq<string>) {
    forall k :: 0 <= k < |sent| ==> sent[k].path in paths
  }

  lemma AllFromFront(sent: seq<Sent>, paths: seq<string>)
    requires AllFrom(sent, paths) && sent != []
    ensures AllFrom(Front(sent), paths) && Last(sent).path in paths
  {
    assert forall k :: 0 <= k < |sent| - 1 ==> Front(sent)[k] == sent[k];
    assert Last(sent) == sent[|sent| - 1];
  }

  /** A turn in terms of the last newline. */
  lemma LookInByNewline(a: Across, path: string, text: Option<string>, json: string -> bool)
    ensures LookIn(a, path, text, json) ==
      if text.None? || |text.value| < Position(a, path) then a
      else
        var data := text.value[Position(a, path)..];
        var last := LastNewline(data);
        if last < 0 then a
        else Across(a.positions[path := Position(a, path) + (last + 1)],
                    a.sent + Tag(path, Kept(SplitBy(data[..last + 1], "\n"), json)))
  {
    LookByNewline(Progress(Position(a, path), []), text, json);
    hide Look, Kept, SplitBy, LastNewline, Tag;
    assert forall lines: seq<string> :: [] + lines == lines;
  }

  // -- streamEventFollow ------------------------------------------------------------------------

  /** What a round has read: up to the nth listed journal everything that the record speaks of. */
  ghost predicate Reached(looks: seq<(string, Option<string>)>, paths: seq<string>, held: seq<string>, n: nat) {
    n <= |held| <= |paths| && forall j :: 0 <= j < n ==> held[j] <= LastSeen(LooksAt(looks, paths[j]))
  }

  /** The looks since some earlier ones: one at each of the first n journals, in their order, if it can be read. */
  ghost predicate LookedAt(looks: seq<(string, Option<string>)>, before: seq<(string, Option<string>)>,
                           paths: seq<string>, n: nat, readable: nat -> bool) {
    && n <= |paths| && before <= looks && |looks| == |before| + n
    && forall i :: 0 <= i < n ==>
         looks[|before| + i].0 == paths[i] && (looks[|before| + i].1.Some? <==> readable(i))
  }

  lemma LookedAtMore(looks: seq<(string, Option<string>)>, last: seq<(string, Option<string>)>,
                     before: seq<(string, Option<string>)>, paths: seq<string>, morePaths: seq<string>,
                     texts: seq<string>, moreTexts: seq<string>, n: nat, readable: nat -> bool)
    requires LookedAt(last, before, paths, n, readable) && Grown(paths, texts, morePaths, moreTexts)
    requires n < |morePaths| && |looks| == |last| + 1 && last <= looks
    requires looks[|last|].0 == morePaths[n] && (looks[|last|].1.Some? <==> readable(n))
    ensures LookedAt(looks, before, morePaths, n + 1, readable)
  {
  }

  /**
   * What a round meets: can the record be read, what does the run do before each look at
   * a journal, which journals can be read, what does the run do while the round waits, and
   * is the client then gone or idle too long?
   */
  datatype Chance = Chance(record: bool, before: nat -> seq<Deed>, journal: nat -> bool, after: seq<Deed>, left: bool)

  /** The states that a follower of this run stops on. */
  ghost predicate Ends(record: RunRecord, runId: string) { record.runId == runId && record.state in FINAL }

  lemma OneTurnMore(d: Stored, deeds: nat -> seq<Deed>, n: nat)
    ensures AfterTurns(d, deeds, 0) == d
    ensures AfterTurns(d, deeds, n + 1) == AfterDeeds(AfterTurns(d, deeds, n), deeds(n))
  {
    hide AfterDeeds;
  }

  /** Some listed journal cannot be read in the round. */
  ghost predicate Misses(record: RunRecord, luck: Chance) {
    exists i :: 0 <= i < |record.held| && !luck.journal(i)
  }

  /** The records that the rounds went by: as shown, or where it cannot be read the one known at first. */
  ghost predicate WentBy(records: seq<RunRecord>, shown: seq<RunRecord>, initial: RunRecord, luck: nat -> Chance) {
    |shown| == |records| &&
    forall i :: 0 <= i < |records| ==> records[i] == if luck(i).record then shown[i] else initial
  }

  /** None of the first n rounds was the last. */
  ghost predicate WentOn(records: seq<RunRecord>, runId: string, luck: nat -> Chance, n: nat) {
    n <= |records| && forall i :: 0 <= i < n ==> !Ends(records[i], runId) && !luck(i).left
  }

  ghost predicate NoMisses(records: seq<RunRecord>, luck: nat -> Chance) {
    forall i :: 0 <= i < |records| ==> !Misses(records[i], luck(i))
  }

  /** Every round has looked at each journal that its record lists. */
  ghost predicate AllLookedAt(looks: seq<(string, Option<string>)>, before: seq<(string, Option<string>)>,
                              paths: seq<string>, records: seq<RunRecord>, luck: nat -> Chance)
    decreases records
  {
    if records == [] then looks == before
    else
      exists last :: AllLookedAt(last, before, paths, Front(records), luck) &&
        LookedAt(looks, last, paths, |Last(records).held|, luck(|records| - 1).journal)
  }

  lemma LookedAtLater(looks: seq<(string, Option<string>)>, before: seq<(string, Option<string>)>,
                      paths: seq<string>, more: seq<string>, n: nat, readable: nat -> bool)
    requires LookedAt(looks, before, paths, n, readable) && paths <= more
    ensures LookedAt(looks, before, more, n, readable)
  {
  }

  lemma {:induction false} AllLookedAtLater(
      looks: seq<(string, Option<string>)>, before: seq<(string, Option<string>)>, paths: seq<string>,
      more: seq<string>, records: seq<RunRecord>, luck: nat -> Chance)
    requires AllLookedAt(looks, before, paths, records, luck) && paths <= more
    ensures AllLookedAt(looks, before, more, records, luck)
    decreases records
  {
    hide LookedAt;
    if records != [] {
      var last :| AllLookedAt(last, before, paths, Front(records), luck) &&
        LookedAt(looks, last, paths, |Last(records).held|, luck(|records| - 1).journal);
      AllLookedAtLater(last, before, paths, more, Front(records), luck);
      LookedAtLater(looks, last, paths, more, |Last(records).held|, luck(|records| - 1).journal);
    }
  }

  lemma NoRecords(initial: RunRecord, runId: string, luck: nat -> Chance, before: seq<(string, Option<string>)>,
                 paths: seq<string>)
    ensures WentBy([], [], initial, luck) && WentOn([], runId, luck, 0) && NoMisses([], luck)
    ensures AllLookedAt(before, before, paths, [], luck)
  {
  }

  /** What one more round adds to the account. */
  lemma RecordsMore(records: seq<RunRecord>, shown: seq<RunRecord>, initial: RunRecord, runId: string,
                   luck: nat -> Chance, now: RunRecord, record: RunRecord)
    requires WentBy(records, shown, initial, luck) && WentOn(records, runId, luck, |records|)
    requires record == if luck(|records|).record then now else initial
    ensures WentBy(records + [record], shown + [now], initial, luck)
    ensures WentOn(records + [record], runId, luck, |records|)
    ensures WentOn(records + [record], runId, luck, |records| + 1) <==>
      !Ends(record, runId) && !luck(|records|).left
    ensures NoMisses(records + [record], luck) <==> NoMisses(records, luck) && !Misses(record, luck(|records|))
  {
    hide Ends, Misses;
    var more := records + [record];
    assert more[|records|] == record;
    assert forall i :: 0 <= i < |records| ==> more[i] == records[i];
  }

  lemma LooksOn(looks: seq<(string, Option<string>)>, last: seq<(string, Option<string>)>,
                before: seq<(string, Option<string>)>, paths: seq<string>, more: seq<string>,
                records: seq<RunRecord>, luck: nat -> Chance, record: RunRecord)
    requires AllLookedAt(last, before, paths, records, luck) && paths <= more
    requires LookedAt(looks, last, more, |record.held|, luck(|records|).journal)
    ensures AllLookedAt(looks, before, more, records + [record], luck)
  {
    hide LookedAt;
    var all := records + [record];
    assert Front(all) == records && Last(all) == record;
    AllLookedAtLater(last, before, paths, more, records, luck);
  }

  lemma WentOnLess(records: seq<RunRecord>, runId: string, luck: nat -> Chance)
    requires WentOn(records, runId, luck, |records|) && records != []
    ensures WentOn(records, runId, luck, |records| - 1) && !Ends(Last(records), runId)
  {
  }

  class JournalFollower {
    const json: string -> bool
    var a: Across
    ghost var looks: seq<(string, Option<string>)>
    ghost var jumps: set<nat>  // the journals sent from while something of an earlier one was left to send

    ghost predicate Valid(files: RunFiles)
      reads this, files
    {
      && files.Valid() && Tracks(a, looks, files.paths, files.texts, json)
      && Explained(a, files.paths, files.texts, jumps, json)
    }

    constructor (json: string -> bool, files: RunFiles)
      requires files.Valid()
      ensures Valid(files) && jumps == {} && looks == [] && this.json == json && a.sent == []
    {
      hide Tracks, Rotated;
      this.json := json;
      a, looks, jumps := Across(map[], []), [], {};
      new;
      NothingRead(files.paths, files.texts, json);
    }

    /** A journal's turn: send the lines found, then move the position on. */
    method Turn(path: string, text: Option<string>) returns (wrote: bool)
      modifies this`a
      ensures a == LookIn(old(a), path, text, json)
      ensures wrote <==> a.sent != old(a.sent)
    {
      hide Look, LookIn, Kept, SplitBy, LastNewline, Tag;
      var position := Position(a, path);
      LookInByNewline(a, path, text, json);
      if text.None? || |text.value| < position { return false; }
      var data := text.value[position..];
      var lastNewline := LastNewline(data);
      if lastNewline < 0 { return false; }
      var lines := Emit(data[..lastNewline + 1], json);
      TagLength(path, lines);
      a := Across(a.positions[path := position + (lastNewline + 1)], a.sent + Tag(path, lines));
      return |lines| > 0;
    }

    /** The run goes on. */
    method Meanwhile(files: RunFiles, deeds: seq<Deed>)
      requires Valid(files)
      modifies files
      ensures Valid(files) && Grown(old(files.paths), old(files.texts), files.paths, files.texts)
      ensures files.shown == old(files.shown) && files.State() == AfterDeeds(old(files.State()), deeds)
    {
      hide Tracks, Explained, Grown, Rotated, AfterDeeds;
      ghost var paths, texts := files.paths, files.texts;
      files.Progress(deeds);
      assert Rotated(files.paths, files.texts);
      TracksGrow(a, looks, paths, texts, files.paths, files.texts, json);
      ExplainedGrow(a, looks, paths, texts, jumps, files.paths, files.texts, json);
    }

    /** One listed journal's part of a round; missed says that one before it could not be read. */
    method Step(files: RunFiles, i: nat, deeds: seq<Deed>, readable: bool, ghost missed: bool, ghost held: seq<string>)
      returns (wrote: bool)
      requires Valid(files) && Held(held, files.texts) && i < |held|
      requires !missed ==> Reached(looks, files.paths, held, i) && Settled(a, files.paths, files.texts, i, json)
      modifies this, files
      ensures Valid(files) && Held(held, files.texts) && files.shown == old(files.shown)
      ensures files.State() == AfterDeeds(old(files.State()), deeds)
      ensures Grown(old(files.paths), old(files.texts), files.paths, files.texts)
      ensures jumps == if wrote && !Settled(old(a), files.paths, files.texts, i, json) then old(jumps) + {i}
        else old(jumps)
      ensures !missed && readable ==> jumps == old(jumps)
      ensures !missed && readable ==>
        Reached(looks, files.paths, held, i + 1) && Settled(a, files.paths, files.texts, i + 1, json)
      ensures i < |files.paths| == |files.texts| &&
        looks == old(looks) + [(files.paths[i], if readable then Some(files.texts[i]) else None)]
      ensures old(a.sent) <= a.sent && (wrote <==> a.sent != old(a.sent))
    {
      hide Tracks, Explained, Grown, Held, Reached, Settled, LookIn, Rotated, AfterDeeds;
      ghost var paths, texts := files.paths, files.texts;
      HeldLength(held, texts, paths);
      Meanwhile(files, deeds);
      HeldGrows(held, paths, texts, files.paths, files.texts);
      HeldLength(held, files.texts, files.paths);
      StillReached(looks, paths, texts, files.paths, files.texts, held, i, missed);
      if !missed { SettledGrow(a, paths, texts, i, files.paths, files.texts, json); }
      var look := if readable then Some(files.texts[i]) else None;
      TracksMore(a, looks, files.paths, files.texts, i, look, json);
      ExplainedMore(a, files.paths, files.texts, i, look, jumps, json);
      if !missed && readable {
        ReachedNext(looks, files.paths, files.texts, held, i);
        SettledMore(a, files.paths, files.texts, i, json);
      }
      LookInAdds(a, files.paths[i], look, json);
      jumps := Jumps(a, files.paths, files.texts, i, look, jumps, json);
      wrote := Turn(files.paths[i], look);
      looks := looks + [(files.paths[i], look)];
    }

    /** streamEventDelta: the listed journals one after the other, while the run goes on. */
    method Round(files: RunFiles, listed: nat, deeds: nat -> seq<Deed>, readable: nat -> bool,
                 ghost held: seq<string>)
      returns (wrote: bool, ghost missed: bool)
      requires Valid(files) && Held(held, files.texts) && listed == |held|
      modifies this, files
      ensures Valid(files) && Held(held, files.texts) && old(jumps) <= jumps && files.shown == old(files.shown)
      ensures Grown(old(files.paths), old(files.texts), files.paths, files.texts)
      ensures files.State() == AfterTurns(old(files.State()), deeds, listed)
      ensures LookedAt(looks, old(looks), files.paths, listed, readable)
      ensures missed <==> exists i :: 0 <= i < listed && !readable(i)
      ensures !missed ==> jumps == old(jumps) && Reached(looks, files.paths, held, |held|)
      ensures wrote <==> a.sent != old(a.sent)
    {
      hide Tracks, Explained, Held, Rotated, Settled, LooksAt, LastSeen, AfterDeeds, AfterTurns;
      OneTurnMore(files.State(), deeds, 0);
      wrote, missed := false, false;
      HeldLength(held, files.texts, files.paths);
      GrownNot(files.paths, files.texts);
      NothingSettled(a, files.paths, files.texts, json);
      for i := 0 to listed
        invariant Valid(files) && Held(held, files.texts) && old(jumps) <= jumps && files.shown == old(files.shown)
        invariant Grown(old(files.paths), old(files.texts), files.paths, files.texts)
        invariant files.State() == AfterTurns(old(files.State()), deeds, i)
        invariant LookedAt(looks, old(looks), files.paths, i, readable)
        invariant missed <==> exists j :: 0 <= j < i && !readable(j)
        invariant !missed ==> jumps == old(jumps)
        invariant !missed ==> Reached(looks, files.paths, held, i) && Settled(a, files.paths, files.texts, i, json)
        invariant old(a.sent) <= a.sent && (wrote <==> a.sent != old(a.sent))
      {
        hide Grown, Reached, LookedAt, Explained;
        ghost var paths, texts, before := files.paths, files.texts, looks;
        OneTurnMore(old(files.State()), deeds, i);
        var found := Step(files, i, deeds(i), readable(i), missed, held);
        GrownTwice(old(files.paths), old(files.texts), paths, texts, files.paths, files.texts);
        LookedAtMore(looks, before, old(looks), paths, files.paths, texts, files.texts, i, readable);
        wrote := wrote || found;
        missed := missed || !readable(i);
      }
    }

    /** May the follower stop on this record? */
    predicate Stops(record: RunRecord, runId: string) {
      record.runId == runId && IsTerminal(record.state)
    }

    /** The record, the journals it lists, the state's test, and unless that ends it the wait. */
    method OneRound(files: RunFiles, initial: RunRecord, runId: string, luck: Chance)
      returns (terminal: bool, ghost record: RunRecord)
      requires Valid(files) && Held(initial.held, files.texts)
      modifies this, files
      ensures Valid(files) && Held(initial.held, files.texts) && old(files.paths) <= files.paths
      ensures files.shown == old(files.shown) + [old(files.record)]
      ensures record == if luck.record then old(files.record) else initial
      ensures terminal <==> Ends(record, runId)
      ensures LookedAt(looks, old(looks), files.paths, |record.held|, luck.journal)
      ensures
        var seen := AfterTurns(old(files.State()), luck.before, |record.held|);
        files.State() == if terminal then seen else AfterDeeds(seen, luck.after)
      ensures !Misses(record, luck) ==> jumps == old(jumps)
      ensures terminal && !Misses(record, luck) ==>
        AllOfEach(a, files.paths, record.held, json) && JumpsTell(a, files.paths, jumps, record.held, json)
    {
      hide Tracks, Explained, Held, Rotated, Grown, Reached, AllOfEach, JumpsTell, LookedAt, AfterTurns, AfterDeeds;
      var answer := files.ReadRecord(luck.record);
      var current := if answer.Some? then answer.value else initial;
      record := current;
      ghost var paths, texts := files.paths, files.texts;
      var wrote;
      ghost var missed;
      wrote, missed := Round(files, |current.held|, luck.before, luck.journal, current.held);
      HeldGrows(initial.held, paths, texts, files.paths, files.texts);
      HeldLength(current.held, files.texts, files.paths);
      PathsGrow(paths, texts, files.paths, files.texts);
      terminal := Stops(current, runId);
      if terminal {
        if !missed { LastRound(a, looks, files.paths, files.texts, jumps, record.held, json); }
        return;
      }
      ghost var seen := files.paths;
      texts := files.texts;
      Meanwhile(files, luck.after);
      HeldGrows(initial.held, seen, texts, files.paths, files.texts);
      PathsGrow(seen, texts, files.paths, files.texts);
      LookedAtLater(looks, old(looks), seen, files.paths, |record.held|, luck.journal);
    }

    /**
     * streamEventFollow. Every round reads the record, then the journals it lists, then
     * tests the state that was read first; it ends with the first round that goes by a
     * terminal record or after which the client or the idle timer ends it. A stop on a
     * terminal record after a round that could read every listed journal has sent, of
     * each journal, all that was in it when the record was written. The lines of the
     * listed journals then come in their order if and only if no turn had sent lines of
     * one of them while something of an earlier one was left to send, as no round
     * without a failed read does; and if no turn ever did, the lines sent begin with the
     * rotated log as the record speaks of it.
     */
    method Follow(files: RunFiles, initial: RunRecord, runId: string, luck: nat -> Chance, rounds: nat)
      returns (terminal: bool, ghost records: seq<RunRecord>, ghost shown: seq<RunRecord>)
      requires Valid(files) && jumps == {} && Held(initial.held, files.texts)
      modifies this, files
      ensures Valid(files)
      ensures WentBy(records, shown, initial, luck) && files.shown == old(files.shown) + shown
      ensures AllLookedAt(looks, old(looks), files.paths, records, luck)
      ensures rounds > 0 ==> 0 < |records| <= rounds && shown[0] == old(files.record)
      ensures records != [] ==> WentOn(records, runId, luck, |records| - 1)
      ensures terminal <==> records != [] && Ends(Last(records), runId)
      ensures !terminal ==> |records| == rounds || (records != [] && luck(|records| - 1).left)
      ensures NoMisses(records, luck) ==> jumps == {}
      ensures terminal && !Misses(Last(records), luck(|records| - 1)) ==>
        && AllOfEach(a, files.paths, Last(records).held, json)
        && JumpsTell(a, files.paths, jumps, Last(records).held, json)
    {
      hide Tracks, Explained, Held, Rotated, AllOfEach, Ends, JumpsTell, WentBy, WentOn, NoMisses, Misses, LookedAt;
      hide AllLookedAt, AfterTurns, AfterDeeds;
      terminal, records, shown := false, [], [];
      NoRecords(initial, runId, luck, looks, files.paths);
      for round := 0 to rounds
        invariant Valid(files) && Held(initial.held, files.texts) && (NoMisses(records, luck) ==> jumps == {})
        invariant |records| == |shown| == round && WentOn(records, runId, luck, round)
        invariant WentBy(records, shown, initial, luck) && files.shown == old(files.shown) + shown
        invariant AllLookedAt(looks, old(looks), files.paths, records, luck)
        invariant (if round == 0 then files.record else shown[0]) == old(files.record)
      {
        ghost var record, now, last, paths := initial, files.record, looks, files.paths;
        terminal, record := OneRound(files, initial, runId, luck(round));
        RecordsMore(records, shown, initial, runId, luck, now, record);
        LooksOn(looks, last, old(looks), paths, files.paths, records, luck, record);
        records, shown := records + [record], shown + [now];
        if terminal || luck(round).left { return; }
      }
      if rounds > 0 { WentOnLess(records, runId, luck); }
      terminal := false;
    }
  }

  /** A run that has ended, with files that can all be read: one round sends what its journals held, in order. */
  method FollowEnded(follower: JournalFollower, files: RunFiles, initial: RunRecord, luck: nat -> Chance, rounds: nat)
    requires follower.Valid(files) && follower.jumps == {} && Held(initial.held, files.texts)
    requires files.record.state in FINAL && rounds > 0 && luck(0).record
    requires forall i :: 0 <= i < |files.record.held| ==> luck(0).journal(i)
    modifies follower, files
    ensures Events(Concat(old(files.record.held)), follower.json) <= Lines(follower.a.sent)
  {
    hide Tracks, Explained, Held, Rotated, AllOfEach, LookedAt, AllLookedAt, InRotation, WentBy, WentOn, NoMisses;
    hide Misses, Ends, JumpsTell;
    ghost var record := files.record;
    var runId := files.record.runId;
    EndsItself(record);
    var terminal;
    ghost var records, shown;
    terminal, records, shown := follower.Follow(files, initial, runId, luck, rounds);
    EndsAtOnce(records, shown, initial, runId, luck, record);
    ToldInOrder(follower.a, files.paths, follower.jumps, record.held, follower.json);
  }

  lemma EndsItself(record: RunRecord)
    requires record.state in FINAL
    ensures Ends(record, record.runId)
  {
  }

  /** When the first record ends the run, it is the only one that was gone by. */
  lemma EndsAtOnce(records: seq<RunRecord>, shown: seq<RunRecord>, initial: RunRecord, runId: string,
                   luck: nat -> Chance, record: RunRecord)
    requires WentBy(records, shown, initial, luck) && records != [] && shown[0] == record && luck(0).record
    requires WentOn(records, runId, luck, |records| - 1) && Ends(record, runId)
    ensures records == [record] && Last(records) == record
    ensures (forall i :: 0 <= i < |record.held| ==> luck(0).journal(i)) ==>
      NoMisses(records, luck) && !Misses(record, luck(0))
  {
    hide Ends;
    assert records[0] == record;
  }

  lemma ToldInOrder(a: Across, paths: seq<string>, jumps: set<nat>, held: seq<string>, json: string -> bool)
    requires JumpsTell(a, paths, jumps, held, json) && jumps == {}
    ensures Events(Concat(held), json) <= Lines(a.sent)
  {
    hide InRotation;
  }

  lemma PathsGrow(paths: seq<string>, texts: seq<string>, morePaths: seq<string>, moreTexts: seq<string>)
    requires Grown(paths, texts, morePaths, moreTexts)
    ensures paths <= morePaths
  {
  }

  /** Of each journal, the events it held have been sent. */
  ghost predicate AllOfEach(a: Across, paths: seq<string>, held: seq<string>, json: string -> bool) {
    |held| <= |paths| && forall j :: 0 <= j < |held| ==> Events(held[j], json) <= Of(a.sent, paths[j])
  }

  /**
   * The lines of the listed journals come in their order exactly if none of them was
   * jumped to; they then begin with what the journals held, one after the other, and so
   * does everything sent if there was no jump at all.
   */
  ghost predicate JumpsTell(a: Across, paths: seq<string>, jumps: set<nat>, held: seq<string>, json: string -> bool) {
    && |held| <= |paths|
    && (InRotation(a.sent, paths[..|held|]) <==> forall j :: j in jumps ==> |held| <= j)
    && (InRotation(a.sent, paths[..|held|]) ==>
          Events(Concat(held), json) <= Lines(Among(a.sent, paths[..|held|])))
    && (jumps == {} ==> InRotation(a.sent, paths) && Events(Concat(held), json) <= Lines(a.sent))
  }

  /** A closed journal that has been read since has been sent, and nothing of it is left. */
  lemma ReadToItsEnd(a: Across, looks: seq<(string, Option<string>)>, paths: seq<string>, texts: seq<string>, j: nat,
                     held: string, json: string -> bool)
    requires Tracks(a, looks, paths, texts, json) && j < |paths| && held <= LastSeen(LooksAt(looks, paths[j]))
    ensures Events(held, json) <= Of(a.sent, paths[j])
    ensures held == texts[j] ==> Of(a.sent, paths[j]) == Events(held, json) && Left(a, paths, texts, j, json) == []
  {
    hide LooksAt, LookInAll, Of, Events, Complete;
    var mine := LooksAt(looks, paths[j]);
    assert Tailed(mine, texts[j]);
    EachOnItsOwn(looks, paths[j], json);
    CaughtUp(mine, texts[j], json);
    SentIsSeen(mine, json);
    EventsOfPrefix(held, LastSeen(mine), json);
    if held == texts[j] {
      assert LastSeen(mine) == texts[j];
      CompleteIsPrefix(texts[j]);
      assert Position(a, paths[j]) == |Complete(texts[j])|;
      PartialSendsNothing(texts[j], json);
    }
  }

  lemma LastRound(a: Across, looks: seq<(string, Option<string>)>, paths: seq<string>, texts: seq<string>,
                  jumps: set<nat>, held: seq<string>, json: string -> bool)
    requires Tracks(a, looks, paths, texts, json) && Rotated(paths, texts) && Explained(a, paths, texts, jumps, json)
    requires Held(held, texts) && Reached(looks, paths, held, |held|)
    ensures AllOfEach(a, paths, held, json) && JumpsTell(a, paths, jumps, held, json)
  {
    hide LooksAt, LookInAll, Of, Events, Concat, LastSeen, Complete, Tracks, Explained, Left, Lines, Among, InRotation;
    var n := |held|;
    forall j | 0 <= j < n
      ensures Events(held[j], json) <= Of(a.sent, paths[j])
      ensures j < n - 1 ==> Of(a.sent, paths[j]) == Events(held[j], json) && Left(a, paths, texts, j, json) == [] {
      ReadToItsEnd(a, looks, paths, texts, j, held[j], json);
    }
    JumpsAreSwaps(a, paths, texts, jumps, n, json);
    ByJournalHolds(a.sent, paths[..n], held, json);
    if forall j :: j in jumps ==> n <= j { RotationIsByJournal(a.sent, paths[..n]); }
    if jumps == {} {
      NoJumps(a, paths, texts, json);
      RotationIsByJournal(a.sent, paths);
      ByJournalPrefix(a.sent, paths, n);
      OnlyOwnLines(a, looks, paths, texts, json);
      AmongAll(a.sent, paths);
    }
  }

  lemma NoJumps(a: Across, paths: seq<string>, texts: seq<string>, json: string -> bool)
    requires Explained(a, paths, texts, {}, json)
    ensures InRotation(a.sent, paths)
  {
  }

  lemma OnlyOwnLines(a: Across, looks: seq<(string, Option<string>)>, paths: seq<string>, texts: seq<string>,
                     json: string -> bool)
    requires Tracks(a, looks, paths, texts, json)
    ensures AllFrom(a.sent, paths)
  {
    hide LooksAt, LookInAll;
    forall k | 0 <= k < |a.sent| ensures a.sent[k].path in paths {
      assert Heard(a.sent, a.sent[k].path);
      if a.sent[k].path !in paths { UnlookedIsUnheard(looks, a.sent[k].path, json); }
    }
  }

  lemma GrownNot(paths: seq<string>, texts: seq<string>)
    requires |texts| == |paths| > 0
    ensures Grown(paths, texts, paths, texts)
  {
  }

  /**
   * The order is lost when a journal is read after one that could not be: of two
   * journals with one event each, the second is then sent first.
   */
  lemma OutOfOrder(p: string, q: string, first: string, second: string, json: string -> bool)
    requires p != q && '\n' !in first && '\n' !in second
    requires Trim(first) == first && Trim(second) == second && Sendable(first, json) && Sendable(second, json)
    ensures var looks := [(p, None), (q, Some(second + "\n")), (p, Some(first + "\n"))];
      Lines(LookInAll(looks, json).sent) == [second, first]
    ensures Events(Concat([first + "\n", second + "\n"]), json) == [first, second]
  {
    var a0 := Across(map[], []);
    var a1, a2 := LookIn(a0, q, Some(second + "\n"), json),
      LookIn(LookIn(a0, q, Some(second + "\n"), json), p, Some(first + "\n"), json);
    FirstLook(a0, q, second, json);
    FirstLook(a1, p, first, json);
    var one: seq<(string, Option<string>)> := [(p, None)];
    LooksMore([], p, None, p, json);
    NothingFound(a0, p, json);
    LooksMore(one, q, Some(second + "\n"), p, json);
    LooksMore(one + [(q, Some(second + "\n"))], p, Some(first + "\n"), p, json);
    assert [] + one == one;
    assert one + [(q, Some(second + "\n"))] + [(p, Some(first + "\n"))]
      == [(p, None), (q, Some(second + "\n")), (p, Some(first + "\n"))];
    TwoLines(first, second, json);
  }

  lemma FirstLook(a: Across, path: string, line: string, json: string -> bool)
    requires Position(a, path) == 0 && '\n' !in line && Trim(line) == line && Sendable(line, json)
    ensures var b := LookIn(a, path, Some(line + "\n"), json);
      b.sent == a.sent + [Sent(path, line)] && forall p :: p != path ==> Position(b, p) == Position(a, p)
  {
    var text := line + "\n";
    assert text[0..] == text;
    OneLine(line, json);
    assert Tag(path, [line]) == [Sent(path, line)];
  }

  lemma OneLine(line: string, json: string -> bool)
    requires '\n' !in line && Trim(line) == line && Sendable(line, json)
    ensures Events(line + "\n", json) == [line]
  {
    hide Events, Trim;
    EventsOfLine(line, json);
    KeptOne(line, json);
  }

  lemma TwoLines(first: string, second: string, json: string -> bool)
    requires '\n' !in first && '\n' !in second
    requires Trim(first) == first && Trim(second) == second && Sendable(first, json) && Sendable(second, json)
    ensures Events(Concat([first + "\n", second + "\n"]), json) == [first, second]
  {
    hide Events, Concat, Trim, Sendable;
    OneLine(first, json);
    OneLine(second, json);
    EventsOver(first + "\n", second + "\n", json);
    ConcatOver([first + "\n"], [second + "\n"]);
    ConcatOne(first + "\n");
    ConcatOne(second + "\n");
    assert [first + "\n"] + [second + "\n"] == [first + "\n", second + "\n"];
  }

  lemma NothingRead(paths: seq<string>, texts: seq<string>, json: string -> bool)
    requires Rotated(paths, texts)
    ensures Tracks(Across(map[], []), [], paths, texts, json)
    ensures Explained(Across(map[], []), paths, texts, {}, json)
  {
    hide Tailed;
    forall j | 0 <= j < |paths| ensures Tailed([], texts[j]) { NeverLooked(texts[j]); }
  }

  lemma NothingSettled(a: Across, paths: seq<string>, texts: seq<string>, json: string -> bool)
    requires |paths| == |texts|
    ensures Settled(a, paths, texts, 0, json)
  {
  }

  lemma HeldLength(held: seq<string>, texts: seq<string>, paths: seq<string>)
    requires Held(held, texts) && Rotated(paths, texts)
    ensures |held| <= |texts| == |paths|
  {
  }

  lemma StillReached(looks: seq<(string, Option<string>)>, paths: seq<string>, texts: seq<string>,
                     morePaths: seq<string>, moreTexts: seq<string>, held: seq<string>, n: nat, missed: bool)
    requires Grown(paths, texts, morePaths, moreTexts) && (!missed ==> Reached(looks, paths, held, n))
    ensures !missed ==> Reached(looks, morePaths, held, n)
  {
    hide LooksAt, LastSeen;
    assert forall j :: 0 <= j < |paths| ==> morePaths[j] == paths[j];
  }

  lemma ReachedNext(looks: seq<(string, Option<string>)>, paths: seq<string>, texts: seq<string>, held: seq<string>,
                    i: nat)
    requires Reached(looks, paths, held, i) && Held(held, texts) && Rotated(paths, texts) && i < |held|
    ensures Reached(looks + [(paths[i], Some(texts[i]))], paths, held, i + 1)
  {
    hide LooksAt, LastSeen;
    var more := looks + [(paths[i], Some(texts[i]))];
    forall j | 0 <= j < i + 1 ensures held[j] <= LastSeen(LooksAt(more, paths[j])) {
      LooksMore(looks, paths[i], Some(texts[i]), paths[j], t => true);
      if j < i {
        assert paths[j] != paths[i];
        assert LooksAt(looks, paths[j]) + [] == LooksAt(looks, paths[j]);
      } else {
        LastIsSeen(LooksAt(looks, paths[i]), texts[i]);
      }
    }
  }

  lemma LastIsSeen(looks: seq<Option<string>>, text: string)
    ensures LastSeen(looks + [Some(text)]) == text
  {
  }

  lemma LookInAdds(a: Across, path: string, look: Option<string>, json: string -> bool)
    ensures a.sent <= LookIn(a, path, look, json).sent
  {
    hide Look, Tag;
  }

  lemma NothingFound(a: Across, path: string, json: string -> bool)
    ensures LookIn(a, path, None, json) == a
  {
  }
}
