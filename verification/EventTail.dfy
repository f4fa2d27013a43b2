// The supervisor's live event stream of a native run: tailing a growing journal
// by byte position, and stopping when the run's record is terminal.
module EventTail {
  import opened Tree
  import opened Text

  predicate Sendable(line: string, json: string -> bool) {
    line != "" && json(line)
  }

  /** The lines that are sent: trimmed, not blank, valid. */
  function Kept(pieces: seq<string>, json: string -> bool): seq<string> {
    if pieces == [] then []
    else
      var line := Trim(pieces[0]);
      (if Sendable(line, json) then [line] else []) + Kept(pieces[1..], json)
  }

  lemma {:induction false} KeptOver(a: seq<string>, b: seq<string>, json: string -> bool)
    ensures Kept(a + b, json) == Kept(a, json) + Kept(b, json)
  {
    hide Trim, Sendable;
    if a == [] {
      assert a + b == b && [] + Kept(b, json) == Kept(b, json);
    } else {
      assert (a + b)[1..] == a[1..] + b;
      KeptOver(a[1..], b, json);
      var line := Trim(a[0]);
      var first := if Sendable(line, json) then [line] else [];
      assert first + (Kept(a[1..], json) + Kept(b, json)) == (first + Kept(a[1..], json)) + Kept(b, json);
    }
  }

  /** strings.LastIndexByte(s, '\n'). */
  function LastNewline(s: string): (i: int)
    ensures -1 <= i < |s|
  {
    if s == "" then -1
    else if s[|s| - 1] == '\n' then |s| - 1
    else LastNewline(s[..|s| - 1])
  }

  /** Everything up to and including the last newline. */
  function Complete(s: string): string {
    s[..LastNewline(s) + 1]
  }

  /** The lines of a journal that are sent to a client. */
  function Events(text: string, json: string -> bool): seq<string> {
    Kept(SplitBy(Complete(text), "\n"), json)
  }

  lemma {:induction false} CompleteOver(a: string, b: string)
    requires Complete(a) == a
    ensures Complete(a + b) == a + Complete(b)
  {
    if b == "" {
      assert a + b == a;
    } else {
      var s, b' := a + b, b[..|b| - 1];
      assert s[..|s| - 1] == a + b';
      CompleteOver(a, b');
      if s[|s| - 1] != '\n' {
        assert Complete(s) == Complete(a + b');
        assert Complete(b) == Complete(b');
      }
    }
  }

  lemma {:induction false} CompleteIsComplete(s: string)
    ensures Complete(Complete(s)) == Complete(s)
  {
    if s != "" && s[|s| - 1] != '\n' { CompleteIsComplete(s[..|s| - 1]); assert Complete(s) == Complete(s[..|s| - 1]); }
  }

  lemma CompleteEnds(a: string)
    requires Complete(a) == a && a != ""
    ensures a == a[..|a| - 1] + "\n"
  {
    assert a[|a| - 1] != '\n' ==> |Complete(a)| < |a|;
  }

  /** Complete text ends with an empty piece, so more text starts a new line. */
  lemma CompleteSplits(a: string, b: string)
    requires Complete(a) == a
    ensures SplitBy(a + b, "\n") == Front(SplitBy(a, "\n")) + SplitBy(b, "\n")
    ensures Last(SplitBy(a, "\n")) == ""
  {
    hide SplitBy, Complete;
    NoPieces();
    if a == "" {
      assert a + b == b;
    } else {
      CompleteEnds(a);
      var front := a[..|a| - 1];
      LineEnds(front, "");
      LineEnds(front, b);
      assert a == front + "\n" + "" && a + b == front + "\n" + b;
    }
  }

  lemma KeptOne(piece: string, json: string -> bool)
    ensures Kept([piece], json) == if Sendable(Trim(piece), json) then [Trim(piece)] else []
    ensures Kept([""], json) == []
  {
    assert Kept([piece][1..], json) == [] && Kept([""][1..], json) == [];
  }

  /** Sending complete text and then more is sending it all at once: nothing is lost or sent twice. */
  lemma EventsOver(a: string, b: string, json: string -> bool)
    requires Complete(a) == a
    ensures Events(a + b, json) == Events(a, json) + Events(b, json)
  {
    hide SplitBy, Kept, Complete;
    var pieces := SplitBy(a, "\n");
    CompleteOver(a, b);
    CompleteSplits(a, Complete(b));
    KeptOver(Front(pieces), SplitBy(Complete(b), "\n"), json);
    assert pieces == Front(pieces) + [""];
    KeptOver(Front(pieces), [""], json);
    KeptOne("", json);
  }

  /** A journal of whole lines. */
  function Journal(lines: seq<string>): string {
    if lines == [] then "" else lines[0] + "\n" + Journal(lines[1..])
  }

  lemma {:induction false} NoNewline(s: string)
    requires '\n' !in s
    ensures Complete(s) == ""
  {
    if s != "" { NoNewline(s[..|s| - 1]); }
  }

  lemma EventsOfLine(line: string, json: string -> bool)
    requires '\n' !in line
    ensures Complete(line + "\n") == line + "\n" && Events(line + "\n", json) == Kept([line], json)
  {
    assert Complete(line + "\n") == line + "\n";
    hide SplitBy, Kept, Complete;
    assert line + "\n" == line + "\n" + "";
    LineSplits(line, "");
    NoPieces();
    KeptOver([line], [""], json);
    KeptOne(line, json);
  }

  lemma EventsOfNothing(partial: string, json: string -> bool)
    requires '\n' !in partial
    ensures Events(partial, json) == []
  {
    NoNewline(partial);
    NoPieces();
    KeptOne("", json);
  }

  /**
   * What is sent of a journal, in terms of its lines: each whole line, trimmed,
   * unless it is blank or not valid; a partial line at the end is not sent.
   */
  lemma {:induction false} EventsOfLines(lines: seq<string>, partial: string, json: string -> bool)
    requires '\n' !in partial && forall i :: 0 <= i < |lines| ==> '\n' !in lines[i]
    ensures Events(Journal(lines) + partial, json) == Kept(lines, json)
  {
    hide Events, Kept, Journal;
    if lines == [] {
      EventsOfNothing(partial, json);
      NothingYet(partial, json);
    } else {
      var head, rest := lines[0] + "\n", Journal(lines[1..]) + partial;
      EventsOfLines(lines[1..], partial, json);
      EventsOfLine(lines[0], json);
      JournalStep(lines, partial);
      EventsOver(head, rest, json);
      assert lines == [lines[0]] + lines[1..];
      KeptOver([lines[0]], lines[1..], json);
    }
  }

  lemma NothingYet(partial: string, json: string -> bool)
    ensures Journal([]) + partial == partial && Kept([], json) == []
  {
  }

  lemma JournalStep(lines: seq<string>, partial: string)
    requires lines != []
    ensures Journal(lines) + partial == (lines[0] + "\n") + (Journal(lines[1..]) + partial)
  {
  }

  // -- One journal ---------------------------------------------------------------------

  /** What a follower has done so far. */
  datatype Progress = Progress(position: nat, sent: seq<string>)

  /** One look at the journal; None when it cannot be opened or read. */
  function Look(p: Progress, text: Option<string>, json: string -> bool): Progress {
    if text.None? || |text.value| < p.position then p
    else
      var data := text.value[p.position..];
      Progress(p.position + |Complete(data)|, p.sent + Events(data, json))
  }

  function LookAll(looks: seq<Option<string>>, json: string -> bool): Progress {
    if looks == [] then Progress(0, []) else Look(LookAll(Front(looks), json), Last(looks), json)
  }

  /** What was seen at the last look that succeeded. */
  function LastSeen(looks: seq<Option<string>>): string {
    if looks == [] then "" else if Last(looks).Some? then Last(looks).value else LastSeen(Front(looks))
  }

  /** The journal is only ever appended to. */
  ghost predicate Appending(looks: seq<Option<string>>) {
    forall i, j :: 0 <= i < j < |looks| && looks[i].Some? && looks[j].Some? ==> looks[i].value <= looks[j].value
  }

  /** The position is just after a line, and everything before it has been sent. */
  ghost predicate UpTo(p: Progress, text: string, json: string -> bool) {
    && p.position <= |text|
    && text[..p.position] == Complete(text)
    && p.sent == Events(text, json)
  }

  lemma EventsOfComplete(text: string, json: string -> bool)
    ensures Events(Complete(text), json) == Events(text, json)
  {
    CompleteIsComplete(text);
  }

  /** A look after the journal has grown catches up exactly. */
  lemma LookCatchesUp(p: Progress, before: string, after: string, json: string -> bool)
    requires UpTo(p, before, json) && before <= after
    ensures UpTo(Look(p, Some(after), json), after, json)
  {
    var done, data := after[..p.position], after[p.position..];
    assert done == before[..p.position];
    CompleteIsComplete(before);
    assert after == done + data;
    CompleteOver(done, data);
    EventsOver(done, data, json);
    EventsOfComplete(before, json);
  }

  lemma {:induction false} LastSeenIsEarlier(looks: seq<Option<string>>, text: string)
    requires Appending(looks + [Some(text)])
    ensures LastSeen(looks) <= text
  {
    var all := looks + [Some(text)];
    if looks != [] {
      if Last(looks).Some? {
        assert all[|looks| - 1] == Last(looks) && all[|looks|] == Some(text);
      } else {
        var fewer := Front(looks) + [Some(text)];
        forall i, j | 0 <= i < j < |fewer| && fewer[i].Some? && fewer[j].Some?
          ensures fewer[i].value <= fewer[j].value {
          assert fewer[i] == all[i] && fewer[j] == all[if j == |fewer| - 1 then |looks| else j];
        }
        LastSeenIsEarlier(Front(looks), text);
      }
    }
  }

  /**
   * However appends and looks interleave, and whatever looks fail, the lines sent
   * are those of the journal as last seen, in order, each once.
   */
  lemma {:induction false} SentIsSeen(looks: seq<Option<string>>, json: string -> bool)
    requires Appending(looks)
    ensures UpTo(LookAll(looks, json), LastSeen(looks), json)
  {
    if looks == [] {
      assert Complete("") == "" && SplitBy("", "\n") == [""] && Trim("") == "";
      assert Kept([""], json) == [];
    } else {
      var front := Front(looks);
      assert looks == front + [Last(looks)];
      assert forall i :: 0 <= i < |front| ==> front[i] == looks[i];
      SentIsSeen(front, json);
      if Last(looks).Some? {
        LastSeenIsEarlier(front, Last(looks).value);
        LookCatchesUp(LookAll(front, json), LastSeen(front), Last(looks).value, json);
      }
    }
  }

  /** What is still to be sent of a text after a position. */
  function Unsent(text: string, position: nat, json: string -> bool): seq<string> {
    if position <= |text| then Events(text[position..], json) else []
  }

  /** Of a journal read up to a position, everything is sent exactly when nothing behind it is sendable. */
  lemma SentUpTo(p: Progress, seen: string, text: string, json: string -> bool)
    requires UpTo(p, seen, json) && (seen <= text || text <= seen)
    ensures Events(text, json) <= p.sent <==> Unsent(text, p.position, json) == []
  {
    EventsOfComplete(seen, json);
    if seen <= text {
      var done, rest := text[..p.position], text[p.position..];
      assert done == seen[..p.position] && text == done + rest;
      CompleteIsComplete(seen);
      EventsOver(done, rest, json);
    } else {
      EventsOfPrefix(text, seen, json);
      if p.position <= |text| {
        var done, rest, more := seen[..p.position], text[p.position..], seen[p.position..];
        CompleteIsComplete(seen);
        assert seen == done + more && text == done + rest;
        EventsOver(done, more, json);
        EventsOver(done, rest, json);
        assert p.sent == Events(done, json);
      }
    }
  }

  /**
   * A follower that stops because it read a terminal record has sent every event
   * that was in the journal when the record was written if and only if its last look
   * succeeded or, from the position it has reached, the journal held no more to send.
   */
  lemma StoppedOnTerminal(looks: seq<Option<string>>, last: Option<string>, recorded: string, json: string -> bool)
    requires Appending(looks + [last])
    requires last.Some? ==> recorded <= last.value
    requires LastSeen(looks) <= recorded || recorded <= LastSeen(looks)
    ensures Events(recorded, json) <= LookAll(looks + [last], json).sent
      <==> last.Some? || Unsent(recorded, LookAll(looks, json).position, json) == []
  {
    var all := looks + [last];
    SentIsSeen(all, json);
    assert Front(all) == looks && Last(all) == last;
    if last.Some? {
      EventsOfPrefix(recorded, last.value, json);
    } else {
      SentUpTo(LookAll(looks, json), LastSeen(looks), recorded, json);
    }
  }

  lemma EventsOfPrefix(a: string, b: string, json: string -> bool)
    requires a <= b
    ensures Events(a, json) <= Events(b, json)
  {
    var done := Complete(a);
    CompleteIsComplete(a);
    assert b == done + b[|done|..];
    EventsOver(done, b[|done|..], json);
    EventsOfComplete(a, json);
  }

  /** The look has to succeed: the one event of a finished run is then never sent. */
  lemma FailedLastLook(line: string, json: string -> bool)
    requires '\n' !in line && Trim(line) == line && Sendable(line, json)
    ensures Events(line + "\n", json) == [line] && LookAll([None], json).sent == []
  {
    EventsOfLine(line, json);
    KeptOne(line, json);
    var looks: seq<Option<string>> := [None];
    assert Front(looks) == [] && Last(looks) == None;
  }

  /** No look has seen more than the text. */
  ghost predicate SeenBefore(looks: seq<Option<string>>, text: string) {
    forall i :: 0 <= i < |looks| && looks[i].Some? ==> looks[i].value <= text
  }

  lemma SeenStays(looks: seq<Option<string>>, before: string, after: string)
    requires SeenBefore(looks, before) && before <= after
    ensures SeenBefore(looks, after) && (LastSeen(looks) <= before ==> LastSeen(looks) <= after)
  {
  }

  lemma SeenNow(looks: seq<Option<string>>, look: Option<string>, text: string)
    requires Appending(looks) && SeenBefore(looks, text) && (look.Some? ==> look.value == text)
    ensures Appending(looks + [look]) && SeenBefore(looks + [look], text)
  {
  }

  lemma CaughtUp(looks: seq<Option<string>>, text: string, json: string -> bool)
    requires Appending(looks) && SeenBefore(looks, text)
    ensures LookAll(looks, json).sent == Events(LastSeen(looks), json) && LastSeen(looks) <= text
    ensures looks != [] && Last(looks).Some? ==> LastSeen(looks) == Last(looks).value
  {
    SentIsSeen(looks, json);
    SeenNow(looks, Some(text), text);
    LastSeenIsEarlier(looks, text);
  }

  lemma NoLineYet(data: string, json: string -> bool)
    requires LastNewline(data) < 0
    ensures Complete(data) == "" && Events(data, json) == []
  {
    NoPieces();
    KeptOne("", json);
  }

  /** A look in terms of the last newline. */
  lemma LookByNewline(p: Progress, text: Option<string>, json: string -> bool)
    ensures Look(p, text, json) ==
      if text.None? || |text.value| < p.position then p
      else
        var data := text.value[p.position..];
        var last := LastNewline(data);
        if last < 0 then p
        else Progress(p.position + (last + 1), p.sent + Kept(SplitBy(data[..last + 1], "\n"), json))
  {
    hide Kept, SplitBy, LastNewline;
    if text.Some? && p.position <= |text.value| && LastNewline(text.value[p.position..]) < 0 {
      NoLineYet(text.value[p.position..], json);
      assert p.sent + [] == p.sent;
    }
  }

  /** The loop over the lines of complete text: the frames it writes, in order. */
  method Emit(complete: string, json: string -> bool) returns (lines: seq<string>)
    ensures lines == Kept(SplitBy(complete, "\n"), json)
  {
    hide Kept, Trim, SplitBy;
    var pieces := SplitBy(complete, "\n");
    lines := [];
    NothingYet("", json);
    for i := 0 to |pieces|
      invariant lines == Kept(pieces[..i], json)
    {
      KeptOver(pieces[..i], [pieces[i]], json);
      assert pieces[..i + 1] == pieces[..i] + [pieces[i]];
      KeptOne(pieces[i], json);
      var line := Trim(pieces[i]);
      if line == "" || !json(line) { continue; }
      lines := lines + [line];
    }
    assert pieces[..|pieces|] == pieces;
  }

  // -- Following a run -----------------------------------------------------------------

  const ENDS: set<string> := {"succeeded", "failed", "discarded", "committed", "rolled_back"}

  /** nativeRecordTerminal. */
  predicate Terminal(state: string)
    ensures Terminal(state) <==> state in ENDS
  {
    state == "succeeded" || state == "failed" || state == "discarded" || state == "committed" || state == "rolled_back"
  }

  /** The exit event is a whole line of the text, at some place. */
  predicate ExitAt(text: string, at: nat, exit: string) {
    at <= |text| && Complete(text[..at]) == text[..at] && exit + "\n" <= text[at..]
  }

  lemma ExitAppended(text: string, exit: string, json: string -> bool)
    requires Complete(text) == text && '\n' !in exit && Sendable(Trim(exit), json)
    ensures ExitAt(text + (exit + "\n"), |text|, exit)
    ensures Events(text + (exit + "\n"), json) == Events(text, json) + [Trim(exit)]
  {
    hide Complete, Events, Kept, Trim;
    EventsOver(text, exit + "\n", json);
    EventsOfLine(exit, json);
    KeptOne(exit, json);
    var whole := text + (exit + "\n");
    assert whole[..|text|] == text && whole[|text|..] == exit + "\n";
  }

  lemma ExitStays(text: string, more: string, at: nat, exit: string)
    requires ExitAt(text, at, exit) && text <= more
    ensures ExitAt(more, at, exit)
  {
    assert more[..at] == text[..at];
    assert more[at..][..|text| - at] == text[at..];
  }

  /** A journal with the exit event in it has the event among its lines, right after what came before. */
  lemma ExitIsEvent(text: string, at: nat, exit: string, json: string -> bool)
    requires ExitAt(text, at, exit) && '\n' !in exit && Sendable(Trim(exit), json)
    ensures Events(text[..at], json) + [Trim(exit)] <= Events(text, json)
  {
    var line := exit + "\n";
    EventsOfLine(exit, json);
    KeptOne(exit, json);
    hide Events, Kept, Complete;
    EventsOver(text[..at], line, json);
    assert text[..at] + line <= text;
    EventsOfPrefix(text[..at] + line, text, json);
  }

  /** What is on disk: the journal, the record's state, and whether the writer has come to the end of the run. */
  datatype Disk = Disk(text: string, state: string, concluded: bool)

  /** What the writer may do: append in any pieces, write the record, and come to the end of the run. */
  datatype Act = Append(more: string) | Record(next: string) | End(final: string, works: bool)

  /** One act: no record says that the run has ended before it has, and it ends once. */
  function AfterAct(d: Disk, act: Act, exit: string): Disk {
    match act
    case Append(more) => d.(text := d.text + more)
    case Record(next) => if d.concluded || next !in ENDS then d.(state := next) else d
    case End(final, works) =>
      if d.concluded then d else Disk(if works then d.text + (exit + "\n") else d.text, final, true)
  }

  function AfterActs(d: Disk, acts: seq<Act>, exit: string): Disk {
    if acts == [] then d else AfterAct(AfterActs(d, Front(acts), exit), Last(acts), exit)
  }

  /** The writer's files: the journal, and the record with the run's state. */
  class Files {
    const exit: string              // the exit event, as one line
    const json: string -> bool
    var text: string
    var state: string
    ghost var recorded: string      // the journal when the record was last written
    var concluded: bool             // the writer has come to the end of the run
    ghost var exitAt: Option<nat>   // where the exit event was logged, if it could be
    ghost var shown: seq<string>    // the record's state at each try to read it

    /** A record that says the run has ended comes after the exit event, if that could be logged. */
    ghost predicate Valid()
      reads this
    {
      && recorded <= text && '\n' !in exit && Sendable(Trim(exit), json)
      && (Terminal(state) ==> concluded)
      && (exitAt.Some? ==> concluded && ExitAt(recorded, exitAt.value, exit))
    }

    function State(): Disk
      reads this
    {
      Disk(text, state, concluded)
    }

    /** The exit event, if it could be logged, is in the given text. */
    ghost predicate Logged(given: string)
      reads this
    {
      exitAt.Some? ==> ExitAt(given, exitAt.value, exit)
    }

    constructor (exit: string, json: string -> bool)
      requires '\n' !in exit && Sendable(Trim(exit), json)
      ensures Valid() && text == "" && !concluded && this.exit == exit && this.json == json
    {
      this.exit := exit;
      this.json := json;
      text, state, recorded, concluded, exitAt, shown := "", "", "", false, None, [];
    }

    /** A reader tries to read the record. */
    method ReadRecord(works: bool) returns (answer: Option<string>)
      modifies this`shown
      ensures shown == old(shown) + [state] && answer == if works then Some(state) else None
    {
      shown := shown + [state];
      answer := if works then Some(state) else None;
    }

    /**
     * The end of a native run. Once the record has been written with the final state,
     * the lines of the recorded journal are those of before with the exit event behind
     * them, unless the event could not be appended as a line of its own.
     */
    method Conclude(final: string, works: bool)
      requires Valid() && !concluded
      modifies this
      ensures Valid() && concluded && state == final && shown == old(shown)
      ensures text == recorded == if works then old(text) + (exit + "\n") else old(text)
      ensures works && old(Complete(text) == text) ==>
        exitAt.Some? && Events(recorded, json) == Events(old(text), json) + [Trim(exit)]
      ensures exitAt.Some? ==> works
    {
      hide Complete, Events, ExitAt, Trim;
      exitAt := None;
      if works {
        if Complete(text) == text {
          exitAt := Some(|text|);
          ExitAppended(text, exit, json);
        }
        text := text + (exit + "\n");
      }
      recorded := text;
      state := final;
      concluded := true;
      assert text[..|old(text)|] == old(text);
    }

    /** Write the record with a state that the run can be in now. */
    method WriteRecord(next: string)
      requires Valid() && (Terminal(next) ==> concluded)
      modifies this`state, this`recorded
      ensures Valid() && old(recorded) <= recorded == text && state == next
    {
      if exitAt.Some? { ExitStays(recorded, text, exitAt.value, exit); }
      recorded := text;
      state := next;
    }

    method Do(act: Act)
      requires Valid()
      modifies this
      ensures Valid() && old(text) <= text && old(recorded) <= recorded && shown == old(shown)
      ensures old(concluded) ==> concluded && exitAt == old(exitAt)
      ensures State() == AfterAct(old(State()), act, exit)
    {
      match act
      case Append(more) => text := text + more;
      case Record(next) => if concluded || !Terminal(next) { WriteRecord(next); }
      case End(final, works) => if !concluded { Conclude(final, works); }
    }

    /** Whatever the writer does meanwhile. */
    method Progress(acts: seq<Act>)
      requires Valid()
      modifies this
      ensures Valid() && old(text) <= text && old(recorded) <= recorded && shown == old(shown)
      ensures old(concluded) ==> concluded && exitAt == old(exitAt)
      ensures State() == AfterActs(old(State()), acts, exit)
    {
      hide AfterAct, ExitAt, Sendable, Terminal;
      for i := 0 to |acts|
        invariant Valid() && old(text) <= text && old(recorded) <= recorded && shown == old(shown)
        invariant old(concluded) ==> concluded && exitAt == old(exitAt)
        invariant State() == AfterActs(old(State()), acts[..i], exit)
      {
        assert Front(acts[..i + 1]) == acts[..i] && Last(acts[..i + 1]) == acts[i];
        Do(acts[i]);
      }
      assert acts[..|acts|] == acts;
    }
  }

  /**
   * What a round meets: can the record be read, what does the writer do then, can the
   * journal be read, what does the writer do while the round waits, and is the client
   * then gone or idle too long?
   */
  datatype Luck = Luck(record: bool, before: seq<Act>, journal: bool, after: seq<Act>, left: bool)

  /**
   * The rounds and what luck they had. A round goes by the state that the record showed,
   * or where it cannot be read by the one known at first; it looks at the journal if it can.
   */
  ghost predicate Rounds(states: seq<string>, shown: seq<string>, looks: seq<Option<string>>, initial: string,
                         luck: nat -> Luck) {
    && |looks| == |shown| == |states|
    && (forall i :: 0 <= i < |states| ==> states[i] == if luck(i).record then shown[i] else initial)
    && forall i :: 0 <= i < |looks| ==> (looks[i].Some? <==> luck(i).journal)
  }

  /** None of the first n rounds was the last. */
  ghost predicate GoesOn(states: seq<string>, luck: nat -> Luck, n: nat) {
    n <= |states| && forall i :: 0 <= i < n ==> states[i] !in ENDS && !luck(i).left
  }

  lemma NoRounds(initial: string, luck: nat -> Luck)
    ensures Rounds([], [], [], initial, luck) && GoesOn([], luck, 0)
  {
  }

  lemma RoundsMore(states: seq<string>, shown: seq<string>, looks: seq<Option<string>>, initial: string,
                   luck: nat -> Luck, now: string, look: Option<string>)
    requires Rounds(states, shown, looks, initial, luck) && (look.Some? <==> luck(|states|).journal)
    ensures Rounds(states + [if luck(|states|).record then now else initial], shown + [now], looks + [look],
                   initial, luck)
  {
  }

  lemma GoesOnLess(states: seq<string>, luck: nat -> Luck)
    requires GoesOn(states, luck, |states|) && states != []
    ensures GoesOn(states, luck, |states| - 1) && Last(states) !in ENDS
  {
  }

  lemma GoesOnMore(states: seq<string>, luck: nat -> Luck, state: string)
    requires GoesOn(states, luck, |states|)
    ensures GoesOn(states + [state], luck, |states|)
    ensures GoesOn(states + [state], luck, |states| + 1) <==> state !in ENDS && !luck(|states|).left
  {
    var more := states + [state];
    assert more[|states|] == state;
  }

  class Follower {
    const json: string -> bool
    var position: nat
    var sent: seq<string>
    ghost var looks: seq<Option<string>>

    ghost predicate Valid()
      reads this
    {
      Appending(looks) && Progress(position, sent) == LookAll(looks, json)
    }

    constructor (json: string -> bool)
      ensures Valid() && looks == [] && this.json == json
    {
      this.json := json;
      position, sent, looks := 0, [], [];
    }

    /** streamNativeEventDelta. */
    method Delta(text: Option<string>) returns (wrote: bool)
      modifies this`position, this`sent
      ensures Progress(position, sent) == Look(old(Progress(position, sent)), text, json)
      ensures wrote <==> sent != old(sent)
    {
      hide Look, Kept, SplitBy, LastNewline;
      LookByNewline(Progress(position, sent), text, json);
      if text.None? || |text.value| < position { return false; }
      var data := text.value[position..];
      var lastNewline := LastNewline(data);
      if lastNewline < 0 { return false; }
      var lines := Emit(data[..lastNewline + 1], json);
      sent := sent + lines;
      position := position + (lastNewline + 1);
      return |lines| > 0;
    }

    /** One look at the journal as it is now. */
    method LookAt(files: Files, readable: bool) returns (wrote: bool)
      requires Valid() && files.Valid() && SeenBefore(looks, files.text)
      modifies this
      ensures Valid() && SeenBefore(looks, files.text)
      ensures looks == old(looks) + [if readable then Some(files.text) else None]
      ensures wrote <==> sent != old(sent)
    {
      var text := if readable then Some(files.text) else None;
      wrote := Delta(text);
      SeenNow(looks, text, files.text);
      looks := looks + [text];
      assert Front(looks) == old(looks);
    }

    /** The writer goes on. */
    method Meanwhile(files: Files, acts: seq<Act>)
      requires Valid() && files.Valid() && SeenBefore(looks, files.text) && LastSeen(looks) <= files.text
      modifies files
      ensures files.Valid() && SeenBefore(looks, files.text) && LastSeen(looks) <= files.text
      ensures old(files.text) <= files.text && old(files.recorded) <= files.recorded
      ensures files.shown == old(files.shown) && files.State() == AfterActs(old(files.State()), acts, files.exit)
      ensures old(files.concluded) ==> files.concluded && files.exitAt == old(files.exitAt)
    {
      hide Appending, LookAll, Terminal, ExitAt, AfterActs;
      ghost var before := files.text;
      files.Progress(acts);
      SeenStays(looks, before, files.text);
    }

    /** One round's look, some time after the record was read. */
    method Round(files: Files, acts: seq<Act>, readable: bool)
      requires Valid() && files.Valid() && SeenBefore(looks, files.text) && LastSeen(looks) <= files.text
      modifies this, files
      ensures Valid() && files.Valid() && SeenBefore(looks, files.text) && LastSeen(looks) <= files.text
      ensures sent == Events(LastSeen(looks), json) && (readable ==> LastSeen(looks) == files.text)
      ensures looks == old(looks) + [if readable then Some(files.text) else None]
      ensures old(files.text) <= files.text && old(files.recorded) <= files.recorded
      ensures files.shown == old(files.shown) && files.State() == AfterActs(old(files.State()), acts, files.exit)
      ensures old(files.concluded) ==> files.concluded && files.exitAt == old(files.exitAt)
    {
      hide Events, Appending, LookAll, Terminal, ExitAt, AfterActs;
      Meanwhile(files, acts);
      var wrote := LookAt(files, readable);
      CaughtUp(looks, files.text, json);
    }

    /** What has been sent of a run whose record ended it: what the record came after, and the exit event. */
    ghost predicate AllSent(files: Files, recorded: string)
      reads this`sent, files
    {
      && Events(recorded, json) <= sent
      && (files.exitAt.Some? ==>
            files.exitAt.value <= |files.text|
            && Events(files.text[..files.exitAt.value], json) + [Trim(files.exit)] <= sent)
    }

    /** The record, the journal, the state's test, and unless that ends it the wait. */
    method OneRound(files: Files, initial: string, ghost initially: string, luck: Luck)
      returns (terminal: bool, ghost state: string, ghost recorded: string)
      requires Valid() && files.Valid() && SeenBefore(looks, files.text) && LastSeen(looks) <= files.text
      requires files.json == json && initially <= files.recorded
      requires Terminal(initial) ==> files.concluded && files.Logged(initially)
      modifies this, files
      ensures Valid() && files.Valid() && SeenBefore(looks, files.text) && LastSeen(looks) <= files.text
      ensures sent == Events(LastSeen(looks), json) && initially <= recorded <= files.recorded
      ensures Terminal(initial) ==> files.concluded && files.Logged(initially)
      ensures files.shown == old(files.shown) + [old(files.state)]
      ensures state == (if luck.record then old(files.state) else initial) && (terminal <==> state in ENDS)
      ensures looks != [] && looks == old(looks) + [Last(looks)] && (Last(looks).Some? <==> luck.journal)
      ensures old(files.text) <= files.text && (luck.journal ==> old(files.text) <= LastSeen(looks))
      ensures terminal && luck.journal ==> AllSent(files, recorded)
      ensures
        var seen := AfterActs(old(files.State()), luck.before, files.exit);
        files.State() == if terminal then seen else AfterActs(seen, luck.after, files.exit)
    {
      hide Events, Appending, LookAll, Terminal, ExitAt, AfterActs, SeenBefore;
      var answer := files.ReadRecord(luck.record);
      var current := if answer.Some? then answer.value else initial;
      state := current;
      recorded := if answer.Some? then files.recorded else initially;
      assert Terminal(current) ==> files.concluded && files.Logged(recorded);
      Round(files, luck.before, luck.journal);
      terminal := Terminal(current);
      if terminal {
        if luck.journal { LastWords(files, recorded); }
        return;
      }
      Meanwhile(files, luck.after);
    }

    /**
     * streamNativeEventFollow: every round reads the record, then the journal, then
     * tests the state that was read first. It ends with the first round that goes by a
     * terminal state or after which the client or the idle timer ends it. A stop on a
     * terminal state after a look that succeeded has sent everything that was in the
     * journal when the record was written, the exit event behind all that came before it.
     */
    method Follow(files: Files, initial: string, ghost initially: string, luck: nat -> Luck, rounds: nat)
      returns (terminal: bool, ghost recorded: string, ghost states: seq<string>, ghost shown: seq<string>)
      requires Valid() && looks == [] && files.Valid() && files.json == json && initially <= files.recorded
      requires Terminal(initial) ==> files.concluded && files.Logged(initially)
      modifies this, files
      ensures Valid() && files.Valid() && LastSeen(looks) <= files.text
      ensures sent == Events(LastSeen(looks), json)
      ensures initially <= recorded <= files.recorded
      ensures Rounds(states, shown, looks, initial, luck) && files.shown == old(files.shown) + shown
      ensures rounds > 0 ==> 0 < |states| <= rounds && shown[0] == old(files.state)
      ensures states != [] ==> GoesOn(states, luck, |states| - 1)
      ensures terminal <==> states != [] && Last(states) in ENDS
      ensures !terminal ==> |states| == rounds || (states != [] && luck(|states| - 1).left)
      ensures states != [] && luck(|states| - 1).journal ==> old(files.text) <= LastSeen(looks)
      ensures terminal && luck(|states| - 1).journal ==> AllSent(files, recorded)
    {
      hide Events, Appending, LookAll, Terminal, ExitAt, Rounds, GoesOn, AllSent, AfterActs, Files.Valid, Files.Logged;
      terminal, recorded, states, shown := false, initially, [], [];
      NoRounds(initial, luck);
      CaughtUp(looks, files.text, json);
      hide SeenBefore, LastSeen;
      for round := 0 to rounds
        invariant Valid() && files.Valid() && SeenBefore(looks, files.text) && LastSeen(looks) <= files.text
        invariant sent == Events(LastSeen(looks), json) && old(files.text) <= files.text
        invariant initially <= recorded <= files.recorded && initially <= files.recorded
        invariant |states| == |shown| == round && GoesOn(states, luck, round)
        invariant Rounds(states, shown, looks, initial, luck) && files.shown == old(files.shown) + shown
        invariant (if round == 0 then files.state else shown[0]) == old(files.state)
        invariant round > 0 && luck(round - 1).journal ==> old(files.text) <= LastSeen(looks)
        invariant Terminal(initial) ==> files.concluded && files.Logged(initially)
      {
        ghost var state, now, before := "", files.state, looks;
        terminal, state, recorded := OneRound(files, initial, initially, luck(round));
        RoundsMore(states, shown, before, initial, luck, now, Last(looks));
        GoesOnMore(states, luck, state);
        states, shown := states + [state], shown + [now];
        if terminal || luck(round).left { return; }
      }
      if rounds > 0 { GoesOnLess(states, luck); }
      terminal := false;
    }
  }

  /** A run that has ended, with files that can be read: one round sends its whole journal. */
  method FollowEnded(follower: Follower, files: Files, luck: nat -> Luck, rounds: nat)
    requires follower.Valid() && follower.looks == [] && files.Valid() && files.json == follower.json
    requires files.state in ENDS && luck(0).record && luck(0).journal && rounds > 0
    modifies follower, files
    ensures follower.Valid() && |follower.looks| == 1 && Events(old(files.text), follower.json) <= follower.sent
  {
    var terminal;
    ghost var recorded, states, shown;
    terminal, recorded, states, shown := follower.Follow(files, "", "", luck, rounds);
    EventsOfPrefix(old(files.text), LastSeen(follower.looks), follower.json);
  }

  /** What is in the journal by the time of a record, and the exit event if it is. */
  lemma LastWords(files: Files, recorded: string)
    requires files.Valid() && recorded <= files.text && files.Logged(recorded)
    ensures Events(recorded, files.json) <= Events(files.text, files.json)
    ensures files.exitAt.Some? ==>
      files.exitAt.value <= |files.text|
      && Events(files.text[..files.exitAt.value], files.json) + [Trim(files.exit)] <= Events(files.text, files.json)
  {
    EventsOfPrefix(recorded, files.text, files.json);
    if files.exitAt.Some? {
      ExitStays(recorded, files.text, files.exitAt.value, files.exit);
      ExitIsEvent(files.text, files.exitAt.value, files.exit, files.json);
    }
  }
}
