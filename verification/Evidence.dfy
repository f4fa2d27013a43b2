// Checking a run's persisted evidence against its record, independently of the
// writer.
module Evidence {
  import opened Text
  import opened Tree
  import opened Telemetry
  import opened RunStore
  import Glob
  import Journal
  import Order
  import SegmentNames

  datatype Record = Record(eventsPath: string, eventsPaths: seq<string>, events: EventEvidence)

  /** EventLogPaths. */
  function LogPaths(record: Record): (r: seq<string>)
    ensures r == [] <==> record.eventsPaths == [] && record.eventsPath == ""
    ensures r != [] ==> r == record.eventsPaths || (record.eventsPaths == [] && r == [record.eventsPath])
  {
    if record.eventsPaths != [] then record.eventsPaths
    else if record.eventsPath == "" then []
    else [record.eventsPath]
  }

  datatype Result = Result(
    count: nat, bytes: nat, dropped: nat, truncated: bool, complete: bool,
    streamComplete: bool, recordComplete: bool, chainValid: bool, matchesRecord: bool)

  function DropCR(line: string): (r: string)
    ensures r == line || r + "\r" == line
    ensures r == line ==> line == "" || line[|line| - 1] != '\r'
  {
    if line != "" && line[|line| - 1] == '\r' then line[..|line| - 1] else line
  }

  /** What a line scanner returns of a file: a last line without a newline counts, an empty one does not. */
  function Tokens(text: string): seq<string> {
    var pieces := SplitBy(text, "\n");
    if Last(pieces) == "" then Front(pieces) else pieces
  }

  /** The records of some lines; None when one does not decode. */
  function Decoded(lines: seq<string>, decode: string -> Option<JournalEvent>): Option<seq<JournalEvent>> {
    if lines == [] then Some([])
    else
      match Decoded(Front(lines), decode)
      case None => None
      case Some(front) =>
        match decode(DropCR(Last(lines)))
        case None => None
        case Some(last) => Some(front + [last])
  }

  function WithReturns(lines: seq<string>): seq<string> {
    if lines == [] then [] else WithReturns(Front(lines)) + [Last(lines) + "\r"]
  }

  /** Lines that end with a carriage return before the newline read like lines that do not. */
  lemma {:induction false} ReturnsDoNotMatter(lines: seq<string>, decode: string -> Option<JournalEvent>)
    requires forall i :: 0 <= i < |lines| ==> lines[i] == "" || Last(lines[i]) != '\r'
    ensures Decoded(WithReturns(lines), decode) == Decoded(lines, decode)
  {
    if lines != [] {
      ReturnsDoNotMatter(Front(lines), decode);
      var more := WithReturns(lines);
      assert Front(more) == WithReturns(Front(lines)) && Last(more) == Last(lines) + "\r";
      assert DropCR(Last(lines)) == Last(lines) && DropCR(Last(more)) == Last(lines);
    }
  }

  /** The records of some journals, one after the other. */
  function JournalOf(texts: seq<string>, decode: string -> Option<JournalEvent>): Option<seq<JournalEvent>> {
    if texts == [] then Some([])
    else
      match JournalOf(Front(texts), decode)
      case None => None
      case Some(front) =>
        match Decoded(Tokens(Last(texts)), decode)
        case None => None
        case Some(last) => Some(front + last)
  }

  lemma {:induction false} DecodedStops(lines: seq<string>, n: nat, decode: string -> Option<JournalEvent>)
    requires n <= |lines| && Decoded(lines[..n], decode).None?
    ensures Decoded(lines, decode).None?
    decreases |lines|
  {
    if n == |lines| {
      assert lines[..n] == lines;
    } else {
      assert Front(lines)[..n] == lines[..n];
      DecodedStops(Front(lines), n, decode);
    }
  }

  lemma {:induction false} JournalStops(texts: seq<string>, n: nat, decode: string -> Option<JournalEvent>)
    requires n <= |texts| && JournalOf(texts[..n], decode).None?
    ensures JournalOf(texts, decode).None?
    decreases |texts|
  {
    if n == |texts| {
      assert texts[..n] == texts;
    } else {
      assert Front(texts)[..n] == texts[..n];
      JournalStops(Front(texts), n, decode);
    }
  }

  /** The records of one file, appended to those of the files before. */
  method DecodeFile(text: string, journal: seq<JournalEvent>, decode: string -> Option<JournalEvent>)
    returns (r: Option<seq<JournalEvent>>)
    ensures r == match Decoded(Tokens(text), decode) case None => None case Some(last) => Some(journal + last)
  {
    var lines := Tokens(text);
    var more := journal;
    ghost var mine: seq<JournalEvent> := [];
    for i := 0 to |lines|
      invariant Decoded(lines[..i], decode) == Some(mine) && more == journal + mine
    {
      assert Front(lines[..i + 1]) == lines[..i] && Last(lines[..i + 1]) == lines[i];
      var value := decode(DropCR(lines[i]));
      if value.None? {
        DecodedStops(lines, i + 1, decode);
        return None;
      }
      more := more + [value.value];
      mine := mine + [value.value];
    }
    assert lines[..|lines|] == lines;
    return Some(more);
  }

  /** Does the evidence found agree with the record? */
  predicate Matches(found: EventEvidence, kept: EventEvidence) {
    found.count == kept.count && found.bytes == kept.bytes && found.sha256 == kept.sha256
      && found.complete == kept.complete
  }

  predicate Completes(found: EventEvidence, kept: EventEvidence, chainValid: bool) {
    found.complete && kept.complete && kept.dropped == 0 && !kept.truncated && chainValid && Matches(found, kept)
  }

  /** The journals a record lists, when none is missing. */
  function Listed(paths: seq<string>, files: map<string, string>): Option<seq<string>> {
    if paths == [] then Some([])
    else
      match Listed(Front(paths), files)
      case None => None
      case Some(front) => if Last(paths) != "" && Last(paths) in files then Some(front + [files[Last(paths)]]) else None
  }

  lemma {:induction false} ListedStops(paths: seq<string>, n: nat, files: map<string, string>)
    requires n <= |paths| && Listed(paths[..n], files).None?
    ensures Listed(paths, files).None?
    decreases |paths|
  {
    if n == |paths| {
      assert paths[..n] == paths;
    } else {
      assert Front(paths)[..n] == paths[..n];
      ListedStops(Front(paths), n, files);
    }
  }

  lemma {:induction false} ListedExist(paths: seq<string>, files: map<string, string>)
    requires Listed(paths, files).Some?
    ensures Existing(paths, files) == Listed(paths, files).value && |Listed(paths, files).value| == |paths|
    ensures "" !in paths
  {
    if paths != [] {
      ListedExist(Front(paths), files);
      assert paths == Front(paths) + [Last(paths)];
    }
  }

  function Found(texts: seq<string>, json: string -> bool, sha: string -> string): EventEvidence {
    if texts == [] then EventEvidence(0, 0, 0, false, "", true) else Summary(texts, json, sha)
  }

  /** What Verify reports about journals that could be read. */
  function Checked(kept: EventEvidence, texts: seq<string>, journal: seq<JournalEvent>,
                   f: Format, json: string -> bool, sha: string -> string): Result {
    var found := Found(texts, json, sha);
    var chainValid := Verified(journal, f);
    Result(found.count, found.bytes, kept.dropped, kept.truncated, Completes(found, kept, chainValid),
           found.complete, kept.complete, chainValid, Matches(found, kept))
  }

  /** Verify: None when a journal is missing or a line does not decode. */
  method Verify(record: Record, files: map<string, string>, f: Format, decode: string -> Option<JournalEvent>,
                json: string -> bool, sha: string -> string) returns (r: Option<Result>)
    ensures var texts := Listed(LogPaths(record), files);
      match texts
      case None => r == None
      case Some(texts) =>
        match JournalOf(texts, decode)
        case None => r == None
        case Some(journal) => r == Some(Checked(record.events, texts, journal, f, json, sha))
  {
    var paths := LogPaths(record);
    var journal: seq<JournalEvent> := [];
    ghost var texts: seq<string> := [];
    for i := 0 to |paths|
      invariant Listed(paths[..i], files) == Some(texts) && JournalOf(texts, decode) == Some(journal)
    {
      assert Front(paths[..i + 1]) == paths[..i] && Last(paths[..i + 1]) == paths[i];
      if paths[i] == "" || paths[i] !in files {
        ListedStops(paths, i + 1, files);
        return None;
      }
      var more := DecodeFile(files[paths[i]], journal, decode);
      assert Front(texts + [files[paths[i]]]) == texts;
      if more.None? {
        NotDecoded(paths, i, files, texts, decode);
        return None;
      }
      journal := more.value;
      texts := texts + [files[paths[i]]];
    }
    assert paths[..|paths|] == paths;
    ListedExist(paths, files);
    var found := Summarize(paths, files, json, sha);
    var chainValid := Telemetry.Verify(journal, f);
    var matches := Matches(found, record.events);
    return Some(Result(found.count, found.bytes, record.events.dropped, record.events.truncated,
                       Completes(found, record.events, chainValid), found.complete, record.events.complete,
                       chainValid, matches));
  }

  lemma NotDecoded(paths: seq<string>, i: nat, files: map<string, string>, texts: seq<string>,
                   decode: string -> Option<JournalEvent>)
    requires i < |paths| && Listed(paths[..i], files) == Some(texts) && paths[i] != "" && paths[i] in files
    requires JournalOf(texts + [files[paths[i]]], decode).None?
    ensures Listed(paths, files).Some? ==> JournalOf(Listed(paths, files).value, decode).None?
  {
    assert Front(paths[..i + 1]) == paths[..i] && Last(paths[..i + 1]) == paths[i];
    if Listed(paths, files).Some? {
      var all := Listed(paths, files).value;
      ListedPrefix(paths, i + 1, files);
      JournalStops(all, i + 1, decode);
    }
  }

  lemma {:induction false} ListedPrefix(paths: seq<string>, n: nat, files: map<string, string>)
    requires n <= |paths| && Listed(paths, files).Some?
    ensures |Listed(paths, files).value| == |paths|
      && Listed(paths[..n], files) == Some(Listed(paths, files).value[..n])
    decreases |paths|
  {
    ListedExist(paths, files);
    if n == |paths| {
      assert paths[..n] == paths && Listed(paths, files).value[..n] == Listed(paths, files).value;
    } else {
      assert Front(paths)[..n] == paths[..n];
      ListedPrefix(Front(paths), n, files);
      assert Listed(paths, files).value[..n] == Listed(Front(paths), files).value[..n];
    }
  }

  // -- Evidence as the writer leaves it -----------------------------------------------------

  /** JSON: a record is one valid line, without a line break, that decodes to the record. */
  ghost predicate Faithful(f: Format, decode: string -> Option<JournalEvent>, json: string -> bool) {
    forall r: JournalEvent ::
      var line := f.encode(r);
      && '\n' !in line && line != "" && line[|line| - 1] != '\r'
      && decode(line) == Some(r) && json(Trim(line + "\n"))
  }

  function Encoded(journal: seq<JournalEvent>, f: Format): seq<string> {
    if journal == [] then [] else Encoded(Front(journal), f) + [f.encode(Last(journal))]
  }

  lemma {:induction false} LogSplits(journal: seq<JournalEvent>, f: Format)
    requires forall r: JournalEvent :: '\n' !in f.encode(r)
    ensures SplitBy(LogText(journal, f), "\n") == Encoded(journal, f) + [""]
  {
    NoPieces();
    if journal != [] {
      var before, line := LogText(Front(journal), f), f.encode(Last(journal));
      LogSplits(Front(journal), f);
      SplitOver(before, line + "\n", "\n");
      assert "" + (line + "\n") == line + "\n" + "";
      LineSplits(line, "");
      assert Front(Encoded(Front(journal), f) + [""]) == Encoded(Front(journal), f);
    }
  }

  lemma FaithfulAt(f: Format, decode: string -> Option<JournalEvent>, json: string -> bool, r: JournalEvent)
    requires Faithful(f, decode, json)
    ensures DropCR(f.encode(r)) == f.encode(r) && decode(f.encode(r)) == Some(r)
    ensures '\n' !in f.encode(r) && json(Trim(f.encode(r) + "\n"))
  {
    var line := f.encode(r);
  }

  lemma {:induction false} EncodedDecodes(journal: seq<JournalEvent>, f: Format,
                                          decode: string -> Option<JournalEvent>, json: string -> bool)
    requires Faithful(f, decode, json)
    ensures Decoded(Encoded(journal, f), decode) == Some(journal)
  {
    hide Faithful, DropCR;
    if journal != [] {
      EncodedDecodes(Front(journal), f, decode, json);
      FaithfulAt(f, decode, json, Last(journal));
      assert Front(Encoded(journal, f)) == Encoded(Front(journal), f);
      assert Last(Encoded(journal, f)) == f.encode(Last(journal));
      assert journal == Front(journal) + [Last(journal)];
    }
  }

  /** Reading back a journal's text gives the journal. */
  lemma LogRoundTrip(journal: seq<JournalEvent>, f: Format, decode: string -> Option<JournalEvent>,
                     json: string -> bool)
    requires Faithful(f, decode, json)
    ensures Decoded(Tokens(LogText(journal, f)), decode) == Some(journal)
  {
    LogSplits(journal, f);
    EncodedDecodes(journal, f, decode, json);
    assert Front(Encoded(journal, f) + [""]) == Encoded(journal, f);
  }

  lemma {:induction false} LogIsSound(journal: seq<JournalEvent>, f: Format, decode: string -> Option<JournalEvent>,
                                      json: string -> bool)
    requires Faithful(f, decode, json)
    ensures var text := LogText(journal, f);
      (text == "" || Ended(text)) && Sound(text, json) && Newlines(text) == |journal|
  {
    if journal != [] {
      var before, line := LogText(Front(journal), f), f.encode(Last(journal)) + "\n";
      LogIsSound(Front(journal), f, decode, json);
      SoundOver(before, line, json);
      NewlinesOver(before, line);
      OneLine(f.encode(Last(journal)), json);
    }
  }

  lemma OneLine(line: string, json: string -> bool)
    requires '\n' !in line && json(Trim(line + "\n"))
    ensures Sound(line + "\n", json) && Newlines(line + "\n") == 1
  {
    WholeLine(line);
    NextLineNewlines(line + "\n");
    assert (line + "\n")[|line + "\n"|..] == "";
  }

  lemma {:induction false} WholeLine(line: string)
    requires '\n' !in line
    ensures NextLine(line + "\n") == line + "\n"
  {
    if line != "" {
      assert (line + "\n")[1..] == line[1..] + "\n";
      WholeLine(line[1..]);
    }
  }

  lemma {:induction false} SegmentsRoundTrip(segments: seq<seq<JournalEvent>>, texts: seq<string>, f: Format,
                                             decode: string -> Option<JournalEvent>, json: string -> bool)
    requires Faithful(f, decode, json)
    requires |texts| == |segments| && forall i :: 0 <= i < |texts| ==> texts[i] == LogText(segments[i], f)
    ensures JournalOf(texts, decode) == Some(Journal.Flat(segments))
    ensures AllSound(texts, json)
  {
    hide Faithful, LogText, Decoded, Tokens, Sound;
    if texts != [] {
      SegmentsRoundTrip(Front(segments), Front(texts), f, decode, json);
      LogRoundTrip(Last(segments), f, decode, json);
      LogIsSound(Last(segments), f, decode, json);
      AllSoundMore(Front(texts), Last(texts), json);
      assert texts == Front(texts) + [Last(texts)];
    }
  }

  /**
   * Evidence just persisted, read back untouched: it decodes to exactly the records
   * that were kept, and it is reported complete exactly when nothing was lost, in
   * which case those records are all there ever were.
   */
  lemma FreshEvidence(built: seq<JournalEvent>, fate: Journal.Fate, texts: seq<string>, c: Journal.Counters,
                      maxBytes: nat, rotateBytes: nat, dropped: nat, truncated: bool,
                      f: Format, decode: string -> Option<JournalEvent>, json: string -> bool, sha: string -> string)
    requires Faithful(f, decode, json) && Verified(built, f)
    requires Journal.Holds(built, fate, texts, f) && Journal.Counted(fate, texts, c, maxBytes, rotateBytes)
    requires c.truncated ==> truncated
    ensures JournalOf(texts, decode) == Some(Keep(built, fate.kept))
    ensures var kept := Summary(texts, json, sha).WithDropped(dropped).WithTruncated(truncated);
      var result := Checked(kept, texts, Keep(built, fate.kept), f, json, sha);
      && result.count == |Keep(built, fate.kept)| && result.bytes == c.bytes
      && (result.complete <==> dropped == 0 && !truncated)
      && (result.complete ==> Keep(built, fate.kept) == built)
      && (result.chainValid <==> NoneAfterDrop(fate.kept))
  {
    hide Sound, Verified;
    SegmentsRoundTrip(fate.segments, texts, f, decode, json);
    Journal.UntruncatedIsWhole(built, fate, texts, c, maxBytes, rotateBytes, f);
    LogIsSound(Keep(built, fate.kept), f, decode, json);
    KeptVerifies(built, fate.kept, f);
  }

  // -- From the run's directory to its verified evidence -----------------------------------------

  /** persistRecordState: the record of whatever journals are found now. */
  method Persist(eventsPath: string, dirs: Glob.Dirs, files: map<string, string>, dropped: nat, truncated: bool,
                 json: string -> bool, sha: string -> string) returns (record: Record)
    ensures record.eventsPath == eventsPath && record.eventsPaths == SegmentNames.Discovered(eventsPath, dirs)
    ensures Trim(eventsPath) != "" ==>
      var summary := Summary(Existing(record.eventsPaths, files), json, sha);
      record.events == summary.WithDropped(dropped).WithTruncated(truncated)
  {
    var paths := SegmentNames.Discovered(eventsPath, dirs);
    var summary := Summarize(paths, files, json, sha);
    return Record(eventsPath, paths, summary.WithDropped(dropped).WithTruncated(truncated));
  }

  /** The journals of a run are on disk, in a directory that is not a pattern and has none of another run. */
  ghost predicate Undisturbed(out: Journal.Files, dirs: Glob.Dirs, files: map<string, string>)
    requires out.Valid()
    reads out
  {
    && Glob.Proper(dirs) && SegmentNames.Placed(out.first) && !Glob.HasMeta(SegmentNames.Stem(out.first))
    && |out.paths| - 1 <= SegmentNames.LIMIT && SegmentNames.OnlyOwn(out.first, dirs, |out.paths| - 1)
    && forall i :: 0 <= i < |out.paths| ==> out.paths[i] in files && files[out.paths[i]] == out.texts[i]
  }

  lemma {:induction false} AllListed(paths: seq<string>, texts: seq<string>, files: map<string, string>)
    requires |paths| == |texts|
    requires forall i :: 0 <= i < |paths| ==> paths[i] != "" && paths[i] in files && files[paths[i]] == texts[i]
    ensures Listed(paths, files) == Some(texts)
  {
    if paths != [] {
      AllListed(Front(paths), Front(texts), files);
      assert texts == Front(texts) + [Last(texts)];
    }
  }

  /** What is found then is what was written. */
  lemma FoundAsWritten(out: Journal.Files, dirs: Glob.Dirs, files: map<string, string>)
    requires out.Valid() && Undisturbed(out, dirs, files)
    ensures SegmentNames.Discovered(out.first, dirs) == out.paths && Trim(out.first) != ""
    ensures Listed(out.paths, files) == Some(out.texts) && Existing(out.paths, files) == out.texts
  {
    hide SegmentNames.OnlyOwn, SegmentNames.Discovered, SegmentNames.Name, SegmentNames.Stem, Trim, Listed, Existing;
    SegmentNames.DirectoryDecides(out.first, dirs, |out.paths| - 1);
    SegmentNames.TrimKeepsFirst(out.first);
    forall i | 0 <= i < |out.paths| ensures out.paths[i] != "" {
      if i > 0 { NotBlank(SegmentNames.Stem(out.first), i); }
    }
    AllListed(out.paths, out.texts, files);
    ListedExist(out.paths, files);
  }

  lemma NotBlank(stem: string, i: nat)
    ensures SegmentNames.Name(stem, i) != ""
  {
  }

  /**
   * A run from its writer to the independent check: its journals are found in their
   * directory, summarised into the record, read back and judged. The evidence is
   * reported complete exactly when nothing was lost, and its chain as valid exactly
   * when the cap left no hole.
   */
  method PersistAndVerify(w: Journal.JournalWriter, dirs: Glob.Dirs, files: map<string, string>, dropped: nat,
                          truncated: bool, decode: string -> Option<JournalEvent>, json: string -> bool,
                          sha: string -> string)
    returns (r: Option<Result>)
    requires w.Valid() && !w.broken && Undisturbed(w.out, dirs, files)
    requires Faithful(w.f, decode, json) && (w.c.truncated ==> truncated)
    ensures r.Some? && r.value.count == |Keep(w.chain.built, w.fate.kept)| && r.value.bytes == w.c.bytes
    ensures r.value.complete <==> dropped == 0 && !truncated
    ensures r.value.complete ==> Keep(w.chain.built, w.fate.kept) == w.chain.built
    ensures r.value.chainValid <==> Journal.NoneFitsLater(w.chain.built, w.maxBytes, w.f)
  {
    hide Listed, Existing, Summary, Checked, Keep, Verified, Faithful, JournalOf, Journal.NoneFitsLater, Undisturbed,
         SegmentNames.Discovered, Journal.Holds, Journal.Counted, Trim, Journal.CapKept, NoneAfterDrop;
    FoundAsWritten(w.out, dirs, files);
    VerifiedIsBuilt(w.chain.built, w.f);
    Journal.WriterVerifies(w);
    KeptVerifies(w.chain.built, w.fate.kept, w.f);
    FreshEvidence(w.chain.built, w.fate, w.out.texts, w.c, w.maxBytes, w.rotateBytes, dropped, truncated, w.f,
      decode, json, sha);
    var record := Persist(w.out.first, dirs, files, dropped, truncated, json, sha);
    r := Verify(record, files, w.f, decode, json, sha);
  }

  lemma {:induction false} FlatFirst(segments: seq<seq<JournalEvent>>)
    requires segments != []
    ensures segments[0] <= Journal.Flat(segments)
  {
    if |segments| == 1 {
      assert Journal.Flat(Front(segments)) == [] && [] + segments[0] == segments[0];
    } else {
      FlatFirst(Front(segments));
    }
  }

  function Alone(first: seq<JournalEvent>): Journal.Fate { Journal.Fate(seq(|first|, i => true), [first]) }

  /** A journal file on its own. */
  lemma OneFile(first: seq<JournalEvent>, text: string, f: Format)
    requires text == LogText(first, f)
    ensures Keep(first, Alone(first).kept) == first && Journal.Holds(first, Alone(first), [text], f)
    ensures Journal.Counted(Alone(first), [text], Journal.Counters(|text|, |text|, 0, false), 0, 0)
  {
    hide LogText, Keep, Drops;
    AllKept(first);
    ConcatOne(text);
    assert Journal.Flat(Front(Alone(first).segments)) == [] && [] + first == first;
  }

  lemma {:induction false} AllKept(full: seq<JournalEvent>)
    ensures var kept := seq(|full|, i => true); Drops(kept) == 0 && Keep(full, kept) == full
  {
    NoneDropped(|full|);
    KeepAll(full, seq(|full|, i => true));
  }

  lemma {:induction false} NoneDropped(n: nat)
    ensures Drops(seq(n, i => true)) == 0
  {
    if n > 0 {
      NoneDropped(n - 1);
      var all: seq<bool> := seq(n, i => true);
      assert Front(all) == seq(n - 1, i => true);
    }
  }

  /** The first file of a run that lost nothing, as its own evidence. */
  lemma FirstFileIsFresh(built: seq<JournalEvent>, fate: Journal.Fate, texts: seq<string>, f: Format,
                         decode: string -> Option<JournalEvent>, json: string -> bool, sha: string -> string)
    requires Faithful(f, decode, json) && Verified(built, f)
    requires Journal.Holds(built, fate, texts, f) && Keep(built, fate.kept) == built
    ensures fate.segments[0] <= built && JournalOf([texts[0]], decode) == Some(fate.segments[0])
    ensures var result := Checked(Summary([texts[0]], json, sha).WithDropped(0).WithTruncated(false),
                                  [texts[0]], fate.segments[0], f, json, sha);
      result.complete && result.count == |fate.segments[0]|
  {
    hide Faithful, Verified, Keep, LogText, JournalOf, Checked, Summary, Journal.Counted;
    var first, text := fate.segments[0], texts[0];
    FlatFirst(fate.segments);
    VerifiedPrefix(built, |first|, f);
    assert built[..|first|] == first;
    OneFile(first, text, f);
    FreshEvidence(first, Alone(first), [text], Journal.Counters(|text|, |text|, 0, false), 0, 0, 0, false,
                  f, decode, json, sha);
  }

  /** Where only the first journal is found. */
  lemma OnlyFirstFound(out: Journal.Files, dirs: Glob.Dirs)
    requires out.Valid() && Glob.Proper(dirs) && Trim(out.first) != ""
    requires Glob.HasBracket(SegmentNames.Dir(out.first)) && '*' !in SegmentNames.Dir(out.first)
    requires forall p :: p in Glob.Listing(dirs, SegmentNames.Pattern(out.first)) ==> p in out.paths[1..]
    ensures SegmentNames.Discovered(out.first, dirs) == [out.first]
  {
    hide Glob.Listing, SegmentNames.Name, SegmentNames.Stem, SegmentNames.Dir;
    var found, n := Glob.Listing(dirs, SegmentNames.Pattern(out.first)), |out.paths| - 1;
    SegmentNames.BracketLosesAll(out.first, dirs, n);
    assert out.paths[1..] == SegmentNames.Names(out.stem, n);
    assert forall i :: 0 <= i < n ==> SegmentNames.Names(out.stem, n)[i] !in found;
    assert forall p :: p !in found;
    Order.Nonempty(found);
    SegmentNames.BracketLosesAll(out.first, dirs, 0);
  }

  lemma BlankPath(path: string)
    ensures Trim(path) != "" ==> path != ""
  {
  }

  /** What is then found, read back and judged. */
  lemma ShortEvidence(w: Journal.JournalWriter, files: map<string, string>,
                      decode: string -> Option<JournalEvent>, json: string -> bool, sha: string -> string)
    requires w.Valid() && !w.broken && !w.c.truncated && Faithful(w.f, decode, json)
    requires w.out.first in files && files[w.out.first] == w.out.texts[0] && Trim(w.out.first) != ""
    ensures w.fate.segments != [] && w.fate.segments[0] <= w.chain.built
    ensures var texts := [w.out.texts[0]];
      && Listed([w.out.first], files) == Some(texts) && Existing([w.out.first], files) == texts
      && JournalOf(texts, decode) == Some(w.fate.segments[0])
      && var result := Checked(Summary(texts, json, sha).WithDropped(0).WithTruncated(false),
                               texts, w.fate.segments[0], w.f, json, sha);
         result.complete && result.count == |w.fate.segments[0]|
  {
    hide Listed, Existing, Summary, Checked, Verified, Faithful, JournalOf, LogText, Keep, Journal.CapKept, Trim,
         Journal.Counted;
    VerifiedIsBuilt(w.chain.built, w.f);
    Journal.UntruncatedIsWhole(w.chain.built, w.fate, w.out.texts, w.c, w.maxBytes, w.rotateBytes, w.f);
    FirstFileIsFresh(w.chain.built, w.fate, w.out.texts, w.f, decode, json, sha);
    BlankPath(w.out.first);
    AllListed([w.out.first], [w.out.texts[0]], files);
    ListedExist([w.out.first], files);
  }

  /**
   * Under a root with a bracket the rotated journals are not found, and nobody notices:
   * of a run that lost nothing, the evidence is reported complete, though it holds no
   * more than the first journal.
   */
  method PersistUnderBracket(w: Journal.JournalWriter, dirs: Glob.Dirs, files: map<string, string>,
                             decode: string -> Option<JournalEvent>, json: string -> bool, sha: string -> string)
    returns (r: Option<Result>)
    requires w.Valid() && !w.broken && !w.c.truncated && Faithful(w.f, decode, json)
    requires Glob.Proper(dirs) && Trim(w.out.first) != ""
    requires Glob.HasBracket(SegmentNames.Dir(w.out.first)) && '*' !in SegmentNames.Dir(w.out.first)
    requires forall p :: p in Glob.Listing(dirs, SegmentNames.Pattern(w.out.first)) ==> p in w.out.paths[1..]
    requires w.out.first in files && files[w.out.first] == w.out.texts[0]
    ensures w.fate.segments != [] && w.fate.segments[0] <= w.chain.built
    ensures r.Some? && r.value.complete && r.value.count == |w.fate.segments[0]|
  {
    hide Listed, Existing, Summary, Checked, Faithful, JournalOf, Trim, Journal.Holds, Journal.Counted, Journal.CapKept,
         SegmentNames.Discovered, SegmentNames.Dir, SegmentNames.Pattern, SegmentNames.Stem, SegmentNames.Name,
         Glob.Listing;
    ShortEvidence(w, files, decode, json, sha);
    OnlyFirstFound(w.out, dirs);
    var record := Persist(w.out.first, dirs, files, 0, false, json, sha);
    r := Verify(record, files, w.f, decode, json, sha);
  }

  // -- When evidence is reported complete and whole -----------------------------------------------

  /** The rotated journals that there are, as the directory has them. */
  function Rotations(out: Journal.Files): nat
    requires out.Valid()
    reads out
  {
    |out.paths| - 1
  }

  /** The journals of a run are on disk. */
  ghost predicate OnDisk(out: Journal.Files, dirs: Glob.Dirs, files: map<string, string>)
    requires out.Valid()
    reads out
  {
    && Glob.Proper(dirs) && SegmentNames.Placed(out.first) && !Glob.HasMeta(SegmentNames.Base(out.first))
    && (forall i :: 0 <= i < |out.paths| ==> out.paths[i] in files && files[out.paths[i]] == out.texts[i])
    && var dir := SegmentNames.Dir(out.first);
       dir in dirs && forall i :: 1 <= i <= Rotations(out) ==>
         SegmentNames.Name(SegmentNames.Base(out.first), i) in dirs[dir]
  }

  /** None of the directories that the root matches as a pattern has a journal of another run. */
  ghost predicate NoStranger(out: Journal.Files, dirs: Glob.Dirs, d: string, name: string)
    requires out.Valid()
    reads out
  {
    d in SegmentNames.Homes(out.first, dirs) && d in dirs && name in dirs[d]
    && SegmentNames.Rotated(SegmentNames.Base(out.first), name) ==>
      d == SegmentNames.Dir(out.first)
      && exists i :: 1 <= i <= Rotations(out) && name == SegmentNames.Name(SegmentNames.Base(out.first), i)
  }

  /** Either all the journals are found or only the first, as the root matches itself as a pattern or does not. */
  lemma AllOrFirst(out: Journal.Files, dirs: Glob.Dirs, files: map<string, string>)
    requires out.Valid() && OnDisk(out, dirs, files) && Rotations(out) <= SegmentNames.LIMIT
    requires forall d, name :: NoStranger(out, dirs, d, name)
    ensures Trim(out.first) != ""
    ensures SegmentNames.Discovered(out.first, dirs)
      == if SegmentNames.Dir(out.first) in SegmentNames.Homes(out.first, dirs) then out.paths else [out.first]
  {
    hide SegmentNames.Homes, SegmentNames.Discovered, SegmentNames.Name, SegmentNames.Stem, SegmentNames.Rotated,
         SegmentNames.Dir, SegmentNames.Base, SegmentNames.Placed, Glob.HasMeta, Glob.Rooted, SegmentNames.Names,
         Glob.Proper, Trim;
    var n, dir := Rotations(out), SegmentNames.Dir(out.first);
    SegmentNames.TrimKeepsFirstOf(out.first);
    forall i | 1 <= i <= n ensures SegmentNames.Rotated(SegmentNames.Base(out.first),
      SegmentNames.Name(SegmentNames.Base(out.first), i)) {
      SegmentNames.NameLooksRotated(SegmentNames.Base(out.first), i);
    }
    forall d, name | Glob.Rooted(d) && '/' !in name
      ensures dir in SegmentNames.Homes(out.first, dirs) ==> SegmentNames.OwnOnly(out.first, dirs, n, d, name)
      ensures dir !in SegmentNames.Homes(out.first, dirs) ==> SegmentNames.OwnOnly(out.first, dirs, 0, d, name) {
      assert NoStranger(out, dirs, d, name);
    }
    SegmentNames.PatternDecides(out.first, dirs, n);
    SegmentNames.PatternDecides(out.first, dirs, 0);
    NoNames(out.first);
  }

  lemma NoNames(first: string)
    ensures [first] + SegmentNames.Names(SegmentNames.Stem(first), 0) == [first]
  {
  }

  /** Marked evidence is never reported complete. */
  lemma MarkedIsIncomplete(kept: EventEvidence, dropped: nat, truncated: bool, texts: seq<string>,
                           journal: seq<JournalEvent>, f: Format, json: string -> bool, sha: string -> string)
    ensures var r := Checked(kept.WithDropped(dropped).WithTruncated(truncated), texts, journal, f, json, sha);
      dropped > 0 || truncated ==> !r.complete
  {
  }

  /** What is read back of a run, and what is judged of it. */
  ghost predicate Judged(w: Journal.JournalWriter, dirs: Glob.Dirs, files: map<string, string>, dropped: nat,
                         truncated: bool, decode: string -> Option<JournalEvent>, json: string -> bool,
                         sha: string -> string)
    reads w, w.out, w.chain
  {
    var paths := SegmentNames.Discovered(w.out.first, dirs);
    && paths != [] && w.fate.segments != [] && Listed(paths, files) == Some(Existing(paths, files))
    && var texts := Existing(paths, files);
    && JournalOf(texts, decode).Some?
    && var r := Checked(Summary(texts, json, sha).WithDropped(dropped).WithTruncated(truncated), texts,
                        JournalOf(texts, decode).value, w.f, json, sha);
    && (r.complete <==> dropped == 0 && !truncated)
    && (r.complete ==>
          (r.count == |w.chain.built| <==>
             SegmentNames.Dir(w.out.first) in SegmentNames.Homes(w.out.first, dirs)
             || w.fate.segments[0] == w.chain.built))
  }

  lemma AllJudged(w: Journal.JournalWriter, dirs: Glob.Dirs, files: map<string, string>, dropped: nat, truncated: bool,
                  decode: string -> Option<JournalEvent>, json: string -> bool, sha: string -> string)
    requires w.Valid() && !w.broken && OnDisk(w.out, dirs, files) && Rotations(w.out) <= SegmentNames.LIMIT
    requires forall d, name :: NoStranger(w.out, dirs, d, name)
    requires Faithful(w.f, decode, json) && (w.c.truncated ==> truncated)
    requires SegmentNames.Dir(w.out.first) in SegmentNames.Homes(w.out.first, dirs)
    ensures Judged(w, dirs, files, dropped, truncated, decode, json, sha)
  {
    hide Listed, Existing, Summary, Checked, Keep, Verified, Faithful, JournalOf, NoneAfterDrop, Journal.CapKept,
         SegmentNames.Discovered, SegmentNames.Homes, SegmentNames.Dir, Trim, SegmentNames.Name, SegmentNames.Stem;
    AllOrFirst(w.out, dirs, files);
    forall i | 0 <= i < |w.out.paths| ensures w.out.paths[i] != "" {
      BlankPath(w.out.first);
      if i > 0 { NotBlank(SegmentNames.Stem(w.out.first), i); }
    }
    AllListed(w.out.paths, w.out.texts, files);
    ListedExist(w.out.paths, files);
    VerifiedIsBuilt(w.chain.built, w.f);
    FreshEvidence(w.chain.built, w.fate, w.out.texts, w.c, w.maxBytes, w.rotateBytes, dropped, truncated, w.f,
      decode, json, sha);
  }

  lemma FirstJudged(w: Journal.JournalWriter, dirs: Glob.Dirs, files: map<string, string>, dropped: nat,
                    truncated: bool, decode: string -> Option<JournalEvent>, json: string -> bool,
                    sha: string -> string)
    requires w.Valid() && !w.broken && OnDisk(w.out, dirs, files) && Rotations(w.out) <= SegmentNames.LIMIT
    requires forall d, name :: NoStranger(w.out, dirs, d, name)
    requires Faithful(w.f, decode, json) && (w.c.truncated ==> truncated)
    requires SegmentNames.Dir(w.out.first) !in SegmentNames.Homes(w.out.first, dirs)
    ensures Judged(w, dirs, files, dropped, truncated, decode, json, sha)
  {
    hide Listed, Existing, Summary, Checked, Keep, Verified, Faithful, JournalOf, NoneAfterDrop, Journal.CapKept,
         SegmentNames.Discovered, SegmentNames.Homes, SegmentNames.Dir, Trim, SegmentNames.Name, SegmentNames.Stem,
         Journal.Counted;
    AllOrFirst(w.out, dirs, files);
    BlankPath(w.out.first);
    var texts, first := [w.out.texts[0]], w.fate.segments[0];
    AllListed([w.out.first], texts, files);
    ListedExist([w.out.first], files);
    SegmentsRoundTrip([first], texts, w.f, decode, json);
    OneSegment(first);
    if dropped == 0 && !truncated {
      VerifiedIsBuilt(w.chain.built, w.f);
      Journal.UntruncatedIsWhole(w.chain.built, w.fate, w.out.texts, w.c, w.maxBytes, w.rotateBytes, w.f);
      FirstFileIsFresh(w.chain.built, w.fate, w.out.texts, w.f, decode, json, sha);
    } else {
      MarkedIsIncomplete(Summary(texts, json, sha), dropped, truncated, texts, first, w.f, json, sha);
    }
  }

  lemma OneSegment(first: seq<JournalEvent>)
    ensures Journal.Flat([first]) == first
  {
    assert Front([first]) == [] && [] + first == first;
  }

  /**
   * A whole run, from its adapter to the independent check. With no journal of another
   * run in the way and at most 999,999 rotations, the evidence is reported complete
   * exactly when nothing was dropped or marked; and it is then all that was offered if and
   * only if the root matches itself as a pattern or there is nothing behind the first file.
   */
  method JudgeRun(a: Journal.Adapter, dirs: Glob.Dirs, files: map<string, string>,
                  decode: string -> Option<JournalEvent>, json: string -> bool, sha: string -> string)
    returns (r: Option<Result>)
    requires a.Valid() && !a.writer.broken && Faithful(a.writer.f, decode, json)
    requires OnDisk(a.writer.out, dirs, files) && Rotations(a.writer.out) <= SegmentNames.LIMIT
    requires forall d, name :: NoStranger(a.writer.out, dirs, d, name)
    ensures r.Some? && (r.value.complete <==> a.dropped == 0 && !a.truncated)
    ensures r.value.complete ==> Payload(a.writer.chain.built) == a.offered
    ensures r.value.complete ==>
      (r.value.count == |a.offered| <==>
         SegmentNames.Dir(a.writer.out.first) in SegmentNames.Homes(a.writer.out.first, dirs)
         || (a.writer.fate.segments != [] && a.writer.fate.segments[0] == a.writer.chain.built))
  {
    hide Listed, Existing, Summary, Checked, Faithful, JournalOf, Trim, Journal.JournalWriter.Valid, OnDisk, NoStranger,
         SegmentNames.Discovered, SegmentNames.Dir, SegmentNames.Homes, Payload, Telemetry.AllValid;
    ghost var w := a.writer;
    Journal.Unmarked(a);
    AllOrFirst(w.out, dirs, files);
    if SegmentNames.Dir(w.out.first) in SegmentNames.Homes(w.out.first, dirs) {
      AllJudged(w, dirs, files, a.dropped, a.truncated, decode, json, sha);
    } else {
      FirstJudged(w, dirs, files, a.dropped, a.truncated, decode, json, sha);
    }
    var record := Persist(a.writer.out.first, dirs, files, a.dropped, a.truncated, json, sha);
    r := Verify(record, files, a.writer.f, decode, json, sha);
  }

  lemma {:induction false} DecodedOver(a: seq<string>, b: seq<string>, decode: string -> Option<JournalEvent>)
    ensures Decoded(a + b, decode) == match Decoded(a, decode)
      case None => None
      case Some(x) => match Decoded(b, decode) case None => None case Some(y) => Some(x + y)
  {
    if b == [] {
      assert a + b == a;
      if Decoded(a, decode).Some? { assert Decoded(a, decode).value + [] == Decoded(a, decode).value; }
    } else {
      assert Front(a + b) == a + Front(b) && Last(a + b) == Last(b);
      DecodedOver(a, Front(b), decode);
      if Decoded(a, decode).Some? && Decoded(Front(b), decode).Some? && decode(DropCR(Last(b))).Some? {
        var x, y, z := Decoded(a, decode).value, Decoded(Front(b), decode).value, decode(DropCR(Last(b))).value;
        assert (x + y) + [z] == x + (y + [z]);
      }
    }
  }

  lemma TokensOver(a: string, b: string)
    requires a == "" || Ended(a)
    ensures Tokens(a + b) == Tokens(a) + Tokens(b)
  {
    NoPieces();
    hide SplitBy;
    if a == "" {
      assert a + b == b && Tokens("") == [] && [] + Tokens(b) == Tokens(b);
    } else {
      var front := a[..|a| - 1];
      assert a == front + "\n" + "" && a + b == front + "\n" + b;
      LineEnds(front, "");
      LineEnds(front, b);
      var pieces := SplitBy(front, "\n");
      assert Front(pieces + [""]) == pieces;
      assert Front(pieces + SplitBy(b, "\n")) == pieces + Front(SplitBy(b, "\n"));
    }
  }

  lemma {:induction false} SoundEnds(text: string, json: string -> bool)
    requires Sound(text, json)
    ensures text == "" || Ended(text)
    decreases |text|
  {
    if text != "" {
      var line := NextLine(text);
      var rest := text[|line|..];
      SoundEnds(rest, json);
      assert rest != "" ==> rest[|rest| - 1] == text[|text| - 1];
      assert rest == "" ==> line == text;
    }
  }

  /** Where sound journals are cut makes no difference to the records read from them. */
  lemma {:induction false} CutsDoNotMatter(texts: seq<string>, decode: string -> Option<JournalEvent>,
                                           json: string -> bool)
    requires AllSound(texts, json)
    ensures JournalOf(texts, decode) == Decoded(Tokens(Concat(texts)), decode)
    ensures Concat(texts) == "" || Ended(Concat(texts))
  {
    hide Tokens, Decoded, Sound;
    if texts == [] {
      NothingDecoded(decode);
    } else {
      var front, last := Front(texts), Last(texts);
      assert forall i :: 0 <= i < |front| ==> front[i] == texts[i];
      CutsDoNotMatter(front, decode, json);
      Journal.ConcatOneMore(front, last);
      assert texts == front + [last];
      SoundEnds(last, json);
      TokensOver(Concat(front), last);
      DecodedOver(Tokens(Concat(front)), Tokens(last), decode);
      assert last != "" ==> (Concat(front) + last)[|Concat(front) + last| - 1] == last[|last| - 1];
      assert last == "" ==> Concat(front) + last == Concat(front);
    }
  }

  lemma NothingDecoded(decode: string -> Option<JournalEvent>)
    ensures Decoded(Tokens(""), decode) == Some([])
  {
    NoPieces();
  }

  /**
   * Evidence reported complete is the evidence that was recorded: with a digest
   * that separates texts, not a byte of the stream has changed, and the records
   * read now are those written then, however the stream is cut into files.
   */
  lemma CompleteMeansUntouched(recorded: seq<string>, now: seq<string>, journal: seq<JournalEvent>, kept: EventEvidence,
                               f: Format, decode: string -> Option<JournalEvent>, json: string -> bool,
                               sha: string -> string)
    requires recorded != [] && now != [] && forall s, t :: sha(s) == sha(t) ==> s == t
    requires kept.sha256 == Summary(recorded, json, sha).sha256 && AllSound(recorded, json)
    requires JournalOf(now, decode) == Some(journal) && Checked(kept, now, journal, f, json, sha).complete
    ensures Concat(now) == Concat(recorded) && JournalOf(recorded, decode) == Some(journal)
    ensures AllValid(Payload(journal), f) && journal == Build(Payload(journal), f)
  {
    hide Sound, Tokens, Decoded, JournalOf, Verified;
    CutsDoNotMatter(recorded, decode, json);
    CutsDoNotMatter(now, decode, json);
    VerifiedIsBuilt(journal, f);
  }
}
