// The summary of a run's event journals that is kept in its record.
module RunStore {
  import opened Text
  import opened Tree

  datatype EventEvidence = EventEvidence(count: nat, bytes: nat, dropped: nat, truncated: bool, sha256: string,
    complete: bool)
  {
    function WithDropped(n: nat): (r: EventEvidence)
      ensures r.dropped == n && (r.complete <==> complete && n == 0)
    {
      this.(dropped := n, complete := if n > 0 then false else complete)
    }

    function WithTruncated(t: bool): (r: EventEvidence)
      ensures r.truncated == t && (r.complete <==> complete && !t)
    {
      this.(truncated := t, complete := if t then false else complete)
    }
  }

  /** The first line of some text, with its newline if it has one: Reader.ReadBytes('\n'). */
  function NextLine(s: string): (r: string)
    ensures |r| <= |s| && r == s[..|r|] && (s != "" ==> r != "")
  {
    if s == "" then ""
    else if s[0] == '\n' then "\n"
    else
      assert s == [s[0]] + s[1..];
      [s[0]] + NextLine(s[1..])
  }

  predicate Ended(line: string) {
    line != "" && line[|line| - 1] == '\n'
  }

  function Newlines(s: string): nat {
    if s == "" then 0 else (if s[0] == '\n' then 1 else 0) + Newlines(s[1..])
  }

  /** Every line ends and is valid. */
  predicate Sound(s: string, json: string -> bool)
    decreases |s|
  {
    s == "" || (
      var line := NextLine(s);
      Ended(line) && json(Trim(line)) && Sound(s[|line|..], json))
  }

  lemma {:induction false} NewlinesOver(a: string, b: string)
    ensures Newlines(a + b) == Newlines(a) + Newlines(b)
  {
    if a == "" {
      assert a + b == b;
    } else {
      assert (a + b)[1..] == a[1..] + b;
      NewlinesOver(a[1..], b);
    }
  }

  lemma {:induction false} NextLineNewlines(s: string)
    requires s != ""
    ensures var line := NextLine(s); Newlines(line) == if Ended(line) then 1 else 0
  {
    if s[0] != '\n' && |s| > 1 {
      NextLineNewlines(s[1..]);
      var line := NextLine(s);
      assert line[1..] == NextLine(s[1..]);
      assert line[|line| - 1] == NextLine(s[1..])[|line| - 2];
    }
  }

  lemma {:induction false} NextLineOver(a: string, b: string)
    requires a != "" && Ended(NextLine(a))
    ensures NextLine(a + b) == NextLine(a)
  {
    if a[0] != '\n' {
      assert (a + b)[1..] == a[1..] + b;
      var line := NextLine(a);
      assert line[1..] == NextLine(a[1..]);
      assert |line| > 1 ==> line[|line| - 1] == NextLine(a[1..])[|line| - 2];
      NextLineOver(a[1..], b);
    }
  }

  /** Text whose lines all end can be cut from what follows. */
  lemma {:induction false} SoundOver(a: string, b: string, json: string -> bool)
    requires a == "" || Ended(a)
    ensures Sound(a + b, json) <==> Sound(a, json) && Sound(b, json)
    decreases |a|
  {
    if a == "" {
      assert a + b == b;
    } else {
      EndedFirst(a);
      NextLineOver(a, b);
      var line := NextLine(a);
      var rest := a[|line|..];
      assert rest != "" ==> rest[|rest| - 1] == a[|a| - 1];
      assert (a + b)[|line|..] == rest + b;
      SoundOver(rest, b, json);
    }
  }

  lemma {:induction false} EndedFirst(a: string)
    requires Ended(a)
    ensures Ended(NextLine(a))
  {
    if a[0] != '\n' {
      assert a[1..][|a| - 2] == a[|a| - 1];
      EndedFirst(a[1..]);
      var line := NextLine(a);
      assert line[1..] == NextLine(a[1..]);
      assert line[|line| - 1] == NextLine(a[1..])[|line| - 2];
    }
  }

  predicate AllSound(texts: seq<string>, json: string -> bool) {
    forall i :: 0 <= i < |texts| ==> Sound(texts[i], json)
  }

  /** The summary of a list of journals: totals over the whole stream. */
  function Summary(texts: seq<string>, json: string -> bool, sha: string -> string): EventEvidence {
    EventEvidence(Newlines(Concat(texts)), |Concat(texts)|, 0, false, sha(Concat(texts)), AllSound(texts, json))
  }

  lemma LineByLine(rest: string, json: string -> bool)
    requires rest != ""
    ensures var line := NextLine(rest);
      var after := rest[|line|..];
      && line != "" && rest == line + after
      && Newlines(rest) == (if line[|line| - 1] == '\n' then 1 else 0) + Newlines(after)
      && (Sound(rest, json) <==> line[|line| - 1] == '\n' && json(Trim(line)) && Sound(after, json))
  {
    var line := NextLine(rest);
    NextLineNewlines(rest);
    NewlinesOver(line, rest[|line|..]);
    assert rest == line + rest[|line|..];
  }

  lemma NothingLeft(json: string -> bool)
    ensures Newlines("") == 0 && Sound("", json)
  {
  }

  /** One journal's lines, counted and fed to the digest one by one. */
  method Scan(text: string, json: string -> bool) returns (count: nat, bytes: nat, hashed: string, complete: bool)
    ensures count == Newlines(text) && bytes == |text| && hashed == text && (complete <==> Sound(text, json))
  {
    hide Newlines, Sound, Trim, NextLine;
    NothingLeft(json);
    count, bytes, hashed, complete := 0, 0, "", true;
    var rest := text;
    while rest != ""
      invariant text == hashed + rest && count + Newlines(rest) == Newlines(text) && bytes == |hashed|
      invariant complete && Sound(rest, json) <==> Sound(text, json)
      decreases |rest|
    {
      LineByLine(rest, json);
      var line := NextLine(rest);
      hashed := hashed + line;
      bytes := bytes + |line|;
      if line[|line| - 1] == '\n' {
        count := count + 1;
        if !json(Trim(line)) { complete := false; }
      } else {
        complete := false;
      }
      rest := rest[|line|..];
    }
  }

  /** The texts that exist, in order; a listed journal that is missing is skipped. */
  function Existing(paths: seq<string>, files: map<string, string>): seq<string> {
    if paths == [] then []
    else
      Existing(Front(paths), files)
      + (if Last(paths) != "" && Last(paths) in files then [files[Last(paths)]] else [])
  }

  /** SummarizeEventsPaths. */
  method Summarize(paths: seq<string>, files: map<string, string>, json: string -> bool, sha: string -> string)
    returns (e: EventEvidence)
    ensures paths != [] && paths != [""] ==> e == Summary(Existing(paths, files), json, sha)
    ensures paths == [] || paths == [""] ==> e == EventEvidence(0, 0, 0, false, "", true)
  {
    if |paths| == 0 || (|paths| == 1 && paths[0] == "") {
      return EventEvidence(0, 0, 0, false, "", true);
    }
    var hashed, count: nat, complete, totalBytes: nat := "", 0, true, 0;
    ghost var texts: seq<string> := [];
    for i := 0 to |paths|
      invariant texts == Existing(paths[..i], files)
      invariant hashed == Concat(texts) && count == Newlines(hashed) && totalBytes == |hashed|
      invariant complete <==> AllSound(texts, json)
    {
      assert Front(paths[..i + 1]) == paths[..i] && Last(paths[..i + 1]) == paths[i];
      assert texts + [] == texts;
      if paths[i] == "" || paths[i] !in files { continue; }
      var text := files[paths[i]];
      var n, b, h, c := Scan(text, json);
      ConcatOver(texts, [text]);
      ConcatOne(text);
      NewlinesOver(hashed, text);
      AllSoundMore(texts, text, json);
      texts := texts + [text];
      hashed, count, totalBytes, complete := hashed + h, count + n, totalBytes + b, complete && c;
    }
    assert paths[..|paths|] == paths;
    return EventEvidence(count, totalBytes, 0, false, sha(hashed), complete);
  }

  lemma AllSoundMore(texts: seq<string>, text: string, json: string -> bool)
    ensures AllSound(texts + [text], json) <==> AllSound(texts, json) && Sound(text, json)
  {
    assert (texts + [text])[|texts|] == text;
    assert forall i :: 0 <= i < |texts| ==> (texts + [text])[i] == texts[i];
  }

  /**
   * Rotation does not show: journals cut between lines have the summary of one
   * journal with the same text. Count, size and digest agree wherever it is cut.
   */
  lemma {:induction false} RotationDoesNotShow(texts: seq<string>, json: string -> bool, sha: string -> string)
    ensures var many, one := Summary(texts, json, sha), Summary([Concat(texts)], json, sha);
      && many.count == one.count && many.bytes == one.bytes && many.sha256 == one.sha256
      && ((forall i :: 0 <= i < |texts| ==> texts[i] == "" || Ended(texts[i])) ==> many == one)
  {
    ConcatOne(Concat(texts));
    if forall i :: 0 <= i < |texts| ==> texts[i] == "" || Ended(texts[i]) {
      SoundConcat(texts, json);
    }
  }

  lemma {:induction false} SoundConcat(texts: seq<string>, json: string -> bool)
    requires forall i :: 0 <= i < |texts| ==> texts[i] == "" || Ended(texts[i])
    ensures Sound(Concat(texts), json) <==> AllSound(texts, json)
  {
    if texts != [] {
      SoundConcat(texts[1..], json);
      SoundOver(texts[0], Concat(texts[1..]), json);
      assert texts == [texts[0]] + texts[1..];
      assert forall i :: 0 < i < |texts| ==> texts[i] == texts[1..][i - 1];
      assert forall i :: 0 <= i < |texts| - 1 ==> texts[1..][i] == texts[i + 1];
    }
  }
}
