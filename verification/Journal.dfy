// Writing the journal: a byte cap that drops events, and rotation by size.
module Journal {
  import opened Text
  import opened Tree
  import opened Telemetry
  import SegmentNames

  /** The records of all segments, one after the other. */
  function Flat(segments: seq<seq<JournalEvent>>): seq<JournalEvent> {
    if segments == [] then [] else Flat(Front(segments)) + Last(segments)
  }

  /** The counters of a writer. */
  datatype Counters = Counters(bytes: nat, fileBytes: nat, dropped: nat, truncated: bool)

  /** What each accepted event became, and which file holds it. */
  datatype Fate = Fate(kept: seq<bool>, segments: seq<seq<JournalEvent>>)

  /** The files hold exactly the records that were kept, segment by segment. */
  ghost predicate Holds(built: seq<JournalEvent>, fate: Fate, texts: seq<string>, f: Format) {
    && |fate.kept| == |built| && Flat(fate.segments) == Keep(built, fate.kept)
    && |texts| == |fate.segments| > 0
    && forall i :: 0 <= i < |texts| ==> texts[i] == LogText(fate.segments[i], f)
  }

  /** The counters are right, and the cap and the rotation size are respected. */
  ghost predicate Counted(fate: Fate, texts: seq<string>, c: Counters, maxBytes: nat, rotateBytes: nat) {
    && |texts| == |fate.segments| > 0
    && c.bytes == |Concat(texts)| && c.fileBytes == |Last(texts)|
    && c.dropped == Drops(fate.kept) && (c.truncated <==> c.dropped > 0)
    && (maxBytes > 0 ==> c.bytes <= maxBytes)
    && Sized(fate.segments, texts, rotateBytes)
  }

  /** Every segment fits the rotation size or holds one record, and none but the last may be empty. */
  ghost predicate Sized(segments: seq<seq<JournalEvent>>, texts: seq<string>, rotateBytes: nat) {
    && |texts| == |segments|
    && (rotateBytes > 0 ==> forall i :: 0 <= i < |texts| ==> |texts[i]| <= rotateBytes || |segments[i]| == 1)
    && forall i :: 0 <= i < |texts| - 1 ==> segments[i] != []
  }

  lemma KeepOneMore(built: seq<JournalEvent>, kept: seq<bool>, r: JournalEvent, k: bool)
    requires |built| == |kept|
    ensures Keep(built + [r], kept + [k]) == Keep(built, kept) + if k then [r] else []
    ensures Drops(kept + [k]) == Drops(kept) + if k then 0 else 1
  {
    assert Front(built + [r]) == built && Front(kept + [k]) == kept;
  }

  lemma ConcatOneMore(texts: seq<string>, text: string)
    ensures Concat(texts + [text]) == Concat(texts) + text
    ensures texts != [] ==> Concat(Front(texts) + [Last(texts) + text]) == Concat(texts) + text
  {
    ConcatOver(texts, [text]);
    ConcatOne(text);
    if texts != [] {
      var last := Last(texts);
      assert texts == Front(texts) + [last];
      ConcatOver(Front(texts), [last]);
      ConcatOver(Front(texts), [last + text]);
      ConcatOne(last);
      ConcatOne(last + text);
    }
  }

  lemma FlatOneMore(segments: seq<seq<JournalEvent>>, r: JournalEvent)
    requires segments != []
    ensures Flat(Front(segments) + [Last(segments) + [r]]) == Flat(segments) + [r]
    ensures Flat(segments + [[]]) == Flat(segments)
  {
    assert Front(Front(segments) + [Last(segments) + [r]]) == Front(segments);
    assert Front(segments + [[]]) == segments;
  }

  function Line(r: JournalEvent, f: Format): string { f.encode(r) + "\n" }

  lemma LogTextOneMore(segment: seq<JournalEvent>, r: JournalEvent, f: Format)
    ensures LogText(segment + [r], f) == LogText(segment, f) + Line(r, f)
  {
    assert Front(segment + [r]) == segment;
  }

  // -- The effect of each way an event can go

  function Dropping(fate: Fate): Fate { fate.(kept := fate.kept + [false]) }

  lemma DroppedHolds(built: seq<JournalEvent>, fate: Fate, texts: seq<string>, r: JournalEvent, f: Format)
    requires Holds(built, fate, texts, f)
    ensures Holds(built + [r], Dropping(fate), texts, f)
  {
    KeepOneMore(built, fate.kept, r, false);
  }

  lemma DroppedCounted(fate: Fate, texts: seq<string>, c: Counters, maxBytes: nat, rotateBytes: nat)
    requires Counted(fate, texts, c, maxBytes, rotateBytes)
    ensures Counted(Dropping(fate), texts, c.(dropped := c.dropped + 1, truncated := true), maxBytes, rotateBytes)
  {
    assert Front(fate.kept + [false]) == fate.kept;
  }

  function Rotating(fate: Fate): Fate { fate.(segments := fate.segments + [[]]) }

  lemma RotatedHolds(built: seq<JournalEvent>, fate: Fate, texts: seq<string>, f: Format)
    requires Holds(built, fate, texts, f)
    ensures Holds(built, Rotating(fate), texts + [""], f)
  {
    FlatNone(fate.segments);
  }

  lemma FlatNone(segments: seq<seq<JournalEvent>>)
    ensures Flat(segments + [[]]) == Flat(segments)
  {
    assert Front(segments + [[]]) == segments;
  }

  lemma RotatedCounted(fate: Fate, texts: seq<string>, c: Counters, maxBytes: nat, rotateBytes: nat, f: Format)
    requires Counted(fate, texts, c, maxBytes, rotateBytes) && c.fileBytes > 0
    requires Last(texts) == LogText(Last(fate.segments), f)
    ensures Counted(Rotating(fate), texts + [""], c.(fileBytes := 0), maxBytes, rotateBytes)
  {
    hide Drops, LogText, Concat;
    ConcatOneMore(texts, "");
    assert Concat(texts) + "" == Concat(texts);
    NotEmpty(Last(fate.segments), f);
    var more := Rotating(fate).segments;
    assert forall i :: 0 <= i < |texts| ==> more[i] == fate.segments[i] && (texts + [""])[i] == texts[i];
  }

  lemma NotEmpty(segment: seq<JournalEvent>, f: Format)
    ensures LogText(segment, f) == "" <==> segment == []
  {
  }

  function Writing(fate: Fate, r: JournalEvent): Fate
    requires fate.segments != []
  {
    Fate(fate.kept + [true], Front(fate.segments) + [Last(fate.segments) + [r]])
  }

  function Appended(texts: seq<string>, data: string): seq<string>
    requires texts != []
  {
    Front(texts) + [Last(texts) + data]
  }

  lemma WrittenHolds(built: seq<JournalEvent>, fate: Fate, texts: seq<string>, r: JournalEvent, f: Format)
    requires Holds(built, fate, texts, f)
    ensures Holds(built + [r], Writing(fate, r), Appended(texts, Line(r, f)), f)
  {
    KeepOneMore(built, fate.kept, r, true);
    FlatOneMore(fate.segments, r);
    LogTextOneMore(Last(fate.segments), r, f);
  }

  lemma WrittenSized(segments: seq<seq<JournalEvent>>, texts: seq<string>, rotateBytes: nat, r: JournalEvent,
                     data: string)
    requires Sized(segments, texts, rotateBytes) && segments != [] && (Last(texts) == "" <==> Last(segments) == [])
    requires rotateBytes > 0 && Last(texts) != "" ==> |Last(texts)| + |data| <= rotateBytes
    ensures Sized(Front(segments) + [Last(segments) + [r]], Appended(texts, data), rotateBytes)
  {
    var more, texts' := Front(segments) + [Last(segments) + [r]], Appended(texts, data);
    assert forall i :: 0 <= i < |texts| - 1 ==> more[i] == segments[i] && texts'[i] == texts[i];
    assert |Last(texts')| == |Last(texts)| + |data| && |Last(more)| == |Last(segments)| + 1;
  }

  lemma WrittenCounted(fate: Fate, texts: seq<string>, c: Counters, maxBytes: nat, rotateBytes: nat, r: JournalEvent,
                       f: Format)
    requires Counted(fate, texts, c, maxBytes, rotateBytes)
    requires Last(texts) == LogText(Last(fate.segments), f)
    requires maxBytes > 0 ==> c.bytes + |Line(r, f)| <= maxBytes
    requires rotateBytes > 0 && c.fileBytes > 0 ==> c.fileBytes + |Line(r, f)| <= rotateBytes
    ensures Counted(Writing(fate, r), Appended(texts, Line(r, f)),
      c.(bytes := c.bytes + |Line(r, f)|, fileBytes := c.fileBytes + |Line(r, f)|), maxBytes, rotateBytes)
  {
    hide Sized, Concat, LogText, Drops, Line;
    NotEmpty(Last(fate.segments), f);
    ConcatOneMore(texts, Line(r, f));
    KeptMore(fate.kept);
    WrittenSized(fate.segments, texts, rotateBytes, r, Line(r, f));
  }

  lemma KeptMore(kept: seq<bool>)
    ensures Drops(kept + [true]) == Drops(kept)
  {
    assert Front(kept + [true]) == kept;
  }

  // -- The writer ----------------------------------------------------------------------------

  /** The journal files of a run, as the telemetry adapter keeps them. */
  class Files {
    const first: string
    const stem: string
    var paths: seq<string>
    var texts: seq<string>
    var nextIndex: nat
    ghost var faults: nat  // rotations and writes that failed

    ghost predicate Valid()
      reads this
    {
      && stem == SegmentNames.Stem(first)
      && |texts| == nextIndex > 0 && paths == [first] + SegmentNames.Names(stem, nextIndex - 1)
    }

    constructor (first: string)
      ensures Valid() && texts == [""] && this.first == first && faults == 0
    {
      this.first := first;
      stem := SegmentNames.Stem(first);
      paths, texts, nextIndex, faults := [first], [""], 1, 0;
    }

    /** A call works exactly when nothing has failed since. */
    ghost predicate Works(before: nat, ok: bool)
      reads this`faults
    {
      before <= faults && (ok <==> faults == before)
    }

    /** rotate: close the current file and open the next one. */
    method Rotate() returns (ok: bool)
      requires Valid()
      modifies this
      ensures Valid() && texts == if ok then old(texts) + [""] else old(texts)
      ensures Works(old(faults), ok)
    {
      ok := *;
      if ok {
        paths := paths + [SegmentNames.Name(stem, nextIndex)];
        texts := texts + [""];
        nextIndex := nextIndex + 1;
      } else {
        faults := faults + 1;
      }
    }

    /** Write to the current file; a write that fails may have written a part. */
    method Write(data: string) returns (ok: bool)
      requires Valid()
      modifies this`texts, this`faults
      ensures Valid() && Works(old(faults), ok)
      ensures ok ==> texts == Appended(old(texts), data)
    {
      ok := *;
      var cut: int := *;
      texts := Appended(texts, if ok || !(0 <= cut <= |data|) then data else data[..cut]);
      if !ok { faults := faults + 1; }
    }
  }

  /** Does the cap leave room for a record? */
  predicate Fits(bytes: nat, data: string, maxBytes: nat) {
    maxBytes == 0 || bytes + |data| <= maxBytes
  }

  predicate Rotates(fileBytes: nat, data: string, rotateBytes: nat) {
    rotateBytes > 0 && fileBytes > 0 && fileBytes + |data| > rotateBytes
  }

  /** Which of the records a cap lets through, one after the other. */
  function CapKept(full: seq<JournalEvent>, cap: nat, f: Format): (r: seq<bool>)
    ensures |r| == |full|
  {
    if full == [] then []
    else
      var before, kept := Front(full), CapKept(Front(full), cap, f);
      kept + [Fits(|LogText(Keep(before, kept), f)|, Line(Last(full), f), cap)]
  }

  /** The next record is kept exactly when it fits behind the bytes written so far. */
  lemma CapNext(built: seq<JournalEvent>, fate: Fate, texts: seq<string>, c: Counters, maxBytes: nat, rotateBytes: nat,
                r: JournalEvent, f: Format)
    requires Holds(built, fate, texts, f) && Counted(fate, texts, c, maxBytes, rotateBytes)
    requires fate.kept == CapKept(built, maxBytes, f)
    ensures CapKept(built + [r], maxBytes, f) == fate.kept + [Fits(c.bytes, Line(r, f), maxBytes)]
  {
    assert Front(built + [r]) == built && Last(built + [r]) == r;
    hide Line, Fits;
    UntruncatedIsWhole(built, fate, texts, c, maxBytes, rotateBytes, f);
  }

  class JournalWriter {
    const f: Format
    const maxBytes: nat
    const rotateBytes: nat
    const chain: Chain
    const out: Files
    var c: Counters
    ghost var fate: Fate
    ghost var broken: bool  // a rotation or a write has failed

    ghost predicate Valid()
      reads this, chain, out
    {
      && chain.Valid() && chain.f == f && Agrees(chain.built)
      && (!broken ==> fate.kept == CapKept(chain.built, maxBytes, f))
    }

    constructor (f: Format, maxBytes: nat, rotateBytes: nat, out: Files)
      requires out.Valid() && out.texts == [""] && out.faults == 0
      ensures Valid() && !broken && fresh(chain) && chain.built == [] && this.out == out
      ensures this.f == f && this.maxBytes == maxBytes && this.rotateBytes == rotateBytes && !c.truncated
    {
      this.f := f;
      this.maxBytes := maxBytes;
      this.rotateBytes := rotateBytes;
      this.out := out;
      chain := new Chain(f);
      c := Counters(0, 0, 0, false);
      fate := Fate([], [[]]);
      broken := false;
      new;
      NothingWritten(f);
    }

    /** The files and the counters agree, unless something has failed. */
    ghost predicate Agrees(built: seq<JournalEvent>)
      reads this, out
    {
      && out.Valid() && (broken <==> out.faults > 0)
      && (!broken ==> Holds(built, fate, out.texts, f) && Counted(fate, out.texts, c, maxBytes, rotateBytes))
    }

    /** Go on to the next file when the current one is full. */
    method MakeRoom(data: string, ghost built: seq<JournalEvent>) returns (ok: bool)
      requires Agrees(built)
      modifies this`c, this`fate, this`broken, out
      ensures Agrees(built) && (broken <==> old(broken) || !ok) && out.Works(old(out.faults), ok)
      ensures ok ==> !Rotates(c.fileBytes, data, rotateBytes)
      ensures c == old(c).(fileBytes := c.fileBytes) && fate.kept == old(fate.kept)
      ensures ok ==> Concat(out.texts) == Concat(old(out.texts))
      ensures ok ==> |out.texts| == |old(out.texts)| + if Rotates(old(c.fileBytes), data, rotateBytes) then 1 else 0
    {
      hide Holds, Counted, Concat;
      if !Rotates(c.fileBytes, data, rotateBytes) { return true; }
      ok := out.Rotate();
      if !ok { broken := true; return; }
      ConcatOneMore(old(out.texts), "");
      assert Concat(old(out.texts)) + "" == Concat(old(out.texts));
      if !broken {
        Shapes(built, fate, old(out.texts), c, maxBytes, rotateBytes, f);
        RotatedHolds(built, fate, old(out.texts), f);
        RotatedCounted(fate, old(out.texts), c, maxBytes, rotateBytes, f);
      }
      fate := Rotating(fate);
      c := c.(fileBytes := 0);
    }

    /** Write one line to the current file. */
    method Put(r: JournalEvent, ghost built: seq<JournalEvent>) returns (ok: bool)
      requires Agrees(built)
      requires Fits(c.bytes, Line(r, f), maxBytes) && !Rotates(c.fileBytes, Line(r, f), rotateBytes)
      modifies this`c, this`fate, this`broken, out`texts, out`faults
      ensures Agrees(built + [r]) && (broken <==> old(broken) || !ok) && c.truncated == old(c.truncated)
      ensures out.Works(old(out.faults), ok)
      ensures !broken ==>
        fate.kept == old(fate.kept) + [true] && Concat(out.texts) == Concat(old(out.texts)) + Line(r, f)
      ensures !broken ==> |out.texts| == |old(out.texts)|
    {
      hide Holds, Counted, Concat, Line;
      var data := Line(r, f);
      ok := out.Write(data);
      if !ok { broken := true; return; }
      if !broken {
        Shapes(built, fate, old(out.texts), c, maxBytes, rotateBytes, f);
        WrittenHolds(built, fate, old(out.texts), r, f);
        WrittenCounted(fate, old(out.texts), c, maxBytes, rotateBytes, r, f);
        ConcatOneMore(old(out.texts), data);
        fate := Writing(fate, r);
      }
      c := c.(bytes := c.bytes + |data|, fileBytes := c.fileBytes + |data|);
    }

    /** Store one line, in the next file if the current one is full. */
    method Store(r: JournalEvent, ghost built: seq<JournalEvent>) returns (ok: bool)
      requires Agrees(built) && (maxBytes == 0 || c.bytes + |Line(r, f)| <= maxBytes)
      modifies this`c, this`fate, this`broken, out
      ensures Agrees(built + [r]) && (broken <==> old(broken) || !ok) && c.truncated == old(c.truncated)
      ensures out.Works(old(out.faults), ok)
      ensures !broken ==>
        fate.kept == old(fate.kept) + [true] && Concat(out.texts) == Concat(old(out.texts)) + Line(r, f)
      ensures !broken ==>
        |out.texts| == |old(out.texts)| + (
          if rotateBytes > 0 && old(c.fileBytes) > 0 && old(c.fileBytes) + |Line(r, f)| > rotateBytes then 1 else 0)
    {
      hide Holds, Counted, Concat, Line;
      ok := MakeRoom(Line(r, f), built);
      if !ok { return; }
      ok := Put(r, built);
    }

    /** A record that does not fit under the cap. */
    method Drop(r: JournalEvent, ghost built: seq<JournalEvent>)
      requires Agrees(built) && maxBytes > 0 && c.bytes + |Line(r, f)| > maxBytes
      modifies this`c, this`fate
      ensures Agrees(built + [r]) && fate.kept == old(fate.kept) + [false] && c.truncated
    {
      hide Holds, Counted;
      if !broken {
        DroppedHolds(built, fate, out.texts, r, f);
        DroppedCounted(fate, out.texts, c, maxBytes, rotateBytes);
      }
      c := c.(truncated := true, dropped := c.dropped + 1);
      fate := Dropping(fate);
    }

    /** Store a record, or drop it when it does not fit. */
    method Offer(r: JournalEvent, ghost built: seq<JournalEvent>) returns (ok: bool)
      requires Agrees(built)
      modifies this`c, this`fate, this`broken, out
      ensures Agrees(built + [r]) && (broken <==> old(broken) || !ok) && out.Works(old(out.faults), ok)
      ensures !broken ==>
        && fate.kept == old(fate.kept) + [Fits(old(c.bytes), Line(r, f), maxBytes)]
        && Concat(out.texts) == Concat(old(out.texts)) + if Fits(old(c.bytes), Line(r, f), maxBytes)
          then Line(r, f) else ""
      ensures c.truncated <==> old(c.truncated) || !Fits(old(c.bytes), Line(r, f), maxBytes)
    {
      hide Holds, Counted, Concat, Line;
      var data := Line(r, f);
      if !Fits(c.bytes, data, maxBytes) {
        Drop(r, built);
        assert Concat(out.texts) + "" == Concat(out.texts);
        return true;
      }
      ok := Store(r, built);
    }

    /**
     * Append: an event that is not valid is refused; one that does not fit under the
     * cap is dropped, though the chain has moved on; any other is stored.
     */
    method Append(e: Event) returns (ok: bool)
      requires Valid()
      modifies this`c, this`fate, this`broken, chain, out
      ensures Valid()
      ensures chain.built == if f.valid(e) then old(chain.built) + [Linked(old(chain.built), e, f)]
        else old(chain.built)
      ensures !f.valid(e) ==>
        && !ok && broken == old(broken) && fate == old(fate) && out.texts == old(out.texts) && c == old(c)
        && out.faults == old(out.faults)
      ensures f.valid(e) && !broken ==>
        && ok && var data := Line(Linked(old(chain.built), e, f), f);
        && fate.kept == old(fate.kept) + [Fits(old(c.bytes), data, maxBytes)]
        && Concat(out.texts) == Concat(old(out.texts)) + if Fits(old(c.bytes), data, maxBytes) then data else ""
      ensures broken <==> old(broken) || (f.valid(e) && !ok)
      ensures f.valid(e) ==> out.Works(old(out.faults), ok)
      ensures c.truncated <==>
        old(c.truncated) || (f.valid(e) && !Fits(old(c.bytes), Line(Linked(old(chain.built), e, f), f), maxBytes))
    {
      hide Holds, Counted, Concat, Line, CapKept, Fits;
      ghost var before := chain.built;
      var record := chain.Append(e);
      if record.None? { return false; }
      if !broken { CapNext(before, fate, out.texts, c, maxBytes, rotateBytes, record.value, f); }
      ok := Offer(record.value, before);
    }
  }

  lemma Shapes(built: seq<JournalEvent>, fate: Fate, texts: seq<string>, c: Counters, maxBytes: nat,
               rotateBytes: nat, f: Format)
    requires Holds(built, fate, texts, f) && Counted(fate, texts, c, maxBytes, rotateBytes)
    ensures |texts| == |fate.segments| > 0 && c.fileBytes == |Last(texts)|
      && Last(texts) == LogText(Last(fate.segments), f)
  {
  }

  lemma NothingWritten(f: Format)
    ensures Holds([], Fate([], [[]]), [""], f)
    ensures forall maxBytes, rotateBytes ::
      Counted(Fate([], [[]]), [""], Counters(0, 0, 0, false), maxBytes, rotateBytes)
  {
    var segments: seq<seq<JournalEvent>> := [[]];
    assert Front(segments) == [] && Last(segments) == [];
    assert Front([""]) == [] && Last([""]) == "";
  }

  lemma ValidOneMore(events: seq<Event>, e: Event, f: Format)
    ensures AllValid(events + [e], f) <==> AllValid(events, f) && f.valid(e)
  {
    assert (events + [e])[|events|] == e;
    assert forall i :: 0 <= i < |events| ==> (events + [e])[i] == events[i];
  }

  // -- The adapter ------------------------------------------------------------------------

  /** Evidence that is not marked has lost nothing of what was offered, and evidence that is has. */
  ghost predicate Told(marked: bool, broken: bool, capped: bool, built: seq<JournalEvent>, offered: seq<Event>,
                       f: Format) {
    && (!marked ==> !broken && !capped && Payload(built) == offered)
    && (marked ==> broken || capped || !AllValid(offered, f))
  }

  lemma ToldNext(marked: bool, broken: bool, capped: bool, built: seq<JournalEvent>, offered: seq<Event>, f: Format,
                 e: Event, ok: bool, nowBroken: bool, nowCapped: bool, nowBuilt: seq<JournalEvent>)
    requires Told(marked, broken, capped, built, offered, f) && (f.valid(e) || !ok)
    requires built == Build(Payload(built), f)
    requires nowBuilt == if f.valid(e) then built + [Linked(built, e, f)] else built
    requires (nowBroken <==> broken || (f.valid(e) && !ok)) && (capped ==> nowCapped)
    ensures Told(marked || !ok || nowCapped, nowBroken, nowCapped, nowBuilt, offered + [e], f)
  {
    hide Payload, Linked, AllValid, Build;
    BuildOneMore(built, e, f);
    ValidOneMore(offered, e, f);
  }

  /** The events offered are those of the two sources. */
  ghost predicate Sourced(offered: seq<Event>, sensed: seq<Event>, recorded: seq<Event>) {
    multiset(offered) == multiset(sensed) + multiset(recorded)
  }

  lemma SourcedNext(offered: seq<Event>, sensed: seq<Event>, recorded: seq<Event>, e: Event)
    requires Sourced(offered, sensed, recorded)
    ensures Sourced(offered + [e], sensed + [e], recorded) && Sourced(offered + [e], sensed, recorded + [e])
  {
  }

  lemma ChainIsBuilt(w: JournalWriter)
    requires w.Valid()
    ensures w.chain.built == Build(Payload(w.chain.built), w.f)
  {
  }

  /**
   * The sensor's side. The read loop hands the kernel's events to the writer and gives
   * up at the first failure; the proxy's decisions go on being recorded. Any failure, and
   * any event that the cap drops, marks the evidence truncated.
   */
  class Adapter {
    const writer: JournalWriter
    var truncated: bool
    var stopped: bool  // the read loop has given up
    var dropped: nat   // events the kernel could not deliver
    ghost var offered: seq<Event>
    ghost var sensed: seq<Event>    // those the read loop has read
    ghost var recorded: seq<Event>  // those the proxy has recorded

    /** The account of what was offered; failed says that a failure is still to be marked. */
    ghost predicate Accounts(failed: bool)
      reads this, writer, writer.chain, writer.out
    {
      && writer.Valid() && Sourced(offered, sensed, recorded) && (stopped ==> truncated)
      && Told(truncated || failed, writer.broken, writer.c.truncated, writer.chain.built, offered, writer.f)
    }

    ghost predicate Valid()
      reads this, writer, writer.chain, writer.out
    {
      Accounts(false)
    }

    constructor (writer: JournalWriter)
      requires writer.Valid() && !writer.broken && !writer.c.truncated && writer.chain.built == []
      ensures Valid() && !truncated && !stopped && offered == sensed == recorded == [] && this.writer == writer
    {
      this.writer := writer;
      truncated, stopped, dropped := false, false, 0;
      offered, sensed, recorded := [], [], [];
    }

    /** append: hand one event to the writer; a failure is for the caller to mark. */
    method Append(e: Event, ghost fromSensor: bool) returns (ok: bool)
      requires Valid()
      modifies this`truncated, this`offered, this`sensed, this`recorded
      modifies writer`c, writer`fate, writer`broken, writer.chain, writer.out
      ensures Accounts(!ok) && offered == old(offered) + [e] && (old(truncated) ==> truncated)
      ensures old(writer.out.faults) <= writer.out.faults
      ensures ok <==> writer.f.valid(e) && writer.out.faults == old(writer.out.faults)
      ensures sensed == (if fromSensor then old(sensed) + [e] else old(sensed))
      ensures recorded == (if fromSensor then old(recorded) else old(recorded) + [e]) && stopped == old(stopped)
    {
      hide Told, Sourced, Linked, Fits, Line, Concat, Build, Payload, AllValid, JournalWriter.Valid;
      ghost var before := writer.chain.built;
      ChainIsBuilt(writer);
      ok := writer.Append(e);
      ToldNext(truncated, old(writer.broken), old(writer.c.truncated), before, offered, writer.f,
               e, ok, writer.broken, writer.c.truncated, writer.chain.built);
      SourcedNext(offered, sensed, recorded, e);
      offered := offered + [e];
      if fromSensor { sensed := sensed + [e]; } else { recorded := recorded + [e]; }
      if ok && writer.c.truncated { truncated := true; }
    }

    /** markError. */
    method MarkError()
      requires Accounts(true)
      modifies this`truncated
      ensures Valid() && truncated
    {
      hide Sourced, Told, JournalWriter.Valid;
      truncated := true;
    }

    /** The read loop's end at a failure. */
    method GiveUp()
      requires Accounts(true)
      modifies this`truncated, this`stopped
      ensures Valid() && truncated && stopped
    {
      hide Sourced, Told, JournalWriter.Valid;
      truncated, stopped := true, true;
    }

    /** The proxy's audit of one decision. */
    method Audit(e: Event)
      requires Valid()
      modifies this`truncated, this`offered, this`sensed, this`recorded
      modifies writer`c, writer`fate, writer`broken, writer.chain, writer.out
      ensures Valid() && (old(truncated) ==> truncated) && old(writer.out.faults) <= writer.out.faults
      ensures sensed == old(sensed) && recorded == old(recorded) + [e] && stopped == old(stopped)
    {
      hide Accounts;
      var ok := Append(e, false);
      if !ok { MarkError(); }
    }

    /** Any number of decisions, one after the other. */
    method AuditAll(decisions: seq<Event>)
      requires Valid()
      modifies this`truncated, this`offered, this`sensed, this`recorded
      modifies writer`c, writer`fate, writer`broken, writer.chain, writer.out
      ensures Valid() && (old(truncated) ==> truncated) && old(writer.out.faults) <= writer.out.faults
      ensures sensed == old(sensed) && recorded == old(recorded) + decisions && stopped == old(stopped)
    {
      hide Accounts;
      for i := 0 to |decisions|
        invariant Valid() && (old(truncated) ==> truncated) && old(writer.out.faults) <= writer.out.faults
        invariant sensed == old(sensed) && recorded == old(recorded) + decisions[..i] && stopped == old(stopped)
      {
        Audit(decisions[i]);
      }
    }

    /** One event of the kernel: when it cannot be appended, the loop gives up. */
    method Read(e: Event)
      requires Valid() && !stopped
      modifies this`truncated, this`stopped, this`offered, this`sensed, this`recorded
      modifies writer`c, writer`fate, writer`broken, writer.chain, writer.out
      ensures Valid() && (old(truncated) ==> truncated) && old(writer.out.faults) <= writer.out.faults
      ensures sensed == old(sensed) + [e] && recorded == old(recorded)
      ensures stopped <==> !writer.f.valid(e) || writer.out.faults > old(writer.out.faults)
    {
      hide Accounts;
      var ok := Append(e, true);
      if !ok { GiveUp(); }
    }

    /**
     * readLoop: the events that the kernel delivers, with decisions of the proxy in
     * between, until there are no more or one cannot be appended.
     */
    method ReadLoop(ring: seq<Event>) returns (read: nat)
      requires Valid() && !stopped
      modifies this`truncated, this`stopped, this`offered, this`sensed, this`recorded
      modifies writer`c, writer`fate, writer`broken, writer.chain, writer.out
      ensures Valid() && (old(truncated) ==> truncated) && old(recorded) <= recorded
      ensures read <= |ring| && sensed == old(sensed) + ring[..read] && (stopped || read == |ring|)
      ensures stopped ==>
        truncated && read > 0 && (!writer.f.valid(ring[read - 1]) || writer.out.faults > old(writer.out.faults))
      ensures forall i :: 0 <= i < read ==> writer.f.valid(ring[i]) || (stopped && i == read - 1)
    {
      hide Accounts;
      read := 0;
      while read < |ring| && !stopped
        invariant Valid() && (old(truncated) ==> truncated) && old(recorded) <= recorded
        invariant read <= |ring| && sensed == old(sensed) + ring[..read] && old(writer.out.faults) <= writer.out.faults
        invariant stopped ==>
          read > 0 && (!writer.f.valid(ring[read - 1]) || writer.out.faults > old(writer.out.faults))
        invariant forall i :: 0 <= i < read ==> writer.f.valid(ring[i]) || (stopped && i == read - 1)
        decreases |ring| - read
      {
        var between: seq<Event> := *;
        AuditAll(between);
        Read(ring[read]);
        read := read + 1;
      }
      StoppedIsMarked();
    }

    lemma StoppedIsMarked()
      requires Valid()
      ensures stopped ==> truncated
    {
    }

    /** Close: what the kernel counted as dropped. */
    method Close(lost: nat)
      requires Valid()
      modifies this`dropped
      ensures Valid() && dropped == lost
    {
      hide Told, Sourced;
      dropped := lost;
    }
  }

  /** What an adapter's marks say. */
  lemma Unmarked(a: Adapter)
    requires a.Valid()
    ensures a.writer.Valid() && a.writer.out.Valid() && (a.writer.c.truncated ==> a.truncated)
    ensures |Payload(a.writer.chain.built)| == |a.writer.chain.built|
    ensures !a.truncated ==> Payload(a.writer.chain.built) == a.offered
  {
  }

  /**
   * Evidence that is not marked truncated holds every event that was offered, in
   * order, chained from the first, and nothing else.
   */
  lemma UntruncatedIsWhole(built: seq<JournalEvent>, fate: Fate, texts: seq<string>, c: Counters, maxBytes: nat,
                           rotateBytes: nat, f: Format)
    requires Holds(built, fate, texts, f) && Counted(fate, texts, c, maxBytes, rotateBytes)
    ensures |Keep(built, fate.kept)| + c.dropped == |built|
    ensures Concat(texts) == LogText(Keep(built, fate.kept), f)
    ensures !c.truncated <==> Keep(built, fate.kept) == built
  {
    KeepAndDrops(built, fate.kept);
    if Drops(fate.kept) == 0 { KeepAll(built, fate.kept); }
    WholeIsLog(fate.segments, texts, f);
  }

  lemma {:induction false} WholeIsLog(segments: seq<seq<JournalEvent>>, texts: seq<string>, f: Format)
    requires |texts| == |segments| && forall i :: 0 <= i < |texts| ==> texts[i] == LogText(segments[i], f)
    ensures Concat(texts) == LogText(Flat(segments), f)
  {
    if texts != [] {
      WholeIsLog(Front(segments), Front(texts), f);
      ConcatOneMore(Front(texts), Last(texts));
      assert texts == Front(texts) + [Last(texts)];
      TextOver(Flat(Front(segments)), Last(segments), f);
    }
  }

  // -- When a cap spoils the chain ------------------------------------------------------------

  /** How many records fit, from the first on. */
  function Room(full: seq<JournalEvent>, cap: nat, f: Format): (n: nat)
    ensures n <= |full|
  {
    if full == [] then 0
    else
      var n := Room(Front(full), cap, f);
      if n == |full| - 1 && Fits(|LogText(Front(full), f)|, Line(Last(full), f), cap) then |full| else n
  }

  /** No record behind the first that does not fit would fit in its place. */
  predicate NoneFitsLater(full: seq<JournalEvent>, cap: nat, f: Format) {
    var n := Room(full, cap, f);
    forall j :: n <= j < |full| ==> !Fits(|LogText(full[..n], f)|, Line(full[j], f), cap)
  }

  lemma RoomNext(full: seq<JournalEvent>, cap: nat, f: Format)
    requires full != []
    ensures var n := Room(Front(full), cap, f);
      var fits := Fits(|LogText(Front(full)[..n], f)|, Line(Last(full), f), cap);
      && Room(full, cap, f) == (if n == |full| - 1 && fits then |full| else n)
      && (NoneFitsLater(full, cap, f) <==> NoneFitsLater(Front(full), cap, f) && (n == |full| - 1 || !fits))
  {
    hide Fits, Line, LogText;
    var front := Front(full);
    var n := Room(front, cap, f);
    assert full == front + [Last(full)] && front[..n] == full[..n] && front[..|front|] == front;
    assert forall j :: 0 <= j < |front| ==> front[j] == full[j];
    assert full[|front|] == Last(full);
  }

  /** The cap keeps the records that fit from the first on; and no other, unless one fits later. */
  lemma {:induction false} CapKeeps(full: seq<JournalEvent>, cap: nat, f: Format)
    ensures NoneAfterDrop(CapKept(full, cap, f)) <==> NoneFitsLater(full, cap, f)
    ensures Drops(CapKept(full, cap, f)) == 0 <==> Room(full, cap, f) == |full|
    ensures NoneFitsLater(full, cap, f) ==> Keep(full, CapKept(full, cap, f)) == full[..Room(full, cap, f)]
  {
    if full != [] {
      CapKeeps(Front(full), cap, f);
      CapStep(full, cap, f);
    }
  }

  lemma CapStep(full: seq<JournalEvent>, cap: nat, f: Format)
    requires full != []
    requires var front := Front(full);
      && (NoneAfterDrop(CapKept(front, cap, f)) <==> NoneFitsLater(front, cap, f))
      && (Drops(CapKept(front, cap, f)) == 0 <==> Room(front, cap, f) == |front|)
      && (NoneFitsLater(front, cap, f) ==> Keep(front, CapKept(front, cap, f)) == front[..Room(front, cap, f)])
    ensures NoneAfterDrop(CapKept(full, cap, f)) <==> NoneFitsLater(full, cap, f)
    ensures Drops(CapKept(full, cap, f)) == 0 <==> Room(full, cap, f) == |full|
    ensures NoneFitsLater(full, cap, f) ==> Keep(full, CapKept(full, cap, f)) == full[..Room(full, cap, f)]
  {
    var front, kept := Front(full), CapKept(full, cap, f);
    var n, fits := Room(front, cap, f), Last(kept);
    CapLast(full, cap, f);
    hide Fits, Line, LogText, Room, NoneFitsLater, NoneAfterDrop, CapKept, Keep, Drops;
    RoomNext(full, cap, f);
    NoneAfterDropLast(kept);
    KeepStep(full, kept);
    AllKeptIsFine(front, cap, f);
    KeepsBeginning(full, n);
    if NoneFitsLater(front, cap, f) {
      assert fits <==> Fits(|LogText(front[..n], f)|, Line(Last(full), f), cap);
    }
  }

  lemma KeepsBeginning(full: seq<JournalEvent>, n: nat)
    requires full != [] && n < |full|
    ensures Front(full)[..n] == full[..n] && Front(full)[..|full| - 1] == Front(full)
    ensures full[..|full|] == full == Front(full) + [Last(full)]
  {
  }

  lemma CapLast(full: seq<JournalEvent>, cap: nat, f: Format)
    requires full != []
    ensures Front(CapKept(full, cap, f)) == CapKept(Front(full), cap, f)
    ensures var front := Front(full);
      Last(CapKept(full, cap, f)) == Fits(|LogText(Keep(front, CapKept(front, cap, f)), f)|, Line(Last(full), f), cap)
  {
  }

  lemma AllKeptIsFine(full: seq<JournalEvent>, cap: nat, f: Format)
    ensures Room(full, cap, f) == |full| ==> NoneFitsLater(full, cap, f)
  {
  }

  /**
   * Under a cap the persisted journal verifies exactly when, from the first record
   * that does not fit, none would fit in its place: a condition on the sizes of the
   * records and the cap.
   */
  lemma CapVerifies(full: seq<JournalEvent>, cap: nat, f: Format)
    requires Verified(full, f)
    ensures Verified(Keep(full, CapKept(full, cap, f)), f) <==> NoneFitsLater(full, cap, f)
  {
    CapKeeps(full, cap, f);
    KeptVerifies(full, CapKept(full, cap, f), f);
  }

  /** What a writer has persisted so far verifies exactly under that condition. */
  lemma WriterVerifies(w: JournalWriter)
    requires w.Valid() && !w.broken
    ensures Concat(w.out.texts) == LogText(Keep(w.chain.built, w.fate.kept), w.f)
    ensures Verified(Keep(w.chain.built, w.fate.kept), w.f) <==> NoneFitsLater(w.chain.built, w.maxBytes, w.f)
  {
    UntruncatedIsWhole(w.chain.built, w.fate, w.out.texts, w.c, w.maxBytes, w.rotateBytes, w.f);
    VerifiedIsBuilt(w.chain.built, w.f);
    CapVerifies(w.chain.built, w.maxBytes, w.f);
  }

  lemma CapMore(full: seq<JournalEvent>, r: JournalEvent, cap: nat, f: Format)
    ensures var kept := CapKept(full, cap, f);
      CapKept(full + [r], cap, f) == kept + [Fits(|LogText(Keep(full, kept), f)|, Line(r, f), cap)]
  {
    assert Front(full + [r]) == full && Last(full + [r]) == r;
  }

  lemma NothingKept(r: JournalEvent, f: Format)
    ensures CapKept([], 0, f) == [] && Keep([], []) == [] && Keep([r], [false]) == [] && |LogText([], f)| == 0
  {
  }

  /** A record longer than the cap, and then one that fits. */
  lemma CapOfTwo(r: JournalEvent, s: JournalEvent, cap: nat, f: Format)
    requires |Line(r, f)| > cap >= |Line(s, f)| && cap > 0
    ensures CapKept([r, s], cap, f) == [false, true]
  {
    NothingKept(r, f);
    CapMore([], r, cap, f);
    CapMore([r], s, cap, f);
    assert CapKept([], cap, f) == [];
    hide CapKept, Keep, LogText, Line;
    assert [] + [r] == [r] && [r] + [s] == [r, s];
  }

  lemma BuildTwo(e: Event, g: Event, f: Format)
    ensures var r := Linked([], e, f); Build([e, g], f) == [r, Linked([r], g, f)]
  {
    assert Front([e, g]) == [e] && Front([e]) == [] && Build([e], f) == [] + [Linked([], e, f)];
  }

  /**
   * A cap can leave a hole: a record longer than the cap is dropped, a later one
   * still fits, and what was persisted does not verify.
   */
  lemma ShortAfterLong(long: Event, short: Event, cap: nat, f: Format)
    requires f.valid(long) && f.valid(short)
    requires |Line(Linked([], long, f), f)| > cap >= |Line(Linked([Linked([], long, f)], short, f), f)|
    ensures var full := Build([long, short], f);
      CapKept(full, cap, f) == [false, true] && !Verified(Keep(full, [false, true]), f)
  {
    var r := Linked([], long, f);
    BuildTwo(long, short, f);
    assert |Line(Linked([r], short, f), f)| > 0;
    CapOfTwo(r, Linked([r], short, f), cap, f);
    BuiltVerifies([long, short], f);
    var kept := [false, true];
    KeptVerifies(Build([long, short], f), kept, f);
    assert kept[1] && !kept[0];
  }
}
