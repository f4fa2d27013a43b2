// The hash chain of a run's events, and what may be missing from it.
module Telemetry {
  import opened Text
  import opened Tree

  /** A redacted event, as its JSON text. */
  type Event = string

  datatype JournalEvent = JournalEvent(event: Event, sequence: nat, previousHash: string, hash: string)

  /** Validation, the digest of an encoded record without its hash, and the JSON of a record. */
  datatype Format = Format(
    valid: Event -> bool,
    digest: (Event, nat, string) -> string,
    encode: JournalEvent -> string)

  /** Different records have different digests, and a digest is never empty. */
  ghost predicate Injective(f: Format) {
    && (forall e, n, p, e', n', p' :: f.digest(e, n, p) == f.digest(e', n', p') ==> e == e' && n == n' && p == p')
    && (forall e, n, p :: f.digest(e, n, p) != "")
  }

  function End(journal: seq<JournalEvent>): string {
    if journal == [] then "" else Last(journal).hash
  }

  /** The record that follows a journal. */
  function Linked(journal: seq<JournalEvent>, e: Event, f: Format): JournalEvent {
    JournalEvent(e, |journal| + 1, End(journal), f.digest(e, |journal| + 1, End(journal)))
  }

  function Build(events: seq<Event>, f: Format): (r: seq<JournalEvent>)
    ensures |r| == |events|
  {
    if events == [] then []
    else
      var front := Build(Front(events), f);
      front + [Linked(front, Last(events), f)]
  }

  function Payload(journal: seq<JournalEvent>): (r: seq<Event>)
    ensures |r| == |journal| && forall i :: 0 <= i < |r| ==> r[i] == journal[i].event
  {
    if journal == [] then [] else Payload(Front(journal)) + [Last(journal).event]
  }

  /** Chain.Append, one call after the other. */
  class Chain {
    const f: Format
    var next: nat
    var previous: string
    ghost var built: seq<JournalEvent>

    ghost predicate Valid()
      reads this
    {
      && next == |built| && previous == End(built)
      && built == Build(Payload(built), f) && AllValid(Payload(built), f)
    }

    constructor (f: Format)
      ensures Valid() && built == [] && this.f == f
    {
      this.f := f;
      next, previous, built := 0, "", [];
    }

    method Append(e: Event) returns (r: Option<JournalEvent>)
      requires Valid()
      modifies this
      ensures Valid() && (r.Some? <==> f.valid(e))
      ensures built == if r.Some? then old(built) + [r.value] else old(built)
      ensures r.Some? ==> r.value == Linked(old(built), e, f)
    {
      hide Build, Payload;
      if !f.valid(e) { return None; }
      var record := JournalEvent(e, next + 1, previous, f.digest(e, next + 1, previous));
      next := next + 1;
      previous := record.hash;
      BuildOneMore(built, e, f);
      built := built + [record];
      return Some(record);
    }
  }

  predicate AllValid(events: seq<Event>, f: Format) {
    forall i :: 0 <= i < |events| ==> f.valid(events[i])
  }

  lemma BuildOneMore(built: seq<JournalEvent>, e: Event, f: Format)
    requires built == Build(Payload(built), f)
    ensures var more := built + [Linked(built, e, f)];
      more == Build(Payload(more), f) && Payload(more) == Payload(built) + [e] && End(more) == Last(more).hash
  {
    var more := built + [Linked(built, e, f)];
    assert Front(more) == built;
    assert Front(Payload(built) + [e]) == Payload(built);
  }

  /** Sequence numbers without a gap, links that fit, and hashes that are right. */
  predicate Verified(journal: seq<JournalEvent>, f: Format) {
    journal == [] || (
      var front, last := Front(journal), Last(journal);
      && Verified(front, f)
      && f.valid(last.event) && last == Linked(front, last.event, f))
  }

  /** Verify. */
  method Verify(journal: seq<JournalEvent>, f: Format) returns (ok: bool)
    ensures ok <==> Verified(journal, f)
  {
    var next: nat, previous := 0, "";
    for i := 0 to |journal|
      invariant Verified(journal[..i], f) && next == i && previous == End(journal[..i])
    {
      var value := journal[i];
      var front := journal[..i];
      assert Front(journal[..i + 1]) == front && Last(journal[..i + 1]) == value;
      if !f.valid(value.event) || value.sequence != next + 1 || value.previousHash != previous
         || f.digest(value.event, value.sequence, value.previousHash) != value.hash {
        assert !Verified(journal[..i + 1], f);
        VerifiedPrefix(journal, i + 1, f);
        return false;
      }
      next := value.sequence;
      previous := value.hash;
    }
    assert journal[..|journal|] == journal;
    return true;
  }

  lemma {:induction false} VerifiedPrefix(journal: seq<JournalEvent>, n: nat, f: Format)
    requires n <= |journal|
    ensures Verified(journal, f) ==> Verified(journal[..n], f)
  {
    if n == |journal| {
      assert journal[..n] == journal;
    } else {
      VerifiedPrefix(Front(journal), n, f);
      assert Front(journal)[..n] == journal[..n];
    }
  }

  lemma BuildLast(events: seq<Event>, f: Format)
    requires events != []
    ensures var front := Build(Front(events), f); Build(events, f) == front + [Linked(front, Last(events), f)]
    ensures AllValid(events, f) <==> AllValid(Front(events), f) && f.valid(Last(events))
  {
    AllValidLast(events, f);
    hide AllValid;
  }

  lemma AllValidLast(events: seq<Event>, f: Format)
    requires events != []
    ensures AllValid(events, f) <==> AllValid(Front(events), f) && f.valid(Last(events))
  {
    var front := Front(events);
    assert forall i :: 0 <= i < |front| ==> front[i] == events[i];
    assert Last(events) == events[|front|];
  }

  lemma PayloadLast(journal: seq<JournalEvent>)
    requires journal != []
    ensures Payload(journal) == Payload(Front(journal)) + [Last(journal).event]
    ensures Front(Payload(journal)) == Payload(Front(journal)) && Last(Payload(journal)) == Last(journal).event
  {
  }

  lemma SameLast(journal: seq<JournalEvent>, built: seq<JournalEvent>, r: JournalEvent)
    requires journal != []
    ensures journal == built + [r] <==> Front(journal) == built && Last(journal) == r
  {
    assert journal == Front(journal) + [Last(journal)];
    assert Front(built + [r]) == built;
  }

  /** A journal verifies exactly when it is what Append builds from valid events. */
  lemma {:induction false} VerifiedIsBuilt(journal: seq<JournalEvent>, f: Format)
    ensures Verified(journal, f) <==> AllValid(Payload(journal), f) && journal == Build(Payload(journal), f)
  {
    if journal != [] {
      hide Build, Payload, Linked, AllValid;
      var front, last := Front(journal), Last(journal);
      VerifiedIsBuilt(front, f);
      PayloadLast(journal);
      BuildLast(Payload(journal), f);
      var built := Build(Payload(front), f);
      SameLast(journal, built, Linked(built, last.event, f));
    }
  }

  /** Whatever events were appended, the journal verifies. */
  lemma BuiltVerifies(events: seq<Event>, f: Format)
    requires AllValid(events, f)
    ensures Verified(Build(events, f), f) && Payload(Build(events, f)) == events
  {
    PayloadOfBuild(events, f);
    VerifiedIsBuilt(Build(events, f), f);
  }

  lemma {:induction false} PayloadOfBuild(events: seq<Event>, f: Format)
    ensures Payload(Build(events, f)) == events
  {
    if events != [] {
      PayloadOfBuild(Front(events), f);
      var front := Build(Front(events), f);
      assert Front(Build(events, f)) == front;
    }
  }

  /** The last hash commits to everything: two journals that verify and end alike are equal. */
  lemma {:induction false} SameEndSameJournal(a: seq<JournalEvent>, b: seq<JournalEvent>, f: Format)
    requires Injective(f) && Verified(a, f) && Verified(b, f) && End(a) == End(b)
    ensures a == b
  {
    if a != [] && b != [] {
      var x, y := Last(a), Last(b);
      assert f.digest(x.event, |a|, x.previousHash) == f.digest(y.event, |b|, y.previousHash);
      SameEndSameJournal(Front(a), Front(b), f);
      assert a == Front(a) + [x] && b == Front(b) + [y];
    }
  }

  // -- Records left out ---------------------------------------------------------------------

  /** The records that were kept. */
  function Keep(full: seq<JournalEvent>, kept: seq<bool>): seq<JournalEvent>
    requires |full| == |kept|
  {
    if full == [] then []
    else Keep(Front(full), Front(kept)) + if Last(kept) then [Last(full)] else []
  }

  function Drops(kept: seq<bool>): nat {
    if kept == [] then 0 else Drops(Front(kept)) + if Last(kept) then 0 else 1
  }

  /** Written and dropped make up what was accepted. */
  lemma {:induction false} KeepAndDrops(full: seq<JournalEvent>, kept: seq<bool>)
    requires |full| == |kept|
    ensures |Keep(full, kept)| + Drops(kept) == |full|
  {
    if full != [] { KeepAndDrops(Front(full), Front(kept)); }
  }

  lemma KeepStep(full: seq<JournalEvent>, kept: seq<bool>)
    requires |full| == |kept| && full != []
    ensures Keep(full, kept) == Keep(Front(full), Front(kept)) + if Last(kept) then [Last(full)] else []
    ensures Drops(kept) == Drops(Front(kept)) + if Last(kept) then 0 else 1
  {
  }

  lemma {:induction false} KeepAll(full: seq<JournalEvent>, kept: seq<bool>)
    requires |full| == |kept| && Drops(kept) == 0
    ensures Keep(full, kept) == full
  {
    if full != [] {
      KeepStep(full, kept);
      hide Keep, Drops;
      KeepAll(Front(full), Front(kept));
      assert full == Front(full) + [Last(full)];
    }
  }

  /** Nothing is kept after something was dropped. */
  predicate NoneAfterDrop(kept: seq<bool>) {
    forall i, j :: 0 <= i < j < |kept| && kept[j] ==> kept[i]
  }

  lemma {:induction false} NoDrops(kept: seq<bool>)
    ensures Drops(kept) == 0 <==> forall i :: 0 <= i < |kept| ==> kept[i]
  {
    if kept != [] {
      NoDrops(Front(kept));
      assert kept == Front(kept) + [Last(kept)];
      assert forall i :: 0 <= i < |Front(kept)| ==> Front(kept)[i] == kept[i];
    }
  }

  lemma NoneAfterDropLast(kept: seq<bool>)
    requires kept != []
    ensures NoneAfterDrop(kept) <==> NoneAfterDrop(Front(kept)) && (Last(kept) ==> Drops(Front(kept)) == 0)
  {
    var front := Front(kept);
    NoDrops(front);
    assert kept == front + [Last(kept)];
    assert forall i :: 0 <= i < |front| ==> front[i] == kept[i];
    assert NoneAfterDrop(kept) && Last(kept) ==> forall i :: 0 <= i < |front| ==> kept[i];
  }

  /**
   * What is left of a journal verifies exactly when nothing was written after a
   * drop, that is, when it is the journal's beginning.
   */
  lemma {:induction false} KeptVerifies(full: seq<JournalEvent>, kept: seq<bool>, f: Format)
    requires |full| == |kept| && Verified(full, f)
    ensures Verified(Keep(full, kept), f) <==> NoneAfterDrop(kept)
    ensures |Keep(full, kept)| <= |full| && (Keep(full, kept) == full[..|Keep(full, kept)|] <==> NoneAfterDrop(kept))
  {
    hide Drops, NoneAfterDrop;
    KeepAndDrops(full, kept);
    if full == [] {
      NothingDropped(kept);
    } else {
      var full', kept' := Front(full), Front(kept);
      var left', left := Keep(full', kept'), Keep(full, kept);
      KeptVerifies(full', kept', f);
      KeepAndDrops(full', kept');
      NoneAfterDropLast(kept);
      assert full == full' + [Last(full)];
      if !Last(kept) {
        assert left == left' && full[..|left|] == full'[..|left|];
      } else {
        KeptLast(full, left', f);
        if Drops(kept') == 0 { KeepAll(full', kept'); }
      }
    }
  }

  lemma NothingDropped(kept: seq<bool>)
    requires kept == []
    ensures NoneAfterDrop(kept)
  {
  }

  lemma KeptLast(full: seq<JournalEvent>, left: seq<JournalEvent>, f: Format)
    requires full != [] && Verified(full, f) && |left| < |full|
    ensures var more := left + [Last(full)];
      && (Verified(more, f) <==> Verified(left, f) && |left| == |full| - 1 && End(left) == End(Front(full)))
      && (more == full[..|more|] <==> left == full[..|left|] && |left| == |full| - 1)
  {
    var more, last := left + [Last(full)], Last(full);
    assert Front(more) == left && Last(more) == last;
    SequenceIsIndex(full, |full| - 1, f);
    SequenceIsIndex(full, |left|, f);
    assert full[..|more|] == full[..|left|] + [full[|left|]];
  }

  lemma {:induction false} SequenceIsIndex(journal: seq<JournalEvent>, i: nat, f: Format)
    requires Verified(journal, f) && i < |journal|
    ensures journal[i].sequence == i + 1
  {
    if i < |journal| - 1 { SequenceIsIndex(Front(journal), i, f); }
  }

  // -- The text of a journal --------------------------------------------------------------------

  function LogText(journal: seq<JournalEvent>, f: Format): string {
    if journal == [] then "" else LogText(Front(journal), f) + (f.encode(Last(journal)) + "\n")
  }

  lemma {:induction false} TextOver(a: seq<JournalEvent>, b: seq<JournalEvent>, f: Format)
    ensures LogText(a + b, f) == LogText(a, f) + LogText(b, f)
  {
    if b == [] {
      assert a + b == a;
    } else {
      assert Front(a + b) == a + Front(b) && Last(a + b) == Last(b);
      TextOver(a, Front(b), f);
    }
  }
}
