// Operator leases on runs: one protocol, kept in a JSON file or in SQLite.
module Session {
  import opened Text
  import opened Tree
  import Order

  datatype Lease = Lease(id: nat, runId: string, owner: string, created: int, updated: int, expires: int)

  datatype Action = Acquire | Heartbeat | Takeover | Release | Unsupported

  /** What fits into 64 bits, with a sign. */
  type Int64 = n: int | -0x8000_0000_0000_0000 <= n < 0x8000_0000_0000_0000

  datatype Request = Request(action: Action, runId: string, owner: string, ttl: Int64)

  const SECOND := 1_000_000_000
  const DEFAULT_TTL := 600 * SECOND
  const LONGEST_TTL := 86_400 * SECOND

  /** What is left of a product of 64-bit numbers. */
  function Wrap64(n: int): Int64 {
    (n + 0x8000_0000_0000_0000) % 0x1_0000_0000_0000_0000 - 0x8000_0000_0000_0000
  }

  /** How long a lease the request asks for, in nanoseconds. */
  function Ttl(request: Request): (span: int)
    ensures span > 0
    ensures 0 < request.ttl <= 9_223_372_036 ==> span == request.ttl * 1_000_000_000
    ensures -9_223_372_036 <= request.ttl <= 0 ==> span == 600_000_000_000
  {
    var asked := Wrap64(request.ttl * SECOND);
    if asked <= 0 then DEFAULT_TTL else asked
  }

  predicate Named(request: Request) {
    Trim(request.runId) != "" && Trim(request.owner) != ""
  }

  predicate Proper(request: Request)
    ensures -9_223_372_036 <= request.ttl <= 86_400 ==>
      (Proper(request) <==> Trim(request.runId) != "" && Trim(request.owner) != "")
    ensures 86_400 < request.ttl <= 9_223_372_036 ==> !Proper(request)
  {
    Named(request) && Ttl(request) <= LONGEST_TTL
  }

  /** The nanoseconds asked for, modulo 2 to the 64th. */
  function Nanoseconds(request: Request): nat {
    (request.ttl * 1_000_000_000) % 0x1_0000_0000_0000_0000
  }

  /**
   * What a request for any number of seconds comes to. It passes exactly if the
   * nanoseconds, modulo 2 to the 64th, are at most a day's or have their top bit set;
   * in the second case, and for zero, the lease is one of ten minutes.
   */
  lemma AnyTtl(request: Request)
    ensures var r := Nanoseconds(request);
      && (Proper(request) <==> Named(request) && (r <= 86_400_000_000_000 || r >= 0x8000_0000_0000_0000))
      && Ttl(request) == if 0 < r < 0x8000_0000_0000_0000 then r else 600_000_000_000
  {
    WrapMeans(request.ttl * 1_000_000_000);
    hide Wrap64;
  }

  lemma WrapMeans(n: int)
    ensures var r := n % 0x1_0000_0000_0000_0000;
      Wrap64(n) == if r < 0x8000_0000_0000_0000 then r else r - 0x1_0000_0000_0000_0000
  {
    var r, q := n % 0x1_0000_0000_0000_0000, n / 0x1_0000_0000_0000_0000;
    var m := n + 0x8000_0000_0000_0000;
    if r < 0x8000_0000_0000_0000 {
      Remainder(m, q, r + 0x8000_0000_0000_0000);
    } else {
      Remainder(m, q + 1, r - 0x8000_0000_0000_0000);
    }
  }

  lemma Remainder(m: int, q: int, r: int)
    requires m == q * 0x1_0000_0000_0000_0000 + r && 0 <= r < 0x1_0000_0000_0000_0000
    ensures m % 0x1_0000_0000_0000_0000 == r
  {
  }

  /** So the limit of a day fails for some very large numbers: the smallest, and one that is soon over. */
  lemma OverlongTtlPasses(request: Request)
    requires Named(request)
    ensures request.ttl == 9_223_372_037 ==> Proper(request) && Ttl(request) == 600_000_000_000
    ensures request.ttl == 18_446_744_074 ==> Proper(request) && Ttl(request) == 290_448_384
  {
    AnyTtl(request);
  }

  // -- The protocol ----------------------------------------------------------------------

  /** What both stores agree on: who holds a run, since when, until when. */
  datatype Holding = Holding(owner: string, updated: int, expires: int)

  /** What is left of a holding at some time. */
  function Still(h: Option<Holding>, t: int): Option<Holding> {
    if h.Some? && h.value.expires > t then h else None
  }

  function Held(request: Request, now: int): Holding {
    Holding(request.owner, now, now + Ttl(request))
  }

  /** The answer to a request, given the run's live holding: refused, or what the run's holding becomes. */
  function Decide(current: Option<Holding>, request: Request, now: int): Option<Option<Holding>> {
    if !Proper(request) then None
    else
      match request.action
      case Acquire => if current.Some? && current.value.owner != request.owner then None
        else Some(Some(Held(request, now)))
      case Heartbeat => if current.None? || current.value.owner != request.owner then None
        else Some(Some(Held(request, now)))
      case Takeover => Some(Some(Held(request, now)))
      case Release => if current.None? || current.value.owner != request.owner then None else Some(None)
      case Unsupported => None
  }

  /** A request that reached a store's disk, or a listing. */
  datatype Op = Asked(request: Request, now: int) | Listed(now: int)

  /** The holding of a run after a history. */
  function Ledger(history: seq<Op>, run: string): Option<Holding> {
    if history == [] then None
    else
      var before := Ledger(Front(history), run);
      var op := Last(history);
      if op.Listed? || op.request.runId != run then before
      else
        var answer := Decide(Still(before, op.now), op.request, op.now);
        if answer.None? then before else answer.value
  }

  predicate Granted(history: seq<Op>, request: Request, now: int) {
    Decide(Still(Ledger(history, request.runId), now), request, now).Some?
  }

  /** The clock never goes back. */
  predicate Ticking(history: seq<Op>) {
    forall i, j :: 0 <= i < j < |history| ==> history[i].now <= history[j].now
  }

  /** A time not before any operation. */
  predicate After(history: seq<Op>, t: int) {
    forall i :: 0 <= i < |history| ==> history[i].now <= t
  }

  lemma LedgerOneMore(history: seq<Op>, op: Op, run: string)
    ensures Ledger(history + [op], run) ==
      if op.Listed? || op.request.runId != run || !Granted(history, op.request, op.now) then Ledger(history, run)
      else Decide(Still(Ledger(history, run), op.now), op.request, op.now).value
  {
    assert Front(history + [op]) == history && Last(history + [op]) == op;
  }

  lemma TickingOneMore(history: seq<Op>, op: Op)
    requires Ticking(history) && After(history, op.now)
    ensures Ticking(history + [op])
    ensures forall t :: After(history + [op], t) <==> After(history, t) && op.now <= t
  {
    var more := history + [op];
    forall t ensures After(more, t) <==> After(history, t) && op.now <= t {
      assert more[|history|] == op;
      assert forall i :: 0 <= i < |history| ==> more[i] == history[i];
    }
  }

  // -- Ownership over a whole history ------------------------------------------------------

  function Owner(h: Option<Holding>): Option<string> {
    if h.None? then None else Some(h.value.owner)
  }

  /** At step k the run's holding ended or passed on: a takeover by another, a release by its owner, or expiry. */
  predicate EndsAt(history: seq<Op>, k: nat, run: string, owner: string)
    requires k < |history|
  {
    var held := Ledger(history[..k], run);
    history[k].Asked? && history[k].request.runId == run
    && Granted(history[..k], history[k].request, history[k].now)
    && ((history[k].request.action.Takeover? && history[k].request.owner != owner)
        || (history[k].request.action.Release? && history[k].request.owner == owner)
        || Still(held, history[k].now).None?)
  }

  lemma EndsInOneStep(history: seq<Op>, k: nat, run: string, owner: string)
    requires k < |history| && Owner(Ledger(history[..k], run)) == Some(owner)
    requires Owner(Ledger(history[..k + 1], run)) != Some(owner)
    ensures EndsAt(history, k, run, owner)
  {
    assert history[..k + 1] == history[..k] + [history[k]];
    hide Ledger;
    LedgerOneMore(history[..k], history[k], run);
  }

  /**
   * If a run's recorded owner is no longer the same, then in between someone else
   * took the run over, or the owner released it, or it was granted anew after the
   * owner's lease had expired.
   */
  lemma {:induction false} WhyOwnershipEnded(history: seq<Op>, i: nat, j: nat, run: string) returns (k: nat)
    requires i <= j <= |history| && Owner(Ledger(history[..i], run)).Some?
    requires Owner(Ledger(history[..j], run)) != Owner(Ledger(history[..i], run))
    ensures i <= k < j && EndsAt(history, k, run, Ledger(history[..i], run).value.owner)
  {
    hide Ledger, EndsAt;
    var owner := Ledger(history[..i], run).value.owner;
    if Owner(Ledger(history[..j - 1], run)) != Some(owner) {
      k := WhyOwnershipEnded(history, i, j - 1, run);
    } else {
      k := j - 1;
      EndsInOneStep(history, k, run, owner);
    }
  }

  /** Who holds a run live at some time. */
  function LiveOwner(history: seq<Op>, run: string, t: int): Option<string> {
    Owner(Still(Ledger(history, run), t))
  }

  /** A live lease passes to another owner in one step only by a granted takeover by that owner. */
  lemma OwnerChangesByTakeover(history: seq<Op>, op: Op, run: string)
    requires LiveOwner(history, run, op.now).Some?
    requires LiveOwner(history + [op], run, op.now).Some?
    requires LiveOwner(history + [op], run, op.now) != LiveOwner(history, run, op.now)
    ensures op.Asked? && op.request.action.Takeover? && op.request.runId == run
    ensures Some(op.request.owner) == LiveOwner(history + [op], run, op.now)
  {
    LedgerOneMore(history, op, run);
  }

  /** A live lease is gone after a step only by its owner's release; otherwise it lasts to its recorded expiry. */
  lemma LeaseEndsByRelease(history: seq<Op>, op: Op, run: string)
    requires LiveOwner(history, run, op.now).Some? && LiveOwner(history + [op], run, op.now).None?
    ensures op.Asked? && op.request.action.Release? && op.request.runId == run
    ensures Some(op.request.owner) == LiveOwner(history, run, op.now)
  {
    LedgerOneMore(history, op, run);
  }

  // -- A file of leases ------------------------------------------------------------------

  function HoldingOf(lease: Lease): Holding {
    Holding(lease.owner, lease.updated, lease.expires)
  }

  predicate Distinct(leases: seq<Lease>) {
    forall i, j :: 0 <= i < j < |leases| ==> leases[i].runId != leases[j].runId
  }

  /** The index of a run's lease, or -1. */
  function Find(leases: seq<Lease>, run: string): (i: int)
    ensures -1 <= i < |leases|
    ensures i >= 0 ==> leases[i].runId == run && forall j :: 0 <= j < i ==> leases[j].runId != run
    ensures i < 0 ==> forall j :: 0 <= j < |leases| ==> leases[j].runId != run
  {
    if leases == [] then -1
    else if leases[0].runId == run then 0
    else
      var i := Find(leases[1..], run);
      if i < 0 then -1 else i + 1
  }

  function HeldIn(leases: seq<Lease>, run: string): Option<Holding> {
    var i := Find(leases, run);
    if i < 0 then None else Some(HoldingOf(leases[i]))
  }

  lemma FoundAt(leases: seq<Lease>, i: nat)
    requires Distinct(leases) && i < |leases|
    ensures Find(leases, leases[i].runId) == i
  {
    var j := Find(leases, leases[i].runId);
  }

  /** The leases still running at some time: what listAt returns. */
  function LiveLeases(leases: seq<Lease>, now: int): seq<Lease> {
    if leases == [] then []
    else LiveLeases(Front(leases), now) + if Last(leases).expires > now then [Last(leases)] else []
  }

  lemma {:induction false} LiveMembers(leases: seq<Lease>, now: int)
    requires Distinct(leases)
    ensures Distinct(LiveLeases(leases, now))
    ensures forall x :: x in LiveLeases(leases, now) <==> x in leases && x.expires > now
  {
    if leases != [] {
      var front, last := Front(leases), Last(leases);
      assert leases == front + [last];
      assert forall i :: 0 <= i < |front| ==> front[i] == leases[i];
      LiveMembers(front, now);
      var live := LiveLeases(front, now);
      forall x | x in live ensures x.runId != last.runId {
        var i :| 0 <= i < |front| && front[i] == x;
        assert leases[i].runId != leases[|front|].runId;
      }
      hide LiveLeases;
      DistinctMore(live, last);
      assert live + [] == live;
    }
  }

  lemma DistinctMore(leases: seq<Lease>, last: Lease)
    requires Distinct(leases) && forall x :: x in leases ==> x.runId != last.runId
    ensures Distinct(leases + [last])
  {
    assert forall i :: 0 <= i < |leases| ==> leases[i] in leases;
  }

  lemma LiveHeld(leases: seq<Lease>, now: int, run: string)
    requires Distinct(leases)
    ensures HeldIn(LiveLeases(leases, now), run) == Still(HeldIn(leases, run), now)
  {
    LiveMembers(leases, now);
    var live := LiveLeases(leases, now);
    var i, j := Find(leases, run), Find(live, run);
    if j >= 0 {
      assert live[j] in leases;
      var k :| 0 <= k < |leases| && leases[k] == live[j];
      FoundAt(leases, k);
    }
    if i >= 0 && leases[i].expires > now {
      assert leases[i] in live;
    }
  }

  lemma HeldAfterUpdate(leases: seq<Lease>, i: nat, lease: Lease, run: string)
    requires Distinct(leases) && i < |leases| && leases[i].runId == lease.runId
    ensures Distinct(leases[i := lease])
    ensures HeldIn(leases[i := lease], run) == if run == lease.runId then Some(HoldingOf(lease))
      else HeldIn(leases, run)
  {
    var more := leases[i := lease];
    FoundAt(more, i);
    var k, j := Find(leases, run), Find(more, run);
    if k >= 0 { FoundAt(more, k); }
    if j >= 0 { FoundAt(leases, j); }
  }

  lemma HeldAfterAppend(leases: seq<Lease>, lease: Lease, run: string)
    requires Distinct(leases) && Find(leases, lease.runId) < 0
    ensures Distinct(leases + [lease])
    ensures HeldIn(leases + [lease], run) == if run == lease.runId then Some(HoldingOf(lease)) else HeldIn(leases, run)
  {
    var more := leases + [lease];
    FoundAt(more, |leases|);
    var k, j := Find(leases, run), Find(more, run);
    if k >= 0 { FoundAt(more, k); }
    if 0 <= j < |leases| { FoundAt(leases, j); }
  }

  function Without(leases: seq<Lease>, i: nat): seq<Lease>
    requires i < |leases|
  {
    leases[..i] + leases[i + 1..]
  }

  lemma WithoutAt(leases: seq<Lease>, i: nat)
    requires i < |leases|
    ensures var less := Without(leases, i);
      && |less| == |leases| - 1
      && (forall j :: 0 <= j < i ==> less[j] == leases[j])
      && (forall j :: i <= j < |less| ==> less[j] == leases[j + 1])
      && (forall j :: i < j < |leases| ==> leases[j] == less[j - 1])
  {
  }

  lemma DistinctWithout(leases: seq<Lease>, i: nat)
    requires Distinct(leases) && i < |leases|
    ensures Distinct(Without(leases, i))
    ensures forall j :: 0 <= j < |Without(leases, i)| ==> Without(leases, i)[j].runId != leases[i].runId
  {
    WithoutAt(leases, i);
    hide Without;
    var less := Without(leases, i);
    forall j, k | 0 <= j < k < |less| ensures less[j].runId != less[k].runId {
      assert less[j] == leases[if j < i then j else j + 1] && less[k] == leases[if k < i then k else k + 1];
    }
  }

  lemma HeldAfterRemove(leases: seq<Lease>, i: nat, run: string)
    requires Distinct(leases) && i < |leases|
    ensures Distinct(Without(leases, i))
    ensures HeldIn(Without(leases, i), run) == if run == leases[i].runId then None else HeldIn(leases, run)
  {
    var less := Without(leases, i);
    WithoutAt(leases, i);
    DistinctWithout(leases, i);
    hide Without, Distinct, Find;
    var k := Find(leases, run);
    if run == leases[i].runId || k < 0 {
      assert forall j :: 0 <= j < |less| ==> less[j].runId != run;
    } else if k < i {
      assert less[k] == leases[k];
      FoundAt(less, k);
    } else {
      assert less[k - 1] == leases[k];
      FoundAt(less, k - 1);
    }
  }

  /** A store shows, from now on, what the history says. */
  ghost predicate Shows(held: string -> Option<Holding>, history: seq<Op>) {
    Ticking(history) && forall run, t :: After(history, t) ==> Still(held(run), t) == Still(Ledger(history, run), t)
  }

  /** How a request ends. */
  datatype Answer = Refused | Failed | Given(lease: Lease)

  /** Dropping leases that have expired is not seen. */
  lemma ShowsLive(held: string -> Option<Holding>, live: string -> Option<Holding>, history: seq<Op>, now: int)
    requires Shows(held, history) && After(history, now)
    requires forall run :: live(run) == Still(held(run), now)
    ensures Shows(live, history + [Listed(now)])
  {
    TickingOneMore(history, Listed(now));
    forall run, t | After(history + [Listed(now)], t)
      ensures Still(live(run), t) == Still(Ledger(history + [Listed(now)], run), t)
    {
      LedgerOneMore(history, Listed(now), run);
      assert After(history, t) && now <= t;
    }
  }

  /** A granted request changes only its own run's holding. */
  lemma ShowsGranted(held: string -> Option<Holding>, after: string -> Option<Holding>, history: seq<Op>,
                     request: Request, now: int)
    requires Shows(held, history) && After(history, now) && Granted(history, request, now)
    requires forall run :: after(run) == if run == request.runId
      then Decide(Still(held(run), now), request, now).value else Still(held(run), now)
    ensures Shows(after, history + [Asked(request, now)])
  {
    var op := Asked(request, now);
    TickingOneMore(history, op);
    forall run, t | After(history + [op], t)
      ensures Still(after(run), t) == Still(Ledger(history + [op], run), t)
    {
      LedgerOneMore(history, op, run);
      assert After(history, t) && now <= t;
      assert Still(held(run), now) == Still(Ledger(history, run), now);
    }
  }

  lemma ShowsRefused(held: string -> Option<Holding>, history: seq<Op>, request: Request, now: int)
    requires Shows(held, history) && After(history, now) && !Granted(history, request, now)
    ensures Shows(held, history + [Asked(request, now)])
  {
    var op := Asked(request, now);
    TickingOneMore(history, op);
    forall run, t | After(history + [op], t)
      ensures Still(held(run), t) == Still(Ledger(history + [op], run), t)
    {
      LedgerOneMore(history, op, run);
      assert After(history, t);
    }
  }

  /** A granted lease lasts as long as was asked for, or ten minutes; nothing between a day and 292 years is granted. */
  ghost predicate TimeKept(request: Request, now: int, lease: Lease) {
    && !(86_400 < request.ttl <= 9_223_372_036)
    && (!request.action.Release? ==>
          && lease.updated == now
          && (0 < request.ttl <= 86_400 ==> lease.expires == now + request.ttl * 1_000_000_000)
          && (-9_223_372_036 <= request.ttl <= 0 ==> lease.expires == now + 600_000_000_000))
  }

  // -- The JSON store ------------------------------------------------------------------------

  /** The holdings a list of leases shows. */
  function Shown(leases: seq<Lease>): string -> Option<Holding> {
    run => HeldIn(leases, run)
  }

  class Store {
    var leases: seq<Lease>  // the file
    var minted: nat         // IDs handed out so far
    ghost var history: seq<Op>
    ghost var faults: nat   // locks not got and writes that failed

    ghost predicate Valid()
      reads this
    {
      && Distinct(leases) && Shows(Shown(leases), history)
      && forall i :: 0 <= i < |leases| ==> leases[i].id < minted
    }

    constructor ()
      ensures Valid() && history == [] && faults == 0
    {
      leases, minted, history, faults := [], 0, [], 0;
    }

    /** listAt. */
    method ListAt(now: int) returns (filtered: seq<Lease>)
      ensures filtered == LiveLeases(leases, now)
    {
      filtered := [];
      for i := 0 to |leases|
        invariant filtered == LiveLeases(leases[..i], now)
      {
        assert Front(leases[..i + 1]) == leases[..i] && Last(leases[..i + 1]) == leases[i];
        if leases[i].expires > now { filtered := filtered + [leases[i]]; }
      }
      assert leases[..|leases|] == leases;
    }

    /** List: what is live now; the file stays as it is. */
    method List(now: int) returns (r: seq<Lease>)
      requires Valid() && After(history, now)
      modifies this`history
      ensures Valid() && history == old(history) + [Listed(now)]
      ensures Distinct(r) && forall x :: x in r <==> x in leases && x.expires > now
      ensures forall run :: HeldIn(r, run) == Still(Ledger(history, run), now)
    {
      hide Shows;
      r := ListAt(now);
      LiveMembers(leases, now);
      forall run ensures HeldIn(r, run) == Still(HeldIn(leases, run), now) { LiveHeld(leases, now, run); }
      ShowsListed(Shown(leases), history, now);
      history := history + [Listed(now)];
      ShownNow(Shown(leases), history, now);
    }

    /** The index of a run's lease among the live ones, or -1. */
    method IndexOf(live: seq<Lease>, run: string) returns (index: int)
      requires Distinct(live)
      ensures index == Find(live, run)
    {
      for i := 0 to |live|
        invariant forall j :: 0 <= j < i ==> live[j].runId != run
      {
        if live[i].runId == run {
          FoundAt(live, i);
          return i;
        }
      }
      return -1;
    }

    /** A new lease, under an ID that has not been used. */
    method Mint(request: Request, now: int) returns (lease: Lease)
      modifies this`minted
      ensures lease == Lease(old(minted), request.runId, request.owner, now, now, now + Ttl(request))
      ensures minted == old(minted) + 1
    {
      lease := Lease(minted, request.runId, request.owner, now, now, now + Ttl(request));
      minted := minted + 1;
    }

    /** The list of leases that a request asks for, or None when it is refused. */
    method Change(live: seq<Lease>, request: Request, now: int) returns (updated: Option<seq<Lease>>, lease: Lease)
      requires Distinct(live) && Proper(request) && forall i :: 0 <= i < |live| ==> live[i].id < minted
      modifies this`minted
      ensures minted >= old(minted)
      ensures updated.Some? <==> Decide(HeldIn(live, request.runId), request, now).Some?
      ensures updated.Some? ==>
        && Distinct(updated.value) && (forall i :: 0 <= i < |updated.value| ==> updated.value[i].id < minted)
        && ChangesTo(Shown(live), Shown(updated.value), request, now)
      ensures updated.Some? ==> JsonLease(live, lease, request, now, old(minted)) && TimeKept(request, now, lease)
    {
      hide HeldIn;
      var index := IndexOf(live, request.runId);
      HeldAt(live, request.runId);
      lease := Lease(0, "", "", 0, 0, 0);
      match request.action
      case Acquire =>
        if index >= 0 && live[index].owner != request.owner { return None, lease; }
        if index >= 0 {
          lease := live[index].(updated := now, expires := now + Ttl(request));
          updated := Some(live[index := lease]);
          UpdateChanges(live, index, lease, request, now);
        } else {
          lease := Mint(request, now);
          updated := Some(live + [lease]);
          AppendChanges(live, lease, request, now);
        }
      case Heartbeat =>
        if index < 0 || live[index].owner != request.owner { return None, lease; }
        lease := live[index].(updated := now, expires := now + Ttl(request));
        updated := Some(live[index := lease]);
        UpdateChanges(live, index, lease, request, now);
      case Takeover =>
        lease := Mint(request, now);
        if index >= 0 {
          updated := Some(live[index := lease]);
          UpdateChanges(live, index, lease, request, now);
        } else {
          updated := Some(live + [lease]);
          AppendChanges(live, lease, request, now);
        }
      case Release =>
        if index < 0 || live[index].owner != request.owner { return None, lease; }
        lease := live[index];
        updated := Some(Without(live, index));
        RemoveChanges(live, index, request, now);
      case Unsupported =>
        return None, lease;
    }

    /** Apply. */
    method Apply(request: Request, now: int) returns (answer: Answer)
      requires Valid() && After(history, now)
      modifies this
      ensures Valid()
      ensures old(faults) <= faults && (answer.Failed? <==> faults > old(faults))
      ensures answer.Failed? ==> leases == old(leases) && history == old(history) && Proper(request)
      ensures !answer.Failed? ==> history == old(history) + [Asked(request, now)]
      ensures !answer.Failed? ==> (answer.Given? <==> Granted(old(history), request, now))
      ensures answer.Refused? ==> leases == old(leases)
      ensures answer.Given? ==> TimeKept(request, now, answer.lease)
      ensures answer.Given? ==> JsonLease(LiveLeases(old(leases), now), answer.lease, request, now, old(minted))
    {
      hide Shows, HeldIn, LiveLeases, JsonLease, TimeKept, Proper, Ledger;
      ShownNow(Shown(leases), history, now);
      if !Proper(request) {
        ShowsRefused(Shown(leases), history, request, now);
        history := history + [Asked(request, now)];
        return Refused;
      }
      var locked := Lock();
      if !locked { return Failed; }
      var live := ListAt(now);
      LiveMembers(leases, now);
      LiveShown(leases, now);
      var updated, lease := Change(live, request, now);
      if updated.None? {
        ShowsRefused(Shown(leases), history, request, now);
        history := history + [Asked(request, now)];
        return Refused;
      }
      ShowsGranted(Shown(leases), Shown(updated.value), history, request, now);
      var written := Write(updated.value);
      if !written { return Failed; }
      history := history + [Asked(request, now)];
      return Given(lease);
    }

    /** Lock the file, if that works. */
    method Lock() returns (ok: bool)
      modifies this`faults
      ensures old(faults) <= faults && (ok <==> faults == old(faults))
    {
      ok := *;
      if !ok { faults := faults + 1; }
    }

    /** Put the new list of leases in place of the file, if that works. */
    method Write(updated: seq<Lease>) returns (ok: bool)
      modifies this`leases, this`faults
      ensures leases == if ok then updated else old(leases)
      ensures old(faults) <= faults && (ok <==> faults == old(faults))
    {
      ok := *;
      if ok { leases := updated; } else { faults := faults + 1; }
    }
  }

  /** The answer to a request, as a change of all holdings. */
  ghost predicate ChangesTo(before: string -> Option<Holding>, after: string -> Option<Holding>, request: Request,
                            now: int) {
    && Decide(before(request.runId), request, now).Some?
    && forall run :: after(run) == if run == request.runId then Decide(before(request.runId), request, now).value
      else before(run)
  }

  /** The lease the JSON store answers with: only a takeover, or the first acquire, gets a new ID. */
  predicate JsonLease(live: seq<Lease>, lease: Lease, request: Request, now: int, minted: nat) {
    var i := Find(live, request.runId);
    && lease.runId == request.runId
    && (request.action.Release? ==> i >= 0 && lease == live[i])
    && (!request.action.Release? ==> HoldingOf(lease) == Held(request, now))
    && (if i >= 0 && !request.action.Takeover? then lease.id == live[i].id && lease.created == live[i].created
        else lease.id == minted && lease.created == now)
  }

  lemma HeldAt(leases: seq<Lease>, run: string)
    ensures var i := Find(leases, run); HeldIn(leases, run) == if i < 0 then None else Some(HoldingOf(leases[i]))
  {
  }

  lemma LiveShown(leases: seq<Lease>, now: int)
    requires Distinct(leases)
    ensures forall run :: Shown(LiveLeases(leases, now))(run) == Still(Shown(leases)(run), now)
  {
    forall run ensures HeldIn(LiveLeases(leases, now), run) == Still(HeldIn(leases, run), now) {
      LiveHeld(leases, now, run);
    }
  }

  /** The lease of a granted request keeps its time. */
  lemma JustGranted(request: Request, now: int, lease: Lease)
    requires Proper(request) && (request.action.Release? || HoldingOf(lease) == Held(request, now))
    ensures TimeKept(request, now, lease)
  {
    hide Proper, Ttl;
  }

  lemma UpdateChanges(live: seq<Lease>, i: nat, lease: Lease, request: Request, now: int)
    requires Distinct(live) && i < |live| && live[i].runId == lease.runId == request.runId
      && HoldingOf(lease) == Held(request, now)
    requires Decide(HeldIn(live, request.runId), request, now) == Some(Some(Held(request, now)))
    ensures Distinct(live[i := lease]) && ChangesTo(Shown(live), Shown(live[i := lease]), request, now)
    ensures TimeKept(request, now, lease)
  {
    JustGranted(request, now, lease);
    forall run { HeldAfterUpdate(live, i, lease, run); }
  }

  lemma AppendChanges(live: seq<Lease>, lease: Lease, request: Request, now: int)
    requires Distinct(live) && Find(live, lease.runId) < 0 && lease.runId == request.runId
      && HoldingOf(lease) == Held(request, now)
    requires Decide(HeldIn(live, request.runId), request, now) == Some(Some(Held(request, now)))
    ensures Distinct(live + [lease]) && ChangesTo(Shown(live), Shown(live + [lease]), request, now)
    ensures TimeKept(request, now, lease)
  {
    JustGranted(request, now, lease);
    forall run { HeldAfterAppend(live, lease, run); }
  }

  lemma RemoveChanges(live: seq<Lease>, i: nat, request: Request, now: int)
    requires Distinct(live) && i < |live| && live[i].runId == request.runId
    requires Decide(HeldIn(live, request.runId), request, now) == Some(None)
    ensures Distinct(Without(live, i)) && ChangesTo(Shown(live), Shown(Without(live, i)), request, now)
    ensures TimeKept(request, now, live[i])
  {
    forall run { HeldAfterRemove(live, i, run); }
  }

  /** Listing is not seen either. */
  lemma ShowsListed(held: string -> Option<Holding>, history: seq<Op>, now: int)
    requires Shows(held, history) && After(history, now)
    ensures Shows(held, history + [Listed(now)]) && After(history + [Listed(now)], now)
  {
    TickingOneMore(history, Listed(now));
    forall run, t | After(history + [Listed(now)], t)
      ensures Still(held(run), t) == Still(Ledger(history + [Listed(now)], run), t)
    {
      LedgerOneMore(history, Listed(now), run);
      assert After(history, t);
    }
  }

  lemma ShownNow(held: string -> Option<Holding>, history: seq<Op>, now: int)
    requires Shows(held, history) && After(history, now)
    ensures forall run :: Still(held(run), now) == Still(Ledger(history, run), now)
  {
  }

  // -- The SQLite store --------------------------------------------------------------------

  /** The lease the SQLite store answers with: a heartbeat, too, gets a new ID and creation time. */
  predicate SqlLease(live: seq<Lease>, lease: Lease, request: Request, now: int, minted: nat) {
    var i := Find(live, request.runId);
    && lease.runId == request.runId
    && (request.action.Release? ==> i >= 0 && lease == live[i])
    && (!request.action.Release? ==> HoldingOf(lease) == Held(request, now))
    && (if request.action.Release? || (i >= 0 && request.action.Acquire?) then
          i >= 0 && lease.id == live[i].id && lease.created == live[i].created
        else lease.id == minted && lease.created == now)
  }

  const ByCreation := (a: Lease, b: Lease) => a.created < b.created

  function CreationOrder(rows: seq<Lease>): (r: seq<Lease>)
    ensures multiset(r) == multiset(rows)
    ensures forall x :: x in r <==> x in rows
    ensures forall i, j :: 0 <= i < j < |r| ==> r[i].created <= r[j].created
  {
    assert Order.Ordering(ByCreation);
    Order.SortMembers(rows, ByCreation);
    var r := Order.Sort(rows, ByCreation);
    assert forall i, j :: 0 <= i < j < |r| ==> !ByCreation(r[j], r[i]);
    r
  }

  /** Sorting keeps one lease per run. */
  lemma StillDistinct(rows: seq<Lease>, r: seq<Lease>)
    requires Distinct(rows) && multiset(r) == multiset(rows)
    ensures Distinct(r)
  {
    forall i, j | 0 <= i < j < |r| ensures r[i].runId != r[j].runId {
      if r[i].runId == r[j].runId {
        assert r[i] in multiset(rows) && r[j] in multiset(rows);
        var a :| 0 <= a < |rows| && rows[a] == r[i];
        var b :| 0 <= b < |rows| && rows[b] == r[j];
        assert a == b;
        Order.Twice(r, i, j);
        Order.Once(rows, a);
      }
    }
  }

  class SQLiteStore {
    var rows: seq<Lease>  // the lease table; run_id is unique
    var minted: nat
    ghost var history: seq<Op>
    ghost var faults: nat // transactions that could not be begun or committed

    ghost predicate Valid()
      reads this
    {
      && Distinct(rows) && Shows(Shown(rows), history)
      && forall i :: 0 <= i < |rows| ==> rows[i].id < minted
    }

    constructor ()
      ensures Valid() && history == [] && faults == 0
    {
      rows, minted, history, faults := [], 0, [], 0;
    }

    /** DELETE FROM leases WHERE expires_at <= now, on the rows a transaction sees. */
    method DeleteExpired(seen: seq<Lease>, now: int) returns (left: seq<Lease>)
      ensures left == LiveLeases(seen, now)
    {
      left := [];
      for i := 0 to |seen|
        invariant left == LiveLeases(seen[..i], now)
      {
        assert Front(seen[..i + 1]) == seen[..i] && Last(seen[..i + 1]) == seen[i];
        if !(seen[i].expires <= now) { left := left + [seen[i]]; }
      }
      assert seen[..|seen|] == seen;
    }

    /** The part of List that changes the table. */
    method Purge(now: int)
      requires Valid() && After(history, now)
      modifies this`rows, this`history
      ensures Valid() && history == old(history) + [Listed(now)] && rows == LiveLeases(old(rows), now)
    {
      hide Shows, HeldIn, LiveLeases;
      LiveMembers(rows, now);
      LiveShown(rows, now);
      ShowsLive(Shown(rows), Shown(LiveLeases(rows, now)), history, now);
      rows := DeleteExpired(rows, now);
      history := history + [Listed(now)];
    }

    /** List: expired rows are deleted, the others returned in order of creation. */
    method List(now: int) returns (r: seq<Lease>)
      requires Valid() && After(history, now)
      modifies this`rows, this`history
      ensures Valid() && history == old(history) + [Listed(now)]
      ensures Distinct(r) && forall x :: x in r <==> x in old(rows) && x.expires > now
      ensures forall i, j :: 0 <= i < j < |r| ==> r[i].created <= r[j].created
      ensures forall run :: HeldIn(rows, run) == Still(Ledger(old(history), run), now)
    {
      hide Shows, HeldIn, LiveLeases, Ledger;
      ShownNow(Shown(rows), history, now);
      LiveShown(rows, now);
      LiveMembers(rows, now);
      ghost var before := rows;
      Purge(now);
      assert forall run :: HeldIn(rows, run) == Shown(LiveLeases(before, now))(run);
      assert forall run :: Shown(before)(run) == HeldIn(before, run);
      r := CreationOrder(rows);
      StillDistinct(rows, r);
    }

    /** A new lease, under an ID that has not been used. */
    method Mint(request: Request, now: int) returns (lease: Lease)
      modifies this`minted
      ensures lease == Lease(old(minted), request.runId, request.owner, now, now, now + Ttl(request))
      ensures minted == old(minted) + 1
    {
      lease := Lease(minted, request.runId, request.owner, now, now, now + Ttl(request));
      minted := minted + 1;
    }

    /** The statements of a transaction after the expired rows are gone, or None when it is refused. */
    method Change(live: seq<Lease>, request: Request, now: int) returns (updated: Option<seq<Lease>>, lease: Lease)
      requires Distinct(live) && Proper(request) && forall i :: 0 <= i < |live| ==> live[i].id < minted
      modifies this`minted
      ensures minted >= old(minted)
      ensures updated.Some? <==> Decide(HeldIn(live, request.runId), request, now).Some?
      ensures updated.Some? ==>
        && Distinct(updated.value) && (forall i :: 0 <= i < |updated.value| ==> updated.value[i].id < minted)
        && ChangesTo(Shown(live), Shown(updated.value), request, now)
        && SqlLease(live, lease, request, now, old(minted)) && TimeKept(request, now, lease)
    {
      hide HeldIn;
      var at := Find(live, request.runId);
      HeldAt(live, request.runId);
      var found := at >= 0;
      lease := if found then live[at] else Lease(0, "", "", 0, 0, 0);
      if request.action.Acquire? && found && lease.owner != request.owner { return None, lease; }
      if request.action.Heartbeat? && (!found || lease.owner != request.owner) { return None, lease; }
      if request.action.Release? && (!found || lease.owner != request.owner) { return None, lease; }
      if request.action.Unsupported? { return None, lease; }
      if request.action.Release? {
        RemoveChanges(live, at, request, now);
        return Some(Without(live, at)), lease;
      }
      if request.action.Acquire? && found {
        lease := lease.(updated := now, expires := now + Ttl(request));
        updated := Some(live[at := lease]);
        UpdateChanges(live, at, lease, request, now);
      } else {
        lease := Mint(request, now);
        if found {
          updated := Some(live[at := lease]);
          UpdateChanges(live, at, lease, request, now);
        } else {
          updated := Some(live + [lease]);
          AppendChanges(live, lease, request, now);
        }
      }
    }

    /** Does a step of the database work? */
    method Works() returns (ok: bool)
      modifies this`faults
      ensures old(faults) <= faults && (ok <==> faults == old(faults))
    {
      ok := *;
      if !ok { faults := faults + 1; }
    }

    /** Apply: one transaction, rolled back unless it is committed. */
    method Apply(request: Request, now: int) returns (answer: Answer)
      requires Valid() && After(history, now)
      modifies this
      ensures Valid()
      ensures old(faults) <= faults && (answer.Failed? <==> faults > old(faults))
      ensures answer.Failed? ==> rows == old(rows) && history == old(history) && Proper(request)
      ensures !answer.Failed? ==> history == old(history) + [Asked(request, now)]
      ensures !answer.Failed? ==> (answer.Given? <==> Granted(old(history), request, now))
      ensures answer.Refused? ==> rows == old(rows)
      ensures answer.Given? ==> TimeKept(request, now, answer.lease)
      ensures answer.Given? ==> SqlLease(LiveLeases(old(rows), now), answer.lease, request, now, old(minted))
    {
      hide Shows, HeldIn, LiveLeases, SqlLease, TimeKept, Proper, Ledger;
      ShownNow(Shown(rows), history, now);
      if !Proper(request) {
        ShowsRefused(Shown(rows), history, request, now);
        history := history + [Asked(request, now)];
        return Refused;
      }
      var begun := Works();
      if !begun { return Failed; }
      var live := DeleteExpired(rows, now);
      LiveMembers(rows, now);
      LiveShown(rows, now);
      var updated, lease := Change(live, request, now);
      if updated.None? {
        ShowsRefused(Shown(rows), history, request, now);
        history := history + [Asked(request, now)];
        return Refused;
      }
      ShowsGranted(Shown(rows), Shown(updated.value), history, request, now);
      var committed := Works();
      if !committed { return Failed; }
      rows := updated.value;
      history := history + [Asked(request, now)];
      return Given(lease);
    }
  }

  // -- The two stores side by side ---------------------------------------------------------

  /**
   * After the same requests and listings the two stores show the same owner, update
   * time and expiry for every run, at every later time.
   */
  lemma StoresAgree(json: Store, sql: SQLiteStore, run: string, t: int)
    requires json.Valid() && sql.Valid() && json.history == sql.history && After(json.history, t)
    ensures Still(HeldIn(json.leases, run), t) == Still(HeldIn(sql.rows, run), t)
  {
    assert Still(Shown(json.leases)(run), t) == Still(Ledger(json.history, run), t);
    assert Still(Shown(sql.rows)(run), t) == Still(Ledger(sql.history, run), t);
  }

  /** The leases that the stores answer a granted request with say the same. */
  lemma SameLease(leases: seq<Lease>, rows: seq<Lease>, a: Lease, b: Lease, request: Request, now: int, m: nat, n: nat)
    requires Distinct(leases) && Distinct(rows)
    requires Still(HeldIn(leases, request.runId), now) == Still(HeldIn(rows, request.runId), now)
    requires JsonLease(LiveLeases(leases, now), a, request, now, m)
    requires SqlLease(LiveLeases(rows, now), b, request, now, n)
    ensures a.runId == b.runId && HoldingOf(a) == HoldingOf(b)
  {
    LiveHeld(leases, now, request.runId);
    LiveHeld(rows, now, request.runId);
    hide LiveLeases;
    HeldAt(LiveLeases(leases, now), request.runId);
    HeldAt(LiveLeases(rows, now), request.runId);
  }

  /** Serve a list of requests and listings from both stores, while their disks work. */
  method ServeBoth(json: Store, sql: SQLiteStore, ops: seq<Op>) returns (answers: seq<(Answer, Answer)>, failed: bool)
    requires json.Valid() && sql.Valid() && json.history == sql.history
    requires Ticking(json.history + ops)
    modifies json, sql
    ensures json.Valid() && sql.Valid()
    ensures failed <==> json.faults > old(json.faults) || sql.faults > old(sql.faults)
    ensures !failed ==> json.history == sql.history == old(json.history) + ops
    ensures forall i :: 0 <= i < |answers| ==> SameAnswer(answers[i].0, answers[i].1)
    ensures !failed ==> |answers| == Requests(ops)
  {
    hide Shows, Ledger, JsonLease, SqlLease, HeldIn, LiveLeases;
    answers, failed := [], false;
    for i := 0 to |ops|
      invariant json.Valid() && sql.Valid()
      invariant json.faults == old(json.faults) && sql.faults == old(sql.faults)
      invariant json.history == sql.history == old(json.history) + ops[..i]
      invariant |answers| == Requests(ops[..i])
      invariant forall k :: 0 <= k < |answers| ==> SameAnswer(answers[k].0, answers[k].1)
    {
      StillTicking(old(json.history), ops, i);
      assert ops[..i + 1] == ops[..i] + [ops[i]] && Front(ops[..i + 1]) == ops[..i];
      assert old(json.history) + ops[..i + 1] == old(json.history) + ops[..i] + [ops[i]];
      match ops[i]
      case Listed(now) =>
        var fromFile := json.List(now);
        var fromTable := sql.List(now);
      case Asked(request, now) =>
        StoresAgree(json, sql, request.runId, now);
        ghost var leases, rows, m, n := json.leases, sql.rows, json.minted, sql.minted;
        var a := json.Apply(request, now);
        var b := sql.Apply(request, now);
        if a.Failed? || b.Failed? { return answers, true; }
        if a.Given? { SameLease(leases, rows, a.lease, b.lease, request, now, m, n); }
        answers := answers + [(a, b)];
    }
    assert ops[..|ops|] == ops;
  }

  function Requests(ops: seq<Op>): nat {
    if ops == [] then 0 else Requests(Front(ops)) + if Last(ops).Asked? then 1 else 0
  }

  /** Both granted or both refused; the leases differ at most in ID and creation time. */
  predicate SameAnswer(a: Answer, b: Answer) {
    && a.Given? == b.Given? && a.Refused? == b.Refused?
    && (a.Given? ==> a.lease.runId == b.lease.runId && HoldingOf(a.lease) == HoldingOf(b.lease))
  }

  lemma StillTicking(before: seq<Op>, ops: seq<Op>, i: nat)
    requires Ticking(before + ops) && i < |ops|
    ensures After(before + ops[..i], ops[i].now)
  {
    var all := before + ops;
    assert all[|before| + i] == ops[i];
    assert forall k :: 0 <= k < |before + ops[..i]| ==> (before + ops[..i])[k] == all[k];
  }
}
