// Shutting down the network policy proxy: accepting goroutines, connection
// handlers and callers of Close, interleaved at every lock, unlock, access to
// the shared fields and wait for a peer.
module NetProxy {

  /** Where a goroutine is. A connection is followed from accept to its handler's end. */
  datatype Pc =
    // track, for an accepted connection
    | TrackLock | TrackCheck | TrackInsert | TrackAdd | TrackUnlock
    | RefuseUnlock | RefuseClose | Refused
    // the handler, which waits for its client's request, for its upstream, and for
    // the client to take what the upstream sent; and untrack
    | Reading | Relaying | Writing
    | UntrackLock | UntrackDelete | UntrackUnlock | WgDone | Finished
    // Close
    | CloseLock | CloseCheck | EarlyUnlock | ReturnedEarly
    | SetFlag | CloseListener | Snapshot | SnapshotUnlock(todo: set<nat>)
    | Breaking(todo: set<nat>) | Waiting | Returned

  /**
   * The shared fields and every goroutine. A connection is named by its
   * goroutine's number; broken are the connections that Close has closed. The last
   * three fields are what the peers have done that no handler has yet noticed.
   */
  datatype State = State(
    threads: seq<Pc>,
    owner: int,          // the goroutine holding the mutex, or -1
    closed: bool,
    listening: bool,
    conns: set<nat>,
    wg: int,
    broken: set<nat>,
    setter: int,         // the goroutine that set the closed flag, or -1
    clients: set<nat>,   // connections whose client has done what the handler waits for
    pending: set<nat>,   // connections whose upstream has sent something
    ended: set<nat>)     // connections whose upstream has ended, or could not be reached

  const FREE := -1

  datatype Event =
    | Accept | CallClose | Run(t: nat, pick: nat)
    | ClientActs(t: nat) | UpstreamSends(t: nat) | UpstreamEnds(t: nat)

  function Init(): State { State([], FREE, false, true, {}, 0, {}, FREE, {}, {}, {}) }

  /** Holding the mutex. */
  predicate Critical(p: Pc) {
    p.TrackCheck? || p.TrackInsert? || p.TrackAdd? || p.TrackUnlock? || p.RefuseUnlock? || p.UntrackDelete?
    || p.UntrackUnlock? || p.CloseCheck? || p.EarlyUnlock? || p.SetFlag? || p.CloseListener? || p.Snapshot?
    || p.SnapshotUnlock?
  }

  predicate Locking(p: Pc) { p.TrackLock? || p.UntrackLock? || p.CloseLock? }

  predicate Done(p: Pc) { p.Refused? || p.Finished? || p.ReturnedEarly? || p.Returned? }

  predicate Handling(p: Pc) { p.Reading? || p.Relaying? || p.Writing? }

  /** Listed in conns. */
  predicate Tracked(p: Pc) {
    p.TrackAdd? || p.TrackUnlock? || Handling(p) || p.UntrackLock? || p.UntrackDelete?
  }

  /** Admitted, and its handler not yet finished. */
  predicate InFlight(p: Pc) {
    p.TrackUnlock? || Handling(p) || p.UntrackLock? || p.UntrackDelete? || p.UntrackUnlock? || p.WgDone?
  }

  /** The call of Close that set the flag, from then on. */
  predicate Setter(p: Pc) {
    p.CloseListener? || p.Snapshot? || p.SnapshotUnlock? || p.Breaking? || p.Waiting? || p.Returned?
  }

  function At(s: State, t: nat, p: Pc): State
    requires t < |s.threads|
  {
    s.(threads := s.threads[t := p])
  }

  /** Has the upstream of a connection done anything that its handler has not noticed? */
  predicate Heard(s: State, t: nat) { t in s.pending || t in s.ended }

  /**
   * Reading from or writing to a connection ends when the client acts or when Close
   * has closed the connection. Waiting for the upstream ends only when that acts.
   */
  predicate Enabled(s: State, t: nat) {
    && t < |s.threads| && !Done(s.threads[t])
    && (Locking(s.threads[t]) ==> s.owner == FREE)
    && (s.threads[t].Reading? || s.threads[t].Writing? ==> t in s.broken || t in s.clients)
    && (s.threads[t].Relaying? ==> Heard(s, t))
    && (s.threads[t].Waiting? ==> s.wg == 0)
  }

  /**
   * The pc that follows. A request that cannot be read or is refused, an upstream
   * that has ended, and a client that cannot be written to end the handler.
   */
  function Onward(s: State, t: nat, p: Pc, pick: nat): Pc {
    match p
    case TrackLock => TrackCheck
    case TrackCheck => if s.closed then RefuseUnlock else TrackInsert
    case TrackInsert => TrackAdd
    case TrackAdd => TrackUnlock
    case TrackUnlock => Reading
    case RefuseUnlock => RefuseClose
    case RefuseClose => Refused
    case Reading => if t in s.clients && pick > 0 then Relaying else UntrackLock
    case Relaying => if t in s.pending then Writing else UntrackLock
    case Writing => if t !in s.broken && pick > 0 then Relaying else UntrackLock
    case UntrackLock => UntrackDelete
    case UntrackDelete => UntrackUnlock
    case UntrackUnlock => WgDone
    case WgDone => Finished
    case CloseLock => CloseCheck
    case CloseCheck => if s.closed then EarlyUnlock else SetFlag
    case EarlyUnlock => ReturnedEarly
    case SetFlag => CloseListener
    case CloseListener => Snapshot
    case Snapshot => SnapshotUnlock(s.conns)
    case SnapshotUnlock(todo) => Breaking(todo)
    case Breaking(todo) => if todo == {} then Waiting else Breaking(todo - {pick})
    case Waiting => Returned
    case _ => p
  }

  /** What one step of goroutine t does to the shared fields. */
  function Effect(s: State, t: nat, p: Pc, pick: nat): State {
    match p
    case TrackLock => s.(owner := t)
    case UntrackLock => s.(owner := t)
    case CloseLock => s.(owner := t)
    case Reading => s.(clients := s.clients - {t})
    case Relaying => s.(pending := s.pending - {t})
    case Writing => s.(clients := s.clients - {t})
    case TrackInsert => s.(conns := s.conns + {t})
    case TrackAdd => s.(wg := s.wg + 1)
    case TrackUnlock => s.(owner := FREE)
    case RefuseUnlock => s.(owner := FREE)
    case UntrackDelete => s.(conns := s.conns - {t})
    case UntrackUnlock => s.(owner := FREE)
    case WgDone => s.(wg := s.wg - 1)
    case EarlyUnlock => s.(owner := FREE)
    case SetFlag => s.(closed := true, setter := t)
    case CloseListener => s.(listening := false)
    case SnapshotUnlock(_) => s.(owner := FREE)
    case Breaking(todo) => if todo == {} then s else s.(broken := s.broken + {pick})
    case _ => s
  }

  predicate Possible(s: State, e: Event) {
    match e
    case Accept => s.listening
    case CallClose => true
    case ClientActs(_) => true
    case UpstreamSends(_) => true
    case UpstreamEnds(_) => true
    case Run(t, pick) =>
      && Enabled(s, t)
      && (s.threads[t].Breaking? && s.threads[t].todo != {} ==> pick in s.threads[t].todo)
  }

  function Step(s: State, e: Event): State
    requires Possible(s, e)
  {
    match e
    case Accept => s.(threads := s.threads + [TrackLock])
    case CallClose => s.(threads := s.threads + [CloseLock])
    case ClientActs(t) => s.(clients := s.clients + {t})
    case UpstreamSends(t) => s.(pending := s.pending + {t})
    case UpstreamEnds(t) => s.(ended := s.ended + {t})
    case Run(t, pick) => At(Effect(s, t, s.threads[t], pick), t, Onward(s, t, s.threads[t], pick))
  }

  // -- The invariant ------------------------------------------------------------------

  function Total(threads: seq<Pc>, weight: Pc -> nat): nat {
    if threads == [] then 0 else weight(threads[0]) + Total(threads[1..], weight)
  }

  lemma {:induction false} TotalUpdate(threads: seq<Pc>, weight: Pc -> nat, t: nat, p: Pc)
    requires t < |threads|
    ensures Total(threads[t := p], weight) == Total(threads, weight) - weight(threads[t]) + weight(p)
    ensures weight(threads[t]) <= Total(threads, weight)
  {
    if t > 0 {
      assert threads[t := p][1..] == threads[1..][t - 1 := p];
      TotalUpdate(threads[1..], weight, t - 1, p);
    } else {
      assert threads[t := p][1..] == threads[1..];
    }
  }

  lemma {:induction false} TotalAppend(threads: seq<Pc>, weight: Pc -> nat, p: Pc)
    ensures Total(threads + [p], weight) == Total(threads, weight) + weight(p)
  {
    if threads == [] {
      assert (threads + [p])[1..] == [];
    } else {
      assert (threads + [p])[1..] == threads[1..] + [p];
      TotalAppend(threads[1..], weight, p);
    }
  }

  lemma {:induction false} TotalZero(threads: seq<Pc>, weight: Pc -> nat)
    ensures Total(threads, weight) == 0 <==> forall t :: 0 <= t < |threads| ==> weight(threads[t]) == 0
  {
    if threads != [] {
      TotalZero(threads[1..], weight);
      assert forall t :: 0 < t < |threads| ==> threads[t] == threads[1..][t - 1];
      assert forall t :: 0 <= t < |threads| - 1 ==> threads[1..][t] == threads[t + 1];
    }
  }

  function Weight(p: Pc): nat { if InFlight(p) then 1 else 0 }

  /** The mutex is held by exactly the goroutine inside a critical section. */
  ghost predicate MutexInv(s: State) {
    && (s.owner == FREE || 0 <= s.owner < |s.threads|)
    && forall t :: 0 <= t < |s.threads| ==> (Critical(s.threads[t]) <==> s.owner == t)
  }

  ghost predicate ConnsInv(s: State) {
    && (forall c :: c in s.conns ==> c < |s.threads|)
    && forall t :: 0 <= t < |s.threads| ==> (Tracked(s.threads[t]) <==> t in s.conns)
  }

  ghost predicate SetterInv(s: State) {
    && (s.closed <==> s.setter != FREE)
    && (s.closed ==> 0 <= s.setter < |s.threads|)
    && (forall t :: 0 <= t < |s.threads| ==> (Setter(s.threads[t]) <==> s.closed && s.setter == t))
    && (forall t :: 0 <= t < |s.threads| ==>
          s.threads[t].TrackInsert? || s.threads[t].TrackAdd? || s.threads[t].SetFlag? ==> !s.closed)
  }

  /** Once Close has its list, every tracked connection is on it or already closed. */
  ghost predicate BrokenInv(s: State) {
    s.closed && 0 <= s.setter < |s.threads| ==>
      match s.threads[s.setter]
      case SnapshotUnlock(todo) => s.conns <= todo + s.broken
      case Breaking(todo) => s.conns <= todo + s.broken
      case Waiting => s.conns <= s.broken
      case Returned => forall t :: 0 <= t < |s.threads| ==> !InFlight(s.threads[t])
      case _ => true
  }

  /** Behind the closing of the listener nothing is accepted. */
  ghost predicate ListenerInv(s: State) {
    s.closed && 0 <= s.setter < |s.threads| && Setter(s.threads[s.setter]) && !s.threads[s.setter].CloseListener? ==>
      !s.listening
  }

  ghost predicate Inv(s: State) {
    && MutexInv(s) && ConnsInv(s) && SetterInv(s) && BrokenInv(s) && ListenerInv(s)
    && s.wg == Total(s.threads, Weight)
  }

  lemma MutexKept(s: State, e: Event)
    requires MutexInv(s) && Possible(s, e)
    ensures MutexInv(Step(s, e))
  {
    if e.Run? {
      hide Onward, Effect;
      MutexMoves(s, e.t, s.threads[e.t], e.pick);
    }
  }

  lemma MutexMoves(s: State, t: nat, p: Pc, pick: nat)
    ensures var r, q := Effect(s, t, p, pick), Onward(s, t, p, pick);
      && r.threads == s.threads
      && (Locking(p) ==> r.owner == t && Critical(q))
      && (!Locking(p) && Critical(p) && Critical(q) ==> r.owner == s.owner)
      && (!Locking(p) && Critical(p) && !Critical(q) ==> r.owner == FREE)
      && (!Locking(p) && !Critical(p) ==> r.owner == s.owner && !Critical(q))
  {
  }

  lemma ConnsKept(s: State, e: Event)
    requires ConnsInv(s) && Possible(s, e)
    ensures ConnsInv(Step(s, e))
  {
    if e.Run? {
      hide Onward, Effect;
      ConnsMove(s, e.t, s.threads[e.t], e.pick);
    }
  }

  lemma ConnsMove(s: State, t: nat, p: Pc, pick: nat)
    ensures var r, q := Effect(s, t, p, pick), Onward(s, t, p, pick);
      && r.threads == s.threads
      && (p.TrackInsert? ==> r.conns == s.conns + {t} && Tracked(q))
      && (p.UntrackDelete? ==> r.conns == s.conns - {t} && !Tracked(q))
      && (!p.TrackInsert? && !p.UntrackDelete? ==> r.conns == s.conns && (Tracked(q) <==> Tracked(p)))
  {
  }

  lemma SetterMoves(s: State, t: nat, p: Pc, pick: nat)
    ensures var q := Onward(s, t, p, pick);
      && (Setter(q) <==> Setter(p) || (p.SetFlag?))
      && (q.TrackInsert? || q.SetFlag? ==> !s.closed) && (q.TrackAdd? <==> p.TrackInsert?)
    ensures var r := Effect(s, t, p, pick);
      r.threads == s.threads && r.closed == (s.closed || p.SetFlag?) && r.setter == if p.SetFlag? then t else s.setter
  {
  }

  lemma SetterKept(s: State, e: Event)
    requires MutexInv(s) && SetterInv(s) && Possible(s, e)
    ensures SetterInv(Step(s, e))
  {
    if e.Run? {
      hide Onward, Effect;
      SetterMoves(s, e.t, s.threads[e.t], e.pick);
    }
  }

  lemma CountMoves(s: State, t: nat, p: Pc, pick: nat)
    ensures Weight(Onward(s, t, p, pick)) == Weight(p) + (if p.TrackAdd? then 1 else 0) - (if p.WgDone? then 1 else 0)
    ensures Effect(s, t, p, pick).wg == s.wg + (if p.TrackAdd? then 1 else 0) - (if p.WgDone? then 1 else 0)
    ensures Effect(s, t, p, pick).threads == s.threads
  {
  }

  lemma CountKept(s: State, e: Event)
    requires s.wg == Total(s.threads, Weight) && Possible(s, e)
    ensures Step(s, e).wg == Total(Step(s, e).threads, Weight)
  {
    hide Onward, Effect, Weight, Total;
    match e
    case Accept => TotalAppend(s.threads, Weight, TrackLock); NewcomersWeighNothing();
    case CallClose => TotalAppend(s.threads, Weight, CloseLock); NewcomersWeighNothing();
    case ClientActs(_) =>
    case UpstreamSends(_) =>
    case UpstreamEnds(_) =>
    case Run(t, pick) =>
      CountMoves(s, t, s.threads[t], pick);
      TotalUpdate(s.threads, Weight, t, Onward(s, t, s.threads[t], pick));
  }

  lemma NewcomersWeighNothing()
    ensures Weight(TrackLock) == Weight(CloseLock) == 0
  {
  }

  /** What a step of another goroutine can do to what the closing one relies on. */
  lemma OthersMove(s: State, t: nat, p: Pc, pick: nat)
    requires !Setter(p)
    ensures var r := Effect(s, t, p, pick);
      r.broken == s.broken && r.threads == s.threads
      && (p.TrackInsert? || r.conns <= s.conns)
      && (InFlight(Onward(s, t, p, pick)) ==> InFlight(p) || p.TrackAdd?)
  {
  }

  lemma NoneInFlight(s: State)
    requires s.wg == Total(s.threads, Weight)
    ensures s.wg == 0 <==> forall t :: 0 <= t < |s.threads| ==> !InFlight(s.threads[t])
  {
    TotalZero(s.threads, Weight);
    assert forall t :: 0 <= t < |s.threads| ==> (Weight(s.threads[t]) == 0 <==> !InFlight(s.threads[t]));
  }

  lemma BrokenKeptByOthers(s: State, t: nat, pick: nat)
    requires SetterInv(s) && BrokenInv(s) && Possible(s, Run(t, pick)) && s.closed && s.setter != t
    ensures BrokenInv(Step(s, Run(t, pick)))
  {
    hide Onward, Effect;
    SetterMoves(s, t, s.threads[t], pick);
    OthersMove(s, t, s.threads[t], pick);
  }

  lemma BrokenKeptBySetter(s: State, t: nat, pick: nat)
    requires Inv(s) && Possible(s, Run(t, pick)) && (s.closed ==> s.setter == t)
    ensures BrokenInv(Step(s, Run(t, pick)))
  {
    hide Total;
    NoneInFlight(s);
    SetterMoves(s, t, s.threads[t], pick);
  }

  lemma BrokenKept(s: State, e: Event)
    requires Inv(s) && Possible(s, e)
    ensures BrokenInv(Step(s, e))
  {
    if e.Run? {
      hide Onward, Effect, BrokenInv, MutexInv, ConnsInv, SetterInv, ListenerInv, Total;
      if s.closed && s.setter != e.t {
        BrokenKeptByOthers(s, e.t, e.pick);
      } else {
        BrokenKeptBySetter(s, e.t, e.pick);
      }
    }
  }

  lemma ListenerKept(s: State, e: Event)
    requires SetterInv(s) && ListenerInv(s) && Possible(s, e)
    ensures ListenerInv(Step(s, e))
  {
  }

  lemma StepKeepsInv(s: State, e: Event)
    requires Inv(s) && Possible(s, e)
    ensures Inv(Step(s, e))
  {
    hide MutexInv, ConnsInv, SetterInv, BrokenInv, ListenerInv, Step, Possible;
    ListenerKept(s, e);
    MutexKept(s, e);
    ConnsKept(s, e);
    SetterKept(s, e);
    CountKept(s, e);
    BrokenKept(s, e);
  }

  // -- Runs ---------------------------------------------------------------------------

  /** A run from an open proxy: any number of accepts and calls of Close, in any interleaving. */
  ghost predicate IsRun(states: seq<State>, events: seq<Event>) {
    && |states| == |events| + 1 && states[0] == Init()
    && forall i :: 0 <= i < |events| ==> Possible(states[i], events[i]) && states[i + 1] == Step(states[i], events[i])
  }

  lemma {:induction false} RunKeepsInv(states: seq<State>, events: seq<Event>, i: nat)
    requires IsRun(states, events) && i < |states|
    ensures Inv(states[i])
  {
    if i > 0 {
      RunKeepsInv(states, events, i - 1);
      StepKeepsInv(states[i - 1], events[i - 1]);
      assert Possible(states[i - 1], events[i - 1]);
    }
  }

  /** The goroutines admitted and not yet finished. */
  function Admitted(s: State): set<nat> {
    set t: nat | t < |s.threads| && InFlight(s.threads[t])
  }

  function Prefix(threads: seq<Pc>, n: nat): set<nat>
    requires n <= |threads|
  {
    set t: nat | t < n && InFlight(threads[t])
  }

  lemma PrefixGrows(threads: seq<Pc>, n: nat)
    requires n < |threads|
    ensures Prefix(threads, 0) == {}
    ensures |Prefix(threads, n + 1)| == |Prefix(threads, n)| + Weight(threads[n])
  {
    if InFlight(threads[n]) {
      assert Prefix(threads, n + 1) == Prefix(threads, n) + {n};
    } else {
      assert Prefix(threads, n + 1) == Prefix(threads, n);
    }
  }

  lemma {:induction false} TotalIsCount(threads: seq<Pc>, n: nat)
    requires n <= |threads|
    ensures Total(threads[..n], Weight) == |Prefix(threads, n)|
  {
    if n > 0 {
      hide Prefix, Weight, Total;
      TotalIsCount(threads, n - 1);
      TotalAppend(threads[..n - 1], Weight, threads[n - 1]);
      assert threads[..n] == threads[..n - 1] + [threads[n - 1]];
      PrefixGrows(threads, n - 1);
    } else {
      assert Prefix(threads, 0) == {};
    }
  }

  /**
   * At every moment of every run the wait count is the number of admitted,
   * unfinished handlers, conns lists exactly the tracked connections, and at most
   * one goroutine is inside the mutex.
   */
  lemma CountersAreExact(states: seq<State>, events: seq<Event>, i: nat)
    requires IsRun(states, events) && i < |states|
    ensures states[i].wg == |Admitted(states[i])|
    ensures forall t: nat :: t in states[i].conns <==> t < |states[i].threads| && Tracked(states[i].threads[t])
    ensures forall t, u | 0 <= t < |states[i].threads| && 0 <= u < |states[i].threads| ::
      Critical(states[i].threads[t]) && Critical(states[i].threads[u]) ==> t == u
  {
    var s := states[i];
    RunKeepsInv(states, events, i);
    TotalIsCount(s.threads, |s.threads|);
    assert s.threads[..|s.threads|] == s.threads;
    assert Prefix(s.threads, |s.threads|) == Admitted(s);
  }

  lemma ClosedStays(s: State, e: Event)
    requires Possible(s, e) && s.closed
    ensures Step(s, e).closed
  {
  }

  lemma SetterStays(s: State, e: Event)
    requires Inv(s) && Possible(s, e) && s.closed
    ensures Step(s, e).setter == s.setter
  {
  }

  lemma StepAdmitsOnlyWhileOpen(s: State, e: Event)
    requires Inv(s) && Possible(s, e) && s.closed
    ensures Admitted(Step(s, e)) <= Admitted(s) && Step(s, e).conns <= s.conns
  {
    if e.Run? {
      hide Onward, Effect, Total;
      AdmissionIsTrackAdd(s, e.t, s.threads[e.t], e.pick);
    }
  }

  lemma AdmissionIsTrackAdd(s: State, t: nat, p: Pc, pick: nat)
    ensures InFlight(Onward(s, t, p, pick)) ==> InFlight(p) || p.TrackAdd?
    ensures Effect(s, t, p, pick).conns <= s.conns || p.TrackInsert?
    ensures Effect(s, t, p, pick).threads == s.threads
  {
  }

  /** No connection is admitted once the closed flag is set: what is in flight only ever shrinks. */
  lemma {:induction false} NoAdmissionOnceClosed(states: seq<State>, events: seq<Event>, i: nat, j: nat)
    requires IsRun(states, events) && i <= j < |states| && states[i].closed
    ensures states[j].closed && Admitted(states[j]) <= Admitted(states[i]) && states[j].conns <= states[i].conns
  {
    hide Step, Possible, Admitted, Inv;
    if i < j {
      NoAdmissionOnceClosed(states, events, i, j - 1);
      RunKeepsInv(states, events, j - 1);
      assert Possible(states[j - 1], events[j - 1]) && states[j - 1 + 1] == Step(states[j - 1], events[j - 1]);
      ClosedStays(states[j - 1], events[j - 1]);
      StepAdmitsOnlyWhileOpen(states[j - 1], events[j - 1]);
    }
  }

  lemma ReturnedMeansDrained(s: State, k: nat)
    requires Inv(s) && k < |s.threads| && s.threads[k].Returned?
    ensures s.closed && Admitted(s) == {} && s.conns == {} && s.wg == 0
  {
    hide Total;
    assert Setter(s.threads[k]);
    NoneInFlight(s);
    assert forall t :: 0 <= t < |s.threads| ==> !Tracked(s.threads[t]);
  }

  /**
   * Once the call of Close that set the flag has returned, no handler is running,
   * no connection is listed, and none ever will be again.
   */
  lemma DrainedForever(states: seq<State>, events: seq<Event>, i: nat, j: nat, k: nat)
    requires IsRun(states, events) && i <= j < |states| && k < |states[i].threads| && states[i].threads[k].Returned?
    ensures Admitted(states[j]) == {} && states[j].conns == {} && states[j].wg == 0
  {
    RunKeepsInv(states, events, i);
    ReturnedMeansDrained(states[i], k);
    NoAdmissionOnceClosed(states, events, i, j);
    CountersAreExact(states, events, j);
  }

  /** Close waits only after it has closed every connection that is still listed. */
  lemma ForceClosedBeforeWaiting(states: seq<State>, events: seq<Event>, i: nat, k: nat)
    requires IsRun(states, events) && i < |states| && k < |states[i].threads| && states[i].threads[k].Waiting?
    ensures states[i].conns <= states[i].broken
  {
    hide Total;
    RunKeepsInv(states, events, i);
    assert Setter(states[i].threads[k]);
  }

  // -- Progress -----------------------------------------------------------------------

  /** No goroutine can take a step. */
  ghost predicate Quiet(s: State) { forall t: nat :: !Enabled(s, t) }

  /** A handler cut off from its client that waits for its upstream. */
  predicate CutOff(s: State, t: nat) { t < |s.threads| && s.threads[t].Relaying? && t in s.broken }

  predicate HasReturned(s: State) { s.closed && 0 <= s.setter < |s.threads| && s.threads[s.setter].Returned? }

  /** The call of Close that set the flag has its connections closed. */
  predicate Waited(s: State) {
    s.closed && 0 <= s.setter < |s.threads| && (s.threads[s.setter].Waiting? || s.threads[s.setter].Returned?)
  }

  /** In a state of rest the mutex is free, so that only waiting for a peer can hold anything up. */
  lemma RestIsOutsideTheMutex(s: State, t: nat)
    requires MutexInv(s) && Quiet(s) && t < |s.threads|
    ensures Done(s.threads[t]) || Handling(s.threads[t]) || s.threads[t].Waiting?
  {
    if s.owner != FREE {
      assert Critical(s.threads[s.owner]);
      assert Enabled(s, s.owner);
    }
    assert !Enabled(s, t);
  }

  /**
   * There is no deadlock: if no goroutine can move, each unfinished one waits for a
   * peer of its connection, or is the call of Close that waits for such handlers.
   */
  lemma OnlyPeersHoldUp(states: seq<State>, events: seq<Event>, i: nat, t: nat)
    requires IsRun(states, events) && i < |states| && Quiet(states[i])
    requires t < |states[i].threads| && !Done(states[i].threads[t])
    ensures var s := states[i]; match s.threads[t]
      case Reading => t !in s.broken && t !in s.clients
      case Writing => t !in s.broken && t !in s.clients
      case Relaying => !Heard(s, t)
      case Waiting => exists h: nat :: CutOff(s, h) && !Heard(s, h)
      case _ => false
  {
    hide Total;
    var s := states[i];
    RunKeepsInv(states, events, i);
    RestIsOutsideTheMutex(s, t);
    assert !Enabled(s, t);
    if s.threads[t].Waiting? {
      assert Setter(s.threads[t]);
      var h := CloseWaitsForRelays(s);
    }
  }

  /** The other way round: what a goroutine waits for has happened when it goes on, and one that has ended stays so. */
  lemma MovesOnCue(s: State, e: Event, t: nat)
    requires Possible(s, e) && t < |s.threads| && Step(s, e).threads[t] != s.threads[t]
    ensures match s.threads[t]
      case Reading => t in s.broken || t in s.clients
      case Writing => t in s.broken || t in s.clients
      case Relaying => Heard(s, t)
      case Waiting => s.wg == 0
      case p => !Done(p) && (Locking(p) ==> s.owner == FREE)
  {
  }

  /** The peers act whenever they like, Close may be called at any time, and a listener accepts. */
  lemma PeersActFreely(s: State, t: nat)
    ensures Possible(s, ClientActs(t)) && Possible(s, UpstreamSends(t)) && Possible(s, UpstreamEnds(t))
    ensures Possible(s, CallClose) && (Possible(s, Accept) <==> s.listening)
  {
  }

  /**
   * The moves of a handler: it may end after any of its steps, and goes on to its
   * upstream only with a request from its client, or a client it can still write to.
   */
  lemma HandlerMoves(s: State, t: nat, q: Pc)
    ensures (exists pick: nat :: Onward(s, t, Reading, pick) == q) <==>
      q.UntrackLock? || (q.Relaying? && t in s.clients)
    ensures (exists pick: nat :: Onward(s, t, Writing, pick) == q) <==>
      q.UntrackLock? || (q.Relaying? && t !in s.broken)
    ensures (exists pick: nat :: Onward(s, t, Relaying, pick) == q) <==>
      if t in s.pending then q.Writing? else q.UntrackLock?
  {
    assert Onward(s, t, Reading, 0) == Onward(s, t, Writing, 0) == UntrackLock;
    assert t in s.clients ==> Onward(s, t, Reading, 1) == Relaying;
    assert t !in s.broken ==> Onward(s, t, Writing, 1) == Relaying;
    assert Onward(s, t, Relaying, 0) == if t in s.pending then Writing else UntrackLock;
  }

  /** What is still in flight when Close waits and nothing moves has been cut off and hears nothing. */
  lemma CloseWaitsForRelays(s: State) returns (h: nat)
    requires Inv(s) && Quiet(s) && Waited(s) && !HasReturned(s)
    ensures CutOff(s, h) && !Heard(s, h)
  {
    hide Total;
    NoneInFlight(s);
    assert !Enabled(s, s.setter);
    h :| 0 <= h < |s.threads| && InFlight(s.threads[h]);
    RestIsOutsideTheMutex(s, h);
    assert !Enabled(s, h);
    assert h in s.conns;
  }

  /** Steps a goroutine still has before it, apart from the connections Close has yet to close. */
  function Ahead(p: Pc): nat {
    match p
    case TrackLock => 13
    case TrackCheck => 12
    case TrackInsert => 11
    case TrackAdd => 10
    case TrackUnlock => 9
    case Reading => 8
    case Writing => 7
    case Relaying => 6
    case UntrackLock => 5
    case UntrackDelete => 4
    case UntrackUnlock => 3
    case WgDone => 2
    case RefuseUnlock => 2
    case RefuseClose => 1
    case CloseLock => 8
    case CloseCheck => 7
    case SetFlag => 6
    case CloseListener => 5
    case Snapshot => 4
    case SnapshotUnlock(_) => 3
    case Breaking(_) => 2
    case EarlyUnlock => 1
    case Waiting => 1
    case _ => 0
  }

  function Unbroken(p: Pc): nat {
    match p
    case Breaking(todo) => |todo|
    case _ => 0
  }

  /** Relaying something puts it off for two steps, but uses it up. */
  function Measure(s: State): nat { Total(s.threads, Ahead) + 2 * |s.pending| }

  lemma StepsAhead(s: State, t: nat, pick: nat)
    requires Possible(s, Run(t, pick))
    ensures var p, r := s.threads[t], Effect(s, t, s.threads[t], pick); var q := Onward(s, t, p, pick);
      Ahead(q) + 2 * |r.pending| < Ahead(p) + 2 * |s.pending|
      || (Ahead(q) + 2 * |r.pending| == Ahead(p) + 2 * |s.pending| && Unbroken(q) < Unbroken(p))
  {
    hide Effect, Onward, Ahead, Unbroken;
    PendingMoves(s, t, s.threads[t], pick);
    if s.threads[t].Breaking? { StepBreaks(s, t, pick); } else { StepGoesOn(s, t, s.threads[t], pick); }
  }

  lemma StepBreaks(s: State, t: nat, pick: nat)
    requires Possible(s, Run(t, pick)) && s.threads[t].Breaking?
    ensures var p := s.threads[t]; var q := Onward(s, t, p, pick);
      Ahead(q) < Ahead(p) || (Ahead(q) == Ahead(p) && Unbroken(q) < Unbroken(p))
  {
  }

  lemma StepGoesOn(s: State, t: nat, p: Pc, pick: nat)
    requires !Done(p) && !p.Breaking?
    ensures Ahead(Onward(s, t, p, pick)) < Ahead(p) + if p.Relaying? && t in s.pending then 2 else 0
  {
  }

  lemma PendingMoves(s: State, t: nat, p: Pc, pick: nat)
    ensures |Effect(s, t, p, pick).pending| == |s.pending| - if p.Relaying? && t in s.pending then 1 else 0
  {
  }

  lemma EffectKeepsThreads(s: State, t: nat, p: Pc, pick: nat)
    ensures Effect(s, t, p, pick).threads == s.threads
  {
  }

  lemma StepShrinks(s: State, e: Event)
    requires e.Run? && Possible(s, e)
    ensures var r := Step(s, e);
      Measure(r) < Measure(s) || (Measure(r) == Measure(s) && Total(r.threads, Unbroken) < Total(s.threads, Unbroken))
  {
    StepsAhead(s, e.t, e.pick);
    hide Onward, Effect, Total, Ahead, Unbroken;
    var p := s.threads[e.t];
    EffectKeepsThreads(s, e.t, p, e.pick);
    TotalUpdate(s.threads, Ahead, e.t, Onward(s, e.t, p, e.pick));
    TotalUpdate(s.threads, Unbroken, e.t, Onward(s, e.t, p, e.pick));
  }

  ghost predicate Continues(states: nat -> State, events: nat -> Event, i: nat) {
    events(i).Run? && Possible(states(i), events(i)) && states(i + 1) == Step(states(i), events(i))
  }

  /**
   * Whatever the scheduling, goroutines that get no more connections, no more calls
   * of Close and no more from any peer come to rest.
   */
  lemma {:induction false} EveryRunRests(states: nat -> State, events: nat -> Event, i: nat) returns (j: nat)
    ensures i <= j && !Continues(states, events, j)
    decreases Measure(states(i)), Total(states(i).threads, Unbroken)
  {
    if Continues(states, events, i) {
      StepShrinks(states(i), events(i));
      j := EveryRunRests(states, events, i + 1);
    } else {
      j := i;
    }
  }

  // -- When Close returns -------------------------------------------------------------

  /** A run that goes on for ever, with whatever the peers do. */
  ghost predicate Forever(states: nat -> State, events: nat -> Event) {
    states(0) == Init()
    && forall i: nat :: Possible(states(i), events(i)) && states(i + 1) == Step(states(i), events(i))
  }

  predicate Runs(e: Event, t: nat) { e.Run? && e.t == t }

  ghost predicate ServedAt(states: nat -> State, events: nat -> Event, t: nat, k: nat) {
    Runs(events(k), t) || !Enabled(states(k), t)
  }

  ghost predicate ServedAfter(states: nat -> State, events: nat -> Event, t: nat, j: nat) {
    exists k: nat :: j <= k && ServedAt(states, events, t, k)
  }

  /** Weak fairness: no goroutine that could always take a step is left waiting for ever. */
  ghost predicate Fair(states: nat -> State, events: nat -> Event) {
    forall t: nat, j: nat :: ServedAfter(states, events, t, j)
  }

  ghost predicate NoMoreCalls(events: nat -> Event, i: nat) { forall k: nat :: i <= k ==> !events(k).CallClose? }

  ghost predicate HeardAfter(states: nat -> State, t: nat, j: nat) { exists k: nat :: j <= k && Heard(states(k), t) }

  ghost predicate ReturnsAfter(states: nat -> State, i: nat) { exists j: nat :: i <= j && HasReturned(states(j)) }

  /** Every handler that is ever cut off from its client hears from its upstream again. */
  ghost predicate UpstreamsAnswer(states: nat -> State, i: nat) {
    forall j: nat, t: nat :: i <= j && CutOff(states(j), t) ==> HeardAfter(states, t, j)
  }

  lemma ForeverKeepsInv(states: nat -> State, events: nat -> Event, i: nat)
    requires Forever(states, events)
    ensures Inv(states(i))
  {
    hide Inv, Step, Possible;
    if i == 0 {
      StartsWell();
    } else {
      ForeverKeepsInv(states, events, i - 1);
      OneStep(states, events, i - 1);
      StepKeepsInv(states(i - 1), events(i - 1));
    }
  }

  lemma StartsWell()
    ensures Inv(Init())
  {
  }

  lemma OneStep(states: nat -> State, events: nat -> Event, i: nat)
    requires Forever(states, events)
    ensures Possible(states(i), events(i)) && states(i + 1) == Step(states(i), events(i))
  {
  }

  /** A goroutine is where it was until it runs. */
  lemma Unmoved(s: State, e: Event, t: nat)
    requires Possible(s, e) && t < |s.threads| && !Runs(e, t)
    ensures t < |Step(s, e).threads| && Step(s, e).threads[t] == s.threads[t]
  {
  }

  lemma {:induction false} RunsOrStays(states: nat -> State, events: nat -> Event, t: nat, i: nat, k: nat)
    returns (m: nat)
    requires Forever(states, events) && i <= k && t < |states(i).threads|
    ensures i <= m <= k && t < |states(m).threads| && states(m).threads[t] == states(i).threads[t]
    ensures m == k || Runs(events(m), t)
  {
    hide Possible, Step;
    m := i;
    while m < k && !Runs(events(m), t)
      invariant i <= m <= k && t < |states(m).threads| && states(m).threads[t] == states(i).threads[t]
    {
      OneStep(states, events, m);
      Unmoved(states(m), events(m), t);
      m := m + 1;
    }
  }

  lemma {:induction false} ClosedForever(states: nat -> State, events: nat -> Event, i: nat, j: nat)
    requires Forever(states, events) && i <= j && states(i).closed
    ensures states(j).closed && states(j).setter == states(i).setter && Admitted(states(j)) <= Admitted(states(i))
  {
    hide Possible, Step, Inv, Admitted;
    if i < j {
      ClosedForever(states, events, i, j - 1);
      ForeverKeepsInv(states, events, j - 1);
      OneStep(states, events, j - 1);
      SetterStays(states(j - 1), events(j - 1));
      ClosedStays(states(j - 1), events(j - 1));
      StepAdmitsOnlyWhileOpen(states(j - 1), events(j - 1));
    }
  }

  /** The setter on its way to waiting holds the mutex or needs none. */
  lemma SetterIsFree(s: State)
    requires Inv(s) && s.closed && !Waited(s)
    ensures 0 <= s.setter < |s.threads| && Setter(s.threads[s.setter]) && Enabled(s, s.setter)
  {
  }

  lemma SetterAdvances(s: State, e: Event)
    requires Inv(s) && s.closed && !Waited(s) && Possible(s, e) && Runs(e, s.setter)
    ensures s.setter < |Step(s, e).threads|
    ensures var p, q := s.threads[s.setter], Step(s, e).threads[s.setter];
      Ahead(q) < Ahead(p) || (Ahead(q) == Ahead(p) && Unbroken(q) < Unbroken(p))
  {
  }

  function SetterPc(s: State): Pc {
    if 0 <= s.setter < |s.threads| then s.threads[s.setter] else Returned
  }

  /** Close gets as far as waiting. */
  lemma {:induction false} CloseComesToWait(states: nat -> State, events: nat -> Event, i: nat) returns (j: nat)
    requires Forever(states, events) && Fair(states, events) && states(i).closed
    ensures i <= j && Waited(states(j))
    decreases Ahead(SetterPc(states(i))), Unbroken(SetterPc(states(i)))
  {
    hide Possible, Step, Inv, Waited, Enabled, Ahead, Unbroken, Forever;
    if Waited(states(i)) { return i; }
    ForeverKeepsInv(states, events, i);
    SetterIsFree(states(i));
    var t: nat := states(i).setter;
    assert ServedAfter(states, events, t, i);
    var k: nat :| i <= k && ServedAt(states, events, t, k);
    var m := RunsOrStays(states, events, t, i, k);
    ForeverKeepsInv(states, events, m);
    ClosedForever(states, events, i, m);
    StillNotWaited(states(i), states(m));
    SetterIsFree(states(m));
    OneStep(states, events, m);
    SetterAdvances(states(m), events(m));
    ClosedForever(states, events, i, m + 1);
    j := CloseComesToWait(states, events, m + 1);
  }

  lemma StillNotWaited(s: State, r: State)
    requires s.closed && r.closed && s.setter == r.setter && 0 <= s.setter < |s.threads|
    requires s.setter < |r.threads| && r.threads[s.setter] == s.threads[s.setter] && !Waited(s)
    ensures !Waited(r)
  {
  }

  /** Steps left when every handler has been cut off: then nothing is written to a client. */
  function Left(p: Pc): nat {
    if p.Relaying? then 7 else if p.Writing? then 6 else Ahead(p)
  }

  lemma StepsLeft(s: State, t: nat, pick: nat)
    requires Inv(s) && Waited(s) && Possible(s, Run(t, pick))
    ensures Left(Onward(s, t, s.threads[t], pick)) < Left(s.threads[t])
  {
    hide Total;
    assert s.threads[t].Writing? ==> t in s.conns;
  }

  lemma WaitedStays(s: State, e: Event)
    requires Inv(s) && Waited(s) && Possible(s, e)
    ensures Waited(Step(s, e)) && (!e.CallClose? && !e.Run? ==> Step(s, e).threads == s.threads)
  {
  }

  lemma LeftShrinks(s: State, e: Event)
    requires Inv(s) && Waited(s) && Possible(s, e) && e.Run?
    ensures Total(Step(s, e).threads, Left) < Total(s.threads, Left)
  {
    StepsLeft(s, e.t, e.pick);
    hide Onward, Effect, Total, Left;
    EffectKeepsThreads(s, e.t, s.threads[e.t], e.pick);
    TotalUpdate(s.threads, Left, e.t, Onward(s, e.t, s.threads[e.t], e.pick));
  }

  lemma {:induction false} LeftOver(states: nat -> State, events: nat -> Event, i: nat, k: nat)
    requires Forever(states, events) && NoMoreCalls(events, i) && i <= k && Waited(states(i))
    ensures Waited(states(k)) && Total(states(k).threads, Left) <= Total(states(i).threads, Left)
  {
    hide Possible, Step, Inv, Waited, Total, Left;
    if i < k {
      LeftOver(states, events, i, k - 1);
      ForeverKeepsInv(states, events, k - 1);
      OneStep(states, events, k - 1);
      WaitedStays(states(k - 1), events(k - 1));
      if events(k - 1).Run? { LeftShrinks(states(k - 1), events(k - 1)); }
    }
  }

  /** Once Close waits, goroutines take finitely many steps, whatever the peers go on doing. */
  lemma {:induction false} StepsEnd(states: nat -> State, events: nat -> Event, i: nat) returns (j: nat)
    requires Forever(states, events) && NoMoreCalls(events, i) && Waited(states(i))
    ensures i <= j && forall k: nat :: j <= k ==> !events(k).Run?
    decreases Total(states(i).threads, Left)
  {
    hide Possible, Step, Inv, Waited, Total, Left;
    if k: nat :| i <= k && events(k).Run? {
      LeftOver(states, events, i, k);
      ForeverKeepsInv(states, events, k);
      OneStep(states, events, k);
      WaitedStays(states(k), events(k));
      LeftShrinks(states(k), events(k));
      j := StepsEnd(states, events, k + 1);
    } else {
      j := i;
    }
  }

  lemma PeersOnlyEnable(s: State, e: Event, t: nat)
    requires Possible(s, e) && !e.Run? && Enabled(s, t)
    ensures Enabled(Step(s, e), t)
  {
  }

  lemma {:induction false} EnabledTillServed(states: nat -> State, events: nat -> Event, t: nat, j: nat, k: nat)
    requires Forever(states, events) && j <= k && Enabled(states(j), t)
    requires forall m: nat :: j <= m ==> !events(m).Run?
    ensures Enabled(states(k), t)
  {
    hide Possible, Step, Enabled;
    if j < k {
      EnabledTillServed(states, events, t, j, k - 1);
      OneStep(states, events, k - 1);
      PeersOnlyEnable(states(k - 1), events(k - 1), t);
    }
  }

  /** Under a fair scheduler, what no longer moves cannot move. */
  lemma RestIsQuiet(states: nat -> State, events: nat -> Event, j: nat)
    requires Forever(states, events) && Fair(states, events)
    requires forall m: nat :: j <= m ==> !events(m).Run?
    ensures Quiet(states(j))
  {
    hide Possible, Step, Enabled, Forever;
    forall t: nat ensures !Enabled(states(j), t) {
      if Enabled(states(j), t) {
        assert ServedAfter(states, events, t, j);
        var k: nat :| j <= k && ServedAt(states, events, t, k);
        EnabledTillServed(states, events, t, j, k);
        assert false;
      }
    }
  }

  /** If every upstream answers, Close returns. */
  lemma AnsweredMeansReturned(states: nat -> State, events: nat -> Event, i: nat)
    requires Forever(states, events) && Fair(states, events) && NoMoreCalls(events, i) && states(i).closed
    requires UpstreamsAnswer(states, i)
    ensures ReturnsAfter(states, i)
  {
    hide Possible, Step, Inv, Total, Heard, Forever, Fair;
    var w := CloseComesToWait(states, events, i);
    var j := StepsEnd(states, events, w);
    LeftOver(states, events, w, j);
    ForeverKeepsInv(states, events, j);
    RestIsQuiet(states, events, j);
    if !HasReturned(states(j)) {
      var h := CloseWaitsForRelays(states(j));
      assert HeardAfter(states, h, j);
      var k: nat :| j <= k && Heard(states(k), h);
      var m := RunsOrStays(states, events, h, j, k);
      RestIsQuiet(states, events, k);
      ForeverKeepsInv(states, events, k);
      HeardIsEnabled(states(k), h);
      assert false;
    }
  }

  lemma HeardIsEnabled(s: State, t: nat)
    requires t < |s.threads| && s.threads[t].Relaying? && Heard(s, t)
    ensures Enabled(s, t)
  {
  }

  /** If Close returns, every handler it had cut off has heard from its upstream. */
  lemma ReturnedMeansAnswered(states: nat -> State, events: nat -> Event, i: nat)
    requires Forever(states, events) && states(i).closed && ReturnsAfter(states, i)
    ensures UpstreamsAnswer(states, i)
  {
    hide Possible, Step, Inv, Heard, Forever, Enabled, Admitted;
    var r: nat :| i <= r && HasReturned(states(r));
    ForeverKeepsInv(states, events, r);
    ReturnedMeansDrained(states(r), states(r).setter);
    forall j: nat, t: nat | i <= j && CutOff(states(j), t) ensures HeardAfter(states, t, j) {
      InFlightIsAdmitted(states(j), t);
      if r <= j { ClosedForever(states, events, r, j); }
      var m := RunsOrStays(states, events, t, j, r);
      if m == r {
        InFlightIsAdmitted(states(r), t);
      } else {
        OneStep(states, events, m);
        RelayNeedsUpstream(states(m), events(m));
        assert Heard(states(m), t);
      }
    }
  }

  lemma InFlightIsAdmitted(s: State, t: nat)
    requires t < |s.threads| && InFlight(s.threads[t])
    ensures t in Admitted(s)
  {
  }

  lemma RelayNeedsUpstream(s: State, e: Event)
    requires e.Run? && Possible(s, e) && s.threads[e.t].Relaying?
    ensures Heard(s, e.t)
  {
  }

  /**
   * After Close has been called, under any fair schedule and with no more calls of it:
   * the call that set the flag returns if and only if every handler that it has cut
   * off from its client while that waits for an upstream hears from it again.
   * Closing the client's connection does not end that wait.
   */
  lemma CloseReturnsIff(states: nat -> State, events: nat -> Event, i: nat)
    requires Forever(states, events) && Fair(states, events) && NoMoreCalls(events, i) && states(i).closed
    ensures ReturnsAfter(states, i) <==> UpstreamsAnswer(states, i)
  {
    hide ReturnsAfter, UpstreamsAnswer, Forever, Fair, NoMoreCalls;
    if UpstreamsAnswer(states, i) { AnsweredMeansReturned(states, events, i); }
    if ReturnsAfter(states, i) { ReturnedMeansAnswered(states, events, i); }
  }

  // -- A second call of Close ---------------------------------------------------------

  lemma Extended(states: seq<State>, events: seq<Event>, e: Event) returns (s: State, longer: seq<State>,
                 more: seq<Event>)
    requires IsRun(states, events) && |states| == |events| + 1 && Possible(states[|events|], e)
    ensures IsRun(longer, more) && s == Step(states[|events|], e) && |longer| == |more| + 1 && longer[|more|] == s
  {
    s := Step(states[|events|], e);
    longer, more := states + [s], events + [e];
  }

  /** The first connection after i steps. */
  function Alone(i: nat): State
    requires i <= 5
  {
    Init().(threads := [[TrackLock, TrackCheck, TrackInsert, TrackAdd, TrackUnlock, Reading][i]],
            owner := if 1 <= i <= 4 then 0 else FREE, wg := if i >= 4 then 1 else 0,
            conns := if i >= 3 then {0} else {})
  }

  lemma AloneMoves(i: nat)
    requires i < 5
    ensures Possible(Alone(i), Run(0, 0)) && Step(Alone(i), Run(0, 0)) == Alone(i + 1)
  {
  }

  /** A run that admits one connection. */
  lemma OneAdmitted() returns (states: seq<State>, events: seq<Event>)
    ensures IsRun(states, events) && |states| == |events| + 1 && states[|events|] == Alone(5)
  {
    var s := Init();
    states, events := [s], [];
    s, states, events := Extended(states, events, Accept);
    assert s == Alone(0);
    hide IsRun, Step, Possible, Alone;
    for i := 0 to 5
      invariant IsRun(states, events) && |states| == |events| + 1 && states[|events|] == Alone(i)
    {
      AloneMoves(i);
      s, states, events := Extended(states, events, Run(0, 0));
    }
  }

  /** Carried on until the handler has its request and waits for the upstream. */
  lemma OneRelaying() returns (states: seq<State>, events: seq<Event>)
    ensures IsRun(states, events) && |states| == |events| + 1
    ensures states[|events|] == Init().(threads := [Relaying], wg := 1, conns := {0})
  {
    states, events := OneAdmitted();
    hide IsRun;
    var s: State;
    s, states, events := Extended(states, events, ClientActs(0));
    s, states, events := Extended(states, events, Run(0, 1));
    assert {} + {0} - {0} == {};
  }

  /** Carried on by a call of Close up to the closed flag. */
  lemma OneClosed() returns (states: seq<State>, events: seq<Event>)
    ensures IsRun(states, events) && |states| == |events| + 1
    ensures states[|events|]
      == Init().(threads := [Relaying, CloseListener], wg := 1, conns := {0}, owner := 1, closed := true, setter := 1)
  {
    states, events := OneRelaying();
    hide IsRun;
    var s: State;
    s, states, events := Extended(states, events, CallClose);
    for i := 0 to 3
      invariant IsRun(states, events) && |states| == |events| + 1 && s == states[|events|]
      invariant s == Init().(threads := [Relaying, [CloseLock, CloseCheck, SetFlag, CloseListener][i]], wg := 1,
                             conns := {0}, owner := if i > 0 then 1 else FREE, closed := i > 2,
                             setter := if i > 2 then 1 else FREE)
    {
      s, states, events := Extended(states, events, Run(1, 0));
    }
  }

  /**
   * A tunnel whose upstream is idle: Close has closed the client's connection, which
   * was all there were, and waits, and no goroutine can take a step.
   */
  lemma IdleTunnel() returns (states: seq<State>, events: seq<Event>)
    ensures IsRun(states, events) && |states| == |events| + 1
    ensures var s := states[|events|];
      s.threads == [Relaying, Waiting] && s.conns == s.broken == {0} && s.owner == FREE && s.closed && s.setter == 1
      && s.wg == 1 && Quiet(s)
  {
    states, events := OneClosed();
    hide IsRun;
    var s: State;
    for i := 0 to 3
      invariant IsRun(states, events) && |states| == |events| + 1
      invariant var s := states[|events|];
        s.threads == [Relaying, [CloseListener, Snapshot, SnapshotUnlock({0}), Breaking({0})][i]] && s.conns == {0}
        && s.owner == (if i < 3 then 1 else FREE) && s.closed && s.setter == 1 && s.wg == 1 && s.broken == {}
        && s.pending == {} && s.ended == {}
    {
      s, states, events := Extended(states, events, Run(1, 0));
    }
    s, states, events := Extended(states, events, Run(1, 0));
    assert {0} - {0} == {} && {} + {0} == {0};
    s, states, events := Extended(states, events, Run(1, 0));
  }

  /** For ever: a fair run, in which even the client goes on acting, and Close never returns. */
  lemma IdleTunnelHoldsClose() returns (states: nat -> State, events: nat -> Event, i: nat)
    ensures Forever(states, events) && Fair(states, events) && NoMoreCalls(events, i) && states(i).closed
    ensures !ReturnsAfter(states, i)
  {
    var first, before := IdleTunnel();
    i := |before|;
    var rest := Step(first[i], ClientActs(0));
    states := (k: nat) => if k <= |first| - 1 then first[k] else rest;
    events := (k: nat) => if k < |before| then before[k] else ClientActs(0);
    RestRests(first[i], rest);
    forall k: nat ensures Possible(states(k), events(k)) && states(k + 1) == Step(states(k), events(k)) {
      if k < i {
        assert Possible(first[k], before[k]) && first[k + 1] == Step(first[k], before[k]);
      }
    }
    forall t: nat, j: nat ensures ServedAfter(states, events, t, j) {
      var k := j + i + 1;
      assert states(k) == rest && !Enabled(rest, t);
      assert ServedAt(states, events, t, k);
    }
  }

  lemma RestRests(s: State, rest: State)
    requires s.threads == [Relaying, Waiting] && Quiet(s) && rest == Step(s, ClientActs(0))
    ensures Quiet(rest) && Step(rest, ClientActs(0)) == rest && rest.threads == s.threads && rest.setter == s.setter
  {
    assert !Enabled(s, 0) && !Enabled(s, 1);
    assert rest.clients + {0} == rest.clients;
  }

  /**
   * Only the call that set the flag waits: here a second call has returned while
   * the handler of an admitted connection is still running.
   */
  lemma SecondCloseReturnsEarly() returns (states: seq<State>, events: seq<Event>)
    ensures IsRun(states, events) && |states| == |events| + 1
    ensures var s := states[|events|];
      s.threads == [Relaying, Waiting, ReturnedEarly] && s.conns == {0} && s.wg == 1
  {
    states, events := IdleTunnel();
    hide IsRun;
    var s: State;
    s, states, events := Extended(states, events, CallClose);
    for i := 0 to 3
      invariant IsRun(states, events) && |states| == |events| + 1 && s == states[|events|]
      invariant s.threads == [Relaying, Waiting, [CloseLock, CloseCheck, EarlyUnlock, ReturnedEarly][i]]
      invariant s.owner == (if 1 <= i <= 2 then 2 else FREE) && s.closed && s.wg == 1 && s.conns == {0}
    {
      s, states, events := Extended(states, events, Run(2, 0));
    }
  }
}
