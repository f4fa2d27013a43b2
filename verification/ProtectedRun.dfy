// The coordinator of one protected run: the order of the start-up steps, the
// clean-up after any of them fails, waiting, and rolling back.
module ProtectedRun {
  import Lifecycle
  import Overlay

  datatype Call =
    | Mount | StartProcess | AddPid | Prepare | StartRefresh | StopRefresh | Attach | Release
    | WaitProcess | Kill | CleanNetwork | BeforeClose | CloseSensor | CloseScope | Terminate | RollbackOverlay

  datatype Event = Event(call: Call, ok: bool)

  /** What the caller asked for and which optional parts are present. */
  datatype Config = Config(
    complete: bool,      // overlay and starter present, command not empty
    scope: bool,
    network: bool,
    refresher: bool,
    sensorObject: bool,
    sensor: bool,
    gate: bool)

  function Calls(t: seq<Event>): seq<Call> {
    if t == [] then [] else Calls(t[..|t| - 1]) + [t[|t| - 1].call]
  }

  predicate Made(t: seq<Event>, c: Call) {
    t != [] && (t[|t| - 1].call == c || Made(t[..|t| - 1], c))
  }

  predicate Did(t: seq<Event>, c: Call) {
    t != [] && (t[|t| - 1] == Event(c, true) || Did(t[..|t| - 1], c))
  }

  /** How many resources opened by one call are not yet closed by another. */
  function Open(t: seq<Event>, open: Call, close: Call): int {
    if t == [] then 0
    else
      var e := t[|t| - 1];
      Open(t[..|t| - 1], open, close) + (if e == Event(open, true) then 1 else if e.call == close then -1 else 0)
  }

  // -- The part of a trace behind an earlier trace -------------------------------------

  ghost predicate Longer(t: seq<Event>, u: seq<Event>) { t <= u }

  /** No call made since failed. */
  ghost predicate Clean(t: seq<Event>, u: seq<Event>) {
    forall i :: |t| <= i < |u| ==> u[i].ok
  }

  /** This has not happened since. */
  ghost predicate Lacks(t: seq<Event>, u: seq<Event>, e: Event) {
    forall i :: |t| <= i < |u| ==> u[i] != e
  }

  /** No close of the scope has failed since. */
  ghost predicate ScopeShut(t: seq<Event>, u: seq<Event>) { Lacks(t, u, Event(CloseScope, false)) }

  lemma LongerAlone(t: seq<Event>)
    ensures Longer(t, t) && Clean(t, t) && ScopeShut(t, t)
  {
  }

  lemma LongerByOne(t: seq<Event>, e: Event)
    ensures Longer(t, t + [e]) && (Clean(t, t + [e]) <==> e.ok)
    ensures ScopeShut(t, t + [e]) <==> e != Event(CloseScope, false)
  {
    assert (t + [e])[|t|] == e;
  }

  lemma LongerOn(t: seq<Event>, u: seq<Event>, v: seq<Event>)
    requires Longer(t, u) && Longer(u, v)
    ensures Longer(t, v) && (Clean(t, v) <==> Clean(t, u) && Clean(u, v))
    ensures ScopeShut(t, v) <==> ScopeShut(t, u) && ScopeShut(u, v)
  {
    assert forall i :: |t| <= i < |u| ==> u[i] == v[i];
    if Clean(t, v) {
      forall i | |t| <= i < |u| ensures u[i].ok { assert v[i].ok; }
    }
    if ScopeShut(t, v) {
      forall i | |t| <= i < |u| ensures u[i] != Event(CloseScope, false) { assert v[i] != Event(CloseScope, false); }
    }
  }

  lemma TracesGrow()
    ensures forall t :: Longer(t, t) && Clean(t, t) && ScopeShut(t, t)
    ensures forall t, u, v {:trigger Longer(t, u), Longer(u, v)} ::
      Longer(t, u) && Longer(u, v) ==>
        && Longer(t, v) && (Clean(t, v) <==> Clean(t, u) && Clean(u, v))
        && (ScopeShut(t, v) <==> ScopeShut(t, u) && ScopeShut(u, v))
  {
    forall t { LongerAlone(t); }
    forall t, u, v | Longer(t, u) && Longer(u, v) { LongerOn(t, u, v); }
  }

  // -- Safety of a trace -------------------------------------------------------------

  /** Everything that must have succeeded before the agent may run. */
  predicate Ready(t: seq<Event>, cfg: Config) {
    && Did(t, Mount) && Did(t, StartProcess)
    && (cfg.scope ==> Did(t, AddPid))
    && (cfg.network ==> Did(t, Prepare))
    && (cfg.sensorObject ==> Did(t, Attach))
  }

  /**
   * The gate opens only when the run is ready and never after a kill; the agent
   * is killed at most once and never after it was waited for.
   */
  predicate Allowed(t: seq<Event>, c: Call, cfg: Config) {
    && (c == Release ==> Ready(t, cfg) && !Made(t, Kill))
    && (c == Kill ==> !Made(t, Kill) && !Made(t, WaitProcess))
  }

  predicate SafeTrace(t: seq<Event>, cfg: Config) {
    t == [] || (SafeTrace(t[..|t| - 1], cfg) && Allowed(t[..|t| - 1], t[|t| - 1].call, cfg))
  }

  /** Every call of a safe trace was allowed when it was made. */
  lemma {:induction false} SafeAt(t: seq<Event>, cfg: Config, i: nat)
    requires SafeTrace(t, cfg) && i < |t|
    ensures Allowed(t[..i], t[i].call, cfg)
  {
    var s := t[..|t| - 1];
    if i < |s| { SafeAt(s, cfg, i); assert s[..i] == t[..i]; } else { assert s == t[..i]; }
  }

  lemma {:induction false} DidMeans(t: seq<Event>, c: Call)
    ensures Did(t, c) <==> Event(c, true) in t
  {
    if t != [] {
      var s, e := t[..|t| - 1], t[|t| - 1];
      DidMeans(s, c);
      assert forall x :: x in t <==> x in s || x == e;
    }
  }

  lemma {:induction false} MadeMeans(t: seq<Event>, c: Call)
    ensures Made(t, c) <==> exists j :: 0 <= j < |t| && t[j].call == c
  {
    if t != [] {
      var s := t[..|t| - 1];
      MadeMeans(s, c);
      if exists j :: 0 <= j < |t| && t[j].call == c {
        var j :| 0 <= j < |t| && t[j].call == c;
        if j < |s| { assert s[j].call == c; }
      }
    }
  }

  /** What safety means at a gate release: each required step is in the trace before it, and no kill is. */
  lemma ReleaseComesLast(t: seq<Event>, cfg: Config, i: nat, j: nat)
    requires SafeTrace(t, cfg) && j < i < |t| && t[i].call == Release
    ensures Event(Mount, true) in t[..i] && Event(StartProcess, true) in t[..i]
    ensures cfg.scope ==> Event(AddPid, true) in t[..i]
    ensures cfg.network ==> Event(Prepare, true) in t[..i]
    ensures cfg.sensorObject ==> Event(Attach, true) in t[..i]
    ensures t[j].call != Kill
  {
    SafeAt(t, cfg, i);
    DidMeans(t[..i], Mount);
    DidMeans(t[..i], StartProcess);
    DidMeans(t[..i], AddPid);
    DidMeans(t[..i], Prepare);
    DidMeans(t[..i], Attach);
    MadeMeans(t[..i], Kill);
    assert t[..i][j] == t[j];
  }

  /** What safety means at a kill. */
  lemma KilledOnceAndUnwaited(t: seq<Event>, cfg: Config, i: nat, j: nat)
    requires SafeTrace(t, cfg) && j < i < |t| && t[i].call == Kill
    ensures t[j].call != Kill && t[j].call != WaitProcess
  {
    SafeAt(t, cfg, i);
    MadeMeans(t[..i], Kill);
    MadeMeans(t[..i], WaitProcess);
    assert t[..i][j] == t[j];
  }

  lemma Snoc(t: seq<Event>, e: Event, c: Call, d: Call)
    ensures Made(t + [e], c) <==> Made(t, c) || e.call == c
    ensures Did(t + [e], c) <==> Did(t, c) || e == Event(c, true)
    ensures Open(t + [e], c, d) == Open(t, c, d) + (if e == Event(c, true) then 1 else if e.call == d then -1 else 0)
  {
    assert (t + [e])[..|t|] == t;
  }

  lemma SnocTrace(t: seq<Event>, e: Event, cfg: Config)
    ensures Calls(t + [e]) == Calls(t) + [e.call]
    ensures SafeTrace(t + [e], cfg) <==> SafeTrace(t, cfg) && Allowed(t, e.call, cfg)
  {
    assert (t + [e])[..|t|] == t;
  }

  // -- What a handle holds ----------------------------------------------------------------

  datatype Held = Held(process: bool, waited: bool, sensor: bool, network: bool, stopRefresh: bool)

  /** Steps that have succeeded at some time. */
  datatype Got = Got(mounted: bool, admitted: bool, prepared: bool, attached: bool, released: bool, rolledBack: bool)

  /**
   * The trace is safe, what is held is exactly what the trace leaves open, and
   * what has been got is what the trace says succeeded.
   */
  predicate Accounts(t: seq<Event>, cfg: Config, h: Held, g: Got) {
    SafeTrace(t, cfg) && GotRight(t, g) && HeldRight(t, h)
  }

  predicate GotRight(t: seq<Event>, g: Got) {
    && (g.mounted <==> Did(t, Mount))
    && (g.admitted <==> Did(t, AddPid))
    && (g.prepared <==> Did(t, Prepare))
    && (g.attached <==> Did(t, Attach))
    && (g.released <==> Did(t, Release))
    && (g.rolledBack <==> Did(t, RollbackOverlay))
  }

  predicate HeldRight(t: seq<Event>, h: Held) {
    && Open(t, Attach, CloseSensor) == (if h.sensor then 1 else 0)
    && Open(t, StartRefresh, StopRefresh) == (if h.stopRefresh then 1 else 0)
    && Open(t, Prepare, CleanNetwork) == (if h.network then 1 else 0)
    && (h.process <==> Did(t, StartProcess))
    && (!h.process || !h.waited ==> !Made(t, Kill))
    && (!h.waited ==> !Made(t, WaitProcess))
  }

  /** What is held after one more call. */
  function After(h: Held, e: Event): Held {
    match e.call
    case StartProcess => h.(process := h.process || e.ok)
    case Attach => h.(sensor := h.sensor || e.ok)
    case CloseSensor => h.(sensor := false)
    case Prepare => h.(network := h.network || e.ok)
    case CleanNetwork => h.(network := false)
    case StartRefresh => h.(stopRefresh := true)
    case StopRefresh => h.(stopRefresh := false)
    case Kill => h.(waited := true)
    case WaitProcess => h.(waited := true)
    case _ => h
  }

  function AfterGot(g: Got, e: Event): Got {
    if !e.ok then g
    else match e.call
      case Mount => g.(mounted := true)
      case AddPid => g.(admitted := true)
      case Prepare => g.(prepared := true)
      case Attach => g.(attached := true)
      case Release => g.(released := true)
      case RollbackOverlay => g.(rolledBack := true)
      case _ => g
  }

  /** May the gate be released? */
  predicate GateOpen(h: Held, g: Got, cfg: Config) {
    && g.mounted && h.process && !h.waited
    && (cfg.scope ==> g.admitted) && (cfg.network ==> g.prepared) && (cfg.sensorObject ==> g.attached)
  }

  /** A call on something that is there, or that is not there yet. */
  predicate Fits(h: Held, e: Event) {
    match e.call
    case StartProcess => !h.process && !h.waited
    case Attach => !h.sensor
    case CloseSensor => h.sensor
    case Prepare => !h.network
    case CleanNetwork => h.network
    case StartRefresh => !h.stopRefresh && e.ok
    case StopRefresh => h.stopRefresh
    case Kill => h.process && !h.waited
    case WaitProcess => h.process
    case _ => true
  }

  lemma Recorded(t: seq<Event>, e: Event, cfg: Config, h: Held, g: Got)
    requires Accounts(t, cfg, h, g) && Fits(h, e) && (e.call == Release ==> GateOpen(h, g, cfg))
    ensures Accounts(t + [e], cfg, After(h, e), AfterGot(g, e))
    ensures Calls(t + [e]) == Calls(t) + [e.call]
  {
    RecordedSafe(t, e, cfg, h, g);
    RecordedGot(t, e, g);
    RecordedHeld(t, e, h);
    SnocTrace(t, e, cfg);
    hide SafeTrace, GotRight, HeldRight, Calls, After, AfterGot, Fits, GateOpen;
  }

  lemma RecordedSafe(t: seq<Event>, e: Event, cfg: Config, h: Held, g: Got)
    requires Accounts(t, cfg, h, g) && Fits(h, e) && (e.call == Release ==> GateOpen(h, g, cfg))
    ensures SafeTrace(t + [e], cfg)
  {
    hide Did, Made, Open, SafeTrace;
    SnocTrace(t, e, cfg);
  }

  lemma RecordedGot(t: seq<Event>, e: Event, g: Got)
    requires GotRight(t, g)
    ensures GotRight(t + [e], AfterGot(g, e))
  {
    hide Did, Made, Open;
    Snoc(t, e, Mount, Mount);
    Snoc(t, e, AddPid, AddPid);
    Snoc(t, e, Prepare, Prepare);
    Snoc(t, e, Attach, Attach);
    Snoc(t, e, Release, Release);
    Snoc(t, e, RollbackOverlay, RollbackOverlay);
  }

  lemma RecordedHeld(t: seq<Event>, e: Event, h: Held)
    requires HeldRight(t, h) && Fits(h, e)
    ensures HeldRight(t + [e], After(h, e))
  {
    hide Did, Made, Open;
    Snoc(t, e, Attach, CloseSensor);
    Snoc(t, e, StartRefresh, StopRefresh);
    Snoc(t, e, Prepare, CleanNetwork);
    Snoc(t, e, StartProcess, StartProcess);
    Snoc(t, e, Kill, Kill);
    Snoc(t, e, WaitProcess, WaitProcess);
  }

  function Then(calls: seq<Call>, when: bool, next: Call): seq<Call> {
    if when then calls + [next] else calls
  }

  /** The calls that undo a start-up, given what had been started, after the calls made so far. */
  function CleanedUp(calls: seq<Call>, started: bool, attached: bool, refreshing: bool, scope: bool): seq<Call> {
    Stopped(calls, started, attached, refreshing, scope) + [RollbackOverlay]
  }

  function Stopped(calls: seq<Call>, started: bool, attached: bool, refreshing: bool, scope: bool): seq<Call> {
    var quiet := Then(Then(Then(calls, started, Kill), attached, CloseSensor), refreshing, StopRefresh);
    Then(Then(quiet, scope, Terminate), scope, CloseScope)
  }

  const BOOTED: nat := 6

  /** The call that each stage of a start-up makes, and when it makes it. */
  function StepOf(stage: nat): Call {
    match stage
    case 0 => Mount
    case 1 => StartProcess
    case 2 => AddPid
    case 3 => Prepare
    case 4 => StartRefresh
    case 5 => Attach
    case _ => Release
  }

  predicate Due(cfg: Config, stage: nat) {
    match stage
    case 0 => true
    case 1 => true
    case 2 => cfg.scope
    case 3 => cfg.network
    case 4 => cfg.network && cfg.refresher
    case 5 => cfg.sensorObject
    case _ => cfg.gate
  }

  /** The calls of a start-up that has got to a given stage. */
  function BootCalls(cfg: Config, stage: nat): seq<Call> {
    Then(if stage == 0 then [] else BootCalls(cfg, stage - 1), Due(cfg, stage), StepOf(stage))
  }

  lemma BootNext(cfg: Config, stage: nat)
    requires 0 < stage <= BOOTED
    ensures BootCalls(cfg, 0) == Then([], true, Mount) == [Mount]
    ensures BootCalls(cfg, stage) == Then(BootCalls(cfg, stage - 1), Due(cfg, stage), StepOf(stage))
  {
  }

  /** Every step before the given stage has succeeded. */
  predicate OkBefore(cfg: Config, stage: nat, started: bool, g: Got) {
    && g.mounted
    && (stage > 1 ==> started)
    && (stage > 2 && cfg.scope ==> g.admitted)
    && (stage > 3 && cfg.network ==> g.prepared)
    && (stage > 5 && cfg.sensorObject ==> g.attached)
  }

  /** A start-up that stopped at a stage, followed by exactly the clean-up of what it had started. */
  ghost predicate FailedBoot(calls: seq<Call>, cfg: Config, started: bool, g: Got) {
    exists stage :: FailedAt(calls, cfg, stage, started, g)
  }

  ghost predicate FailedAt(calls: seq<Call>, cfg: Config, stage: nat, started: bool, g: Got) {
    && stage <= BOOTED && OkBefore(cfg, stage, started, g)
    && calls == CleanedUp(BootCalls(cfg, stage), started, g.attached,
                          stage > 3 && cfg.network && cfg.refresher, cfg.scope)
  }

  function Ending(succeeded: bool): Lifecycle.State {
    if succeeded then Lifecycle.Succeeded else Lifecycle.Failed
  }

  function AfterWait(id: string, state: Lifecycle.State, succeeded: bool): Lifecycle.State {
    if id != "" && (state, Ending(succeeded)) in Lifecycle.EDGES then Ending(succeeded) else state
  }

  /** The states a run is rolled back from. */
  predicate Settled(state: Lifecycle.State) {
    state.Failed? || state.Succeeded? || state.Paused?
  }

  lemma WaitMeans(id: string, state: Lifecycle.State, succeeded: bool)
    ensures (state, Lifecycle.Succeeded) in Lifecycle.EDGES <==> state.Running?
    ensures id != "" && state.Running? ==>
      AfterWait(id, state, succeeded) == if succeeded then Lifecycle.Succeeded else Lifecycle.Failed
  {
  }

  function AfterRollback(id: string, state: Lifecycle.State): Lifecycle.State {
    if id != "" && Settled(state) then Lifecycle.RolledBack else state
  }

  /** The calls that follow the end of the agent. */
  function Closed(calls: seq<Call>, h: Held, hook: bool, scope: bool, scopeOk: bool): seq<Call> {
    var offline := Then(Then(calls, h.network && h.stopRefresh, StopRefresh), h.network, CleanNetwork);
    var quiet := Then(Then(offline, hook, BeforeClose), h.sensor, CloseSensor);
    Then(Then(Then(quiet, scope, CloseScope), !scopeOk, Terminate), !scopeOk, CloseScope)
  }

  /** The calls that stop a run before its layers are rolled back. */
  function Halted(calls: seq<Call>, h: Held, scope: bool): seq<Call> {
    var dead := Then(calls, h.process && !h.waited, Kill);
    var offline := Then(Then(dead, h.network && h.stopRefresh, StopRefresh), h.network, CleanNetwork);
    var quiet := Then(offline, h.sensor, CloseSensor);
    Then(Then(quiet, scope, Terminate), scope, CloseScope)
  }

  /** A sensor that is asked for is there and can be told whom to watch. */
  predicate CanAttach(cfg: Config, pid: nat) {
    cfg.sensorObject ==> cfg.sensor && pid != 0
  }

  // -- The handle of a started run --------------------------------------------------------

  /** The coordinator's view of the overlay: it can be mounted and rolled back. */
  class Port {
    const manager: Overlay.Manager
    ghost var intact: bool  // the layers may still hold the agent's work
    ghost var up: bool      // the last mount worked

    ghost predicate Valid()
      reads this, manager
    {
      intact <==> manager.upper.Kept? || manager.work.Kept?
    }

    constructor (manager: Overlay.Manager)
      ensures Valid() && this.manager == manager && !up
    {
      this.manager := manager;
      up := false;
      intact := manager.upper.Kept? || manager.work.Kept?;
    }

    /** Unmounting would end in a way that lets the layers go. */
    ghost predicate Accepts()
      reads manager
    {
      var m := manager;
      m.layoutValid &&
      Overlay.Accepted(
        Overlay.Unmounting(m.world, m.setting, m.ran, m.live, Overlay.MAX_RETRIES).error, m.setting.backend)
    }

    method Mount() returns (ok: bool)
      requires Valid()
      modifies this, manager
      ensures Valid() && (ok ==> intact) && up == ok
      ensures manager.Works(old(manager.faults), ok, manager.layoutValid)
    {
      ok := manager.Mount();
      up := ok;
      intact := manager.upper.Kept? || manager.work.Kept?;
    }

    method Rollback() returns (ok: bool)
      requires Valid()
      modifies this, manager
      ensures Valid() && (ok ==> !intact) && (intact ==> old(intact))
      ensures manager.Works(old(manager.faults), ok, old(Accepts()))
    {
      ghost var ended;
      ok, ended := manager.Rollback();
      intact := manager.upper.Kept? || manager.work.Kept?;
    }
  }

  ghost predicate Recording(t: seq<Event>, calls: seq<Call>, cfg: Config, h: Held, g: Got) {
    Accounts(t, cfg, h, g) && calls == Calls(t)
  }

  lemma StillRecording(t: seq<Event>, calls: seq<Call>, e: Event, cfg: Config, h: Held, g: Got)
    requires Recording(t, calls, cfg, h, g) && Fits(h, e) && (e.call == Release ==> GateOpen(h, g, cfg))
    ensures Recording(t + [e], calls + [e.call], cfg, After(h, e), AfterGot(g, e))
  {
    Recorded(t, e, cfg, h, g);
  }

  lemma MountedTrace(cfg: Config)
    ensures Accounts([Event(Mount, true)], cfg, Held(false, false, false, false, false),
      Got(true, false, false, false, false, false))
    ensures Calls([Event(Mount, true)]) == [Mount]
  {
    assert [] + [Event(Mount, true)] == [Event(Mount, true)];
    Recorded([], Event(Mount, true), cfg, Held(false, false, false, false, false),
      Got(false, false, false, false, false, false));
  }

  class Handle {
    const cfg: Config
    const run: Lifecycle.Run
    const overlay: Port
    var process: bool
    var waited: bool
    var sensor: bool
    var scope: bool
    var network: bool
    var stopRefresh: bool
    ghost var trace: seq<Event>  // every call made for this run
    ghost var calls: seq<Call>
    ghost var got: Got

    function Holds(): Held
      reads this`process, this`waited, this`sensor, this`network, this`stopRefresh
    {
      Held(process, waited, sensor, network, stopRefresh)
    }

    ghost predicate Valid()
      reads this`process, this`waited, this`sensor, this`network, this`stopRefresh, this`trace, this`calls, this`got
    {
      Recording(trace, calls, cfg, Holds(), got)
    }

    /** A run that counts as rolled back has had its layers discarded. */
    ghost predicate Undone()
      reads this`got, run, overlay, overlay.manager
    {
      && overlay.Valid()
      && (run.state.RolledBack? ==> got.rolledBack)
      && (got.rolledBack ==> !overlay.intact)
    }

    /** The handle after a successful mount. */
    constructor (cfg: Config, run: Lifecycle.Run, overlay: Port)
      requires !run.state.RolledBack? && overlay.Valid() && overlay.up
      ensures Valid() && Undone() && this.cfg == cfg && this.run == run && this.overlay == overlay
      ensures Holds() == Held(false, false, false, false, false) && scope == cfg.scope
      ensures trace == [Event(Mount, true)] && calls == [Mount] && got == Got(true, false, false, false, false, false)
    {
      this.cfg := cfg;
      this.run := run;
      this.overlay := overlay;
      process, waited, sensor, network, stopRefresh := false, false, false, false, false;
      scope := cfg.scope;
      trace := [Event(Mount, true)];
      calls := [Mount];
      got := Got(true, false, false, false, false, false);
      new;
      MountedTrace(cfg);
    }

    /** Write down a call that has just changed the handle from before to what it is now. */
    ghost method Log(c: Call, ok: bool, before: Held)
      requires Recording(trace, calls, cfg, before, got) && Fits(before, Event(c, ok))
      requires c == Release ==> GateOpen(before, got, cfg)
      requires Holds() == After(before, Event(c, ok))
      modifies this`trace, this`calls, this`got
      ensures Valid()
      ensures got == AfterGot(old(got), Event(c, ok))
      ensures calls == old(calls) + [c] && trace == old(trace) + [Event(c, ok)]
      ensures Longer(old(trace), trace) && (Clean(old(trace), trace) <==> ok)
      ensures ScopeShut(old(trace), trace) <==> c != CloseScope || ok
    {
      hide Recording, Longer, Clean, ScopeShut;
      LongerByOne(trace, Event(c, ok));
      StillRecording(trace, calls, Event(c, ok), cfg, before, got);
      trace := trace + [Event(c, ok)];
      calls := calls + [c];
      got := AfterGot(got, Event(c, ok));
    }

    /** A call that neither opens nor closes anything the handle keeps. */
    method Do(c: Call) returns (ok: bool)
      requires Valid() && (c == AddPid || c == BeforeClose || c == CloseScope || c == Terminate || c == Release)
      requires c == Release ==> GateOpen(Holds(), got, cfg)
      modifies this`trace, this`calls, this`got
      ensures Valid() && calls == old(calls) + [c] && trace == old(trace) + [Event(c, ok)]
      ensures got == AfterGot(old(got), Event(c, ok))
      ensures Longer(old(trace), trace) && (Clean(old(trace), trace) <==> ok)
      ensures ScopeShut(old(trace), trace) <==> c != CloseScope || ok
    {
      ok := *;
      Log(c, ok, Holds());
    }

    method KillProcess() returns (ok: bool)
      requires Valid()
      modifies this`waited, this`trace, this`calls, this`got
      ensures Valid() && waited == (process || old(waited))
      ensures calls == Then(old(calls), process && !old(waited), Kill)
      ensures got == old(got)
      ensures Longer(old(trace), trace) && (Clean(old(trace), trace) <==> ok) && ScopeShut(old(trace), trace)
    {
      hide Recording, Accounts, Longer, Clean, ScopeShut;
      TracesGrow();
      if !process || waited { return true; }
      ok := *;
      ghost var before := Holds();
      waited := true;
      Log(Kill, ok, before);
    }

    method StopNetworkRefresh()
      requires Valid()
      modifies this`stopRefresh, this`trace, this`calls, this`got
      ensures Valid() && !stopRefresh
      ensures calls == Then(old(calls), old(stopRefresh), StopRefresh)
      ensures got == old(got)
      ensures Longer(old(trace), trace) && Clean(old(trace), trace) && ScopeShut(old(trace), trace)
    {
      hide Recording, Accounts, Longer, Clean, ScopeShut;
      TracesGrow();
      if !stopRefresh { return; }
      ghost var before := Holds();
      stopRefresh := false;
      Log(StopRefresh, true, before);
    }

    method DropSensor() returns (ok: bool)
      requires Valid()
      modifies this`sensor, this`trace, this`calls, this`got
      ensures Valid() && !sensor
      ensures calls == Then(old(calls), old(sensor), CloseSensor)
      ensures got == old(got)
      ensures Longer(old(trace), trace) && (Clean(old(trace), trace) <==> ok) && ScopeShut(old(trace), trace)
    {
      hide Recording, Accounts, Longer, Clean, ScopeShut;
      TracesGrow();
      if !sensor { return true; }
      ok := *;
      ghost var before := Holds();
      sensor := false;
      Log(CloseSensor, ok, before);
    }

    /** closeScope: a scope that does not close is terminated and closed once more. */
    method DropScope() returns (ok: bool)
      requires Valid()
      modifies this`scope, this`trace, this`calls, this`got
      ensures Valid() && !scope && (!old(scope) ==> ok)
      ensures calls == Then(Then(Then(old(calls), old(scope), CloseScope), !ok, Terminate), !ok, CloseScope)
      ensures got == old(got)
      ensures Longer(old(trace), trace) && (Clean(old(trace), trace) <==> ok)
      ensures ScopeShut(old(trace), trace) <==> ok
    {
      hide Recording, Longer, Clean, ScopeShut;
      TracesGrow();
      if !scope { return true; }
      ok := Do(CloseScope);
      if !ok { var terminated := TerminateScope(); }
      scope := false;
    }

    /** Terminate and close the scope; the handle keeps it. */
    method TerminateScope() returns (ok: bool)
      requires Valid()
      modifies this`trace, this`calls, this`got
      ensures Valid()
      ensures calls == Then(Then(old(calls), scope, Terminate), scope, CloseScope)
      ensures got == old(got)
      ensures Longer(old(trace), trace) && (Clean(old(trace), trace) <==> ok)
    {
      hide Recording, Longer, Clean, ScopeShut;
      TracesGrow();
      if !scope { return true; }
      var terminated := Do(Terminate);
      var closed := Do(CloseScope);
      ok := terminated && closed;
    }

    method CleanUpNetwork() returns (ok: bool)
      requires Valid()
      modifies this`network, this`stopRefresh, this`trace, this`calls, this`got
      ensures Valid() && !network && (!old(network) ==> ok && stopRefresh == old(stopRefresh))
        && (old(network) ==> !stopRefresh)
      ensures calls ==
        Then(Then(old(calls), old(network && stopRefresh), StopRefresh), old(network), CleanNetwork)
      ensures got == old(got)
      ensures Longer(old(trace), trace) && (Clean(old(trace), trace) <==> ok) && ScopeShut(old(trace), trace)
    {
      hide Recording, Accounts, Longer, Clean, ScopeShut;
      TracesGrow();
      if !network { return true; }
      StopNetworkRefresh();
      ok := *;
      ghost var before := Holds();
      network := false;
      Log(CleanNetwork, ok, before);
    }

    /** Roll the layers back and write it down. */
    method RollBackOverlay() returns (ok: bool)
      requires Valid() && Undone()
      modifies this`trace, this`calls, this`got, overlay, overlay.manager
      ensures Valid() && Undone()
      ensures calls == old(calls) + [RollbackOverlay]
      ensures got == if ok then old(got).(rolledBack := true) else old(got)
      ensures ok ==> !overlay.intact
      ensures trace == old(trace) + [Event(RollbackOverlay, ok)]
      ensures Longer(old(trace), trace) && (Clean(old(trace), trace) <==> ok) && ScopeShut(old(trace), trace)
      ensures overlay.manager.Works(old(overlay.manager.faults), ok, old(overlay.Accepts()))
    {
      hide Recording, Longer, Clean, ScopeShut;
      ok := overlay.Rollback();
      Log(RollbackOverlay, ok, Holds());
    }

    method StopEverything()
      requires Valid()
      modifies this`waited, this`sensor, this`stopRefresh, this`trace, this`calls, this`got
      ensures Valid() && !sensor && !stopRefresh && (process ==> waited)
      ensures calls == Stopped(old(calls), old(process && !waited), old(sensor), old(stopRefresh), scope)
      ensures got == old(got)
      ensures Longer(old(trace), trace)
    {
      hide Longer, Clean, ScopeShut;
      TracesGrow();
      var killed := KillProcess();
      var sensorOk := DropSensor();
      StopNetworkRefresh();
      var scopeOk := TerminateScope();
    }

    method FailRun() returns (ok: bool)
      requires Undone()
      modifies run
      ensures Undone()
      ensures run.state == if run.id != "" && old(run.state).Running? then Lifecycle.Failed else old(run.state)
      ensures ok <==> run.id != "" || !old(run.state).Running?
    {
      ok := true;
      if run.state.Running? { ok := run.Transition(Lifecycle.Failed); }
    }

    /** Discard the layers and then mark a failed run as rolled back. */
    method UndoOverlay() returns (ok: bool)
      requires Valid() && Undone()
      modifies this`trace, this`calls, this`got, run, overlay, overlay.manager
      ensures Valid() && Undone()
      ensures calls == old(calls) + [RollbackOverlay]
      ensures got == if ok then old(got).(rolledBack := true) else old(got)
      ensures run.state == if ok && run.id != "" && old(run.state).Failed? then Lifecycle.RolledBack else old(run.state)
      ensures Longer(old(trace), trace)
      ensures overlay.manager.Works(old(overlay.manager.faults), ok, old(overlay.Accepts()))
    {
      hide Recording, Longer, Clean, ScopeShut;
      TracesGrow();
      ok := RollBackOverlay();
      if ok && run.state.Failed? { var moved := run.Transition(Lifecycle.RolledBack); }
    }

    /** failAndRollback: undo exactly what had been started. */
    method FailAndRollback() returns (ok: bool)
      requires Valid() && Undone() && !run.state.RolledBack?
      modifies this, run, overlay, overlay.manager
      ensures Valid() && Undone() && !sensor && !stopRefresh && (process ==> waited)
      ensures process == old(process) && network == old(network)
      ensures calls ==
        CleanedUp(old(calls), old(process && !waited), old(sensor), old(stopRefresh), old(scope))
      ensures got == if ok then old(got).(rolledBack := true) else old(got)
      ensures run.state.RolledBack? <==> ok && run.id != "" && (old(run.state).Running? || old(run.state).Failed?)
      ensures Longer(old(trace), trace)
      ensures overlay.manager.Works(old(overlay.manager.faults), ok, old(overlay.Accepts()))
    {
      hide Recording, Stopped, Longer, Clean, ScopeShut;
      TracesGrow();
      StopEverything();
      var moved := FailRun();
      ok := UndoOverlay();
    }

    // -- The steps of a start-up

    method StartAgent() returns (ok: bool)
      requires Valid() && !process && !waited
      modifies this`process, this`trace, this`calls, this`got
      ensures Valid() && process == ok && calls == old(calls) + [StartProcess] && got == old(got)
      ensures Longer(old(trace), trace) && (Clean(old(trace), trace) <==> ok)
    {
      hide Longer, Clean, ScopeShut;
      TracesGrow();
      ok := *;
      ghost var before := Holds();
      process := ok;
      Log(StartProcess, ok, before);
    }

    method PrepareNetwork() returns (ok: bool)
      requires Valid() && !network && !stopRefresh
      modifies this`network, this`stopRefresh, this`trace, this`calls, this`got
      ensures Valid() && network == (ok && cfg.network) && stopRefresh == (network && cfg.refresher)
      ensures !cfg.network ==> ok
      ensures calls == Then(Then(old(calls), cfg.network, Prepare), stopRefresh, StartRefresh)
      ensures got == if ok && cfg.network then old(got).(prepared := true) else old(got)
      ensures Longer(old(trace), trace) && (Clean(old(trace), trace) <==> ok)
    {
      hide Recording, Accounts, Longer, Clean, ScopeShut;
      TracesGrow();
      if !cfg.network { return true; }
      ok := *;
      ghost var before := Holds();
      network := ok;
      Log(Prepare, ok, before);
      if ok && cfg.refresher {
        before := Holds();
        stopRefresh := true;
        Log(StartRefresh, true, before);
      }
    }

    /** Attach the sensor, which must be there and needs a process ID. */
    method AttachSensor(pid: nat) returns (ok: bool, asked: bool)
      requires Valid() && !sensor
      modifies this`sensor, this`trace, this`calls, this`got
      ensures Valid() && sensor == (ok && cfg.sensorObject)
      ensures !cfg.sensorObject ==> ok && asked
      ensures asked <==> CanAttach(cfg, pid)
      ensures !asked ==> !ok
      ensures calls == Then(old(calls), cfg.sensorObject && asked, Attach)
      ensures got == if ok && cfg.sensorObject then old(got).(attached := true) else old(got)
      ensures Longer(old(trace), trace) && (ok <==> Clean(old(trace), trace) && asked)
    {
      hide Longer, Clean, ScopeShut;
      TracesGrow();
      if !cfg.sensorObject { return true, true; }
      if !cfg.sensor || pid == 0 { return false, false; }
      asked := true;
      ok := *;
      ghost var before := Holds();
      sensor := ok;
      Log(Attach, ok, before);
    }

    /** Start the agent and put it into its scope. */
    method EnterScope() returns (ok: bool, ghost stage: nat)
      requires Valid() && calls == BootCalls(cfg, 0) && scope == cfg.scope && !process && !waited
      requires got == Got(true, false, false, false, false, false)
      modifies this`process, this`trace, this`calls, this`got
      ensures Valid() && 1 <= stage <= 2 && calls == BootCalls(cfg, stage) && process == (ok || stage == 2)
      ensures got == Got(true, got.admitted, false, false, false, false)
      ensures ok ==> stage == 2 && (cfg.scope ==> got.admitted)
      ensures Longer(old(trace), trace) && (Clean(old(trace), trace) <==> ok)
    {
      hide Recording, BootCalls, Longer, Clean, ScopeShut;
      TracesGrow();
      BootNext(cfg, 1);
      BootNext(cfg, 2);
      ok := StartAgent();
      if !ok { return false, 1; }
      if scope { ok := Do(AddPid); }
      return ok, 2;
    }

    /** Attach the sensor and release the gate. */
    method OpenGate(pid: nat) returns (ok: bool, ghost stage: nat)
      requires Valid() && calls == BootCalls(cfg, 4) && process && !waited && !sensor
      requires OkBefore(cfg, 4, process, got) && !got.attached && !got.released
      modifies this`sensor, this`trace, this`calls, this`got
      ensures Valid() && 4 <= stage <= BOOTED && calls == BootCalls(cfg, stage) && OkBefore(cfg, stage, process, got)
      ensures sensor == got.attached && got == old(got).(attached := got.attached, released := ok && cfg.gate)
      ensures ok ==> stage == BOOTED && sensor == cfg.sensorObject
      ensures Longer(old(trace), trace) && (ok <==> Clean(old(trace), trace) && CanAttach(cfg, pid))
    {
      hide Recording, BootCalls, Longer, Clean, ScopeShut;
      TracesGrow();
      BootNext(cfg, 5);
      BootNext(cfg, 6);
      var asked: bool;
      ok, asked := AttachSensor(pid);
      if !ok { return false, if asked then 5 else 4; }
      if cfg.gate { ok := Do(Release); }
      return ok, BOOTED;
    }

    /** Everything between the mount and the release of the gate. */
    method RunSteps(pid: nat) returns (ok: bool, ghost stage: nat)
      requires Valid() && calls == BootCalls(cfg, 0) && scope == cfg.scope
      requires Holds() == Held(false, false, false, false, false) && got == Got(true, false, false, false, false, false)
      modifies this`process, this`sensor, this`network, this`stopRefresh, this`trace, this`calls, this`got
      ensures Valid() && stage <= BOOTED && calls == BootCalls(cfg, stage) && OkBefore(cfg, stage, process, got)
      ensures sensor == got.attached && stopRefresh == (stage > 3 && cfg.network && cfg.refresher) && !got.rolledBack
      ensures got.released == (ok && cfg.gate)
      ensures network == got.prepared
      ensures ok ==> stage == BOOTED && sensor == cfg.sensorObject && network == cfg.network
      ensures Longer(old(trace), trace) && (ok <==> Clean(old(trace), trace) && CanAttach(cfg, pid))
    {
      hide Recording, BootCalls, Longer, Clean, ScopeShut;
      TracesGrow();
      ok, stage := EnterScope();
      if !ok { return; }
      BootNext(cfg, 3);
      BootNext(cfg, 4);
      ok := PrepareNetwork();
      if !ok { return false, 3; }
      ok, stage := OpenGate(pid);
    }

    // -- After the start

    /** wait's way out of the running state. */
    method Conclude(succeeded: bool) returns (ok: bool)
      requires Undone()
      modifies run
      ensures Undone()
      ensures run.state == AfterWait(run.id, old(run.state), succeeded)
      ensures ok <==> run.id != "" && (old(run.state), Ending(succeeded)) in Lifecycle.EDGES
    {
      ok := run.Transition(Ending(succeeded));
    }

    /** The network's clean-up, and then the caller's hook. */
    method CloseNetwork(hook: bool) returns (ok: bool)
      requires Valid()
      modifies this`network, this`stopRefresh, this`trace, this`calls, this`got
      ensures Valid() && !network && (!old(network) ==> stopRefresh == old(stopRefresh))
        && (old(network) ==> !stopRefresh)
      ensures calls == Then(
        Then(Then(old(calls), old(network && stopRefresh), StopRefresh), old(network), CleanNetwork), hook, BeforeClose)
      ensures got == old(got)
      ensures Longer(old(trace), trace) && (Clean(old(trace), trace) <==> ok) && ScopeShut(old(trace), trace)
    {
      hide Recording, Longer, Clean, ScopeShut;
      TracesGrow();
      ok := CleanUpNetwork();
      if hook {
        var hookOk := Do(BeforeClose);
        ok := ok && hookOk;
      }
    }

    /** The clean-up that follows the end of the agent, whatever its result. */
    method CloseDown(hook: bool) returns (scopeOk: bool, restOk: bool)
      requires Valid()
      modifies this`network, this`stopRefresh, this`sensor, this`scope, this`trace, this`calls, this`got
      ensures Valid() && !network && !sensor && !scope && (old(network) ==> !stopRefresh)
      ensures calls == Closed(old(calls), old(Holds()), hook, old(scope), scopeOk)
      ensures got == old(got)
      ensures Longer(old(trace), trace) && (Clean(old(trace), trace) <==> scopeOk && restOk)
      ensures ScopeShut(old(trace), trace) <==> scopeOk
    {
      hide Recording, Longer, Clean, ScopeShut;
      TracesGrow();
      var networkOk := CloseNetwork(hook);
      var sensorOk := DropSensor();
      scopeOk := DropScope();
      restOk := networkOk && sensorOk;
    }

    /**
     * Wait and WaitWith: the agent's exit, then network, hook, sensor and scope, in that
     * order. A running run has succeeded exactly if the agent ended well and no close of
     * the scope failed; the call has, if besides nothing else failed.
     */
    method Wait(hook: bool) returns (ok: bool, ghost agentOk: bool, ghost scopeOk: bool)
      requires Valid() && Undone()
      modifies this, run
      ensures Valid() && Undone() && process == old(process) && old(trace) <= trace
      ensures !process ==> run.state == old(run.state) && trace == old(trace) && calls == old(calls)
      ensures !process ==> !ok && !agentOk && !scopeOk
      ensures process ==>
        && waited && !network && !sensor && !scope
        && calls == Closed(old(calls) + [WaitProcess], old(Holds()).(waited := true), hook, old(scope), scopeOk)
        && |trace| > |old(trace)| && trace[|old(trace)|] == Event(WaitProcess, agentOk)
        && (scopeOk <==> Lacks(old(trace), trace, Event(CloseScope, false)))
        && run.state == AfterWait(run.id, old(run.state), agentOk && scopeOk)
      ensures process && run.id != "" && old(run.state).Running? ==>
        run.state == if agentOk && scopeOk then Lifecycle.Succeeded else Lifecycle.Failed
      ensures ok <==> process && run.id != "" && old(run.state).Running? && Clean(old(trace), trace)
    {
      hide Recording, Closed, Clean, Lacks, AfterWait;
      TracesGrow();
      agentOk, scopeOk := false, false;
      if !process { return false, false, false; }
      var exited: bool := *;
      ghost var before := Holds();
      waited := true;
      Log(WaitProcess, exited, before);
      var closedScope, rest := CloseDown(hook);
      var moved := Conclude(exited && closedScope);
      WaitMeans(run.id, old(run.state), exited && closedScope);
      return exited && closedScope && moved && rest, exited, closedScope;
    }

    /** Discard the layers and then mark the run as rolled back, whatever its outcome was. */
    method Revert() returns (ok: bool, discarded: bool)
      requires Valid() && Undone()
      modifies this`trace, this`calls, this`got, run, overlay, overlay.manager
      ensures Valid() && Undone()
      ensures calls == old(calls) + [RollbackOverlay] && trace == old(trace) + [Event(RollbackOverlay, discarded)]
      ensures Longer(old(trace), trace) && (Clean(old(trace), trace) <==> discarded)
      ensures overlay.manager.Works(old(overlay.manager.faults), discarded, old(overlay.Accepts()))
      ensures ok <==> discarded && (run.id != "" || !Settled(old(run.state)))
      ensures discarded ==> !overlay.intact
      ensures run.state == if discarded then AfterRollback(run.id, old(run.state)) else old(run.state)
    {
      hide Recording, Longer, Clean, ScopeShut;
      discarded := RollBackOverlay();
      ok := discarded;
      if discarded && (run.state.Failed? || run.state.Succeeded? || run.state.Paused?) {
        ok := run.Transition(Lifecycle.RolledBack);
      }
    }

    /** The clean-up that comes before the layers are rolled back. */
    method Halt() returns (ok: bool)
      requires Valid()
      modifies this`waited, this`network, this`stopRefresh, this`sensor, this`trace, this`calls, this`got
      ensures Valid() && !network && !sensor && (process ==> waited) && (old(network) ==> !stopRefresh)
      ensures calls == Halted(old(calls), old(Holds()), scope)
      ensures got == old(got)
      ensures Longer(old(trace), trace) && (Clean(old(trace), trace) <==> ok)
    {
      hide Recording, Longer, Clean, ScopeShut;
      TracesGrow();
      var killed := KillProcess();
      var networkOk := CleanUpNetwork();
      var sensorOk := DropSensor();
      var scopeOk := TerminateScope();
      ok := killed && networkOk && sensorOk && scopeOk;
    }

    /**
     * Rollback of a handle: the run is marked only once its layers are gone. It works
     * exactly if no call fails and a run that has to be marked has a name.
     */
    method Rollback() returns (ok: bool, discarded: bool)
      requires Valid() && Undone()
      modifies this, run, overlay, overlay.manager
      ensures Valid() && Undone() && !network && !sensor && (process ==> waited) && process == old(process)
      ensures calls == Halted(old(calls), old(Holds()), old(scope)) + [RollbackOverlay]
      ensures old(trace) <= trace && trace != [] && trace[|trace| - 1] == Event(RollbackOverlay, discarded)
      ensures overlay.manager.Works(old(overlay.manager.faults), discarded, old(overlay.Accepts()))
      ensures discarded ==> !overlay.intact
      ensures ok <==>
        Clean(old(trace), trace) && (run.id != "" || !(old(run.state).Running? || Settled(old(run.state))))
      ensures run.state == (
        var failed := if run.id != "" && old(run.state).Running? then Lifecycle.Failed else old(run.state);
        if discarded then AfterRollback(run.id, failed) else failed)
    {
      hide Recording, Halted, Clean, ScopeShut;
      TracesGrow();
      var halted := Halt();
      var failed := FailRun();
      ok, discarded := Revert();
      ok := ok && halted && failed;
    }
  }

  // -- The coordinator ------------------------------------------------------------------

  /** A failed start is rolled back. */
  method GiveUp(handle: Handle, ghost stage: nat)
    requires handle.Valid() && handle.Undone() && !handle.run.state.RolledBack?
    requires stage <= BOOTED && handle.calls == BootCalls(handle.cfg, stage)
    requires OkBefore(handle.cfg, stage, handle.process, handle.got)
    requires handle.sensor == handle.got.attached && !handle.waited && handle.scope == handle.cfg.scope
    requires handle.stopRefresh == (stage > 3 && handle.cfg.network && handle.cfg.refresher)
    requires !handle.got.rolledBack && !handle.got.released
    modifies handle, handle.run, handle.overlay, handle.overlay.manager
    ensures handle.Valid() && handle.Undone()
    ensures FailedBoot(handle.calls, handle.cfg, handle.process, handle.got) && !handle.got.released
    ensures handle.run.state.RolledBack? <==>
      handle.got.rolledBack && handle.run.id != "" && (old(handle.run.state).Running? || old(handle.run.state).Failed?)
    ensures Longer(old(handle.trace), handle.trace)
  {
    hide Recording, BootCalls, CleanedUp, Longer, Clean, ScopeShut;
    ghost var cfg := handle.cfg;
    var undone := handle.FailAndRollback();
    assert FailedAt(handle.calls, cfg, stage, handle.process, handle.got);
  }

  /** The two moves of the run's state between the mount and the agent. */
  method MarkRunning(handle: Handle) returns (ok: bool)
    requires handle.Undone() && handle.run.state.Preparing?
    modifies handle.run
    ensures handle.Undone() && (ok <==> handle.run.id != "")
    ensures handle.run.state == if ok then Lifecycle.Running else Lifecycle.Preparing
  {
    ok := handle.run.Transition(Lifecycle.Mounted);
    if ok { ok := handle.run.Transition(Lifecycle.Running); }
  }

  /** Everything after the mount: start, or fail and undo. */
  method Boot(handle: Handle, pid: nat) returns (ok: bool)
    requires handle.Valid() && handle.Undone() && handle.run.state.Preparing? && handle.scope == handle.cfg.scope
    requires handle.Holds() == Held(false, false, false, false, false)
    requires handle.got == Got(true, false, false, false, false, false) && handle.calls == [Mount]
    modifies handle, handle.run, handle.overlay, handle.overlay.manager
    ensures handle.Valid() && handle.Undone()
    ensures ok ==>
      OkBefore(handle.cfg, BOOTED, handle.process, handle.got) && handle.calls == BootCalls(handle.cfg, BOOTED)
    ensures ok ==> handle.run.state.Running? && !handle.waited
    ensures !ok ==> FailedBoot(handle.calls, handle.cfg, handle.process, handle.got)
    ensures !ok ==> (handle.run.state.RolledBack? <==> handle.got.rolledBack && handle.run.id != "")
    ensures handle.got.released == (ok && handle.cfg.gate)
    ensures Longer(old(handle.trace), handle.trace)
    ensures ok <==>
      handle.run.id != "" && CanAttach(handle.cfg, pid) && Clean(old(handle.trace), handle.trace)
  {
    hide Recording, BootCalls, Longer, Clean, ScopeShut;
    TracesGrow();
    BootNext(handle.cfg, 1);
    ok := MarkRunning(handle);
    if !ok {
      GiveUp(handle, 0);
      return;
    }
    ghost var stage: nat;
    ok, stage := handle.RunSteps(pid);
    if !ok { GiveUp(handle, stage); }
  }

  lemma ReleasedMeans(t: seq<Event>, calls: seq<Call>, cfg: Config, h: Held, g: Got)
    requires Recording(t, calls, cfg, h, g)
    ensures g.released <==> Event(Release, true) in t
  {
    DidMeans(t, Release);
  }

  /**
   * Start. Without a handle nothing beyond a mount was tried; a handle with an
   * error has undone exactly the steps that had succeeded and called the overlay's
   * rollback last and once; only a handle without an error has released the gate.
   * The start works exactly if every call does and the run has a name and its sensor.
   */
  method Start(cfg: Config, run: Lifecycle.Run, overlay: Port, pid: nat) returns (handle: Handle?, ok: bool)
    requires overlay.Valid()
    modifies run, overlay, overlay.manager
    ensures handle == null ==> !ok && run.state == old(run.state)
    ensures handle == null ==>
      !cfg.complete || !old(run.state).Preparing? || !overlay.manager.layoutValid ||
      overlay.manager.faults > old(overlay.manager.faults)
    ensures ok <==> handle != null && run.id != "" && CanAttach(cfg, pid) && Clean([], handle.trace)
    ensures handle != null ==>
      && cfg.complete && old(run.state).Preparing? && fresh(handle)
      && handle.run == run && handle.cfg == cfg && handle.overlay == overlay
      && handle.Valid() && handle.Undone()
    ensures ok ==> handle != null && run.state.Running? && !handle.waited
    ensures ok ==> OkBefore(cfg, BOOTED, handle.process, handle.got) && handle.calls == BootCalls(cfg, BOOTED)
    ensures handle != null && !ok ==>
      && FailedBoot(handle.calls, cfg, handle.process, handle.got)
      && (run.state.RolledBack? <==> handle.got.rolledBack && run.id != "")
    ensures handle != null ==> (Event(Release, true) in handle.trace <==> ok && cfg.gate)
  {
    hide Recording, BootCalls, Longer, Clean, ScopeShut;
    TracesGrow();
    LongerByOne([], Event(Mount, true));
    handle, ok := null, false;
    if !cfg.complete || !run.state.Preparing? { return; }
    var mounted := overlay.Mount();
    if !mounted { return; }
    var started := new Handle(cfg, run, overlay);
    assert started.trace == [] + [Event(Mount, true)];
    ok := Boot(started, pid);
    ReleasedMeans(started.trace, started.calls, cfg, started.Holds(), started.got);
    handle := started;
  }

  // -- Reading the call lists ---------------------------------------------------------

  function Count(calls: seq<Call>, c: Call): nat {
    if calls == [] then 0 else Count(calls[..|calls| - 1], c) + (if calls[|calls| - 1] == c then 1 else 0)
  }

  lemma CountThen(calls: seq<Call>, when: bool, next: Call, c: Call)
    ensures Count(Then(calls, when, next), c) == Count(calls, c) + (if when && next == c then 1 else 0)
  {
    assert (calls + [next])[..|calls|] == calls;
  }

  lemma CountNone(c: Call)
    ensures Count([], c) == 0
  {
  }

  /** How often a start-up has made each call when it has got to a stage. */
  function Booted(cfg: Config, stage: nat, c: Call): nat {
    match c
    case Mount => 1
    case StartProcess => if stage >= 1 then 1 else 0
    case AddPid => if stage >= 2 && cfg.scope then 1 else 0
    case Prepare => if stage >= 3 && cfg.network then 1 else 0
    case StartRefresh => if stage >= 4 && cfg.network && cfg.refresher then 1 else 0
    case Attach => if stage >= 5 && cfg.sensorObject then 1 else 0
    case Release => if stage >= 6 && cfg.gate then 1 else 0
    case _ => 0
  }

  lemma {:induction false} CountBoot(cfg: Config, stage: nat, c: Call)
    requires stage <= BOOTED
    ensures Count(BootCalls(cfg, stage), c) == Booted(cfg, stage, c)
  {
    hide Count, BootCalls;
    BootNext(cfg, if stage == 0 then 1 else stage);
    if stage == 0 {
      CountNone(c);
      CountThen([], true, Mount, c);
    } else {
      CountBoot(cfg, stage - 1, c);
      CountThen(BootCalls(cfg, stage - 1), Due(cfg, stage), StepOf(stage), c);
    }
  }

  lemma CountStopped(calls: seq<Call>, started: bool, attached: bool, refreshing: bool, scope: bool, c: Call)
    ensures Count(Stopped(calls, started, attached, refreshing, scope), c) == Count(calls, c) + (
      match c
      case Kill => if started then 1 else 0
      case CloseSensor => if attached then 1 else 0
      case StopRefresh => if refreshing then 1 else 0
      case Terminate => if scope then 1 else 0
      case CloseScope => if scope then 1 else 0
      case _ => 0)
  {
    hide Count;
    var killed := Then(calls, started, Kill);
    CountThen(calls, started, Kill, c);
    CountThen(killed, attached, CloseSensor, c);
    var closed := Then(killed, attached, CloseSensor);
    CountThen(closed, refreshing, StopRefresh, c);
    var quiet := Then(closed, refreshing, StopRefresh);
    CountThen(quiet, scope, Terminate, c);
    CountThen(Then(quiet, scope, Terminate), scope, CloseScope, c);
  }

  function Undoing(started: bool, attached: bool, refreshing: bool, scope: bool, c: Call): nat {
    match c
    case Kill => if started then 1 else 0
    case CloseSensor => if attached then 1 else 0
    case StopRefresh => if refreshing then 1 else 0
    case Terminate => if scope then 1 else 0
    case CloseScope => if scope then 1 else 0
    case RollbackOverlay => 1
    case _ => 0
  }

  lemma CountFailed(calls: seq<Call>, cfg: Config, started: bool, g: Got, stage: nat, c: Call)
    requires FailedAt(calls, cfg, stage, started, g)
    ensures Count(calls, c) ==
      Booted(cfg, stage, c) + Undoing(started, g.attached, stage > 3 && cfg.network && cfg.refresher, cfg.scope, c)
  {
    hide Count, BootCalls, Stopped;
    var boot, refreshing := BootCalls(cfg, stage), stage > 3 && cfg.network && cfg.refresher;
    CountBoot(cfg, stage, c);
    CountStopped(boot, started, g.attached, refreshing, cfg.scope, c);
    CountThen(Stopped(boot, started, g.attached, refreshing, cfg.scope), true, RollbackOverlay, c);
  }

  /**
   * A failed start, however it failed: the overlay is rolled back exactly once and
   * last, a started agent is killed, an attached sensor closed, a running refresh
   * stopped, the scope terminated and closed, each once; the network is not cleaned up.
   */
  lemma FailedBootUndoesAll(calls: seq<Call>, cfg: Config, started: bool, g: Got)
    requires FailedBoot(calls, cfg, started, g)
    ensures calls[|calls| - 1] == RollbackOverlay && Count(calls, RollbackOverlay) == 1
    ensures Count(calls, Kill) == (if started then 1 else 0)
    ensures Count(calls, CloseSensor) == (if g.attached then 1 else 0)
    ensures Count(calls, StopRefresh) == Count(calls, StartRefresh)
    ensures Count(calls, Terminate) == Count(calls, CloseScope) == (if cfg.scope then 1 else 0)
    ensures Count(calls, CleanNetwork) == Count(calls, WaitProcess) == 0
  {
    hide Count, BootCalls, Stopped;
    var stage :| FailedAt(calls, cfg, stage, started, g);
    forall c: Call {
      CountFailed(calls, cfg, started, g, stage, c);
    }
  }

  // -- Rolling back a run found on disk ------------------------------------------------

  /** The rollback of a settled run found on disk: whatever fails, the other calls are made. */
  method RunPlanRollback(run: Lifecycle.Run, overlay: Port, scope: bool, terminates: bool, closes: bool)
    returns (ok: bool, discarded: bool, ghost trace: seq<Event>)
    requires overlay.Valid() && Settled(run.state)
    modifies run, overlay, overlay.manager
    ensures overlay.Valid() && (discarded ==> !overlay.intact)
    ensures trace == PlanUndone(scope, terminates, closes, discarded)
    ensures ok <==> Clean([], trace) && run.id != ""
    ensures overlay.manager.Works(old(overlay.manager.faults), discarded, old(overlay.Accepts()))
    ensures run.state == if discarded && run.id != "" then Lifecycle.RolledBack else old(run.state)
  {
    trace := [];
    ok := true;
    if scope {
      ok := terminates && closes;
      trace := [Event(Terminate, terminates), Event(CloseScope, closes)];
    }
    discarded := overlay.Rollback();
    trace := trace + [Event(RollbackOverlay, discarded)];
    assert scope ==> trace[0].ok == terminates && trace[1].ok == closes;
    assert trace[|trace| - 1].ok == discarded;
    ok := ok && discarded;
    if discarded {
      var moved := run.Transition(Lifecycle.RolledBack);
      ok := ok && moved;
    }
  }

  /** The calls of such a rollback: the scope's, when there is one, and then the overlay's. */
  function PlanUndone(scope: bool, terminates: bool, closes: bool, discarded: bool): seq<Event> {
    (if scope then [Event(Terminate, terminates), Event(CloseScope, closes)] else [])
    + [Event(RollbackOverlay, discarded)]
  }

  /** Where RollbackPlan leaves a run. */
  function AfterPlan(id: string, state: Lifecycle.State, discarded: bool): Lifecycle.State {
    if id == "" then state
    else if discarded || state.Preparing? then Lifecycle.RolledBack
    else if state.Running? || state.Mounted? then Lifecycle.Failed
    else state
  }

  /**
   * RollbackPlan. A run that never mounted is marked without touching the overlay;
   * any other is marked only after its layers are discarded, and a committed or
   * already rolled back run is left alone.
   */
  method RollbackPlan(run: Lifecycle.Run, overlay: Port, scope: bool, terminates: bool, closes: bool)
    returns (ok: bool, discarded: bool, ghost trace: seq<Event>)
    requires overlay.Valid()
    modifies run, overlay, overlay.manager
    ensures overlay.Valid() && (discarded ==> !overlay.intact)
    ensures run.state == AfterPlan(run.id, old(run.state), discarded)
    ensures trace != [] <==>
      Settled(old(run.state)) || (run.id != "" && (old(run.state).Running? || old(run.state).Mounted?))
    ensures trace != [] ==>
      && trace == PlanUndone(scope, terminates, closes, discarded)
      && overlay.manager.Works(old(overlay.manager.faults), discarded, old(overlay.Accepts()))
    ensures trace == [] ==> overlay.intact == old(overlay.intact) && !discarded
    ensures ok <==>
      || old(run.state).RolledBack? || (old(run.state).Preparing? && run.id != "")
      || (trace != [] && Clean([], trace) && run.id != "")
  {
    hide Clean;
    trace, discarded := [], false;
    if run.state.Running? || run.state.Mounted? {
      ok := run.Transition(Lifecycle.Failed);
      if !ok { return; }
    }
    if run.state.Preparing? {
      ok := run.Transition(Lifecycle.RolledBack);
      return;
    }
    if run.state.RolledBack? { return true, false, []; }
    if !Settled(run.state) { return false, false, []; }
    ok, discarded, trace := RunPlanRollback(run, overlay, scope, terminates, closes);
  }
}
