// The life of one protected run.
module Lifecycle {

  datatype State = Preparing | Mounted | Running | Paused | Succeeded | Failed | Committed | RolledBack | Unknown

  /** The edges of the life of a run. */
  const EDGES: set<(State, State)> := {
    (Preparing, Mounted), (Preparing, Failed), (Preparing, RolledBack),
    (Mounted, Running), (Mounted, Failed), (Mounted, RolledBack),
    (Running, Paused), (Running, Succeeded), (Running, Failed),
    (Paused, Running), (Paused, RolledBack),
    (Succeeded, Committed), (Succeeded, RolledBack),
    (Failed, RolledBack)
  }

  predicate CanTransition(from: State, to: State)
    ensures CanTransition(from, to) <==> (from, to) in EDGES
  {
    match from
    case Preparing => to.Mounted? || to.Failed? || to.RolledBack?
    case Mounted => to.Running? || to.Failed? || to.RolledBack?
    case Running => to.Paused? || to.Succeeded? || to.Failed?
    case Paused => to.Running? || to.RolledBack?
    case Succeeded => to.Committed? || to.RolledBack?
    case Failed => to.RolledBack?
    case _ => false
  }

  class Run {
    const id: string
    var state: State

    constructor (id: string)
      ensures this.id == id && state == Preparing
    {
      this.id := id;
      state := Preparing;
    }

    method Transition(next: State) returns (ok: bool)
      modifies this
      ensures ok <==> id != "" && (old(state), next) in EDGES
      ensures state == if ok then next else old(state)
    {
      if id == "" || next.Unknown? || !CanTransition(state, next) { return false; }
      state := next;
      return true;
    }
  }

  /** The states a run goes through. */
  ghost predicate Life(states: seq<State>) {
    && states != [] && states[0] == Preparing
    && forall i :: 0 < i < |states| ==> (states[i - 1], states[i]) in EDGES
  }

  lemma LivesOn(states: seq<State>, next: State)
    requires Life(states) && (states[|states| - 1], next) in EDGES
    ensures Life(states + [next])
  {
    hide EDGES;
  }

  /** Every known state is the last of some life. */
  lemma {:induction false} EveryStateIsReached(state: State) returns (states: seq<State>)
    requires !state.Unknown?
    ensures Life(states) && states[|states| - 1] == state
    decreases match state
      case Preparing => 0
      case Mounted => 1
      case Running => 2
      case Committed => 4
      case RolledBack => 4
      case _ => 3
  {
    if state.Preparing? { return [Preparing]; }
    var before :=
      match state
      case Mounted => Preparing
      case Running => Mounted
      case Committed => Succeeded
      case RolledBack => Failed
      case _ => Running;
    var shorter := EveryStateIsReached(before);
    LivesOn(shorter, state);
    states := shorter + [state];
  }

  /** Only a succeeded run is committed, and only after it was mounted and running. */
  lemma CommittedSucceeded(states: seq<State>, j: nat)
    requires Life(states) && j < |states| && states[j].Committed?
    ensures j >= 3 && states[j - 1].Succeeded? && states[j - 2].Running?
  {
    assert j > 0 && (states[j - 1], states[j]) in EDGES;
    assert j > 1 && (states[j - 2], states[j - 1]) in EDGES;
    assert j > 2;
  }

  lemma {:induction false} AfterRunning(states: seq<State>, i: nat, n: nat)
    requires Life(states) && i <= n < |states| && states[i].Running?
    ensures !states[n].Preparing? && !states[n].Mounted? && !states[n].Unknown?
  {
    if i < n {
      AfterRunning(states, i, n - 1);
      assert (states[n - 1], states[n]) in EDGES;
    }
  }

  lemma NotAnEnd(states: seq<State>, n: nat)
    requires Life(states) && n + 1 < |states|
    ensures !states[n].RolledBack? && !states[n].Committed?
  {
    assert (states[n + 1 - 1], states[n + 1]) in EDGES;
  }

  /**
   * A run that has been running reaches rolled back or committed only by way of
   * failed, paused or succeeded, and neither end can be left.
   */
  lemma EndsAfterOutcome(states: seq<State>, i: nat, j: nat)
    requires Life(states) && i < j < |states| && states[i].Running?
    requires states[j].RolledBack? || states[j].Committed?
    ensures i < j - 1 && (states[j - 1].Failed? || states[j - 1].Paused? || states[j - 1].Succeeded?)
    ensures j == |states| - 1
  {
    AfterRunning(states, i, j - 1);
    assert (states[j - 1], states[j]) in EDGES;
    if j + 1 < |states| { NotAnEnd(states, j); }
  }
}
