// The checkpoint dependency graph: nodes added below existing parents, state
// transitions, and rollback of a node with everything that depends on it.
module Checkpoint {
  import opened Order
  import Text
  import opened Tree

  datatype State = Pending | Running | Succeeded | RolledBack | Blocked | Unset | Unknown

  datatype Node = Node(id: string, runId: string, parents: seq<string>, state: State, created: int, updated: int)

  predicate ValidState(s: State) { !s.Unset? && !s.Unknown? }

  /** The moves of a node's state, besides staying where it is. */
  const MOVES: set<(State, State)> := {
    (Pending, Running), (Pending, Blocked), (Pending, RolledBack),
    (Running, Succeeded), (Running, Blocked), (Running, RolledBack),
    (Succeeded, RolledBack)
  }

  predicate AllowedTransition(from: State, to: State)
    ensures AllowedTransition(from, to) <==> from == to || (from, to) in MOVES
  {
    if from == to then true
    else match from
      case Pending => to.Running? || to.Blocked? || to.RolledBack?
      case Running => to.Succeeded? || to.RolledBack? || to.Blocked?
      case Succeeded => to.RolledBack?
      case _ => false
  }

  predicate Blank(s: string) {
    Text.Trim(s) == ""
  }

  // -- The graph as a map from ID to node --------------------------------------------

  type Graph = map<string, Node>

  predicate Edge(g: Graph, parent: string, child: string) {
    child in g && parent in g[child].parents
  }

  ghost predicate IsPath(g: Graph, path: seq<string>) {
    path != [] && forall i :: 0 < i < |path| ==> Edge(g, path[i - 1], path[i])
  }

  /** b is a or depends on it, directly or not. */
  ghost predicate Reachable(g: Graph, a: string, b: string) {
    exists path :: IsPath(g, path) && path[0] == a && path[|path| - 1] == b
  }

  lemma ReachableSelf(g: Graph, a: string)
    ensures Reachable(g, a, a)
  {
    assert IsPath(g, [a]) && [a][0] == a && [a][|[a]| - 1] == a;
  }

  lemma ReachableThrough(g: Graph, a: string, b: string, c: string)
    requires Edge(g, a, b) && Reachable(g, b, c)
    ensures Reachable(g, a, c)
  {
    var path :| IsPath(g, path) && path[0] == b && path[|path| - 1] == c;
    var longer := [a] + path;
    forall i | 0 < i < |longer| ensures Edge(g, longer[i - 1], longer[i]) {
      if i > 1 { assert Edge(g, path[i - 2], path[i - 1]); }
    }
    assert IsPath(g, longer) && longer[0] == a && longer[|longer| - 1] == c;
  }

  /** Parents exist and were there first: rank is the order of insertion. */
  ghost predicate Ranked(g: Graph, rank: map<string, nat>) {
    forall c :: c in g ==> c in rank && forall p :: p in g[c].parents ==> p in g && p in rank && rank[p] < rank[c]
  }

  ghost predicate ValidGraph(g: Graph) {
    && (forall c :: c in g ==> g[c].id == c && ValidState(g[c].state))
    && exists rank :: Ranked(g, rank)
  }

  /** A ranked graph has no cycle. */
  lemma {:induction false} RankGrows(g: Graph, rank: map<string, nat>, path: seq<string>, n: nat)
    requires Ranked(g, rank) && IsPath(g, path) && 0 < n < |path|
    ensures path[0] in rank && path[n] in rank && rank[path[0]] < rank[path[n]]
  {
    assert Edge(g, path[n - 1], path[n]);
    if n > 1 { RankGrows(g, rank, path, n - 1); }
  }

  lemma ValidGraphIsAcyclic(g: Graph, path: seq<string>)
    requires ValidGraph(g) && IsPath(g, path) && |path| > 1
    ensures path[0] != path[|path| - 1]
  {
    var rank :| Ranked(g, rank);
    RankGrows(g, rank, path, |path| - 1);
  }

  // -- Steps on the graph ----------------------------------------------------------------

  ghost predicate AddStep(g: Graph, h: Graph, node: Node) {
    && node.id !in g && ValidState(node.state)
    && (forall p :: p in node.parents ==> p in g)
    && h == g[node.id := node]
  }

  ghost predicate TransitionStep(g: Graph, h: Graph, id: string, state: State, now: int) {
    && id in g && ValidState(state) && (g[id].state == state || (g[id].state, state) in MOVES)
    && (state.Succeeded? ==> forall c :: Edge(g, id, c) ==> !g[c].state.Pending?)
    && h == g[id := g[id].(state := state, updated := now)]
  }

  ghost predicate RollbackBlocked(g: Graph, id: string) {
    exists x :: x in g && Reachable(g, id, x) && g[x].state.Blocked?
  }

  /** Everything reachable is rolled back; nothing else changes. */
  ghost predicate RollbackStep(g: Graph, h: Graph, id: string, now: int) {
    && id in g && !RollbackBlocked(g, id)
    && h.Keys == g.Keys
    && forall x :: x in g ==>
         h[x] == if Reachable(g, id, x) && !g[x].state.RolledBack? then g[x].(state := RolledBack, updated := now)
           else g[x]
  }

  datatype Op =
    | Add(node: Node)
    | Move(id: string, state: State, now: int)
    | Rollback(id: string, now: int)

  /** What a call may do: take effect completely, or fail and change nothing. */
  ghost predicate Step(g: Graph, h: Graph, op: Op) {
    g == h || match op
      case Add(node) => AddStep(g, h, node)
      case Move(id, state, now) => TransitionStep(g, h, id, state, now)
      case Rollback(id, now) => RollbackStep(g, h, id, now)
  }

  lemma SameParentsSameRank(g: Graph, h: Graph, rank: map<string, nat>)
    requires Ranked(g, rank) && h.Keys == g.Keys && forall x :: x in g ==> h[x].parents == g[x].parents
    ensures Ranked(h, rank)
  {
    forall c, p | c in h && p in h[c].parents ensures p in h && p in rank && rank[p] < rank[c] {
      assert p in g[c].parents;
    }
  }

  lemma AddedNodeRanksLast(g: Graph, node: Node, rank: map<string, nat>) returns (rank': map<string, nat>)
    requires Ranked(g, rank) && node.id !in g && forall p :: p in node.parents ==> p in g
    ensures Ranked(g[node.id := node], rank')
  {
    var top := MaxRank(rank);
    rank' := rank[node.id := top + 1];
    var h := g[node.id := node];
    forall c, p | c in h && p in h[c].parents ensures p in h && p in rank' && rank'[p] < rank'[c] {
      assert p in g && p != node.id;
      if c != node.id { assert p in g[c].parents; }
    }
  }

  lemma AddKeepsValid(g: Graph, h: Graph, node: Node)
    requires ValidGraph(g) && AddStep(g, h, node)
    ensures ValidGraph(h)
  {
    var rank :| Ranked(g, rank);
    var longer := AddedNodeRanksLast(g, node, rank);
  }

  lemma ChangeKeepsValid(g: Graph, h: Graph)
    requires ValidGraph(g) && h.Keys == g.Keys
    requires forall x :: x in g ==> h[x].parents == g[x].parents && h[x].id == x && ValidState(h[x].state)
    ensures ValidGraph(h)
  {
    var rank :| Ranked(g, rank);
    SameParentsSameRank(g, h, rank);
  }

  lemma StepKeepsValid(g: Graph, h: Graph, op: Op)
    requires ValidGraph(g) && Step(g, h, op)
    ensures ValidGraph(h)
  {
    if g != h {
      match op
      case Add(node) => AddKeepsValid(g, h, node);
      case Move(id, state, now) => ChangeKeepsValid(g, h);
      case Rollback(id, now) => ChangeKeepsValid(g, h);
    }
  }

  lemma {:induction false} MaxRank(rank: map<string, nat>) returns (top: nat)
    ensures forall x :: x in rank ==> rank[x] <= top
  {
    top := 0;
    var left := rank.Keys;
    while left != {}
      invariant left <= rank.Keys
      invariant forall x :: x in rank && x !in left ==> rank[x] <= top
    {
      var x :| x in left;
      if rank[x] > top { top := rank[x]; }
      left := left - {x};
    }
  }

  /** A history: the graph after each call, starting from the empty store. */
  ghost predicate History(graphs: seq<Graph>, ops: seq<Op>) {
    && |graphs| == |ops| + 1 && graphs[0] == map[]
    && forall i :: 0 <= i < |ops| ==> Step(graphs[i], graphs[i + 1], ops[i])
  }

  /** In every history the graph stays well formed and acyclic. */
  lemma {:induction false} HistoryIsValid(graphs: seq<Graph>, ops: seq<Op>, n: nat)
    requires History(graphs, ops) && n < |graphs|
    ensures ValidGraph(graphs[n])
  {
    if n == 0 {
      assert Ranked(graphs[0], map[]);
    } else {
      HistoryIsValid(graphs, ops, n - 1);
      StepKeepsValid(graphs[n - 1], graphs[n], ops[n - 1]);
    }
  }

  /** A transition is possible exactly along these moves, and to success only above no pending child. */
  lemma PossibleMoves(g: Graph, id: string, state: State, now: int)
    requires ValidGraph(g) && id in g
    ensures (exists h :: TransitionStep(g, h, id, state, now)) <==> (
      var from := g[id].state;
      && (state.Pending? ==> from.Pending?)
      && (state.Running? ==> from.Running? || from.Pending?)
      && (state.Succeeded? ==> (from.Succeeded? || from.Running?) && forall c :: !PendingBelow(g, id, c))
      && (state.Blocked? ==> from.Blocked? || from.Running? || from.Pending?)
      && !state.Unset? && !state.Unknown?
      && (from.Blocked? ==> state.Blocked?) && (from.RolledBack? ==> state.RolledBack?))
  {
    MovePossible(g, id, state, now);
    MovesInWords(g[id].state, state);
    hide TransitionStep, PendingBelow, ValidGraph;
  }

  lemma MovePossible(g: Graph, id: string, state: State, now: int)
    requires id in g
    ensures (exists h :: TransitionStep(g, h, id, state, now)) <==>
      ValidState(state) && (g[id].state == state || (g[id].state, state) in MOVES) &&
      (state.Succeeded? ==> forall c :: !PendingBelow(g, id, c))
  {
    hide MOVES;
    var h := g[id := g[id].(state := state, updated := now)];
    assert (forall c :: Edge(g, id, c) ==> !g[c].state.Pending?) <==> forall c :: !PendingBelow(g, id, c) by {
      hide Edge;
      if forall c :: !PendingBelow(g, id, c) {
        forall c | Edge(g, id, c) ensures !g[c].state.Pending? { assert !PendingBelow(g, id, c); }
      }
    }
    hide Edge, PendingBelow;
    assert TransitionStep(g, h, id, state, now) <==>
      ValidState(state) && (g[id].state == state || (g[id].state, state) in MOVES) &&
      (state.Succeeded? ==> forall c :: !PendingBelow(g, id, c));
  }

  lemma MovesInWords(from: State, state: State)
    requires ValidState(from)
    ensures ValidState(state) && (from == state || (from, state) in MOVES) <==>
      && (state.Pending? ==> from.Pending?)
      && (state.Running? ==> from.Running? || from.Pending?)
      && (state.Succeeded? ==> from.Succeeded? || from.Running?)
      && (state.Blocked? ==> from.Blocked? || from.Running? || from.Pending?)
      && !state.Unset? && !state.Unknown?
      && (from.Blocked? ==> state.Blocked?) && (from.RolledBack? ==> state.RolledBack?)
  {
  }

  /** Over any history a node's state only moves on: what it is now tells what it can have been. */
  lemma {:induction false} OnlyForward(graphs: seq<Graph>, ops: seq<Op>, i: nat, j: nat, id: string)
    requires History(graphs, ops) && i <= j < |graphs| && id in graphs[i]
    ensures id in graphs[j] && Onward(graphs[i][id].state, graphs[j][id].state)
  {
    if i == j {
      StatesAreValid(graphs, ops, i, id);
      assert Onward(graphs[i][id].state, graphs[j][id].state);
    } else {
      OnlyForward(graphs, ops, i, j - 1, id);
      OneStepOn(graphs, ops, j, id);
      OnwardOn(graphs[i][id].state, graphs[j - 1][id].state, graphs[j][id].state);
    }
  }

  /** What a state can have been before, now or long ago. */
  predicate Onward(was: State, now: State) {
    match now
    case Pending => was.Pending?
    case Running => was.Pending? || was.Running?
    case Succeeded => was.Pending? || was.Running? || was.Succeeded?
    case Blocked => was.Pending? || was.Running? || was.Blocked?
    case RolledBack => was.Pending? || was.Running? || was.Succeeded? || was.RolledBack?
    case _ => false
  }

  predicate MovedOn(was: State, now: State) { was == now || (was, now) in MOVES }

  lemma OnwardOn(first: State, was: State, now: State)
    requires Onward(first, was) && MovedOn(was, now)
    ensures Onward(first, now)
  {
  }

  lemma StatesAreValid(graphs: seq<Graph>, ops: seq<Op>, n: nat, id: string)
    requires History(graphs, ops) && n < |graphs| && id in graphs[n]
    ensures ValidState(graphs[n][id].state)
  {
    HistoryIsValid(graphs, ops, n);
    hide History;
  }

  lemma OneStepOn(graphs: seq<Graph>, ops: seq<Op>, n: nat, id: string)
    requires History(graphs, ops) && 0 < n < |graphs| && id in graphs[n - 1]
    ensures id in graphs[n] && MovedOn(graphs[n - 1][id].state, graphs[n][id].state)
  {
    hide Step, MovedOn, ValidGraph;
    assert Step(graphs[n - 1], graphs[n], ops[n - 1]);
    HistoryIsValid(graphs, ops, n - 1);
    MovesOn(graphs[n - 1], graphs[n], ops[n - 1], id);
  }

  lemma MovesOn(g: Graph, h: Graph, op: Op, id: string)
    requires ValidGraph(g) && Step(g, h, op) && id in g
    ensures id in h && MovedOn(g[id].state, h[id].state)
  {
    if g != h && op.Rollback? && Reachable(g, op.id, id) { assert !g[id].state.Blocked?; }
  }

  /** A node that has succeeded was running before, or was added as it is. */
  lemma {:induction false} SucceededRan(graphs: seq<Graph>, ops: seq<Op>, n: nat, id: string) returns (i: nat)
    requires History(graphs, ops) && n < |graphs| && id in graphs[n] && graphs[n][id].state.Succeeded?
    ensures i <= n && id in graphs[i]
    ensures graphs[i][id].state.Running? || (graphs[i][id].state.Succeeded? && i > 0 && id !in graphs[i - 1])
  {
    hide Step, ValidGraph;
    assert n > 0;
    if id !in graphs[n - 1] {
      i := n;
    } else {
      OneStepOn(graphs, ops, n, id);
      SucceedsFrom(graphs[n - 1][id].state);
      if graphs[n - 1][id].state.Succeeded? { i := SucceededRan(graphs, ops, n - 1, id); } else { i := n - 1; }
    }
  }

  lemma SucceedsFrom(was: State)
    ensures MovedOn(was, Succeeded) ==> was.Running? || was.Succeeded?
  {
  }

  /** No node disappears or changes its parents, and blocked and rolled back are final. */
  lemma {:induction false} TerminalForever(graphs: seq<Graph>, ops: seq<Op>, i: nat, j: nat, id: string)
    requires History(graphs, ops) && i <= j < |graphs| && id in graphs[i]
    ensures id in graphs[j] && graphs[j][id].parents == graphs[i][id].parents
    ensures graphs[i][id].state.Blocked? || graphs[i][id].state.RolledBack?
      ==> graphs[j][id].state == graphs[i][id].state
  {
    if i < j {
      TerminalForever(graphs, ops, i, j - 1, id);
      var g, h := graphs[j - 1], graphs[j];
      assert Step(g, h, ops[j - 1]);
      if g != h {
        match ops[j - 1]
        case Add(_) =>
        case Move(_, _, _) =>
        case Rollback(root, _) => assert Reachable(g, root, id) ==> !g[id].state.Blocked?;
      }
    }
  }

  /** After a rollback no live node depends on the root, so no parent outlives its dependants. */
  lemma RollbackLeavesNoLiveDependant(g: Graph, h: Graph, id: string, now: int, x: string, y: string)
    requires RollbackStep(g, h, id, now) && Reachable(g, id, x) && x in g && Edge(h, x, y)
    ensures y in h && h[y].state.RolledBack?
  {
    assert Edge(g, x, y);
    var path :| IsPath(g, path) && path[0] == id && path[|path| - 1] == x;
    assert IsPath(g, path + [y]) && (path + [y])[0] == id && (path + [y])[|path + [y]| - 1] == y;
  }

  // -- The stored node list -------------------------------------------------------------

  function Table(nodes: seq<Node>): Graph {
    if nodes == [] then map[]
    else
      var last := nodes[|nodes| - 1];
      Table(nodes[..|nodes| - 1])[last.id := last]
  }

  ghost predicate UniqueIds(nodes: seq<Node>) {
    forall i, j :: 0 <= i < j < |nodes| ==> nodes[i].id != nodes[j].id
  }

  lemma {:induction false} TableMembers(nodes: seq<Node>)
    requires UniqueIds(nodes)
    ensures forall n :: n in nodes <==> n.id in Table(nodes) && Table(nodes)[n.id] == n
    ensures forall id :: id in Table(nodes) ==> Table(nodes)[id].id == id
  {
    if nodes != [] {
      var k := |nodes| - 1;
      TableMembers(nodes[..k]);
      forall n ensures n in nodes <==> n.id in Table(nodes) && Table(nodes)[n.id] == n {
        assert n in nodes <==> n in nodes[..k] || n == nodes[k];
        if n in nodes[..k] { assert n.id != nodes[k].id; }
      }
    }
  }

  lemma SameMembersSameTable(s: seq<Node>, t: seq<Node>)
    requires UniqueIds(s) && UniqueIds(t) && forall n :: n in s <==> n in t
    ensures Table(s) == Table(t)
  {
    TableMembers(s);
    TableMembers(t);
    forall id ensures id in Table(s) <==> id in Table(t) {
      if id in Table(s) { assert Table(s)[id] in s; }
      if id in Table(t) { assert Table(t)[id] in t; }
    }
    forall id | id in Table(s) ensures Table(s)[id] == Table(t)[id] { assert Table(s)[id] in s; }
  }

  predicate IdLess(a: Node, b: Node) { Less(a.id, b.id) }

  const NodeId: Node -> string := (n: Node) => n.id

  /** Reading sorts by ID, which forgets the order of insertion. */
  method SortById(nodes: seq<Node>) returns (r: seq<Node>)
    requires UniqueIds(nodes)
    ensures UniqueIds(r) && Table(r) == Table(nodes)
    ensures forall i, j :: 0 <= i < j < |r| ==> Less(r[i].id, r[j].id)
  {
    LessIsOrdering();
    assert Ordering(IdLess) by { assert forall x, y :: IdLess(x, y) ==> Less(x.id, y.id); }
    r := Sort(nodes, IdLess);
    SortMembers(nodes, IdLess);
    forall i, j | 0 <= i < j < |r| ensures !Less(NodeId(r[j]), NodeId(r[i])) { assert !IdLess(r[j], r[i]); }
    DistinctKeysIncrease(nodes, r, NodeId);
    forall i, j | 0 <= i < j < |r| ensures Less(r[i].id, r[j].id) && r[i].id != r[j].id {
      assert Less(NodeId(r[i]), NodeId(r[j]));
      LessIrreflexive(r[i].id);
    }
    SameMembersSameTable(r, nodes);
  }

  method IndexOf(nodes: seq<Node>, id: string) returns (index: int)
    requires UniqueIds(nodes)
    ensures id in Table(nodes) ==> 0 <= index < |nodes| && nodes[index] == Table(nodes)[id] && nodes[index].id == id
    ensures id !in Table(nodes) ==> index == -1
  {
    TableMembers(nodes);
    assert id in Table(nodes) ==> Table(nodes)[id] in nodes;
    for i := 0 to |nodes|
      invariant forall j :: 0 <= j < i ==> nodes[j].id != id
    {
      if nodes[i].id == id { return i; }
    }
    index := -1;
  }

  lemma UpdateNode(nodes: seq<Node>, i: nat, node: Node)
    requires UniqueIds(nodes) && i < |nodes| && node.id == nodes[i].id
    ensures UniqueIds(nodes[i := node])
    ensures Table(nodes[i := node]) == Table(nodes)[node.id := node]
  {
    var s := nodes[i := node];
    TableMembers(nodes);
    TableMembers(s);
    assert nodes[i] in nodes && s[i] in s;
    forall n: Node | n.id != node.id ensures n in nodes <==> n in s {
      if n in nodes { var k :| 0 <= k < |nodes| && nodes[k] == n; assert s[k] == n; }
      if n in s { var k :| 0 <= k < |s| && s[k] == n; assert nodes[k] == n; }
    }
    var t := Table(nodes)[node.id := node];
    forall id ensures id in Table(s) <==> id in t {
      if id in Table(s) { assert Table(s)[id] in s; }
      if id in t { assert t[id] in s; }
    }
    forall id | id in Table(s) ensures Table(s)[id] == t[id] { assert t[id] in s; }
  }

  // -- descendantOrder -------------------------------------------------------------------------

  /** Every child of a listed node is listed before it. */
  ghost predicate ChildrenFirst(g: Graph, order: seq<string>) {
    forall i, c :: 0 <= i < |order| && Edge(g, order[i], c) ==> c in order[..i]
  }

  ghost predicate NoRepeats(order: seq<string>) {
    forall i, j :: 0 <= i < j < |order| ==> order[i] != order[j]
  }

  /** The depth-first walk with the marks and the list its recursive calls share. */
  class Walk {
    const nodes: seq<Node>
    ghost const rank: map<string, nat>
    var seen: set<string>
    var order: seq<string>

    ghost predicate Valid()
      reads this
    {
      && UniqueIds(nodes) && Ranked(Table(nodes), rank)
      && NoRepeats(order) && ChildrenFirst(Table(nodes), order)
      && (forall x :: x in order ==> x in seen)
      && seen <= Table(nodes).Keys
    }

    /** The nodes being visited come before id in the order of insertion. */
    ghost predicate OpenBelow(id: string)
      reads this
      requires id in rank
    {
      forall x :: x in seen && x !in order ==> x in rank && rank[x] < rank[id]
    }

    constructor (nodes: seq<Node>, ghost rank: map<string, nat>)
      requires UniqueIds(nodes) && Ranked(Table(nodes), rank)
      ensures Valid() && seen == {} && order == [] && this.nodes == nodes && this.rank == rank
    {
      this.nodes := nodes;
      this.rank := rank;
      seen := {};
      order := [];
    }

    method Children(id: string) returns (children: seq<string>)
      requires Valid()
      ensures forall i, j :: 0 <= i < j < |children| ==> !Less(children[j], children[i])
      ensures forall c :: c in children <==> Edge(Table(nodes), id, c)
    {
      children := [];
      TableMembers(nodes);
      for i := 0 to |nodes|
        invariant forall c :: c in children <==> exists j :: 0 <= j < i && nodes[j].id == c && id in nodes[j].parents
      {
        if id in nodes[i].parents { children := children + [nodes[i].id]; }
      }
      forall c ensures c in children <==> Edge(Table(nodes), id, c) {
        if Edge(Table(nodes), id, c) { assert Table(nodes)[c] in nodes; }
        forall j | 0 <= j < |nodes| && nodes[j].id == c && id in nodes[j].parents ensures Edge(Table(nodes), id, c) {
          assert nodes[j] in nodes;
        }
      }
      children := SortStrings(children);
    }

    /** visit: mark, recurse into the children in order, then list the node. */
    method Visit(id: string)
      requires Valid() && id in Table(nodes) && OpenBelow(id)
      modifies this
      ensures Valid() && id in order
      ensures old(order) <= order && old(seen) <= seen
      ensures forall x :: x in seen && x !in order <==> x in old(seen) && x !in old(order)
      ensures forall x :: x in order && x !in old(order) ==> Reachable(Table(nodes), id, x)
      ensures id !in old(seen) ==> order[|order| - 1] == id
      decreases Table(nodes).Keys - seen
    {
      hide Table, UniqueIds, NoRepeats, ChildrenFirst, Ranked, Edge, Reachable;
      if id in seen { return; }
      ghost var g := Table(nodes);
      seen := seen + {id};
      var children := Children(id);
      for i := 0 to |children|
        invariant Valid() && old(order) <= order && old(seen) + {id} <= seen
        invariant forall x :: x in seen && x !in order <==> (x in old(seen) && x !in old(order)) || x == id
        invariant forall j :: 0 <= j < i ==> children[j] in order
        invariant forall x :: x in order && x !in old(order) ==> Reachable(g, id, x)
      {
        assert Edge(g, id, children[i]);
        ChildIsAbove(g, rank, id, children[i]);
        ghost var before := order;
        Visit(children[i]);
        AlsoReachable(g, id, children[i], old(order), before, order);
      }
      ReachableSelf(g, id);
      assert id !in order;
      ListedLast(g, order, id);
      order := order + [id];
    }
  }

  /** The descendants of root, children before parents and root last. */
  method DescendantOrder(nodes: seq<Node>, root: string) returns (order: seq<string>)
    requires UniqueIds(nodes) && ValidGraph(Table(nodes)) && root in Table(nodes)
    ensures forall x :: x in order <==> Reachable(Table(nodes), root, x)
    ensures NoRepeats(order) && ChildrenFirst(Table(nodes), order)
    ensures order != [] && order[|order| - 1] == root
  {
    ghost var g := Table(nodes);
    ghost var rank :| Ranked(g, rank);
    var walk := new Walk(nodes, rank);
    walk.Visit(root);
    order := walk.order;
    forall x | Reachable(g, root, x) ensures x in order {
      var path :| IsPath(g, path) && path[0] == root && path[|path| - 1] == x;
      ListedAlongPath(g, order, path, |path| - 1);
    }
  }

  lemma {:induction false} ListedAlongPath(g: Graph, order: seq<string>, path: seq<string>, n: nat)
    requires ChildrenFirst(g, order) && IsPath(g, path) && path[0] in order && n < |path|
    ensures path[n] in order
  {
    if n > 0 {
      ListedAlongPath(g, order, path, n - 1);
      var i :| 0 <= i < |order| && order[i] == path[n - 1];
      assert Edge(g, order[i], path[n]);
    }
  }

  // -- The store ---------------------------------------------------------------------------------

  datatype Error = Incomplete | BadState | Exists | NoParent(parent: string) | Missing | NotAllowed | PendingChild
    | Storage

  predicate Named(node: Node) { Text.Trim(node.id) != "" && Text.Trim(node.runId) != "" }

  /** A parent is missing. */
  ghost predicate Orphan(g: Graph, node: Node) { exists p :: p in node.parents && p !in g }

  ghost predicate Addable(g: Graph, node: Node) {
    Named(node) && !node.state.Unknown? && node.id !in g && !Orphan(g, node)
  }

  ghost predicate PendingBelow(g: Graph, id: string, c: string) { Edge(g, id, c) && g[c].state.Pending? }

  class Store {
    const path: string
    var file: Option<seq<Node>>
    ghost var faults: nat  // writes that failed though there was a path to write to

    /** The graph a reader sees. */
    ghost function Content(): Graph
      reads this
    {
      if path == "" || file.None? then map[] else Table(file.value)
    }

    ghost predicate Valid()
      reads this
    {
      ValidGraph(Content()) && (file.Some? ==> UniqueIds(file.value))
    }

    constructor (path: string)
      ensures Valid() && Content() == map[] && this.path == path && faults == 0
    {
      this.path := path;
      file := None;
      faults := 0;
      new;
      assert Ranked(map[], map[]);
    }

    method Read() returns (nodes: seq<Node>)
      requires Valid()
      ensures UniqueIds(nodes) && Table(nodes) == Content()
    {
      if path == "" || file.None? { return []; }
      nodes := SortById(file.value);
    }

    /** Write to a temporary file, then rename: the old list or the new one. */
    method Write(nodes: seq<Node>) returns (ok: bool)
      modifies this
      ensures ok ==> path != "" && file == Some(nodes)
      ensures !ok ==> file == old(file)
      ensures Works(old(faults), ok)
    {
      if path == "" { return false; }
      ok := *;
      if ok { file := Some(nodes); } else { faults := faults + 1; }
    }

    /** A write works exactly when there is a path and nothing fails. */
    ghost predicate Works(before: nat, ok: bool)
      reads this
    {
      before <= faults && (ok <==> path != "" && faults == before)
    }

    method Add(node: Node, now: int) returns (error: Option<Error>)
      requires Valid()
      modifies this
      ensures Valid()
      ensures error.None? ==>
        AddStep(old(Content()), Content(),
                node.(state := if node.state.Unset? then Pending else node.state, created := now, updated := now))
      ensures error.Some? ==> file == old(file)
      ensures error == Some(Incomplete) <==> !Named(node)
      ensures error == Some(BadState) <==> Named(node) && node.state.Unknown?
      ensures error == Some(Exists) <==> Named(node) && !node.state.Unknown? && node.id in old(Content())
      ensures error.Some? && error.value.NoParent? <==>
        Named(node) && !node.state.Unknown? && node.id !in old(Content()) && Orphan(old(Content()), node)
      ensures error.Some? && error.value.NoParent? ==>
        error.value.parent in node.parents && error.value.parent !in old(Content())
      ensures error.None? || error == Some(Storage) <==> Addable(old(Content()), node)
      ensures Addable(old(Content()), node) ==> Works(old(faults), error.None?)
    {
      if Blank(node.id) || Blank(node.runId) { return Some(Incomplete); }
      var added := node.(state := if node.state.Unset? then Pending else node.state, created := now, updated := now);
      if !ValidState(added.state) { return Some(BadState); }
      var nodes := Read();
      var index := IndexOf(nodes, added.id);
      if index >= 0 { return Some(Exists); }
      var missing := FirstMissing(nodes, added.parents);
      if missing.Some? { return Some(NoParent(missing.value)); }
      OneMoreNode(nodes, added);
      var ok := Write(nodes + [added]);
      if !ok { return Some(Storage); }
      StepKeepsValid(old(Content()), Content(), Op.Add(added));
      error := None;
    }

    method Transition(id: string, state: State, now: int) returns (error: Option<Error>)
      requires Valid()
      modifies this
      ensures Valid()
      ensures error.None? ==> TransitionStep(old(Content()), Content(), id, state, now)
      ensures error.Some? ==> file == old(file)
      ensures error == Some(BadState) <==> !ValidState(state)
      ensures error == Some(Missing) <==> ValidState(state) && id !in old(Content())
      ensures error == Some(NotAllowed) <==>
        ValidState(state) && id in old(Content()) && old(Content())[id].state != state &&
        (old(Content())[id].state, state) !in MOVES
      ensures error == Some(PendingChild) ==> state.Succeeded? && exists c :: PendingBelow(old(Content()), id, c)
      ensures error.None? || error == Some(Storage) <==> exists h :: TransitionStep(old(Content()), h, id, state, now)
      ensures error.None? || error == Some(Storage) ==> Works(old(faults), error.None?)
    {
      if !ValidState(state) { return Some(BadState); }
      var nodes := Read();
      ghost var g := Table(nodes);
      var index := IndexOf(nodes, id);
      if index < 0 { return Some(Missing); }
      if !AllowedTransition(nodes[index].state, state) { return Some(NotAllowed); }
      if state.Succeeded? {
        var pending := HasPendingChild(nodes, id);
        if pending { return Some(PendingChild); }
        forall c | Edge(g, id, c) ensures !g[c].state.Pending? { assert !PendingBelow(g, id, c); }
      }
      hide ValidGraph;
      var moved := nodes[index].(state := state, updated := now);
      UpdateNode(nodes, index, moved);
      assert TransitionStep(g, g[id := moved], id, state, now);
      hide TransitionStep, PendingBelow;
      var ok := Write(nodes[index := moved]);
      if !ok { return Some(Storage); }
      StepKeepsValid(old(Content()), Content(), Op.Move(id, state, now));
      error := None;
    }

    /** All or nothing: the graph is written once, after every dependant has been moved in memory. */
    method Rollback(id: string, now: int) returns (error: Option<Error>)
      requires Valid()
      modifies this
      ensures Valid()
      ensures error == Some(Missing) <==> id !in old(Content())
      ensures error == Some(NotAllowed) <==> id in old(Content()) && RollbackBlocked(old(Content()), id)
      ensures error.None? ==> RollbackStep(old(Content()), Content(), id, now)
      ensures error.Some? ==> file == old(file)
      ensures error.None? || error == Some(Missing) || error == Some(NotAllowed) || error == Some(Storage)
      ensures error.None? || error == Some(Storage) ==> Works(old(faults), error.None?)
    {
      var nodes := Read();
      ghost var g := Table(nodes);
      var found := IndexOf(nodes, id);
      if found < 0 { return Some(Missing); }
      var order := DescendantOrder(nodes, id);
      forall x | x in order ensures x in g { ReachableIsNode(g, id, x); }
      var moved, blocked := MoveAll(nodes, order, now);
      if blocked { return Some(NotAllowed); }
      var ok := Write(moved);
      if !ok { return Some(Storage); }
      StepKeepsValid(old(Content()), Content(), Op.Rollback(id, now));
      error := None;
    }
  }

  method HasPendingChild(nodes: seq<Node>, id: string) returns (pending: bool)
    requires UniqueIds(nodes)
    ensures pending <==> exists c :: PendingBelow(Table(nodes), id, c)
  {
    TableMembers(nodes);
    ghost var g := Table(nodes);
    for i := 0 to |nodes|
      invariant forall j :: 0 <= j < i ==> !(id in nodes[j].parents && nodes[j].state.Pending?)
    {
      if id in nodes[i].parents && nodes[i].state.Pending? {
        assert nodes[i] in nodes;
        assert PendingBelow(Table(nodes), id, nodes[i].id);
        return true;
      }
    }
    forall c ensures !PendingBelow(g, id, c) {
      if Edge(g, id, c) { assert g[c] in nodes; }
    }
    pending := false;
  }

  /** The first of some nodes that is not in the list. */
  method FirstMissing(nodes: seq<Node>, ids: seq<string>) returns (missing: Option<string>)
    requires UniqueIds(nodes)
    ensures missing.None? <==> forall p :: p in ids ==> p in Table(nodes)
    ensures missing.Some? ==> missing.value in ids && missing.value !in Table(nodes)
  {
    for i := 0 to |ids|
      invariant forall j :: 0 <= j < i ==> ids[j] in Table(nodes)
    {
      var index := IndexOf(nodes, ids[i]);
      assert ids[i] in ids;
      if index < 0 { return Some(ids[i]); }
    }
    missing := None;
  }

  lemma OneMoreNode(nodes: seq<Node>, added: Node)
    requires UniqueIds(nodes) && added.id !in Table(nodes)
    ensures UniqueIds(nodes + [added]) && Table(nodes + [added]) == Table(nodes)[added.id := added]
  {
    TableSnoc(nodes, added);
    TableMembers(nodes);
    hide Table;
    var longer := nodes + [added];
    forall i, j | 0 <= i < j < |longer| ensures longer[i].id != longer[j].id {
      if j == |nodes| { assert nodes[i] in nodes; }
    }
  }

  lemma TableSnoc(nodes: seq<Node>, added: Node)
    ensures Table(nodes + [added]) == Table(nodes)[added.id := added]
  {
    assert (nodes + [added])[..|nodes|] == nodes;
  }

  lemma NextInOrder(order: seq<string>, i: nat)
    requires NoRepeats(order) && i < |order|
    ensures order[i] in order && order[i] !in order[..i]
    ensures forall x :: x in order[..i + 1] <==> x in order[..i] || x == order[i]
  {
  }

  lemma NotMoved(node: Node, now: int)
    ensures MovedNode(node, false, now) == node
  {
  }

  /** One node's move, unless it is there already. */
  method MoveOne(nodes: seq<Node>, id: string, now: int) returns (moved: seq<Node>, blocked: bool)
    requires UniqueIds(nodes) && id in Table(nodes) && ValidState(Table(nodes)[id].state)
    ensures blocked <==> Table(nodes)[id].state.Blocked?
    ensures UniqueIds(moved) && Table(moved).Keys == Table(nodes).Keys
    ensures !blocked ==> Table(moved) == Table(nodes)[id := MovedNode(Table(nodes)[id], true, now)]
  {
    var index := IndexOf(nodes, id);
    assert nodes[index] == Table(nodes)[id];
    if nodes[index].state.RolledBack? { return nodes, false; }
    if !AllowedTransition(nodes[index].state, RolledBack) { return nodes, true; }
    var node := nodes[index].(state := RolledBack, updated := now);
    UpdateNode(nodes, index, node);
    return nodes[index := node], false;
  }

  lemma AlsoReachable(g: Graph, id: string, child: string, first: seq<string>, before: seq<string>, order: seq<string>)
    requires Edge(g, id, child) && forall x :: x in before && x !in first ==> Reachable(g, id, x)
    requires forall x :: x in order && x !in before ==> Reachable(g, child, x)
    ensures forall x :: x in order && x !in first ==> Reachable(g, id, x)
  {
    hide Reachable, Edge;
    forall x | x in order && x !in before ensures Reachable(g, id, x) { ReachableThrough(g, id, child, x); }
  }

  /** A node may be listed once its children are. */
  lemma ListedLast(g: Graph, done: seq<string>, id: string)
    requires ChildrenFirst(g, done) && NoRepeats(done) && id !in done && forall c :: Edge(g, id, c) ==> c in done
    ensures ChildrenFirst(g, done + [id]) && NoRepeats(done + [id])
  {
    hide Edge;
    var order := done + [id];
    forall i, c | 0 <= i < |order| && Edge(g, order[i], c) ensures c in order[..i] {
      if i < |done| { assert order[..i] == done[..i]; } else { assert order[..i] == done; }
    }
  }

  lemma ChildIsAbove(g: Graph, rank: map<string, nat>, id: string, child: string)
    requires Ranked(g, rank) && Edge(g, id, child)
    ensures id in rank && child in rank && rank[id] < rank[child] && child in g
  {
  }

  /** The loop of Rollback: move the listed nodes one by one, stopping at a blocked one. */
  method MoveAll(nodes: seq<Node>, order: seq<string>, now: int) returns (moved: seq<Node>, blocked: bool)
    requires UniqueIds(nodes) && forall x :: x in Table(nodes) ==> ValidState(Table(nodes)[x].state)
    requires NoRepeats(order) && forall x :: x in order ==> x in Table(nodes)
    ensures blocked <==> exists x :: x in order && Table(nodes)[x].state.Blocked?
    ensures UniqueIds(moved) && Table(moved).Keys == Table(nodes).Keys
    ensures !blocked ==>
      forall x :: x in Table(nodes) ==> Table(moved)[x] == MovedNode(Table(nodes)[x], x in order, now)
  {
    ghost var g := Table(nodes);
    moved, blocked := nodes, false;
    hide UniqueIds, Table, MovedNode;
    forall x | x in g ensures MovedNode(g[x], false, now) == g[x] { NotMoved(g[x], now); }
    for i := 0 to |order|
      invariant UniqueIds(moved) && Table(moved).Keys == g.Keys
      invariant forall x :: x in g ==> Table(moved)[x] == MovedNode(g[x], x in order[..i], now)
      invariant forall j :: 0 <= j < i ==> !g[order[j]].state.Blocked?
    {
      NextInOrder(order, i);
      moved, blocked := MoveOne(moved, order[i], now);
      if blocked { return; }
    }
    assert order[..|order|] == order;
  }

  function MovedNode(n: Node, listed: bool, now: int): Node {
    if listed && !n.state.RolledBack? then n.(state := RolledBack, updated := now) else n
  }

  lemma ReachableIsNode(g: Graph, a: string, b: string)
    requires a in g && Reachable(g, a, b)
    ensures b in g
  {
    var path :| IsPath(g, path) && path[0] == a && path[|path| - 1] == b;
    if |path| > 1 { assert Edge(g, path[|path| - 2], path[|path| - 1]); }
  }
}
