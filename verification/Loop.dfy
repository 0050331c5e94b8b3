/**
 The scheduler's run loop as a transition system.  A state holds the variables of the loop; a step
 takes one node off the ready queue or hands one finished task back.  Which task finishes next and
 what it returns is left open.  The order of `ready` after start-up is the iteration order of a hash
 map and is left open too.
 */
module Loop {
  import opened Wrappers
  import opened Dag
  import opened Events
  import opened Template
  import Quorum

  /** A quorum node is counted when it is spawned; every other node is handed to a worker. */
  datatype Task = Dispatch(node: Node) | Count(result: TaskResult)

  /** The counters of unfinished edges, the queue, and everything ever put on the queue. */
  datatype Queue = Queue(inDegree: map<Id, nat>, afterPending: map<Id, nat>, ready: seq<Id>, enqueued: set<Id>)

  datatype State = State(
    queue: Queue,
    nodeState: map<Id, NodeState>,
    terminal: set<Id>,
    terminalOrder: seq<Id>,
    spawned: seq<Id>,
    running: map<Id, Task>,
    refused: bool,
    breachAnnounced: bool,
    log: seq<Event>)

  const PENDING := NodeState(Pending, None, 0, None)
  const SKIPPED := NodeState(Done, None, 0, None)
  const BLOCKED := NodeState(Blocked, None, 0, None)

  function StatusOf(st: map<Id, NodeState>, id: Id): Status {
    if id in st then st[id].status else Pending
  }

  function Emit(s: State, e: Event): State {
    s.(log := s.log + [e])
  }

  /** A breach is announced once a run. */
  function Announce(s: State, message: string): State {
    if s.breachAnnounced then s else Emit(s, BudgetBreached(message)).(breachAnnounced := true)
  }

  // ----- Queueing

  function TryEnqueue(q: Queue, id: Id): Queue {
    if id !in q.enqueued && id in q.inDegree && q.inDegree[id] == 0 && (id in q.afterPending ==> q.afterPending[id] == 0)
    then q.(ready := q.ready + [id], enqueued := q.enqueued + {id})
    else q
  }

  function ReleaseAfter(q: Queue, id: Id): Queue {
    if id in q.afterPending && q.afterPending[id] > 0
    then TryEnqueue(q.(afterPending := q.afterPending[id := q.afterPending[id] - 1]), id)
    else q
  }

  function ReleaseAfters(q: Queue, ids: seq<Id>): Queue
    decreases ids
  {
    if ids == [] then q else ReleaseAfters(ReleaseAfter(q, ids[0]), ids[1..])
  }

  function ReleaseDep(q: Queue, id: Id): Queue {
    if id in q.inDegree then
      var d := if q.inDegree[id] == 0 then 0 else q.inDegree[id] - 1;
      var q' := q.(inDegree := q.inDegree[id := d]);
      if d == 0 then TryEnqueue(q', id) else q'
    else q
  }

  // ----- Terminal transitions

  function SetTerminal(s: State, id: Id, ns: NodeState, e: Event): State {
    Emit(s, e).(
      nodeState := s.nodeState[id := ns],
      terminal := s.terminal + {id},
      terminalOrder := if id in s.terminalOrder then s.terminalOrder else s.terminalOrder + [id])
  }

  /** A terminal transition followed by the release of the nodes ordered after it. */
  function Settle(nodes: seq<Node>, s: State, id: Id, ns: NodeState, e: Event): State {
    SetTerminal(s, id, ns, e).(queue := ReleaseAfters(s.queue, AfterDependents(nodes, id)))
  }

  /** The fix node's source passed: the node is recorded Done without having run. */
  function SkipOne(nodes: seq<Node>, s: State, id: Id): State {
    if id in s.terminal then s.(queue := ReleaseAfters(s.queue, AfterDependents(nodes, id)))
    else Settle(nodes, s, id, SKIPPED, NodeDone(id, "", ""))
  }

  function IsGatedOn(nodes: seq<Node>, id: Id, d: Id): bool {
    match GetNode(nodes, id)
    case None => false
    case Some(n) => GatedOn(n, d)
  }

  /** The dependents of a skipped node that are no fix nodes of it are released, if still pending. */
  function SkipNotify(nodes: seq<Node>, st: map<Id, NodeState>, q: Queue, id: Id, deps: seq<Id>): Queue
    decreases deps
  {
    if deps == [] then q
    else
      var g := deps[0];
      var q' := if StatusOf(st, g) == Pending && !IsGatedOn(nodes, g, id) then ReleaseDep(q, g) else q;
      SkipNotify(nodes, st, q', id, deps[1..])
  }

  /** Its fix nodes are skipped in turn. */
  function SkipPushes(nodes: seq<Node>, st: map<Id, NodeState>, id: Id, deps: seq<Id>): (r: seq<Id>)
    ensures forall k | k in r :: k in deps
  {
    if deps == [] then []
    else
      (if StatusOf(st, deps[0]) == Pending && IsGatedOn(nodes, deps[0], id) then [deps[0]] else []) + SkipPushes(nodes, st, id, deps[1..])
  }

  function SkipTurn(nodes: seq<Node>, s: State, id: Id): State {
    var s' := SkipOne(nodes, s, id);
    s'.(queue := SkipNotify(nodes, s'.nodeState, s'.queue, id, Dependents(nodes, id)))
  }

  /** The transitive skip: a stack of nodes to skip, and the set of those already processed. */
  function Skip(nodes: seq<Node>, s: State, stack: seq<Id>, processed: set<Id>): State
    requires forall k | k in stack :: k in Ids(nodes)
    decreases Ids(nodes) - processed, |stack|
  {
    if stack == [] then s
    else
      var id := stack[|stack| - 1];
      var rest := stack[..|stack| - 1];
      assert id in stack;
      if id in processed then Skip(nodes, s, rest, processed)
      else
        var s' := SkipTurn(nodes, s, id);
        Skip(nodes, s', rest + SkipPushes(nodes, s'.nodeState, id, Dependents(nodes, id)), processed + {id})
  }

  /** A failed source blocks a dependent that is not its fix node. */
  function Block(nodes: seq<Node>, s: State, id: Id): State {
    var ns := if id in s.nodeState then s.nodeState[id].(status := Blocked) else BLOCKED;
    Settle(nodes, s, id, ns, NodeBlocked(id))
  }

  /** What a finished node means for one dependent. */
  function NotifyOne(nodes: seq<Node>, s: State, id: Id, status: Status, dep: Id): State
    requires dep in Ids(nodes)
  {
    if IsGatedOn(nodes, dep, id) == (status == Done) then
      if status == Done then Skip(nodes, s, [dep], {}) else Block(nodes, s, dep)
    else
      s.(queue := ReleaseDep(s.queue, dep))
  }

  function Notify(nodes: seq<Node>, s: State, id: Id, status: Status, deps: seq<Id>): State
    requires forall k | k in deps :: k in Ids(nodes)
    decreases deps
  {
    if deps == [] then s else Notify(nodes, NotifyOne(nodes, s, id, status, deps[0]), id, status, deps[1..])
  }

  // ----- Steps

  function OutputsOf(nodeState: map<Id, NodeState>): Outputs {
    map id | id in nodeState && nodeState[id].output.Some? :: nodeState[id].output.value
  }

  /** The node as dispatched: its prompt filled in from the outputs recorded so far. */
  function TaskOf(node: Node, nodeState: map<Id, NodeState>): Task {
    var outs := OutputsOf(nodeState);
    var filled := node.(prompt := Interpolate(node.prompt, outs));
    if node.nodeType == Some("quorum") then Count(Quorum.ResultOf(filled, outs)) else Dispatch(filled)
  }

  /** One turn of the ready loop; `refuse` is the budget gate's answer. */
  function Pop(nodes: seq<Node>, s: State, refuse: Option<string>): State
    requires s.queue.ready != []
  {
    var id := s.queue.ready[0];
    var s' := s.(queue := s.queue.(ready := s.queue.ready[1..]));
    if StatusOf(s.nodeState, id) != Pending then s'
    else
      match GetNode(nodes, id)
      case None => s'
      case Some(node) =>
        match refuse
        case Some(message) => Announce(s, message).(refused := true)
        case None => s'.(spawned := s.spawned + [id], running := s.running[id := TaskOf(node, s.nodeState)])
  }

  function Report(s: State, id: Id, events: seq<DispatchEvent>): State
    decreases events
  {
    if events == [] then s
    else
      var s' := match events[0]
        case CeilingTripped(message) => Announce(s, message)
        case e => s.(log := s.log + Translate(id, e));
      Report(s', id, events[1..])
  }

  function FinalEvent(id: Id, r: TaskResult): Event {
    if r.state.status == Done then NodeDone(id, OrEmpty(r.modelUsed), OrEmpty(r.state.output))
    else if r.verifyFailed then
      var (claim, verify) := VerifyParts(OrEmpty(r.state.output));
      NodeVerifyFailed(id, claim, verify)
    else NodeFailed(id, ErrorText(r.state.output))
  }

  /** A finished task is taken from the task set. */
  function Join(nodes: seq<Node>, s: State, id: Id, r: TaskResult): State {
    var s1 := Emit(s.(running := s.running - {id}, refused := false), NodeDispatched(id, OrEmpty(r.taskModel), r.attempt));
    var s2 := Report(s1, id, r.events);
    var s3 := Settle(nodes, s2, id, r.state, FinalEvent(id, r));
    Notify(nodes, s3, id, r.state.status, Dependents(nodes, id))
  }

  datatype Action = Take(refuse: Option<string>) | Finish(id: Id, result: TaskResult)

  /** The ready loop runs until the queue is empty or the gate refuses; then one task is awaited. */
  predicate Enabled(s: State, a: Action) {
    match a
    case Take(_) => s.queue.ready != [] && !s.refused
    case Finish(id, r) =>
      && (s.queue.ready == [] || s.refused)
      && id in s.running && r.Valid()
      && (s.running[id].Count? ==> r == s.running[id].result)
  }

  function Step(nodes: seq<Node>, s: State, a: Action): State
    requires Enabled(s, a)
  {
    match a
    case Take(refuse) => Pop(nodes, s, refuse)
    case Finish(id, r) => Join(nodes, s, id, r)
  }

  predicate Exited(s: State) {
    (s.queue.ready == [] || s.refused) && s.running.Keys == {}
  }

  ghost predicate IsRun(nodes: seq<Node>, s: State, acts: seq<Action>)
    decreases |acts|
  {
    acts != [] ==> Enabled(s, acts[0]) && IsRun(nodes, Step(nodes, s, acts[0]), acts[1..])
  }

  ghost function After(nodes: seq<Node>, s: State, acts: seq<Action>): State
    requires IsRun(nodes, s, acts)
    decreases |acts|
  {
    if acts == [] then s else After(nodes, Step(nodes, s, acts[0]), acts[1..])
  }

  // ----- Start

  ghost predicate Enumerates(order: seq<Id>, ids: set<Id>) {
    && (forall k :: k in order <==> k in ids)
    && forall i, j | 0 <= i < j < |order| :: order[i] != order[j]
  }

  /** Nodes that share an id add up their dependencies; of their `after` lists the last non-empty one counts. */
  function DepTotal(nodes: seq<Node>, id: Id): nat {
    if nodes == [] then 0
    else
      var last := nodes[|nodes| - 1];
      DepTotal(nodes[..|nodes| - 1], id) + if last.id == id then |last.dependsOn| else 0
  }

  function AfterTotal(nodes: seq<Node>, id: Id): nat {
    if nodes == [] then 0
    else
      var last := nodes[|nodes| - 1];
      if last.id == id && last.after != [] then |last.after| else AfterTotal(nodes[..|nodes| - 1], id)
  }

  function EdgeCount(nodes: seq<Node>): map<Id, nat> {
    map id | id in Ids(nodes) :: DepTotal(nodes, id)
  }

  function AfterCount(nodes: seq<Node>): map<Id, nat> {
    map id | id in Ids(nodes) :: AfterTotal(nodes, id)
  }

  function PendingStates(nodes: seq<Node>): map<Id, NodeState> {
    map id | id in Ids(nodes) :: PENDING
  }

  function ReadyIds(q: Queue, excluded: set<Id>): set<Id> {
    set id | id in q.inDegree && q.inDegree[id] == 0 && id !in excluded && (id in q.afterPending ==> q.afterPending[id] == 0)
  }

  /** A fresh run before the ready queue is built. */
  function Blank(nodes: seq<Node>): State {
    State(Queue(EdgeCount(nodes), AfterCount(nodes), [], {}), PendingStates(nodes), {}, [], [], map[], false, false, [DagSubmitted])
  }

  function Start(s: State, order: seq<Id>): State {
    s.(queue := s.queue.(ready := order, enqueued := set k | k in order))
  }

  /** The states a fresh run can start in. */
  ghost predicate Initial(nodes: seq<Node>, s: State) {
    exists order: seq<Id> :: Enumerates(order, ReadyIds(Blank(nodes).queue, {})) && s == Start(Blank(nodes), order)
  }
}
