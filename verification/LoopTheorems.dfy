/** What holds of every run of the loop on a well-formed graph. */
module LoopTheorems {
  import opened Wrappers
  import opened Dag
  import opened Events
  import opened Vault
  import opened Loop
  import opened LoopInvariant
  import opened LoopFacts
  import opened LoopLog
  import opened LoopSteps
  import opened LoopRuns

  // ----- Start

  lemma {:induction false} AllUnreleased(n: Node, st: map<Id, NodeState>, deps: seq<Id>)
    requires forall d | d in deps :: !Released(n, st, d)
    ensures Unreleased(n, st, deps) == |deps|
  {
    if deps != [] {
      assert deps[0] in deps;
      AllUnreleased(n, st, deps[1..]);
    }
  }

  lemma {:induction false} AllOpen(st: map<Id, NodeState>, after: seq<Id>)
    requires forall a | a in after :: !Over(st, a)
    ensures Open(st, after) == |after|
  {
    if after != [] {
      assert after[0] in after;
      AllOpen(st, after[1..]);
    }
  }

  ghost predicate AllPending(nodes: seq<Node>, st: map<Id, NodeState>) {
    st.Keys == Ids(nodes) && forall id | id in st :: st[id] == PENDING
  }

  /** The counters are the lengths of the edge lists, and exactly the nodes without edges are enqueued. */
  ghost predicate StartCounters(nodes: seq<Node>, q: Queue) {
    && Domains(Ids(nodes), q)
    && (forall n | n in nodes :: q.inDegree[n.id] == |n.dependsOn| && q.afterPending[n.id] == |n.after|)
    && (forall n | n in nodes :: n.id in q.enqueued <==> n.dependsOn == [] && n.after == [])
    && QueueOk(q.ready, q.enqueued, {}, {})
  }

  lemma StartIsStart(nodes: seq<Node>, order: seq<Id>)
    requires UniqueIds(nodes) && Enumerates(order, ReadyIds(Blank(nodes).queue, {}))
    ensures StartCounters(nodes, Start(Blank(nodes), order).queue)
    ensures AllPending(nodes, Blank(nodes).nodeState)
  {
    var q := Start(Blank(nodes), order).queue;
    forall n | n in nodes
      ensures q.inDegree[n.id] == |n.dependsOn| && q.afterPending[n.id] == |n.after|
    {
      OwnCounts(nodes, n);
    }
  }

  /** With unique ids the totals are the node's own. */
  lemma {:induction false} OwnCounts(nodes: seq<Node>, n: Node)
    requires UniqueIds(nodes) && n in nodes
    ensures DepTotal(nodes, n.id) == |n.dependsOn| && AfterTotal(nodes, n.id) == |n.after|
  {
    var front, last := nodes[..|nodes| - 1], nodes[|nodes| - 1];
    assert nodes == front + [last];
    if n in front {
      var i :| 0 <= i < |front| && front[i] == n;
      assert nodes[i].id != nodes[|nodes| - 1].id;
      OwnCounts(front, n);
    } else {
      NoCounts(front, n.id);
    }
  }

  lemma {:induction false} NoCounts(nodes: seq<Node>, id: Id)
    requires forall i | 0 <= i < |nodes| :: nodes[i].id != id
    ensures DepTotal(nodes, id) == 0 && AfterTotal(nodes, id) == 0
  {
    if nodes != [] {
      NoCounts(nodes[..|nodes| - 1], id);
    }
  }

  lemma StartCounts(nodes: seq<Node>, st: map<Id, NodeState>, q: Queue)
    requires AllPending(nodes, st) && StartCounters(nodes, q)
    ensures Counts(nodes, st, q, multiset{}, multiset{})
  {
    forall n | n in nodes
      ensures Counted(n, st, q, multiset{}[n.id], multiset{}[n.id])
    {
      AllUnreleased(n, st, n.dependsOn);
      AllOpen(st, n.after);
    }
  }

  lemma StartFacts(nodes: seq<Node>, mode: Mode, st: map<Id, NodeState>)
    requires AllPending(nodes, st)
    ensures Facts(nodes, mode, st, {}, {})
  {
  }

  lemma StartSets(nodes: seq<Node>, s: State)
    requires AllPending(nodes, s.nodeState) && QueueOk(s.queue.ready, s.queue.enqueued, {}, {})
    requires s.terminal == {} && s.terminalOrder == [] && s.spawned == [] && s.running == map[]
    ensures Sets(nodes, s)
  {
  }

  lemma EmptyVaultSound(nodes: seq<Node>, artifacts: bool, v: Vault, st: map<Id, NodeState>)
    requires v.records == map[]
    ensures VaultSound(nodes, artifacts, v, st)
  {
  }

  lemma StartLog(nodes: seq<Node>, mode: Mode, st: map<Id, NodeState>)
    requires FirstRun(mode) && AllPending(nodes, st)
    ensures LogOk(nodes, mode, [DagSubmitted], st)
  {
    hide RecordSound, VaultSound;
    EmptyVaultSound(nodes, mode.artifacts, mode.base.vault, st);
    assert PrefixesSound(nodes, mode.artifacts, mode.base, [], st);
    EmptyVaultSound(nodes, mode.artifacts, Project(mode.base, DagSubmitted).vault, st);
    PrefixesAppend(nodes, mode.artifacts, mode.base, [], DagSubmitted, st);
    FoldOne(mode.base, [], DagSubmitted);
    assert [] + [DagSubmitted] == [DagSubmitted];
  }

  /** A first run reports to an empty vault. */
  ghost predicate FirstRun(mode: Mode) {
    mode.firstRun && mode.base.vault.records == map[]
  }

  lemma InitialOk(nodes: seq<Node>, mode: Mode, s: State)
    requires WellFormed(nodes) && FirstRun(mode) && Initial(nodes, s)
    ensures Sound(nodes, mode, s)
  {
    hide Sets, LogOk, Counts, Facts, AllPending, Enumerates, ReadyIds, Domains;
    var order: seq<Id> :| Enumerates(order, ReadyIds(Blank(nodes).queue, {})) && s == Start(Blank(nodes), order);
    StartIsStart(nodes, order);
    StartCounts(nodes, s.nodeState, s.queue);
    StartFacts(nodes, mode, s.nodeState);
    StartSets(nodes, s);
    StartLog(nodes, mode, s.nodeState);
  }

  // ----- Runs

  lemma StepOk(nodes: seq<Node>, mode: Mode, s: State, a: Action)
    requires WellFormed(nodes) && ModeOk(nodes, mode) && Sound(nodes, mode, s)
    requires Enabled(s, a) && Faithful(mode, s, a)
    ensures Sound(nodes, mode, Step(nodes, s, a)) && Extends(s, Step(nodes, s, a))
  {
    hide Sound, WellFormed, ModeOk, Pop, Join, Extends;
    match a
    case Take(refuse) => PopOk(nodes, mode, s, refuse);
    case Finish(id, r) => JoinOk(nodes, mode, s, id, r);
  }

  ghost predicate FaithfulRun(nodes: seq<Node>, mode: Mode, s: State, acts: seq<Action>)
    requires IsRun(nodes, s, acts)
    decreases |acts|
  {
    acts != [] ==> Faithful(mode, s, acts[0]) && FaithfulRun(nodes, mode, Step(nodes, s, acts[0]), acts[1..])
  }

  lemma {:induction false} RunOk(nodes: seq<Node>, mode: Mode, s: State, acts: seq<Action>)
    requires WellFormed(nodes) && ModeOk(nodes, mode) && Sound(nodes, mode, s)
    requires IsRun(nodes, s, acts) && FaithfulRun(nodes, mode, s, acts)
    ensures Sound(nodes, mode, After(nodes, s, acts)) && Extends(s, After(nodes, s, acts))
    decreases |acts|
  {
    hide Sound, WellFormed, ModeOk, Step, Extends, Enabled, Faithful;
    if acts == [] {
      LoopSkip.ExtendsSelf(s);
    } else {
      var s' := Step(nodes, s, acts[0]);
      StepOk(nodes, mode, s, acts[0]);
      RunOk(nodes, mode, s', acts[1..]);
      ExtendsTransitive(s, s', After(nodes, s', acts[1..]));
    }
  }

  /** The states a first run can reach, with arbitrary results. */
  ghost predicate Reachable(nodes: seq<Node>, s: State) {
    exists s0, acts: seq<Action> :: Initial(nodes, s0) && IsRun(nodes, s0, acts) && s == After(nodes, s0, acts)
  }

  const ANY_RESULT := Mode(true, false, true, {}, None, SinkState(Vault(None, map[], map[], None), false))

  lemma {:induction false} AnyRunIsFaithful(nodes: seq<Node>, mode: Mode, s: State, acts: seq<Action>)
    requires IsRun(nodes, s, acts) && mode.work.None?
    ensures FaithfulRun(nodes, mode, s, acts)
    decreases |acts|
  {
    hide Step, Enabled;
    if acts != [] {
      AnyRunIsFaithful(nodes, mode, Step(nodes, s, acts[0]), acts[1..]);
    }
  }

  lemma ReachableOk(nodes: seq<Node>, s: State)
    requires WellFormed(nodes) && Reachable(nodes, s)
    ensures Sound(nodes, ANY_RESULT, s)
  {
    hide Sound, WellFormed, Initial, IsRun, After;
    var s0, acts: seq<Action> :| Initial(nodes, s0) && IsRun(nodes, s0, acts) && s == After(nodes, s0, acts);
    InitialOk(nodes, ANY_RESULT, s0);
    AnyRunIsFaithful(nodes, ANY_RESULT, s0, acts);
    RunOk(nodes, ANY_RESULT, s0, acts);
  }

  /**
   Dispatch safety: whenever a node has been spawned, each of its dependencies is Done, or Failed if the
   node is its fix node, and every node it is ordered after is terminal.
   */
  lemma DispatchSafety(nodes: seq<Node>, s: State, n: Node)
    requires WellFormed(nodes) && Reachable(nodes, s)
    requires n in nodes && n.id in s.spawned
    ensures forall d | d in n.dependsOn :: Has(s.nodeState, d, if GatedOn(n, d) then Failed else Done)
    ensures forall a | a in n.after :: Over(s.nodeState, a)
  {
    hide WellFormed, Reachable, LogOk, Counts, Facts;
    ReachableOk(nodes, s);
    assert Dispatched(n, s.nodeState, s.spawned, s.running);
    NoneUnreleased(n, s.nodeState, n.dependsOn);
    NoneOpen(s.nodeState, n.after);
  }

  /** Stability: once a node is terminal, no continuation of the run changes its record. */
  lemma TerminalIsFinal(nodes: seq<Node>, s: State, acts: seq<Action>, id: Id)
    requires WellFormed(nodes) && Reachable(nodes, s) && IsRun(nodes, s, acts)
    requires Over(s.nodeState, id)
    ensures var s' := After(nodes, s, acts);
      id in s'.nodeState && s'.nodeState[id] == s.nodeState[id]
  {
    hide WellFormed, Reachable, Sound, IsRun, After;
    ReachableOk(nodes, s);
    AnyRunIsFaithful(nodes, ANY_RESULT, s, acts);
    RunOk(nodes, ANY_RESULT, s, acts);
  }

  /** Terminal transitions are published once each, and for terminal nodes only. */
  lemma PublishedOnce(nodes: seq<Node>, s: State)
    requires WellFormed(nodes) && Reachable(nodes, s)
    ensures NoDup(s.terminalOrder)
    ensures forall id | id in Ids(nodes) :: id in s.terminalOrder <==> Over(s.nodeState, id)
  {
    hide WellFormed, Reachable, LogOk, Counts;
    ReachableOk(nodes, s);
  }

  // ----- The exit

  /** Why a node is still waiting. */
  ghost predicate HeldBack(n: Node, st: map<Id, NodeState>) {
    || (exists d :: d in n.dependsOn && (Has(st, d, Blocked) || Has(st, d, Pending)))
    || (exists a :: a in n.after && Has(st, a, Pending))
  }

  /** No lost wake-up: at an unrefused exit every pending node waits for a node that is blocked or itself pending. */
  lemma ExitPending(nodes: seq<Node>, mode: Mode, s: State, n: Node)
    requires WellFormed(nodes) && Sound(nodes, mode, s)
    requires Exited(s) && !s.refused
    requires n in nodes && Has(s.nodeState, n.id, Pending)
    ensures HeldBack(n, s.nodeState)
  {
    hide LogOk, Counts, Facts, Sets, Unreleased, Open, WellFormed;
    var st := s.nodeState;
    NotReleased(nodes, mode, s, n);
    NoneUnreleased(n, st, n.dependsOn);
    NoneOpen(st, n.after);
    if d :| d in n.dependsOn && !Released(n, st, d) {
      EdgeIsNode(nodes, n, d);
      KnownStatus(nodes, mode, s, d);
      NotFinishedFor(nodes, mode, s, n, d);
    } else {
      var a :| a in n.after && !Over(st, a);
      EdgeIsNode(nodes, n, a);
      KnownStatus(nodes, mode, s, a);
    }
  }

  /** At an exit the counters of a pending node are not both zero. */
  lemma NotReleased(nodes: seq<Node>, mode: Mode, s: State, n: Node)
    requires Sound(nodes, mode, s) && Exited(s) && !s.refused && n in nodes && Has(s.nodeState, n.id, Pending)
    ensures Unreleased(n, s.nodeState, n.dependsOn) > 0 || Open(s.nodeState, n.after) > 0
  {
    hide LogOk, Facts, Unreleased, Open, OrderOk, Dispatched;
    assert Counted(n, s.nodeState, s.queue, multiset{}[n.id], multiset{}[n.id]);
    assert n.id !in s.terminal;
    assert n.id !in s.queue.enqueued;
  }

  lemma NotFinishedFor(nodes: seq<Node>, mode: Mode, s: State, n: Node, d: Id)
    requires Sound(nodes, mode, s) && n in nodes && Has(s.nodeState, n.id, Pending)
    requires d in n.dependsOn && !Released(n, s.nodeState, d)
    ensures !Has(s.nodeState, d, Done) && !Has(s.nodeState, d, Failed)
  {
    hide LogOk, Counts, Sets;
    assert NodeFacts(mode, n, s.nodeState, {}, {});
  }

  lemma EdgeIsNode(nodes: seq<Node>, n: Node, d: Id)
    requires WellFormed(nodes) && n in nodes && Edge(n, d)
    ensures d in Ids(nodes)
  {
  }

  lemma KnownStatus(nodes: seq<Node>, mode: Mode, s: State, d: Id)
    requires WellFormed(nodes) && Sound(nodes, mode, s) && d in Ids(nodes)
    ensures Has(s.nodeState, d, Pending) || Over(s.nodeState, d)
  {
    hide LogOk, Counts, JustifiedAs;
    var m :| m in nodes && m.id == d;
    assert NodeFacts(mode, m, s.nodeState, {}, {});
  }

  lemma NoLostWakeUp(nodes: seq<Node>, s: State, n: Node)
    requires WellFormed(nodes) && Reachable(nodes, s)
    requires Exited(s) && !s.refused
    requires n in nodes && Has(s.nodeState, n.id, Pending)
    ensures HeldBack(n, s.nodeState)
  {
    hide WellFormed, Reachable, Sound;
    ReachableOk(nodes, s);
    ExitPending(nodes, ANY_RESULT, s, n);
  }

  ghost predicate Linked(nodes: seq<Node>, a: Id, b: Id) {
    exists n :: n in nodes && n.id == a && Edge(n, b)
  }

  /** A chain of edges that ends in a failed node. */
  ghost predicate LeadsToFailed(nodes: seq<Node>, st: map<Id, NodeState>, path: seq<Id>) {
    && path != []
    && Has(st, path[|path| - 1], Failed)
    && forall i | 0 <= i < |path| - 1 :: Linked(nodes, path[i], path[i + 1])
  }

  lemma LeadsOn(nodes: seq<Node>, st: map<Id, NodeState>, a: Id, path: seq<Id>)
    requires LeadsToFailed(nodes, st, path) && Linked(nodes, a, path[0])
    ensures LeadsToFailed(nodes, st, [a] + path)
  {
  }

  /** Every node left Pending or Blocked descends from a failed one. */
  lemma {:induction false} UnfinishedDescendsFromFailed(nodes: seq<Node>, rank: map<Id, nat>, s: State, n: Node) returns (path: seq<Id>)
    requires WellFormed(nodes) && Reachable(nodes, s) && Ranked(nodes, rank)
    requires Exited(s) && !s.refused && n in nodes
    requires Has(s.nodeState, n.id, Pending) || Has(s.nodeState, n.id, Blocked)
    ensures path != [] && path[0] == n.id && LeadsToFailed(nodes, s.nodeState, path)
    decreases rank[n.id]
  {
    hide WellFormed, Reachable, Exited, LeadsToFailed;
    var st := s.nodeState;
    WaitsForUnfinished(nodes, s, n);
    var d :| Edge(n, d) && (Has(st, d, Pending) || Has(st, d, Blocked) || Has(st, d, Failed));
    assert Linked(nodes, n.id, d);
    if Has(st, d, Failed) {
      path := [d];
      FailedPath(nodes, st, d);
    } else {
      EdgeNode(nodes, n, d);
      var m :| m in nodes && m.id == d;
      path := UnfinishedDescendsFromFailed(nodes, rank, s, m);
    }
    LeadsOn(nodes, st, n.id, path);
    path := [n.id] + path;
  }

  lemma FailedPath(nodes: seq<Node>, st: map<Id, NodeState>, d: Id)
    requires Has(st, d, Failed)
    ensures LeadsToFailed(nodes, st, [d])
  {
  }

  lemma EdgeNode(nodes: seq<Node>, n: Node, d: Id)
    requires WellFormed(nodes) && n in nodes && Edge(n, d)
    ensures exists m :: m in nodes && m.id == d
  {
    assert d in Ids(nodes);
  }

  lemma WaitsForUnfinished(nodes: seq<Node>, s: State, n: Node)
    requires WellFormed(nodes) && Reachable(nodes, s)
    requires Exited(s) && !s.refused && n in nodes
    requires Has(s.nodeState, n.id, Pending) || Has(s.nodeState, n.id, Blocked)
    ensures exists d :: Edge(n, d) && (Has(s.nodeState, d, Pending) || Has(s.nodeState, d, Blocked) || Has(s.nodeState, d, Failed))
  {
    hide WellFormed, Reachable, LogOk, Counts, Sets;
    if Has(s.nodeState, n.id, Pending) {
      NoLostWakeUp(nodes, s, n);
    } else {
      ReachableOk(nodes, s);
      assert NodeFacts(ANY_RESULT, n, s.nodeState, {}, {});
    }
  }

  /** If nothing failed, an unrefused run of an acyclic graph leaves every node Done. */
  lemma NothingFailedEverythingDone(nodes: seq<Node>, rank: map<Id, nat>, s: State, n: Node)
    requires WellFormed(nodes) && Reachable(nodes, s) && Ranked(nodes, rank)
    requires Exited(s) && !s.refused && n in nodes
    requires forall id | id in Ids(nodes) :: !Has(s.nodeState, id, Failed)
    ensures Has(s.nodeState, n.id, Done)
  {
    hide WellFormed, Reachable, Exited, Sound;
    ReachableOk(nodes, s);
    KnownStatus(nodes, ANY_RESULT, s, n.id);
    if !Has(s.nodeState, n.id, Done) {
      var path := UnfinishedDescendsFromFailed(nodes, rank, s, n);
      StatesAreIds(nodes, ANY_RESULT, s);
      assert false;
    }
  }

  lemma StatesAreIds(nodes: seq<Node>, mode: Mode, s: State)
    requires Sound(nodes, mode, s)
    ensures s.nodeState.Keys == Ids(nodes)
  {
    hide LogOk, Counts, Sets;
  }

  // ----- The vault

  /**
   After all events of a first run the vault agrees with the report: Done, Blocked and Failed exactly as
   recorded, Running where the failure was one of verification, and nothing for a pending node.
   */
  lemma VaultAgreesWithReport(nodes: seq<Node>, s: State, n: Node)
    requires WellFormed(nodes) && Reachable(nodes, s) && n in nodes
    ensures var v := Fold(ANY_RESULT.base, s.log).vault;
      && (n.id !in v.records <==> Has(s.nodeState, n.id, Pending))
      && (Recorded(v, n.id, Done) <==> Has(s.nodeState, n.id, Done))
      && (Recorded(v, n.id, Blocked) <==> Has(s.nodeState, n.id, Blocked))
      && (Recorded(v, n.id, Failed) <==> Has(s.nodeState, n.id, Failed) && !VerifyFailedLogged(s.log, n.id))
      && (Recorded(v, n.id, Running) <==> Has(s.nodeState, n.id, Failed) && VerifyFailedLogged(s.log, n.id))
      && (Has(s.nodeState, n.id, Done) ==> n.id in v.artifacts && v.artifacts[n.id] == OrEmpty(s.nodeState[n.id].output))
  {
    hide WellFormed, Reachable, Counts, Sets;
    ReachableOk(nodes, s);
    KnownStatus(nodes, ANY_RESULT, s, n.id);
    var v := Fold(ANY_RESULT.base, s.log).vault;
    assert s.log[..|s.log|] == s.log;
    assert RecordSound(n, true, v, s.nodeState);
    assert RecordExact(n.id, v, s.log, s.nodeState);
  }

  /** After any prefix of the events, a terminal record is one the scheduler had already reached. */
  lemma PrefixIsNotAhead(nodes: seq<Node>, s: State, k: nat, n: Node, status: Status)
    requires WellFormed(nodes) && Reachable(nodes, s) && n in nodes && k <= |s.log|
    requires IsTerminal(status) && Recorded(Fold(ANY_RESULT.base, s.log[..k]).vault, n.id, status)
    ensures Has(s.nodeState, n.id, status)
  {
    hide WellFormed, Reachable, Counts, Sets, Facts;
    ReachableOk(nodes, s);
    assert VaultSound(nodes, true, Fold(ANY_RESULT.base, s.log[..k]).vault, s.nodeState);
    assert RecordSound(n, true, Fold(ANY_RESULT.base, s.log[..k]).vault, s.nodeState);
  }
}
