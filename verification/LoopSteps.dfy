/** Every step of the run loop keeps the invariant, whichever task finishes and whatever it returns. */
module LoopSteps {
  import opened Dag
  import opened Events
  import opened Loop
  import opened LoopInvariant
  import opened LoopFacts
  import opened LoopLog

  ghost predicate OrderOk(order: seq<Id>, terminal: set<Id>) {
    NoDup(order) && forall k :: k in order <==> k in terminal
  }

  /** A spawned node was held back by nothing; a running one was given its task from final outputs. */
  ghost predicate Dispatched(n: Node, st: map<Id, NodeState>, spawned: seq<Id>, running: map<Id, Task>) {
    && (n.id in spawned ==> Unreleased(n, st, n.dependsOn) == 0 && Open(st, n.after) == 0)
    && (n.id in running ==> n.id in spawned && running[n.id] == TaskOf(n, st))
  }

  ghost predicate Sets(nodes: seq<Node>, s: State) {
    && TerminalSet(Ids(nodes), s.nodeState, s.terminal)
    && QueueOk(s.queue.ready, s.queue.enqueued, s.running.Keys, s.terminal)
    && OrderOk(s.terminalOrder, s.terminal)
    && (forall k | k in s.spawned :: k in Ids(nodes))
    && (forall n | n in nodes :: Dispatched(n, s.nodeState, s.spawned, s.running))
  }

  ghost predicate Core(nodes: seq<Node>, mode: Mode, s: State, owed: multiset<Id>, toBlock: set<Id>, toSkip: set<Id>) {
    && Counts(nodes, s.nodeState, s.queue, owed, multiset{})
    && Facts(nodes, mode, s.nodeState, toBlock, toSkip)
    && Sets(nodes, s)
  }

  ghost predicate Inv(nodes: seq<Node>, mode: Mode, s: State, owed: multiset<Id>, toBlock: set<Id>, toSkip: set<Id>) {
    Core(nodes, mode, s, owed, toBlock, toSkip) && LogOk(nodes, mode, s.log, s.nodeState)
  }

  /** Terminal records are final, and the histories only grow. */
  ghost predicate Extends(s: State, s': State) {
    && s.nodeState.Keys == s'.nodeState.Keys
    && (forall id | id in s.nodeState && IsTerminal(s.nodeState[id].status) :: s'.nodeState[id] == s.nodeState[id])
    && s.log <= s'.log
    && s.terminalOrder <= s'.terminalOrder
    && s.spawned <= s'.spawned
  }

  lemma ExtendsTransitive(a: State, b: State, c: State)
    requires Extends(a, b) && Extends(b, c)
    ensures Extends(a, c)
  {
    PrefixTransitive(a.log, b.log, c.log);
    PrefixTransitive(a.terminalOrder, b.terminalOrder, c.terminalOrder);
    PrefixTransitive(a.spawned, b.spawned, c.spawned);
  }

  lemma PrefixTransitive<T>(a: seq<T>, b: seq<T>, c: seq<T>)
    requires a <= b && b <= c
    ensures a <= c
  {
    assert a == c[..|a|];
  }

  // ----- One terminal transition

  lemma QueueTerminal(ready: seq<Id>, enqueued: set<Id>, running: set<Id>, terminal: set<Id>, x: Id)
    requires QueueOk(ready, enqueued, running, terminal)
    requires x in running || x !in enqueued
    ensures QueueOk(ready, enqueued, running - {x}, terminal + {x})
  {
  }

  lemma OrderTerminal(order: seq<Id>, terminal: set<Id>, x: Id)
    requires OrderOk(order, terminal)
    ensures OrderOk(if x in order then order else order + [x], terminal + {x})
  {
  }

  lemma DispatchedStays(n: Node, st: map<Id, NodeState>, spawned: seq<Id>, running: map<Id, Task>, x: Id, ns: NodeState)
    requires WellFormedNode(n) && Has(st, x, Pending) && IsTerminal(ns.status)
    requires Dispatched(n, st, spawned, running)
    ensures Dispatched(n, st[x := ns], spawned, running - {x})
  {
    if n.id in spawned {
      WaitsForNoPending(n, st, x);
      UnreleasedFlip(n, st, x, ns, n.dependsOn);
      OpenFlip(st, x, ns, n.after);
      forall r | Edge(n, r)
        ensures OutText(st, r) == OutText(st[x := ns], r)
      {
        assert r != x;
      }
      TaskReads(n, st, st[x := ns]);
    }
  }

  /** The state with `x` taken out of the task set, if it was in it. */
  function Without(s: State, x: Id): State {
    s.(running := s.running - {x})
  }

  lemma SettleSets(nodes: seq<Node>, s: State, x: Id, ns: NodeState, e: Event)
    requires WellFormed(nodes) && x in Ids(nodes) && Sets(nodes, s)
    requires Has(s.nodeState, x, Pending) && IsTerminal(ns.status)
    requires x in s.running || x !in s.queue.enqueued
    requires Grown(s.queue, ReleaseAfters(s.queue, AfterDependents(nodes, x)))
    ensures Sets(nodes, Settle(nodes, Without(s, x), x, ns, e))
  {
    hide Dispatched, Grown, QueueOk, OrderOk;
    QueueTerminal(s.queue.ready, s.queue.enqueued, s.running.Keys, s.terminal, x);
    OrderTerminal(s.terminalOrder, s.terminal, x);
    assert (s.running - {x}).Keys == s.running.Keys - {x};
    GrownQueue(s.queue, ReleaseAfters(s.queue, AfterDependents(nodes, x)), s.running.Keys - {x}, s.terminal + {x});
    forall n | n in nodes
      ensures Dispatched(n, s.nodeState[x := ns], s.spawned, s.running - {x})
    {
      DispatchedStays(n, s.nodeState, s.spawned, s.running, x, ns);
    }
    TerminalSetGrows(Ids(nodes), s.nodeState, s.terminal, x, ns);
  }

  lemma GrownQueue(q: Queue, q': Queue, running: set<Id>, terminal: set<Id>)
    requires Grown(q, q') && QueueOk(q.ready, q.enqueued, running, terminal)
    ensures QueueOk(q'.ready, q'.enqueued, running, terminal)
  {
  }

  lemma TerminalSetGrows(ids: set<Id>, st: map<Id, NodeState>, terminal: set<Id>, x: Id, ns: NodeState)
    requires TerminalSet(ids, st, terminal) && x in ids && IsTerminal(ns.status)
    ensures TerminalSet(ids, st[x := ns], terminal + {x})
  {
  }

  lemma SettleCore(nodes: seq<Node>, mode: Mode, s: State, x: Node, ns: NodeState, e: Event, owed: multiset<Id>, toBlock: set<Id>, toSkip: set<Id>)
    requires WellFormed(nodes) && ModeOk(nodes, mode) && x in nodes
    requires Core(nodes, mode, s, owed, toBlock, toSkip)
    requires Has(s.nodeState, x.id, Pending) && IsTerminal(ns.status) && JustifiedAs(mode, x, s.nodeState, ns)
    requires x.id in s.running || x.id !in s.queue.enqueued
    ensures Core(nodes, mode, Settle(nodes, Without(s, x.id), x.id, ns, e), owed + multiset(ReleasedBy(nodes, x.id, ns.status)),
                 toBlock - {x.id} + BlockedBy(nodes, x.id, ns.status), toSkip - {x.id} + SkippedBy(nodes, x.id, ns.status))
    ensures Extends(s, Settle(nodes, Without(s, x.id), x.id, ns, e))
  {
    hide Counts, Facts, Sets, JustifiedAs, BlockedBy, SkippedBy, ReleasedBy, Extends;
    MarkCounts(nodes, s.nodeState, s.queue, x.id, ns, owed);
    ReleaseAftersCounts(nodes, s.nodeState[x.id := ns], s.queue, AfterDependents(nodes, x.id), owed + multiset(ReleasedBy(nodes, x.id, ns.status)));
    MarkFacts(nodes, mode, s.nodeState, x, ns, toBlock, toSkip);
    SettleSets(nodes, s, x.id, ns, e);
    SettleExtends(nodes, s, x.id, ns, e);
  }

  lemma SettleExtends(nodes: seq<Node>, s: State, x: Id, ns: NodeState, e: Event)
    requires Has(s.nodeState, x, Pending)
    ensures Extends(s, Settle(nodes, Without(s, x), x, ns, e))
  {
  }

  /** In a plain graph a node that ran had all its dependencies Done. */
  lemma PlainDone(mode: Mode, n: Node, st: map<Id, NodeState>, ns: NodeState)
    requires PlainNode(n) && ns.status != Blocked && JustifiedAs(mode, n, st, ns)
    ensures forall d | d in n.dependsOn :: Has(st, d, Done)
  {
    NoneUnreleased(n, st, n.dependsOn);
  }

  lemma NotQueued(nodes: seq<Node>, st: map<Id, NodeState>, q: Queue, owed: multiset<Id>, x: Node, d: Id)
    requires Counts(nodes, st, q, owed, multiset{}) && x in nodes
    requires Has(st, x.id, Pending) && d in x.dependsOn && !Released(x, st, d)
    ensures x.id !in q.enqueued
  {
    assert Counted(x, st, q, owed[x.id], 0);
    NoneUnreleased(x, st, x.dependsOn);
  }

  /** A transition outside a task: skipped or blocked. */
  lemma SettleInv(nodes: seq<Node>, mode: Mode, s: State, x: Node, ns: NodeState, e: Event, owed: multiset<Id>, toBlock: set<Id>, toSkip: set<Id>)
    requires WellFormed(nodes) && ModeOk(nodes, mode) && x in nodes
    requires Inv(nodes, mode, s, owed, toBlock, toSkip)
    requires Has(s.nodeState, x.id, Pending) && JustifiedAs(mode, x, s.nodeState, ns)
    requires Announces(e, x.id, ns) && !e.NodeVerifyFailed?
    requires x.id !in s.queue.enqueued
    ensures Inv(nodes, mode, Settle(nodes, s, x.id, ns, e), owed + multiset(ReleasedBy(nodes, x.id, ns.status)),
                toBlock - {x.id} + BlockedBy(nodes, x.id, ns.status), toSkip - {x.id} + SkippedBy(nodes, x.id, ns.status))
    ensures Extends(s, Settle(nodes, s, x.id, ns, e))
  {
    hide Counts, Facts, Settle, BlockedBy, SkippedBy, ReleasedBy, JustifiedAs;
    assert x.id !in s.running;
    assert Without(s, x.id) == s by {
      assert s.running - {x.id} == s.running;
    }
    SettleCore(nodes, mode, s, x, ns, e, owed, toBlock, toSkip);
    if PlainNode(x) && ns.status != Blocked {
      PlainDone(mode, x, s.nodeState, ns);
    }
    FinalLog(nodes, mode, s.log, s.nodeState, x, ns, e);
    SettleLog(nodes, s, x.id, ns, e);
  }

  lemma SettleLog(nodes: seq<Node>, s: State, id: Id, ns: NodeState, e: Event)
    ensures Settle(nodes, s, id, ns, e).log == s.log + [e]
    ensures Settle(nodes, s, id, ns, e).nodeState == s.nodeState[id := ns]
  {
  }
}
