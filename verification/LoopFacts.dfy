/**
 What the recorded node states mean: every terminal record is justified by the records of the nodes
 it waited for, and no dependent of a finished node is forgotten.
 */
module LoopFacts {
  import opened Wrappers
  import opened Dag
  import opened Events
  import opened Template
  import opened Loop
  import opened LoopInvariant
  import opened Vault
  import Quorum

  /** What a worker makes of a node; what it reports on the way may depend on other dispatches. */
  type Worker = Node -> NodeState

  /**
   `work` fixes what a worker returns; without it results are arbitrary.  A run that is not a first run
   started from a checkpoint: there recorded outputs agree up to the text interpolation sees, or not at
   all if `blind`, and nodes in `doomed` were blocked from the start.  `base` is what the sink held when
   the run started; `artifacts` says that the stored artifacts are the recorded outputs.
   */
  datatype Mode = Mode(firstRun: bool, blind: bool, artifacts: bool, doomed: set<Id>, work: Option<Worker>, base: SinkState)

  function Outcome(work: Worker, task: Task): NodeState {
    match task
    case Dispatch(node) => work(node)
    case Count(result) => result.state
  }

  ghost predicate Matches(mode: Mode, ns: NodeState, task: Task) {
    mode.work.Some? ==>
      var r := Outcome(mode.work.value, task);
      if mode.firstRun then ns == r
      else ns.status == r.status && (mode.blind || ns.status != Done || OrEmpty(ns.output) == OrEmpty(r.output))
  }

  /** Nothing held the node back any more, and its record is what the task it became returns. */
  ghost predicate RanAs(mode: Mode, n: Node, st: map<Id, NodeState>, ns: NodeState) {
    && Unreleased(n, st, n.dependsOn) == 0
    && Open(st, n.after) == 0
    && Matches(mode, ns, TaskOf(n, st))
  }

  ghost predicate GateClosed(n: Node, st: map<Id, NodeState>) {
    exists d :: d in n.dependsOn && GatedOn(n, d) && Has(st, d, Done)
  }

  ghost predicate SourceFailed(n: Node, st: map<Id, NodeState>) {
    exists d :: d in n.dependsOn && !GatedOn(n, d) && Has(st, d, Failed)
  }

  ghost predicate JustifiedAs(mode: Mode, n: Node, st: map<Id, NodeState>, ns: NodeState) {
    if ns.status == Blocked then
      if mode.firstRun then SourceFailed(n, st) && ns == BLOCKED else SourceFailed(n, st) || n.id in mode.doomed
    else
      RanAs(mode, n, st, ns) || (GateClosed(n, st) && ns == SKIPPED)
  }

  ghost predicate NodeFacts(mode: Mode, n: Node, st: map<Id, NodeState>, toBlock: set<Id>, toSkip: set<Id>) {
    && n.id in st
    && (IsTerminal(st[n.id].status) || st[n.id] == PENDING)
    && (IsTerminal(st[n.id].status) ==> JustifiedAs(mode, n, st, st[n.id]))
    && (SourceFailed(n, st) ==> IsTerminal(st[n.id].status) || n.id in toBlock)
    && (GateClosed(n, st) ==> IsTerminal(st[n.id].status) || n.id in toSkip)
  }

  ghost predicate Facts(nodes: seq<Node>, mode: Mode, st: map<Id, NodeState>, toBlock: set<Id>, toSkip: set<Id>) {
    && st.Keys == Ids(nodes)
    && (forall n | n in nodes :: NodeFacts(mode, n, st, toBlock, toSkip))
    && (forall k | k in toSkip :: Has(st, k, Pending))
    && (forall k | k in toBlock :: k in st && (Has(st, k, Pending) || AfterDependents(nodes, k) == []))
  }

  ghost predicate PlainNode(n: Node) {
    n.after == [] && forall d | d in n.dependsOn :: !GatedOn(n, d)
  }

  /** Resuming is only described for graphs without gates and `after` edges. */
  ghost predicate ModeOk(nodes: seq<Node>, mode: Mode) {
    mode.firstRun || forall n | n in nodes :: PlainNode(n)
  }

  // ----- Records of other nodes do not disturb a justified record

  function OutText(st: map<Id, NodeState>, r: Id): string {
    Lookup(OutputsOf(st), r)
  }

  lemma TaskReads(n: Node, st: map<Id, NodeState>, st': map<Id, NodeState>)
    requires WellFormedNode(n)
    requires forall r | Edge(n, r) :: OutText(st, r) == OutText(st', r)
    ensures TaskOf(n, st) == TaskOf(n, st')
  {
    RenderReadsOnlyRefs(Parse(n.prompt), OutputsOf(st), OutputsOf(st'));
    var filled := n.(prompt := Interpolate(n.prompt, OutputsOf(st)));
    if n.nodeType == Some("quorum") {
      forall r | r in Quorum.ConfigOf(filled).of
        ensures OutText(st, r) == OutText(st', r)
      {
        assert Edge(n, r);
      }
      Quorum.ResultReads(filled, OutputsOf(st), OutputsOf(st'));
    }
  }

  /** A node that nothing holds back waits for terminal nodes only. */
  lemma WaitsForNoPending(n: Node, st: map<Id, NodeState>, x: Id)
    requires Unreleased(n, st, n.dependsOn) == 0 && Open(st, n.after) == 0
    requires Has(st, x, Pending)
    ensures !Edge(n, x)
  {
    NoneUnreleased(n, st, n.dependsOn);
    NoneOpen(st, n.after);
  }

  lemma RanStays(mode: Mode, n: Node, st: map<Id, NodeState>, x: Id, ns: NodeState, own: NodeState)
    requires WellFormedNode(n) && Has(st, x, Pending) && IsTerminal(ns.status)
    requires RanAs(mode, n, st, own)
    ensures RanAs(mode, n, st[x := ns], own)
  {
    WaitsForNoPending(n, st, x);
    UnreleasedFlip(n, st, x, ns, n.dependsOn);
    OpenFlip(st, x, ns, n.after);
    forall r | Edge(n, r)
      ensures OutText(st, r) == OutText(st[x := ns], r)
    {
      assert r != x;
    }
    TaskReads(n, st, st[x := ns]);
  }

  lemma JustifiedStays(mode: Mode, n: Node, st: map<Id, NodeState>, x: Id, ns: NodeState, own: NodeState)
    requires WellFormedNode(n) && Has(st, x, Pending) && IsTerminal(ns.status)
    requires JustifiedAs(mode, n, st, own)
    ensures JustifiedAs(mode, n, st[x := ns], own)
  {
    if own.status != Blocked && RanAs(mode, n, st, own) {
      RanStays(mode, n, st, x, ns, own);
    }
    if SourceFailed(n, st) {
      var d :| d in n.dependsOn && !GatedOn(n, d) && Has(st, d, Failed);
      assert Has(st[x := ns], d, Failed);
    }
    if GateClosed(n, st) {
      var d :| d in n.dependsOn && GatedOn(n, d) && Has(st, d, Done);
      assert Has(st[x := ns], d, Done);
    }
  }

  /** A dependent of a pending node is itself pending, unless another failed source blocked it. */
  lemma DependentOfPending(nodes: seq<Node>, mode: Mode, st: map<Id, NodeState>, n: Node, x: Id)
    requires WellFormed(nodes) && ModeOk(nodes, mode) && n in nodes
    requires NodeFacts(mode, n, st, {}, {}) || exists b, k :: NodeFacts(mode, n, st, b, k)
    requires Has(st, x, Pending) && x in n.dependsOn
    ensures GatedOn(n, x) ==> Has(st, n.id, Pending)
    ensures Has(st, n.id, Pending) || Has(st, n.id, Blocked)
    ensures Has(st, n.id, Pending) || AfterDependents(nodes, n.id) == []
  {
    if IsTerminal(st[n.id].status) {
      var own := st[n.id];
      if own.status != Blocked {
        if RanAs(mode, n, st, own) {
          WaitsForNoPending(n, st, x);
          assert false;
        }
        assert false;
      }
      NobodyAfter(nodes, mode, n);
    }
  }

  /** Nobody is ordered after a node with several dependencies, nor after anything in a plain graph. */
  lemma NobodyAfter(nodes: seq<Node>, mode: Mode, m: Node)
    requires WellFormed(nodes) && ModeOk(nodes, mode) && m in nodes
    requires mode.firstRun ==> |m.dependsOn| > 1
    ensures AfterDependents(nodes, m.id) == []
  {
    forall n | n in nodes
      ensures m.id !in n.after
    {
    }
    NoAfterEntries(nodes, m.id);
  }

  lemma {:induction false} NoAfterEntries(nodes: seq<Node>, x: Id)
    requires forall n | n in nodes :: x !in n.after
    ensures AfterDependents(nodes, x) == []
  {
    if nodes != [] {
      var last := nodes[|nodes| - 1];
      assert x !in last.after;
      NoEntries(last.after, x, last.id);
      NoAfterEntries(nodes[..|nodes| - 1], x);
    }
  }

  lemma {:induction false} NoEntries(edges: seq<Id>, x: Id, id: Id)
    requires x !in edges
    ensures Entries(edges, x, id) == []
  {
    if edges != [] {
      NoEntries(edges[..|edges| - 1], x, id);
    }
  }

  // ----- One more terminal record

  function BlockedBy(nodes: seq<Node>, x: Id, status: Status): set<Id> {
    var kind := Kind(nodes, x, Dependents(nodes, x), false);
    if status == Failed then set k | k in kind else {}
  }

  function SkippedBy(nodes: seq<Node>, x: Id, status: Status): set<Id> {
    var kind := Kind(nodes, x, Dependents(nodes, x), true);
    if status == Done then set k | k in kind else {}
  }

  lemma KindHas(nodes: seq<Node>, x: Id, gated: bool, n: Node)
    requires UniqueIds(nodes) && n in nodes
    ensures n.id in Kind(nodes, x, Dependents(nodes, x), gated) <==> x in n.dependsOn && GatedOn(n, x) == gated
  {
    var deps := Dependents(nodes, x);
    GetOwnNode(nodes, n);
    DependentsCount(nodes, x, n);
    KindCount(nodes, x, deps, gated, n.id);
    assert n.id in Kind(nodes, x, deps, gated) <==> multiset(Kind(nodes, x, deps, gated))[n.id] > 0;
    assert x in n.dependsOn <==> multiset(n.dependsOn)[x] > 0;
  }

  lemma MarkNodeFacts(nodes: seq<Node>, mode: Mode, st: map<Id, NodeState>, x: Id, ns: NodeState, n: Node,
                      toBlock: set<Id>, toSkip: set<Id>)
    requires WellFormed(nodes) && ModeOk(nodes, mode) && n in nodes
    requires Has(st, x, Pending) && IsTerminal(ns.status)
    requires NodeFacts(mode, n, st, toBlock, toSkip)
    requires n.id == x ==> JustifiedAs(mode, n, st, ns)
    ensures NodeFacts(mode, n, st[x := ns], toBlock - {x} + BlockedBy(nodes, x, ns.status), toSkip - {x} + SkippedBy(nodes, x, ns.status))
  {
    hide JustifiedAs, BlockedBy, SkippedBy, WellFormedNode, ModeOk, Closed, SourceFailed, GateClosed;
    var st' := st[x := ns];
    if IsTerminal(st'[n.id].status) {
      JustifiedStays(mode, n, st, x, ns, st'[n.id]);
    }
    if SourceFailed(n, st') {
      NewlyBlocked(nodes, st, x, ns, n);
    }
    if GateClosed(n, st') {
      NewlySkipped(nodes, st, x, ns, n);
    }
  }

  lemma NewlyBlocked(nodes: seq<Node>, st: map<Id, NodeState>, x: Id, ns: NodeState, n: Node)
    requires UniqueIds(nodes) && n in nodes && SourceFailed(n, st[x := ns])
    ensures SourceFailed(n, st) || n.id in BlockedBy(nodes, x, ns.status)
  {
    KindHas(nodes, x, false, n);
    var d :| d in n.dependsOn && !GatedOn(n, d) && Has(st[x := ns], d, Failed);
    assert d != x ==> Has(st, d, Failed);
  }

  lemma NewlySkipped(nodes: seq<Node>, st: map<Id, NodeState>, x: Id, ns: NodeState, n: Node)
    requires UniqueIds(nodes) && n in nodes && GateClosed(n, st[x := ns])
    ensures GateClosed(n, st) || n.id in SkippedBy(nodes, x, ns.status)
  {
    KindHas(nodes, x, true, n);
    var d :| d in n.dependsOn && GatedOn(n, d) && Has(st[x := ns], d, Done);
    assert d != x ==> Has(st, d, Done);
  }

  lemma MarkFacts(nodes: seq<Node>, mode: Mode, st: map<Id, NodeState>, x: Node, ns: NodeState, toBlock: set<Id>, toSkip: set<Id>)
    requires WellFormed(nodes) && ModeOk(nodes, mode) && x in nodes
    requires Facts(nodes, mode, st, toBlock, toSkip)
    requires Has(st, x.id, Pending) && IsTerminal(ns.status) && JustifiedAs(mode, x, st, ns)
    ensures Facts(nodes, mode, st[x.id := ns], toBlock - {x.id} + BlockedBy(nodes, x.id, ns.status), toSkip - {x.id} + SkippedBy(nodes, x.id, ns.status))
  {
    hide WellFormed, ModeOk, NodeFacts, JustifiedAs, BlockedBy, SkippedBy;
    MarkAllNodeFacts(nodes, mode, st, x, ns, toBlock, toSkip);
    var blocked, skipped := BlockedBy(nodes, x.id, ns.status), SkippedBy(nodes, x.id, ns.status);
    forall k | k in blocked + skipped
      ensures k != x.id && k in st && (Has(st, k, Pending) || AfterDependents(nodes, k) == [])
      ensures k in skipped ==> Has(st, k, Pending)
    {
      NewObligation(nodes, mode, st, x, ns.status, k, toBlock, toSkip);
    }
    HasElsewhere(st, x.id, ns);
  }

  lemma HasElsewhere(st: map<Id, NodeState>, x: Id, ns: NodeState)
    ensures forall k, status | k != x :: Has(st[x := ns], k, status) == Has(st, k, status)
  {
  }

  lemma MarkAllNodeFacts(nodes: seq<Node>, mode: Mode, st: map<Id, NodeState>, x: Node, ns: NodeState, toBlock: set<Id>, toSkip: set<Id>)
    requires WellFormed(nodes) && ModeOk(nodes, mode) && x in nodes
    requires forall n | n in nodes :: NodeFacts(mode, n, st, toBlock, toSkip)
    requires Has(st, x.id, Pending) && IsTerminal(ns.status) && JustifiedAs(mode, x, st, ns)
    ensures forall n | n in nodes ::
      NodeFacts(mode, n, st[x.id := ns], toBlock - {x.id} + BlockedBy(nodes, x.id, ns.status), toSkip - {x.id} + SkippedBy(nodes, x.id, ns.status))
  {
    hide NodeFacts, JustifiedAs, ModeOk, BlockedBy, SkippedBy;
    forall n | n in nodes
      ensures NodeFacts(mode, n, st[x.id := ns], toBlock - {x.id} + BlockedBy(nodes, x.id, ns.status), toSkip - {x.id} + SkippedBy(nodes, x.id, ns.status))
    {
      if n.id == x.id {
        SameNode(nodes, n, x);
      }
      MarkNodeFacts(nodes, mode, st, x.id, ns, n, toBlock, toSkip);
    }
  }

  lemma NewObligation(nodes: seq<Node>, mode: Mode, st: map<Id, NodeState>, x: Node, status: Status, k: Id, toBlock: set<Id>, toSkip: set<Id>)
    requires WellFormed(nodes) && ModeOk(nodes, mode) && x in nodes
    requires Facts(nodes, mode, st, toBlock, toSkip) && Has(st, x.id, Pending)
    requires k in BlockedBy(nodes, x.id, status) + SkippedBy(nodes, x.id, status)
    ensures k != x.id && k in st && (Has(st, k, Pending) || AfterDependents(nodes, k) == [])
    ensures k in SkippedBy(nodes, x.id, status) ==> Has(st, k, Pending)
  {
    assert k in Dependents(nodes, x.id);
    var n :| n in nodes && n.id == k;
    KindHas(nodes, x.id, false, n);
    KindHas(nodes, x.id, true, n);
    assert NodeFacts(mode, n, st, toBlock, toSkip);
    DependentOfPending(nodes, mode, st, n, x.id);
    assert WellFormedNode(n);
  }
}
