/** Runs of shell nodes: the plainest dispatches there are, for exhibiting what a graph can come to. */
module ShellRuns {
  import opened Wrappers
  import opened Dag
  import opened Events
  import opened Template
  import opened Loop
  import opened Workers
  import opened Graph
  import Cycle
  import Dispatch
  import Expand
  import RetryLattice
  import Unfolding
  import Validate
  import Verification

  /** A shell node with one attempt and no verification. */
  function Bare(id: Id, dependsOn: seq<Id>, after: seq<Id>, gate: Option<string>): Node {
    Node(id, "", dependsOn, [], RetryPolicy(1, 0), None, Some("shell"), gate, after, None, None, None, None)
  }

  predicate IsBare(n: Node) {
    n.models == [] && n.retry.attempts == 1 && n.nodeType == Some("shell") && n.verify == None && n.verifyPre == None
  }

  /** A shell whose commands succeed for some nodes and fail for the others. */
  function ShellEnv(passing: set<Id>): RetryLattice.Env {
    RetryLattice.Env(
      (id: Id, prompt: string, model: string, attempt: nat) => RetryLattice.Output("", id in passing, false, None),
      (cmd: string, token: Option<string>) => None,
      (cmd: string) => Ok(""),
      (k: nat, q: RetryLattice.Request) => RetryLattice.Answer(0, 0, None))
  }

  function Ending(passing: set<Id>, id: Id): Status {
    if id in passing then Done else Failed
  }

  function ShellResult(status: Status): TaskResult {
    TaskResult(None, 1, NodeState(status, None, if status == Done then 1 else 0, Some("")), None, [], false)
  }

  /** Such a node's dispatch hands back what its command came to. */
  lemma BareHands(passing: set<Id>, allowPaid: bool, n: Node)
    requires IsBare(n)
    ensures HandedBy(ShellEnv(passing), allowPaid, n, ShellResult(Ending(passing, n.id)))
  {
    var env := ShellEnv(passing);
    var replies := [RetryLattice.Output("", n.id in passing, false, None)];
    var course := Verification.Command(replies);
    assert With(env, env.budget) == env;
    assert replies[..0] == [];
    assert Dispatch.CommandOk(n, env, replies);
    assert Dispatch.CommandSettled(n, replies) == ShellResult(Ending(passing, n.id)).state;
    assert Dispatch.CommandEvents(n, replies) == [];
    Verification.NothingToCheck(Verification.CheckOf(n, env, allowPaid, course), [], true, 0);
    assert Hands(env, allowPaid, n, env.budget, 0, course, [], ShellResult(Ending(passing, n.id)), 0);
  }

  // ----- Steps

  /** The node's command is running. */
  ghost predicate Awaits(s: State, id: Id) {
    id in s.running && s.running[id].Dispatch? && IsBare(s.running[id].node) && s.running[id].node.id == id
  }

  lemma TakeOne(nodes: seq<Node>, s: State, n: Node)
    requires s.queue.ready != [] && s.queue.ready[0] == n.id && !s.refused
    requires GetNode(nodes, n.id) == Some(n) && IsBare(n) && StatusOf(s.nodeState, n.id) == Pending
    ensures Enabled(s, Take(None))
    ensures var s' := Pop(nodes, s, None);
      && s' == s.(queue := s.queue.(ready := s.queue.ready[1..]), spawned := s.spawned + [n.id], running := s'.running)
      && s'.running.Keys == s.running.Keys + {n.id}
      && (forall k | k in s.running && k != n.id :: s'.running[k] == s.running[k])
      && Awaits(s', n.id)
  {
  }

  lemma FinishOne(passing: set<Id>, allowPaid: bool, s: State, id: Id)
    requires s.queue.ready == [] && Awaits(s, id)
    ensures var a := Finish(id, ShellResult(Ending(passing, id)));
      Enabled(s, a) && DispatchedStep(ShellEnv(passing), allowPaid, s, a)
  {
    hide HandedBy;
    BareHands(passing, allowPaid, s.running[id].node);
  }

  /** A join up to the notification of the dependents. */
  function JoinedWith(nodes: seq<Node>, s: State, id: Id, status: Status): State {
    var r := ShellResult(status);
    Settle(nodes, Emit(s.(running := s.running - {id}, refused := false), NodeDispatched(id, "", 1)), id, r.state, FinalEvent(id, r))
  }

  lemma NotifyNothing(nodes: seq<Node>, s: State, id: Id, status: Status)
    ensures Notify(nodes, s, id, status, []) == s
  {
  }

  /** What a join does when nobody is ordered after the finished node and one node depends on it. */
  lemma JoinOne(nodes: seq<Node>, s: State, id: Id, status: Status, dep: Id)
    requires Dependents(nodes, id) == [dep] && AfterDependents(nodes, id) == [] && dep in Ids(nodes)
    ensures Join(nodes, s, id, ShellResult(status)) == NotifyOne(nodes, JoinedWith(nodes, s, id, status), id, status, dep)
    ensures var s3 := JoinedWith(nodes, s, id, status);
      && s3.nodeState == s.nodeState[id := ShellResult(status).state] && s3.terminal == s.terminal + {id}
      && s3.queue == s.queue && s3.running == s.running - {id} && !s3.refused
  {
    hide NotifyOne, FinalEvent;
    var s3 := JoinedWith(nodes, s, id, status);
    assert [dep][1..] == [];
    NotifyNothing(nodes, NotifyOne(nodes, s3, id, status, dep), id, status);
    assert Notify(nodes, s3, id, status, [dep]) == Notify(nodes, NotifyOne(nodes, s3, id, status, dep), id, status, [dep][1..]);
  }

  lemma AllArePending(nodes: seq<Node>)
    ensures PendingStates(nodes).Keys == Ids(nodes)
    ensures forall id | id in Ids(nodes) :: StatusOf(PendingStates(nodes), id) == Pending
  {
  }

  // ----- Graphs of shell nodes

  /** A node that validation has nothing against, whose edges lead down in rank. */
  predicate Fits(n: Node, rank: map<Id, nat>) {
    && ':' !in n.id && n.prompt == "" && n.quorum == None && n.forEach == None && n.id in rank
    && (forall m | m in n.dependsOn :: m in rank && rank[m] < rank[n.id])
    && (forall m | m in n.after :: m in rank && rank[m] < rank[n.id])
  }

  lemma BareFits(id: Id, dependsOn: seq<Id>, after: seq<Id>, gate: Option<string>, rank: map<Id, nat>)
    requires ':' !in id && id in rank
    requires forall m | m in dependsOn + after :: m in rank && rank[m] < rank[id]
    ensures Fits(Bare(id, dependsOn, after, gate), rank)
  {
    assert forall m | m in dependsOn || m in after :: m in dependsOn + after;
  }

  /** Nodes without prompts and quorums, over a graph with a rank, pass expansion and validation as they are. */
  lemma FittingIsAccepted(nodes: seq<Node>, rank: map<Id, nat>)
    requires UniqueIds(nodes) && rank.Keys == Ids(nodes) && forall i | 0 <= i < |nodes| :: Fits(nodes[i], rank)
    ensures Expand.Expandable(nodes) && Expand.Expanded(nodes) == nodes && Validate.ValidDag(nodes)
  {
    hide Cyclic, Cycle.AllEdges, Expand.Expanded, Expand.Expandable, UniqueIds, Ids;
    assert forall n | n in nodes :: Fits(n, rank);
    assert Unfolding.Flat(nodes) && Closed(nodes) && Ranked(nodes, rank);
    Unfolding.FlatIsExpanded(nodes);
    Cycle.AcyclicIffRanked(nodes);
    assert FirstHole("") == Whole;
    assert Validate.Contents(Parse("")) == [];
    assert Validate.NoColons(nodes) && Validate.QuorumsOk(nodes) && Validate.PromptsOk(nodes);
  }
}
