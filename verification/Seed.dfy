/** Starting the run loop from a checkpoint. */
module Seed {
  import opened Wrappers
  import opened Dag
  import opened Events
  import opened Loop
  import opened LoopInvariant
  import opened LoopFacts
  import LoopTheorems

  /** One less for every entry of the list, down to zero; nothing is enqueued yet. */
  function Drop(counts: map<Id, nat>, ids: seq<Id>): map<Id, nat>
    decreases ids
  {
    if ids == [] then counts
    else
      var k := ids[0];
      Drop(if k in counts && counts[k] > 0 then counts[k := counts[k] - 1] else counts, ids[1..])
  }

  function SeedState(status: Status, output: Option<string>): NodeState {
    NodeState(status, None, if status == Blocked then 0 else 1, output)
  }

  /** The outputs of seeded nodes are announced as empty. */
  function SeedEvent(id: Id, status: Status): Event {
    if status == Done then NodeDone(id, "", "")
    else if status == Failed then NodeFailed(id, "failed in prior run")
    else NodeBlocked(id)
  }

  function OutputAt(outputs: map<Id, string>, id: Id): Option<string> {
    if id in outputs then Some(outputs[id]) else None
  }

  /** Only nodes completed before release their dependents. */
  function SeedQueue(nodes: seq<Node>, q: Queue, id: Id, status: Status): Queue {
    q.(inDegree := if status == Done then Drop(q.inDegree, Dependents(nodes, id)) else q.inDegree,
       afterPending := Drop(q.afterPending, AfterDependents(nodes, id)))
  }

  function SeedOne(nodes: seq<Node>, outputs: map<Id, string>, status: Status, s: State, id: Id): State {
    if GetNode(nodes, id).None? then s
    else
      SetTerminal(s, id, SeedState(status, OutputAt(outputs, id)), SeedEvent(id, status))
        .(queue := SeedQueue(nodes, s.queue, id, status))
  }

  function SeedEach(nodes: seq<Node>, outputs: map<Id, string>, status: Status, s: State, ids: seq<Id>): State {
    if ids == [] then s
    else SeedOne(nodes, outputs, status, SeedEach(nodes, outputs, status, s, ids[..|ids| - 1]), ids[|ids| - 1])
  }

  /** A dependency that the checkpoint, or this cascade, has made Failed or Blocked. */
  predicate HasFailedDep(n: Node, s: State) {
    exists d :: d in n.dependsOn && d in s.terminal && (Has(s.nodeState, d, Failed) || Has(s.nodeState, d, Blocked))
  }

  function CascadeOne(s: State, n: Node): State {
    if n.id in s.terminal || !HasFailedDep(n, s) then s else SetTerminal(s, n.id, BLOCKED, NodeBlocked(n.id))
  }

  /** One pass in node order. */
  function Cascade(s: State, list: seq<Node>): State {
    if list == [] then s else CascadeOne(Cascade(s, list[..|list| - 1]), list[|list| - 1])
  }

  // ----- Counters

  lemma {:induction false} DropAt(counts: map<Id, nat>, ids: seq<Id>, x: Id)
    ensures Drop(counts, ids).Keys == counts.Keys
    ensures x in counts ==>
      var c := multiset(ids)[x];
      Drop(counts, ids)[x] == if counts[x] > c then counts[x] - c else 0
    decreases ids
  {
    if ids != [] {
      assert ids == [ids[0]] + ids[1..];
      DropAt(if ids[0] in counts && counts[ids[0]] > 0 then counts[ids[0] := counts[ids[0]] - 1] else counts, ids[1..], x);
    }
  }

  lemma {:induction false} DropNothing(counts: map<Id, nat>, ids: seq<Id>)
    requires ids == []
    ensures Drop(counts, ids) == counts
  {
  }

  /** The counters of a plain graph: dependencies that are not Done, and no `after` edges. */
  ghost predicate SeedCounts(nodes: seq<Node>, st: map<Id, NodeState>, q: Queue) {
    && q.inDegree.Keys == Ids(nodes) && q.afterPending.Keys == Ids(nodes)
    && q.ready == [] && q.enqueued == {}
    && forall n | n in nodes :: q.inDegree[n.id] == Unreleased(n, st, n.dependsOn) && q.afterPending[n.id] == 0
  }

  ghost predicate Plain(nodes: seq<Node>) {
    forall n | n in nodes :: PlainNode(n)
  }

  lemma NoAfterDependents(nodes: seq<Node>, x: Id)
    requires Plain(nodes)
    ensures AfterDependents(nodes, x) == []
  {
    NoAfterEntries(nodes, x);
  }

  lemma SeedCountsStep(nodes: seq<Node>, st: map<Id, NodeState>, q: Queue, x: Id, ns: NodeState)
    requires UniqueIds(nodes) && Plain(nodes) && SeedCounts(nodes, st, q)
    requires Has(st, x, Pending) && IsTerminal(ns.status)
    ensures SeedCounts(nodes, st[x := ns], SeedQueue(nodes, q, x, ns.status))
  {
    hide Drop, Unreleased;
    var q' := SeedQueue(nodes, q, x, ns.status);
    NoAfterDependents(nodes, x);
    DropNothing(q.afterPending, AfterDependents(nodes, x));
    DropAt(q.inDegree, Dependents(nodes, x), x);
    forall n | n in nodes
      ensures q'.inDegree[n.id] == Unreleased(n, st[x := ns], n.dependsOn)
    {
      UnreleasedFlip(n, st, x, ns, n.dependsOn);
      DependentsCount(nodes, x, n);
      DropAt(q.inDegree, Dependents(nodes, x), n.id);
      if x !in n.dependsOn {
        NoMultiplicity(n.dependsOn, x);
      }
    }
  }

  lemma NoMultiplicity(s: seq<Id>, x: Id)
    requires x !in s
    ensures multiset(s)[x] == 0
  {
  }

  lemma BlankCounts(nodes: seq<Node>)
    requires UniqueIds(nodes) && Plain(nodes)
    ensures SeedCounts(nodes, Blank(nodes).nodeState, Blank(nodes).queue)
  {
    var s := Blank(nodes);
    forall n | n in nodes
      ensures s.queue.inDegree[n.id] == Unreleased(n, s.nodeState, n.dependsOn) && s.queue.afterPending[n.id] == 0
    {
      LoopTheorems.OwnCounts(nodes, n);
      LoopTheorems.AllUnreleased(n, s.nodeState, n.dependsOn);
    }
  }

  lemma CascadeCountsStep(nodes: seq<Node>, st: map<Id, NodeState>, q: Queue, x: Id)
    requires Plain(nodes) && SeedCounts(nodes, st, q) && Has(st, x, Pending)
    ensures SeedCounts(nodes, st[x := BLOCKED], q)
  {
    hide Unreleased;
    forall n | n in nodes
      ensures Unreleased(n, st[x := BLOCKED], n.dependsOn) == Unreleased(n, st, n.dependsOn)
    {
      UnreleasedFlip(n, st, x, BLOCKED, n.dependsOn);
    }
  }

  /**
   The cascade does not tell nodes ordered after a blocked one: their counters stay exact if and only if
   they do not name it.
   */
  lemma CascadeForgetsAfter(s: State, x: Node, n: Node)
    requires x.id !in s.terminal && HasFailedDep(x, s) && Has(s.nodeState, x.id, Pending)
    requires n.id in s.queue.afterPending && s.queue.afterPending[n.id] == Open(s.nodeState, n.after)
    ensures var s' := CascadeOne(s, x);
      s'.queue.afterPending[n.id] == Open(s'.nodeState, n.after) <==> x.id !in n.after
  {
    OpenFlip(s.nodeState, x.id, BLOCKED, n.after);
    assert x.id in n.after <==> multiset(n.after)[x.id] > 0;
  }
}
