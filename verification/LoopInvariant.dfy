/**
 What every state of the run loop satisfies.  The counters are described in the middle of a step,
 too: `owed` and `owedAfter` hold the releases still to be made, `toBlock` and `toSkip` the nodes
 still to be blocked or skipped.  Between steps all four are empty.
 */
module LoopInvariant {
  import opened Wrappers
  import opened Dag
  import opened Events
  import opened Template
  import opened Loop
  import Quorum

  /** The premises on the graph.  The last three are what the loop needs beyond validation. */
  ghost predicate WellFormed(nodes: seq<Node>) {
    && Closed(nodes)
    && (forall n | n in nodes :: WellFormedNode(n))
    && UniqueIds(nodes)
    && (forall n, d | n in nodes && d in n.dependsOn && GatedOn(n, d) :: n.dependsOn == [d])
    && (forall n, m | n in nodes && m in nodes && m.id in n.after :: |m.dependsOn| <= 1)
  }

  /** Validation: no colon in the id, no self edge, and a node reads only outputs of nodes it waits for. */
  ghost predicate WellFormedNode(n: Node) {
    && ':' !in n.id
    && !Edge(n, n.id)
    && (forall r | r in Refs(Parse(n.prompt)) :: Edge(n, r))
    && (n.nodeType == Some("quorum") ==> forall r | r in Quorum.ConfigOf(n).of :: r in n.after)
  }

  // ----- Counting

  predicate Has(st: map<Id, NodeState>, d: Id, status: Status) {
    d in st && st[d].status == status
  }

  /** A finished dependency no longer holds the node back: it is Done, or Failed with `n` as its fix node. */
  predicate Released(n: Node, st: map<Id, NodeState>, d: Id) {
    if GatedOn(n, d) then Has(st, d, Failed) else Has(st, d, Done)
  }

  function Unreleased(n: Node, st: map<Id, NodeState>, deps: seq<Id>): nat {
    if deps == [] then 0 else (if Released(n, st, deps[0]) then 0 else 1) + Unreleased(n, st, deps[1..])
  }

  predicate Over(st: map<Id, NodeState>, a: Id) {
    a in st && IsTerminal(st[a].status)
  }

  function Open(st: map<Id, NodeState>, after: seq<Id>): nat {
    if after == [] then 0 else (if Over(st, after[0]) then 0 else 1) + Open(st, after[1..])
  }

  lemma {:induction false} UnreleasedFlip(n: Node, st: map<Id, NodeState>, x: Id, ns: NodeState, deps: seq<Id>)
    requires !Released(n, st, x)
    ensures Unreleased(n, st[x := ns], deps) + (if Released(n, st[x := ns], x) then multiset(deps)[x] else 0) == Unreleased(n, st, deps)
  {
    if deps != [] {
      assert deps == [deps[0]] + deps[1..];
      UnreleasedFlip(n, st, x, ns, deps[1..]);
    }
  }

  lemma {:induction false} OpenFlip(st: map<Id, NodeState>, x: Id, ns: NodeState, after: seq<Id>)
    requires !Over(st, x) && IsTerminal(ns.status)
    ensures Open(st[x := ns], after) + multiset(after)[x] == Open(st, after)
  {
    if after != [] {
      assert after == [after[0]] + after[1..];
      OpenFlip(st, x, ns, after[1..]);
    }
  }

  lemma {:induction false} NoneUnreleased(n: Node, st: map<Id, NodeState>, deps: seq<Id>)
    ensures Unreleased(n, st, deps) == 0 <==> forall d | d in deps :: Released(n, st, d)
  {
    if deps != [] {
      assert deps == [deps[0]] + deps[1..];
      NoneUnreleased(n, st, deps[1..]);
    }
  }

  lemma {:induction false} NoneOpen(st: map<Id, NodeState>, after: seq<Id>)
    ensures Open(st, after) == 0 <==> forall a | a in after :: Over(st, a)
  {
    if after != [] {
      assert after == [after[0]] + after[1..];
      NoneOpen(st, after[1..]);
    }
  }

  // ----- The invariant

  ghost predicate NoDup(s: seq<Id>) {
    forall i, j | 0 <= i < j < |s| :: s[i] != s[j]
  }

  ghost predicate Domains(ids: set<Id>, q: Queue) {
    && q.inDegree.Keys == ids
    && q.afterPending.Keys == ids
    && q.enqueued <= ids
  }

  ghost predicate TerminalSet(ids: set<Id>, st: map<Id, NodeState>, terminal: set<Id>) {
    && terminal <= ids
    && forall id | id in st :: (id in terminal <==> IsTerminal(st[id].status)) && st[id].status != Running
  }

  /** The queue, the task set and the terminal set make up what was ever enqueued. */
  ghost predicate QueueOk(ready: seq<Id>, enqueued: set<Id>, running: set<Id>, terminal: set<Id>) {
    && NoDup(ready)
    && (forall k | k in ready :: k in enqueued)
    && running <= enqueued && running !! terminal
    && (forall k | k in ready :: k !in running)
    && (forall k | k in enqueued :: k in ready || k in running || k in terminal)
  }

  /** The counters of one node, with `m` and `a` releases owed to it. */
  ghost predicate CountedAt(n: Node, st: map<Id, NodeState>, inDegree: nat, afterPending: nat, enqueued: bool, m: nat, a: nat) {
    && (Has(st, n.id, Pending) ==>
          && inDegree == Unreleased(n, st, n.dependsOn) + m
          && (enqueued <==> inDegree == 0 && afterPending == 0))
    && afterPending == Open(st, n.after) + a
  }

  ghost predicate Counted(n: Node, st: map<Id, NodeState>, q: Queue, m: nat, a: nat) {
    && n.id in q.inDegree && n.id in q.afterPending
    && CountedAt(n, st, q.inDegree[n.id], q.afterPending[n.id], n.id in q.enqueued, m, a)
  }

  ghost predicate Counts(nodes: seq<Node>, st: map<Id, NodeState>, q: Queue, owed: multiset<Id>, owedAfter: multiset<Id>) {
    && Domains(Ids(nodes), q)
    && forall n | n in nodes :: Counted(n, st, q, owed[n.id], owedAfter[n.id])
  }

  /** The queue may have grown, in a way that keeps `QueueOk`. */
  ghost predicate Grown(q: Queue, q': Queue) {
    forall running, terminal | QueueOk(q.ready, q.enqueued, running, terminal) :: QueueOk(q'.ready, q'.enqueued, running, terminal)
  }

  // ----- Queueing keeps the counts

  lemma TryEnqueueGrows(q: Queue, id: Id)
    ensures Grown(q, TryEnqueue(q, id))
  {
    if id !in q.enqueued {
      forall running, terminal | QueueOk(q.ready, q.enqueued, running, terminal)
        ensures QueueOk(q.ready + [id], q.enqueued + {id}, running, terminal)
      {
        assert id !in q.ready;
      }
    }
  }

  lemma SameNode(nodes: seq<Node>, a: Node, b: Node)
    requires UniqueIds(nodes) && a in nodes && b in nodes && a.id == b.id
    ensures a == b
  {
    GetOwnNode(nodes, a);
    GetOwnNode(nodes, b);
  }

  /** Lowering one counter of `n` and enqueueing it when both counters are zero settles what was owed to it. */
  lemma ReleaseAfterCounts(nodes: seq<Node>, st: map<Id, NodeState>, q: Queue, n: Node, owed: multiset<Id>, owedAfter: multiset<Id>)
    requires UniqueIds(nodes) && n in nodes
    requires Counts(nodes, st, q, owed, owedAfter + multiset{n.id})
    ensures Counts(nodes, st, ReleaseAfter(q, n.id), owed, owedAfter)
    ensures Grown(q, ReleaseAfter(q, n.id))
  {
    assert Counted(n, st, q, owed[n.id], (owedAfter + multiset{n.id})[n.id]);
    TryEnqueueGrows(q.(afterPending := q.afterPending[n.id := q.afterPending[n.id] - 1]), n.id);
    forall k | k in nodes
      ensures Counted(k, st, ReleaseAfter(q, n.id), owed[k.id], owedAfter[k.id])
    {
      assert Counted(k, st, q, owed[k.id], (owedAfter + multiset{n.id})[k.id]);
      if k.id == n.id {
        SameNode(nodes, k, n);
      }
    }
  }

  lemma {:induction false} ReleaseAftersCounts(nodes: seq<Node>, st: map<Id, NodeState>, q: Queue, ids: seq<Id>, owed: multiset<Id>)
    requires UniqueIds(nodes) && forall k | k in ids :: k in Ids(nodes)
    requires Counts(nodes, st, q, owed, multiset(ids))
    ensures Counts(nodes, st, ReleaseAfters(q, ids), owed, multiset{})
    ensures Grown(q, ReleaseAfters(q, ids))
    decreases ids
  {
    if ids == [] {
      assert multiset(ids) == multiset{};
    } else {
      assert ids == [ids[0]] + ids[1..];
      assert multiset(ids) == multiset(ids[1..]) + multiset{ids[0]};
      assert ids[0] in ids;
      var n :| n in nodes && n.id == ids[0];
      ReleaseAfterCounts(nodes, st, q, n, owed, multiset(ids[1..]));
      ReleaseAftersCounts(nodes, st, ReleaseAfter(q, ids[0]), ids[1..], owed);
    }
  }

  lemma ReleaseDepCounts(nodes: seq<Node>, st: map<Id, NodeState>, q: Queue, n: Node, owed: multiset<Id>)
    requires UniqueIds(nodes) && n in nodes
    requires Counts(nodes, st, q, owed + multiset{n.id}, multiset{})
    ensures Counts(nodes, st, ReleaseDep(q, n.id), owed, multiset{})
    ensures Grown(q, ReleaseDep(q, n.id))
  {
    assert Counted(n, st, q, (owed + multiset{n.id})[n.id], 0);
    TryEnqueueGrows(q.(inDegree := q.inDegree[n.id := if q.inDegree[n.id] == 0 then 0 else q.inDegree[n.id] - 1]), n.id);
    forall k | k in nodes
      ensures Counted(k, st, ReleaseDep(q, n.id), owed[k.id], 0)
    {
      assert Counted(k, st, q, (owed + multiset{n.id})[k.id], 0);
      if k.id == n.id {
        SameNode(nodes, k, n);
      }
    }
  }

  // ----- A terminal transition owes releases

  /** The entries of a list of dependents of `x` that are (or are not) its fix nodes. */
  function Kind(nodes: seq<Node>, x: Id, deps: seq<Id>, gated: bool): (r: seq<Id>)
    ensures forall k | k in r :: k in deps && IsGatedOn(nodes, k, x) == gated
  {
    if deps == [] then []
    else (if IsGatedOn(nodes, deps[0], x) == gated then [deps[0]] else []) + Kind(nodes, x, deps[1..], gated)
  }

  lemma {:induction false} KindCount(nodes: seq<Node>, x: Id, deps: seq<Id>, gated: bool, k: Id)
    ensures multiset(Kind(nodes, x, deps, gated))[k] == if IsGatedOn(nodes, k, x) == gated then multiset(deps)[k] else 0
  {
    if deps != [] {
      assert deps == [deps[0]] + deps[1..];
      KindCount(nodes, x, deps[1..], gated, k);
    }
  }

  /** The dependents a finished node releases. */
  function ReleasedBy(nodes: seq<Node>, x: Id, status: Status): seq<Id> {
    if status == Done then Kind(nodes, x, Dependents(nodes, x), false)
    else if status == Failed then Kind(nodes, x, Dependents(nodes, x), true)
    else []
  }

  lemma ReleasedByCount(nodes: seq<Node>, x: Id, ns: NodeState, st: map<Id, NodeState>, n: Node)
    requires UniqueIds(nodes) && n in nodes && IsTerminal(ns.status)
    ensures multiset(ReleasedBy(nodes, x, ns.status))[n.id]
         == if Released(n, st[x := ns], x) then multiset(n.dependsOn)[x] else 0
  {
    GetOwnNode(nodes, n);
    DependentsCount(nodes, x, n);
    KindCount(nodes, x, Dependents(nodes, x), ns.status == Failed, n.id);
  }

  lemma MarkCounts(nodes: seq<Node>, st: map<Id, NodeState>, q: Queue, x: Id, ns: NodeState, owed: multiset<Id>)
    requires UniqueIds(nodes) && Counts(nodes, st, q, owed, multiset{})
    requires Has(st, x, Pending) && IsTerminal(ns.status)
    ensures Counts(nodes, st[x := ns], q, owed + multiset(ReleasedBy(nodes, x, ns.status)), multiset(AfterDependents(nodes, x)))
  {
    forall n | n in nodes
      ensures Counted(n, st[x := ns], q, (owed + multiset(ReleasedBy(nodes, x, ns.status)))[n.id], multiset(AfterDependents(nodes, x))[n.id])
    {
      assert Counted(n, st, q, owed[n.id], 0);
      ReleasedByCount(nodes, x, ns, st, n);
      DependentsCount(nodes, x, n);
      UnreleasedFlip(n, st, x, ns, n.dependsOn);
      OpenFlip(st, x, ns, n.after);
    }
  }
}
