/**
 The counters a restart begins with, on any graph: for a waiting node they are what the graph and the records
 say, but for two omissions of the seeding, and the restart begins exactly right if and only if neither occurs.
 */
module RestartCounts {
  import opened Dag
  import opened Events
  import opened Vault
  import opened Loop
  import opened LoopInvariant
  import opened LoopLog
  import opened Resume
  import opened Seed
  import opened ResumeSound

  // ----- What is counted

  /** The dependencies that are not Done: seeding does not look at gates. */
  function NotDone(st: map<Id, NodeState>, deps: seq<Id>): nat {
    if deps == [] then 0 else (if Has(st, deps[0], Done) then 0 else 1) + NotDone(st, deps[1..])
  }

  /** The entries of the list that are in the set. */
  function Among(ids: seq<Id>, some: set<Id>): nat {
    if ids == [] then 0 else (if ids[0] in some then 1 else 0) + Among(ids[1..], some)
  }

  lemma {:induction false} NotDoneFlip(st: map<Id, NodeState>, x: Id, ns: NodeState, deps: seq<Id>)
    requires !Has(st, x, Done)
    ensures NotDone(st[x := ns], deps) + (if ns.status == Done then multiset(deps)[x] else 0) == NotDone(st, deps)
  {
    if deps != [] {
      assert deps == [deps[0]] + deps[1..];
      NotDoneFlip(st, x, ns, deps[1..]);
    }
  }

  lemma {:induction false} AmongMore(ids: seq<Id>, some: set<Id>, x: Id)
    requires x !in some
    ensures Among(ids, some + {x}) == Among(ids, some) + multiset(ids)[x]
  {
    if ids != [] {
      assert ids == [ids[0]] + ids[1..];
      AmongMore(ids[1..], some, x);
    }
  }

  lemma {:induction false} AmongNone(ids: seq<Id>, some: set<Id>)
    ensures Among(ids, some) == 0 <==> forall x | x in ids :: x !in some
  {
    if ids != [] {
      assert ids == [ids[0]] + ids[1..];
      AmongNone(ids[1..], some);
    }
  }

  /** `cut` holds what the cascade has blocked: nobody is told of that. */
  ghost predicate CountedFor(n: Node, st: map<Id, NodeState>, q: Queue, cut: set<Id>) {
    && n.id in q.inDegree && q.inDegree[n.id] == NotDone(st, n.dependsOn)
    && n.id in q.afterPending && q.afterPending[n.id] == Open(st, n.after) + Among(n.after, cut)
  }

  ghost predicate AllCounted(nodes: seq<Node>, st: map<Id, NodeState>, q: Queue, cut: set<Id>) {
    forall n | n in nodes :: CountedFor(n, st, q, cut)
  }

  /** A state on the way to a restart. */
  ghost predicate Seeding(nodes: seq<Node>, s: State, cut: set<Id>) {
    && s.nodeState.Keys == s.queue.inDegree.Keys == Ids(nodes) && SeedSets(Ids(nodes), s)
    && (forall id | id in s.nodeState :: s.nodeState[id].status == Pending || IsTerminal(s.nodeState[id].status))
    && AllCounted(nodes, s.nodeState, s.queue, cut)
  }

  lemma BlankSeeding(nodes: seq<Node>)
    requires UniqueIds(nodes)
    ensures Seeding(nodes, Blank(nodes), {})
  {
    hide DepTotal, AfterTotal, Open, NotDone, Among, Ids;
    var s := Blank(nodes);
    forall n | n in nodes
      ensures CountedFor(n, s.nodeState, s.queue, {})
    {
      BlankFor(nodes, n);
    }
  }

  lemma BlankFor(nodes: seq<Node>, n: Node)
    requires UniqueIds(nodes) && n in nodes
    ensures CountedFor(n, Blank(nodes).nodeState, Blank(nodes).queue, {})
  {
    hide DepTotal, AfterTotal, Open, Among;
    var st := Blank(nodes).nodeState;
    LoopTheorems.OwnCounts(nodes, n);
    LoopTheorems.AllOpen(st, n.after);
    AmongNone(n.after, {});
    NoneDone(st, n.dependsOn);
    assert n.id in Ids(nodes);
  }

  lemma {:induction false} NoneDone(st: map<Id, NodeState>, deps: seq<Id>)
    requires forall d | d in deps :: !Has(st, d, Done)
    ensures NotDone(st, deps) == |deps|
  {
    if deps != [] {
      assert deps[0] in deps;
      NoneDone(st, deps[1..]);
    }
  }

  // ----- Seeding

  lemma SeedOneFor(nodes: seq<Node>, st: map<Id, NodeState>, q: Queue, x: Id, ns: NodeState, n: Node)
    requires UniqueIds(nodes) && n in nodes && CountedFor(n, st, q, {})
    requires Has(st, x, Pending) && IsTerminal(ns.status)
    ensures CountedFor(n, st[x := ns], SeedQueue(nodes, q, x, ns.status), {})
  {
    hide Drop, NotDone, Open, Among;
    DependentsCount(nodes, x, n);
    NotDoneFlip(st, x, ns, n.dependsOn);
    OpenFlip(st, x, ns, n.after);
    DropAt(q.inDegree, Dependents(nodes, x), n.id);
    DropAt(q.afterPending, AfterDependents(nodes, x), n.id);
    AmongNone(n.after, {});
  }

  lemma SeedKeys(nodes: seq<Node>, q: Queue, x: Id, status: Status)
    ensures SeedQueue(nodes, q, x, status).inDegree.Keys == q.inDegree.Keys
  {
    DropAt(q.inDegree, Dependents(nodes, x), x);
  }

  lemma SeedOneSeeding(nodes: seq<Node>, v: Vault, status: Status, s: State, id: Id)
    requires UniqueIds(nodes) && Seeding(nodes, s, {})
    requires Recorded(v, id, status) && IsTerminal(status)
    requires id in Ids(nodes) ==> Has(s.nodeState, id, Pending)
    ensures var s' := SeedOne(nodes, CheckpointOf(v, false).outputs, status, s, id);
      && Seeding(nodes, s', {})
      && s'.nodeState == if id in Ids(nodes) then s.nodeState[id := SeedState(status, OutputAt(v.artifacts, id))] else s.nodeState
  {
    hide UniqueIds, SeedQueue, SeedEvent, CountedFor, SeedSets;
    if id in Ids(nodes) {
      var ns := SeedState(status, OutputAt(v.artifacts, id));
      OutputsKept(v, id, status);
      var s1 := SetTerminal(s, id, ns, SeedEvent(id, status));
      SeedSetsStep(Ids(nodes), s, id, ns, SeedEvent(id, status));
      SeedSetsQueue(Ids(nodes), s1, SeedQueue(nodes, s.queue, id, status));
      SeedKeys(nodes, s.queue, id, status);
      forall n | n in nodes
        ensures CountedFor(n, s1.nodeState, SeedQueue(nodes, s.queue, id, status), {})
      {
        SeedOneFor(nodes, s.nodeState, s.queue, id, ns, n);
      }
    }
  }

  lemma {:induction false} SeedEachSeeding(nodes: seq<Node>, v: Vault, status: Status, s: State, ids: seq<Id>)
    requires UniqueIds(nodes) && Seeding(nodes, s, {})
    requires NoDup(ids) && IsTerminal(status) && forall id | id in ids :: Recorded(v, id, status)
    requires forall id | id in ids && id in Ids(nodes) :: Has(s.nodeState, id, Pending)
    ensures var s' := SeedEach(nodes, CheckpointOf(v, false).outputs, status, s, ids);
      Seeding(nodes, s', {}) && Seeds(nodes, v, status, ids, s.nodeState, s'.nodeState)
  {
    hide UniqueIds, SeedOne, CheckpointOf, Recorded, Ids, Seeds, AllCounted, SeedSets;
    if ids == [] {
      SeedsNone(nodes, v, status, s.nodeState);
    } else {
      var front, last := ids[..|ids| - 1], ids[|ids| - 1];
      assert ids == front + [last];
      SeedEachSeeding(nodes, v, status, s, front);
      var s1 := SeedEach(nodes, CheckpointOf(v, false).outputs, status, s, front);
      assert last !in front;
      StillPending(nodes, v, status, front, s.nodeState, s1.nodeState, last);
      SeedOneSeeding(nodes, v, status, s1, last);
      SeedsSnoc(nodes, v, status, front, last, s.nodeState, s1.nodeState, SeedEach(nodes, CheckpointOf(v, false).outputs, status, s, ids).nodeState);
    }
  }

  lemma SetsSeeding(nodes: seq<Node>, v: Vault, done: seq<Id>, failed: seq<Id>, blocked: seq<Id>)
    requires UniqueIds(nodes) && Orders(CheckpointOf(v, false), done, failed, blocked)
    ensures var s := SeedSetsOf(nodes, CheckpointOf(v, false), done, failed, blocked);
      Seeding(nodes, s, {}) && TakenOver(nodes, v, s.nodeState)
  {
    hide UniqueIds, SeedEach, Ids, TakenOver, AllCounted, SeedSets, EdgeCount, AfterCount;
    var cp := CheckpointOf(v, false);
    BlankSeeding(nodes);
    SetOrders(v, done, failed, blocked);
    var s0 := Blank(nodes);
    SeedEachSeeding(nodes, v, Done, s0, done);
    var s1 := SeedEach(nodes, cp.outputs, Done, s0, done);
    forall id | id in failed && id in Ids(nodes)
      ensures Has(s1.nodeState, id, Pending)
    {
      StillPending(nodes, v, Done, done, s0.nodeState, s1.nodeState, id);
    }
    SeedEachSeeding(nodes, v, Failed, s1, failed);
    var s2 := SeedEach(nodes, cp.outputs, Failed, s1, failed);
    forall id | id in blocked && id in Ids(nodes)
      ensures Has(s2.nodeState, id, Pending)
    {
      StillPending(nodes, v, Done, done, s0.nodeState, s1.nodeState, id);
      StillPending(nodes, v, Failed, failed, s1.nodeState, s2.nodeState, id);
    }
    SeedEachSeeding(nodes, v, Blocked, s2, blocked);
    var s3 := SeedEach(nodes, cp.outputs, Blocked, s2, blocked);
    AllTakenOver(nodes, v, done, failed, blocked, s0.nodeState, s1.nodeState, s2.nodeState, s3.nodeState);
  }

  // ----- The cascade, read off graph and vault

  predicate Stored(v: Vault, id: Id) {
    Recorded(v, id, Done) || Recorded(v, id, Failed) || Recorded(v, id, Blocked)
  }

  /** The dependency is a node with a Failed or Blocked record, or one the cascade has come by. */
  predicate HoldsUp(nodes: seq<Node>, v: Vault, cut: set<Id>, d: Id) {
    d in Ids(nodes) && (Recorded(v, d, Failed) || Recorded(v, d, Blocked) || d in cut)
  }

  /** The nodes a restart blocks: one pass in file order. */
  function Cut(nodes: seq<Node>, v: Vault, list: seq<Node>): set<Id> {
    if list == [] then {}
    else
      var front, last := Cut(nodes, v, list[..|list| - 1]), list[|list| - 1];
      if !Stored(v, last.id) && exists d :: d in last.dependsOn && HoldsUp(nodes, v, front, d) then front + {last.id} else front
  }

  /** The records of the vault, and the nodes that were cut. */
  ghost predicate IsCut(nodes: seq<Node>, v: Vault, st: map<Id, NodeState>, cut: set<Id>) {
    && cut <= Ids(nodes) && (forall id | id in cut :: !Stored(v, id))
    && forall id | id in Ids(nodes) ::
      && (Has(st, id, Done) <==> Recorded(v, id, Done))
      && (Has(st, id, Failed) <==> Recorded(v, id, Failed))
      && (Has(st, id, Blocked) <==> Recorded(v, id, Blocked) || id in cut)
  }

  lemma CutOneFor(n: Node, st: map<Id, NodeState>, q: Queue, cut: set<Id>, x: Id)
    requires CountedFor(n, st, q, cut) && Has(st, x, Pending) && x !in cut
    ensures CountedFor(n, st[x := BLOCKED], q, cut + {x})
  {
    hide NotDone, Open, Among;
    NotDoneFlip(st, x, BLOCKED, n.dependsOn);
    OpenFlip(st, x, BLOCKED, n.after);
    AmongMore(n.after, cut, x);
  }

  lemma HeldUp(nodes: seq<Node>, v: Vault, s: State, cut: set<Id>, x: Node)
    requires Seeding(nodes, s, cut) && IsCut(nodes, v, s.nodeState, cut)
    ensures HasFailedDep(x, s) <==> exists d :: d in x.dependsOn && HoldsUp(nodes, v, cut, d)
  {
    hide AllCounted, Ids;
    if HasFailedDep(x, s) {
      var d :| d in x.dependsOn && d in s.terminal && (Has(s.nodeState, d, Failed) || Has(s.nodeState, d, Blocked));
      assert HoldsUp(nodes, v, cut, d);
    }
    if d :| d in x.dependsOn && HoldsUp(nodes, v, cut, d) {
      assert d in s.terminal;
    }
  }

  /** One more node is blocked, and nobody is told. */
  lemma CutTaken(nodes: seq<Node>, v: Vault, s: State, cut: set<Id>, x: Id)
    requires Seeding(nodes, s, cut) && IsCut(nodes, v, s.nodeState, cut)
    requires Has(s.nodeState, x, Pending) && x !in cut && !Stored(v, x)
    ensures Seeding(nodes, SetTerminal(s, x, BLOCKED, NodeBlocked(x)), cut + {x})
    ensures IsCut(nodes, v, s.nodeState[x := BLOCKED], cut + {x})
  {
    hide CountedFor, SeedSets, Ids;
    SeedSetsStep(Ids(nodes), s, x, BLOCKED, NodeBlocked(x));
    forall n | n in nodes
      ensures CountedFor(n, s.nodeState[x := BLOCKED], s.queue, cut + {x})
    {
      CutOneFor(n, s.nodeState, s.queue, cut, x);
    }
  }

  lemma CutOne(nodes: seq<Node>, v: Vault, s: State, cut: set<Id>, x: Node)
    requires Seeding(nodes, s, cut) && IsCut(nodes, v, s.nodeState, cut) && x in nodes
    ensures var cut' := if !Stored(v, x.id) && exists d :: d in x.dependsOn && HoldsUp(nodes, v, cut, d) then cut + {x.id} else cut;
      Seeding(nodes, CascadeOne(s, x), cut') && IsCut(nodes, v, CascadeOne(s, x).nodeState, cut')
  {
    hide HasFailedDep, HoldsUp, Seeding, IsCut, Stored;
    HeldUp(nodes, v, s, cut, x);
    assert x.id in Ids(nodes);
    DecidedIff(nodes, v, s, cut, x.id);
    if x.id !in s.terminal && HasFailedDep(x, s) {
      CutTaken(nodes, v, s, cut, x.id);
    } else if x.id in cut {
      assert cut + {x.id} == cut;
    }
  }

  lemma DecidedIff(nodes: seq<Node>, v: Vault, s: State, cut: set<Id>, id: Id)
    requires Seeding(nodes, s, cut) && IsCut(nodes, v, s.nodeState, cut) && id in Ids(nodes)
    ensures id in s.terminal <==> Stored(v, id) || id in cut
    ensures id !in s.terminal ==> Has(s.nodeState, id, Pending)
  {
    hide AllCounted, Ids;
  }

  lemma {:induction false} CascadeCuts(nodes: seq<Node>, v: Vault, s: State, list: seq<Node>)
    requires Seeding(nodes, s, {}) && IsCut(nodes, v, s.nodeState, {}) && forall n | n in list :: n in nodes
    ensures Seeding(nodes, Cascade(s, list), Cut(nodes, v, list)) && IsCut(nodes, v, Cascade(s, list).nodeState, Cut(nodes, v, list))
  {
    hide Seeding, IsCut, CascadeOne, Stored, HoldsUp;
    if list != [] {
      CascadeCuts(nodes, v, s, list[..|list| - 1]);
      CutOne(nodes, v, Cascade(s, list[..|list| - 1]), Cut(nodes, v, list[..|list| - 1]), list[|list| - 1]);
    }
  }

  // ----- The start of a restart

  /** Neither recorded as ended nor blocked by the cascade. */
  ghost predicate Waiting(nodes: seq<Node>, v: Vault, n: Node) {
    n in nodes && !Stored(v, n.id) && n.id !in Cut(nodes, v, nodes)
  }

  /** It is a fix node of something that is recorded Done. */
  ghost predicate SourcePassed(nodes: seq<Node>, v: Vault, n: Node) {
    exists d :: d in n.dependsOn && GatedOn(n, d) && d in Ids(nodes) && Recorded(v, d, Done)
  }

  /** It is ordered after something the cascade blocks. */
  ghost predicate AfterCut(nodes: seq<Node>, v: Vault, n: Node) {
    exists x :: x in n.after && x in Cut(nodes, v, nodes)
  }

  /** Its counters are those the loop works with. */
  ghost predicate CountersExact(s: State, n: Node) {
    && n.id in s.queue.inDegree && s.queue.inDegree[n.id] == Unreleased(n, s.nodeState, n.dependsOn)
    && n.id in s.queue.afterPending && s.queue.afterPending[n.id] == Open(s.nodeState, n.after)
  }

  /** Whatever is not held up waits for its gated source to fail, and for all else to be Done. */
  lemma {:induction false} UnreleasedIs(n: Node, st: map<Id, NodeState>, deps: seq<Id>)
    requires forall d | d in deps :: !Has(st, d, Failed)
    ensures Unreleased(n, st, deps) >= NotDone(st, deps)
    ensures Unreleased(n, st, deps) == NotDone(st, deps) <==> forall d | d in deps :: !(GatedOn(n, d) && Has(st, d, Done))
  {
    if deps != [] {
      assert deps == [deps[0]] + deps[1..];
      UnreleasedIs(n, st, deps[1..]);
    }
  }

  lemma Restarted(nodes: seq<Node>, v: Vault, s: State)
    requires UniqueIds(nodes) && ResumesAs(nodes, v, s)
    ensures s.nodeState.Keys == s.queue.inDegree.Keys == Ids(nodes) && AllCounted(nodes, s.nodeState, s.queue, Cut(nodes, v, nodes))
    ensures IsCut(nodes, v, s.nodeState, Cut(nodes, v, nodes))
    ensures forall id | id in s.nodeState :: s.nodeState[id].status == Pending || IsTerminal(s.nodeState[id].status)
    ensures TerminalSet(Ids(nodes), s.nodeState, s.terminal)
    ensures Enumerates(s.queue.ready, ReadyIds(s.queue, s.terminal)) && !s.refused
  {
    hide UniqueIds, SeedSetsOf, Cascade, Orders, CheckpointOf, Cut, CountedFor, Ids, TerminalSet;
    var done, failed, blocked, order: seq<Id> :|
      var seeded := Cascade(SeedSetsOf(nodes, CheckpointOf(v, false), done, failed, blocked), nodes);
      && Orders(CheckpointOf(v, false), done, failed, blocked)
      && Enumerates(order, ReadyIds(seeded.queue, seeded.terminal))
      && s == Start(seeded, order);
    SetsSeeding(nodes, v, done, failed, blocked);
    var s1 := SeedSetsOf(nodes, CheckpointOf(v, false), done, failed, blocked);
    CascadeCuts(nodes, v, s1, nodes);
    StartCounts(nodes, Cascade(s1, nodes), order, Cut(nodes, v, nodes));
  }

  lemma StartCounts(nodes: seq<Node>, s: State, order: seq<Id>, cut: set<Id>)
    requires AllCounted(nodes, s.nodeState, s.queue, cut)
    ensures AllCounted(nodes, s.nodeState, Start(s, order).queue, cut)
    ensures ReadyIds(Start(s, order).queue, s.terminal) == ReadyIds(s.queue, s.terminal)
  {
    hide NotDone, Open, Among;
    assert forall n | n in nodes :: CountedFor(n, s.nodeState, s.queue, cut);
  }

  /** A waiting node's dependencies have not failed. */
  lemma {:induction false} WaitingIsFree(nodes: seq<Node>, v: Vault, list: seq<Node>, n: Node)
    requires n in list && !Stored(v, n.id) && n.id !in Cut(nodes, v, list)
    ensures forall d | d in n.dependsOn && d in Ids(nodes) :: !Recorded(v, d, Failed)
  {
    hide Stored;
    var front, last := list[..|list| - 1], list[|list| - 1];
    if n == last {
      assert forall d | d in n.dependsOn :: !HoldsUp(nodes, v, Cut(nodes, v, front), d);
    } else {
      assert n in front;
      WaitingIsFree(nodes, v, front, n);
    }
  }

  /**
   A restart leaves pending exactly the waiting nodes.  The counters of a waiting node are exact if and only if
   it is no fix node of something recorded Done, and not ordered after something the cascade blocks: all of it
   read off the graph and the vault.
   */
  lemma RestartCountsIff(nodes: seq<Node>, v: Vault, s: State, n: Node)
    requires UniqueIds(nodes) && ResumesAs(nodes, v, s) && n in nodes
    ensures Has(s.nodeState, n.id, Pending) <==> Waiting(nodes, v, n)
    ensures Waiting(nodes, v, n) ==>
      (CountersExact(s, n) <==> !SourcePassed(nodes, v, n) && !AfterCut(nodes, v, n))
  {
    hide UniqueIds, ResumesAs, Cut, NotDone, Unreleased, Open, Among, Recorded;
    Restarted(nodes, v, s);
    var cut := Cut(nodes, v, nodes);
    assert n.id in Ids(nodes) && CountedFor(n, s.nodeState, s.queue, cut);
    if Waiting(nodes, v, n) {
      WaitingIsFree(nodes, v, nodes, n);
      UnreleasedIs(n, s.nodeState, n.dependsOn);
      AmongNone(n.after, cut);
      SourceIff(nodes, v, s, n);
    }
  }

  lemma SourceIff(nodes: seq<Node>, v: Vault, s: State, n: Node)
    requires s.nodeState.Keys == Ids(nodes) && IsCut(nodes, v, s.nodeState, Cut(nodes, v, nodes))
    ensures SourcePassed(nodes, v, n) <==> exists d :: d in n.dependsOn && GatedOn(n, d) && Has(s.nodeState, d, Done)
  {
    hide Cut, Recorded, GatedOn, Stored, Ids;
    if SourcePassed(nodes, v, n) {
      var d :| d in n.dependsOn && GatedOn(n, d) && d in Ids(nodes) && Recorded(v, d, Done);
      assert Has(s.nodeState, d, Done);
    }
    if d :| d in n.dependsOn && GatedOn(n, d) && Has(s.nodeState, d, Done) {
      assert d in Ids(nodes);
    }
  }

  /** The whole start state is exact if and only if there is no such node. */
  lemma RestartIsExactIff(nodes: seq<Node>, v: Vault, s: State)
    requires UniqueIds(nodes) && ResumesAs(nodes, v, s)
    ensures (forall n | n in nodes && Has(s.nodeState, n.id, Pending) :: CountersExact(s, n))
       <==> (forall n | Waiting(nodes, v, n) :: !SourcePassed(nodes, v, n) && !AfterCut(nodes, v, n))
  {
    hide UniqueIds, ResumesAs, Waiting, SourcePassed, AfterCut, CountersExact;
    forall n | n in nodes
      ensures Has(s.nodeState, n.id, Pending) <==> Waiting(nodes, v, n)
      ensures Waiting(nodes, v, n) ==> (CountersExact(s, n) <==> !SourcePassed(nodes, v, n) && !AfterCut(nodes, v, n))
    {
      RestartCountsIff(nodes, v, s, n);
    }
    assert forall n :: Waiting(nodes, v, n) ==> n in nodes by {
      WaitingIsNode(nodes, v);
    }
  }

  lemma WaitingIsNode(nodes: seq<Node>, v: Vault)
    ensures forall n :: Waiting(nodes, v, n) ==> n in nodes
  {
  }

  /** A fix node cut off behind its passed source is ready at once in every restart, though a first run skips it. */
  lemma FixNodeIsReady(nodes: seq<Node>, v: Vault, s: State, n: Node, d: Id)
    requires UniqueIds(nodes) && ResumesAs(nodes, v, s) && Waiting(nodes, v, n)
    requires n.dependsOn == [d] && GatedOn(n, d) && n.after == [] && d in Ids(nodes) && Recorded(v, d, Done)
    ensures n.id in s.queue.ready
  {
    hide UniqueIds, ResumesAs, Cut, Recorded, GatedOn, Stored;
    Restarted(nodes, v, s);
    RestartCountsIff(nodes, v, s, n);
    assert CountedFor(n, s.nodeState, s.queue, Cut(nodes, v, nodes));
    assert [d][1..] == [] && NotDone(s.nodeState, []) == 0;
    assert Has(s.nodeState, d, Done);
    assert NotDone(s.nodeState, [d]) == 0;
  }

  // ----- Every vault has a restart

  lemma {:induction false} SomeOrder(ids: set<Id>) returns (order: seq<Id>)
    ensures Enumerates(order, ids)
  {
    order := [];
    if ids != {} {
      var x :| x in ids;
      var rest := SomeOrder(ids - {x});
      order := [x] + rest;
    }
  }

  lemma RestartExists(nodes: seq<Node>, v: Vault) returns (s: State)
    ensures ResumesAs(nodes, v, s)
  {
    hide SeedSetsOf, Cascade, CheckpointOf, Enumerates, ReadyIds;
    var cp := CheckpointOf(v, false);
    var done := SomeOrder(cp.completed);
    var failed := SomeOrder(cp.failed);
    var blocked := SomeOrder(cp.blocked);
    var seeded := Cascade(SeedSetsOf(nodes, cp, done, failed, blocked), nodes);
    var order := SomeOrder(ReadyIds(seeded.queue, seeded.terminal));
    s := Start(seeded, order);
  }
}
