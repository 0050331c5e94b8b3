/**
 A run started from a checkpoint.  For graphs without gates and `after` edges the seeded state meets
 the invariant of the run loop, whatever prefix of the events the interrupted run got to store.
 */
module ResumeSound {
  import opened Wrappers
  import opened Dag
  import opened Events
  import opened Template
  import opened Vault
  import opened Loop
  import opened LoopInvariant
  import opened LoopFacts
  import opened LoopSteps
  import opened LoopLog
  import opened LoopRuns
  import opened Denotation
  import opened Resume
  import opened Seed
  import Quorum

  // ----- What a stored record may claim

  /** Some dependency does not end Done. */
  ghost predicate Held(n: Node, fin: map<Id, NodeState>) {
    exists d :: d in n.dependsOn && !Has(fin, d, Done)
  }

  /** The record of `n` is one that the uninterrupted run ends with, and its dependencies' records are there. */
  ghost predicate RecordTrue(n: Node, fin: map<Id, NodeState>, exact: bool, v: Vault) {
    && (Recorded(v, n.id, Done) ==>
          && Has(fin, n.id, Done)
          && (exact ==> n.id in v.artifacts && v.artifacts[n.id] == OrEmpty(fin[n.id].output)))
    && (Recorded(v, n.id, Failed) ==> Has(fin, n.id, Failed))
    && (Recorded(v, n.id, Blocked) ==> Held(n, fin))
    && (Recorded(v, n.id, Done) || Recorded(v, n.id, Failed) ==> forall d | d in n.dependsOn :: Recorded(v, d, Done))
  }

  ghost predicate VaultTrue(nodes: seq<Node>, fin: map<Id, NodeState>, exact: bool, v: Vault) {
    forall n | n in nodes :: RecordTrue(n, fin, exact, v)
  }

  /** `fin` satisfies the local equation of every node. */
  ghost predicate Solves(nodes: seq<Node>, work: Worker, fin: map<Id, NodeState>) {
    fin.Keys == Ids(nodes) && forall n | n in nodes :: fin[n.id] == Denote(work, n, fin)
  }

  /** The worker's verdict does not depend on the prompt. */
  ghost predicate PromptBlind(work: Worker) {
    forall n: Node, p :: work(n.(prompt := p)).status == work(n).status
  }

  // ----- Seeding

  /** A seeded record repeats the vault's, or blocks a node that is held up anyway. */
  ghost predicate SeedFact(n: Node, st: map<Id, NodeState>, v: Vault, fin: map<Id, NodeState>) {
    && n.id in st
    && (st[n.id] == PENDING || IsTerminal(st[n.id].status))
    && (Has(st, n.id, Done) ==> Recorded(v, n.id, Done) && st[n.id] == SeedState(Done, OutputAt(v.artifacts, n.id)))
    && (Has(st, n.id, Failed) ==> Recorded(v, n.id, Failed))
    && (Has(st, n.id, Blocked) ==> Held(n, fin))
  }

  ghost predicate SeedSets(ids: set<Id>, s: State) {
    && TerminalSet(ids, s.nodeState, s.terminal)
    && OrderOk(s.terminalOrder, s.terminal)
    && s.spawned == [] && s.running == map[] && !s.refused
  }

  /** Events that confirm a seeded record. */
  ghost predicate Confirms(e: Event, st: map<Id, NodeState>) {
    match e
    case DagSubmitted => true
    case NodeDone(id, _, output) => Has(st, id, Done) && output == ""
    case NodeFailed(id, _) => Has(st, id, Failed)
    case NodeBlocked(id) => Has(st, id, Blocked)
    case _ => false
  }

  ghost predicate SeedInv(nodes: seq<Node>, v: Vault, fin: map<Id, NodeState>, s: State) {
    && SeedCounts(nodes, s.nodeState, s.queue)
    && s.nodeState.Keys == Ids(nodes)
    && (forall n | n in nodes :: SeedFact(n, s.nodeState, v, fin))
    && SeedSets(Ids(nodes), s)
    && (forall e | e in s.log :: Confirms(e, s.nodeState))
    && (forall id | Has(s.nodeState, id, Done) :: NodeDone(id, "", "") in s.log)
  }

  lemma ConfirmsStays(e: Event, st: map<Id, NodeState>, x: Id, ns: NodeState)
    requires Confirms(e, st) && Has(st, x, Pending)
    ensures Confirms(e, st[x := ns])
  {
  }

  lemma SeedSetsStep(ids: set<Id>, s: State, x: Id, ns: NodeState, e: Event)
    requires SeedSets(ids, s) && x in ids && IsTerminal(ns.status)
    ensures SeedSets(ids, SetTerminal(s, x, ns, e))
  {
    OrderTerminal(s.terminalOrder, s.terminal, x);
    TerminalSetGrows(ids, s.nodeState, s.terminal, x, ns);
  }

  /** One more terminal record, with counters to match. */
  lemma SeedInvStep(nodes: seq<Node>, v: Vault, fin: map<Id, NodeState>, s: State, x: Node, ns: NodeState, e: Event, q: Queue)
    requires UniqueIds(nodes) && x in nodes && SeedInv(nodes, v, fin, s)
    requires Has(s.nodeState, x.id, Pending) && IsTerminal(ns.status)
    requires SeedFact(x, s.nodeState[x.id := ns], v, fin) && Confirms(e, s.nodeState[x.id := ns])
    requires ns.status == Done ==> e == NodeDone(x.id, "", "")
    requires SeedCounts(nodes, s.nodeState[x.id := ns], q)
    ensures SeedInv(nodes, v, fin, SetTerminal(s, x.id, ns, e).(queue := q))
  {
    hide SeedCounts, SeedSets, Confirms, Held;
    SeedSetsStep(Ids(nodes), s, x.id, ns, e);
    SeedSetsQueue(Ids(nodes), SetTerminal(s, x.id, ns, e), q);
    forall n | n in nodes
      ensures SeedFact(n, s.nodeState[x.id := ns], v, fin)
    {
      assert SeedFact(n, s.nodeState, v, fin);
      if n.id == x.id {
        SameNode(nodes, n, x);
      }
    }
    forall d | d in s.log
      ensures Confirms(d, s.nodeState[x.id := ns])
    {
      ConfirmsStays(d, s.nodeState, x.id, ns);
    }
  }

  lemma SeedSetsQueue(ids: set<Id>, s: State, q: Queue)
    requires SeedSets(ids, s)
    ensures SeedSets(ids, s.(queue := q))
  {
  }

  lemma OutputsKept(v: Vault, id: Id, status: Status)
    requires Recorded(v, id, status) && IsTerminal(status)
    ensures OutputAt(CheckpointOf(v, false).outputs, id) == OutputAt(v.artifacts, id)
  {
  }

  lemma StoredFact(n: Node, fin: map<Id, NodeState>, exact: bool, v: Vault, st: map<Id, NodeState>, status: Status)
    requires RecordTrue(n, fin, exact, v) && Recorded(v, n.id, status) && IsTerminal(status)
    ensures SeedFact(n, st[n.id := SeedState(status, OutputAt(v.artifacts, n.id))], v, fin)
    ensures Confirms(SeedEvent(n.id, status), st[n.id := SeedState(status, OutputAt(v.artifacts, n.id))])
    ensures status == Done ==> SeedEvent(n.id, status) == NodeDone(n.id, "", "")
  {
    hide Held;
  }

  lemma SeedOneInv(nodes: seq<Node>, v: Vault, fin: map<Id, NodeState>, exact: bool, status: Status, s: State, id: Id)
    requires UniqueIds(nodes) && Plain(nodes) && VaultTrue(nodes, fin, exact, v) && SeedInv(nodes, v, fin, s)
    requires Recorded(v, id, status) && IsTerminal(status)
    requires id in Ids(nodes) ==> Has(s.nodeState, id, Pending)
    ensures var s' := SeedOne(nodes, CheckpointOf(v, false).outputs, status, s, id);
      && SeedInv(nodes, v, fin, s')
      && s'.nodeState == if id in Ids(nodes) then s.nodeState[id := SeedState(status, OutputAt(v.artifacts, id))] else s.nodeState
  {
    hide SeedInv, Plain, UniqueIds, SeedFact, Confirms, SeedQueue, SeedEvent;
    var r := GetNode(nodes, id);
    if r.Some? {
      var ns := SeedState(status, OutputAt(v.artifacts, id));
      OutputsKept(v, id, status);
      StoredFact(r.value, fin, exact, v, s.nodeState, status);
      SeedInvCounts(nodes, v, fin, s);
      SeedCountsStep(nodes, s.nodeState, s.queue, id, ns);
      SeedInvStep(nodes, v, fin, s, r.value, ns, SeedEvent(id, status), SeedQueue(nodes, s.queue, id, status));
    }
  }

  lemma SeedInvCounts(nodes: seq<Node>, v: Vault, fin: map<Id, NodeState>, s: State)
    requires SeedInv(nodes, v, fin, s)
    ensures SeedCounts(nodes, s.nodeState, s.queue) && s.nodeState.Keys == Ids(nodes)
  {
  }

  /** Exactly the listed nodes have got a record. */
  ghost predicate Seeds(nodes: seq<Node>, v: Vault, status: Status, ids: seq<Id>, st: map<Id, NodeState>, st': map<Id, NodeState>) {
    && st.Keys == st'.Keys
    && forall id | id in st :: st'[id] == if id in ids && id in Ids(nodes) then SeedState(status, OutputAt(v.artifacts, id)) else st[id]
  }

  lemma SeedsSnoc(nodes: seq<Node>, v: Vault, status: Status, front: seq<Id>, last: Id, st: map<Id, NodeState>, st1: map<Id, NodeState>, st2: map<Id, NodeState>)
    requires Seeds(nodes, v, status, front, st, st1) && st.Keys == Ids(nodes)
    requires st2 == if last in Ids(nodes) then st1[last := SeedState(status, OutputAt(v.artifacts, last))] else st1
    ensures Seeds(nodes, v, status, front + [last], st, st2)
  {
    hide Ids;
  }

  lemma {:induction false} SeedEachInv(nodes: seq<Node>, v: Vault, fin: map<Id, NodeState>, exact: bool, status: Status, s: State, ids: seq<Id>)
    requires UniqueIds(nodes) && Plain(nodes) && VaultTrue(nodes, fin, exact, v) && SeedInv(nodes, v, fin, s)
    requires NoDup(ids) && IsTerminal(status) && forall id | id in ids :: Recorded(v, id, status)
    requires forall id | id in ids && id in Ids(nodes) :: Has(s.nodeState, id, Pending)
    ensures var s' := SeedEach(nodes, CheckpointOf(v, false).outputs, status, s, ids);
      SeedInv(nodes, v, fin, s') && Seeds(nodes, v, status, ids, s.nodeState, s'.nodeState)
  {
    hide SeedInv, Plain, UniqueIds, SeedOne, VaultTrue, CheckpointOf, Recorded, Ids, Seeds;
    SeedInvCounts(nodes, v, fin, s);
    if ids == [] {
      SeedsNone(nodes, v, status, s.nodeState);
    } else {
      var front, last := ids[..|ids| - 1], ids[|ids| - 1];
      assert ids == front + [last];
      SeedEachInv(nodes, v, fin, exact, status, s, front);
      var s1 := SeedEach(nodes, CheckpointOf(v, false).outputs, status, s, front);
      assert last !in front;
      StillPending(nodes, v, status, front, s.nodeState, s1.nodeState, last);
      SeedOneInv(nodes, v, fin, exact, status, s1, last);
      SeedsSnoc(nodes, v, status, front, last, s.nodeState, s1.nodeState, SeedEach(nodes, CheckpointOf(v, false).outputs, status, s, ids).nodeState);
    }
  }

  lemma SeedsNone(nodes: seq<Node>, v: Vault, status: Status, st: map<Id, NodeState>)
    ensures Seeds(nodes, v, status, [], st, st)
  {
  }

  lemma StillPending(nodes: seq<Node>, v: Vault, status: Status, ids: seq<Id>, st: map<Id, NodeState>, st': map<Id, NodeState>, id: Id)
    requires Seeds(nodes, v, status, ids, st, st') && id !in ids
    ensures Has(st, id, Pending) ==> Has(st', id, Pending)
  {
  }

  // ----- The three sets of the checkpoint

  function SeedSetsOf(nodes: seq<Node>, cp: Checkpoint, done: seq<Id>, failed: seq<Id>, blocked: seq<Id>): State {
    SeedEach(nodes, cp.outputs, Blocked, SeedEach(nodes, cp.outputs, Failed, SeedEach(nodes, cp.outputs, Done, Blank(nodes), done), failed), blocked)
  }

  /** The three sets in some order each. */
  ghost predicate Orders(cp: Checkpoint, done: seq<Id>, failed: seq<Id>, blocked: seq<Id>) {
    Enumerates(done, cp.completed) && Enumerates(failed, cp.failed) && Enumerates(blocked, cp.blocked)
  }

  /** Every terminal record of the vault has been taken over, and nothing else. */
  ghost predicate TakenOver(nodes: seq<Node>, v: Vault, st: map<Id, NodeState>) {
    forall id, status | id in Ids(nodes) && IsTerminal(status) :: Has(st, id, status) <==> Recorded(v, id, status)
  }

  lemma BlankInv(nodes: seq<Node>, v: Vault, fin: map<Id, NodeState>)
    requires UniqueIds(nodes) && Plain(nodes)
    ensures SeedInv(nodes, v, fin, Blank(nodes))
    ensures forall id | id in Ids(nodes) :: Has(Blank(nodes).nodeState, id, Pending)
  {
    hide SeedCounts, EdgeCount, AfterCount;
    BlankCounts(nodes);
  }

  lemma SeedSetsInv(nodes: seq<Node>, v: Vault, fin: map<Id, NodeState>, exact: bool, done: seq<Id>, failed: seq<Id>, blocked: seq<Id>)
    requires UniqueIds(nodes) && Plain(nodes) && VaultTrue(nodes, fin, exact, v)
    requires Orders(CheckpointOf(v, false), done, failed, blocked)
    ensures var s := SeedSetsOf(nodes, CheckpointOf(v, false), done, failed, blocked);
      SeedInv(nodes, v, fin, s) && TakenOver(nodes, v, s.nodeState)
  {
    hide SeedInv, Plain, UniqueIds, VaultTrue, SeedEach, Ids, TakenOver, Blank;
    var cp := CheckpointOf(v, false);
    BlankInv(nodes, v, fin);
    SetOrders(v, done, failed, blocked);
    var s0 := Blank(nodes);
    SeedInvCounts(nodes, v, fin, s0);
    SeedEachInv(nodes, v, fin, exact, Done, s0, done);
    var s1 := SeedEach(nodes, cp.outputs, Done, s0, done);
    forall id | id in failed && id in Ids(nodes)
      ensures Has(s1.nodeState, id, Pending)
    {
      StillPending(nodes, v, Done, done, s0.nodeState, s1.nodeState, id);
    }
    SeedEachInv(nodes, v, fin, exact, Failed, s1, failed);
    var s2 := SeedEach(nodes, cp.outputs, Failed, s1, failed);
    forall id | id in blocked && id in Ids(nodes)
      ensures Has(s2.nodeState, id, Pending)
    {
      StillPending(nodes, v, Done, done, s0.nodeState, s1.nodeState, id);
      StillPending(nodes, v, Failed, failed, s1.nodeState, s2.nodeState, id);
    }
    SeedEachInv(nodes, v, fin, exact, Blocked, s2, blocked);
    var s3 := SeedEach(nodes, cp.outputs, Blocked, s2, blocked);
    AllTakenOver(nodes, v, done, failed, blocked, s0.nodeState, s1.nodeState, s2.nodeState, s3.nodeState);
  }

  /** The lists hold the ids recorded with the status, once each. */
  ghost predicate Lists(v: Vault, status: Status, ids: seq<Id>) {
    NoDup(ids) && forall id :: id in ids <==> Recorded(v, id, status)
  }

  lemma SetOrders(v: Vault, done: seq<Id>, failed: seq<Id>, blocked: seq<Id>)
    requires Orders(CheckpointOf(v, false), done, failed, blocked)
    ensures Lists(v, Done, done) && Lists(v, Failed, failed) && Lists(v, Blocked, blocked)
    ensures forall id | id in failed :: id !in done
    ensures forall id | id in blocked :: id !in done && id !in failed
  {
  }

  lemma AllTakenOver(nodes: seq<Node>, v: Vault, done: seq<Id>, failed: seq<Id>, blocked: seq<Id>,
                     st0: map<Id, NodeState>, st1: map<Id, NodeState>, st2: map<Id, NodeState>, st3: map<Id, NodeState>)
    requires Lists(v, Done, done) && Lists(v, Failed, failed) && Lists(v, Blocked, blocked)
    requires Seeds(nodes, v, Done, done, st0, st1) && Seeds(nodes, v, Failed, failed, st1, st2) && Seeds(nodes, v, Blocked, blocked, st2, st3)
    requires st0.Keys == Ids(nodes) && forall id | id in Ids(nodes) :: Has(st0, id, Pending)
    ensures TakenOver(nodes, v, st3)
  {
    forall id, status | id in Ids(nodes) && IsTerminal(status)
      ensures Has(st3, id, status) <==> Recorded(v, id, status)
    {
      OneTakenOver(nodes, v, done, failed, blocked, st0, st1, st2, st3, id);
    }
  }

  lemma OneTakenOver(nodes: seq<Node>, v: Vault, done: seq<Id>, failed: seq<Id>, blocked: seq<Id>,
                     st0: map<Id, NodeState>, st1: map<Id, NodeState>, st2: map<Id, NodeState>, st3: map<Id, NodeState>, id: Id)
    requires Lists(v, Done, done) && Lists(v, Failed, failed) && Lists(v, Blocked, blocked)
    requires Seeds(nodes, v, Done, done, st0, st1) && Seeds(nodes, v, Failed, failed, st1, st2) && Seeds(nodes, v, Blocked, blocked, st2, st3)
    requires id in st0 && id in Ids(nodes) && Has(st0, id, Pending)
    ensures Has(st3, id, Done) <==> Recorded(v, id, Done)
    ensures Has(st3, id, Failed) <==> Recorded(v, id, Failed)
    ensures Has(st3, id, Blocked) <==> Recorded(v, id, Blocked)
  {
    assert Recorded(v, id, Done) <==> id in done;
    assert Recorded(v, id, Failed) <==> id in failed;
    assert Recorded(v, id, Blocked) <==> id in blocked;
  }

  // ----- The cascade

  /** A node that a dependency holds up does not end Done or Failed. */
  lemma HeldIsUnfinished(nodes: seq<Node>, work: Worker, fin: map<Id, NodeState>, n: Node)
    requires Solves(nodes, work, fin) && n in nodes && PlainNode(n) && Held(n, fin)
    ensures !Has(fin, n.id, Done) && !Has(fin, n.id, Failed)
  {
    hide TaskOf;
    NoneUnreleased(n, fin, n.dependsOn);
    assert fin[n.id] == Denote(work, n, fin);
  }

  lemma FailedDepHolds(nodes: seq<Node>, work: Worker, fin: map<Id, NodeState>, exact: bool, v: Vault, s: State, n: Node)
    requires Plain(nodes) && Solves(nodes, work, fin) && VaultTrue(nodes, fin, exact, v) && SeedInv(nodes, v, fin, s)
    requires n in nodes && HasFailedDep(n, s)
    ensures Held(n, fin)
  {
    hide SeedCounts, SeedSets, Confirms, Solves;
    var d :| d in n.dependsOn && d in s.terminal && (Has(s.nodeState, d, Failed) || Has(s.nodeState, d, Blocked));
    assert d in Ids(nodes);
    var m :| m in nodes && m.id == d;
    assert SeedFact(m, s.nodeState, v, fin) && RecordTrue(m, fin, exact, v);
    if Has(s.nodeState, d, Blocked) {
      HeldIsUnfinished(nodes, work, fin, m);
    }
  }

  lemma CascadeOneInv(nodes: seq<Node>, work: Worker, fin: map<Id, NodeState>, exact: bool, v: Vault, s: State, n: Node)
    requires UniqueIds(nodes) && Plain(nodes) && Solves(nodes, work, fin) && VaultTrue(nodes, fin, exact, v)
    requires n in nodes && SeedInv(nodes, v, fin, s)
    ensures SeedInv(nodes, v, fin, CascadeOne(s, n))
  {
    hide UniqueIds, Plain, Solves, VaultTrue, Confirms;
    if n.id !in s.terminal && HasFailedDep(n, s) {
      FailedDepHolds(nodes, work, fin, exact, v, s, n);
      UnseededIsPending(nodes, v, fin, s, n);
      SeedInvCounts(nodes, v, fin, s);
      CascadeCountsStep(nodes, s.nodeState, s.queue, n.id);
      BlockedIsConfirmed(s.nodeState, n.id);
      SeedInvStep(nodes, v, fin, s, n, BLOCKED, NodeBlocked(n.id), s.queue);
    }
  }

  lemma UnseededIsPending(nodes: seq<Node>, v: Vault, fin: map<Id, NodeState>, s: State, n: Node)
    requires SeedInv(nodes, v, fin, s) && n in nodes && n.id !in s.terminal
    ensures Has(s.nodeState, n.id, Pending)
  {
    hide SeedCounts, Confirms, Held;
    assert SeedFact(n, s.nodeState, v, fin);
  }

  lemma BlockedIsConfirmed(st: map<Id, NodeState>, id: Id)
    ensures Confirms(NodeBlocked(id), st[id := BLOCKED])
  {
  }

  /** Terminal records stay, and nothing but a blocking is added. */
  ghost predicate OnlyBlocks(s: State, s': State) {
    && s.nodeState.Keys == s'.nodeState.Keys
    && s.terminal <= s'.terminal
    && forall id | id in s.nodeState :: s'.nodeState[id] == s.nodeState[id] || (id !in s.terminal && Has(s'.nodeState, id, Blocked))
  }

  lemma CascadeOneBlocks(s: State, s1: State, n: Node)
    requires OnlyBlocks(s, s1) && n.id in s.nodeState
    ensures OnlyBlocks(s, CascadeOne(s1, n))
    ensures forall d | d in n.dependsOn && d in s.terminal && Has(s.nodeState, d, Failed) :: n.id in CascadeOne(s1, n).terminal
  {
    if d :| d in n.dependsOn && d in s.terminal && Has(s.nodeState, d, Failed) {
      assert Has(s1.nodeState, d, Failed);
      assert HasFailedDep(n, s1);
    }
  }

  lemma {:induction false} CascadeInv(nodes: seq<Node>, work: Worker, fin: map<Id, NodeState>, exact: bool, v: Vault, s: State, list: seq<Node>)
    requires UniqueIds(nodes) && Plain(nodes) && Solves(nodes, work, fin) && VaultTrue(nodes, fin, exact, v)
    requires SeedInv(nodes, v, fin, s) && forall n | n in list :: n in nodes
    ensures SeedInv(nodes, v, fin, Cascade(s, list)) && OnlyBlocks(s, Cascade(s, list))
    ensures forall n, d | n in list && d in n.dependsOn && d in s.terminal && Has(s.nodeState, d, Failed) :: n.id in Cascade(s, list).terminal
  {
    hide UniqueIds, Plain, Solves, VaultTrue, SeedInv, CascadeOne, Has;
    SeedInvCounts(nodes, v, fin, s);
    if list != [] {
      var front, last := list[..|list| - 1], list[|list| - 1];
      assert list == front + [last];
      CascadeInv(nodes, work, fin, exact, v, s, front);
      CascadeOneInv(nodes, work, fin, exact, v, Cascade(s, front), last);
      CascadeOneBlocks(s, Cascade(s, front), last);
      CascadeOneGrows(Cascade(s, front), last);
    } else {
      assert OnlyBlocks(s, s);
    }
  }

  lemma CascadeOneGrows(s: State, n: Node)
    ensures s.terminal <= CascadeOne(s, n).terminal
  {
  }

  // ----- The seeded state meets the invariant

  /** The nodes blocked from the start, and the vault the sink continues from. */
  ghost function ResumeMode(work: Worker, exact: bool, v: Vault, st: map<Id, NodeState>): Mode {
    var doomed := set id | id in st && st[id].status == Blocked;
    Mode(false, !exact, false, doomed, Some(work), SinkState(v, false))
  }

  /** What the seeding leaves behind. */
  ghost predicate SeedDone(nodes: seq<Node>, v: Vault, st: map<Id, NodeState>) {
    && (forall id, status | id in Ids(nodes) && status != Blocked && IsTerminal(status) :: Has(st, id, status) <==> Recorded(v, id, status))
    && (forall id | id in Ids(nodes) && Recorded(v, id, Blocked) :: Has(st, id, Blocked))
    && (forall n, d | n in nodes && d in n.dependsOn && Has(st, d, Failed) :: !Has(st, n.id, Pending))
  }

  lemma CascadeDone(nodes: seq<Node>, v: Vault, fin: map<Id, NodeState>, s: State, s': State)
    requires Closed(nodes) && SeedInv(nodes, v, fin, s) && SeedInv(nodes, v, fin, s') && TakenOver(nodes, v, s.nodeState) && OnlyBlocks(s, s')
    requires forall n, d | n in nodes && d in n.dependsOn && d in s.terminal && Has(s.nodeState, d, Failed) :: n.id in s'.terminal
    ensures SeedDone(nodes, v, s'.nodeState)
  {
    hide SeedCounts, Confirms, Closed, OrderOk;
    forall id | id in Ids(nodes)
      ensures forall status | status != Blocked && IsTerminal(status) :: Has(s'.nodeState, id, status) <==> Recorded(v, id, status)
      ensures Recorded(v, id, Blocked) ==> Has(s'.nodeState, id, Blocked)
    {
      CascadeKeeps(nodes, v, s, s', id);
    }
    forall n, d | n in nodes && d in n.dependsOn && Has(s'.nodeState, d, Failed)
      ensures !Has(s'.nodeState, n.id, Pending)
    {
      assert Has(s.nodeState, d, Failed);
      assert n.id in s'.terminal;
    }
  }

  lemma CascadeKeeps(nodes: seq<Node>, v: Vault, s: State, s': State, id: Id)
    requires SeedSets(Ids(nodes), s) && s.nodeState.Keys == Ids(nodes) && id in Ids(nodes)
    requires TakenOver(nodes, v, s.nodeState) && OnlyBlocks(s, s')
    ensures forall status | status != Blocked && IsTerminal(status) :: Has(s'.nodeState, id, status) <==> Recorded(v, id, status)
    ensures Recorded(v, id, Blocked) ==> Has(s'.nodeState, id, Blocked)
  {
    assert id in s.terminal <==> IsTerminal(s.nodeState[id].status);
    assert Has(s.nodeState, id, Blocked) <==> Recorded(v, id, Blocked);
  }

  // ----- ... the counters

  lemma SeededCounts(nodes: seq<Node>, s: State, order: seq<Id>)
    requires SeedCounts(nodes, s.nodeState, s.queue) && s.nodeState.Keys == Ids(nodes)
    requires Plain(nodes) && SeedSets(Ids(nodes), s)
    requires Enumerates(order, ReadyIds(s.queue, s.terminal))
    ensures Counts(nodes, s.nodeState, Start(s, order).queue, multiset{}, multiset{})
  {
    hide Unreleased;
    var q := Start(s, order).queue;
    forall n | n in nodes
      ensures Counted(n, s.nodeState, q, multiset{}[n.id], multiset{}[n.id])
    {
      assert n.after == [];
      assert n.id in q.enqueued <==> q.inDegree[n.id] == 0 && n.id !in s.terminal;
    }
  }

  lemma SeededSets(nodes: seq<Node>, s: State, order: seq<Id>)
    requires SeedSets(Ids(nodes), s) && Enumerates(order, ReadyIds(s.queue, s.terminal))
    ensures Sets(nodes, Start(s, order))
  {
    hide ReadyIds;
    var ids := ReadyIds(s.queue, s.terminal);
    assert ids !! s.terminal by {
      ReadyAreNew(s.queue, s.terminal);
    }
  }

  lemma ReadyAreNew(q: Queue, excluded: set<Id>)
    ensures ReadyIds(q, excluded) !! excluded
  {
  }

  // ----- ... the records

  /** A finished node of a plain graph ran, after dependencies that are all Done. */
  lemma FinishedRan(nodes: seq<Node>, work: Worker, fin: map<Id, NodeState>, n: Node)
    requires Solves(nodes, work, fin) && n in nodes && PlainNode(n)
    requires Has(fin, n.id, Done) || Has(fin, n.id, Failed)
    ensures forall d | d in n.dependsOn :: Has(fin, d, Done)
    ensures fin[n.id] == Outcome(work, TaskOf(n, fin))
  {
    hide TaskOf;
    NoneUnreleased(n, fin, n.dependsOn);
    assert fin[n.id] == Denote(work, n, fin);
  }

  /** Whether the worker succeeds does not depend on what was read, if it is blind to its prompt. */
  lemma BlindOutcome(work: Worker, n: Node, st: map<Id, NodeState>, st': map<Id, NodeState>)
    requires PromptBlind(work) && WellFormedNode(n) && n.after == []
    ensures Outcome(work, TaskOf(n, st)).status == Outcome(work, TaskOf(n, st')).status
  {
    hide Interpolate;
    var p, p' := Interpolate(n.prompt, OutputsOf(st)), Interpolate(n.prompt, OutputsOf(st'));
    if n.nodeType == Some("quorum") {
      Quorum.ResultReads(n.(prompt := p), OutputsOf(st), OutputsOf(st'));
      assert Quorum.StateOf(n.(prompt := p), OutputsOf(st)) == Quorum.StateOf(n.(prompt := p'), OutputsOf(st'));
    } else {
      assert work(n.(prompt := p)).status == work(n).status;
      assert work(n.(prompt := p')).status == work(n).status;
    }
  }

  /** A restored output reads like the original. */
  lemma RestoredText(st: map<Id, NodeState>, fin: map<Id, NodeState>, v: Vault, d: Id)
    requires Has(fin, d, Done) && d in v.artifacts && v.artifacts[d] == OrEmpty(fin[d].output)
    requires d in st && st[d] == SeedState(Done, OutputAt(v.artifacts, d))
    ensures OutText(st, d) == OutText(fin, d)
  {
  }

  lemma SeededRan(nodes: seq<Node>, work: Worker, fin: map<Id, NodeState>, exact: bool, v: Vault, st: map<Id, NodeState>, n: Node)
    requires WellFormed(nodes) && Plain(nodes) && Solves(nodes, work, fin) && VaultTrue(nodes, fin, exact, v)
    requires !exact ==> PromptBlind(work)
    requires SeedDone(nodes, v, st) && forall m | m in nodes :: SeedFact(m, st, v, fin)
    requires n in nodes && (Has(st, n.id, Done) || Has(st, n.id, Failed))
    ensures RanAs(ResumeMode(work, exact, v, st), n, st, st[n.id])
  {
    hide Closed, TaskOf, Solves, PromptBlind, Held, SeedDone, RanAs, Matches, WellFormedNode;
    RecordedDeps(nodes, fin, exact, v, st, n);
    NoneUnreleased(n, st, n.dependsOn);
    FinishedRan(nodes, work, fin, n);
    if exact {
      forall d | Edge(n, d)
        ensures OutText(st, d) == OutText(fin, d)
      {
        DoneDep(nodes, fin, v, st, n, d);
        RestoredText(st, fin, v, d);
      }
      TaskReads(n, st, fin);
    } else {
      BlindOutcome(work, n, st, fin);
    }
    RanInResume(work, fin, exact, v, st, n);
  }

  lemma RecordedDeps(nodes: seq<Node>, fin: map<Id, NodeState>, exact: bool, v: Vault, st: map<Id, NodeState>, n: Node)
    requires WellFormed(nodes) && VaultTrue(nodes, fin, exact, v) && SeedDone(nodes, v, st)
    requires n in nodes && (Has(st, n.id, Done) || Has(st, n.id, Failed))
    ensures forall d | d in n.dependsOn :: Recorded(v, d, Done) && Has(st, d, Done)
    ensures Recorded(v, n.id, Done) || Recorded(v, n.id, Failed)
    ensures Has(fin, n.id, st[n.id].status)
  {
    hide Held, WellFormedNode;
    assert n.id in Ids(nodes);
    assert RecordTrue(n, fin, exact, v);
    forall d | d in n.dependsOn
      ensures Has(st, d, Done)
    {
      assert Edge(n, d);
      assert Recorded(v, d, Done);
    }
  }

  lemma DoneDep(nodes: seq<Node>, fin: map<Id, NodeState>, v: Vault, st: map<Id, NodeState>, n: Node, d: Id)
    requires WellFormed(nodes) && Plain(nodes) && VaultTrue(nodes, fin, true, v)
    requires forall m | m in nodes :: SeedFact(m, st, v, fin)
    requires n in nodes && Edge(n, d) && forall e | e in n.dependsOn :: Recorded(v, e, Done) && Has(st, e, Done)
    ensures Has(fin, d, Done) && d in v.artifacts && v.artifacts[d] == OrEmpty(fin[d].output)
    ensures d in st && st[d] == SeedState(Done, OutputAt(v.artifacts, d))
  {
    hide Held, WellFormedNode;
    assert d in n.dependsOn by {
      assert n.after == [];
    }
    assert d in Ids(nodes);
    var m :| m in nodes && m.id == d;
    assert RecordTrue(m, fin, true, v) && SeedFact(m, st, v, fin);
  }

  lemma RanInResume(work: Worker, fin: map<Id, NodeState>, exact: bool, v: Vault, st: map<Id, NodeState>, n: Node)
    requires n.after == [] && Unreleased(n, st, n.dependsOn) == 0
    requires n.id in st && Has(fin, n.id, st[n.id].status)
    requires fin[n.id] == Outcome(work, TaskOf(n, fin))
    requires exact ==> TaskOf(n, st) == TaskOf(n, fin)
    requires Outcome(work, TaskOf(n, st)).status == Outcome(work, TaskOf(n, fin)).status
    requires exact && Has(st, n.id, Done) ==> OrEmpty(st[n.id].output) == OrEmpty(fin[n.id].output)
    ensures RanAs(ResumeMode(work, exact, v, st), n, st, st[n.id])
  {
    hide TaskOf;
  }

  lemma SeededNodeFacts(nodes: seq<Node>, work: Worker, fin: map<Id, NodeState>, exact: bool, v: Vault, st: map<Id, NodeState>, n: Node)
    requires WellFormed(nodes) && Plain(nodes) && Solves(nodes, work, fin) && VaultTrue(nodes, fin, exact, v)
    requires !exact ==> PromptBlind(work)
    requires SeedDone(nodes, v, st) && forall m | m in nodes :: SeedFact(m, st, v, fin)
    requires n in nodes
    ensures NodeFacts(ResumeMode(work, exact, v, st), n, st, {}, {})
  {
    hide WellFormed, Solves, VaultTrue, PromptBlind, Held, RanAs;
    assert SeedFact(n, st, v, fin);
    if Has(st, n.id, Done) || Has(st, n.id, Failed) {
      SeededRan(nodes, work, fin, exact, v, st, n);
    }
  }

  lemma SeededFacts(nodes: seq<Node>, work: Worker, fin: map<Id, NodeState>, exact: bool, v: Vault, s: State)
    requires WellFormed(nodes) && Plain(nodes) && Solves(nodes, work, fin) && VaultTrue(nodes, fin, exact, v)
    requires !exact ==> PromptBlind(work)
    requires SeedInv(nodes, v, fin, s) && SeedDone(nodes, v, s.nodeState)
    ensures Facts(nodes, ResumeMode(work, exact, v, s.nodeState), s.nodeState, {}, {})
  {
    hide WellFormed, Plain, Solves, VaultTrue, PromptBlind, SeedDone, SeedFact, SeedCounts, SeedSets, Confirms, NodeFacts;
    forall n | n in nodes
      ensures NodeFacts(ResumeMode(work, exact, v, s.nodeState), n, s.nodeState, {}, {})
    {
      SeededNodeFacts(nodes, work, fin, exact, v, s.nodeState, n);
    }
  }

  // ----- ... the events

  /** The vault holds every Done and every Failed record already. */
  ghost predicate Holds(ids: set<Id>, v: Vault, st: map<Id, NodeState>) {
    && (forall id | id in ids && Has(st, id, Done) :: Recorded(v, id, Done))
    && (forall id | id in ids && Has(st, id, Failed) :: Recorded(v, id, Failed))
  }

  lemma ConfirmSound(nodes: seq<Node>, k: SinkState, st: map<Id, NodeState>, e: Event)
    requires Closed(nodes) && st.Keys == Ids(nodes)
    requires VaultSound(nodes, false, k.vault, st) && Holds(Ids(nodes), k.vault, st) && Confirms(e, st)
    ensures VaultSound(nodes, false, Project(k, e).vault, st) && Holds(Ids(nodes), Project(k, e).vault, st)
  {
    var v' := Project(k, e).vault;
    ConfirmRecords(nodes, k, st, e);
    forall n | n in nodes
      ensures RecordSound(n, false, v', st)
    {
      hide Project, Confirms;
      assert RecordSound(n, false, k.vault, st);
      assert n.id in Ids(nodes);
      assert forall d | d in n.dependsOn :: Edge(n, d);
    }
  }

  /** A confirming event changes no Done or Failed record, and blocks only what is blocked. */
  lemma ConfirmRecords(nodes: seq<Node>, k: SinkState, st: map<Id, NodeState>, e: Event)
    requires VaultSound(nodes, false, k.vault, st) && Holds(Ids(nodes), k.vault, st) && Confirms(e, st) && st.Keys == Ids(nodes)
    ensures forall id | id in Ids(nodes) :: Recorded(Project(k, e).vault, id, Done) <==> Recorded(k.vault, id, Done)
    ensures forall id | id in Ids(nodes) :: Recorded(Project(k, e).vault, id, Failed) <==> Recorded(k.vault, id, Failed)
    ensures forall id | id in Ids(nodes) :: Recorded(Project(k, e).vault, id, Blocked) ==> Recorded(k.vault, id, Blocked) || Has(st, id, Blocked)
  {
    forall id | id in Ids(nodes)
      ensures Recorded(k.vault, id, Done) ==> Has(st, id, Done)
      ensures Recorded(k.vault, id, Failed) ==> Has(st, id, Failed)
    {
      var n :| n in nodes && n.id == id;
      assert RecordSound(n, false, k.vault, st);
    }
  }

  lemma {:induction false} ConfirmAll(nodes: seq<Node>, base: SinkState, st: map<Id, NodeState>, log: seq<Event>)
    requires Closed(nodes) && st.Keys == Ids(nodes)
    requires VaultSound(nodes, false, base.vault, st) && Holds(Ids(nodes), base.vault, st)
    requires forall e | e in log :: Confirms(e, st)
    ensures PrefixesSound(nodes, false, base, log, st)
    ensures VaultSound(nodes, false, Fold(base, log).vault, st) && Holds(Ids(nodes), Fold(base, log).vault, st)
  {
    hide VaultSound, Holds, Confirms, Closed, Project;
    if log != [] {
      var front, last := log[..|log| - 1], log[|log| - 1];
      assert log == front + [last];
      ConfirmAll(nodes, base, st, front);
      ConfirmSound(nodes, Fold(base, front), st, last);
      PrefixesAppend(nodes, false, base, front, last, st);
    }
  }

  lemma BaseSound(nodes: seq<Node>, fin: map<Id, NodeState>, exact: bool, v: Vault, st: map<Id, NodeState>)
    requires Closed(nodes) && VaultTrue(nodes, fin, exact, v) && SeedDone(nodes, v, st)
    ensures VaultSound(nodes, false, v, st) && Holds(Ids(nodes), v, st)
  {
    hide Held;
    forall n | n in nodes
      ensures RecordSound(n, false, v, st)
    {
      assert RecordTrue(n, fin, exact, v);
      assert n.id in Ids(nodes);
    }
  }

  lemma SeededLog(nodes: seq<Node>, work: Worker, fin: map<Id, NodeState>, exact: bool, v: Vault, s: State)
    requires WellFormed(nodes) && VaultTrue(nodes, fin, exact, v)
    requires SeedInv(nodes, v, fin, s) && SeedDone(nodes, v, s.nodeState)
    ensures LogOk(nodes, ResumeMode(work, exact, v, s.nodeState), s.log, s.nodeState)
  {
    hide SeedCounts, SeedFact, SeedSets, SeedDone, VaultTrue, PrefixesSound, VaultSound;
    BaseSound(nodes, fin, exact, v, s.nodeState);
    ConfirmAll(nodes, SinkState(v, false), s.nodeState, s.log);
    assert forall n | n in nodes :: n.id in Ids(nodes);
  }

  /** The states a run can start in from the checkpoint of a vault. */
  ghost predicate ResumesAs(nodes: seq<Node>, v: Vault, s: State) {
    exists done, failed, blocked, order: seq<Id> ::
      var seeded := Cascade(SeedSetsOf(nodes, CheckpointOf(v, false), done, failed, blocked), nodes);
      && Orders(CheckpointOf(v, false), done, failed, blocked)
      && Enumerates(order, ReadyIds(seeded.queue, seeded.terminal))
      && s == Start(seeded, order)
  }

  lemma SeededOk(nodes: seq<Node>, work: Worker, fin: map<Id, NodeState>, exact: bool, v: Vault, seeded: State, order: seq<Id>)
    requires WellFormed(nodes) && Plain(nodes) && Solves(nodes, work, fin) && VaultTrue(nodes, fin, exact, v)
    requires !exact ==> PromptBlind(work)
    requires SeedInv(nodes, v, fin, seeded) && SeedDone(nodes, v, seeded.nodeState)
    requires Enumerates(order, ReadyIds(seeded.queue, seeded.terminal))
    ensures Sound(nodes, ResumeMode(work, exact, v, seeded.nodeState), Start(seeded, order))
  {
    hide WellFormed, Plain, Solves, VaultTrue, PromptBlind, SeedDone, SeedFact, SeedCounts, SeedSets, Confirms, Counts, Facts, Sets, LogOk;
    hide ReadyIds, Enumerates;
    SeededCounts(nodes, seeded, order);
    SeededSets(nodes, seeded, order);
    SeededFacts(nodes, work, fin, exact, v, seeded);
    SeededLog(nodes, work, fin, exact, v, seeded);
  }

  /** Started from a vault with true records, the loop meets its invariant, and blocks no node that could finish. */
  lemma ResumedIsSound(nodes: seq<Node>, work: Worker, fin: map<Id, NodeState>, exact: bool, v: Vault, s: State)
    requires WellFormed(nodes) && Plain(nodes) && Solves(nodes, work, fin) && VaultTrue(nodes, fin, exact, v)
    requires !exact ==> PromptBlind(work)
    requires ResumesAs(nodes, v, s)
    ensures Sound(nodes, ResumeMode(work, exact, v, s.nodeState), s)
    ensures forall n | n in nodes && Has(s.nodeState, n.id, Blocked) :: Held(n, fin)
    ensures forall id | id in Ids(nodes) :: Has(s.nodeState, id, Done) <==> Recorded(v, id, Done)
    ensures s.spawned == []
    ensures forall e | e in s.log :: Confirms(e, s.nodeState)
    ensures forall id | Has(s.nodeState, id, Done) :: NodeDone(id, "", "") in s.log
  {
    hide WellFormed, Plain, Solves, VaultTrue, PromptBlind, Sound, SeedSetsOf, Cascade, Orders, Enumerates, ReadyIds, SeedCounts, Confirms, Held;
    var done, failed, blocked, order: seq<Id> :|
      var seeded := Cascade(SeedSetsOf(nodes, CheckpointOf(v, false), done, failed, blocked), nodes);
      && Orders(CheckpointOf(v, false), done, failed, blocked)
      && Enumerates(order, ReadyIds(seeded.queue, seeded.terminal))
      && s == Start(seeded, order);
    var s0 := SeedSetsOf(nodes, CheckpointOf(v, false), done, failed, blocked);
    var s1 := Cascade(s0, nodes);
    UniqueAndClosed(nodes);
    SeedSetsInv(nodes, v, fin, exact, done, failed, blocked);
    CascadeInv(nodes, work, fin, exact, v, s0, nodes);
    CascadeDone(nodes, v, fin, s0, s1);
    SeededOk(nodes, work, fin, exact, v, s1, order);
    assert forall n | n in nodes :: SeedFact(n, s1.nodeState, v, fin);
  }

  lemma UniqueAndClosed(nodes: seq<Node>)
    requires WellFormed(nodes)
    ensures UniqueIds(nodes) && Closed(nodes)
  {
  }
}
