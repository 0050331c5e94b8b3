/** A finished task and the dependents it releases, skips or blocks. */
module LoopNotify {
  import opened Dag
  import opened Events
  import opened Loop
  import opened LoopInvariant
  import opened LoopFacts
  import opened LoopLog
  import opened LoopSteps
  import opened LoopSkip

  // ----- Blocking

  /** A settled node needs no blocking, and an obligation that costs nothing may be added. */
  lemma ChangeBlocks(nodes: seq<Node>, mode: Mode, s: State, owed: multiset<Id>, toBlock: set<Id>, toBlock': set<Id>, k: Id)
    requires Inv(nodes, mode, s, owed, toBlock, {})
    requires Over(s.nodeState, k)
    requires forall j | j != k :: j in toBlock <==> j in toBlock'
    requires k in toBlock' ==> AfterDependents(nodes, k) == []
    ensures Inv(nodes, mode, s, owed, toBlock', {})
  {
    hide Counts, LogOk, Sets, JustifiedAs, SourceFailed, GateClosed;
    forall n | n in nodes
      ensures NodeFacts(mode, n, s.nodeState, toBlock', {})
    {
      assert NodeFacts(mode, n, s.nodeState, toBlock, {});
    }
  }

  lemma BlockPending(nodes: seq<Node>, mode: Mode, s: State, n: Node, x: Id, owed: multiset<Id>, toBlock: set<Id>)
    requires WellFormed(nodes) && ModeOk(nodes, mode) && n in nodes
    requires Inv(nodes, mode, s, owed, toBlock, {})
    requires Has(s.nodeState, n.id, Pending) && x in n.dependsOn && !GatedOn(n, x) && Has(s.nodeState, x, Failed)
    ensures Inv(nodes, mode, Block(nodes, s, n.id), owed, toBlock - {n.id}, {})
    ensures Extends(s, Block(nodes, s, n.id)) && Has(Block(nodes, s, n.id).nodeState, n.id, Blocked)
  {
    hide Counts, LogOk, Sets, Settle, WellFormed, ModeOk, Extends;
    assert SourceFailed(n, s.nodeState);
    NotQueued(nodes, s.nodeState, s.queue, owed, n, x);
    assert NodeFacts(mode, n, s.nodeState, toBlock, {});
    SettleInv(nodes, mode, s, n, BLOCKED, NodeBlocked(n.id), owed, toBlock, {});
    SettleLog(nodes, s, n.id, BLOCKED, NodeBlocked(n.id));
    assert owed + multiset(ReleasedBy(nodes, n.id, Blocked)) == owed;
    assert toBlock - {n.id} + BlockedBy(nodes, n.id, Blocked) == toBlock - {n.id};
    assert {} - {n.id} + SkippedBy(nodes, n.id, Blocked) == {};
  }

  /** A node that a failed source would block but that is terminal already is a blocked one. */
  lemma AlreadyBlocked(mode: Mode, nodes: seq<Node>, n: Node, st: map<Id, NodeState>, x: Id)
    requires WellFormed(nodes) && n in nodes
    requires Over(st, n.id) && JustifiedAs(mode, n, st, st[n.id])
    requires x in n.dependsOn && !GatedOn(n, x) && Has(st, x, Failed)
    ensures st[n.id].status == Blocked
  {
    NoneUnreleased(n, st, n.dependsOn);
  }

  lemma BlockTerminal(nodes: seq<Node>, mode: Mode, s: State, n: Node, x: Id, owed: multiset<Id>, toBlock: set<Id>)
    requires WellFormed(nodes) && n in nodes
    requires Inv(nodes, mode, s, owed, toBlock, {}) && n.id in toBlock
    requires Over(s.nodeState, n.id) && x in n.dependsOn && !GatedOn(n, x) && Has(s.nodeState, x, Failed)
    ensures Inv(nodes, mode, Block(nodes, s, n.id), owed, toBlock, {})
    ensures Extends(s, Block(nodes, s, n.id)) && Has(Block(nodes, s, n.id).nodeState, n.id, Blocked)
  {
    hide Counts, LogOk, Facts, Sets, WellFormed, Block;
    BlockedBefore(nodes, mode, s, n, x, owed, toBlock);
    UniqueOf(nodes);
    BlockAgainLog(nodes, mode, s.log, s.nodeState, n);
    BlockIsNote(nodes, s, n.id);
    SetsOfNote(nodes, s, s.log + [NodeBlocked(n.id)]);
  }

  lemma UniqueOf(nodes: seq<Node>)
    requires WellFormed(nodes)
    ensures UniqueIds(nodes)
  {
  }

  lemma SetsOfNote(nodes: seq<Node>, s: State, log: seq<Event>)
    requires Sets(nodes, s)
    ensures Sets(nodes, s.(log := log))
  {
    hide Dispatched, OrderOk, QueueOk, TerminalSet;
  }

  lemma BlockedBefore(nodes: seq<Node>, mode: Mode, s: State, n: Node, x: Id, owed: multiset<Id>, toBlock: set<Id>)
    requires WellFormed(nodes) && n in nodes
    requires Inv(nodes, mode, s, owed, toBlock, {}) && n.id in toBlock
    requires Over(s.nodeState, n.id) && x in n.dependsOn && !GatedOn(n, x) && Has(s.nodeState, x, Failed)
    ensures Has(s.nodeState, n.id, Blocked) && AfterDependents(nodes, n.id) == []
    ensures n.id in s.terminal && n.id in s.terminalOrder
  {
    hide Counts, LogOk, JustifiedAs, WellFormed;
    assert NodeFacts(mode, n, s.nodeState, toBlock, {});
    AlreadyBlocked(mode, nodes, n, s.nodeState, x);
  }

  lemma BlockIsNote(nodes: seq<Node>, s: State, id: Id)
    requires Has(s.nodeState, id, Blocked) && id in s.terminal && id in s.terminalOrder && AfterDependents(nodes, id) == []
    ensures Block(nodes, s, id) == Emit(s, NodeBlocked(id))
  {
    assert s.nodeState[id].(status := Blocked) == s.nodeState[id];
    assert s.nodeState[id := s.nodeState[id]] == s.nodeState;
    assert s.terminal + {id} == s.terminal;
  }

  // ----- Notification

  function Todo(nodes: seq<Node>, x: Id, list: seq<Id>, status: Status): set<Id> {
    var kind := Kind(nodes, x, list, status == Done);
    set k | k in kind
  }

  function ToBlock(nodes: seq<Node>, x: Id, list: seq<Id>, status: Status): set<Id> {
    if status == Failed then Todo(nodes, x, list, status) else {}
  }

  function ToSkip(nodes: seq<Node>, x: Id, list: seq<Id>, status: Status): set<Id> {
    if status == Done then Todo(nodes, x, list, status) else {}
  }

  function Owed(nodes: seq<Node>, x: Id, list: seq<Id>, status: Status): multiset<Id> {
    multiset(Kind(nodes, x, list, status == Failed))
  }

  /** The list names dependents of `x`, none more often than it lists `x`. */
  ghost predicate DependentList(nodes: seq<Node>, x: Id, list: seq<Id>) {
    && (forall k | k in list :: k in Ids(nodes))
    && forall n | n in nodes :: multiset(list)[n.id] <= multiset(n.dependsOn)[x]
  }

  lemma DependentTail(nodes: seq<Node>, x: Id, list: seq<Id>)
    requires DependentList(nodes, x, list) && list != []
    ensures DependentList(nodes, x, list[1..])
  {
    assert list == [list[0]] + list[1..];
    forall n | n in nodes
      ensures multiset(list[1..])[n.id] <= multiset(n.dependsOn)[x]
    {
      assert multiset(list)[n.id] <= multiset(n.dependsOn)[x];
    }
  }

  /** A node that is still listed after one of its entries lists `x` twice. */
  lemma ListedTwice(nodes: seq<Node>, x: Id, list: seq<Id>, n: Node)
    requires DependentList(nodes, x, list) && list != [] && n in nodes && n.id == list[0]
    ensures x in n.dependsOn
    ensures n.id in list[1..] ==> |n.dependsOn| > 1
  {
    assert list == [list[0]] + list[1..];
    assert multiset(list)[n.id] <= multiset(n.dependsOn)[x];
    Multiplicity(n.dependsOn, x);
    if n.id in list[1..] {
      assert multiset(list[1..])[n.id] >= 1;
    }
  }

  lemma {:induction false} Multiplicity(s: seq<Id>, x: Id)
    ensures multiset(s)[x] <= |s|
  {
    if s != [] {
      assert s == [s[0]] + s[1..];
      Multiplicity(s[1..], x);
    }
  }

  lemma KindHead(nodes: seq<Node>, x: Id, list: seq<Id>, gated: bool)
    requires list != []
    ensures Kind(nodes, x, list, gated)
         == (if IsGatedOn(nodes, list[0], x) == gated then [list[0]] + Kind(nodes, x, list[1..], gated) else Kind(nodes, x, list[1..], gated))
  {
  }

  lemma HeadTodo(nodes: seq<Node>, x: Id, list: seq<Id>, status: Status)
    requires list != [] && (status == Done || status == Failed) && IsGatedOn(nodes, list[0], x) == (status == Done)
    ensures Owed(nodes, x, list, status) == Owed(nodes, x, list[1..], status)
    ensures Todo(nodes, x, list, status) == Todo(nodes, x, list[1..], status) + {list[0]}
  {
    hide Kind;
    KindHead(nodes, x, list, true);
    KindHead(nodes, x, list, false);
  }

  lemma HeadOwed(nodes: seq<Node>, x: Id, list: seq<Id>, status: Status)
    requires list != [] && (status == Done || status == Failed) && IsGatedOn(nodes, list[0], x) != (status == Done)
    ensures Owed(nodes, x, list, status) == Owed(nodes, x, list[1..], status) + multiset{list[0]}
    ensures Todo(nodes, x, list, status) == Todo(nodes, x, list[1..], status)
  {
    hide Kind;
    KindHead(nodes, x, list, true);
    KindHead(nodes, x, list, false);
  }

  lemma NotifyBlock(nodes: seq<Node>, mode: Mode, s: State, x: Id, list: seq<Id>)
    requires WellFormed(nodes) && ModeOk(nodes, mode)
    requires DependentList(nodes, x, list) && list != [] && Has(s.nodeState, x, Failed) && !IsGatedOn(nodes, list[0], x)
    requires Inv(nodes, mode, s, Owed(nodes, x, list, Failed), ToBlock(nodes, x, list, Failed), {})
    ensures Inv(nodes, mode, Block(nodes, s, list[0]), Owed(nodes, x, list[1..], Failed), ToBlock(nodes, x, list[1..], Failed), {})
    ensures Extends(s, Block(nodes, s, list[0]))
  {
    hide Inv, WellFormed, ModeOk, Block, Extends, DependentList, Owed, Todo;
    var k := list[0];
    assert k in Ids(nodes) by {
      ListedIds(nodes, x, list);
    }
    var n :| n in nodes && n.id == k;
    OwnGate(nodes, n, x);
    ListedTwice(nodes, x, list, n);
    var owed, toBlock := Owed(nodes, x, list, Failed), ToBlock(nodes, x, list, Failed);
    HeadTodo(nodes, x, list, Failed);
    if Has(s.nodeState, k, Pending) {
      BlockPending(nodes, mode, s, n, x, owed, toBlock);
      BlockDone(nodes, mode, Block(nodes, s, k), x, list, n, owed, toBlock - {k});
    } else {
      NotPending(nodes, mode, s, owed, toBlock, n);
      BlockTerminal(nodes, mode, s, n, x, owed, toBlock);
      BlockDone(nodes, mode, Block(nodes, s, k), x, list, n, owed, toBlock);
    }
  }

  lemma ListedIds(nodes: seq<Node>, x: Id, list: seq<Id>)
    requires DependentList(nodes, x, list)
    ensures forall k | k in list :: k in Ids(nodes)
  {
  }

  lemma OwnGate(nodes: seq<Node>, n: Node, x: Id)
    requires WellFormed(nodes) && n in nodes
    ensures IsGatedOn(nodes, n.id, x) == GatedOn(n, x)
  {
    GetOwnNode(nodes, n);
  }

  lemma NotPending(nodes: seq<Node>, mode: Mode, s: State, owed: multiset<Id>, toBlock: set<Id>, n: Node)
    requires Inv(nodes, mode, s, owed, toBlock, {}) && n in nodes && !Has(s.nodeState, n.id, Pending)
    ensures Over(s.nodeState, n.id)
  {
    assert NodeFacts(mode, n, s.nodeState, toBlock, {});
  }

  lemma BlockDone(nodes: seq<Node>, mode: Mode, s: State, x: Id, list: seq<Id>, n: Node, owed: multiset<Id>, toBlock: set<Id>)
    requires WellFormed(nodes) && ModeOk(nodes, mode) && n in nodes
    requires list != [] && n.id == list[0] && (n.id in list[1..] ==> |n.dependsOn| > 1)
    requires Inv(nodes, mode, s, owed, toBlock, {}) && Has(s.nodeState, n.id, Blocked)
    requires forall j | j != n.id :: j in toBlock <==> j in ToBlock(nodes, x, list[1..], Failed)
    ensures Inv(nodes, mode, s, owed, ToBlock(nodes, x, list[1..], Failed), {})
  {
    hide Inv, WellFormed;
    if n.id in ToBlock(nodes, x, list[1..], Failed) {
      NobodyAfter(nodes, mode, n);
    }
    ChangeBlocks(nodes, mode, s, owed, toBlock, ToBlock(nodes, x, list[1..], Failed), n.id);
  }

  lemma NotifySkip(nodes: seq<Node>, mode: Mode, s: State, x: Id, list: seq<Id>)
    requires WellFormed(nodes) && ModeOk(nodes, mode)
    requires DependentList(nodes, x, list) && list != [] && Has(s.nodeState, x, Done) && IsGatedOn(nodes, list[0], x)
    requires list[0] in Ids(nodes)
    requires Inv(nodes, mode, s, Owed(nodes, x, list, Done), {}, ToSkip(nodes, x, list, Done))
    ensures Inv(nodes, mode, Skip(nodes, s, [list[0]], {}), Owed(nodes, x, list[1..], Done), {}, ToSkip(nodes, x, list[1..], Done))
    ensures Extends(s, Skip(nodes, s, [list[0]], {}))
  {
    hide Inv, WellFormed, ModeOk, Skip, Extends, DependentList, Owed, Todo;
    var k := list[0];
    var n :| n in nodes && n.id == k;
    var later := ToSkip(nodes, x, list[1..], Done);
    HeadTodo(nodes, x, list, Done);
    assert ToSkip(nodes, x, list, Done) == later + Waiting([k], {});
    NotifySkipOk(nodes, s, x, list, n);
    SkipInv(nodes, mode, s, [k], {}, Owed(nodes, x, list, Done), later, x);
  }

  lemma NotifySkipOk(nodes: seq<Node>, s: State, x: Id, list: seq<Id>, n: Node)
    requires WellFormed(nodes) && n in nodes
    requires DependentList(nodes, x, list) && list != [] && n.id == list[0] && IsGatedOn(nodes, n.id, x) && Has(s.nodeState, x, Done)
    ensures SkipOk(nodes, s, [n.id], {}, ToSkip(nodes, x, list[1..], Done), x)
  {
    OwnGate(nodes, n, x);
    ListedTwice(nodes, x, list, n);
    assert n.dependsOn == [x];
    assert Closing(nodes, s.nodeState, n.id);
  }

  lemma NotifyRelease(nodes: seq<Node>, mode: Mode, s: State, x: Id, list: seq<Id>, status: Status)
    requires WellFormed(nodes) && ModeOk(nodes, mode) && (status == Done || status == Failed)
    requires DependentList(nodes, x, list) && list != [] && IsGatedOn(nodes, list[0], x) != (status == Done)
    requires Inv(nodes, mode, s, Owed(nodes, x, list, status), ToBlock(nodes, x, list, status), ToSkip(nodes, x, list, status))
    ensures var s' := s.(queue := ReleaseDep(s.queue, list[0]));
      && Inv(nodes, mode, s', Owed(nodes, x, list[1..], status), ToBlock(nodes, x, list[1..], status), ToSkip(nodes, x, list[1..], status))
      && Extends(s, s')
  {
    hide Counts, Facts, Sets, LogOk, Extends, ReleaseDep, DependentList, Owed, Todo;
    var k := list[0];
    assert k in Ids(nodes) by {
      ListedIds(nodes, x, list);
    }
    var n :| n in nodes && n.id == k;
    HeadOwed(nodes, x, list, status);
    var rest := Owed(nodes, x, list[1..], status);
    ReleaseDepCounts(nodes, s.nodeState, s.queue, n, rest);
    QueueInv(nodes, mode, s, ReleaseDep(s.queue, k), Owed(nodes, x, list, status), rest, ToBlock(nodes, x, list, status), ToSkip(nodes, x, list, status));
  }

  lemma {:induction false} NotifyInv(nodes: seq<Node>, mode: Mode, s: State, x: Id, list: seq<Id>, status: Status)
    requires WellFormed(nodes) && ModeOk(nodes, mode) && (status == Done || status == Failed)
    requires DependentList(nodes, x, list) && (forall k | k in list :: k in Ids(nodes)) && Has(s.nodeState, x, status)
    requires Inv(nodes, mode, s, Owed(nodes, x, list, status), ToBlock(nodes, x, list, status), ToSkip(nodes, x, list, status))
    ensures Inv(nodes, mode, Notify(nodes, s, x, status, list), multiset{}, {}, {})
    ensures Extends(s, Notify(nodes, s, x, status, list))
    decreases list
  {
    hide Inv, WellFormed, ModeOk, Block, Skip, ReleaseDep, Extends, DependentList;
    if list == [] {
      ExtendsSelf(s);
      assert Owed(nodes, x, list, status) == multiset{};
      assert ToBlock(nodes, x, list, status) == {} && ToSkip(nodes, x, list, status) == {};
    } else {
      assert list[0] in list;
      if IsGatedOn(nodes, list[0], x) != (status == Done) {
        NotifyRelease(nodes, mode, s, x, list, status);
      } else if status == Done {
        NotifySkip(nodes, mode, s, x, list);
      } else {
        NotifyBlock(nodes, mode, s, x, list);
      }
      var s' := NotifyOne(nodes, s, x, status, list[0]);
      assert Has(s'.nodeState, x, status) by {
        HasStays(s, s', x, status);
      }
      DependentTail(nodes, x, list);
      NotifyInv(nodes, mode, s', x, list[1..], status);
      ExtendsTransitive(s, s', Notify(nodes, s, x, status, list));
    }
  }

  lemma HasStays(s: State, s': State, x: Id, status: Status)
    requires Extends(s, s') && Has(s.nodeState, x, status) && IsTerminal(status)
    ensures Has(s'.nodeState, x, status)
  {
  }
}
