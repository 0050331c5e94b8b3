/** The transitive skip cascade and the notification of a finished node's dependents. */
module LoopSkip {
  import opened Dag
  import opened Events
  import opened Loop
  import opened LoopInvariant
  import opened LoopFacts
  import opened LoopLog
  import opened LoopSteps

  lemma QueueInv(nodes: seq<Node>, mode: Mode, s: State, q: Queue, owed: multiset<Id>, owed': multiset<Id>, toBlock: set<Id>, toSkip: set<Id>)
    requires Inv(nodes, mode, s, owed, toBlock, toSkip)
    requires Counts(nodes, s.nodeState, q, owed', multiset{}) && Grown(s.queue, q)
    ensures Inv(nodes, mode, s.(queue := q), owed', toBlock, toSkip)
    ensures Extends(s, s.(queue := q))
  {
    GrownQueue(s.queue, q, s.running.Keys, s.terminal);
  }

  lemma GrownTransitive(a: Queue, b: Queue, c: Queue)
    requires Grown(a, b) && Grown(b, c)
    ensures Grown(a, c)
  {
  }

  /** What is owed to a node that is no longer pending need not be paid. */
  lemma DropOwed(nodes: seq<Node>, st: map<Id, NodeState>, q: Queue, owed: multiset<Id>, g: Id)
    requires Counts(nodes, st, q, owed + multiset{g}, multiset{})
    requires !Has(st, g, Pending)
    ensures Counts(nodes, st, q, owed, multiset{})
  {
    forall n | n in nodes
      ensures Counted(n, st, q, owed[n.id], 0)
    {
      assert Counted(n, st, q, (owed + multiset{g})[n.id], 0);
    }
  }

  lemma {:induction false} SkipNotifyCounts(nodes: seq<Node>, st: map<Id, NodeState>, q: Queue, id: Id, deps: seq<Id>, owed: multiset<Id>)
    requires UniqueIds(nodes) && st.Keys == Ids(nodes)
    requires forall k | k in deps :: k in Ids(nodes)
    requires Counts(nodes, st, q, owed + multiset(Kind(nodes, id, deps, false)), multiset{})
    ensures Counts(nodes, st, SkipNotify(nodes, st, q, id, deps), owed, multiset{})
    ensures Grown(q, SkipNotify(nodes, st, q, id, deps))
    decreases deps
  {
    hide Counts, Grown, ReleaseDep, GetNode;
    if deps == [] {
      assert owed + multiset(Kind(nodes, id, deps, false)) == owed;
      GrownSelf(q);
    } else {
      var g := deps[0];
      assert g in deps;
      var rest := Kind(nodes, id, deps[1..], false);
      if IsGatedOn(nodes, g, id) {
        assert Kind(nodes, id, deps, false) == rest;
        SkipNotifyCounts(nodes, st, q, id, deps[1..], owed);
      } else {
        assert Kind(nodes, id, deps, false) == [g] + rest;
        assert owed + multiset([g] + rest) == owed + multiset(rest) + multiset{g};
        if StatusOf(st, g) == Pending {
          var n :| n in nodes && n.id == g;
          ReleaseDepCounts(nodes, st, q, n, owed + multiset(rest));
          SkipNotifyCounts(nodes, st, ReleaseDep(q, g), id, deps[1..], owed);
          GrownTransitive(q, ReleaseDep(q, g), SkipNotify(nodes, st, q, id, deps));
        } else {
          DropOwed(nodes, st, q, owed + multiset(rest), g);
          SkipNotifyCounts(nodes, st, q, id, deps[1..], owed);
        }
      }
    }
  }

  lemma GrownSelf(q: Queue)
    ensures Grown(q, q)
  {
  }

  /** Pending fix nodes of a skipped node are all pushed. */
  lemma {:induction false} PushesAreFixNodes(nodes: seq<Node>, st: map<Id, NodeState>, id: Id, deps: seq<Id>)
    requires forall k | k in Kind(nodes, id, deps, true) :: StatusOf(st, k) == Pending
    ensures SkipPushes(nodes, st, id, deps) == Kind(nodes, id, deps, true)
  {
    if deps != [] {
      PushesAreFixNodes(nodes, st, id, deps[1..]);
    }
  }

  /** A node whose fix condition became false: it is a fix node of a Done node. */
  ghost predicate Closing(nodes: seq<Node>, st: map<Id, NodeState>, k: Id) {
    exists n, d :: n in nodes && n.id == k && d in n.dependsOn && GatedOn(n, d) && Has(st, d, Done)
  }

  /** The stack holds fix nodes of Done nodes; those not yet processed are still pending. */
  ghost predicate SkipOk(nodes: seq<Node>, s: State, stack: seq<Id>, processed: set<Id>, later: set<Id>, source: Id) {
    && (forall k | k in stack :: k in Ids(nodes) && Closing(nodes, s.nodeState, k) && k !in later)
    && (forall k | k in processed :: Over(s.nodeState, k))
    && Over(s.nodeState, source)
    && (forall k | k in later :: IsGatedOn(nodes, k, source))
  }

  function Waiting(stack: seq<Id>, processed: set<Id>): set<Id> {
    set k | k in stack && k !in processed
  }

  function Fixes(nodes: seq<Node>, id: Id): set<Id> {
    var fixes := Kind(nodes, id, Dependents(nodes, id), true);
    set k | k in fixes
  }

  /** A skipped node becomes Done; its fix nodes are now to be skipped, its other dependents to be released. */
  lemma SkipMark(nodes: seq<Node>, mode: Mode, s: State, n: Node, owed: multiset<Id>, toSkip: set<Id>)
    requires WellFormed(nodes) && ModeOk(nodes, mode) && n in nodes
    requires Inv(nodes, mode, s, owed, {}, toSkip) && n.id in toSkip && Closing(nodes, s.nodeState, n.id)
    ensures var s1 := SkipOne(nodes, s, n.id);
      && s1.nodeState == s.nodeState[n.id := SKIPPED]
      && Inv(nodes, mode, s1, owed + multiset(Kind(nodes, n.id, Dependents(nodes, n.id), false)), {}, toSkip - {n.id} + Fixes(nodes, n.id))
      && Extends(s, s1)
  {
    hide Counts, LogOk, Sets, Facts, Settle, Extends, WellFormed, ModeOk, GateClosed, Closing;
    PendingToSkip(nodes, mode, s, owed, toSkip, n.id);
    SkippedIsJustified(nodes, mode, s, n, owed, toSkip);
    SettleInv(nodes, mode, s, n, SKIPPED, NodeDone(n.id, "", ""), owed, {}, toSkip);
    SettleLog(nodes, s, n.id, SKIPPED, NodeDone(n.id, "", ""));
    assert {} - {n.id} + BlockedBy(nodes, n.id, Done) == {};
  }

  lemma PendingToSkip(nodes: seq<Node>, mode: Mode, s: State, owed: multiset<Id>, toSkip: set<Id>, id: Id)
    requires Core(nodes, mode, s, owed, {}, toSkip) && id in toSkip
    ensures Has(s.nodeState, id, Pending) && id !in s.terminal
  {
  }

  lemma SkippedIsJustified(nodes: seq<Node>, mode: Mode, s: State, n: Node, owed: multiset<Id>, toSkip: set<Id>)
    requires WellFormed(nodes) && n in nodes
    requires Core(nodes, mode, s, owed, {}, toSkip)
    requires Has(s.nodeState, n.id, Pending) && Closing(nodes, s.nodeState, n.id)
    ensures JustifiedAs(mode, n, s.nodeState, SKIPPED)
    ensures n.id !in s.queue.enqueued
  {
    hide Counts, Facts, Sets;
    var m, d :| m in nodes && m.id == n.id && d in m.dependsOn && GatedOn(m, d) && Has(s.nodeState, d, Done);
    SameNode(nodes, m, n);
    assert GateClosed(n, s.nodeState);
    NotQueued(nodes, s.nodeState, s.queue, owed, n, d);
  }

  /** The dependents of a skipped node. */
  lemma SkipSpread(nodes: seq<Node>, mode: Mode, s: State, id: Id, owed: multiset<Id>, toSkip: set<Id>)
    requires WellFormed(nodes) && Fixes(nodes, id) <= toSkip
    requires Inv(nodes, mode, s, owed + multiset(Kind(nodes, id, Dependents(nodes, id), false)), {}, toSkip)
    ensures var deps := Dependents(nodes, id);
      var s' := s.(queue := SkipNotify(nodes, s.nodeState, s.queue, id, deps));
      && Inv(nodes, mode, s', owed, {}, toSkip)
      && Extends(s, s')
      && SkipPushes(nodes, s.nodeState, id, deps) == Kind(nodes, id, deps, true)
  {
    hide Counts, LogOk, Grown, NodeFacts, Extends, Sets;
    var deps := Dependents(nodes, id);
    SkipNotifyCounts(nodes, s.nodeState, s.queue, id, deps, owed);
    QueueInv(nodes, mode, s, SkipNotify(nodes, s.nodeState, s.queue, id, deps), owed + multiset(Kind(nodes, id, deps, false)), owed, {}, toSkip);
    forall k | k in Kind(nodes, id, deps, true)
      ensures StatusOf(s.nodeState, k) == Pending
    {
      assert k in Fixes(nodes, id);
      assert Has(s.nodeState, k, Pending);
    }
    PushesAreFixNodes(nodes, s.nodeState, id, deps);
  }

  lemma ClosingStays(nodes: seq<Node>, st: map<Id, NodeState>, x: Id, k: Id)
    requires Closing(nodes, st, k) && Has(st, x, Pending)
    ensures Closing(nodes, st[x := SKIPPED], k)
  {
    var n, d :| n in nodes && n.id == k && d in n.dependsOn && GatedOn(n, d) && Has(st, d, Done);
    assert Has(st[x := SKIPPED], d, Done);
  }

  lemma FixesAreClosing(nodes: seq<Node>, st: map<Id, NodeState>, x: Id, k: Id)
    requires UniqueIds(nodes) && k in Fixes(nodes, x)
    ensures k in Ids(nodes) && Closing(nodes, st[x := SKIPPED], k)
    ensures IsGatedOn(nodes, k, x)
  {
    assert k in Kind(nodes, x, Dependents(nodes, x), true);
    var n :| n in nodes && n.id == k;
    KindHas(nodes, x, true, n);
    assert Has(st[x := SKIPPED], x, Done);
  }

  lemma IsGatedOnOne(nodes: seq<Node>, k: Id, x: Id, y: Id)
    requires IsGatedOn(nodes, k, x) && IsGatedOn(nodes, k, y)
    ensures x == y
  {
    GateNamesOne(GetNode(nodes, k).value, x, y);
  }

  /** The obligations after one turn of the cascade. */
  lemma SkipOkStep(nodes: seq<Node>, s: State, s': State, stack: seq<Id>, processed: set<Id>, later: set<Id>, source: Id, id: Id, pushes: seq<Id>)
    requires UniqueIds(nodes) && SkipOk(nodes, s, stack, processed, later, source)
    requires stack != [] && stack[|stack| - 1] == id && Has(s.nodeState, id, Pending)
    requires s'.nodeState == s.nodeState[id := SKIPPED]
    requires forall k :: k in pushes <==> k in Fixes(nodes, id)
    ensures SkipOk(nodes, s', stack[..|stack| - 1] + pushes, processed + {id}, later, source)
  {
    hide Closing, IsGatedOn, Fixes, UniqueIds, Ids;
    forall k | k in stack[..|stack| - 1] + pushes
      ensures k in Ids(nodes) && Closing(nodes, s'.nodeState, k) && k !in later
    {
      if k in pushes {
        FixesAreClosing(nodes, s.nodeState, id, k);
        if k in later {
          IsGatedOnOne(nodes, k, id, source);
        }
      } else {
        assert k in stack;
        ClosingStays(nodes, s.nodeState, id, k);
      }
    }
  }

  /** What is left to skip after one turn: nothing new but the pushed fix nodes. */
  lemma WaitingStep(stack: seq<Id>, processed: set<Id>, later: set<Id>, id: Id, pushes: seq<Id>, fixes: set<Id>)
    requires stack != [] && stack[|stack| - 1] == id && id !in later
    requires forall k :: k in pushes <==> k in fixes
    requires processed + {id} !! fixes
    ensures later + Waiting(stack, processed) - {id} + fixes == later + Waiting(stack[..|stack| - 1] + pushes, processed + {id})
  {
    assert stack == stack[..|stack| - 1] + [id];
  }

  lemma WaitingPop(stack: seq<Id>, processed: set<Id>)
    requires stack != [] && stack[|stack| - 1] in processed
    ensures Waiting(stack[..|stack| - 1], processed) == Waiting(stack, processed)
  {
    assert stack == stack[..|stack| - 1] + [stack[|stack| - 1]];
  }

  lemma {:induction false} SkipInv(nodes: seq<Node>, mode: Mode, s: State, stack: seq<Id>, processed: set<Id>, owed: multiset<Id>, later: set<Id>, source: Id)
    requires WellFormed(nodes) && ModeOk(nodes, mode)
    requires SkipOk(nodes, s, stack, processed, later, source)
    requires Inv(nodes, mode, s, owed, {}, later + Waiting(stack, processed))
    ensures Inv(nodes, mode, Skip(nodes, s, stack, processed), owed, {}, later)
    ensures Extends(s, Skip(nodes, s, stack, processed))
    decreases Ids(nodes) - processed, |stack|
  {
    hide Inv, WellFormed, ModeOk, Closing, Extends, SkipTurn, SkipPushes;
    if stack == [] {
      assert later + Waiting(stack, processed) == later;
      ExtendsSelf(s);
    } else {
      var id := stack[|stack| - 1];
      var rest := stack[..|stack| - 1];
      assert id in stack;
      if id in processed {
        WaitingPop(stack, processed);
        SkipInv(nodes, mode, s, rest, processed, owed, later, source);
      } else {
        TurnOk(nodes, mode, s, stack, processed, owed, later, source);
        var s' := SkipTurn(nodes, s, id);
        SkipInv(nodes, mode, s', rest + SkipPushes(nodes, s'.nodeState, id, Dependents(nodes, id)), processed + {id}, owed, later, source);
        ExtendsTransitive(s, s', Skip(nodes, s, stack, processed));
      }
    }
  }

  lemma ExtendsSelf(s: State)
    ensures Extends(s, s)
  {
  }

  lemma TurnInv(nodes: seq<Node>, mode: Mode, s: State, id: Id, owed: multiset<Id>, toSkip: set<Id>)
    requires WellFormed(nodes) && ModeOk(nodes, mode)
    requires Inv(nodes, mode, s, owed, {}, toSkip) && id in toSkip && id in Ids(nodes) && Closing(nodes, s.nodeState, id)
    ensures var s' := SkipTurn(nodes, s, id);
      && Inv(nodes, mode, s', owed, {}, toSkip - {id} + Fixes(nodes, id))
      && Extends(s, s')
      && Has(s.nodeState, id, Pending) && s'.nodeState == s.nodeState[id := SKIPPED]
      && SkipPushes(nodes, s'.nodeState, id, Dependents(nodes, id)) == Kind(nodes, id, Dependents(nodes, id), true)
  {
    hide Inv, WellFormed, ModeOk, Closing, Extends, SkipOne, SkipNotify, SkipPushes;
    var n :| n in nodes && n.id == id;
    InvPending(nodes, mode, s, owed, toSkip, id);
    SkipMark(nodes, mode, s, n, owed, toSkip);
    var s1 := SkipOne(nodes, s, id);
    SkipSpread(nodes, mode, s1, id, owed, toSkip - {id} + Fixes(nodes, id));
    ExtendsTransitive(s, s1, SkipTurn(nodes, s, id));
  }

  lemma InvPending(nodes: seq<Node>, mode: Mode, s: State, owed: multiset<Id>, toSkip: set<Id>, id: Id)
    requires Inv(nodes, mode, s, owed, {}, toSkip) && id in toSkip
    ensures Has(s.nodeState, id, Pending)
  {
    hide Counts, LogOk, Sets;
  }

  lemma TurnOk(nodes: seq<Node>, mode: Mode, s: State, stack: seq<Id>, processed: set<Id>, owed: multiset<Id>, later: set<Id>, source: Id)
    requires WellFormed(nodes) && ModeOk(nodes, mode)
    requires SkipOk(nodes, s, stack, processed, later, source)
    requires Inv(nodes, mode, s, owed, {}, later + Waiting(stack, processed))
    requires stack != [] && stack[|stack| - 1] !in processed
    ensures var id := stack[|stack| - 1];
      var s' := SkipTurn(nodes, s, id);
      var stack' := stack[..|stack| - 1] + SkipPushes(nodes, s'.nodeState, id, Dependents(nodes, id));
      && SkipOk(nodes, s', stack', processed + {id}, later, source)
      && Inv(nodes, mode, s', owed, {}, later + Waiting(stack', processed + {id}))
      && Extends(s, s')
  {
    hide Inv, ModeOk, Closing, Extends, SkipTurn, SkipPushes;
    var id := stack[|stack| - 1];
    var toSkip := later + Waiting(stack, processed);
    assert id in stack && id in toSkip;
    TurnInv(nodes, mode, s, id, owed, toSkip);
    var s' := SkipTurn(nodes, s, id);
    var pushes := SkipPushes(nodes, s'.nodeState, id, Dependents(nodes, id));
    SkipOkStep(nodes, s, s', stack, processed, later, source, id, pushes);
    FixesNotProcessed(nodes, mode, s, s', stack, processed, owed, later, source, toSkip);
    WaitingStep(stack, processed, later, id, pushes, Fixes(nodes, id));
  }

  lemma FixesNotProcessed(nodes: seq<Node>, mode: Mode, s: State, s': State, stack: seq<Id>, processed: set<Id>, owed: multiset<Id>, later: set<Id>, source: Id, toSkip: set<Id>)
    requires SkipOk(nodes, s, stack, processed, later, source)
    requires stack != [] && Has(s.nodeState, stack[|stack| - 1], Pending)
    requires s'.nodeState == s.nodeState[stack[|stack| - 1] := SKIPPED]
    requires Inv(nodes, mode, s', owed, {}, toSkip - {stack[|stack| - 1]} + Fixes(nodes, stack[|stack| - 1]))
    ensures processed + {stack[|stack| - 1]} !! Fixes(nodes, stack[|stack| - 1])
  {
    hide Inv, Fixes, Closing;
    var id := stack[|stack| - 1];
    forall k | k in Fixes(nodes, id)
      ensures k !in processed + {id}
    {
      InvPending(nodes, mode, s', owed, toSkip - {id} + Fixes(nodes, id), k);
    }
  }
}
