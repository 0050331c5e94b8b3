/** What the premises on `after` and on gates are for: the two steps that go wrong without them. */
module Premises {
  import opened Wrappers
  import opened Dag
  import opened Events
  import opened Loop
  import opened LoopInvariant
  import opened LoopFacts
  import opened Workers
  import opened ShellRuns
  import opened Graph
  import Expand
  import FanOut
  import Validate

  lemma {:induction false} ReleaseAftersPending(q: Queue, ids: seq<Id>, x: Id)
    requires x in q.afterPending
    ensures var q' := ReleaseAfters(q, ids);
      var count := multiset(ids)[x];
      && x in q'.afterPending
      && q'.afterPending[x] == if q.afterPending[x] > count then q.afterPending[x] - count else 0
    decreases ids
  {
    if ids != [] {
      assert ids == [ids[0]] + ids[1..];
      ReleaseAftersPending(ReleaseAfter(q, ids[0]), ids[1..], x);
    }
  }

  /** The counter of `n` is the number of unfinished nodes it is ordered after. */
  predicate AfterExact(n: Node, st: map<Id, NodeState>, q: Queue) {
    n.id in q.afterPending && q.afterPending[n.id] == Open(st, n.after)
  }

  /**
   Blocking a node keeps the counter of a node ordered after it exact if and only if the blocked node was
   not already terminal, or the counter had already reached zero.
   */
  lemma BlockKeepsAfterCount(nodes: seq<Node>, s: State, id: Id, n: Node)
    requires UniqueIds(nodes) && n in nodes && id in n.after && id in s.nodeState
    requires AfterExact(n, s.nodeState, s.queue)
    ensures var s' := Block(nodes, s, id);
      AfterExact(n, s'.nodeState, s'.queue) <==> !Over(s.nodeState, id) || s.queue.afterPending[n.id] == 0
  {
    DependentsCount(nodes, id, n);
    ReleaseAftersPending(s.queue, AfterDependents(nodes, id), n.id);
    var ns := s.nodeState[id].(status := Blocked);
    if Over(s.nodeState, id) {
      OpenSame(s.nodeState, id, ns, n.after);
    } else {
      OpenFlip(s.nodeState, id, ns, n.after);
    }
  }

  lemma {:induction false} OpenSame(st: map<Id, NodeState>, x: Id, ns: NodeState, after: seq<Id>)
    requires Over(st, x) && IsTerminal(ns.status)
    ensures Open(st[x := ns], after) == Open(st, after)
  {
    if after != [] {
      OpenSame(st, x, ns, after[1..]);
    }
  }

  /** Blocking leaves every terminal record alone if and only if the blocked node was pending or already blocked. */
  lemma BlockIsStable(nodes: seq<Node>, s: State, id: Id)
    requires id in s.nodeState
    ensures (forall k | Over(s.nodeState, k) :: Block(nodes, s, id).nodeState[k] == s.nodeState[k])
      <==> !Over(s.nodeState, id) || Has(s.nodeState, id, Blocked)
  {
    var st' := Block(nodes, s, id).nodeState;
    if Over(s.nodeState, id) && st'[id] == s.nodeState[id] {
      assert Has(s.nodeState, id, Blocked);
    }
  }

  // ----- A run that meets the second case: a fix node with another dependency

  lemma EntriesOfTwo(p: Id, q: Id, x: Id, id: Id)
    requires p != q
    ensures Entries([], x, id) == [] && Entries([p], x, id) == (if p == x then [id] else [])
    ensures Entries([p, q], x, id) == if p == x || q == x then [id] else []
  {
    assert [p, q][..1] == [p] && [p][..0] == [];
  }

  /** A node with no or one edge of a kind leaves a list alone or starts it. */
  lemma IndexStep(nodes: seq<Node>, last: Node, x: Id)
    ensures x !in last.dependsOn ==> Dependents(nodes + [last], x) == Dependents(nodes, x)
    ensures Dependents(nodes, x) == [] ==> Dependents(nodes + [last], x) == Entries(last.dependsOn, x, last.id)
    ensures x !in last.after ==> AfterDependents(nodes + [last], x) == AfterDependents(nodes, x)
    ensures AfterDependents(nodes, x) == [] ==> AfterDependents(nodes + [last], x) == Entries(last.after, x, last.id)
  {
    hide Dependents, AfterDependents, Entries;
    IndexSnoc(nodes, last, x);
    if x !in last.dependsOn {
      NoEntries(last.dependsOn, x, last.id);
    }
    if x !in last.after {
      NoEntries(last.after, x, last.id);
    }
  }

  lemma IndexSnoc(nodes: seq<Node>, last: Node, x: Id)
    ensures Dependents(nodes + [last], x) == Dependents(nodes, x) + Entries(last.dependsOn, x, last.id)
    ensures AfterDependents(nodes + [last], x) == AfterDependents(nodes, x) + Entries(last.after, x, last.id)
    ensures DepTotal(nodes + [last], x) == DepTotal(nodes, x) + if last.id == x then |last.dependsOn| else 0
    ensures AfterTotal(nodes + [last], x) == if last.id == x && last.after != [] then |last.after| else AfterTotal(nodes, x)
  {
    assert (nodes + [last])[..|nodes|] == nodes;
  }

  function GateGraph(d: Id, e: Id, f: Id): seq<Node> {
    [Bare(d, [], [], None)] + [Bare(e, [], [], None)] + [Bare(f, [d, e], [], Some(d + ":fail"))]
  }

  lemma GateGraphIndex(d: Id, e: Id, f: Id, x: Id)
    requires d != e && d != f && e != f
    ensures var nodes := GateGraph(d, e, f);
      && Dependents(nodes, x) == (if x == d || x == e then [f] else []) && AfterDependents(nodes, x) == []
      && DepTotal(nodes, x) == (if x == f then 2 else 0) && AfterTotal(nodes, x) == 0
  {
    hide Dependents, AfterDependents, DepTotal, AfterTotal, GateGraph;
    GateGraphLists(d, e, f, x);
    GateGraphTotals(d, e, f, x);
  }

  lemma GateGraphLists(d: Id, e: Id, f: Id, x: Id)
    requires d != e && d != f && e != f
    ensures var nodes := GateGraph(d, e, f);
      Dependents(nodes, x) == (if x == d || x == e then [f] else []) && AfterDependents(nodes, x) == []
  {
    hide Dependents, AfterDependents, Entries;
    var g1 := [Bare(d, [], [], None)];
    var g2 := g1 + [Bare(e, [], [], None)];
    EmptyIndex(x);
    EntriesOfTwo(d, e, x, f);
    assert [] + g1 == g1;
    IndexStep([], Bare(d, [], [], None), x);
    IndexStep(g1, Bare(e, [], [], None), x);
    IndexStep(g2, Bare(f, [d, e], [], Some(d + ":fail")), x);
  }

  lemma GateGraphTotals(d: Id, e: Id, f: Id, x: Id)
    requires d != e && d != f && e != f
    ensures var nodes := GateGraph(d, e, f);
      DepTotal(nodes, x) == (if x == f then 2 else 0) && AfterTotal(nodes, x) == 0
  {
    hide DepTotal, AfterTotal, Dependents, AfterDependents, Entries;
    var g1 := [Bare(d, [], [], None)];
    var g2 := g1 + [Bare(e, [], [], None)];
    EmptyIndex(x);
    assert [] + g1 == g1;
    IndexSnoc([], Bare(d, [], [], None), x);
    IndexSnoc(g1, Bare(e, [], [], None), x);
    IndexSnoc(g2, Bare(f, [d, e], [], Some(d + ":fail")), x);
  }

  lemma GateGraphNodes(d: Id, e: Id, f: Id)
    requires d != e && d != f && e != f
    ensures var nodes := GateGraph(d, e, f);
      && UniqueIds(nodes) && Ids(nodes) == {d, e, f}
      && GetNode(nodes, d) == Some(nodes[0]) && GetNode(nodes, e) == Some(nodes[1]) && GetNode(nodes, f) == Some(nodes[2])
      && IsGatedOn(nodes, f, d) && !IsGatedOn(nodes, f, e)
  {
    var nodes := GateGraph(d, e, f);
    assert nodes[0].id == d && nodes[1].id == e && nodes[2].id == f;
    GetOwnNode(nodes, nodes[0]);
    GetOwnNode(nodes, nodes[1]);
    GetOwnNode(nodes, nodes[2]);
    if GatedOn(nodes[2], e) {
      GateNamesOne(nodes[2], d, e);
    }
  }

  /** All that the run below looks at in the graph. */
  ghost predicate GateShaped(nodes: seq<Node>, d: Id, e: Id, f: Id) {
    && d != e && d != f && e != f && Ids(nodes) == {d, e, f}
    && DepTotal(nodes, d) == 0 && DepTotal(nodes, e) == 0 && DepTotal(nodes, f) > 0
    && (forall x | x in Ids(nodes) :: AfterTotal(nodes, x) == 0 && AfterDependents(nodes, x) == [])
    && Dependents(nodes, d) == [f] && Dependents(nodes, e) == [f] && Dependents(nodes, f) == []
    && GetNode(nodes, d) == Some(Bare(d, [], [], None)) && GetNode(nodes, e) == Some(Bare(e, [], [], None))
    && IsGatedOn(nodes, f, d) && !IsGatedOn(nodes, f, e)
  }

  lemma GateGraphShaped(d: Id, e: Id, f: Id)
    requires d != e && d != f && e != f
    ensures GateShaped(GateGraph(d, e, f), d, e, f)
  {
    hide GateGraph, Dependents, AfterDependents, DepTotal, AfterTotal, IsGatedOn, GetNode;
    GateGraphNodes(d, e, f);
    GateShape(d, e, f);
    GateGraphIndex(d, e, f, d);
    GateGraphIndex(d, e, f, e);
    GateGraphIndex(d, e, f, f);
  }

  lemma OnlyTheseReady(nodes: seq<Node>, d: Id, e: Id, f: Id)
    requires GateShaped(nodes, d, e, f)
    ensures Enumerates([d, e], ReadyIds(Blank(nodes).queue, {}))
  {
    hide DepTotal, AfterTotal, Dependents, AfterDependents, IsGatedOn, GetNode;
    assert ReadyIds(Blank(nodes).queue, {}) == {d, e};
  }

  lemma TwoReady(nodes: seq<Node>, d: Id, e: Id, f: Id) returns (s0: State)
    requires GateShaped(nodes, d, e, f)
    ensures Initial(nodes, s0) && s0.queue.ready == [d, e] && s0.nodeState == PendingStates(nodes)
    ensures s0.running == map[] && !s0.refused && s0.terminal == {}
  {
    hide GateShaped, EdgeCount, AfterCount, ReadyIds, Enumerates;
    OnlyTheseReady(nodes, d, e, f);
    s0 := Start(Blank(nodes), [d, e]);
  }

  lemma SkipLeaf(nodes: seq<Node>, s: State, f: Id)
    requires f in Ids(nodes) && f !in s.terminal && Dependents(nodes, f) == [] && AfterDependents(nodes, f) == []
    ensures var s' := Skip(nodes, s, [f], {});
      s'.nodeState == s.nodeState[f := SKIPPED] && s'.queue == s.queue && s'.running == s.running && s'.refused == s.refused
  {
    var s' := SkipTurn(nodes, s, f);
    assert [f][..0] == [];
    assert Skip(nodes, s, [f], {}) == Skip(nodes, s', [] + SkipPushes(nodes, s'.nodeState, f, Dependents(nodes, f)), {} + {f});
  }

  ghost predicate BothRunning(nodes: seq<Node>, s: State, d: Id, e: Id) {
    && s.queue.ready == [] && !s.refused && s.terminal == {} && s.nodeState == PendingStates(nodes)
    && Awaits(s, d) && Awaits(s, e)
  }

  lemma BothTaken(nodes: seq<Node>, d: Id, e: Id, f: Id) returns (s: State)
    requires GateShaped(nodes, d, e, f)
    ensures Dispatches(nodes, ShellEnv({d}), false, s) && BothRunning(nodes, s, d, e)
  {
    hide Initial, Dispatches, Pop, Enabled, PendingStates, IsGatedOn, Dependents, AfterDependents, DepTotal, AfterTotal, GetNode;
    var s0 := TwoReady(nodes, d, e, f);
    StartDispatches(nodes, ShellEnv({d}), false, s0);
    AllArePending(nodes);
    TakeOne(nodes, s0, Bare(d, [], [], None));
    StepDispatches(nodes, ShellEnv({d}), false, s0, Take(None));
    var s1 := Pop(nodes, s0, None);
    TakeOne(nodes, s1, Bare(e, [], [], None));
    StepDispatches(nodes, ShellEnv({d}), false, s1, Take(None));
    s := Pop(nodes, s1, None);
  }

  /** The source passes first: the fix node is skipped. */
  lemma FixSkipped(nodes: seq<Node>, d: Id, e: Id, f: Id, s2: State)
    requires GateShaped(nodes, d, e, f) && BothRunning(nodes, s2, d, e)
    ensures var s := Join(nodes, s2, d, ShellResult(Done));
      && Has(s.nodeState, f, Done) && s.queue.ready == [] && !s.refused && Awaits(s, e)
  {
    hide Skip, Join, JoinedWith, IsGatedOn, Dependents, AfterDependents, DepTotal, AfterTotal, GetNode;
    JoinOne(nodes, s2, d, Done, f);
    SkipLeaf(nodes, JoinedWith(nodes, s2, d, Done), f);
  }

  lemma FixBlocked(nodes: seq<Node>, d: Id, e: Id, f: Id, s: State)
    requires GateShaped(nodes, d, e, f) && Has(s.nodeState, f, Done)
    ensures Has(Join(nodes, s, e, ShellResult(Failed)).nodeState, f, Blocked)
  {
    hide Skip, Join, JoinedWith, ReleaseAfters, IsGatedOn, Dependents, AfterDependents, DepTotal, AfterTotal, GetNode;
    JoinOne(nodes, s, e, Failed, f);
  }

  /**
   Why a fix node must depend on nothing but its source: in every graph of this shape the source passing
   skips the fix node, and the other dependency failing then overwrites that terminal record.  The nodes
   are shell nodes, and every result is one a dispatch of such a node hands back.
   */
  lemma GatePremiseNeeded(d: Id, e: Id, f: Id) returns (s: State, act: Action)
    requires d != e && d != f && e != f
    ensures var nodes, env := GateGraph(d, e, f), ShellEnv({d});
      && Dispatches(nodes, env, false, s) && Has(s.nodeState, f, Done)
      && Enabled(s, act) && DispatchedStep(env, false, s, act) && Has(Step(nodes, s, act).nodeState, f, Blocked)
  {
    hide Dispatches, DispatchedStep, GateGraph, GateShaped, Join, Enabled, Awaits;
    var nodes := GateGraph(d, e, f);
    GateGraphShaped(d, e, f);
    var s2 := BothTaken(nodes, d, e, f);
    FinishOne({d}, false, s2, d);
    StepDispatches(nodes, ShellEnv({d}), false, s2, Finish(d, ShellResult(Done)));
    FixSkipped(nodes, d, e, f, s2);
    s, act := Join(nodes, s2, d, ShellResult(Done)), Finish(e, ShellResult(Failed));
    FinishOne({d}, false, s, e);
    FixBlocked(nodes, d, e, f, s);
  }

  /** Nothing keeps such a graph from being run: it is expanded to itself, and valid. */
  lemma GateGraphAccepted(d: Id, e: Id, f: Id)
    requires d != e && d != f && e != f && ':' !in d && ':' !in e && ':' !in f
    ensures var nodes := GateGraph(d, e, f);
      && Expand.Expandable(nodes) && Expand.Expanded(nodes) == nodes && Validate.ValidDag(nodes)
      && !(forall n, x | n in nodes && x in n.dependsOn && GatedOn(n, x) :: n.dependsOn == [x])
  {
    var nodes, rank := GateGraph(d, e, f), map[d := 0, e := 0, f := 1];
    GateGraphNodes(d, e, f);
    assert nodes[2] in nodes && d in nodes[2].dependsOn && nodes[2].dependsOn == [d, e];
    hide GetNode, IsGatedOn, Fits;
    BareFits(d, [], [], None, rank);
    BareFits(e, [], [], None, rank);
    BareFits(f, [d, e], [], Some(d + ":fail"), rank);
    FittingIsAccepted(nodes, rank);
  }

  lemma GateShape(d: Id, e: Id, f: Id)
    ensures var nodes := GateGraph(d, e, f);
      |nodes| == 3 && nodes[0] == Bare(d, [], [], None) && nodes[1] == Bare(e, [], [], None)
  {
  }

  // ----- A run that meets the first case: an `after` node that two sources can block

  function AfterGraph(a: Id, b: Id, m: Id, x: Id, n: Id): seq<Node> {
    [Bare(a, [], [], None)] + [Bare(b, [], [], None)] + [Bare(m, [a, b], [], None)] + [Bare(x, [m], [], None)] + [Bare(n, [], [m, x], None)]
  }

  ghost predicate AfterShaped(nodes: seq<Node>, a: Id, b: Id, m: Id, x: Id, n: Id) {
    && NoDup([a, b, m, x, n]) && Ids(nodes) == {a, b, m, x, n}
    && DepTotal(nodes, a) == 0 && DepTotal(nodes, b) == 0 && DepTotal(nodes, m) > 0 && DepTotal(nodes, x) > 0 && DepTotal(nodes, n) == 0
    && AfterTotal(nodes, a) == 0 && AfterTotal(nodes, b) == 0 && AfterTotal(nodes, n) == 2
    && Dependents(nodes, a) == [m] && Dependents(nodes, b) == [m]
    && AfterDependents(nodes, a) == [] && AfterDependents(nodes, b) == [] && AfterDependents(nodes, m) == [n]
    && GetNode(nodes, a) == Some(Bare(a, [], [], None)) && GetNode(nodes, b) == Some(Bare(b, [], [], None))
    && GetNode(nodes, n) == Some(Bare(n, [], [m, x], None))
    && !IsGatedOn(nodes, m, a) && !IsGatedOn(nodes, m, b)
  }

  lemma AfterGraphIndex(a: Id, b: Id, m: Id, x: Id, n: Id, y: Id)
    requires NoDup([a, b, m, x, n])
    ensures var nodes := AfterGraph(a, b, m, x, n);
      && Dependents(nodes, y) == (if y == a || y == b then [m] else if y == m then [x] else [])
      && AfterDependents(nodes, y) == (if y == m || y == x then [n] else [])
  {
    hide Dependents, AfterDependents, Entries;
    Distinct(a, b, m, x, n);
    var g1 := [Bare(a, [], [], None)];
    var g2 := g1 + [Bare(b, [], [], None)];
    var g3 := g2 + [Bare(m, [a, b], [], None)];
    var g4 := g3 + [Bare(x, [m], [], None)];
    EmptyIndex(y);
    EntriesOfTwo(a, b, y, m);
    EntriesOfTwo(m, x, y, x);
    EntriesOfTwo(m, x, y, n);
    IndexStep([], Bare(a, [], [], None), y);
    assert [] + g1 == g1;
    IndexStep(g1, Bare(b, [], [], None), y);
    IndexStep(g2, Bare(m, [a, b], [], None), y);
    IndexStep(g3, Bare(x, [m], [], None), y);
    IndexStep(g4, Bare(n, [], [m, x], None), y);
  }

  lemma AfterGraphTotals(a: Id, b: Id, m: Id, x: Id, n: Id, y: Id)
    requires NoDup([a, b, m, x, n])
    ensures var nodes := AfterGraph(a, b, m, x, n);
      && DepTotal(nodes, y) == (if y == m then 2 else if y == x then 1 else 0)
      && AfterTotal(nodes, y) == (if y == n then 2 else 0)
  {
    hide DepTotal, AfterTotal, Dependents, AfterDependents, Entries;
    Distinct(a, b, m, x, n);
    var g1 := [Bare(a, [], [], None)];
    var g2 := g1 + [Bare(b, [], [], None)];
    var g3 := g2 + [Bare(m, [a, b], [], None)];
    var g4 := g3 + [Bare(x, [m], [], None)];
    EmptyIndex(y);
    IndexSnoc([], Bare(a, [], [], None), y);
    assert [] + g1 == g1;
    IndexSnoc(g1, Bare(b, [], [], None), y);
    IndexSnoc(g2, Bare(m, [a, b], [], None), y);
    IndexSnoc(g3, Bare(x, [m], [], None), y);
    IndexSnoc(g4, Bare(n, [], [m, x], None), y);
  }

  lemma EmptyIndex(y: Id)
    ensures Dependents([], y) == [] && AfterDependents([], y) == [] && DepTotal([], y) == 0 && AfterTotal([], y) == 0
  {
  }

  lemma Distinct(a: Id, b: Id, m: Id, x: Id, n: Id)
    requires NoDup([a, b, m, x, n])
    ensures a != b && a != m && a != x && a != n && b != m && b != x && b != n && m != x && m != n && x != n
  {
    var s := [a, b, m, x, n];
    assert s[0] == a && s[1] == b && s[2] == m && s[3] == x && s[4] == n;
  }

  lemma AfterGraphShaped(a: Id, b: Id, m: Id, x: Id, n: Id)
    requires NoDup([a, b, m, x, n])
    ensures AfterShaped(AfterGraph(a, b, m, x, n), a, b, m, x, n)
  {
    hide Dependents, AfterDependents, DepTotal, AfterTotal, IsGatedOn, GetNode, NoDup;
    var nodes := AfterGraph(a, b, m, x, n);
    Distinct(a, b, m, x, n);
    AfterGraphNodes(nodes, a, b, m, x, n);
    AfterGraphIndex(a, b, m, x, n, a);
    AfterGraphIndex(a, b, m, x, n, b);
    AfterGraphIndex(a, b, m, x, n, m);
    AfterGraphTotals(a, b, m, x, n, a);
    AfterGraphTotals(a, b, m, x, n, b);
    AfterGraphTotals(a, b, m, x, n, m);
    AfterGraphTotals(a, b, m, x, n, x);
    AfterGraphTotals(a, b, m, x, n, n);
  }

  lemma AfterGraphNodes(nodes: seq<Node>, a: Id, b: Id, m: Id, x: Id, n: Id)
    requires NoDup([a, b, m, x, n]) && nodes == AfterGraph(a, b, m, x, n)
    ensures Ids(nodes) == {a, b, m, x, n}
    ensures GetNode(nodes, a) == Some(Bare(a, [], [], None)) && GetNode(nodes, b) == Some(Bare(b, [], [], None))
    ensures GetNode(nodes, n) == Some(Bare(n, [], [m, x], None))
    ensures !IsGatedOn(nodes, m, a) && !IsGatedOn(nodes, m, b)
  {
    hide GetNode, UniqueIds;
    AfterGraphIds(nodes, a, b, m, x, n);
    GetOwnNode(nodes, nodes[0]);
    GetOwnNode(nodes, nodes[1]);
    GetOwnNode(nodes, nodes[2]);
    GetOwnNode(nodes, nodes[4]);
  }

  lemma AfterGraphIds(nodes: seq<Node>, a: Id, b: Id, m: Id, x: Id, n: Id)
    requires NoDup([a, b, m, x, n]) && nodes == AfterGraph(a, b, m, x, n)
    ensures Ids(nodes) == {a, b, m, x, n} && UniqueIds(nodes)
    ensures nodes[0].id == a && nodes[1].id == b && nodes[2].id == m && nodes[3].id == x && nodes[4].id == n
  {
    Distinct(a, b, m, x, n);
    assert nodes[0].id == a && nodes[1].id == b && nodes[2].id == m && nodes[3].id == x && nodes[4].id == n;
  }

  /** Both sources run, and `n` waits for two nodes. */
  ghost predicate Racing(nodes: seq<Node>, s: State, n: Id) {
    && s.queue.ready == [] && !s.refused && s.nodeState.Keys == Ids(nodes)
    && n in s.queue.inDegree && s.queue.inDegree[n] == 0 && n in s.queue.afterPending && n !in s.queue.enqueued
  }

  lemma OnlySourcesReady(nodes: seq<Node>, a: Id, b: Id, m: Id, x: Id, n: Id)
    requires AfterShaped(nodes, a, b, m, x, n)
    ensures Enumerates([a, b], ReadyIds(Blank(nodes).queue, {}))
  {
    hide DepTotal, AfterTotal, Dependents, AfterDependents, IsGatedOn, GetNode;
    Distinct(a, b, m, x, n);
    var ids := ReadyIds(Blank(nodes).queue, {});
    assert Blank(nodes).queue.afterPending[n] == 2;
    assert a in ids && b in ids && m !in ids && x !in ids && n !in ids;
    assert ids == {a, b};
  }

  lemma RaceStarts(nodes: seq<Node>, a: Id, b: Id, m: Id, x: Id, n: Id) returns (s0: State)
    requires AfterShaped(nodes, a, b, m, x, n)
    ensures Dispatches(nodes, ShellEnv({}), false, s0) && s0.queue.ready == [a, b] && s0.nodeState == PendingStates(nodes)
    ensures Racing(nodes, s0.(queue := s0.queue.(ready := [])), n) && s0.queue.afterPending[n] == 2
  {
    hide DepTotal, AfterTotal, Dependents, AfterDependents, IsGatedOn, GetNode, ReadyIds, Enumerates, Dispatches;
    Distinct(a, b, m, x, n);
    OnlySourcesReady(nodes, a, b, m, x, n);
    s0 := Start(Blank(nodes), [a, b]);
    StartDispatches(nodes, ShellEnv({}), false, s0);
  }

  lemma RaceOn(nodes: seq<Node>, a: Id, b: Id, m: Id, x: Id, n: Id) returns (s: State)
    requires AfterShaped(nodes, a, b, m, x, n)
    ensures Dispatches(nodes, ShellEnv({}), false, s) && Racing(nodes, s, n) && s.queue.afterPending[n] == 2
    ensures Awaits(s, a) && Awaits(s, b)
    ensures s.nodeState == PendingStates(nodes)
  {
    hide Dispatches, Pop, Enabled, PendingStates, IsGatedOn, Dependents, AfterDependents, DepTotal, AfterTotal, GetNode;
    Distinct(a, b, m, x, n);
    var s0 := RaceStarts(nodes, a, b, m, x, n);
    AllArePending(nodes);
    TakeOne(nodes, s0, Bare(a, [], [], None));
    StepDispatches(nodes, ShellEnv({}), false, s0, Take(None));
    var s1 := Pop(nodes, s0, None);
    TakeOne(nodes, s1, Bare(b, [], [], None));
    StepDispatches(nodes, ShellEnv({}), false, s1, Take(None));
    s := Pop(nodes, s1, None);
  }

  /** One source fails: its dependent is blocked, once more, and `n` waits for one node less. */
  lemma SourceFails(nodes: seq<Node>, s: State, a: Id, m: Id, n: Id)
    requires Dependents(nodes, a) == [m] && AfterDependents(nodes, a) == [] && AfterDependents(nodes, m) == [n]
    requires m in Ids(nodes) && n in Ids(nodes) && a in Ids(nodes) && !IsGatedOn(nodes, m, a) && a != m
    requires Racing(nodes, s, n) && s.queue.afterPending[n] > 0
    ensures var s' := Join(nodes, s, a, ShellResult(Failed));
      && s'.nodeState.Keys == Ids(nodes) && s'.running == s.running - {a} && !s'.refused
      && (forall k | k in s.nodeState && k != a && k != m :: s'.nodeState[k] == s.nodeState[k])
      && (s.queue.afterPending[n] > 1 ==> Racing(nodes, s', n) && s'.queue.afterPending[n] == s.queue.afterPending[n] - 1)
      && (s.queue.afterPending[n] == 1 ==> s'.queue.ready == [n])
  {
    hide Join, JoinedWith, Skip, IsGatedOn, Dependents, AfterDependents, Ids;
    JoinOne(nodes, s, a, Failed, m);
    var s3 := JoinedWith(nodes, s, a, Failed);
    assert ReleaseAfters(s3.queue, [n]) == ReleaseAfter(s3.queue, n) by {
      assert [n][1..] == [];
    }
  }

  /**
   Why a node named in an `after` list may have one dependency only: in every graph of this shape both
   sources of `m` fail, `m` is blocked twice, and `n` is dispatched although `x` is still pending.
   */
  lemma AfterPremiseNeeded(a: Id, b: Id, m: Id, x: Id, n: Id) returns (s: State)
    requires NoDup([a, b, m, x, n])
    ensures var nodes := AfterGraph(a, b, m, x, n);
      && Dispatches(nodes, ShellEnv({}), false, s) && n in s.spawned
      && Bare(n, [], [m, x], None) in nodes && Has(s.nodeState, x, Pending)
  {
    hide Dispatches, DispatchedStep, AfterGraph, Join, Pop, Enabled, Awaits, NoDup, IsGatedOn, Dependents, AfterDependents, DepTotal, AfterTotal, GetNode, PendingStates;
    var nodes := AfterGraph(a, b, m, x, n);
    Distinct(a, b, m, x, n);
    AfterGraphShaped(a, b, m, x, n);
    AllArePending(nodes);
    var s1 := RaceOn(nodes, a, b, m, x, n);
    FinishOne({}, false, s1, a);
    StepDispatches(nodes, ShellEnv({}), false, s1, Finish(a, ShellResult(Failed)));
    SourceFails(nodes, s1, a, m, n);
    var s2 := Join(nodes, s1, a, ShellResult(Failed));
    StillAwaits(s1, s2, a, b);
    FinishOne({}, false, s2, b);
    StepDispatches(nodes, ShellEnv({}), false, s2, Finish(b, ShellResult(Failed)));
    SourceFails(nodes, s2, b, m, n);
    var s3 := Join(nodes, s2, b, ShellResult(Failed));
    TakeOne(nodes, s3, Bare(n, [], [m, x], None));
    TakingIsFree(ShellEnv({}), false, s3, None);
    StepDispatches(nodes, ShellEnv({}), false, s3, Take(None));
    s := Pop(nodes, s3, None);
  }

  lemma StillAwaits(s: State, s': State, a: Id, b: Id)
    requires Awaits(s, b) && s'.running == s.running - {a} && a != b
    ensures Awaits(s', b)
  {
  }

  /** This graph, too, is expanded to itself, and valid. */
  lemma AfterGraphAccepted(a: Id, b: Id, m: Id, x: Id, n: Id)
    requires NoDup([a, b, m, x, n]) && forall id | id in [a, b, m, x, n] :: ':' !in id
    ensures var nodes := AfterGraph(a, b, m, x, n);
      && Expand.Expandable(nodes) && Expand.Expanded(nodes) == nodes && Validate.ValidDag(nodes)
      && !(forall p, q | p in nodes && q in nodes && q.id in p.after :: |q.dependsOn| <= 1)
  {
    hide GetNode, IsGatedOn, Fits;
    var nodes, rank := AfterGraph(a, b, m, x, n), map[a := 0, b := 0, m := 1, x := 2, n := 3];
    Distinct(a, b, m, x, n);
    AfterGraphNodes(nodes, a, b, m, x, n);
    AfterGraphFits(a, b, m, x, n);
    assert nodes[4] in nodes && nodes[2] in nodes && nodes[2].id in nodes[4].after && |nodes[2].dependsOn| == 2;
    FittingIsAccepted(nodes, rank);
  }

  lemma AfterGraphFits(a: Id, b: Id, m: Id, x: Id, n: Id)
    requires NoDup([a, b, m, x, n]) && forall id | id in [a, b, m, x, n] :: ':' !in id
    ensures var nodes, rank := AfterGraph(a, b, m, x, n), map[a := 0, b := 0, m := 1, x := 2, n := 3];
      UniqueIds(nodes) && forall i | 0 <= i < |nodes| :: Fits(nodes[i], rank)
  {
    Distinct(a, b, m, x, n);
    var ids := [a, b, m, x, n];
    assert ids[0] == a && ids[1] == b && ids[2] == m && ids[3] == x && ids[4] == n;
    var nodes, rank := AfterGraph(a, b, m, x, n), map[a := 0, b := 0, m := 1, x := 2, n := 3];
    hide Fits;
    BareFits(a, [], [], None, rank);
    BareFits(b, [], [], None, rank);
    BareFits(m, [a, b], [], None, rank);
    BareFits(x, [m], [], None, rank);
    BareFits(n, [], [m, x], None, rank);
    assert nodes[0] == Bare(a, [], [], None) && nodes[1] == Bare(b, [], [], None) && nodes[2] == Bare(m, [a, b], [], None);
    assert nodes[3] == Bare(x, [m], [], None) && nodes[4] == Bare(n, [], [m, x], None);
  }

  // ----- Ids that repeat

  /** One shell node fanned out over two items whose children clash. */
  function Fanned(base: Id): Node {
    Bare(base, [], [], None).(forEach := Some(["1", ""]))
  }

  /** Ids may repeat in what is run: such a fan-out is expanded into two nodes of one id, and the result is valid. */
  lemma ClashIsAccepted(base: Id)
    requires ':' !in base
    ensures var child := Bare(base + "-1", [], [], None);
      && Expand.Expandable([Fanned(base)]) && Expand.Expanded([Fanned(base)]) == [child, child]
      && Validate.ValidDag([child, child]) && !UniqueIds([child, child])
  {
    var n, child := Fanned(base), Bare(base + "-1", [], [], None);
    FanOut.ClashingItems(base);
    ClashingFan(base);
    assert [n][..0] == [];
    assert Expand.FanAll([n]) == Expand.FanAll([]) + Expand.Fan(n);
    ClashingRest(base);
    Validate.RepeatedIdsPass(child);
  }

  lemma ClashingFan(base: Id)
    ensures Expand.Fan(Fanned(base)) == [Bare(base + "-1", [], [], None), Bare(base + "-1", [], [], None)]
  {
    FanOut.ClashingItems(base);
    forall item | item in ["1", ""]
      ensures Expand.Child(Fanned(base), base + "-1", item) == Bare(base + "-1", [], [], None)
    {
      assert Expand.Substitute("", item) == "";
    }
  }

  lemma ClashingRest(base: Id)
    ensures Expand.Rewired(Bare(base + "-1", [], [], None), Expand.FansOf([Fanned(base)])) == Bare(base + "-1", [], [], None)
  {
  }
}
