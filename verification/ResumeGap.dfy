/**
 A graph that a crash can leave hanging.  It meets every premise, and no first run leaves a node of it
 pending; but when the first run is cut short between a failure and the blocking that follows it, the
 restart blocks the node itself and does not tell the one ordered after it.
 */
module ResumeGap {
  import opened Wrappers
  import opened Dag
  import opened Events
  import opened Vault
  import opened Loop
  import opened LoopInvariant
  import opened LoopTheorems
  import opened Resume
  import opened Seed
  import opened ResumeSound
  import opened ResumeTheorems
  import opened Workers
  import opened ShellRuns
  import Premises
  import Expand
  import Validate

  /** `x` depends on `a`, and `n` is ordered after `x`. */
  function GapGraph(a: Id, x: Id, n: Id): seq<Node> {
    [Bare(a, [], [], None)] + [Bare(x, [a], [], None)] + [Bare(n, [], [x], None)]
  }

  /** All that the runs below look at in the graph. */
  ghost predicate GapShaped(nodes: seq<Node>, a: Id, x: Id, n: Id) {
    && a != x && a != n && x != n && Ids(nodes) == {a, x, n}
    && nodes == [Bare(a, [], [], None), Bare(x, [a], [], None), Bare(n, [], [x], None)]
    && DepTotal(nodes, a) == 0 && DepTotal(nodes, x) == 1 && DepTotal(nodes, n) == 0
    && AfterTotal(nodes, a) == 0 && AfterTotal(nodes, x) == 0 && AfterTotal(nodes, n) == 1
    && Dependents(nodes, a) == [x] && AfterDependents(nodes, a) == [] && AfterDependents(nodes, x) == [n]
    && GetNode(nodes, a) == Some(Bare(a, [], [], None)) && !IsGatedOn(nodes, x, a)
  }

  lemma GapNodes(a: Id, x: Id, n: Id)
    requires a != x && a != n && x != n
    ensures var nodes := GapGraph(a, x, n);
      && nodes == [Bare(a, [], [], None), Bare(x, [a], [], None), Bare(n, [], [x], None)]
      && Ids(nodes) == {a, x, n} && UniqueIds(nodes)
      && nodes[0] in nodes && nodes[1] in nodes && nodes[2] in nodes
  {
    var nodes := GapGraph(a, x, n);
    assert nodes[0] == Bare(a, [], [], None) && nodes[1] == Bare(x, [a], [], None) && nodes[2] == Bare(n, [], [x], None);
  }

  lemma GapGraphShaped(a: Id, x: Id, n: Id)
    requires a != x && a != n && x != n
    ensures GapShaped(GapGraph(a, x, n), a, x, n)
  {
    hide GapGraph, UniqueIds, Ids, GetNode, DepTotal, AfterTotal, Dependents, AfterDependents;
    var nodes := GapGraph(a, x, n);
    GapNodes(a, x, n);
    GetOwnNode(nodes, nodes[0]);
    GetOwnNode(nodes, nodes[1]);
    GapIndex(a, x, n, a);
    GapIndex(a, x, n, x);
    GapIndex(a, x, n, n);
  }

  lemma GapIndex(a: Id, x: Id, n: Id, y: Id)
    requires a != x && a != n && x != n
    ensures var nodes := GapGraph(a, x, n);
      && Dependents(nodes, y) == (if y == a then [x] else []) && AfterDependents(nodes, y) == (if y == x then [n] else [])
      && DepTotal(nodes, y) == (if y == x then 1 else 0) && AfterTotal(nodes, y) == (if y == n then 1 else 0)
  {
    hide Dependents, AfterDependents, DepTotal, AfterTotal, GapGraph;
    GapLists(a, x, n, y);
    GapTotals(a, x, n, y);
  }

  lemma GapLists(a: Id, x: Id, n: Id, y: Id)
    requires a != x && a != n && x != n
    ensures var nodes := GapGraph(a, x, n);
      Dependents(nodes, y) == (if y == a then [x] else []) && AfterDependents(nodes, y) == (if y == x then [n] else [])
  {
    hide Dependents, AfterDependents, Entries;
    var g1 := [Bare(a, [], [], None)];
    var g2 := g1 + [Bare(x, [a], [], None)];
    Premises.EmptyIndex(y);
    Premises.EntriesOfTwo(a, x, y, x);
    Premises.EntriesOfTwo(x, a, y, n);
    Premises.IndexStep([], Bare(a, [], [], None), y);
    assert [] + g1 == g1;
    Premises.IndexStep(g1, Bare(x, [a], [], None), y);
    Premises.IndexStep(g2, Bare(n, [], [x], None), y);
  }

  lemma GapTotals(a: Id, x: Id, n: Id, y: Id)
    requires a != x && a != n && x != n
    ensures var nodes := GapGraph(a, x, n);
      DepTotal(nodes, y) == (if y == x then 1 else 0) && AfterTotal(nodes, y) == (if y == n then 1 else 0)
  {
    hide DepTotal, AfterTotal, Dependents, AfterDependents, Entries;
    var g1 := [Bare(a, [], [], None)];
    var g2 := g1 + [Bare(x, [a], [], None)];
    Premises.EmptyIndex(y);
    Premises.IndexSnoc([], Bare(a, [], [], None), y);
    assert [] + g1 == g1;
    Premises.IndexSnoc(g1, Bare(x, [a], [], None), y);
    Premises.IndexSnoc(g2, Bare(n, [], [x], None), y);
  }

  // ----- The first run, up to the failure of `a`

  lemma OnlyTheSource(nodes: seq<Node>, a: Id, x: Id, n: Id)
    requires GapShaped(nodes, a, x, n)
    ensures Enumerates([a], ReadyIds(Blank(nodes).queue, {}))
  {
    hide DepTotal, AfterTotal, Dependents, AfterDependents, IsGatedOn, GetNode;
    assert ReadyIds(Blank(nodes).queue, {}) == {a};
  }

  lemma SourceRuns(nodes: seq<Node>, a: Id, x: Id, n: Id) returns (s: State)
    requires GapShaped(nodes, a, x, n)
    ensures Dispatches(nodes, ShellEnv({}), false, s) && Awaits(s, a) && s.queue.ready == [] && s.log == [DagSubmitted]
  {
    hide Dispatches, Pop, Enabled, GapShaped, ReadyIds, Enumerates, Initial;
    OnlyTheSource(nodes, a, x, n);
    var s0 := Begun(nodes, a);
    StartDispatches(nodes, ShellEnv({}), false, s0);
    AllArePending(nodes);
    SourceIs(nodes, a, x, n);
    TakeOne(nodes, s0, Bare(a, [], [], None));
    TakingIsFree(ShellEnv({}), false, s0, None);
    StepDispatches(nodes, ShellEnv({}), false, s0, Take(None));
    s := Pop(nodes, s0, None);
  }

  lemma SourceIs(nodes: seq<Node>, a: Id, x: Id, n: Id)
    requires GapShaped(nodes, a, x, n)
    ensures GetNode(nodes, a) == Some(Bare(a, [], [], None)) && a in Ids(nodes)
  {
  }

  lemma Begun(nodes: seq<Node>, a: Id) returns (s0: State)
    requires Enumerates([a], ReadyIds(Blank(nodes).queue, {}))
    ensures Initial(nodes, s0) && s0.queue.ready == [a] && s0.nodeState == PendingStates(nodes) && !s0.refused && s0.log == [DagSubmitted]
  {
    hide ReadyIds, Enumerates;
    s0 := Start(Blank(nodes), [a]);
  }

  /** The failure is on record before the block. */
  lemma FailureLogged(nodes: seq<Node>, a: Id, x: Id, n: Id, s: State)
    requires GapShaped(nodes, a, x, n) && s.log == [DagSubmitted]
    ensures Join(nodes, s, a, ShellResult(Failed)).log
         == [DagSubmitted, NodeDispatched(a, "", 1), NodeFailed(a, "execution failed"), NodeBlocked(x)]
  {
    hide Join, Skip, Dependents, AfterDependents, DepTotal, AfterTotal, GetNode, IsGatedOn, ReleaseAfters;
    JoinOne(nodes, s, a, Failed, x);
  }

  lemma VaultOfFailure(a: Id)
    ensures var log := [DagSubmitted, NodeDispatched(a, "", 1), NodeFailed(a, "execution failed")];
      var v := Fold(FirstSink(), log).vault;
      v == Vault(Some(RunMeta(false, 0, 0)), map[a := Record(Failed, None, 1)], map[a := "execution failed"], None)
  {
    var e0, e1, e2 := DagSubmitted, NodeDispatched(a, "", 1), NodeFailed(a, "execution failed");
    assert [e0][..0] == [] && [e0, e1][..1] == [e0] && [e0, e1, e2][..2] == [e0, e1];
    assert Fold(FirstSink(), [e0]) == Project(FirstSink(), e0);
    assert Fold(FirstSink(), [e0, e1]) == Project(Fold(FirstSink(), [e0]), e1);
    assert Fold(FirstSink(), [e0, e1, e2]) == Project(Fold(FirstSink(), [e0, e1]), e2);
    assert Fold(FirstSink(), [e0, e1, e2]).vault.records == map[a := Record(Failed, None, 1)];
  }

  // ----- The restart

  lemma CascadeThree(s: State, p: Node, q: Node, r: Node)
    ensures Cascade(s, [p, q, r]) == CascadeOne(CascadeOne(CascadeOne(s, p), q), r)
  {
    hide CascadeOne;
    assert [p, q, r][..2] == [p, q] && [p, q][..1] == [p] && [p][..0] == [];
    assert Cascade(s, [p]) == CascadeOne(Cascade(s, []), p) && Cascade(s, []) == s;
    assert Cascade(s, [p, q]) == CascadeOne(Cascade(s, [p]), q);
    assert Cascade(s, [p, q, r]) == CascadeOne(Cascade(s, [p, q]), r);
  }

  lemma SeededOne(nodes: seq<Node>, a: Id, x: Id, n: Id, outputs: map<Id, string>)
    requires GapShaped(nodes, a, x, n)
    ensures var s := SeedEach(nodes, outputs, Failed, Blank(nodes), [a]);
      && s.queue == Blank(nodes).queue && s.terminal == {a} && s.running == map[] && !s.refused
      && Has(s.nodeState, a, Failed) && Has(s.nodeState, x, Pending) && Has(s.nodeState, n, Pending)
  {
    hide EdgeCount, AfterCount, IsGatedOn, Dependents, AfterDependents;
    assert [a][..0] == [];
    assert SeedEach(nodes, outputs, Failed, Blank(nodes), [a]) == SeedOne(nodes, outputs, Failed, Blank(nodes), a);
  }

  lemma CascadeBlocks(s: State, a: Id, x: Id, n: Id)
    requires a != x && a != n && x != n && s.terminal == {a}
    requires Has(s.nodeState, a, Failed) && Has(s.nodeState, x, Pending) && Has(s.nodeState, n, Pending)
    ensures var s' := CascadeOne(CascadeOne(CascadeOne(s, Bare(a, [], [], None)), Bare(x, [a], [], None)), Bare(n, [], [x], None));
      && Has(s'.nodeState, x, Blocked) && Has(s'.nodeState, n, Pending) && s'.terminal == {a, x}
      && s'.queue == s.queue && s'.running == s.running && s'.refused == s.refused
  {
    var nx := Bare(x, [a], [], None);
    assert a in nx.dependsOn && HasFailedDep(nx, s);
    assert !HasFailedDep(Bare(n, [], [x], None), CascadeOne(s, nx));
  }

  /** Seeded with the failure, the cascade blocks `x`; the counter of `n` stays. */
  lemma Seeded(nodes: seq<Node>, a: Id, x: Id, n: Id, outputs: map<Id, string>)
    requires GapShaped(nodes, a, x, n)
    ensures var s := Cascade(SeedEach(nodes, outputs, Failed, Blank(nodes), [a]), nodes);
      && Has(s.nodeState, x, Blocked) && Has(s.nodeState, n, Pending) && s.terminal == {a, x}
      && s.queue == Blank(nodes).queue && s.running == map[] && !s.refused
  {
    hide SeedEach, Cascade, CascadeOne, Blank, DepTotal, AfterTotal, Dependents, AfterDependents, IsGatedOn, GetNode;
    var s := SeedEach(nodes, outputs, Failed, Blank(nodes), [a]);
    SeededOne(nodes, a, x, n, outputs);
    CascadeThree(s, nodes[0], nodes[1], nodes[2]);
    CascadeBlocks(s, a, x, n);
  }

  lemma NothingReady(nodes: seq<Node>, a: Id, x: Id, n: Id)
    requires GapShaped(nodes, a, x, n)
    ensures Enumerates([], ReadyIds(Blank(nodes).queue, {a, x}))
  {
    hide DepTotal, AfterTotal, Dependents, AfterDependents, IsGatedOn, GetNode;
    assert Blank(nodes).queue.afterPending[n] == 1;
    assert ReadyIds(Blank(nodes).queue, {a, x}) == {};
  }

  lemma Restarts(nodes: seq<Node>, a: Id, x: Id, n: Id, v: Vault) returns (r: State)
    requires GapShaped(nodes, a, x, n)
    requires v.records == map[a := Record(Failed, None, 1)]
    ensures ResumesAs(nodes, v, r) && Exited(r) && !r.refused && Has(r.nodeState, x, Blocked) && Has(r.nodeState, n, Pending)
  {
    hide GapShaped, SeedEach, Cascade, ReadyIds, Blank;
    var cp := CheckpointOf(v, false);
    assert cp.completed == {} && cp.failed == {a} && cp.blocked == {};
    Seeded(nodes, a, x, n, cp.outputs);
    NothingReady(nodes, a, x, n);
    NothingSeeded(nodes, cp.outputs, Done, Blank(nodes));
    NothingSeeded(nodes, cp.outputs, Blocked, SeedEach(nodes, cp.outputs, Failed, Blank(nodes), [a]));
    assert Orders(cp, [], [a], []);
    var seeded := Cascade(SeedSetsOf(nodes, cp, [], [a], []), nodes);
    r := Start(seeded, []);
  }

  lemma NothingSeeded(nodes: seq<Node>, outputs: map<Id, string>, status: Status, s: State)
    ensures SeedEach(nodes, outputs, status, s, []) == s
  {
  }

  /**
   A lost wake-up across a crash: the first run is cut short after the failure of `a` and before the block of
   `x`.  The restart ends at once, unrefused, with `n` pending, although everything `n` waits for is terminal.
   */
  lemma ResumeLosesWakeUp(a: Id, x: Id, n: Id) returns (s: State, r: State)
    requires a != x && a != n && x != n
    ensures var nodes := GapGraph(a, x, n);
      && Dispatches(nodes, ShellEnv({}), false, s)
      && |s.log| == 4 && s.log[2] == NodeFailed(a, "execution failed") && s.log[3] == NodeBlocked(x)
      && ResumesAs(nodes, VaultAfter(FirstSink(), s, 3), r)
      && Exited(r) && !r.refused && Has(r.nodeState, n, Pending)
      && Bare(n, [], [x], None) in nodes && !HeldBack(Bare(n, [], [x], None), r.nodeState)
  {
    hide Dispatches, DispatchedStep, Join, Awaits, GapShaped, ResumesAs, Exited, Fold, Enabled;
    var nodes := GapGraph(a, x, n);
    GapGraphShaped(a, x, n);
    var s1 := SourceRuns(nodes, a, x, n);
    FinishOne({}, false, s1, a);
    StepDispatches(nodes, ShellEnv({}), false, s1, Finish(a, ShellResult(Failed)));
    s := Join(nodes, s1, a, ShellResult(Failed));
    FailureLogged(nodes, a, x, n, s1);
    assert s.log[..3] == [DagSubmitted, NodeDispatched(a, "", 1), NodeFailed(a, "execution failed")];
    VaultOfFailure(a);
    r := Restarts(nodes, a, x, n, VaultAfter(FirstSink(), s, 3));
    assert nodes[2] in nodes;
  }

  // ----- The graph is none to blame

  /** It is expanded to itself and valid, and meets the premises that validation leaves unchecked. */
  lemma GapGraphAccepted(a: Id, x: Id, n: Id)
    requires a != x && a != n && x != n && ':' !in a && ':' !in x && ':' !in n
    ensures var nodes := GapGraph(a, x, n);
      && Expand.Expandable(nodes) && Expand.Expanded(nodes) == nodes && Validate.ValidDag(nodes)
      && Validate.Unchecked(nodes) && WellFormed(nodes)
  {
    hide Fits, WellFormed, Validate.ValidDag, Expand.Expandable, Expand.Expanded;
    var nodes, rank := GapGraph(a, x, n), map[a := 0, x := 1, n := 2];
    GapNodes(a, x, n);
    BareFits(a, [], [], None, rank);
    BareFits(x, [a], [], None, rank);
    BareFits(n, [], [x], None, rank);
    FittingIsAccepted(nodes, rank);
    var r := Validate.ValidatedIsWellFormed(nodes);
  }

  /** No first run, however it goes, ends unrefused with `n` pending. */
  lemma FirstRunWakes(a: Id, x: Id, n: Id, s: State)
    requires a != x && a != n && x != n && ':' !in a && ':' !in x && ':' !in n
    requires Reachable(GapGraph(a, x, n), s) && Exited(s) && !s.refused
    ensures !Has(s.nodeState, n, Pending)
  {
    hide WellFormed, Reachable, Exited, GapGraph, HeldBack, UniqueIds, Ids;
    var nodes := GapGraph(a, x, n);
    GapNodes(a, x, n);
    GapGraphAccepted(a, x, n);
    if Has(s.nodeState, n, Pending) {
      NoLostWakeUp(nodes, s, nodes[2]);
      HeldBy(s.nodeState, a, x, n);
      NoLostWakeUp(nodes, s, nodes[1]);
      WaitsForUnfinished(nodes, s, nodes[0]);
    }
  }

  lemma HeldBy(st: map<Id, NodeState>, a: Id, x: Id, n: Id)
    ensures HeldBack(Bare(n, [], [x], None), st) ==> Has(st, x, Pending)
    ensures HeldBack(Bare(x, [a], [], None), st) ==> Has(st, a, Blocked) || Has(st, a, Pending)
    ensures forall d :: !Edge(Bare(a, [], [], None), d)
  {
  }
}
