/**
 A fix node that a crash revives.  In every first run its source passes and it is skipped; when the first run is
 cut short between the two records, the restart dispatches it.
 */
module FixGap {
  import opened Wrappers
  import opened Dag
  import opened Events
  import opened Vault
  import opened Loop
  import opened LoopInvariant
  import opened LoopLog
  import opened ResumeSound
  import opened ResumeTheorems
  import opened RestartCounts
  import opened Workers
  import opened ShellRuns
  import opened LoopTheorems
  import Premises

  /** `f` is to be run if `d` fails. */
  function FixGraph(d: Id, f: Id): seq<Node> {
    [Bare(d, [], [], None)] + [Fix(d, f)]
  }

  function Fix(d: Id, f: Id): Node {
    Bare(f, [d], [], Some(d + ":fail"))
  }

  ghost predicate FixShaped(nodes: seq<Node>, d: Id, f: Id) {
    && d != f && Ids(nodes) == {d, f} && nodes == [Bare(d, [], [], None), Fix(d, f)]
    && DepTotal(nodes, d) == 0 && DepTotal(nodes, f) == 1 && AfterTotal(nodes, d) == 0 && AfterTotal(nodes, f) == 0
    && Dependents(nodes, d) == [f] && Dependents(nodes, f) == [] && AfterDependents(nodes, d) == [] && AfterDependents(nodes, f) == []
    && GetNode(nodes, d) == Some(Bare(d, [], [], None)) && GetNode(nodes, f) == Some(Fix(d, f)) && IsGatedOn(nodes, f, d)
  }

  lemma FixNodes(d: Id, f: Id)
    requires d != f
    ensures var nodes := FixGraph(d, f);
      && nodes == [Bare(d, [], [], None), Fix(d, f)] && Ids(nodes) == {d, f} && UniqueIds(nodes)
      && nodes[0] in nodes && nodes[1] in nodes
  {
    var nodes := FixGraph(d, f);
    assert nodes[0] == Bare(d, [], [], None) && nodes[1] == Fix(d, f);
  }

  lemma FixIndex(d: Id, f: Id, y: Id)
    requires d != f
    ensures var nodes := FixGraph(d, f);
      && Dependents(nodes, y) == (if y == d then [f] else []) && AfterDependents(nodes, y) == []
      && DepTotal(nodes, y) == (if y == f then 1 else 0) && AfterTotal(nodes, y) == 0
  {
    hide Dependents, AfterDependents, DepTotal, AfterTotal, Entries;
    var g1 := [Bare(d, [], [], None)];
    Premises.EmptyIndex(y);
    Premises.EntriesOfTwo(d, f, y, d);
    Premises.EntriesOfTwo(d, f, y, f);
    assert [] + g1 == g1;
    Premises.IndexSnoc([], Bare(d, [], [], None), y);
    Premises.IndexSnoc(g1, Fix(d, f), y);
  }

  lemma FixGraphShaped(d: Id, f: Id)
    requires d != f
    ensures FixShaped(FixGraph(d, f), d, f)
  {
    hide FixGraph, UniqueIds, Ids, GetNode, DepTotal, AfterTotal, Dependents, AfterDependents;
    var nodes := FixGraph(d, f);
    FixNodes(d, f);
    GetOwnNode(nodes, nodes[0]);
    GetOwnNode(nodes, nodes[1]);
    FixIndex(d, f, d);
    FixIndex(d, f, f);
  }

  // ----- The first run

  lemma OnlyTheSource(nodes: seq<Node>, d: Id, f: Id)
    requires FixShaped(nodes, d, f)
    ensures Enumerates([d], ReadyIds(Blank(nodes).queue, {}))
  {
    hide DepTotal, AfterTotal, Dependents, AfterDependents, IsGatedOn, GetNode;
    assert ReadyIds(Blank(nodes).queue, {}) == {d};
  }

  lemma Begun(nodes: seq<Node>, d: Id) returns (s0: State)
    requires Enumerates([d], ReadyIds(Blank(nodes).queue, {}))
    ensures Initial(nodes, s0) && s0.queue.ready == [d] && s0.nodeState == PendingStates(nodes)
    ensures !s0.refused && s0.log == [DagSubmitted] && s0.spawned == [] && s0.terminal == {}
  {
    hide ReadyIds, Enumerates;
    s0 := Start(Blank(nodes), [d]);
  }

  lemma SourceRuns(nodes: seq<Node>, d: Id, f: Id) returns (s: State)
    requires FixShaped(nodes, d, f)
    ensures Dispatches(nodes, ShellEnv({d}), false, s) && Awaits(s, d) && s.queue.ready == []
    ensures s.log == [DagSubmitted] && s.spawned == [d] && s.terminal == {}
  {
    hide Dispatches, Pop, Enabled, ReadyIds, Enumerates, Initial, DepTotal, AfterTotal, Dependents, AfterDependents, IsGatedOn, GetNode;
    OnlyTheSource(nodes, d, f);
    var s0 := Begun(nodes, d);
    StartDispatches(nodes, ShellEnv({d}), false, s0);
    AllArePending(nodes);
    TakeOne(nodes, s0, Bare(d, [], [], None));
    TakingIsFree(ShellEnv({d}), false, s0, None);
    StepDispatches(nodes, ShellEnv({d}), false, s0, Take(None));
    s := Pop(nodes, s0, None);
  }

  lemma SkipLogged(nodes: seq<Node>, s: State, f: Id)
    requires f in Ids(nodes) && f !in s.terminal && Dependents(nodes, f) == [] && AfterDependents(nodes, f) == []
    ensures var s' := Skip(nodes, s, [f], {});
      s'.log == s.log + [NodeDone(f, "", "")] && s'.spawned == s.spawned && Has(s'.nodeState, f, Done)
  {
    var s' := SkipTurn(nodes, s, f);
    assert [f][..0] == [];
    assert Skip(nodes, s, [f], {}) == Skip(nodes, s', [] + SkipPushes(nodes, s'.nodeState, f, Dependents(nodes, f)), {} + {f});
  }

  /** The source passes, and the fix node is skipped. */
  lemma FirstRunSkips(nodes: seq<Node>, d: Id, f: Id, s: State)
    requires FixShaped(nodes, d, f) && s.log == [DagSubmitted] && s.spawned == [d] && s.terminal == {}
    ensures var s' := Join(nodes, s, d, ShellResult(Done));
      && s'.log == [DagSubmitted, NodeDispatched(d, "", 1), NodeDone(d, "", ""), NodeDone(f, "", "")]
      && s'.spawned == [d] && Has(s'.nodeState, f, Done)
  {
    hide Join, JoinedWith, Skip, Dependents, AfterDependents, DepTotal, AfterTotal, GetNode, IsGatedOn;
    JoinOne(nodes, s, d, Done, f);
    SkipLogged(nodes, JoinedWith(nodes, s, d, Done), f);
    LoggedPass(nodes, s, d);
  }

  lemma LoggedPass(nodes: seq<Node>, s: State, d: Id)
    ensures var s' := JoinedWith(nodes, s, d, Done);
      s'.log == s.log + [NodeDispatched(d, "", 1), NodeDone(d, "", "")] && s'.spawned == s.spawned
  {
    hide ReleaseAfters;
  }

  lemma VaultOfPass(d: Id)
    ensures Fold(FirstSink(), [DagSubmitted, NodeDispatched(d, "", 1), NodeDone(d, "", "")]).vault.records == map[d := Record(Done, None, 1)]
  {
    var e0, e1, e2 := DagSubmitted, NodeDispatched(d, "", 1), NodeDone(d, "", "");
    assert [e0][..0] == [] && [e0, e1][..1] == [e0] && [e0, e1, e2][..2] == [e0, e1];
    assert Fold(FirstSink(), [e0]) == Project(FirstSink(), e0);
    assert Fold(FirstSink(), [e0, e1]) == Project(Fold(FirstSink(), [e0]), e1);
    assert Fold(FirstSink(), [e0, e1, e2]) == Project(Fold(FirstSink(), [e0, e1]), e2);
  }

  // ----- The restart

  lemma {:induction false} NothingCut(nodes: seq<Node>, v: Vault, list: seq<Node>)
    requires forall id :: !Recorded(v, id, Failed) && !Recorded(v, id, Blocked)
    ensures Cut(nodes, v, list) == {}
  {
    if list != [] {
      NothingCut(nodes, v, list[..|list| - 1]);
    }
  }

  lemma OneReady(ready: seq<Id>, f: Id)
    requires Enumerates(ready, {f})
    ensures ready == [f]
  {
    assert f in ready;
    assert ready[0] in ready && ready[|ready| - 1] in ready;
  }

  lemma OnlyTheFix(nodes: seq<Node>, d: Id, f: Id, v: Vault, r: State)
    requires FixShaped(nodes, d, f) && UniqueIds(nodes) && v.records == map[d := Record(Done, None, 1)] && ResumesAs(nodes, v, r)
    ensures r.queue.ready == [f] && Has(r.nodeState, f, Pending) && !r.refused
  {
    hide ResumesAs, UniqueIds, Dependents, AfterDependents, DepTotal, AfterTotal, GetNode, IsGatedOn, Cut, Enumerates, AllCounted;
    NothingCut(nodes, v, nodes);
    assert nodes[1] in nodes && Waiting(nodes, v, nodes[1]);
    assert Recorded(v, d, Done);
    Restarted(nodes, v, r);
    RestartCountsIff(nodes, v, r, nodes[1]);
    FixNodeIsReady(nodes, v, r, nodes[1], d);
    ReadyIsFix(nodes, d, f, v, r);
  }

  lemma ReadyIsFix(nodes: seq<Node>, d: Id, f: Id, v: Vault, r: State)
    requires Ids(nodes) == {d, f} && Recorded(v, d, Done) && f in r.queue.ready
    requires Enumerates(r.queue.ready, ReadyIds(r.queue, r.terminal)) && TerminalSet(Ids(nodes), r.nodeState, r.terminal)
    requires IsCut(nodes, v, r.nodeState, {}) && r.nodeState.Keys == Ids(nodes) && r.queue.inDegree.Keys <= Ids(nodes)
    ensures r.queue.ready == [f]
  {
    assert Has(r.nodeState, d, Done) && d in r.terminal;
    assert ReadyIds(r.queue, r.terminal) == {f};
    OneReady(r.queue.ready, f);
  }

  /**
   The first run records its source as Done and skips `f` without ever running it.  Cut short between the two
   records, it is restarted into a state that dispatches `f` next: the fix is run although its source passed.
   */
  lemma RestartRunsFix(d: Id, f: Id) returns (s: State, r: State)
    requires d != f
    ensures var nodes := FixGraph(d, f);
      && Dispatches(nodes, ShellEnv({d}), false, s) && Has(s.nodeState, f, Done) && f !in s.spawned
      && |s.log| == 4 && s.log[2] == NodeDone(d, "", "") && s.log[3] == NodeDone(f, "", "")
      && ResumesAs(nodes, VaultAfter(FirstSink(), s, 3), r)
      && Enabled(r, Take(None)) && f in Step(nodes, r, Take(None)).spawned && Has(r.nodeState, d, Done)
  {
    hide Dispatches, DispatchedStep, Join, Awaits, FixShaped, ResumesAs, Fold, Enabled, Pop, UniqueIds, Ids, GetNode;
    var nodes := FixGraph(d, f);
    FixGraphShaped(d, f);
    FixNodes(d, f);
    var s1 := SourceRuns(nodes, d, f);
    FinishOne({d}, false, s1, d);
    StepDispatches(nodes, ShellEnv({d}), false, s1, Finish(d, ShellResult(Done)));
    s := Join(nodes, s1, d, ShellResult(Done));
    FirstRunSkips(nodes, d, f, s1);
    assert s.log[..3] == [DagSubmitted, NodeDispatched(d, "", 1), NodeDone(d, "", "")];
    VaultOfPass(d);
    var v := VaultAfter(FirstSink(), s, 3);
    r := RestartExists(nodes, v);
    OnlyTheFix(nodes, d, f, v, r);
    FixTaken(nodes, d, f, r);
    SourceStays(nodes, d, f, v, r);
  }

  lemma FixTaken(nodes: seq<Node>, d: Id, f: Id, r: State)
    requires FixShaped(nodes, d, f) && r.queue.ready == [f] && Has(r.nodeState, f, Pending) && !r.refused
    ensures Enabled(r, Take(None)) && f in Step(nodes, r, Take(None)).spawned
  {
    hide Enabled, Pop, Dependents, AfterDependents, DepTotal, AfterTotal, GetNode, IsGatedOn;
    TakeOne(nodes, r, Fix(d, f));
  }

  lemma SourceStays(nodes: seq<Node>, d: Id, f: Id, v: Vault, r: State)
    requires FixShaped(nodes, d, f) && UniqueIds(nodes) && v.records == map[d := Record(Done, None, 1)] && ResumesAs(nodes, v, r)
    ensures Has(r.nodeState, d, Done)
  {
    hide ResumesAs, UniqueIds, Dependents, AfterDependents, DepTotal, AfterTotal, GetNode, IsGatedOn, Cut, Enumerates, AllCounted;
    Restarted(nodes, v, r);
    assert Recorded(v, d, Done);
  }

  /** The graph is expanded to itself and valid, and meets the premises that validation leaves unchecked. */
  lemma FixGraphAccepted(d: Id, f: Id)
    requires d != f && ':' !in d && ':' !in f
    ensures var nodes := FixGraph(d, f);
      && Expand.Expandable(nodes) && Expand.Expanded(nodes) == nodes && Validate.ValidDag(nodes)
      && Validate.Unchecked(nodes) && WellFormed(nodes)
  {
    hide Fits, WellFormed, Validate.ValidDag, Expand.Expandable, Expand.Expanded;
    var nodes, rank := FixGraph(d, f), map[d := 0, f := 1];
    FixNodes(d, f);
    BareFits(d, [], [], None, rank);
    BareFits(f, [d], [], Some(d + ":fail"), rank);
    FittingIsAccepted(nodes, rank);
    var _ := Validate.ValidatedIsWellFormed(nodes);
  }

  /** In a first run, however it goes, `f` is run only if `d` has failed. */
  lemma FirstRunNeedsFailure(d: Id, f: Id, s: State)
    requires d != f && ':' !in d && ':' !in f
    requires Reachable(FixGraph(d, f), s) && f in s.spawned
    ensures Has(s.nodeState, d, Failed)
  {
    hide WellFormed, Reachable, Ids, UniqueIds;
    FixNodes(d, f);
    FixGraphAccepted(d, f);
    DispatchSafety(FixGraph(d, f), s, Fix(d, f));
    assert d in Fix(d, f).dependsOn;
  }
}
