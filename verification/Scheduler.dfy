/** One call of the scheduler, fresh or from a checkpoint, against what its graph denotes. */
module Scheduler {
  import opened Wrappers
  import opened Dag
  import opened Events
  import opened Vault
  import opened Loop
  import opened LoopInvariant
  import opened LoopFacts
  import opened LoopTheorems
  import opened Denotation
  import opened Resume
  import opened Seed
  import opened ResumeSound
  import opened ResumeTheorems
  import opened RunLoop
  import Expand
  import Unfolding
  import Validate

  /** Nothing spawned yet, and the counters are those of nodes. */
  ghost predicate Untouched(ids: set<Id>, s: State) {
    && s.queue.inDegree.Keys <= ids && s.spawned == [] && s.running == map[] && !s.refused
  }

  lemma {:induction false} SeedEachUntouched(ids: set<Id>, nodes: seq<Node>, outputs: map<Id, string>, status: Status, s: State, list: seq<Id>)
    requires Untouched(ids, s)
    ensures Untouched(ids, SeedEach(nodes, outputs, status, s, list))
  {
    if list != [] {
      var last := list[|list| - 1];
      SeedEachUntouched(ids, nodes, outputs, status, s, list[..|list| - 1]);
      var s1 := SeedEach(nodes, outputs, status, s, list[..|list| - 1]);
      DropAt(s1.queue.inDegree, Dependents(nodes, last), last);
    }
  }

  lemma {:induction false} CascadeUntouched(ids: set<Id>, s: State, list: seq<Node>)
    requires Untouched(ids, s)
    ensures Untouched(ids, Cascade(s, list))
  {
    hide HasFailedDep;
    if list != [] {
      CascadeUntouched(ids, s, list[..|list| - 1]);
    }
  }

  lemma UntouchedGoes(nodes: seq<Node>, s: State, excluded: set<Id>, order: seq<Id>)
    requires Untouched(Ids(nodes), s) && Enumerates(order, ReadyIds(s.queue, excluded))
    ensures Going(nodes, Start(s, order))
  {
  }

  lemma ResumedGoes(nodes: seq<Node>, cp: Checkpoint, done: seq<Id>, failed: seq<Id>, blocked: seq<Id>, order: seq<Id>)
    requires var seeded := Cascade(SeedSetsOf(nodes, cp, done, failed, blocked), nodes);
      Enumerates(order, ReadyIds(seeded.queue, seeded.terminal))
    ensures Going(nodes, Start(Cascade(SeedSetsOf(nodes, cp, done, failed, blocked), nodes), order))
  {
    hide SeedEach, Cascade, ReadyIds, Enumerates, Untouched, Going;
    var ids := Ids(nodes);
    BlankUntouched(nodes);
    var s1 := SeedEach(nodes, cp.outputs, Done, Blank(nodes), done);
    var s2 := SeedEach(nodes, cp.outputs, Failed, s1, failed);
    var s3 := SeedEach(nodes, cp.outputs, Blocked, s2, blocked);
    SeedEachUntouched(ids, nodes, cp.outputs, Done, Blank(nodes), done);
    SeedEachUntouched(ids, nodes, cp.outputs, Failed, s1, failed);
    SeedEachUntouched(ids, nodes, cp.outputs, Blocked, s2, blocked);
    CascadeUntouched(ids, s3, nodes);
    UntouchedGoes(nodes, Cascade(s3, nodes), Cascade(s3, nodes).terminal, order);
  }

  lemma BlankUntouched(nodes: seq<Node>)
    ensures Untouched(Ids(nodes), Blank(nodes))
  {
  }

  lemma BlankGoes(nodes: seq<Node>, order: seq<Id>)
    requires Enumerates(order, ReadyIds(Blank(nodes).queue, {}))
    ensures Going(nodes, Start(Blank(nodes), order)) && Initial(nodes, Start(Blank(nodes), order))
  {
    hide ReadyIds, Enumerates, Going, Blank;
    BlankUntouched(nodes);
    UntouchedGoes(nodes, Blank(nodes), {}, order);
  }

  function IdsWith(states: map<Id, NodeState>, status: Status): set<Id> {
    set id | id in states && states[id].status == status
  }

  /** The end of a run: its failed nodes, and the event that counts them and the finished ones. */
  method Conclude(states: map<Id, NodeState>, log: seq<Event>) returns (failed: set<Id>, log': seq<Event>)
    ensures forall id :: id in failed <==> Has(states, id, Failed)
    ensures log' == log + [DagDone(|set id | id in states && states[id].status == Done|, |failed|)]
  {
    failed := IdsWith(states, Failed);
    log' := log + [DagDone(|IdsWith(states, Done)|, |failed|)];
  }

  ghost predicate NeverRefuses(gate: nat -> Option<string>) {
    forall i :: gate(i) == None
  }

  /**
   A fresh run, in whatever order the tasks finish.  Whatever they hand back, it is one of the runs the
   theorems are about; when the states are those of one worker and the budget gate refuses nothing, it
   ends with the states and outputs the graph denotes.  The log closes with the counts of both.
   */
  method ExecuteFresh(nodes: seq<Node>, results: Results, gate: nat -> Option<string>, ghost work: Option<Worker>, ghost rank: map<Id, nat>)
    returns (states: map<Id, NodeState>, failed: set<Id>, log: seq<Event>, ghost s: State)
    requires forall i, n :: results(i, n).Valid()
    requires work.Some? ==> OfWorker(results, work.value)
    ensures Reachable(nodes, s) && Exited(s) && states == s.nodeState
    ensures forall id :: id in failed <==> Has(states, id, Failed)
    ensures log == s.log + [DagDone(|set id | id in states && states[id].status == Done|, |failed|)]
    ensures NeverRefuses(gate) ==> !s.refused
    ensures work.Some? ==> Produces(nodes, work.value, s)
    ensures work.Some? && NeverRefuses(gate) && WellFormed(nodes) && Ranked(nodes, rank) ==> states == Finals(nodes, work.value, rank)
  {
    hide Initial, Going, WellFormed, Ranked, Finals, ReadyIds, Enumerates, Blank, IsRun, FaithfulRun, After, Exited;
    var loop := new RunLoop(nodes);
    ghost var order := loop.InitReady({});
    BlankFields(nodes);
    BlankGoes(nodes, order);
    ghost var s0 := loop.Snap();
    ghost var acts := loop.Run(results, gate, if work.Some? then WorkMode(work.value) else ANY_RESULT);
    s, states := loop.Snap(), loop.nodeState;
    failed, log := Conclude(states, loop.log);
    assert Reachable(nodes, s);
    if work.Some? {
      assert Produces(nodes, work.value, s);
      if NeverRefuses(gate) && WellFormed(nodes) && Ranked(nodes, rank) {
        ScheduleIndependence(nodes, work.value, rank, s);
      }
    }
  }

  lemma BlankFields(nodes: seq<Node>)
    ensures !Blank(nodes).refused && Blank(nodes).queue.ready == [] && Blank(nodes).queue.enqueued == {}
  {
  }

  /** A restart of a run cut short `crashes` times. */
  method ExecuteFrom(nodes: seq<Node>, v: Vault, results: Results, gate: nat -> Option<string>, ghost work: Worker, ghost rank: map<Id, nat>, ghost crashes: nat)
    returns (states: map<Id, NodeState>, ghost s0: State, ghost s: State)
    requires (forall i, n :: results(i, n).Valid()) && OfWorker(results, work)
    ensures Reruns(nodes, work, v, s0, s) && Exited(s) && states == s.nodeState
    ensures NeverRefuses(gate) ==> !s.refused
    ensures NeverRefuses(gate) && WellFormed(nodes) && Ranked(nodes, rank) && Plain(nodes) && crashes > 0 && (crashes > 1 ==> PromptBlind(work)) && Crashed(nodes, work, crashes, v) ==>
      forall id | id in Ids(nodes) ::
        && (Has(states, id, Done) <==> Has(Finals(nodes, work, rank), id, Done))
        && (Has(states, id, Failed) <==> Has(Finals(nodes, work, rank), id, Failed))
  {
    hide Going, WellFormed, Ranked, Finals, ReadyIds, Enumerates, Blank, IsRun, FaithfulRun, After, Exited, Plain, PromptBlind, Crashed, Orders, Cascade, SeedSetsOf;
    var loop := new RunLoop(nodes);
    var cp := CheckpointOf(v, false);
    ghost var done, failed, blocked, order := loop.SeedFrom(cp);
    ResumedGoes(nodes, cp, done, failed, blocked, order);
    s0 := loop.Snap();
    SeededUnrefused(nodes, cp, done, failed, blocked, order);
    ghost var acts := loop.Run(results, gate, ResumeMode(work, true, v, s0.nodeState));
    s, states := loop.Snap(), loop.nodeState;
    assert ResumesAs(nodes, v, s0);
    assert Reruns(nodes, work, v, s0, s);
    if NeverRefuses(gate) && WellFormed(nodes) && Ranked(nodes, rank) && Plain(nodes) && crashes > 0 && (crashes > 1 ==> PromptBlind(work)) && Crashed(nodes, work, crashes, v) {
      ResumeEquivalence(nodes, work, rank, crashes, v, s0, s);
    }
  }

  lemma SeededUnrefused(nodes: seq<Node>, cp: Checkpoint, done: seq<Id>, failed: seq<Id>, blocked: seq<Id>, order: seq<Id>)
    ensures !Start(Cascade(SeedSetsOf(nodes, cp, done, failed, blocked), nodes), order).refused
  {
    hide SeedEach, Cascade, Blank;
    var ids := Ids(nodes);
    BlankUntouched(nodes);
    var s1 := SeedEach(nodes, cp.outputs, Done, Blank(nodes), done);
    var s2 := SeedEach(nodes, cp.outputs, Failed, s1, failed);
    var s3 := SeedEach(nodes, cp.outputs, Blocked, s2, blocked);
    SeedEachUntouched(ids, nodes, cp.outputs, Done, Blank(nodes), done);
    SeedEachUntouched(ids, nodes, cp.outputs, Failed, s1, failed);
    SeedEachUntouched(ids, nodes, cp.outputs, Blocked, s2, blocked);
    CascadeUntouched(ids, s3, nodes);
  }

  datatype Refusal = CannotExpand(expansion: Expand.ExpandError) | Invalid(validation: Validate.Error)

  /** The states are those the graph denotes. */
  ghost predicate Denotes(nodes: seq<Node>, work: Worker, states: map<Id, NodeState>) {
    WellFormed(nodes) && exists rank :: Ranked(nodes, rank) && states == Finals(nodes, work, rank)
  }

  /**
   An authored graph: expanded, validated, run.  A graph that passes and has the unchecked premises ends,
   unless the budget gate refuses, with exactly the states its expansion denotes.
   */
  method Execute(authored: seq<Node>, results: Results, gate: nat -> Option<string>, ghost work: Option<Worker>)
    returns (r: Result<map<Id, NodeState>, Refusal>)
    requires forall i, n :: results(i, n).Valid()
    requires work.Some? ==> OfWorker(results, work.value)
    ensures r.Ok? <==> Expand.Expandable(authored) && Validate.ValidDag(Expand.Expanded(authored))
    ensures r.Err? && r.error.CannotExpand? ==> Expand.ExplainsRefusal(authored, r.error.expansion)
    ensures r.Err? && r.error.Invalid? ==> Expand.Expandable(authored) && Validate.Describes(Expand.Expanded(authored), r.error.validation)
    ensures r.Ok? && work.Some? && NeverRefuses(gate) && Validate.Unchecked(Expand.Expanded(authored)) ==>
      Denotes(Expand.Expanded(authored), work.value, r.value)
  {
    hide Expand.Expandable, Expand.Expanded, Expand.ExplainsRefusal, Validate.ValidDag, Validate.Describes, Validate.Unchecked;
    hide Produces, Exited, Finals, WellFormed, Ranked;
    var expanded := Expand.ExpandDag(authored);
    if expanded.Err? {
      return Err(CannotExpand(expanded.error));
    }
    var nodes := expanded.value;
    var flaw := Validate.ValidateDag(nodes);
    if flaw.Some? {
      return Err(Invalid(flaw.value));
    }
    ghost var rank: map<Id, nat> := map[];
    if Validate.Unchecked(nodes) {
      WiredByExpansion(authored);
      rank := Validate.ValidatedIsWellFormed(nodes);
    }
    var states, failed, log;
    ghost var s;
    states, failed, log, s := ExecuteFresh(nodes, results, gate, work, rank);
    r := Ok(states);
  }

  lemma WiredByExpansion(authored: seq<Node>)
    ensures Validate.QuorumsWired(Expand.Expanded(authored))
  {
    hide Expand.Expanded;
    Unfolding.ExpandedIsFlat(authored);
    forall n, r | n in Expand.Expanded(authored) && n.quorum.Some? && r in n.quorum.value.of
      ensures r in n.after
    {
      assert r in Unfolding.QuorumOf(n);
    }
  }
}
