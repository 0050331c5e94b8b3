/** The run loop as the scheduler executes it: one object whose variables the loops update in place. */
module RunLoop {
  import opened Wrappers
  import opened Dag
  import opened Events
  import opened Loop
  import opened LoopInvariant
  import opened LoopFacts
  import opened LoopRuns
  import opened LoopTheorems
  import opened LoopProgress
  import Indices
  import opened Resume
  import opened Seed
  import ResumeSound
  import Quorum
  import Template

  /** Appending one step to a run. */
  lemma {:induction false} RunSnoc(nodes: seq<Node>, mode: Mode, s: State, acts: seq<Action>, a: Action)
    requires IsRun(nodes, s, acts) && FaithfulRun(nodes, mode, s, acts)
    requires Enabled(After(nodes, s, acts), a) && Faithful(mode, After(nodes, s, acts), a)
    ensures IsRun(nodes, s, acts + [a]) && FaithfulRun(nodes, mode, s, acts + [a])
    ensures After(nodes, s, acts + [a]) == Step(nodes, After(nodes, s, acts), a)
    decreases |acts|
  {
    hide Enabled, Step, Faithful;
    if acts == [] {
      assert [] + [a] == [a];
      assert [a][1..] == [];
    } else {
      assert (acts + [a])[1..] == acts[1..] + [a];
      RunSnoc(nodes, mode, Step(nodes, s, acts[0]), acts[1..], a);
    }
  }

  /** `acts` leads from `s0` to `s`, with results from the mode's worker. */
  ghost predicate Ran(nodes: seq<Node>, mode: Mode, s0: State, acts: seq<Action>, s: State) {
    IsRun(nodes, s0, acts) && FaithfulRun(nodes, mode, s0, acts) && After(nodes, s0, acts) == s
  }

  ghost predicate CountsValid(running: map<Id, Task>) {
    forall k | k in running && running[k].Count? :: running[k].result.Valid()
  }

  ghost predicate Going(nodes: seq<Node>, s: State) {
    Progress(nodes, s) && CountsValid(s.running)
  }

  lemma CountsStayValid(nodes: seq<Node>, s: State, a: Action)
    requires Enabled(s, a) && CountsValid(s.running) && Once(Ids(nodes), s.queue, s.spawned)
    ensures CountsValid(Step(nodes, s, a).running)
  {
    match a
    case Take(refuse) =>
      hide Once, Announce;
    case Finish(id, r) =>
      hide Join, Once;
      JoinKeeps(Ids(nodes), nodes, s, id, r);
  }

  lemma StepRan(nodes: seq<Node>, mode: Mode, s0: State, acts: seq<Action>, s: State, a: Action)
    requires Ran(nodes, mode, s0, acts, s) && Going(nodes, s)
    requires Enabled(s, a) && Faithful(mode, s, a)
    ensures Ran(nodes, mode, s0, acts + [a], Step(nodes, s, a)) && Going(nodes, Step(nodes, s, a))
    ensures Weight(nodes, Step(nodes, s, a)) < Weight(nodes, s)
  {
    hide Pop, Join, Faithful, IsRun, FaithfulRun, Weight, Once, CountsValid;
    RunSnoc(nodes, mode, s0, acts, a);
    CountsStayValid(nodes, s, a);
    match a
    case Take(refuse) => PopProgress(nodes, s, refuse);
    case Finish(id, r) => JoinProgress(nodes, s, id, r);
  }

  lemma RunningIsNode(nodes: seq<Node>, s: State, id: Id)
    requires Going(nodes, s) && id in s.running
    ensures id in Ids(nodes) && (s.running[id].Count? ==> s.running[id].result.Valid())
  {
  }

  lemma NothingRan(nodes: seq<Node>, mode: Mode, s: State)
    ensures Ran(nodes, mode, s, [], s)
  {
  }

  /** What the dispatch that finishes `i`th hands back for a node: shared counters may enter into it. */
  type Results = (nat, Node) -> TaskResult

  /** The states handed back are those of one worker. */
  ghost predicate OfWorker(results: Results, work: Worker) {
    forall i, n :: results(i, n).state == work(n)
  }

  class RunLoop {
    const nodes: seq<Node>
    const dependents: map<Id, seq<Id>>
    const afterDependents: map<Id, seq<Id>>
    var inDegree: map<Id, nat>
    var afterPending: map<Id, nat>
    var ready: seq<Id>
    var enqueued: set<Id>
    var nodeState: map<Id, NodeState>
    var terminal: set<Id>
    var terminalOrder: seq<Id>
    ghost var spawned: seq<Id>
    var running: map<Id, Task>
    var refused: bool
    var breachAnnounced: bool
    var log: seq<Event>

    ghost function Snap(): State
      reads this
    {
      State(Queue(inDegree, afterPending, ready, enqueued), nodeState, terminal, terminalOrder, spawned, running, refused, breachAnnounced, log)
    }

    /** The reverse indices are those of the graph. */
    ghost predicate Valid()
    {
      && dependents.Keys == Ids(nodes) && afterDependents.Keys == Ids(nodes)
      && (forall id | id in Ids(nodes) :: dependents[id] == Dependents(nodes, id))
      && (forall id | id in Ids(nodes) :: afterDependents[id] == AfterDependents(nodes, id))
    }

    constructor (nodes: seq<Node>)
      ensures this.nodes == nodes && Valid() && Snap() == Blank(nodes)
    {
      hide Dependents, AfterDependents, EdgeCount, AfterCount;
      var degrees, byDependency := Indices.BuildDependencies(nodes);
      var pending, byAfter := Indices.BuildAfters(nodes);
      this.nodes := nodes;
      inDegree, dependents := degrees, byDependency;
      afterPending, afterDependents := pending, byAfter;
      ready, enqueued := [], {};
      nodeState := PendingStates(nodes);
      terminal, terminalOrder, spawned, running := {}, [], [], map[];
      refused, breachAnnounced := false, false;
      log := [DagSubmitted];
    }

    method DropDegrees(ids: seq<Id>)
      modifies this`inDegree
      ensures inDegree == Drop(old(inDegree), ids)
    {
      for i := 0 to |ids|
        invariant Drop(inDegree, ids[i..]) == Drop(old(inDegree), ids)
      {
        assert ids[i..][0] == ids[i] && ids[i..][1..] == ids[i + 1..];
        if ids[i] in inDegree && inDegree[ids[i]] > 0 {
          inDegree := inDegree[ids[i] := inDegree[ids[i]] - 1];
        }
      }
    }

    method DropPending(ids: seq<Id>)
      modifies this`afterPending
      ensures afterPending == Drop(old(afterPending), ids)
    {
      for i := 0 to |ids|
        invariant Drop(afterPending, ids[i..]) == Drop(old(afterPending), ids)
      {
        assert ids[i..][0] == ids[i] && ids[i..][1..] == ids[i + 1..];
        if ids[i] in afterPending && afterPending[ids[i]] > 0 {
          afterPending := afterPending[ids[i] := afterPending[ids[i]] - 1];
        }
      }
    }

    method Mark(id: Id, ns: NodeState, e: Event)
      modifies this`nodeState, this`log, this`terminal, this`terminalOrder
      ensures Snap() == SetTerminal(old(Snap()), id, ns, e)
    {
      nodeState := nodeState[id := ns];
      if id !in terminalOrder {
        terminalOrder := terminalOrder + [id];
      }
      Send(e);
      terminal := terminal + {id};
    }

    /** One node of the checkpoint; ids that are no nodes any more are passed over. */
    method SeedNode(outputs: map<Id, string>, status: Status, id: Id)
      requires Valid()
      modifies this
      ensures Snap() == SeedOne(nodes, outputs, status, old(Snap()), id)
    {
      hide Drop, Dependents, AfterDependents, SeedEvent, SetTerminal;
      if GetNode(nodes, id).None? {
        return;
      }
      Mark(id, SeedState(status, OutputAt(outputs, id)), SeedEvent(id, status));
      if status == Done {
        DropDegrees(dependents[id]);
      }
      DropPending(afterDependents[id]);
    }

    method SeedSet(outputs: map<Id, string>, status: Status, ids: set<Id>) returns (ghost order: seq<Id>)
      requires Valid()
      modifies this
      ensures Enumerates(order, ids) && Snap() == SeedEach(nodes, outputs, status, old(Snap()), order)
    {
      hide SeedOne, Valid;
      order := [];
      var left := ids;
      while left != {}
        invariant left <= ids && Enumerates(order, ids - left)
        invariant Snap() == SeedEach(nodes, outputs, status, old(Snap()), order)
        decreases |left|
      {
        var id :| id in left;
        left := left - {id};
        SeedNode(outputs, status, id);
        assert (order + [id])[..|order|] == order;
        order := order + [id];
      }
    }

    method CascadeBlocked()
      modifies this`nodeState, this`log, this`terminal, this`terminalOrder
      ensures Snap() == Cascade(old(Snap()), nodes)
    {
      hide HasFailedDep, SetTerminal;
      for i := 0 to |nodes|
        invariant Snap() == Cascade(old(Snap()), nodes[..i])
      {
        assert nodes[..i + 1][..i] == nodes[..i];
        var node := nodes[i];
        if node.id !in terminal {
          var hasTerminalFail := exists d :: d in node.dependsOn && d in terminal && (Has(nodeState, d, Failed) || Has(nodeState, d, Blocked));
          HasFailedDepIs(node, Snap());
          if hasTerminalFail {
            Mark(node.id, BLOCKED, NodeBlocked(node.id));
          }
        }
      }
      assert nodes[..|nodes|] == nodes;
    }

    /** The start from a checkpoint, up to and including the first ready queue. */
    method SeedFrom(cp: Checkpoint) returns (ghost done: seq<Id>, ghost failed: seq<Id>, ghost blocked: seq<Id>, ghost order: seq<Id>)
      requires Valid() && Snap() == Blank(nodes)
      modifies this
      ensures ResumeSound.Orders(cp, done, failed, blocked)
      ensures var seeded := Cascade(ResumeSound.SeedSetsOf(nodes, cp, done, failed, blocked), nodes);
        Enumerates(order, ReadyIds(seeded.queue, seeded.terminal)) && Snap() == Start(seeded, order)
    {
      hide SeedEach, Cascade, Valid, Enumerates, ReadyIds;
      done := SeedSet(cp.outputs, Done, cp.completed);
      failed := SeedSet(cp.outputs, Failed, cp.failed);
      blocked := SeedSet(cp.outputs, Blocked, cp.blocked);
      CascadeBlocked();
      order := InitReady(terminal);
    }

    /** Everything that nothing holds back, in any order. */
    method InitReady(excluded: set<Id>) returns (ghost order: seq<Id>)
      modifies this`ready, this`enqueued
      ensures Enumerates(order, ReadyIds(old(Snap()).queue, excluded)) && Snap() == Start(old(Snap()), order)
    {
      var ids := ReadyIds(Queue(inDegree, afterPending, ready, enqueued), excluded);
      var left := ids;
      ready := [];
      while left != {}
        invariant left <= ids && Enumerates(ready, ids - left)
        decreases |left|
      {
        hide ReadyIds;
        var id :| id in left;
        left := left - {id};
        ready := ready + [id];
      }
      order := ready;
      enqueued := set k | k in ready;
    }

    method Enqueue(id: Id)
      modifies this`ready, this`enqueued
      ensures Snap() == old(Snap()).(queue := TryEnqueue(old(Snap()).queue, id))
    {
      if id !in enqueued && id in inDegree && inDegree[id] == 0 && (id in afterPending ==> afterPending[id] == 0) {
        ready := ready + [id];
        enqueued := enqueued + {id};
      }
    }

    method ReleaseAfterAll(ids: seq<Id>)
      modifies this`ready, this`enqueued, this`afterPending
      ensures Snap() == old(Snap()).(queue := ReleaseAfters(old(Snap()).queue, ids))
    {
      for i := 0 to |ids|
        invariant Snap() == old(Snap()).(queue := Snap().queue)
        invariant ReleaseAfters(Snap().queue, ids[i..]) == ReleaseAfters(old(Snap()).queue, ids)
      {
        assert ids[i..][0] == ids[i] && ids[i..][1..] == ids[i + 1..];
        if ids[i] in afterPending && afterPending[ids[i]] > 0 {
          afterPending := afterPending[ids[i] := afterPending[ids[i]] - 1];
          Enqueue(ids[i]);
        }
      }
    }

    method ReleaseDependency(id: Id)
      modifies this`ready, this`enqueued, this`inDegree
      ensures Snap() == old(Snap()).(queue := ReleaseDep(old(Snap()).queue, id))
    {
      if id in inDegree {
        inDegree := inDegree[id := if inDegree[id] == 0 then 0 else inDegree[id] - 1];
        if inDegree[id] == 0 {
          Enqueue(id);
        }
      }
    }

    method Send(e: Event)
      modifies this`log
      ensures Snap() == Emit(old(Snap()), e)
    {
      log := log + [e];
    }

    method AnnounceBreach(message: string)
      modifies this`log, this`breachAnnounced
      ensures Snap() == Announce(old(Snap()), message)
    {
      if !breachAnnounced {
        Send(BudgetBreached(message));
        breachAnnounced := true;
      }
    }

    method RecordTerminal(id: Id, ns: NodeState, e: Event)
      requires Valid() && id in Ids(nodes)
      modifies this
      ensures Snap() == Settle(nodes, old(Snap()), id, ns, e)
    {
      hide ReleaseAfters, AfterDependents, Ids;
      nodeState := nodeState[id := ns];
      Send(e);
      if id !in terminalOrder {
        terminalOrder := terminalOrder + [id];
      }
      terminal := terminal + {id};
      ReleaseAfterAll(afterDependents[id]);
    }

    /** The worklist of the transitive skip. */
    method SkipFrom(first: Id)
      requires Valid() && first in Ids(nodes)
      modifies this
      ensures Snap() == Skip(nodes, old(Snap()), [first], {})
    {
      hide Settle, ReleaseAfters, ReleaseDep, TryEnqueue;
      var stack, processed := [first], {};
      while stack != []
        invariant forall k | k in stack :: k in Ids(nodes)
        invariant Skip(nodes, Snap(), stack, processed) == Skip(nodes, old(Snap()), [first], {})
        decreases Ids(nodes) - processed, |stack|
      {
        var id := stack[|stack| - 1];
        assert id in stack;
        stack := stack[..|stack| - 1];
        if id !in processed {
          processed := processed + {id};
          var pushes := SkipNode(id);
          stack := stack + pushes;
        }
      }
    }

    /** One node of the cascade; returns its own fix nodes, which are skipped in turn. */
    method SkipNode(id: Id) returns (pushes: seq<Id>)
      requires Valid() && id in Ids(nodes)
      modifies this
      ensures Snap() == SkipTurn(nodes, old(Snap()), id)
      ensures pushes == SkipPushes(nodes, Snap().nodeState, id, Dependents(nodes, id))
    {
      hide Settle, ReleaseAfters, SkipNotify, SkipPushes;
      if id !in terminal {
        RecordTerminal(id, SKIPPED, NodeDone(id, "", ""));
      } else {
        ReleaseAfterAll(afterDependents[id]);
      }
      pushes := NotifySkipped(id);
    }

    method NotifySkipped(id: Id) returns (pushes: seq<Id>)
      requires Valid() && id in Ids(nodes)
      modifies this`ready, this`enqueued, this`inDegree
      ensures Snap() == old(Snap()).(queue := SkipNotify(nodes, nodeState, old(Snap()).queue, id, Dependents(nodes, id)))
      ensures pushes == SkipPushes(nodes, nodeState, id, Dependents(nodes, id))
    {
      hide ReleaseDep, SkipNotify, SkipPushes;
      pushes := [];
      var nested := dependents[id];
      SkipUnrolled(nodes, nodeState, id, nested);
      for i := 0 to |nested|
        invariant Snap() == old(Snap()).(queue := Snap().queue)
        invariant SkipNotify(nodes, nodeState, Snap().queue, id, nested[i..]) == SkipNotify(nodes, nodeState, old(Snap()).queue, id, nested)
        invariant pushes + SkipPushes(nodes, nodeState, id, nested[i..]) == SkipPushes(nodes, nodeState, id, nested)
      {
        var g := nested[i];
        SkipUnroll(nodes, nodeState, Snap().queue, id, nested, i);
        if StatusOf(nodeState, g) == Pending {
          if IsGatedOn(nodes, g, id) {
            AppendOne(pushes, g, SkipPushes(nodes, nodeState, id, nested[i + 1..]));
            pushes := pushes + [g];
          } else {
            ReleaseDependency(g);
          }
        }
      }
    }

    /** What a finished node means for one dependent. */
    method NotifyDependent(id: Id, status: Status, dependent: Id)
      requires Valid() && dependent in Ids(nodes)
      modifies this
      ensures Snap() == NotifyOne(nodes, old(Snap()), id, status, dependent)
    {
      hide Settle, ReleaseDep, Skip;
      var gatedOnThis := IsGatedOn(nodes, dependent, id);
      if status == Done {
        if gatedOnThis {
          SkipFrom(dependent);
        } else {
          ReleaseDependency(dependent);
        }
      } else {
        if gatedOnThis {
          ReleaseDependency(dependent);
        } else {
          var blocked := if dependent in nodeState then nodeState[dependent].(status := Blocked) else BLOCKED;
          RecordTerminal(dependent, blocked, NodeBlocked(dependent));
        }
      }
    }

    method DependentsOf(id: Id) returns (deps: seq<Id>)
      requires Valid() && id in Ids(nodes)
      ensures deps == Dependents(nodes, id)
    {
      deps := dependents[id];
    }

    method NotifyDependents(id: Id, status: Status)
      requires Valid() && id in Ids(nodes)
      modifies this
      ensures Snap() == Notify(nodes, old(Snap()), id, status, Dependents(nodes, id))
    {
      hide NotifyOne, Notify, Valid;
      var deps := DependentsOf(id);
      NotifyNone(nodes, id, status, deps);
      for i := 0 to |deps|
        invariant Notify(nodes, Snap(), id, status, deps[i..]) == Notify(nodes, old(Snap()), id, status, deps)
      {
        NotifyUnroll(nodes, Snap(), id, status, deps, i);
        NotifyDependent(id, status, deps[i]);
      }
    }

    method ReportDispatch(id: Id, events: seq<DispatchEvent>)
      modifies this`log, this`breachAnnounced
      ensures Snap() == Report(old(Snap()), id, events)
    {
      for i := 0 to |events|
        invariant Report(Snap(), id, events[i..]) == Report(old(Snap()), id, events)
      {
        assert events[i..][0] == events[i] && events[i..][1..] == events[i + 1..];
        match events[i]
        case CeilingTripped(message) => AnnounceBreach(message);
        case e => log := log + Translate(id, e);
      }
    }

    method TakeTask(id: Id, r: TaskResult)
      modifies this`running, this`refused, this`log, this`breachAnnounced
      ensures Snap() == Reported(old(Snap()), id, r)
    {
      hide Report;
      running := running - {id};
      refused := false;
      Send(NodeDispatched(id, OrEmpty(r.taskModel), r.attempt));
      ReportDispatch(id, r.events);
    }

    /** A task was joined. */
    method JoinTask(id: Id, r: TaskResult)
      requires Valid() && id in Ids(nodes)
      modifies this
      ensures Snap() == Join(nodes, old(Snap()), id, r)
    {
      hide Settle, Notify, Report, FinalEvent;
      TakeTask(id, r);
      RecordTerminal(id, r.state, FinalEvent(id, r));
      NotifyDependents(id, r.state.status);
    }

    /** One turn of the ready loop. */
    method TakeReady(refuse: Option<string>)
      requires ready != []
      modifies this
      ensures Snap() == Pop(nodes, old(Snap()), refuse)
    {
      hide Template.Interpolate, Quorum.StateOf, GetNode, OutputsOf;
      var id := ready[0];
      ready := ready[1..];
      if StatusOf(nodeState, id) != Pending {
        return;
      }
      var found := GetNode(nodes, id);
      if found.Some? {
        if refuse.Some? {
          AnnounceBreach(refuse.value);
          ready := [id] + ready;
          refused := true;
          return;
        }
        var node := found.value;
        var outs := OutputsOf(nodeState);
        var prompt := Template.InterpolateOutputs(node.prompt, outs);
        node := node.(prompt := prompt);
        spawned := spawned + [id];
        if node.nodeType == Some("quorum") {
          var state := Quorum.ComputeQuorum(node, outs);
          running := running[id := Count(TaskResult(None, 1, state, None, [], false))];
        } else {
          running := running[id := Dispatch(node)];
        }
      }
    }

    /** The ready loop: until the queue is empty or the gate refuses. */
    method DrainReady(gate: nat -> Option<string>, checks: nat, ghost mode: Mode, ghost s0: State, ghost past: seq<Action>)
      returns (checks': nat, ghost acts: seq<Action>)
      requires Ran(nodes, mode, s0, past, Snap()) && Going(nodes, Snap())
      modifies this
      ensures Ran(nodes, mode, s0, acts, Snap()) && Going(nodes, Snap())
      ensures ready == [] || refused
      ensures Weight(nodes, Snap()) <= old(Weight(nodes, Snap()))
      ensures (forall i :: gate(i) == None) && !old(refused) ==> !refused
    {
      hide Ran, Going, Weight, Pop;
      acts, checks' := past, checks;
      while ready != [] && !refused
        invariant Ran(nodes, mode, s0, acts, Snap()) && Going(nodes, Snap())
        invariant Weight(nodes, Snap()) <= old(Weight(nodes, Snap()))
        invariant (forall i :: gate(i) == None) && !old(refused) ==> !refused
        decreases Weight(nodes, Snap())
      {
        var answer := gate(checks');
        StepRan(nodes, mode, s0, acts, Snap(), Take(answer));
        UnrefusedStays(nodes, Snap(), answer);
        TakeReady(answer);
        acts, checks' := acts + [Take(answer)], checks' + 1;
      }
    }

    /** The run: drain the queue, then await one task, whichever finishes first. */
    method Run(results: Results, gate: nat -> Option<string>, ghost mode: Mode) returns (ghost acts: seq<Action>)
      requires Valid() && Going(nodes, Snap()) && forall i, n :: results(i, n).Valid()
      requires mode.work.Some? ==> OfWorker(results, mode.work.value)
      modifies this
      ensures Ran(nodes, mode, old(Snap()), acts, Snap()) && Exited(Snap())
      ensures (forall i :: gate(i) == None) && !old(refused) ==> !refused
    {
      hide Ran, Going, Weight, Join;
      ghost var s0 := Snap();
      NothingRan(nodes, mode, s0);
      var checks, joined := 0, 0;
      checks, acts := DrainReady(gate, checks, mode, s0, []);
      while running.Keys != {}
        invariant Ran(nodes, mode, s0, acts, Snap()) && Going(nodes, Snap())
        invariant ready == [] || refused
        invariant (forall i :: gate(i) == None) && !old(refused) ==> !refused
        decreases Weight(nodes, Snap())
      {
        var id :| id in running;
        RunningIsNode(nodes, Snap(), id);
        var r := match running[id] case Dispatch(node) => results(joined, node) case Count(result) => result;
        StepRan(nodes, mode, s0, acts, Snap(), Finish(id, r));
        UnrefusedAfterJoin(nodes, Snap(), id, r);
        JoinTask(id, r);
        joined := joined + 1;
        checks, acts := DrainReady(gate, checks, mode, s0, acts + [Finish(id, r)]);
      }
    }
  }

  lemma HasFailedDepIs(n: Node, s: State)
    ensures HasFailedDep(n, s) <==> exists d :: d in n.dependsOn && d in s.terminal && (Has(s.nodeState, d, Failed) || Has(s.nodeState, d, Blocked))
  {
  }

  lemma UnrefusedStays(nodes: seq<Node>, s: State, refuse: Option<string>)
    requires s.queue.ready != []
    ensures refuse.None? && !s.refused ==> !Pop(nodes, s, refuse).refused
  {
    hide TaskOf;
  }

  lemma UnrefusedAfterJoin(nodes: seq<Node>, s: State, id: Id, r: TaskResult)
    requires Going(nodes, s) && id in s.running
    ensures !Join(nodes, s, id, r).refused
  {
    hide Join, Once;
    JoinKeeps(Ids(nodes), nodes, s, id, r);
  }

  lemma AppendOne(a: seq<Id>, g: Id, b: seq<Id>)
    ensures (a + [g]) + b == a + ([g] + b)
  {
  }

  lemma NotifyUnroll(nodes: seq<Node>, s: State, id: Id, status: Status, deps: seq<Id>, i: nat)
    requires i < |deps| && forall k | k in deps :: k in Ids(nodes)
    ensures deps[i] in Ids(nodes)
    ensures Notify(nodes, s, id, status, deps[i..]) == Notify(nodes, NotifyOne(nodes, s, id, status, deps[i]), id, status, deps[i + 1..])
  {
    hide NotifyOne;
    assert deps[i..][1..] == deps[i + 1..];
  }

  lemma NotifyNone(nodes: seq<Node>, id: Id, status: Status, deps: seq<Id>)
    ensures deps[0..] == deps && deps[|deps|..] == []
    ensures forall s :: Notify(nodes, s, id, status, []) == s
  {
  }

  lemma SkipUnroll(nodes: seq<Node>, st: map<Id, NodeState>, q: Queue, id: Id, deps: seq<Id>, i: nat)
    requires i < |deps|
    ensures var q' := if StatusOf(st, deps[i]) == Pending && !IsGatedOn(nodes, deps[i], id) then ReleaseDep(q, deps[i]) else q;
      SkipNotify(nodes, st, q, id, deps[i..]) == SkipNotify(nodes, st, q', id, deps[i + 1..])
    ensures var rest := SkipPushes(nodes, st, id, deps[i + 1..]);
      SkipPushes(nodes, st, id, deps[i..]) == if StatusOf(st, deps[i]) == Pending && IsGatedOn(nodes, deps[i], id) then [deps[i]] + rest else rest
  {
    assert deps[i..][1..] == deps[i + 1..];
  }

  lemma SkipUnrolled(nodes: seq<Node>, st: map<Id, NodeState>, id: Id, deps: seq<Id>)
    ensures deps[0..] == deps && deps[|deps|..] == []
    ensures forall q :: SkipNotify(nodes, st, q, id, []) == q
    ensures SkipPushes(nodes, st, id, []) == []
  {
  }
}
