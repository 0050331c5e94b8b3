/** What holds of every run on any graph whatsoever: no node is spawned twice, and every run ends. */
module LoopProgress {
  import opened Wrappers
  import opened Dag
  import opened Events
  import opened Loop
  import opened LoopInvariant

  /** Queued and spawned nodes are different nodes, each enqueued once. */
  ghost predicate Once(ids: set<Id>, q: Queue, spawned: seq<Id>) {
    && q.inDegree.Keys <= ids
    && q.enqueued <= ids
    && NoDup(q.ready) && NoDup(spawned)
    && (forall k | k in q.ready :: k in q.enqueued && k !in spawned)
    && (forall k | k in spawned :: k in q.enqueued)
  }

  lemma TryEnqueueOnce(ids: set<Id>, q: Queue, spawned: seq<Id>, id: Id)
    requires Once(ids, q, spawned)
    ensures Once(ids, TryEnqueue(q, id), spawned)
  {
    if id !in q.enqueued {
      assert id !in q.ready && id !in spawned;
    }
  }

  lemma ReleaseAfterOnce(ids: set<Id>, q: Queue, spawned: seq<Id>, id: Id)
    requires Once(ids, q, spawned)
    ensures Once(ids, ReleaseAfter(q, id), spawned)
  {
    hide NoDup, TryEnqueue;
    if id in q.afterPending && q.afterPending[id] > 0 {
      TryEnqueueOnce(ids, q.(afterPending := q.afterPending[id := q.afterPending[id] - 1]), spawned, id);
    }
  }

  lemma {:induction false} ReleaseAftersOnce(ids: set<Id>, q: Queue, spawned: seq<Id>, list: seq<Id>)
    requires Once(ids, q, spawned)
    ensures Once(ids, ReleaseAfters(q, list), spawned)
    decreases list
  {
    hide Once, ReleaseAfter;
    if list != [] {
      ReleaseAfterOnce(ids, q, spawned, list[0]);
      ReleaseAftersOnce(ids, ReleaseAfter(q, list[0]), spawned, list[1..]);
    }
  }

  lemma ReleaseDepOnce(ids: set<Id>, q: Queue, spawned: seq<Id>, id: Id)
    requires Once(ids, q, spawned)
    ensures Once(ids, ReleaseDep(q, id), spawned)
  {
    hide NoDup, TryEnqueue;
    if id in q.inDegree {
      TryEnqueueOnce(ids, q.(inDegree := q.inDegree[id := if q.inDegree[id] == 0 then 0 else q.inDegree[id] - 1]), spawned, id);
    }
  }

  lemma {:induction false} SkipNotifyOnce(ids: set<Id>, nodes: seq<Node>, st: map<Id, NodeState>, q: Queue, spawned: seq<Id>, id: Id, deps: seq<Id>)
    requires Once(ids, q, spawned)
    ensures Once(ids, SkipNotify(nodes, st, q, id, deps), spawned)
    decreases deps
  {
    hide Once, ReleaseDep;
    if deps != [] {
      ReleaseDepOnce(ids, q, spawned, deps[0]);
      var q' := if StatusOf(st, deps[0]) == Pending && !IsGatedOn(nodes, deps[0], id) then ReleaseDep(q, deps[0]) else q;
      SkipNotifyOnce(ids, nodes, st, q', spawned, id, deps[1..]);
    }
  }

  /** A transition that spawns nothing, finishes no task, and keeps the queue in order. */
  ghost predicate Keeps(ids: set<Id>, s: State, s': State) {
    && s'.spawned == s.spawned && s'.running == s.running && s'.refused == s.refused
    && (Once(ids, s.queue, s.spawned) ==> Once(ids, s'.queue, s'.spawned))
  }

  lemma SkipTurnKeeps(ids: set<Id>, nodes: seq<Node>, s: State, id: Id)
    ensures Keeps(ids, s, SkipTurn(nodes, s, id))
  {
    hide Once, ReleaseAfters, SkipNotify;
    if Once(ids, s.queue, s.spawned) {
      ReleaseAftersOnce(ids, s.queue, s.spawned, AfterDependents(nodes, id));
      var s1 := SkipOne(nodes, s, id);
      SkipNotifyOnce(ids, nodes, s1.nodeState, s1.queue, s.spawned, id, Dependents(nodes, id));
    }
  }

  lemma {:induction false} SkipKeeps(ids: set<Id>, nodes: seq<Node>, s: State, stack: seq<Id>, processed: set<Id>)
    requires forall k | k in stack :: k in Ids(nodes)
    ensures Keeps(ids, s, Skip(nodes, s, stack, processed))
    decreases Ids(nodes) - processed, |stack|
  {
    hide Once, SkipTurn, SkipPushes;
    if stack != [] {
      var id := stack[|stack| - 1];
      var rest := stack[..|stack| - 1];
      assert id in stack;
      if id in processed {
        SkipKeeps(ids, nodes, s, rest, processed);
      } else {
        SkipTurnKeeps(ids, nodes, s, id);
        var s' := SkipTurn(nodes, s, id);
        SkipKeeps(ids, nodes, s', rest + SkipPushes(nodes, s'.nodeState, id, Dependents(nodes, id)), processed + {id});
      }
    }
  }

  lemma {:induction false} NotifyKeeps(ids: set<Id>, nodes: seq<Node>, s: State, id: Id, status: Status, deps: seq<Id>)
    requires forall k | k in deps :: k in Ids(nodes)
    ensures Keeps(ids, s, Notify(nodes, s, id, status, deps))
    decreases deps
  {
    hide Once, Skip, ReleaseDep, ReleaseAfters;
    if deps != [] {
      var s' := NotifyOne(nodes, s, id, status, deps[0]);
      assert deps[0] in deps;
      SkipKeeps(ids, nodes, s, [deps[0]], {});
      if Once(ids, s.queue, s.spawned) {
        ReleaseDepOnce(ids, s.queue, s.spawned, deps[0]);
        ReleaseAftersOnce(ids, s.queue, s.spawned, AfterDependents(nodes, deps[0]));
      }
      NotifyKeeps(ids, nodes, s', id, status, deps[1..]);
    }
  }

  lemma {:induction false} ReportKeeps(ids: set<Id>, s: State, id: Id, events: seq<DispatchEvent>)
    ensures Keeps(ids, s, Report(s, id, events)) && Report(s, id, events).queue == s.queue
    decreases events
  {
    hide Once;
    if events != [] {
      var s1 := match events[0]
        case CeilingTripped(message) => Announce(s, message)
        case e => s.(log := s.log + Translate(id, e));
      ReportKeeps(ids, s1, id, events[1..]);
    }
  }

  lemma JoinKeeps(ids: set<Id>, nodes: seq<Node>, s: State, id: Id, r: TaskResult)
    requires Once(ids, s.queue, s.spawned)
    ensures var s' := Join(nodes, s, id, r);
      Once(ids, s'.queue, s'.spawned) && s'.spawned == s.spawned && s'.running == s.running - {id} && !s'.refused
  {
    hide Once, Report, Notify, ReleaseAfters;
    var s1 := Emit(s.(running := s.running - {id}, refused := false), NodeDispatched(id, OrEmpty(r.taskModel), r.attempt));
    ReportKeeps(ids, s1, id, r.events);
    var s2 := Report(s1, id, r.events);
    ReleaseAftersOnce(ids, s2.queue, s2.spawned, AfterDependents(nodes, id));
    var s3 := Settle(nodes, s2, id, r.state, FinalEvent(id, r));
    NotifyKeeps(ids, nodes, s3, id, r.state.status, Dependents(nodes, id));
  }

  // ----- Every step makes progress

  /** Spawned nodes are nodes, and running ones were spawned. */
  ghost predicate Progress(nodes: seq<Node>, s: State) {
    && Once(Ids(nodes), s.queue, s.spawned)
    && (forall k | k in s.running :: k in s.spawned)
  }

  function Elements(s: seq<Id>): set<Id> {
    set k | k in s
  }

  function Scaled(tasks: nat, n: nat): nat {
    tasks * (n + 2)
  }

  /** Twice the nodes not yet spawned, and the tasks in flight. */
  function Tasks(nodes: seq<Node>, s: State): nat {
    2 * |Ids(nodes) - Elements(s.spawned)| + |s.running.Keys|
  }

  function Turns(s: State): nat {
    if s.refused then 0 else 1 + |s.queue.ready|
  }

  /** Lexicographic: first the tasks, then the turns of the ready loop, of which there are at most n + 1. */
  function Weight(nodes: seq<Node>, s: State): nat {
    Scaled(Tasks(nodes, s), |Ids(nodes)|) + Turns(s)
  }

  lemma {:induction false} DistinctFit(s: seq<Id>, ids: set<Id>)
    requires NoDup(s) && forall k | k in s :: k in ids
    ensures |s| <= |ids|
  {
    if s != [] {
      var last := s[|s| - 1];
      var front := s[..|s| - 1];
      assert last in ids;
      DistinctFit(front, ids - {last});
    }
  }

  lemma SpawnSets(ids: set<Id>, spawned: seq<Id>, running: set<Id>, id: Id)
    requires id in ids && id !in spawned && id !in running
    ensures |ids - Elements(spawned + [id])| == |ids - Elements(spawned)| - 1
    ensures |running + {id}| == |running| + 1
  {
    assert ids - Elements(spawned + [id]) == ids - Elements(spawned) - {id};
  }

  lemma WeightDrops(n: nat, tasks: nat, tasks': nat, turns: nat, turns': nat)
    requires tasks' < tasks && turns' <= n + 1
    ensures Scaled(tasks', n) + turns' < Scaled(tasks, n) + turns
  {
    assert (tasks' + 1) * (n + 2) <= tasks * (n + 2);
  }

  lemma QueueFits(nodes: seq<Node>, s: State)
    requires Progress(nodes, s)
    ensures |s.queue.ready| <= |Ids(nodes)|
  {
    DistinctFit(s.queue.ready, Ids(nodes));
  }

  lemma TakeOnce(ids: set<Id>, q: Queue, spawned: seq<Id>)
    requires Once(ids, q, spawned) && q.ready != []
    ensures Once(ids, q.(ready := q.ready[1..]), spawned)
    ensures Once(ids, q.(ready := q.ready[1..]), spawned + [q.ready[0]])
    ensures q.ready[0] in ids && q.ready[0] !in spawned
  {
    assert q.ready[0] in q.ready;
    assert q.ready == [q.ready[0]] + q.ready[1..];
  }

  lemma PopProgress(nodes: seq<Node>, s: State, refuse: Option<string>)
    requires Progress(nodes, s) && Enabled(s, Take(refuse))
    ensures Progress(nodes, Pop(nodes, s, refuse))
    ensures Weight(nodes, Pop(nodes, s, refuse)) < Weight(nodes, s)
  {
    hide Once, TaskOf, Scaled, Tasks, Elements;
    var id := s.queue.ready[0];
    TakeOnce(Ids(nodes), s.queue, s.spawned);
    if StatusOf(s.nodeState, id) == Pending && refuse.None? {
      SpawnProgress(nodes, s, id, TaskOf(GetNode(nodes, id).value, s.nodeState));
    } else {
      SameTasks(nodes, s, Pop(nodes, s, refuse));
    }
  }

  lemma SameTasks(nodes: seq<Node>, s: State, s': State)
    requires s'.spawned == s.spawned && s'.running == s.running
    ensures Tasks(nodes, s') == Tasks(nodes, s)
  {
  }

  lemma SpawnProgress(nodes: seq<Node>, s: State, id: Id, task: Task)
    requires Progress(nodes, s) && s.queue.ready != [] && id == s.queue.ready[0] && id !in s.spawned && id in Ids(nodes)
    ensures var s' := s.(queue := s.queue.(ready := s.queue.ready[1..]), spawned := s.spawned + [id], running := s.running[id := task]);
      (forall k | k in s'.running :: k in s'.spawned) && Weight(nodes, s') < Weight(nodes, s)
  {
    hide Once, Scaled, Elements;
    var s' := s.(queue := s.queue.(ready := s.queue.ready[1..]), spawned := s.spawned + [id], running := s.running[id := task]);
    assert s'.running.Keys == s.running.Keys + {id};
    QueueFits(nodes, s);
    SpawnSets(Ids(nodes), s.spawned, s.running.Keys, id);
    WeightDrops(|Ids(nodes)|, Tasks(nodes, s), Tasks(nodes, s'), Turns(s), Turns(s'));
  }

  lemma JoinProgress(nodes: seq<Node>, s: State, id: Id, r: TaskResult)
    requires Progress(nodes, s) && id in s.running
    ensures Progress(nodes, Join(nodes, s, id, r))
    ensures Weight(nodes, Join(nodes, s, id, r)) < Weight(nodes, s)
  {
    hide Join, Once, Scaled, Elements;
    JoinKeeps(Ids(nodes), nodes, s, id, r);
    var s' := Join(nodes, s, id, r);
    assert s'.running.Keys == s.running.Keys - {id};
    QueueFits(nodes, s');
    WeightDrops(|Ids(nodes)|, Tasks(nodes, s), Tasks(nodes, s'), Turns(s), Turns(s'));
  }

  lemma {:induction false} RunProgress(nodes: seq<Node>, s: State, acts: seq<Action>)
    requires Progress(nodes, s) && IsRun(nodes, s, acts)
    ensures Progress(nodes, After(nodes, s, acts))
    ensures |acts| + Weight(nodes, After(nodes, s, acts)) <= Weight(nodes, s)
    decreases |acts|
  {
    hide Progress, Weight, Pop, Join;
    if acts != [] {
      match acts[0] {
        case Take(refuse) => PopProgress(nodes, s, refuse);
        case Finish(id, r) => JoinProgress(nodes, s, id, r);
      }
      RunProgress(nodes, Step(nodes, s, acts[0]), acts[1..]);
    }
  }

  lemma InitialProgress(nodes: seq<Node>, s: State)
    requires Initial(nodes, s)
    ensures Progress(nodes, s)
    ensures Weight(nodes, s) <= Scaled(2 * |Ids(nodes)|, |Ids(nodes)|) + |Ids(nodes)| + 1
  {
    hide Scaled, ReadyIds, Blank, Start, Once, Enumerates;
    var order: seq<Id> :| Enumerates(order, ReadyIds(Blank(nodes).queue, {})) && s == Start(Blank(nodes), order);
    InitialOnce(nodes, order);
    InitialFields(nodes, order);
    InitialWeight(nodes, s);
  }

  lemma InitialWeight(nodes: seq<Node>, s: State)
    requires Once(Ids(nodes), s.queue, s.spawned)
    requires s.spawned == [] && s.running.Keys == {} && !s.refused
    ensures Progress(nodes, s)
    ensures Weight(nodes, s) <= Scaled(2 * |Ids(nodes)|, |Ids(nodes)|) + |Ids(nodes)| + 1
  {
    hide Once, Scaled;
    QueueFits(nodes, s);
    assert Ids(nodes) - Elements([]) == Ids(nodes);
    assert Tasks(nodes, s) == 2 * |Ids(nodes)|;
  }

  lemma InitialFields(nodes: seq<Node>, order: seq<Id>)
    ensures var s := Start(Blank(nodes), order);
      s.spawned == [] && s.running.Keys == {} && !s.refused
  {
  }

  lemma InitialOnce(nodes: seq<Node>, order: seq<Id>)
    requires Enumerates(order, ReadyIds(Blank(nodes).queue, {}))
    ensures Once(Ids(nodes), Start(Blank(nodes), order).queue, [])
  {
  }

  /** At most once: on any graph, in any run, no node is spawned twice, and only nodes are. */
  lemma SpawnedOnce(nodes: seq<Node>, s: State, acts: seq<Action>)
    requires Initial(nodes, s) && IsRun(nodes, s, acts)
    ensures var spawned := After(nodes, s, acts).spawned;
      NoDup(spawned) && forall k | k in spawned :: k in Ids(nodes)
  {
    InitialProgress(nodes, s);
    RunProgress(nodes, s, acts);
  }

  /** Termination: no run on a graph with n ids takes more than 2n(n + 2) + n + 1 steps, refused steps included. */
  lemma RunsAreBounded(nodes: seq<Node>, s: State, acts: seq<Action>)
    requires Initial(nodes, s) && IsRun(nodes, s, acts)
    ensures var n := |Ids(nodes)|; |acts| <= 2 * n * (n + 2) + n + 1
  {
    InitialProgress(nodes, s);
    RunProgress(nodes, s, acts);
  }

  /** A run that has not exited can go on, provided a running task can finish. */
  lemma NoDeadlock(nodes: seq<Node>, s: State, id: Id, r: TaskResult)
    requires !Exited(s)
    requires id in s.running || s.running.Keys == {}
    requires r.Valid() && (id in s.running && s.running[id].Count? ==> r == s.running[id].result)
    ensures Enabled(s, Take(None)) || Enabled(s, Finish(id, r))
  {
  }
}
