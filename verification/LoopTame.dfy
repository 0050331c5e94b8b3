/** What no step does on any graph: reopen a record, spawn a node that has one, or announce the end. */
module LoopTame {
  import opened Wrappers
  import opened Dag
  import opened Events
  import opened Vault
  import opened Loop
  import opened LoopInvariant

  predicate Decided(st: map<Id, NodeState>, id: Id) {
    StatusOf(st, id) != Pending
  }

  /** Decided nodes stay decided, only undecided ones are spawned, and the log only grows, by events of the run. */
  ghost predicate Tame(s: State, s': State) {
    && (forall id | Decided(s.nodeState, id) :: Decided(s'.nodeState, id))
    && (forall k | k in s'.spawned :: k in s.spawned || !Decided(s.nodeState, k))
    && s.log <= s'.log && (forall e | e in s'.log && e.DagDone? :: e in s.log)
  }

  lemma TameTransitive(a: State, b: State, c: State)
    requires Tame(a, b) && Tame(b, c)
    ensures Tame(a, c)
  {
    hide Decided;
    assert a.log == c.log[..|a.log|];
  }

  lemma SetTerminalTame(s: State, id: Id, ns: NodeState, e: Event)
    requires ns.status != Pending && !e.DagDone?
    ensures Tame(s, SetTerminal(s, id, ns, e))
  {
  }

  lemma QueueTame(a: State, b: State, q: Queue)
    requires Tame(a, b)
    ensures Tame(a, b.(queue := q))
  {
    hide Decided;
  }

  lemma SettleTame(nodes: seq<Node>, s: State, id: Id, ns: NodeState, e: Event)
    requires ns.status != Pending && !e.DagDone?
    ensures Tame(s, Settle(nodes, s, id, ns, e))
  {
    hide Tame, SetTerminal, ReleaseAfters;
    SetTerminalTame(s, id, ns, e);
    QueueTame(s, SetTerminal(s, id, ns, e), ReleaseAfters(s.queue, AfterDependents(nodes, id)));
  }

  lemma TameSelf(s: State)
    ensures Tame(s, s)
  {
  }

  lemma SkipTurnTame(nodes: seq<Node>, s: State, id: Id)
    ensures Tame(s, SkipTurn(nodes, s, id))
  {
    hide Tame, Settle, ReleaseAfters, SkipNotify;
    if id in s.terminal {
      TameSelf(s);
      QueueTame(s, s, ReleaseAfters(s.queue, AfterDependents(nodes, id)));
    } else {
      SettleTame(nodes, s, id, SKIPPED, NodeDone(id, "", ""));
    }
    var s' := SkipOne(nodes, s, id);
    QueueTame(s, s', SkipNotify(nodes, s'.nodeState, s'.queue, id, Dependents(nodes, id)));
  }

  lemma {:induction false} SkipTame(nodes: seq<Node>, s: State, stack: seq<Id>, processed: set<Id>)
    requires forall k | k in stack :: k in Ids(nodes)
    ensures Tame(s, Skip(nodes, s, stack, processed))
    decreases Ids(nodes) - processed, |stack|
  {
    hide Tame, SkipTurn, SkipPushes;
    if stack == [] {
      TameSelf(s);
    } else {
      var id := stack[|stack| - 1];
      var rest := stack[..|stack| - 1];
      assert id in stack;
      if id in processed {
        SkipTame(nodes, s, rest, processed);
      } else {
        var s' := SkipTurn(nodes, s, id);
        SkipTurnTame(nodes, s, id);
        SkipTame(nodes, s', rest + SkipPushes(nodes, s'.nodeState, id, Dependents(nodes, id)), processed + {id});
        TameTransitive(s, s', Skip(nodes, s, stack, processed));
      }
    }
  }

  lemma NotifyOneTame(nodes: seq<Node>, s: State, id: Id, status: Status, dep: Id)
    requires dep in Ids(nodes)
    ensures Tame(s, NotifyOne(nodes, s, id, status, dep))
  {
    hide Tame, Settle, Skip, ReleaseDep;
    SkipTame(nodes, s, [dep], {});
    TameSelf(s);
    QueueTame(s, s, ReleaseDep(s.queue, dep));
    SettleTame(nodes, s, dep, if dep in s.nodeState then s.nodeState[dep].(status := Blocked) else BLOCKED, NodeBlocked(dep));
  }

  lemma {:induction false} NotifyTame(nodes: seq<Node>, s: State, id: Id, status: Status, deps: seq<Id>)
    requires forall k | k in deps :: k in Ids(nodes)
    ensures Tame(s, Notify(nodes, s, id, status, deps))
    decreases deps
  {
    hide Tame, NotifyOne;
    if deps == [] {
      TameSelf(s);
    } else {
      assert deps[0] in deps;
      var s' := NotifyOne(nodes, s, id, status, deps[0]);
      NotifyOneTame(nodes, s, id, status, deps[0]);
      NotifyTame(nodes, s', id, status, deps[1..]);
      TameTransitive(s, s', Notify(nodes, s', id, status, deps[1..]));
    }
  }

  lemma {:induction false} ReportTame(s: State, id: Id, events: seq<DispatchEvent>)
    ensures Tame(s, Report(s, id, events))
    decreases events
  {
    hide Tame;
    if events == [] {
      TameSelf(s);
    } else {
      var s' := match events[0]
        case CeilingTripped(message) => Announce(s, message)
        case e => s.(log := s.log + Translate(id, e));
      ReportOneTame(s, id, events[0]);
      ReportTame(s', id, events[1..]);
      TameTransitive(s, s', Report(s, id, events));
    }
  }

  lemma ReportOneTame(s: State, id: Id, e: DispatchEvent)
    ensures Tame(s, match e case CeilingTripped(message) => Announce(s, message) case d => s.(log := s.log + Translate(id, d)))
  {
  }

  lemma JoinTame(nodes: seq<Node>, s: State, id: Id, r: TaskResult)
    requires r.Valid()
    ensures Tame(s, Join(nodes, s, id, r))
  {
    hide Tame, Settle, Notify, Report, FinalEvent;
    var s0 := s.(running := s.running - {id}, refused := false);
    var s1 := Emit(s0, NodeDispatched(id, OrEmpty(r.taskModel), r.attempt));
    NotedTame(s, id, OrEmpty(r.taskModel), r.attempt);
    ReportTame(s1, id, r.events);
    var s2 := Report(s1, id, r.events);
    FinalEventIsNotTheEnd(id, r);
    SettleTame(nodes, s2, id, r.state, FinalEvent(id, r));
    var s3 := Settle(nodes, s2, id, r.state, FinalEvent(id, r));
    NotifyTame(nodes, s3, id, r.state.status, Dependents(nodes, id));
    TameTransitive(s, s1, s2);
    TameTransitive(s, s2, s3);
    TameTransitive(s, s3, Join(nodes, s, id, r));
  }

  lemma NotedTame(s: State, id: Id, model: string, attempt: nat)
    ensures Tame(s, Emit(s.(running := s.running - {id}, refused := false), NodeDispatched(id, model, attempt)))
  {
  }

  lemma FinalEventIsNotTheEnd(id: Id, r: TaskResult)
    ensures !FinalEvent(id, r).DagDone?
  {
  }

  lemma PopTame(nodes: seq<Node>, s: State, refuse: Option<string>)
    requires s.queue.ready != []
    ensures Tame(s, Pop(nodes, s, refuse))
  {
    hide TaskOf;
  }

  lemma {:induction false} RunTame(nodes: seq<Node>, s: State, acts: seq<Action>)
    requires IsRun(nodes, s, acts)
    ensures Tame(s, After(nodes, s, acts))
    decreases |acts|
  {
    hide Tame, Pop, Join;
    if acts == [] {
      TameSelf(s);
    } else {
      var s' := Step(nodes, s, acts[0]);
      match acts[0] {
        case Take(refuse) => PopTame(nodes, s, refuse);
        case Finish(id, r) => JoinTame(nodes, s, id, r);
      }
      RunTame(nodes, s', acts[1..]);
      TameTransitive(s, s', After(nodes, s', acts[1..]));
    }
  }

  /** On any graph, a node with a terminal record is never spawned again. */
  lemma NeverSpawnedAgain(nodes: seq<Node>, s: State, acts: seq<Action>, id: Id)
    requires IsRun(nodes, s, acts) && Over(s.nodeState, id) && id !in s.spawned
    ensures id !in After(nodes, s, acts).spawned
    ensures Decided(After(nodes, s, acts).nodeState, id)
  {
    hide After, IsRun;
    RunTame(nodes, s, acts);
  }
}
