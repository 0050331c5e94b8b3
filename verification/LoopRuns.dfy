/** The invariant over whole runs: start, the two kinds of step, and what holds when the loop exits. */
module LoopRuns {
  import opened Wrappers
  import opened Dag
  import opened Events
  import opened Vault
  import opened Loop
  import opened LoopInvariant
  import opened LoopFacts
  import opened LoopLog
  import opened LoopSteps
  import opened LoopSkip
  import opened LoopNotify

  /** The invariant between steps. */
  ghost predicate Sound(nodes: seq<Node>, mode: Mode, s: State) {
    Inv(nodes, mode, s, multiset{}, {}, {})
  }

  // ----- Events without a record

  lemma LogNote(nodes: seq<Node>, mode: Mode, log: seq<Event>, st: map<Id, NodeState>, e: Event)
    requires LogOk(nodes, mode, log, st) && RecordId(e) == None && !e.NodeVerifyFailed?
    ensures LogOk(nodes, mode, log + [e], st)
  {
    var k := Fold(mode.base, log);
    FoldOne(mode.base, log, e);
    assert log[..|log|] == log;
    var v' := Project(k, e).vault;
    assert v'.records == k.vault.records && v'.artifacts == k.vault.artifacts;
    forall n | n in nodes
      ensures RecordSound(n, mode.artifacts, v', st)
    {
      assert RecordSound(n, mode.artifacts, k.vault, st);
    }
    PrefixesAppend(nodes, mode.artifacts, mode.base, log, e, st);
    forall n | n in nodes && mode.firstRun
      ensures RecordExact(n.id, v', log + [e], st)
    {
      assert RecordExact(n.id, k.vault, log, st);
      assert VerifyFailedLogged(log + [e], n.id) == VerifyFailedLogged(log, n.id);
    }
  }

  lemma AnnounceOk(nodes: seq<Node>, mode: Mode, s: State, message: string)
    requires Sound(nodes, mode, s)
    ensures Sound(nodes, mode, Announce(s, message).(refused := true))
    ensures Extends(s, Announce(s, message).(refused := true))
  {
    hide Counts, Facts, LogOk, Dispatched;
    if !s.breachAnnounced {
      LogNote(nodes, mode, s.log, s.nodeState, BudgetBreached(message));
    }
  }

  // ----- The ready loop

  lemma PopQueue(ready: seq<Id>, enqueued: set<Id>, running: set<Id>, terminal: set<Id>, spawn: bool)
    requires QueueOk(ready, enqueued, running, terminal) && ready != []
    requires spawn <==> ready[0] !in terminal
    ensures QueueOk(ready[1..], enqueued, if spawn then running + {ready[0]} else running, terminal)
  {
    assert ready == [ready[0]] + ready[1..];
  }

  lemma CountsPop(nodes: seq<Node>, st: map<Id, NodeState>, q: Queue, ready: seq<Id>)
    requires Counts(nodes, st, q, multiset{}, multiset{})
    ensures Counts(nodes, st, q.(ready := ready), multiset{}, multiset{})
  {
    forall n | n in nodes
      ensures Counted(n, st, q.(ready := ready), multiset{}[n.id], multiset{}[n.id])
    {
      assert Counted(n, st, q, multiset{}[n.id], multiset{}[n.id]);
    }
  }

  /** A node taken off the queue is terminal, or nothing holds it back. */
  lemma ReadyNode(nodes: seq<Node>, mode: Mode, s: State, id: Id)
    requires WellFormed(nodes) && Sound(nodes, mode, s) && id in s.queue.ready
    ensures id in Ids(nodes) && GetNode(nodes, id).Some?
    ensures id !in s.running
    ensures if StatusOf(s.nodeState, id) != Pending then id in s.terminal else id !in s.terminal
    ensures StatusOf(s.nodeState, id) == Pending ==>
      var n := GetNode(nodes, id).value;
      Unreleased(n, s.nodeState, n.dependsOn) == 0 && Open(s.nodeState, n.after) == 0
  {
    hide LogOk, Unreleased, Open;
    var n := GetNode(nodes, id).value;
    assert NodeFacts(mode, n, s.nodeState, {}, {});
    assert Counted(n, s.nodeState, s.queue, multiset{}[id], multiset{}[id]);
  }

  lemma PopSets(nodes: seq<Node>, mode: Mode, s: State)
    requires WellFormed(nodes) && Sound(nodes, mode, s) && s.queue.ready != []
    ensures var id := s.queue.ready[0];
      var s' := s.(queue := s.queue.(ready := s.queue.ready[1..]));
      if StatusOf(s.nodeState, id) != Pending then Sets(nodes, s')
      else Sets(nodes, s'.(spawned := s.spawned + [id], running := s.running[id := TaskOf(GetNode(nodes, id).value, s.nodeState)]))
  {
    hide LogOk, Counts, Facts, Unreleased, Open, QueueOk, OrderOk, TerminalSet;
    var id := s.queue.ready[0];
    ReadyNode(nodes, mode, s, id);
    PopQueue(s.queue.ready, s.queue.enqueued, s.running.Keys, s.terminal, StatusOf(s.nodeState, id) == Pending);
    if StatusOf(s.nodeState, id) == Pending {
      var task := TaskOf(GetNode(nodes, id).value, s.nodeState);
      assert s.running[id := task].Keys == s.running.Keys + {id};
      forall n | n in nodes
        ensures Dispatched(n, s.nodeState, s.spawned + [id], s.running[id := task])
      {
        assert Dispatched(n, s.nodeState, s.spawned, s.running);
        if n.id == id {
          SameNode(nodes, n, GetNode(nodes, id).value);
        }
      }
    }
  }

  lemma PopOk(nodes: seq<Node>, mode: Mode, s: State, refuse: Option<string>)
    requires WellFormed(nodes) && Sound(nodes, mode, s) && s.queue.ready != []
    ensures Sound(nodes, mode, Pop(nodes, s, refuse))
    ensures Extends(s, Pop(nodes, s, refuse))
  {
    hide Counts, Facts, LogOk, Sets, WellFormed, TaskOf;
    var id := s.queue.ready[0];
    ReadyNode(nodes, mode, s, id);
    PopSets(nodes, mode, s);
    CountsPop(nodes, s.nodeState, s.queue, s.queue.ready[1..]);
    if StatusOf(s.nodeState, id) == Pending && refuse.Some? {
      AnnounceOk(nodes, mode, s, refuse.value);
    }
  }

  // ----- A finished task

  /** The states of finished nodes are those of `mode.work`, where that is given; reported events are free. */
  ghost predicate Faithful(mode: Mode, s: State, a: Action) {
    a.Finish? && mode.work.Some? && a.id in s.running ==> a.result.state == Outcome(mode.work.value, s.running[a.id])
  }

  lemma CriticIdIsNoNode(nodes: seq<Node>, id: Id)
    requires WellFormed(nodes)
    ensures id + "::verify" !in Ids(nodes)
  {
    var c := id + "::verify";
    assert c[|id|] == ':';
    assert ':' in c;
  }

  /** The stream while a finished task is reported: only the task's own record may lag. */
  ghost predicate Reporting(nodes: seq<Node>, mode: Mode, log: seq<Event>, st: map<Id, NodeState>, id: Id) {
    LogNearly(nodes, mode, log, st, id) && Recorded(Fold(mode.base, log).vault, id, Running)
  }

  lemma ReportingStep(nodes: seq<Node>, mode: Mode, log: seq<Event>, st: map<Id, NodeState>, id: Id, e: Event)
    requires WellFormed(nodes) && id in Ids(nodes) && Has(st, id, Pending)
    requires LogNearly(nodes, mode, log, st, id) && Neutral(Ids(nodes), id, e)
    requires Recorded(Fold(mode.base, log).vault, id, Running) || (e.NodeDispatched? && e.id == id)
    ensures Reporting(nodes, mode, log + [e], st, id)
  {
    hide LogNearly;
    NeutralLog(nodes, mode, log, st, id, e);
    FoldOne(mode.base, log, e);
  }

  lemma {:induction false} ReportOk(nodes: seq<Node>, mode: Mode, s: State, id: Id, events: seq<DispatchEvent>)
    requires WellFormed(nodes) && id in Ids(nodes) && Has(s.nodeState, id, Pending)
    requires Reporting(nodes, mode, s.log, s.nodeState, id)
    ensures var s' := Report(s, id, events);
      && Reporting(nodes, mode, s'.log, s.nodeState, id)
      && s.log <= s'.log
      && s' == s.(log := s'.log, breachAnnounced := s'.breachAnnounced)
    decreases events
  {
    hide Reporting, WellFormed;
    if events != [] {
      CriticIdIsNoNode(nodes, id);
      var s1 := match events[0]
        case CeilingTripped(message) => Announce(s, message)
        case e => s.(log := s.log + Translate(id, e));
      if s1.log != s.log {
        var e := s1.log[|s.log|];
        assert s1.log == s.log + [e];
        assert Neutral(Ids(nodes), id, e);
        ReportingUnfold(nodes, mode, s.log, s.nodeState, id);
        ReportingStep(nodes, mode, s.log, s.nodeState, id, e);
      }
      ReportOk(nodes, mode, s1, id, events[1..]);
      PrefixTransitive(s.log, s1.log, Report(s, id, events).log);
    }
  }

  lemma ReportingUnfold(nodes: seq<Node>, mode: Mode, log: seq<Event>, st: map<Id, NodeState>, id: Id)
    requires Reporting(nodes, mode, log, st, id)
    ensures LogNearly(nodes, mode, log, st, id) && Recorded(Fold(mode.base, log).vault, id, Running)
  {
  }

  /** The state just before the final transition of a finished task. */
  function Reported(s: State, id: Id, r: TaskResult): State {
    Report(Emit(s.(running := s.running - {id}, refused := false), NodeDispatched(id, OrEmpty(r.taskModel), r.attempt)), id, r.events)
  }

  lemma JoinReport(nodes: seq<Node>, mode: Mode, s: State, id: Id, r: TaskResult)
    requires WellFormed(nodes) && id in Ids(nodes) && Has(s.nodeState, id, Pending)
    requires LogOk(nodes, mode, s.log, s.nodeState)
    ensures var s2 := Reported(s, id, r);
      && Reporting(nodes, mode, s2.log, s.nodeState, id)
      && s.log <= s2.log
      && s2 == Without(s.(log := s2.log, breachAnnounced := s2.breachAnnounced, refused := false), id)
  {
    hide LogNearly, WellFormed, Reporting;
    var e := NodeDispatched(id, OrEmpty(r.taskModel), r.attempt);
    var s1 := Emit(s.(running := s.running - {id}, refused := false), e);
    NearlyOfOk(nodes, mode, s.log, s.nodeState, id);
    ReportingStep(nodes, mode, s.log, s.nodeState, id, e);
    ReportOk(nodes, mode, s1, id, r.events);
    PrefixTransitive(s.log, s1.log, Reported(s, id, r).log);
  }

  lemma NearlyOfOk(nodes: seq<Node>, mode: Mode, log: seq<Event>, st: map<Id, NodeState>, id: Id)
    requires LogOk(nodes, mode, log, st)
    ensures LogNearly(nodes, mode, log, st, id)
  {
  }

  lemma FinalEventAnnounces(id: Id, r: TaskResult)
    requires r.Valid()
    ensures Announces(FinalEvent(id, r), id, r.state)
  {
  }

  lemma RunningIsPending(nodes: seq<Node>, mode: Mode, s: State, n: Node)
    requires Sound(nodes, mode, s) && n in nodes && n.id in s.running
    ensures Has(s.nodeState, n.id, Pending)
    ensures Dispatched(n, s.nodeState, s.spawned, s.running) && n.id in s.spawned
  {
    hide Counts, LogOk;
    assert NodeFacts(mode, n, s.nodeState, {}, {});
  }

  lemma CoreNote(nodes: seq<Node>, mode: Mode, s: State, log: seq<Event>, announced: bool)
    requires Sound(nodes, mode, s)
    ensures Core(nodes, mode, s.(log := log, breachAnnounced := announced, refused := false), multiset{}, {}, {})
  {
  }

  lemma JoinSettle(nodes: seq<Node>, mode: Mode, s: State, n: Node, r: TaskResult)
    requires WellFormed(nodes) && ModeOk(nodes, mode) && n in nodes
    requires Sound(nodes, mode, s) && n.id in s.running && r.Valid()
    requires Faithful(mode, s, Finish(n.id, r))
    ensures var s3 := Settle(nodes, Reported(s, n.id, r), n.id, r.state, FinalEvent(n.id, r));
      && Inv(nodes, mode, s3, multiset(ReleasedBy(nodes, n.id, r.state.status)), BlockedBy(nodes, n.id, r.state.status), SkippedBy(nodes, n.id, r.state.status))
      && Extends(s, s3)
      && Has(s3.nodeState, n.id, r.state.status)
  {
    hide Core, LogOk, WellFormed, ModeOk, Reported, Settle, ReleasedBy, BlockedBy, SkippedBy, Extends, Reporting, FinalEvent;
    RunningIsPending(nodes, mode, s, n);
    JoinReport(nodes, mode, s, n.id, r);
    var s2 := Reported(s, n.id, r);
    var s1 := s.(log := s2.log, breachAnnounced := s2.breachAnnounced, refused := false);
    CoreNote(nodes, mode, s, s2.log, s2.breachAnnounced);
    assert JustifiedAs(mode, n, s.nodeState, r.state);
    SettleCore(nodes, mode, s1, n, r.state, FinalEvent(n.id, r), multiset{}, {}, {});
    EmptySums(nodes, n.id, r.state.status);
    JoinLog(nodes, mode, s2.log, s.nodeState, n, r);
    SettleLog(nodes, s2, n.id, r.state, FinalEvent(n.id, r));
    ExtendsNote(s, s1, Settle(nodes, s2, n.id, r.state, FinalEvent(n.id, r)));
  }

  lemma EmptySums(nodes: seq<Node>, id: Id, status: Status)
    ensures multiset{} + multiset(ReleasedBy(nodes, id, status)) == multiset(ReleasedBy(nodes, id, status))
    ensures {} - {id} + BlockedBy(nodes, id, status) == BlockedBy(nodes, id, status)
    ensures {} - {id} + SkippedBy(nodes, id, status) == SkippedBy(nodes, id, status)
  {
  }

  lemma ExtendsNote(s: State, s1: State, s3: State)
    requires s1 == s.(log := s1.log, breachAnnounced := s1.breachAnnounced, refused := s1.refused) && s.log <= s1.log
    requires Extends(s1, s3)
    ensures Extends(s, s3)
  {
    PrefixTransitive(s.log, s1.log, s3.log);
  }

  lemma JoinLog(nodes: seq<Node>, mode: Mode, log: seq<Event>, st: map<Id, NodeState>, n: Node, r: TaskResult)
    requires WellFormed(nodes) && n in nodes && r.Valid()
    requires Has(st, n.id, Pending) && JustifiedAs(mode, n, st, r.state)
    requires Reporting(nodes, mode, log, st, n.id)
    ensures LogOk(nodes, mode, log + [FinalEvent(n.id, r)], st[n.id := r.state])
  {
    hide LogNearly, LogOk, JustifiedAs, FinalEvent;
    FinalEventAnnounces(n.id, r);
    if PlainNode(n) {
      PlainDone(mode, n, st, r.state);
    }
    FinalLog(nodes, mode, log, st, n, r.state, FinalEvent(n.id, r));
  }

  lemma JoinOk(nodes: seq<Node>, mode: Mode, s: State, id: Id, r: TaskResult)
    requires WellFormed(nodes) && ModeOk(nodes, mode)
    requires Sound(nodes, mode, s) && id in s.running && r.Valid()
    requires Faithful(mode, s, Finish(id, r))
    ensures Sound(nodes, mode, Join(nodes, s, id, r))
    ensures Extends(s, Join(nodes, s, id, r))
  {
    hide Inv, WellFormed, ModeOk, Settle, Extends, FinalEvent, Notify;
    RunningInIds(nodes, mode, s, id);
    var n :| n in nodes && n.id == id;
    JoinSettle(nodes, mode, s, n, r);
    var s3 := Settle(nodes, Reported(s, id, r), id, r.state, FinalEvent(id, r));
    var deps := Dependents(nodes, id);
    AllDependents(nodes, id);
    NotifyInv(nodes, mode, s3, id, deps, r.state.status);
    ExtendsTransitive(s, s3, Notify(nodes, s3, id, r.state.status, deps));
  }

  lemma RunningInIds(nodes: seq<Node>, mode: Mode, s: State, id: Id)
    requires Sound(nodes, mode, s) && id in s.running
    ensures id in Ids(nodes)
  {
    hide LogOk, Facts;
  }

  lemma AllDependents(nodes: seq<Node>, x: Id)
    requires WellFormed(nodes)
    ensures DependentList(nodes, x, Dependents(nodes, x))
  {
    forall n | n in nodes
      ensures multiset(Dependents(nodes, x))[n.id] <= multiset(n.dependsOn)[x]
    {
      DependentsCount(nodes, x, n);
    }
  }
}
