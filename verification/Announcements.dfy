/**
 What a run tells the outside, told from the tasks joined: every start, retry, change of model and counter update
 they report is logged once and in order, and a breach is announced once.
 */
module Announcements {
  import opened Wrappers
  import opened Text
  import opened Dag
  import opened Events
  import opened Loop
  import LoopTame

  datatype Note =
    | Started(id: Id, model: string, attempt: nat)
    | Repeated(id: Id)
    | Switched(id: Id, fromModel: string, toModel: string)
    | Spent(calls: nat, tokens: nat)

  /** The notes in a log; records of nodes and breaches are no notes. */
  function NotesIn(log: seq<Event>): seq<Note> {
    if log == [] then []
    else
      NotesIn(log[..|log| - 1]) + match log[|log| - 1]
        case NodeDispatched(id, model, attempt) => [Started(id, model, attempt)]
        case NodeRetry(id, _) => [Repeated(id)]
        case ProviderFallback(id, f, t) => [Switched(id, f, t)]
        case BudgetUpdated(calls, tokens) => [Spent(calls, tokens)]
        case _ => []
  }

  function Breaches(log: seq<Event>): nat {
    if log == [] then 0 else Breaches(log[..|log| - 1]) + if log[|log| - 1].BudgetBreached? then 1 else 0
  }

  /** The notes a task's report amounts to. */
  function NotesOf(id: Id, events: seq<DispatchEvent>): seq<Note>
    decreases events
  {
    if events == [] then [] else NoteOf(id, events[0]) + NotesOf(id, events[1..])
  }

  function NoteOf(id: Id, e: DispatchEvent): seq<Note> {
    match e
    case Retry(_) => [Repeated(id)]
    case BackoffRetry(_) => [Repeated(id)]
    case Fallback(f, t) => [Switched(id, f, t)]
    case CriticDispatched(m) => [Started(id + "::verify", m, 1)]
    case CountersUpdated(c, t) => [Spent(c, t)]
    case _ => []
  }

  function TaskNotes(id: Id, r: TaskResult): seq<Note> {
    [Started(id, OrEmpty(r.taskModel), r.attempt)] + NotesOf(id, r.events)
  }

  function RunNotes(acts: seq<Action>): seq<Note>
    decreases acts
  {
    if acts == [] then []
    else (match acts[0] case Take(_) => [] case Finish(id, r) => TaskNotes(id, r)) + RunNotes(acts[1..])
  }

  /** A ceiling was tripped in some task's calls, or the gate refused a node. */
  predicate Trips(events: seq<DispatchEvent>) {
    exists i :: 0 <= i < |events| && events[i].CeilingTripped?
  }

  predicate StepTrips(nodes: seq<Node>, s: State, a: Action) {
    match a
    case Take(refuse) =>
      refuse.Some? && s.queue.ready != [] && StatusOf(s.nodeState, s.queue.ready[0]) == Pending && GetNode(nodes, s.queue.ready[0]).Some?
    case Finish(_, r) => Trips(r.events)
  }

  ghost predicate RunTrips(nodes: seq<Node>, s: State, acts: seq<Action>)
    requires IsRun(nodes, s, acts)
    decreases |acts|
  {
    acts != [] && (StepTrips(nodes, s, acts[0]) || RunTrips(nodes, Step(nodes, s, acts[0]), acts[1..]))
  }

  // ----- Records are no notes

  ghost predicate Quiet(s: State, s': State) {
    NotesIn(s'.log) == NotesIn(s.log) && Breaches(s'.log) == Breaches(s.log) && s'.breachAnnounced == s.breachAnnounced
  }

  lemma OneMore(log: seq<Event>, e: Event)
    ensures NotesIn(log + [e]) == NotesIn(log) + (match e
      case NodeDispatched(id, model, attempt) => [Started(id, model, attempt)]
      case NodeRetry(id, _) => [Repeated(id)]
      case ProviderFallback(id, f, t) => [Switched(id, f, t)]
      case BudgetUpdated(calls, tokens) => [Spent(calls, tokens)]
      case _ => [])
    ensures Breaches(log + [e]) == Breaches(log) + if e.BudgetBreached? then 1 else 0
  {
    assert (log + [e])[..|log|] == log;
  }

  lemma SettleQuiet(nodes: seq<Node>, s: State, id: Id, ns: NodeState, e: Event)
    requires e.NodeDone? || e.NodeFailed? || e.NodeBlocked? || e.NodeVerifyFailed?
    ensures Quiet(s, Settle(nodes, s, id, ns, e))
  {
    hide NotesIn, Breaches, ReleaseAfters;
    OneMore(s.log, e);
  }

  lemma SkipTurnQuiet(nodes: seq<Node>, s: State, id: Id)
    ensures Quiet(s, SkipTurn(nodes, s, id))
  {
    hide NotesIn, Breaches, Settle, ReleaseAfters, SkipNotify;
    SettleQuiet(nodes, s, id, SKIPPED, NodeDone(id, "", ""));
  }

  lemma {:induction false} SkipQuiet(nodes: seq<Node>, s: State, stack: seq<Id>, processed: set<Id>)
    requires forall k | k in stack :: k in Ids(nodes)
    ensures Quiet(s, Skip(nodes, s, stack, processed))
    decreases Ids(nodes) - processed, |stack|
  {
    hide NotesIn, Breaches, SkipTurn, SkipPushes;
    if stack != [] {
      var id := stack[|stack| - 1];
      var rest := stack[..|stack| - 1];
      assert id in stack;
      if id in processed {
        SkipQuiet(nodes, s, rest, processed);
      } else {
        var s' := SkipTurn(nodes, s, id);
        SkipTurnQuiet(nodes, s, id);
        SkipQuiet(nodes, s', rest + SkipPushes(nodes, s'.nodeState, id, Dependents(nodes, id)), processed + {id});
      }
    }
  }

  lemma NotifyOneQuiet(nodes: seq<Node>, s: State, id: Id, status: Status, dep: Id)
    requires dep in Ids(nodes)
    ensures Quiet(s, NotifyOne(nodes, s, id, status, dep))
  {
    hide NotesIn, Breaches, Settle, Skip, ReleaseDep;
    SkipQuiet(nodes, s, [dep], {});
    SettleQuiet(nodes, s, dep, if dep in s.nodeState then s.nodeState[dep].(status := Blocked) else BLOCKED, NodeBlocked(dep));
  }

  lemma {:induction false} NotifyQuiet(nodes: seq<Node>, s: State, id: Id, status: Status, deps: seq<Id>)
    requires forall k | k in deps :: k in Ids(nodes)
    ensures Quiet(s, Notify(nodes, s, id, status, deps))
    decreases deps
  {
    hide NotesIn, Breaches, NotifyOne;
    if deps != [] {
      NotifyOneQuiet(nodes, s, id, status, deps[0]);
      NotifyQuiet(nodes, NotifyOne(nodes, s, id, status, deps[0]), id, status, deps[1..]);
    }
  }

  // ----- Reports

  /** The announcement is made at most once, and the state knows. */
  ghost predicate Once(s: State) {
    Breaches(s.log) == if s.breachAnnounced then 1 else 0
  }

  lemma AnnounceOnce(s: State, message: string)
    requires Once(s)
    ensures var s' := Announce(s, message); Once(s') && s'.breachAnnounced && NotesIn(s'.log) == NotesIn(s.log)
  {
    hide NotesIn, Breaches;
    OneMore(s.log, BudgetBreached(message));
  }

  lemma TranslatedNotes(log: seq<Event>, id: Id, e: DispatchEvent)
    requires !e.CeilingTripped?
    ensures NotesIn(log + Translate(id, e)) == NotesIn(log) + NoteOf(id, e)
    ensures Breaches(log + Translate(id, e)) == Breaches(log)
  {
    hide NotesIn, Breaches;
    var t := Translate(id, e);
    if t == [] {
      assert log + t == log;
    } else {
      assert |t| == 1 && t == [t[0]];
      OneMore(log, t[0]);
    }
  }

  lemma Regrouped(a: seq<Note>, b: seq<Note>, c: seq<Note>)
    ensures a + b + c == a + (b + c)
  {
  }

  lemma {:induction false} ReportNotes(s: State, id: Id, events: seq<DispatchEvent>)
    requires Once(s)
    ensures var s' := Report(s, id, events);
      Once(s') && NotesIn(s'.log) == NotesIn(s.log) + NotesOf(id, events) && (s'.breachAnnounced <==> s.breachAnnounced || Trips(events))
    decreases events
  {
    hide NotesIn, Breaches, Announce, Trips, Translate, NoteOf;
    if events == [] {
      NothingTrips();
    } else {
      var e, rest := events[0], events[1..];
      TripsFirst(events);
      Regrouped(NotesIn(s.log), NoteOf(id, e), NotesOf(id, rest));
      if e.CeilingTripped? {
        AnnounceOnce(s, e.message);
        NoNote(id, e);
        ReportNotes(Announce(s, e.message), id, rest);
      } else {
        TranslatedNotes(s.log, id, e);
        ReportNotes(s.(log := s.log + Translate(id, e)), id, rest);
      }
    }
  }

  lemma NothingTrips()
    ensures !Trips([])
  {
  }

  lemma NoNote(id: Id, e: DispatchEvent)
    requires e.CeilingTripped?
    ensures NoteOf(id, e) == []
  {
  }

  lemma TripsFirst(events: seq<DispatchEvent>)
    requires events != []
    ensures Trips(events) <==> events[0].CeilingTripped? || Trips(events[1..])
  {
    var rest := events[1..];
    assert forall i | 0 <= i < |rest| :: rest[i] == events[i + 1];
    if Trips(events) {
      var i :| 0 <= i < |events| && events[i].CeilingTripped?;
      assert i > 0 ==> rest[i - 1] == events[i];
    }
  }

  lemma JoinNotes(nodes: seq<Node>, s: State, id: Id, r: TaskResult)
    requires Once(s)
    ensures var s' := Join(nodes, s, id, r);
      Once(s') && NotesIn(s'.log) == NotesIn(s.log) + TaskNotes(id, r) && (s'.breachAnnounced <==> s.breachAnnounced || Trips(r.events))
  {
    hide NotesIn, Breaches, Report, Settle, Notify, FinalEvent, NotesOf, Trips;
    var start := NodeDispatched(id, OrEmpty(r.taskModel), r.attempt);
    var s1 := Emit(s.(running := s.running - {id}, refused := false), start);
    OneMore(s.log, start);
    var s2 := Report(s1, id, r.events);
    ReportNotes(s1, id, r.events);
    FinalIsRecord(id, r);
    var s3 := Settle(nodes, s2, id, r.state, FinalEvent(id, r));
    SettleQuiet(nodes, s2, id, r.state, FinalEvent(id, r));
    NotifyQuiet(nodes, s3, id, r.state.status, Dependents(nodes, id));
    assert NotesIn(s.log) + [Started(id, OrEmpty(r.taskModel), r.attempt)] + NotesOf(id, r.events)
        == NotesIn(s.log) + TaskNotes(id, r);
  }

  lemma FinalIsRecord(id: Id, r: TaskResult)
    ensures var e := FinalEvent(id, r); e.NodeDone? || e.NodeFailed? || e.NodeBlocked? || e.NodeVerifyFailed?
  {
  }

  lemma PopNotes(nodes: seq<Node>, s: State, refuse: Option<string>)
    requires s.queue.ready != [] && Once(s)
    ensures var s' := Pop(nodes, s, refuse);
      Once(s') && NotesIn(s'.log) == NotesIn(s.log) && (s'.breachAnnounced <==> s.breachAnnounced || StepTrips(nodes, s, Take(refuse)))
  {
    hide NotesIn, Breaches, Announce, GetNode, TaskOf;
    if refuse.Some? {
      AnnounceOnce(s, refuse.value);
    }
  }

  /**
   Over a run the log gains exactly what the joined tasks report, task after task in the order they are joined;
   and a breach is announced once if the gate refused or some task tripped a ceiling, and otherwise not at all.
   */
  lemma {:induction false} EverythingIsLogged(nodes: seq<Node>, s: State, acts: seq<Action>)
    requires IsRun(nodes, s, acts) && Once(s)
    ensures var s' := After(nodes, s, acts);
      && NotesIn(s'.log) == NotesIn(s.log) + RunNotes(acts)
      && Breaches(s'.log) == (if s.breachAnnounced || RunTrips(nodes, s, acts) then 1 else 0)
    decreases |acts|
  {
    hide NotesIn, Breaches, Pop, Join, TaskNotes, StepTrips;
    if acts != [] {
      match acts[0] {
        case Take(refuse) => PopNotes(nodes, s, refuse);
        case Finish(id, r) => TaskTrips(nodes, s, id, r);
      }
      EverythingIsLogged(nodes, Step(nodes, s, acts[0]), acts[1..]);
      if acts[0].Finish? {
        Regrouped(NotesIn(s.log), TaskNotes(acts[0].id, acts[0].result), RunNotes(acts[1..]));
      }
    }
  }

  lemma TaskTrips(nodes: seq<Node>, s: State, id: Id, r: TaskResult)
    requires Once(s)
    ensures var s' := Join(nodes, s, id, r);
      Once(s') && NotesIn(s'.log) == NotesIn(s.log) + TaskNotes(id, r) && (s'.breachAnnounced <==> s.breachAnnounced || StepTrips(nodes, s, Finish(id, r)))
  {
    hide NotesIn, Breaches, Join, TaskNotes, Trips;
    JoinNotes(nodes, s, id, r);
  }

  // ----- The outcome

  /** An error as it is told: never empty, and cut behind 8192 characters. */
  function ErrorShown(text: string): string {
    if text == "" then "execution failed"
    else if |text| <= 8192 then text
    else text[..8192] + "\U{2026} [truncated " + Decimal(|text| - 8192) + " bytes]"
  }

  /** What is told of a joined task: its output and model, its error, or the two halves of a failed verification. */
  function Outcome(id: Id, r: TaskResult): Event {
    var text := if r.state.output.None? then "" else r.state.output.value;
    if r.state.status == Done then NodeDone(id, if r.modelUsed.None? then "" else r.modelUsed.value, text)
    else if r.verifyFailed then NodeVerifyFailed(id, VerifyParts(text).0, VerifyParts(text).1)
    else NodeFailed(id, ErrorShown(text))
  }

  lemma FinalIs(id: Id, r: TaskResult)
    ensures FinalEvent(id, r) == Outcome(id, r)
  {
    hide VerifyParts, Decimal;
  }

  /** The outcome of a joined task is told when it is joined, before anything it leads to. */
  lemma OutcomeIsLogged(nodes: seq<Node>, s: State, id: Id, r: TaskResult)
    requires r.Valid()
    ensures var log := Join(nodes, s, id, r).log;
      exists k: nat :: |s.log| < k < |log| && log[k] == Outcome(id, r)
  {
    hide Report, Settle, Notify, FinalEvent, Outcome, LoopTame.Tame;
    var s1 := Emit(s.(running := s.running - {id}, refused := false), NodeDispatched(id, OrEmpty(r.taskModel), r.attempt));
    var s2 := Report(s1, id, r.events);
    var s3 := Settle(nodes, s2, id, r.state, FinalEvent(id, r));
    var s4 := Notify(nodes, s3, id, r.state.status, Dependents(nodes, id));
    LoopTame.ReportTame(s1, id, r.events);
    TameGrows(s1, s2);
    LoopTame.NotifyTame(nodes, s3, id, r.state.status, Dependents(nodes, id));
    TameGrows(s3, s4);
    SettledLog(nodes, s2, id, r.state, FinalEvent(id, r));
    FinalIs(id, r);
    assert s4.log[|s2.log|] == s3.log[|s2.log|] == Outcome(id, r);
  }

  lemma TameGrows(s: State, s': State)
    requires LoopTame.Tame(s, s')
    ensures s.log <= s'.log
  {
  }

  lemma SettledLog(nodes: seq<Node>, s: State, id: Id, ns: NodeState, e: Event)
    ensures Settle(nodes, s, id, ns, e).log == s.log + [e]
  {
    hide ReleaseAfters;
  }
}
