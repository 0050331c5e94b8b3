/**
 What a restart reads back, told from the stored events alone: for every node the last event about it, the last
 counters, and whether one of the runs so far has ended without a breach.
 */
module StoredLog {
  import opened Wrappers
  import opened Dag
  import opened Events
  import opened Vault
  import opened Resume
  import opened Budget

  // ----- Read off the events

  function LastCounters(log: seq<Event>): Option<Counters> {
    if log == [] then None
    else
      match log[|log| - 1]
      case BudgetUpdated(calls, tokens) => Some(Counters(calls, tokens))
      case _ => LastCounters(log[..|log| - 1])
  }

  /** What the node's last event says of it. */
  function LastRecord(log: seq<Event>, id: Id): Option<Record> {
    if log == [] then None
    else
      var e, before := log[|log| - 1], LastRecord(log[..|log| - 1], id);
      match e
      case NodeDispatched(x, model, attempt) => if x == id then Some(Record(Running, Some(model), attempt)) else before
      case NodeDone(x, _, _) => if x == id then Some(Record(Done, None, 1)) else before
      case NodeFailed(x, _) => if x == id then Some(Record(Failed, None, 1)) else before
      case NodeBlocked(x) => if x == id then Some(Record(Blocked, None, 0)) else before
      case _ => before
  }

  /** Where the node stands after its last event. */
  function LastStatus(log: seq<Event>, id: Id): Option<Status> {
    match LastRecord(log, id)
    case None => None
    case Some(r) => Some(r.status)
  }

  /** The last output, or error, announced for the node. */
  function LastText(log: seq<Event>, id: Id): Option<string> {
    if log == [] then None
    else
      var e, before := log[|log| - 1], LastText(log[..|log| - 1], id);
      match e
      case NodeDone(x, _, output) => if x == id then Some(output) else before
      case NodeFailed(x, error) => if x == id then Some(error) else before
      case _ => before
  }

  /** The run ends at `i`, with no breach before. */
  predicate EndsAt(log: seq<Event>, submitted: bool, i: nat) {
    i < |log| && log[i].DagDone? && (submitted || DagSubmitted in log[..i]) && forall j | 0 <= j < i :: !log[j].BudgetBreached?
  }

  function AllEvents(logs: seq<seq<Event>>): seq<Event> {
    if logs == [] then [] else AllEvents(logs[..|logs| - 1]) + logs[|logs| - 1]
  }

  ghost predicate Ended(logs: seq<seq<Event>>) {
    exists r, i: nat :: EndsIn(logs, r, i)
  }

  ghost predicate EndsIn(logs: seq<seq<Event>>, r: nat, i: nat) {
    r < |logs| && EndsBehind(AllEvents(logs[..r]), logs[r], i)
  }

  ghost predicate EndsNext(before: seq<Event>, log: seq<Event>) {
    exists i: nat :: EndsBehind(before, log, i)
  }

  predicate EndsBehind(before: seq<Event>, log: seq<Event>, i: nat) {
    EndsAt(log, DagSubmitted in before, i)
  }

  // ----- What the sinks of several runs, one after the other, make of them

  const EMPTY := Vault(None, map[], map[], None)

  function VaultOf(logs: seq<seq<Event>>): Vault {
    if logs == [] then EMPTY else Fold(SinkState(VaultOf(logs[..|logs| - 1]), false), logs[|logs| - 1]).vault
  }

  function Else<T>(a: Option<T>, b: Option<T>): Option<T> {
    if a.Some? then a else b
  }

  function RecordAt(v: Vault, id: Id): Option<Record> {
    if id in v.records then Some(v.records[id]) else None
  }

  function TextAt(v: Vault, id: Id): Option<string> {
    if id in v.artifacts then Some(v.artifacts[id]) else None
  }

  lemma {:induction false} FoldReads(k: SinkState, log: seq<Event>, id: Id)
    ensures var v := Fold(k, log).vault;
      && v.budget == Else(LastCounters(log), k.vault.budget)
      && RecordAt(v, id) == Else(LastRecord(log, id), RecordAt(k.vault, id))
      && TextAt(v, id) == Else(LastText(log, id), TextAt(k.vault, id))
  {
    hide Project;
    if log != [] {
      FoldReads(k, log[..|log| - 1], id);
      OneEvent(Fold(k, log[..|log| - 1]), log[|log| - 1], id);
    }
  }

  /** What one event does to a vault. */
  lemma OneEvent(k: SinkState, e: Event, id: Id)
    ensures var v, w := k.vault, Project(k, e).vault;
      && w.budget == (if e.BudgetUpdated? then Some(Counters(e.modelCalls, e.totalTokens)) else v.budget)
      && RecordAt(w, id) == (
           if e.NodeDispatched? && e.id == id then Some(Record(Running, Some(e.model), e.attempt))
           else if e.NodeDone? && e.id == id then Some(Record(Done, None, 1))
           else if e.NodeFailed? && e.id == id then Some(Record(Failed, None, 1))
           else if e.NodeBlocked? && e.id == id then Some(Record(Blocked, None, 0))
           else RecordAt(v, id))
      && TextAt(w, id) == (
           if e.NodeDone? && e.id == id then Some(e.output)
           else if e.NodeFailed? && e.id == id then Some(e.error)
           else TextAt(v, id))
  {
  }

  predicate IsCompleted(v: Vault) {
    v.run.Some? && v.run.value.completed
  }

  ghost predicate EndsSomewhere(k: SinkState, log: seq<Event>) {
    !k.breached && exists i: nat :: EndsAt(log, k.vault.run.Some?, i)
  }

  lemma {:induction false} FoldRuns(k: SinkState, log: seq<Event>)
    ensures Fold(k, log).vault.run.Some? <==> k.vault.run.Some? || DagSubmitted in log
    ensures Fold(k, log).breached <==> k.breached || exists j :: 0 <= j < |log| && log[j].BudgetBreached?
    ensures IsCompleted(Fold(k, log).vault) <==> IsCompleted(k.vault) || EndsSomewhere(k, log)
  {
    if log != [] {
      var front, e := log[..|log| - 1], log[|log| - 1];
      FoldRuns(k, front);
      assert log == front + [e];
      EndsLater(log, k.vault.run.Some?);
    }
  }

  /** The run ends at the last event, or before. */
  lemma EndsLater(log: seq<Event>, submitted: bool)
    requires log != []
    ensures var front, n: nat := log[..|log| - 1], |log| - 1;
      && ((exists i: nat :: EndsAt(log, submitted, i)) <==> (exists i: nat :: EndsAt(front, submitted, i)) || EndsAt(log, submitted, n))
      && (EndsAt(log, submitted, n) <==> log[n].DagDone? && (submitted || DagSubmitted in front) && forall j | 0 <= j < n :: !front[j].BudgetBreached?)
  {
    var front, n: nat := log[..|log| - 1], |log| - 1;
    forall i: nat | i < n
      ensures EndsAt(log, submitted, i) <==> EndsAt(front, submitted, i)
    {
      assert log[..i] == front[..i];
    }
    assert log[..n] == front;
  }

  lemma {:induction false} ReadsJoin(a: seq<Event>, b: seq<Event>, id: Id)
    ensures LastCounters(a + b) == Else(LastCounters(b), LastCounters(a))
    ensures LastRecord(a + b, id) == Else(LastRecord(b, id), LastRecord(a, id))
    ensures LastText(a + b, id) == Else(LastText(b, id), LastText(a, id))
  {
    if b == [] {
      assert a + b == a;
    } else {
      assert (a + b)[..|a + b| - 1] == a + b[..|b| - 1];
      ReadsJoin(a, b[..|b| - 1], id);
    }
  }

  lemma {:induction false} VaultReads(logs: seq<seq<Event>>, id: Id)
    ensures VaultOf(logs).budget == LastCounters(AllEvents(logs))
    ensures RecordAt(VaultOf(logs), id) == LastRecord(AllEvents(logs), id)
    ensures TextAt(VaultOf(logs), id) == LastText(AllEvents(logs), id)
  {
    hide LastCounters, LastRecord, LastText, Fold, RecordAt, TextAt;
    if logs == [] {
      EmptyReads(id);
    } else {
      var front, log := logs[..|logs| - 1], logs[|logs| - 1];
      VaultReads(front, id);
      FoldReads(SinkState(VaultOf(front), false), log, id);
      ReadsJoin(AllEvents(front), log, id);
    }
  }

  lemma EmptyReads(id: Id)
    ensures LastCounters([]) == None && LastRecord([], id) == None && LastText([], id) == None
    ensures RecordAt(EMPTY, id) == None && TextAt(EMPTY, id) == None
  {
  }

  lemma {:induction false} VaultRuns(logs: seq<seq<Event>>)
    ensures VaultOf(logs).run.Some? <==> DagSubmitted in AllEvents(logs)
    ensures IsCompleted(VaultOf(logs)) <==> Ended(logs)
  {
    hide Fold, EndsAt;
    if logs != [] {
      var front, log := logs[..|logs| - 1], logs[|logs| - 1];
      VaultRuns(front);
      FoldRuns(SinkState(VaultOf(front), false), log);
      EndedMore(logs);
      forall i: nat
        ensures EndsAt(log, VaultOf(front).run.Some?, i) <==> EndsBehind(AllEvents(front), log, i)
      {
      }
    }
  }

  lemma EndedMore(logs: seq<seq<Event>>)
    requires logs != []
    ensures var front, log := logs[..|logs| - 1], logs[|logs| - 1];
      Ended(logs) <==> Ended(front) || EndsNext(AllEvents(front), log)
  {
    hide EndsBehind, AllEvents;
    var front, log, n: nat := logs[..|logs| - 1], logs[|logs| - 1], |logs| - 1;
    forall r: nat, i: nat | r < n
      ensures EndsIn(logs, r, i) <==> EndsIn(front, r, i)
    {
      assert logs[..r] == front[..r];
    }
    forall i: nat
      ensures EndsIn(logs, n, i) <==> EndsBehind(AllEvents(front), log, i)
    {
      assert logs[..n] == front;
    }
    if Ended(front) {
      var r: nat, i: nat :| EndsIn(front, r, i);
      assert EndsIn(logs, r, i);
    }
    if EndsNext(AllEvents(front), log) {
      var i: nat :| EndsBehind(AllEvents(front), log, i);
      assert EndsIn(logs, n, i);
    }
    if Ended(logs) {
      var r: nat, i: nat :| EndsIn(logs, r, i);
      if r < n {
        assert EndsIn(front, r, i) && Ended(front);
      } else {
        assert EndsBehind(AllEvents(front), log, i);
      }
    }
  }

  // ----- The checkpoint

  /** The counters stored last, or none. */
  function CountersIn(log: seq<Event>): Counters {
    match LastCounters(log)
    case None => Counters(0, 0)
    case Some(c) => c
  }

  /** Its output is handed on to the restart. */
  predicate TakesText(log: seq<Event>, retryFailed: bool, id: Id) {
    && LastText(log, id).Some?
    && match LastStatus(log, id)
       case Some(Done) => true
       case Some(Blocked) => true
       case Some(Failed) => !retryFailed
       case _ => false
  }

  /** The checkpoint holds each node's last event, the texts that go with it, and the counters stored last. */
  ghost predicate CheckpointIs(cp: Checkpoint, log: seq<Event>, retryFailed: bool) {
    && cp.budget == CountersIn(log)
    && (forall id :: id in cp.completed <==> LastStatus(log, id) == Some(Done))
    && (forall id :: id in cp.failed <==> LastStatus(log, id) == Some(Failed) && !retryFailed)
    && (forall id :: id in cp.blocked <==> LastStatus(log, id) == Some(Blocked))
    && (forall id :: id in cp.staleRunning <==> LastStatus(log, id) == Some(Running))
    && (forall id :: id in cp.outputs <==> TakesText(log, retryFailed, id))
    && (forall id | id in cp.outputs :: LastText(log, id) == Some(cp.outputs[id]))
  }

  ghost predicate ReportIs(report: RunReport, log: seq<Event>) {
    && report.budget == CountersIn(log)
    && (forall id :: id in report.failed <==> LastStatus(log, id) == Some(Failed))
    && (forall id :: id in report.states <==> LastStatus(log, id).Some? && IsTerminal(LastStatus(log, id).value))
    && (forall id | id in report.states :: LastStatus(log, id) == Some(report.states[id]))
  }

  ghost predicate Reads(v: Vault, log: seq<Event>) {
    && v.budget == LastCounters(log)
    && (forall id :: RecordAt(v, id) == LastRecord(log, id))
    && (forall id :: TextAt(v, id) == LastText(log, id))
  }

  lemma ReadBack(logs: seq<seq<Event>>)
    ensures Reads(VaultOf(logs), AllEvents(logs))
  {
    hide VaultOf, AllEvents, LastCounters, LastRecord, LastText;
    VaultReads(logs, "");
    forall id
      ensures RecordAt(VaultOf(logs), id) == LastRecord(AllEvents(logs), id) && TextAt(VaultOf(logs), id) == LastText(AllEvents(logs), id)
    {
      VaultReads(logs, id);
    }
  }

  lemma CheckpointIsOfLog(v: Vault, log: seq<Event>, retryFailed: bool)
    requires Reads(v, log)
    ensures CheckpointIs(CheckpointOf(v, retryFailed), log, retryFailed)
  {
    hide LastCounters, LastRecord, LastText;
  }

  lemma ReportIsOfLog(v: Vault, log: seq<Event>)
    requires Reads(v, log)
    ensures ReportIs(ReportOf(v), log)
  {
    hide LastCounters, LastRecord, LastText;
    forall id
      ensures (id in v.records ==> LastStatus(log, id) == Some(v.records[id].status)) && (id !in v.records ==> LastStatus(log, id) == None)
    {
      assert RecordAt(v, id) == LastRecord(log, id);
    }
  }

  /**
   The decision of a restart after any number of runs, each stored up to some event: afresh if no run was ever
   submitted, done if one has ended without a breach, and otherwise resumed from each node's last event.
   */
  lemma DecisionIsOfLog(logs: seq<seq<Event>>, retryFailed: bool)
    ensures var d, log := DecisionOf(VaultOf(logs), retryFailed), AllEvents(logs);
      && (d.Fresh? <==> DagSubmitted !in log)
      && (d.AlreadyDone? <==> DagSubmitted in log && Ended(logs))
      && (d.Resume? ==> CheckpointIs(d.checkpoint, log, retryFailed))
      && (d.AlreadyDone? ==> ReportIs(d.report, log))
  {
    hide VaultOf, AllEvents, Ended, Reads, CheckpointIs, ReportIs, CheckpointOf, ReportOf;
    VaultRuns(logs);
    ReadBack(logs);
    CheckpointIsOfLog(VaultOf(logs), AllEvents(logs), retryFailed);
    ReportIsOfLog(VaultOf(logs), AllEvents(logs));
  }

  /** A restart begins with a breach if and only if the counters stored last exceed a ceiling. */
  method ReopenBudget(v: Vault, retryFailed: bool, limits: Limits, ghost logs: seq<seq<Event>>) returns (budget: BudgetInner)
    requires v == VaultOf(logs) && DagSubmitted in AllEvents(logs) && !Ended(logs)
    ensures fresh(budget) && budget.limits == limits
    ensures budget.Value().counters == CountersIn(AllEvents(logs))
    ensures budget.breach.Some? <==>
      || (limits.maxCalls.Some? && CountersIn(AllEvents(logs)).modelCalls > limits.maxCalls.value)
      || (limits.maxTokens.Some? && CountersIn(AllEvents(logs)).totalTokens > limits.maxTokens.value)
  {
    hide VaultOf, AllEvents, LastCounters, LastRecord, LastText, Ended, DecisionOf;
    DecisionIsOfLog(logs, retryFailed);
    var decision := LoadCheckpoint(v, retryFailed);
    budget := new BudgetInner(decision.checkpoint.budget, limits);
  }
}
