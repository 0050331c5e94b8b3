/** What a restart reads back from the vault of an interrupted run. */
module Resume {
  import opened Wrappers
  import opened Dag
  import opened Events
  import opened Vault

  datatype Checkpoint = Checkpoint(
    completed: set<Id>,
    failed: set<Id>,
    blocked: set<Id>,
    staleRunning: set<Id>,
    outputs: map<Id, string>,
    budget: Counters)

  datatype RunReport = RunReport(states: map<Id, Status>, failed: set<Id>, budget: Counters)

  datatype Decision = Fresh | AlreadyDone(report: RunReport) | Resume(checkpoint: Checkpoint)

  function WithStatus(v: Vault, status: Status): set<Id> {
    set id | id in v.records && v.records[id].status == status
  }

  function BudgetOf(v: Vault): Counters {
    match v.budget
    case None => Counters(0, 0)
    case Some(c) => c
  }

  /** The nodes whose record the checkpoint treats as final. */
  function Kept(v: Vault, retryFailed: bool): set<Id> {
    WithStatus(v, Done) + WithStatus(v, Blocked) + if retryFailed then {} else WithStatus(v, Failed)
  }

  function CheckpointOf(v: Vault, retryFailed: bool): Checkpoint {
    Checkpoint(
      WithStatus(v, Done),
      if retryFailed then {} else WithStatus(v, Failed),
      WithStatus(v, Blocked),
      WithStatus(v, Running),
      map id | id in Kept(v, retryFailed) && id in v.artifacts :: v.artifacts[id],
      BudgetOf(v))
  }

  function ReportOf(v: Vault): RunReport {
    var terminal := WithStatus(v, Done) + WithStatus(v, Failed) + WithStatus(v, Blocked);
    RunReport(map id | id in terminal :: v.records[id].status, WithStatus(v, Failed), BudgetOf(v))
  }

  function DecisionOf(v: Vault, retryFailed: bool): Decision {
    match v.run
    case None => Fresh
    case Some(run) => if run.completed then AlreadyDone(ReportOf(v)) else Resume(CheckpointOf(v, retryFailed))
  }

  /** The part of the checkpoint that the rows seen so far make up. */
  ghost predicate Sorted(v: Vault, retryFailed: bool, seen: set<Id>, cp: Checkpoint)
    requires seen <= v.records.Keys
  {
    && cp.completed == (set id | id in seen && v.records[id].status == Done)
    && cp.failed == (set id | id in seen && v.records[id].status == Failed && !retryFailed)
    && cp.blocked == (set id | id in seen && v.records[id].status == Blocked)
    && cp.staleRunning == (set id | id in seen && v.records[id].status == Running)
    && cp.outputs == (map id | id in seen && id in Kept(v, retryFailed) && id in v.artifacts :: v.artifacts[id])
  }

  function Hydrated(outputs: map<Id, string>, v: Vault, id: Id): map<Id, string> {
    if id in v.artifacts then outputs[id := v.artifacts[id]] else outputs
  }

  /** One row of the vault put into its set. */
  method SortRow(v: Vault, retryFailed: bool, cp: Checkpoint, id: Id, ghost seen: set<Id>) returns (cp': Checkpoint)
    requires id in v.records && id !in seen && seen <= v.records.Keys
    requires Sorted(v, retryFailed, seen, cp)
    ensures Sorted(v, retryFailed, seen + {id}, cp') && cp'.budget == cp.budget
  {
    cp' := cp;
    match v.records[id].status
    case Done =>
      cp' := cp.(completed := cp.completed + {id}, outputs := Hydrated(cp.outputs, v, id));
    case Failed =>
      if !retryFailed {
        cp' := cp.(failed := cp.failed + {id}, outputs := Hydrated(cp.outputs, v, id));
      }
    case Blocked =>
      cp' := cp.(blocked := cp.blocked + {id}, outputs := Hydrated(cp.outputs, v, id));
    case Running =>
      cp' := cp.(staleRunning := cp.staleRunning + {id});
    case Pending =>
  }

  lemma NothingSorted(v: Vault, retryFailed: bool)
    ensures Sorted(v, retryFailed, v.records.Keys - v.records.Keys, Checkpoint({}, {}, {}, {}, map[], BudgetOf(v)))
  {
  }

  method LoadCheckpoint(v: Vault, retryFailed: bool) returns (decision: Decision)
    ensures decision == DecisionOf(v, retryFailed)
  {
    hide Sorted, BudgetOf, CheckpointOf, ReportOf;
    if v.run.None? {
      return Fresh;
    }
    if v.run.value.completed {
      return AlreadyDone(ReportOf(v));
    }
    var cp := Checkpoint({}, {}, {}, {}, map[], BudgetOf(v));
    var rows := v.records.Keys;
    NothingSorted(v, retryFailed);
    while rows != {}
      invariant rows <= v.records.Keys && cp.budget == BudgetOf(v)
      invariant Sorted(v, retryFailed, v.records.Keys - rows, cp)
      decreases |rows|
    {
      var id :| id in rows;
      ghost var seen := v.records.Keys - rows;
      cp := SortRow(v, retryFailed, cp, id, seen);
      rows := rows - {id};
      assert v.records.Keys - rows == seen + {id};
    }
    AllSorted(v, retryFailed, cp);
    decision := Resume(cp);
  }

  lemma AllSorted(v: Vault, retryFailed: bool, cp: Checkpoint)
    requires Sorted(v, retryFailed, v.records.Keys - {}, cp) && cp.budget == BudgetOf(v)
    ensures cp == CheckpointOf(v, retryFailed)
  {
    assert v.records.Keys - {} == v.records.Keys;
  }
}
