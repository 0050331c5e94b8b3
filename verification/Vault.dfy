/**
 The vault of one run: the projection of its event stream, and what the projection has to do with
 the scheduler's own records.
 */
module Vault {
  import opened Wrappers
  import opened Dag
  import opened Events

  datatype Record = Record(status: Status, model: Option<string>, attempt: nat)

  datatype RunMeta = RunMeta(completed: bool, successful: nat, failed: nat)

  datatype Counters = Counters(modelCalls: nat, totalTokens: nat)

  datatype Vault = Vault(run: Option<RunMeta>, records: map<Id, Record>, artifacts: map<Id, string>, budget: Option<Counters>)

  /** The sink also remembers whether a breach went by: a breached run is not marked complete. */
  datatype SinkState = SinkState(vault: Vault, breached: bool)

  function PutRecord(v: Vault, id: Id, r: Record): Vault {
    v.(records := v.records[id := r])
  }

  function Project(k: SinkState, e: Event): SinkState {
    var v := k.vault;
    match e
    case NodeBlocked(id) => k.(vault := PutRecord(v, id, Record(Blocked, None, 0)))
    case DagSubmitted => if v.run.None? then k.(vault := v.(run := Some(RunMeta(false, 0, 0)))) else k
    case NodeDispatched(id, model, attempt) => k.(vault := PutRecord(v, id, Record(Running, Some(model), attempt)))
    case NodeDone(id, _, output) => k.(vault := PutRecord(v, id, Record(Done, None, 1)).(artifacts := v.artifacts[id := output]))
    case NodeFailed(id, error) => k.(vault := PutRecord(v, id, Record(Failed, None, 1)).(artifacts := v.artifacts[id := error]))
    case DagDone(successful, failed) =>
      (match v.run
       case None => k
       case Some(run) => k.(vault := v.(run := Some(RunMeta(!k.breached || run.completed, successful, failed)))))
    case BudgetBreached(_) => k.(breached := true)
    case BudgetUpdated(calls, tokens) => k.(vault := v.(budget := Some(Counters(calls, tokens))))
    case _ => k
  }

  function Fold(k: SinkState, log: seq<Event>): SinkState {
    if log == [] then k else Project(Fold(k, log[..|log| - 1]), log[|log| - 1])
  }

  lemma {:induction false} FoldAppend(k: SinkState, a: seq<Event>, b: seq<Event>)
    ensures Fold(k, a + b) == Fold(Fold(k, a), b)
  {
    if b == [] {
      assert a + b == a;
    } else {
      var front := b[..|b| - 1];
      assert (a + b)[..|a + b| - 1] == a + front;
      FoldAppend(k, a, front);
    }
  }

  /** The sink as an object: one `Emit` an event. */
  class RedbSink {
    var vault: Vault
    var breached: bool

    function State(): SinkState
      reads this
    {
      SinkState(vault, breached)
    }

    constructor (vault: Vault)
      ensures State() == SinkState(vault, false)
    {
      this.vault := vault;
      this.breached := false;
    }

    method Emit(event: Event)
      modifies this
      ensures State() == Project(old(State()), event)
    {
      match event
      case NodeBlocked(id) =>
        vault := PutRecord(vault, id, Record(Blocked, None, 0));
      case DagSubmitted =>
        if vault.run.None? {
          vault := vault.(run := Some(RunMeta(false, 0, 0)));
        }
      case NodeDispatched(id, model, attempt) =>
        vault := PutRecord(vault, id, Record(Running, Some(model), attempt));
      case NodeDone(id, _, output) =>
        vault := PutRecord(vault, id, Record(Done, None, 1));
        vault := vault.(artifacts := vault.artifacts[id := output]);
      case NodeFailed(id, error) =>
        vault := PutRecord(vault, id, Record(Failed, None, 1));
        vault := vault.(artifacts := vault.artifacts[id := error]);
      case DagDone(successful, failed) =>
        if vault.run.Some? {
          var run := vault.run.value;
          if !breached {
            run := run.(completed := true);
          }
          vault := vault.(run := Some(run.(successful := successful, failed := failed)));
        }
      case BudgetBreached(_) =>
        breached := true;
      case BudgetUpdated(calls, tokens) =>
        vault := vault.(budget := Some(Counters(calls, tokens)));
      case _ =>
    }

    method EmitAll(events: seq<Event>)
      modifies this
      ensures State() == Fold(old(State()), events)
    {
      for i := 0 to |events|
        invariant State() == Fold(old(State()), events[..i])
      {
        Emit(events[i]);
        assert events[..i + 1][..i] == events[..i];
      }
      assert events[..|events|] == events;
    }
  }
}
