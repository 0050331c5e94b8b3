/** What a restart finds: nothing, an unfinished run, or a finished one with its report. */
module Lifecycle {
  import opened Wrappers
  import opened Dag
  import opened Events
  import opened Vault
  import opened Loop
  import opened LoopInvariant
  import opened LoopFacts
  import opened LoopLog
  import opened LoopRuns
  import opened LoopTheorems
  import opened LoopTame
  import opened Resume
  import opened Seed
  import opened ResumeSound
  import opened ResumeTheorems

  ghost predicate EndAnnounced(log: seq<Event>) {
    exists e :: e in log && e.DagDone?
  }

  ghost predicate BreachAnnounced(log: seq<Event>) {
    exists e :: e in log && e.BudgetBreached?
  }

  ghost predicate Completed(v: Vault) {
    v.run.Some? && v.run.value.completed
  }

  /** Without an end event the run row is there as soon as the first event is, and never marked complete. */
  lemma {:induction false} Unfinished(base: SinkState, log: seq<Event>)
    requires !Completed(base.vault) && !EndAnnounced(log)
    ensures var k := Fold(base, log);
      && !Completed(k.vault)
      && (k.breached <==> base.breached || BreachAnnounced(log))
      && (base.vault.run.Some? || (log != [] && log[0] == DagSubmitted) ==> k.vault.run.Some?)
      && (log == [] ==> k == base)
  {
    hide Completed, Project;
    if log != [] {
      var front, last := log[..|log| - 1], log[|log| - 1];
      assert log == front + [last];
      assert !last.DagDone? && !EndAnnounced(front) by {
        assert forall e | e in front :: e in log;
        assert last in log;
      }
      Unfinished(base, front);
      OneMore(Fold(base, front), last);
      assert BreachAnnounced(log) <==> BreachAnnounced(front) || last.BudgetBreached?;
    }
  }

  lemma OneMore(k: SinkState, e: Event)
    requires !e.DagDone? && !Completed(k.vault)
    ensures !Completed(Project(k, e).vault)
    ensures Project(k, e).breached <==> k.breached || e.BudgetBreached?
    ensures k.vault.run.Some? || e == DagSubmitted ==> Project(k, e).vault.run.Some?
  {
  }

  lemma RunLogs(nodes: seq<Node>, s: State)
    requires Reachable(nodes, s)
    ensures s.log != [] && s.log[0] == DagSubmitted && !EndAnnounced(s.log)
  {
    hide IsRun, After, ReadyIds, Enumerates;
    var s0, acts: seq<Action> :| Initial(nodes, s0) && IsRun(nodes, s0, acts) && s == After(nodes, s0, acts);
    RunTame(nodes, s0, acts);
    assert s0.log == [DagSubmitted];
  }

  /** A run cut short is resumed, unless not even its first event was stored: then it starts afresh. */
  lemma CutShort(nodes: seq<Node>, s: State, k: nat, retryFailed: bool)
    requires Reachable(nodes, s) && k <= |s.log|
    ensures var v := VaultAfter(FirstSink(), s, k);
      DecisionOf(v, retryFailed) == if k == 0 then Fresh else Decision.Resume(CheckpointOf(v, retryFailed))
  {
    hide Reachable, CheckpointOf;
    RunLogs(nodes, s);
    var log := s.log[..k];
    assert !EndAnnounced(log) by {
      assert forall e | e in log :: e in s.log;
    }
    Unfinished(FirstSink(), log);
  }

  /** The vault once the end of the run has been announced, too. */
  ghost function FinalVault(s: State, successful: nat, failed: nat): Vault {
    Fold(FirstSink(), s.log + [DagDone(successful, failed)]).vault
  }

  /**
   A run that ended is not run again if and only if no breach was announced; the report then read back from
   the vault lists exactly the failed nodes whose failure was not one of verification.
   */
  lemma EndedRun(nodes: seq<Node>, s: State, successful: nat, failed: nat, retryFailed: bool)
    requires WellFormed(nodes) && Reachable(nodes, s)
    ensures var v := FinalVault(s, successful, failed);
      && v.run == Some(RunMeta(!BreachAnnounced(s.log), successful, failed))
      && (DecisionOf(v, retryFailed).AlreadyDone? <==> !BreachAnnounced(s.log))
      && (DecisionOf(v, retryFailed).AlreadyDone? ==>
            forall n | n in nodes :: n.id in DecisionOf(v, retryFailed).report.failed <==> Has(s.nodeState, n.id, Failed) && !VerifyFailedLogged(s.log, n.id))
  {
    hide Reachable, WellFormed, Has, VerifyFailedLogged;
    RunLogs(nodes, s);
    Unfinished(FirstSink(), s.log);
    FoldOne(FirstSink(), s.log, DagDone(successful, failed));
    forall n | n in nodes
      ensures Recorded(Fold(FirstSink(), s.log).vault, n.id, Failed) <==> Has(s.nodeState, n.id, Failed) && !VerifyFailedLogged(s.log, n.id)
    {
      VaultAgreesWithReport(nodes, s, n);
    }
  }

  // ----- What a restart erases

  lemma {:induction false} DoneErases(base: SinkState, log: seq<Event>, id: Id)
    requires forall e | e in log && RecordId(e) == Some(id) :: e.NodeDone? && e.output == ""
    requires NodeDone(id, "", "") in log
    ensures id in Fold(base, log).vault.artifacts && Fold(base, log).vault.artifacts[id] == ""
  {
    var front, last := log[..|log| - 1], log[|log| - 1];
    assert log == front + [last];
    if RecordId(last) != Some(id) {
      DoneErases(base, front, id);
    }
  }

  /**
   The stored output of every completed node is erased as soon as the start of the restarted run is
   recorded, so a second restart restores the output a node had if and only if that output was empty.
   */
  lemma RestartErases(nodes: seq<Node>, work: Worker, fin: map<Id, NodeState>, exact: bool, v: Vault, s0: State, id: Id)
    requires WellFormed(nodes) && Plain(nodes) && Solves(nodes, work, fin) && VaultTrue(nodes, fin, exact, v)
    requires exact || PromptBlind(work)
    requires ResumesAs(nodes, v, s0) && id in Ids(nodes) && Recorded(v, id, Done)
    ensures var w := Fold(SinkState(v, false), s0.log).vault;
      && Recorded(w, id, Done) && id in w.artifacts
      && (id in v.artifacts ==> (w.artifacts[id] == v.artifacts[id] <==> v.artifacts[id] == ""))
  {
    hide WellFormed, Plain, Solves, VaultTrue, PromptBlind, ResumesAs, Sound;
    ResumedIsSound(nodes, work, fin, exact, v, s0);
    forall e | e in s0.log && RecordId(e) == Some(id)
      ensures e.NodeDone? && e.output == ""
    {
      assert Confirms(e, s0.nodeState);
    }
    DoneErases(SinkState(v, false), s0.log, id);
    DoneStays(SinkState(v, false), s0.log, id);
  }

  lemma {:induction false} DoneStays(base: SinkState, log: seq<Event>, id: Id)
    requires forall e | e in log && RecordId(e) == Some(id) :: e.NodeDone?
    requires Recorded(base.vault, id, Done)
    ensures Recorded(Fold(base, log).vault, id, Done)
  {
    if log != [] {
      var front, last := log[..|log| - 1], log[|log| - 1];
      assert log == front + [last] && last in log;
      DoneStays(base, front, id);
    }
  }
}
