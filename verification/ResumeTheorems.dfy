/** Crashing, restarting from the checkpoint and running on gives what the uninterrupted run gives. */
module ResumeTheorems {
  import opened Wrappers
  import opened Dag
  import opened Events
  import opened Vault
  import opened Loop
  import opened LoopInvariant
  import opened LoopFacts
  import opened LoopSteps
  import opened LoopLog
  import opened LoopRuns
  import opened LoopTheorems
  import opened Denotation
  import opened Seed
  import opened ResumeSound
  import opened LoopTame

  // ----- Terminal records of a resumed run are final

  /** The record agrees with the uninterrupted run's. */
  ghost predicate Agrees(n: Node, fin: map<Id, NodeState>, exact: bool, st: map<Id, NodeState>) {
    && (Has(st, n.id, Done) ==> Has(fin, n.id, Done) && (exact ==> OutText(st, n.id) == OutText(fin, n.id)))
    && (Has(st, n.id, Failed) ==> Has(fin, n.id, Failed))
    && (Has(st, n.id, Blocked) ==> Held(n, fin))
  }

  /** What the graph, the worker and the start of the resumed run have to be. */
  ghost predicate Resuming(nodes: seq<Node>, work: Worker, fin: map<Id, NodeState>, exact: bool, mode: Mode) {
    && WellFormed(nodes) && Plain(nodes) && Solves(nodes, work, fin)
    && (exact || PromptBlind(work))
    && mode.work == Some(work) && !mode.firstRun && mode.blind == !exact && !mode.artifacts
    && forall n | n in nodes && n.id in mode.doomed :: Held(n, fin)
  }

  lemma AllDone(n: Node, st: map<Id, NodeState>)
    requires PlainNode(n) && Unreleased(n, st, n.dependsOn) == 0
    ensures forall d | d in n.dependsOn :: Has(st, d, Done)
  {
    NoneUnreleased(n, st, n.dependsOn);
  }

  /** A plain node whose dependencies are all Done is what the worker makes of it. */
  lemma RunsInDenotation(nodes: seq<Node>, work: Worker, fin: map<Id, NodeState>, n: Node)
    requires Solves(nodes, work, fin) && n in nodes && PlainNode(n)
    requires forall d | d in n.dependsOn :: Has(fin, d, Done)
    ensures fin[n.id] == Outcome(work, TaskOf(n, fin))
  {
    hide TaskOf;
    NoneUnreleased(n, fin, n.dependsOn);
    assert fin[n.id] == Denote(work, n, fin);
  }

  lemma RanAgrees(nodes: seq<Node>, work: Worker, fin: map<Id, NodeState>, exact: bool, mode: Mode, st: map<Id, NodeState>, n: Node)
    requires Resuming(nodes, work, fin, exact, mode) && n in nodes && n.id in st
    requires RanAs(mode, n, st, st[n.id])
    requires forall d | d in n.dependsOn :: Has(fin, d, Done) && (exact ==> OutText(st, d) == OutText(fin, d))
    ensures st[n.id].status == fin[n.id].status && n.id in fin
    ensures exact && Has(st, n.id, Done) ==> OutText(st, n.id) == OutText(fin, n.id)
  {
    hide TaskOf, PromptBlind, Solves, Held;
    assert n.id in fin by {
      KeysOf(nodes, work, fin);
    }
    RunsInDenotation(nodes, work, fin, n);
    if exact {
      TaskReads(n, st, fin);
    } else {
      BlindOutcome(work, n, st, fin);
    }
  }

  lemma KeysOf(nodes: seq<Node>, work: Worker, fin: map<Id, NodeState>)
    requires Solves(nodes, work, fin)
    ensures fin.Keys == Ids(nodes)
  {
  }

  lemma {:induction false} RecordAgrees(nodes: seq<Node>, work: Worker, rank: map<Id, nat>, fin: map<Id, NodeState>, exact: bool, mode: Mode, s: State, n: Node)
    requires Resuming(nodes, work, fin, exact, mode) && Ranked(nodes, rank) && n in nodes
    requires Sound(nodes, mode, s)
    ensures Agrees(n, fin, exact, s.nodeState)
    decreases rank[n.id]
  {
    hide Resuming, Sound, Agrees;
    forall d | d in n.dependsOn
      ensures exists m :: m in nodes && m.id == d && Agrees(m, fin, exact, s.nodeState)
    {
      assert Edge(n, d);
      ResumingClosed(nodes, work, fin, exact, mode, n, d);
      var m :| m in nodes && m.id == d;
      RecordAgrees(nodes, work, rank, fin, exact, mode, s, m);
    }
    StepAgrees(nodes, work, fin, exact, mode, s, n);
  }

  lemma ResumingClosed(nodes: seq<Node>, work: Worker, fin: map<Id, NodeState>, exact: bool, mode: Mode, n: Node, d: Id)
    requires Resuming(nodes, work, fin, exact, mode) && n in nodes && Edge(n, d)
    ensures exists m :: m in nodes && m.id == d
  {
    hide Solves, PromptBlind, Held;
    assert d in Ids(nodes);
  }

  lemma StepAgrees(nodes: seq<Node>, work: Worker, fin: map<Id, NodeState>, exact: bool, mode: Mode, s: State, n: Node)
    requires Resuming(nodes, work, fin, exact, mode) && n in nodes && Sound(nodes, mode, s)
    requires forall d | d in n.dependsOn :: exists m :: m in nodes && m.id == d && Agrees(m, fin, exact, s.nodeState)
    ensures Agrees(n, fin, exact, s.nodeState)
  {
    hide Sound, WellFormed, Solves, PromptBlind, RanAs, Matches;
    var st := s.nodeState;
    if Over(st, n.id) {
      RecordIsJustified(nodes, mode, s, n);
      if st[n.id].status != Blocked {
        assert RanAs(mode, n, st, st[n.id]);
        RanAllDone(mode, n, st);
        RanAgrees(nodes, work, fin, exact, mode, st, n);
      }
    }
  }

  lemma RanAllDone(mode: Mode, n: Node, st: map<Id, NodeState>)
    requires PlainNode(n) && n.id in st && RanAs(mode, n, st, st[n.id])
    ensures forall d | d in n.dependsOn :: Has(st, d, Done)
  {
    AllDone(n, st);
  }

  // ----- At the exit nothing is missing

  lemma {:induction false} ExitAgrees(nodes: seq<Node>, work: Worker, rank: map<Id, nat>, fin: map<Id, NodeState>, exact: bool, mode: Mode, s: State, n: Node)
    requires Resuming(nodes, work, fin, exact, mode) && Ranked(nodes, rank) && n in nodes
    requires Sound(nodes, mode, s) && Exited(s) && !s.refused
    ensures Has(s.nodeState, n.id, Done) <==> Has(fin, n.id, Done)
    ensures Has(s.nodeState, n.id, Failed) <==> Has(fin, n.id, Failed)
    decreases rank[n.id]
  {
    hide Resuming, Sound, Exited;
    var st := s.nodeState;
    RecordAgrees(nodes, work, rank, fin, exact, mode, s, n);
    forall d | d in n.dependsOn
      ensures Has(st, d, Done) <==> Has(fin, d, Done)
    {
      assert Edge(n, d);
      ResumingClosed(nodes, work, fin, exact, mode, n, d);
      var m :| m in nodes && m.id == d;
      ExitAgrees(nodes, work, rank, fin, exact, mode, s, m);
    }
    if Has(fin, n.id, Done) || Has(fin, n.id, Failed) {
      FinishedAtExit(nodes, work, fin, exact, mode, s, n);
    }
  }

  /** A node that finishes in the uninterrupted run is neither pending nor blocked at the exit. */
  lemma FinishedAtExit(nodes: seq<Node>, work: Worker, fin: map<Id, NodeState>, exact: bool, mode: Mode, s: State, n: Node)
    requires Resuming(nodes, work, fin, exact, mode) && n in nodes
    requires Sound(nodes, mode, s) && Exited(s) && !s.refused
    requires Has(fin, n.id, Done) || Has(fin, n.id, Failed)
    requires Agrees(n, fin, exact, s.nodeState)
    requires forall d | d in n.dependsOn :: Has(s.nodeState, d, Done) <==> Has(fin, d, Done)
    ensures Has(s.nodeState, n.id, Done) || Has(s.nodeState, n.id, Failed)
  {
    hide Sound, WellFormed, PromptBlind, Exited, Solves;
    FinishedRan(nodes, work, fin, n);
    NoneUnreleased(n, s.nodeState, n.dependsOn);
    KnownStatus(nodes, mode, s, n.id);
    if Has(s.nodeState, n.id, Pending) {
      NotReleased(nodes, mode, s, n);
      NoneOpen(s.nodeState, n.after);
    }
  }

  // ----- What a crash leaves in the vault is true

  ghost function FirstSink(): SinkState {
    SinkState(Vault(None, map[], map[], None), false)
  }

  /** The vault after a crash `k` events into a run that ended, or stopped, in `s`. */
  ghost function VaultAfter(base: SinkState, s: State, k: nat): Vault
    requires k <= |s.log|
  {
    Fold(base, s.log[..k]).vault
  }

  lemma FirstRunRecord(nodes: seq<Node>, work: Worker, rank: map<Id, nat>, s: State, n: Node, v: Vault)
    requires WellFormed(nodes) && Plain(nodes) && Ranked(nodes, rank) && n in nodes
    requires Sound(nodes, WorkMode(work), s) && RecordSound(n, true, v, s.nodeState)
    ensures RecordTrue(n, Finals(nodes, work, rank), true, v)
  {
    hide Sound, WellFormed, Ranked, Final;
    var st, fin := s.nodeState, Finals(nodes, work, rank);
    if Over(st, n.id) {
      TerminalRecordIsFinal(nodes, work, rank, s, n);
      RecordIsJustified(nodes, WorkMode(work), s, n);
    }
    if Recorded(v, n.id, Blocked) {
      var d :| d in n.dependsOn && !GatedOn(n, d) && Has(st, d, Failed);
      EdgeNode(nodes, n, d);
      var m :| m in nodes && m.id == d;
      TerminalRecordIsFinal(nodes, work, rank, s, m);
    }
  }

  lemma FirstRunPrefix(nodes: seq<Node>, work: Worker, rank: map<Id, nat>, s: State, k: nat)
    requires WellFormed(nodes) && Plain(nodes) && Ranked(nodes, rank)
    requires Produces(nodes, work, s) && k <= |s.log|
    ensures VaultTrue(nodes, Finals(nodes, work, rank), true, VaultAfter(FirstSink(), s, k))
  {
    hide Sound, WellFormed, Ranked, Produces, Finals, RecordTrue, Plain;
    ProducesSound(nodes, work, s);
    PrefixSound(nodes, WorkMode(work), s, k);
    var v := VaultAfter(FirstSink(), s, k);
    forall n | n in nodes
      ensures RecordTrue(n, Finals(nodes, work, rank), true, v)
    {
      FirstRunRecord(nodes, work, rank, s, n, v);
    }
  }

  lemma PrefixSound(nodes: seq<Node>, mode: Mode, s: State, k: nat)
    requires Sound(nodes, mode, s) && k <= |s.log|
    ensures VaultSound(nodes, mode.artifacts, VaultAfter(mode.base, s, k), s.nodeState)
  {
    hide VaultSound, Counts, Facts, Sets;
  }

  lemma ResumedRecord(n: Node, fin: map<Id, NodeState>, v: Vault, st: map<Id, NodeState>)
    requires PlainNode(n) && RecordSound(n, false, v, st) && Agrees(n, fin, false, st)
    ensures RecordTrue(n, fin, false, v)
  {
    hide Held;
  }

  lemma ResumedPrefix(nodes: seq<Node>, work: Worker, rank: map<Id, nat>, fin: map<Id, NodeState>, exact: bool, mode: Mode, s: State, k: nat)
    requires Resuming(nodes, work, fin, exact, mode) && Ranked(nodes, rank)
    requires Sound(nodes, mode, s) && k <= |s.log|
    ensures VaultTrue(nodes, fin, false, VaultAfter(mode.base, s, k))
  {
    hide Sound, Ranked, RecordTrue, WellFormed, Solves, PromptBlind, Held;
    PrefixSound(nodes, mode, s, k);
    var v := VaultAfter(mode.base, s, k);
    forall n | n in nodes
      ensures RecordTrue(n, fin, false, v)
    {
      RecordAgrees(nodes, work, rank, fin, exact, mode, s, n);
      ResumedRecord(n, fin, v, s.nodeState);
    }
  }

  // ----- Any number of crashes

  /** A run from the checkpoint of `v`, in any completion order. */
  ghost predicate Reruns(nodes: seq<Node>, work: Worker, v: Vault, s0: State, s: State) {
    exists acts: seq<Action> ::
      ResumesAs(nodes, v, s0) && IsRun(nodes, s0, acts) && FaithfulRun(nodes, ResumeMode(work, true, v, s0.nodeState), s0, acts) && s == After(nodes, s0, acts)
  }

  /** `v` is what is stored after a first run and then `crashes - 1` restarted runs were all cut short, anywhere. */
  ghost predicate Crashed(nodes: seq<Node>, work: Worker, crashes: nat, v: Vault)
    requires crashes > 0
    decreases crashes
  {
    if crashes == 1 then
      exists s, k: nat :: Produces(nodes, work, s) && k <= |s.log| && v == VaultAfter(FirstSink(), s, k)
    else
      exists v0, s0, s, k: nat ::
        Crashed(nodes, work, crashes - 1, v0) && Reruns(nodes, work, v0, s0, s) && k <= |s.log| && v == VaultAfter(SinkState(v0, false), s, k)
  }

  lemma {:induction false} SameFaith(nodes: seq<Node>, mode: Mode, mode': Mode, s: State, acts: seq<Action>)
    requires IsRun(nodes, s, acts) && FaithfulRun(nodes, mode, s, acts) && mode.work == mode'.work
    ensures FaithfulRun(nodes, mode', s, acts)
    decreases |acts|
  {
    hide Step, Enabled;
    if acts != [] {
      SameFaith(nodes, mode, mode', Step(nodes, s, acts[0]), acts[1..]);
    }
  }

  lemma FinalsSolve(nodes: seq<Node>, work: Worker, rank: map<Id, nat>)
    requires WellFormed(nodes) && Ranked(nodes, rank)
    ensures Solves(nodes, work, Finals(nodes, work, rank))
  {
    hide Denote, Final, WellFormed;
    forall n | n in nodes
      ensures Finals(nodes, work, rank)[n.id] == Denote(work, n, Finals(nodes, work, rank))
    {
      FinalsDenote(nodes, work, rank, n);
    }
  }

  lemma StartIsResuming(nodes: seq<Node>, work: Worker, fin: map<Id, NodeState>, exact: bool, v: Vault, s0: State)
    requires WellFormed(nodes) && Plain(nodes) && Solves(nodes, work, fin) && VaultTrue(nodes, fin, exact, v)
    requires exact || PromptBlind(work)
    requires ResumesAs(nodes, v, s0)
    ensures Resuming(nodes, work, fin, exact, ResumeMode(work, exact, v, s0.nodeState))
    ensures Sound(nodes, ResumeMode(work, exact, v, s0.nodeState), s0)
    ensures forall id | id in Ids(nodes) :: Has(s0.nodeState, id, Done) <==> Recorded(v, id, Done)
    ensures s0.spawned == []
  {
    hide WellFormed, Plain, Solves, VaultTrue, PromptBlind, ResumesAs, Sound, Held;
    ResumedIsSound(nodes, work, fin, exact, v, s0);
  }

  /** Every state of a restarted run meets the invariant. */
  lemma RerunIsSound(nodes: seq<Node>, work: Worker, fin: map<Id, NodeState>, exact: bool, v: Vault, s0: State, s: State)
    requires WellFormed(nodes) && Plain(nodes) && Solves(nodes, work, fin) && VaultTrue(nodes, fin, exact, v)
    requires exact || PromptBlind(work)
    requires Reruns(nodes, work, v, s0, s)
    ensures var mode := ResumeMode(work, exact, v, s0.nodeState);
      Resuming(nodes, work, fin, exact, mode) && Sound(nodes, mode, s)
    ensures forall id | id in Ids(nodes) && Recorded(v, id, Done) :: id !in s.spawned
  {
    hide WellFormed, Plain, Solves, VaultTrue, PromptBlind, ResumesAs, Sound, Resuming, IsRun, After, FaithfulRun;
    var acts: seq<Action> :|
      ResumesAs(nodes, v, s0) && IsRun(nodes, s0, acts) && FaithfulRun(nodes, ResumeMode(work, true, v, s0.nodeState), s0, acts) && s == After(nodes, s0, acts);
    var mode := ResumeMode(work, exact, v, s0.nodeState);
    StartIsResuming(nodes, work, fin, exact, v, s0);
    SameFaith(nodes, ResumeMode(work, true, v, s0.nodeState), mode, s0, acts);
    ResumingMode(nodes, work, fin, exact, mode);
    RunOk(nodes, mode, s0, acts);
    forall id | id in Ids(nodes) && Recorded(v, id, Done)
      ensures id !in s.spawned
    {
      NeverSpawnedAgain(nodes, s0, acts, id);
    }
  }

  lemma ResumingMode(nodes: seq<Node>, work: Worker, fin: map<Id, NodeState>, exact: bool, mode: Mode)
    requires Resuming(nodes, work, fin, exact, mode)
    ensures ModeOk(nodes, mode)
  {
  }

  /** Whatever the crashes, the vault holds true records only. */
  lemma {:induction false} CrashedIsTrue(nodes: seq<Node>, work: Worker, rank: map<Id, nat>, crashes: nat, v: Vault)
    requires WellFormed(nodes) && Plain(nodes) && Ranked(nodes, rank)
    requires crashes > 0 && (crashes > 1 ==> PromptBlind(work))
    requires Crashed(nodes, work, crashes, v)
    ensures VaultTrue(nodes, Finals(nodes, work, rank), crashes == 1, v)
    decreases crashes
  {
    hide WellFormed, Plain, Ranked, PromptBlind, Produces, Reruns, VaultTrue, Finals, Resuming, Sound;
    if crashes == 1 {
      var s, k: nat :| Produces(nodes, work, s) && k <= |s.log| && v == VaultAfter(FirstSink(), s, k);
      FirstRunPrefix(nodes, work, rank, s, k);
    } else {
      var v0, s0, s, k: nat :|
        Crashed(nodes, work, crashes - 1, v0) && Reruns(nodes, work, v0, s0, s) && k <= |s.log| && v == VaultAfter(SinkState(v0, false), s, k);
      CrashedIsTrue(nodes, work, rank, crashes - 1, v0);
      FinalsSolve(nodes, work, rank);
      var fin := Finals(nodes, work, rank);
      RerunIsSound(nodes, work, fin, crashes == 2, v0, s0, s);
      ResumedPrefix(nodes, work, rank, fin, crashes == 2, ResumeMode(work, crashes == 2, v0, s0.nodeState), s, k);
    }
  }

  /**
   Resume equivalence: on a graph without gates and `after` edges, cutting a run short after any prefix of
   its events and running on from the checkpoint ends with the Done set and the Failed set of the
   uninterrupted run, and dispatches no node the vault holds as Done.  One crash may meet any worker; with
   more, as a restart erases the stored outputs, the worker's verdict must not depend on its prompt.
   */
  lemma ResumeEquivalence(nodes: seq<Node>, work: Worker, rank: map<Id, nat>, crashes: nat, v: Vault, s0: State, s: State)
    requires WellFormed(nodes) && Plain(nodes) && Ranked(nodes, rank)
    requires crashes > 0 && (crashes > 1 ==> PromptBlind(work))
    requires Crashed(nodes, work, crashes, v) && Reruns(nodes, work, v, s0, s)
    requires Exited(s) && !s.refused
    ensures forall id | id in Ids(nodes) :: Has(s.nodeState, id, Done) <==> Has(Finals(nodes, work, rank), id, Done)
    ensures forall id | id in Ids(nodes) :: Has(s.nodeState, id, Failed) <==> Has(Finals(nodes, work, rank), id, Failed)
    ensures crashes == 1 ==> forall id | id in Ids(nodes) && Has(s.nodeState, id, Done) :: OutText(s.nodeState, id) == OutText(Finals(nodes, work, rank), id)
    ensures forall id | id in Ids(nodes) && Recorded(v, id, Done) :: id !in s.spawned
  {
    hide WellFormed, Plain, Ranked, PromptBlind, Crashed, Reruns, VaultTrue, Finals, Resuming, Sound, Exited, OutText;
    var fin := Finals(nodes, work, rank);
    FinalsSolve(nodes, work, rank);
    CrashedIsTrue(nodes, work, rank, crashes, v);
    RerunIsSound(nodes, work, fin, crashes == 1, v, s0, s);
    var mode := ResumeMode(work, crashes == 1, v, s0.nodeState);
    forall n | n in nodes
      ensures Has(s.nodeState, n.id, Done) <==> Has(fin, n.id, Done)
      ensures Has(s.nodeState, n.id, Failed) <==> Has(fin, n.id, Failed)
      ensures crashes == 1 && Has(s.nodeState, n.id, Done) ==> OutText(s.nodeState, n.id) == OutText(fin, n.id)
    {
      ExitAgrees(nodes, work, rank, fin, crashes == 1, mode, s, n);
      RecordAgrees(nodes, work, rank, fin, crashes == 1, mode, s, n);
    }
  }
}
