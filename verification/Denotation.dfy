/**
 What a graph computes, without a schedule.  With a worker whose result is a function of the
 dispatched node, every completion order ends in the same states and outputs.
 */
module Denotation {
  import opened Wrappers
  import opened Dag
  import opened Events
  import opened Vault
  import opened Loop
  import opened LoopInvariant
  import opened LoopFacts
  import opened LoopSteps
  import opened LoopLog
  import opened LoopRuns
  import opened LoopTheorems

  /** What becomes of a node, given what becomes of the nodes it waits for. */
  ghost function Denote(work: Worker, n: Node, st: map<Id, NodeState>): NodeState {
    if SourceFailed(n, st) then BLOCKED
    else if GateClosed(n, st) then SKIPPED
    else if Unreleased(n, st, n.dependsOn) == 0 && Open(st, n.after) == 0 then Outcome(work, TaskOf(n, st))
    else PENDING
  }

  function Neighbours(n: Node): set<Id> {
    (set d | d in n.dependsOn) + (set a | a in n.after)
  }

  ghost function Final(nodes: seq<Node>, work: Worker, rank: map<Id, nat>, id: Id): NodeState
    requires WellFormed(nodes) && Ranked(nodes, rank) && id in Ids(nodes)
    decreases rank[id]
  {
    var n := GetNode(nodes, id).value;
    Denote(work, n, map d | d in Neighbours(n) :: (assert Edge(n, d); Final(nodes, work, rank, d)))
  }

  ghost function Finals(nodes: seq<Node>, work: Worker, rank: map<Id, nat>): map<Id, NodeState>
    requires WellFormed(nodes) && Ranked(nodes, rank)
  {
    map id | id in Ids(nodes) :: Final(nodes, work, rank, id)
  }

  // ----- The denotation looks at the neighbours only

  ghost predicate Agree(n: Node, st: map<Id, NodeState>, st': map<Id, NodeState>) {
    forall d | Edge(n, d) :: d in st && d in st' && st[d] == st'[d]
  }

  lemma {:induction false} UnreleasedAgrees(n: Node, st: map<Id, NodeState>, st': map<Id, NodeState>, deps: seq<Id>)
    requires forall d | d in deps :: Released(n, st, d) == Released(n, st', d)
    ensures Unreleased(n, st, deps) == Unreleased(n, st', deps)
  {
    if deps != [] {
      assert deps[0] in deps;
      UnreleasedAgrees(n, st, st', deps[1..]);
    }
  }

  lemma {:induction false} OpenAgrees(st: map<Id, NodeState>, st': map<Id, NodeState>, after: seq<Id>)
    requires forall a | a in after :: Over(st, a) == Over(st', a)
    ensures Open(st, after) == Open(st', after)
  {
    if after != [] {
      assert after[0] in after;
      OpenAgrees(st, st', after[1..]);
    }
  }

  lemma DenoteAgrees(work: Worker, n: Node, st: map<Id, NodeState>, st': map<Id, NodeState>)
    requires WellFormedNode(n) && Agree(n, st, st')
    ensures Denote(work, n, st) == Denote(work, n, st')
  {
    hide TaskOf;
    assert forall d, status | d in n.dependsOn :: Has(st, d, status) == Has(st', d, status) by {
      assert forall d | d in n.dependsOn :: Edge(n, d);
    }
    UnreleasedAgrees(n, st, st', n.dependsOn);
    forall a | a in n.after
      ensures Over(st, a) == Over(st', a)
    {
      assert Edge(n, a);
    }
    OpenAgrees(st, st', n.after);
    forall r | Edge(n, r)
      ensures OutText(st, r) == OutText(st', r)
    {
    }
    TaskReads(n, st, st');
  }

  /** `Finals` satisfies the local equation of every node. */
  lemma FinalsDenote(nodes: seq<Node>, work: Worker, rank: map<Id, nat>, n: Node)
    requires WellFormed(nodes) && Ranked(nodes, rank) && n in nodes
    ensures Finals(nodes, work, rank)[n.id] == Denote(work, n, Finals(nodes, work, rank))
  {
    hide Denote;
    GetOwnNode(nodes, n);
    var st := map d | d in Neighbours(n) :: (assert Edge(n, d); Final(nodes, work, rank, d));
    assert Final(nodes, work, rank, n.id) == Denote(work, n, st);
    DenoteAgrees(work, n, st, Finals(nodes, work, rank));
  }

  // ----- Runs compute it

  /** The mode of a first run with a given worker, reporting to an empty vault. */
  ghost function WorkMode(work: Worker): Mode {
    Mode(true, false, true, {}, Some(work), SinkState(Vault(None, map[], map[], None), false))
  }

  /** A terminal record is the local equation's value at the recorded states. */
  lemma JustifiedDenotes(nodes: seq<Node>, work: Worker, n: Node, st: map<Id, NodeState>)
    requires WellFormed(nodes) && n in nodes && Over(st, n.id)
    requires JustifiedAs(WorkMode(work), n, st, st[n.id])
    ensures st[n.id] == Denote(work, n, st)
  {
    NoneUnreleased(n, st, n.dependsOn);
  }

  ghost predicate TerminalAgree(n: Node, st: map<Id, NodeState>, fin: map<Id, NodeState>) {
    forall d | Edge(n, d) && Over(st, d) :: d in fin && fin[d] == st[d]
  }

  lemma AgreesOn(n: Node, st: map<Id, NodeState>, fin: map<Id, NodeState>, d: Id, status: Status)
    requires TerminalAgree(n, st, fin) && d in n.dependsOn && Has(st, d, status) && IsTerminal(status)
    ensures Has(fin, d, status)
  {
    assert Edge(n, d);
  }

  lemma RanAgreesAll(nodes: seq<Node>, work: Worker, n: Node, st: map<Id, NodeState>, fin: map<Id, NodeState>)
    requires WellFormed(nodes) && n in nodes && TerminalAgree(n, st, fin)
    requires Unreleased(n, st, n.dependsOn) == 0 && Open(st, n.after) == 0
    ensures Agree(n, st, fin) && WellFormedNode(n)
  {
    NoneUnreleased(n, st, n.dependsOn);
    NoneOpen(st, n.after);
  }

  /** The neighbours that decide about a terminal node are terminal, so only they need to be final. */
  lemma DecidedByTerminal(nodes: seq<Node>, work: Worker, n: Node, st: map<Id, NodeState>, fin: map<Id, NodeState>)
    requires WellFormed(nodes) && n in nodes && Over(st, n.id)
    requires JustifiedAs(WorkMode(work), n, st, st[n.id]) && TerminalAgree(n, st, fin)
    ensures Denote(work, n, fin) == st[n.id]
  {
    hide TerminalAgree, TaskOf, WellFormedNode, Unreleased, Open, Closed, UniqueIds;
    if st[n.id].status == Blocked {
      var d :| d in n.dependsOn && !GatedOn(n, d) && Has(st, d, Failed);
      AgreesOn(n, st, fin, d, Failed);
    } else if RanAs(WorkMode(work), n, st, st[n.id]) {
      JustifiedDenotes(nodes, work, n, st);
      RanAgreesAll(nodes, work, n, st, fin);
      DenoteAgrees(work, n, st, fin);
    } else {
      var d :| d in n.dependsOn && GatedOn(n, d) && Has(st, d, Done);
      AgreesOn(n, st, fin, d, Done);
      assert n.dependsOn == [d];
    }
  }

  lemma {:induction false} TerminalRecordIsFinal(nodes: seq<Node>, work: Worker, rank: map<Id, nat>, s: State, n: Node)
    requires WellFormed(nodes) && Ranked(nodes, rank) && n in nodes
    requires Sound(nodes, WorkMode(work), s) && Over(s.nodeState, n.id)
    ensures s.nodeState[n.id] == Finals(nodes, work, rank)[n.id]
    decreases rank[n.id]
  {
    hide WellFormed, Denote, Sound, Final;
    var st, fin := s.nodeState, Finals(nodes, work, rank);
    forall d | Edge(n, d) && Over(st, d)
      ensures d in fin && fin[d] == st[d]
    {
      EdgeNode(nodes, n, d);
      var m :| m in nodes && m.id == d;
      TerminalRecordIsFinal(nodes, work, rank, s, m);
    }
    RecordIsJustified(nodes, WorkMode(work), s, n);
    DecidedByTerminal(nodes, work, n, st, fin);
    FinalsDenote(nodes, work, rank, n);
  }

  lemma RecordIsJustified(nodes: seq<Node>, mode: Mode, s: State, n: Node)
    requires Sound(nodes, mode, s) && n in nodes && Over(s.nodeState, n.id)
    ensures JustifiedAs(mode, n, s.nodeState, s.nodeState[n.id])
  {
    assert NodeFacts(mode, n, s.nodeState, {}, {});
  }

  /** At an unrefused exit the local equation holds of pending nodes, too. */
  lemma PendingDenotes(nodes: seq<Node>, mode: Mode, work: Worker, s: State, n: Node)
    requires Sound(nodes, mode, s) && Exited(s) && !s.refused
    requires n in nodes && Has(s.nodeState, n.id, Pending)
    ensures Denote(work, n, s.nodeState) == PENDING == s.nodeState[n.id]
  {
    hide LogOk, Counts, Sets, JustifiedAs, Unreleased, Open;
    NotReleased(nodes, mode, s, n);
    assert NodeFacts(mode, n, s.nodeState, {}, {});
  }

  lemma {:induction false} ExitIsFinal(nodes: seq<Node>, work: Worker, rank: map<Id, nat>, s: State, n: Node)
    requires WellFormed(nodes) && Ranked(nodes, rank) && n in nodes
    requires Sound(nodes, WorkMode(work), s) && Exited(s) && !s.refused
    ensures n.id in s.nodeState && s.nodeState[n.id] == Finals(nodes, work, rank)[n.id]
    decreases rank[n.id]
  {
    hide WellFormed, Denote, Sound, Final, Exited;
    var st, fin := s.nodeState, Finals(nodes, work, rank);
    KnownStatus(nodes, WorkMode(work), s, n.id);
    if Over(st, n.id) {
      TerminalRecordIsFinal(nodes, work, rank, s, n);
    } else {
      forall d | Edge(n, d)
        ensures d in st && d in fin && st[d] == fin[d]
      {
        EdgeNode(nodes, n, d);
        var m :| m in nodes && m.id == d;
        ExitIsFinal(nodes, work, rank, s, m);
      }
      PendingDenotes(nodes, WorkMode(work), work, s, n);
      WellFormedOf(nodes, n);
      DenoteAgrees(work, n, st, fin);
      FinalsDenote(nodes, work, rank, n);
    }
  }

  lemma WellFormedOf(nodes: seq<Node>, n: Node)
    requires WellFormed(nodes) && n in nodes
    ensures WellFormedNode(n)
  {
  }

  /** A first run with the given worker, in any completion order. */
  ghost predicate Produces(nodes: seq<Node>, work: Worker, s: State) {
    exists s0, acts: seq<Action> ::
      Initial(nodes, s0) && IsRun(nodes, s0, acts) && FaithfulRun(nodes, WorkMode(work), s0, acts) && s == After(nodes, s0, acts)
  }

  lemma ProducesSound(nodes: seq<Node>, work: Worker, s: State)
    requires WellFormed(nodes) && Produces(nodes, work, s)
    ensures Sound(nodes, WorkMode(work), s)
  {
    hide WellFormed, Sound, Initial, IsRun, After, FaithfulRun;
    var s0, acts: seq<Action> :| Initial(nodes, s0) && IsRun(nodes, s0, acts) && FaithfulRun(nodes, WorkMode(work), s0, acts) && s == After(nodes, s0, acts);
    InitialOk(nodes, WorkMode(work), s0);
    RunOk(nodes, WorkMode(work), s0, acts);
  }

  /**
   Schedule independence: on a well-formed acyclic graph every completion order that the budget does not
   refuse exits with exactly the states and outputs of the denotation.
   */
  lemma ScheduleIndependence(nodes: seq<Node>, work: Worker, rank: map<Id, nat>, s: State)
    requires WellFormed(nodes) && Ranked(nodes, rank)
    requires Produces(nodes, work, s) && Exited(s) && !s.refused
    ensures s.nodeState == Finals(nodes, work, rank)
  {
    hide WellFormed, Produces, Exited, Final, Sound;
    ProducesSound(nodes, work, s);
    SameKeys(nodes, WorkMode(work), s);
    forall id | id in Ids(nodes)
      ensures s.nodeState[id] == Finals(nodes, work, rank)[id]
    {
      var n :| n in nodes && n.id == id;
      ExitIsFinal(nodes, work, rank, s, n);
    }
  }

  lemma SameKeys(nodes: seq<Node>, mode: Mode, s: State)
    requires Sound(nodes, mode, s)
    ensures s.nodeState.Keys == Ids(nodes)
  {
    hide LogOk, Counts, Sets;
  }

  /** A run the budget stopped has a part of that result: no terminal record of it is wrong. */
  lemma StoppedRunIsPartial(nodes: seq<Node>, work: Worker, rank: map<Id, nat>, s: State, id: Id)
    requires WellFormed(nodes) && Ranked(nodes, rank)
    requires Produces(nodes, work, s) && id in Ids(nodes) && Over(s.nodeState, id)
    ensures s.nodeState[id] == Finals(nodes, work, rank)[id]
  {
    hide WellFormed, Produces, Final, Sound;
    ProducesSound(nodes, work, s);
    var n :| n in nodes && n.id == id;
    TerminalRecordIsFinal(nodes, work, rank, s, n);
  }
}
