/** The records a restart begins with, told from the events stored by the runs before. */
module RestartRecords {
  import opened Wrappers
  import opened Dag
  import opened Events
  import opened Vault
  import opened Loop
  import opened Resume
  import opened Seed
  import opened ResumeSound
  import opened StoredLog

  /** A record taken over: its model is forgotten, its text is kept. */
  function Restored(status: Status, text: Option<string>): NodeState {
    NodeState(status, None, if status == Blocked then 0 else 1, text)
  }

  lemma {:induction false} SeededRecord(nodes: seq<Node>, outputs: map<Id, string>, status: Status, s: State, ids: seq<Id>, id: Id)
    requires id in Ids(nodes) && id in s.nodeState
    ensures var s' := SeedEach(nodes, outputs, status, s, ids);
      && id in s'.nodeState && s'.nodeState[id] == (if id in ids then Restored(status, if id in outputs then Some(outputs[id]) else None) else s.nodeState[id])
      && (id in s'.terminal <==> id in s.terminal || id in ids)
  {
    hide SeedQueue, Ids, SeedEvent;
    if ids != [] {
      var front, last := ids[..|ids| - 1], ids[|ids| - 1];
      assert ids == front + [last];
      SeededRecord(nodes, outputs, status, s, front, id);
    }
  }

  lemma {:induction false} CutRecord(s: State, list: seq<Node>, id: Id)
    requires id in s.nodeState
    ensures var s' := Cascade(s, list);
      && id in s'.nodeState
      && (id in s.terminal ==> id in s'.terminal && s'.nodeState[id] == s.nodeState[id])
      && (s'.nodeState[id] == s.nodeState[id] || s'.nodeState[id] == NodeState(Blocked, None, 0, None))
  {
    hide HasFailedDep;
    if list != [] {
      CutRecord(s, list[..|list| - 1], id);
    }
  }

  lemma BlankRecord(nodes: seq<Node>, id: Id)
    requires id in Ids(nodes)
    ensures id in Blank(nodes).nodeState && Blank(nodes).nodeState[id] == NodeState(Pending, None, 0, None) && id !in Blank(nodes).terminal
  {
    hide Ids, EdgeCount, AfterCount;
  }

  lemma SetsRecord(nodes: seq<Node>, cp: Checkpoint, done: seq<Id>, failed: seq<Id>, blocked: seq<Id>, id: Id)
    requires id in Ids(nodes)
    ensures var s, text := SeedSetsOf(nodes, cp, done, failed, blocked), if id in cp.outputs then Some(cp.outputs[id]) else None;
      && id in s.nodeState && (id in s.terminal <==> id in done || id in failed || id in blocked)
      && s.nodeState[id] == (
           if id in blocked then Restored(Blocked, text) else if id in failed then Restored(Failed, text) else if id in done then Restored(Done, text)
           else NodeState(Pending, None, 0, None))
  {
    hide SeedEach, Blank, Ids;
    BlankRecord(nodes, id);
    SeededRecord(nodes, cp.outputs, Done, Blank(nodes), done, id);
    var s1 := SeedEach(nodes, cp.outputs, Done, Blank(nodes), done);
    SeededRecord(nodes, cp.outputs, Failed, s1, failed, id);
    SeededRecord(nodes, cp.outputs, Blocked, SeedEach(nodes, cp.outputs, Failed, s1, failed), blocked, id);
  }

  /**
   After any number of runs, each stored up to some event: a restart has every node whose last event ended it as that
   event says, with the last text stored for it, which is what later prompts are filled with; and of the others it
   knows no text.
   */
  lemma RestoredIs(nodes: seq<Node>, logs: seq<seq<Event>>, s: State, id: Id)
    requires ResumesAs(nodes, VaultOf(logs), s) && id in Ids(nodes)
    ensures var status, text := LastStatus(AllEvents(logs), id), LastText(AllEvents(logs), id);
      && id in s.nodeState
      && (status.Some? && IsTerminal(status.value) ==> s.nodeState[id] == Restored(status.value, text))
      && (status.None? || !IsTerminal(status.value) ==> s.nodeState[id].status in {Pending, Blocked} && s.nodeState[id].output == None)
  {
    hide VaultOf, AllEvents, LastRecord, LastText, SeedSetsOf, Cascade, Ids, ReadyIds;
    var v := VaultOf(logs);
    var done, failed, blocked, order: seq<Id> :|
      var seeded := Cascade(SeedSetsOf(nodes, CheckpointOf(v, false), done, failed, blocked), nodes);
      && Orders(CheckpointOf(v, false), done, failed, blocked)
      && Enumerates(order, ReadyIds(seeded.queue, seeded.terminal))
      && s == Start(seeded, order);
    SetsRecord(nodes, CheckpointOf(v, false), done, failed, blocked, id);
    CutRecord(SeedSetsOf(nodes, CheckpointOf(v, false), done, failed, blocked), nodes, id);
    ReadBack(logs);
    assert RecordAt(v, id) == LastRecord(AllEvents(logs), id) && TextAt(v, id) == LastText(AllEvents(logs), id);
  }
}
