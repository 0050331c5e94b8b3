/**
 The emitted events against the recorded states: every prefix of the event stream projects to a
 vault whose terminal records are already true, and in a first run the whole stream projects to
 exactly the states.
 */
module LoopLog {
  import opened Wrappers
  import opened Dag
  import opened Events
  import opened Vault
  import opened LoopInvariant
  import opened LoopFacts

  predicate Recorded(v: Vault, id: Id, status: Status) {
    id in v.records && v.records[id].status == status
  }

  /** The record of `n` is not ahead of the scheduler, and not ahead of its dependencies' records. */
  ghost predicate RecordSound(n: Node, artifacts: bool, v: Vault, st: map<Id, NodeState>) {
    && (Recorded(v, n.id, Done) ==>
          && Has(st, n.id, Done)
          && (artifacts ==> (n.id in v.artifacts && v.artifacts[n.id] == OrEmpty(st[n.id].output))))
    && (Recorded(v, n.id, Failed) ==> Has(st, n.id, Failed))
    && (Recorded(v, n.id, Blocked) ==> Has(st, n.id, Blocked))
    && (PlainNode(n) && (Recorded(v, n.id, Done) || Recorded(v, n.id, Failed)) ==>
          forall d | d in n.dependsOn :: Recorded(v, d, Done))
  }

  ghost predicate VaultSound(nodes: seq<Node>, artifacts: bool, v: Vault, st: map<Id, NodeState>) {
    forall n | n in nodes :: RecordSound(n, artifacts, v, st)
  }

  ghost predicate PrefixesSound(nodes: seq<Node>, artifacts: bool, base: SinkState, log: seq<Event>, st: map<Id, NodeState>) {
    forall k | 0 <= k <= |log| :: VaultSound(nodes, artifacts, Fold(base, log[..k]).vault, st)
  }

  predicate VerifyFailedLogged(log: seq<Event>, id: Id) {
    exists e | e in log :: e.NodeVerifyFailed? && e.id == id
  }

  /** The record the whole stream leaves for a node. */
  ghost predicate RecordExact(id: Id, v: Vault, log: seq<Event>, st: map<Id, NodeState>) {
    && (Has(st, id, Pending) ==> id !in v.records)
    && (Has(st, id, Blocked) ==> Recorded(v, id, Blocked))
    && (Has(st, id, Failed) ==> Recorded(v, id, if VerifyFailedLogged(log, id) then Running else Failed))
  }

  ghost predicate LogOk(nodes: seq<Node>, mode: Mode, log: seq<Event>, st: map<Id, NodeState>) {
    && PrefixesSound(nodes, mode.artifacts, mode.base, log, st)
    && (forall n | n in nodes :: Has(st, n.id, Done) ==> Recorded(Fold(mode.base, log).vault, n.id, Done))
    && (mode.firstRun ==> forall n | n in nodes :: RecordExact(n.id, Fold(mode.base, log).vault, log, st))
    && (forall e | e in log && e.NodeVerifyFailed? :: Has(st, e.id, Failed))
  }

  function RecordId(e: Event): Option<Id> {
    match e
    case NodeBlocked(id) => Some(id)
    case NodeDispatched(id, _, _) => Some(id)
    case NodeDone(id, _, _) => Some(id)
    case NodeFailed(id, _) => Some(id)
    case _ => None
  }

  /** Events that leave the records of the graph's nodes alone, a dispatch of `x` apart. */
  predicate Neutral(ids: set<Id>, x: Id, e: Event) {
    && (RecordId(e).Some? && RecordId(e).value in ids ==> e.NodeDispatched? && e.id == x)
    && !e.NodeVerifyFailed?
  }

  /** The event for a terminal transition. */
  predicate Announces(e: Event, x: Id, ns: NodeState) {
    match ns.status
    case Done => e.NodeDone? && e.id == x && e.output == OrEmpty(ns.output)
    case Failed => (e.NodeFailed? || e.NodeVerifyFailed?) && e.id == x
    case Blocked => e == NodeBlocked(x)
    case _ => false
  }

  lemma NeutralSound(nodes: seq<Node>, artifacts: bool, k: SinkState, st: map<Id, NodeState>, x: Id, e: Event)
    requires VaultSound(nodes, artifacts, k.vault, st) && Closed(nodes)
    requires Has(st, x, Pending) && x in Ids(nodes) && Neutral(Ids(nodes), x, e)
    ensures VaultSound(nodes, artifacts, Project(k, e).vault, st)
  {
    var v' := Project(k, e).vault;
    forall n | n in nodes
      ensures RecordSound(n, artifacts, v', st)
    {
      assert RecordSound(n, artifacts, k.vault, st);
      RecordsAt(nodes, k, e, x, n);
    }
  }

  /** What a neutral event does to the record of a node and of its dependencies. */
  lemma RecordsAt(nodes: seq<Node>, k: SinkState, e: Event, x: Id, n: Node)
    requires n in nodes && Closed(nodes) && x in Ids(nodes) && Neutral(Ids(nodes), x, e)
    ensures forall id, status | id in Ids(nodes) && (id != x || status != Running) && Recorded(Project(k, e).vault, id, status) :: Recorded(k.vault, id, status)
    ensures forall id, status | id in Ids(nodes) && id != x && Recorded(k.vault, id, status) :: Recorded(Project(k, e).vault, id, status)
    ensures Project(k, e).vault.artifacts.Keys >= k.vault.artifacts.Keys
    ensures n.id in k.vault.artifacts ==> Project(k, e).vault.artifacts[n.id] == k.vault.artifacts[n.id]
  {
  }

  lemma FinalSound(nodes: seq<Node>, artifacts: bool, k: SinkState, st: map<Id, NodeState>, x: Node, ns: NodeState, e: Event)
    requires VaultSound(nodes, artifacts, k.vault, st) && UniqueIds(nodes) && Closed(nodes) && x in nodes && !Edge(x, x.id)
    requires Has(st, x.id, Pending) && Announces(e, x.id, ns)
    requires PlainNode(x) && ns.status != Blocked ==> forall d | d in x.dependsOn :: Recorded(k.vault, d, Done)
    ensures VaultSound(nodes, artifacts, Project(k, e).vault, st[x.id := ns])
  {
    forall n | n in nodes
      ensures RecordSound(n, artifacts, Project(k, e).vault, st[x.id := ns])
    {
      assert RecordSound(n, artifacts, k.vault, st);
      assert RecordSound(x, artifacts, k.vault, st);
      if n.id == x.id {
        SameNode(nodes, n, x);
      }
    }
  }

  lemma BlockAgainSound(nodes: seq<Node>, artifacts: bool, k: SinkState, st: map<Id, NodeState>, x: Node)
    requires VaultSound(nodes, artifacts, k.vault, st) && UniqueIds(nodes) && x in nodes
    requires Has(st, x.id, Blocked)
    ensures VaultSound(nodes, artifacts, Project(k, NodeBlocked(x.id)).vault, st)
  {
    forall n | n in nodes
      ensures RecordSound(n, artifacts, Project(k, NodeBlocked(x.id)).vault, st)
    {
      assert RecordSound(n, artifacts, k.vault, st);
      assert RecordSound(x, artifacts, k.vault, st);
      if n.id == x.id {
        SameNode(nodes, n, x);
      }
    }
  }

  /** A true vault stays true when a pending node becomes terminal. */
  lemma SoundStays(nodes: seq<Node>, artifacts: bool, v: Vault, st: map<Id, NodeState>, x: Id, ns: NodeState)
    requires VaultSound(nodes, artifacts, v, st) && Has(st, x, Pending)
    ensures VaultSound(nodes, artifacts, v, st[x := ns])
  {
    forall n | n in nodes
      ensures RecordSound(n, artifacts, v, st[x := ns])
    {
      assert RecordSound(n, artifacts, v, st);
    }
  }

  /** One event more, true of the states `st'` that extend `st`. */
  lemma PrefixesAppend(nodes: seq<Node>, artifacts: bool, base: SinkState, log: seq<Event>, e: Event, st: map<Id, NodeState>)
    requires PrefixesSound(nodes, artifacts, base, log, st)
    requires VaultSound(nodes, artifacts, Project(Fold(base, log), e).vault, st)
    ensures PrefixesSound(nodes, artifacts, base, log + [e], st)
  {
    forall k | 0 <= k <= |log + [e]|
      ensures VaultSound(nodes, artifacts, Fold(base, (log + [e])[..k]).vault, st)
    {
      if k <= |log| {
        assert (log + [e])[..k] == log[..k];
      } else {
        assert (log + [e])[..k] == log + [e];
        assert (log + [e])[..|log|] == log;
      }
    }
  }

  lemma FoldOne(base: SinkState, log: seq<Event>, e: Event)
    ensures Fold(base, log + [e]) == Project(Fold(base, log), e)
  {
    assert (log + [e])[..|log|] == log;
  }

  lemma PrefixesStay(nodes: seq<Node>, artifacts: bool, base: SinkState, log: seq<Event>, st: map<Id, NodeState>, x: Id, ns: NodeState)
    requires PrefixesSound(nodes, artifacts, base, log, st) && Has(st, x, Pending)
    ensures PrefixesSound(nodes, artifacts, base, log, st[x := ns])
  {
    forall k | 0 <= k <= |log|
      ensures VaultSound(nodes, artifacts, Fold(base, log[..k]).vault, st[x := ns])
    {
      SoundStays(nodes, artifacts, Fold(base, log[..k]).vault, st, x, ns);
    }
  }

  /** What a stream of neutral events keeps: everything but the record of `x`. */
  ghost predicate LogNearly(nodes: seq<Node>, mode: Mode, log: seq<Event>, st: map<Id, NodeState>, x: Id) {
    && PrefixesSound(nodes, mode.artifacts, mode.base, log, st)
    && (forall n | n in nodes :: Has(st, n.id, Done) ==> Recorded(Fold(mode.base, log).vault, n.id, Done))
    && (mode.firstRun ==> forall n | n in nodes && n.id != x :: RecordExact(n.id, Fold(mode.base, log).vault, log, st))
    && (forall e | e in log && e.NodeVerifyFailed? :: Has(st, e.id, Failed))
  }

  lemma NeutralLog(nodes: seq<Node>, mode: Mode, log: seq<Event>, st: map<Id, NodeState>, x: Id, e: Event)
    requires LogNearly(nodes, mode, log, st, x) && Closed(nodes)
    requires Has(st, x, Pending) && x in Ids(nodes) && Neutral(Ids(nodes), x, e)
    ensures LogNearly(nodes, mode, log + [e], st, x)
  {
    var k := Fold(mode.base, log);
    FoldOne(mode.base, log, e);
    assert log[..|log|] == log;
    NeutralSound(nodes, mode.artifacts, k, st, x, e);
    PrefixesAppend(nodes, mode.artifacts, mode.base, log, e, st);
    forall n | n in nodes
      ensures Has(st, n.id, Done) ==> Recorded(Project(k, e).vault, n.id, Done)
      ensures mode.firstRun && n.id != x ==> RecordExact(n.id, Project(k, e).vault, log + [e], st)
    {
      RecordsAt(nodes, k, e, x, n);
      if mode.firstRun && n.id != x {
        ExactNeutral(nodes, k, e, x, n, log, st);
      }
    }
  }

  lemma ExactNeutral(nodes: seq<Node>, k: SinkState, e: Event, x: Id, n: Node, log: seq<Event>, st: map<Id, NodeState>)
    requires n in nodes && n.id != x && RecordExact(n.id, k.vault, log, st)
    requires Neutral(Ids(nodes), x, e)
    ensures RecordExact(n.id, Project(k, e).vault, log + [e], st)
  {
    assert VerifyFailedLogged(log + [e], n.id) == VerifyFailedLogged(log, n.id);
  }

  lemma FinalLog(nodes: seq<Node>, mode: Mode, log: seq<Event>, st: map<Id, NodeState>, x: Node, ns: NodeState, e: Event)
    requires LogNearly(nodes, mode, log, st, x.id) && UniqueIds(nodes) && Closed(nodes) && x in nodes && !Edge(x, x.id)
    requires Has(st, x.id, Pending) && Announces(e, x.id, ns)
    requires mode.firstRun && e.NodeVerifyFailed? ==> Recorded(Fold(mode.base, log).vault, x.id, Running)
    requires PlainNode(x) && ns.status != Blocked ==> forall d | d in x.dependsOn :: Has(st, d, Done)
    ensures LogOk(nodes, mode, log + [e], st[x.id := ns])
  {
    hide RecordExact, RecordSound, Recorded, Announces, Project, PlainNode;
    var k := Fold(mode.base, log);
    var st' := st[x.id := ns];
    FoldOne(mode.base, log, e);
    assert log[..|log|] == log;
    DepsRecorded(nodes, k.vault, st, x);
    FinalSound(nodes, mode.artifacts, k, st, x, ns, e);
    PrefixesStay(nodes, mode.artifacts, mode.base, log, st, x.id, ns);
    PrefixesAppend(nodes, mode.artifacts, mode.base, log, e, st');
    forall n | n in nodes
      ensures Has(st', n.id, Done) ==> Recorded(Project(k, e).vault, n.id, Done)
    {
      FinalDone(k, e, x, ns, n.id, st);
    }
    if mode.firstRun {
      forall n | n in nodes
        ensures RecordExact(n.id, Project(k, e).vault, log + [e], st')
      {
        FinalExact(k, e, x, ns, n.id, log, st);
      }
    }
    FailedLogged(log, st, x, ns, e);
  }

  lemma FinalDone(k: SinkState, e: Event, x: Node, ns: NodeState, id: Id, st: map<Id, NodeState>)
    requires Announces(e, x.id, ns)
    requires Has(st, id, Done) ==> Recorded(k.vault, id, Done)
    ensures Has(st[x.id := ns], id, Done) ==> Recorded(Project(k, e).vault, id, Done)
  {
  }

  lemma FailedLogged(log: seq<Event>, st: map<Id, NodeState>, x: Node, ns: NodeState, e: Event)
    requires Has(st, x.id, Pending) && Announces(e, x.id, ns)
    requires forall v | v in log && v.NodeVerifyFailed? :: Has(st, v.id, Failed)
    ensures forall v | v in log + [e] && v.NodeVerifyFailed? :: Has(st[x.id := ns], v.id, Failed)
  {
  }

  lemma DepsRecorded(nodes: seq<Node>, v: Vault, st: map<Id, NodeState>, x: Node)
    requires x in nodes && Closed(nodes)
    requires forall n | n in nodes :: Has(st, n.id, Done) ==> Recorded(v, n.id, Done)
    ensures forall d | d in x.dependsOn && Has(st, d, Done) :: Recorded(v, d, Done)
  {
    forall d | d in x.dependsOn && Has(st, d, Done)
      ensures Recorded(v, d, Done)
    {
      assert Edge(x, d);
      assert d in Ids(nodes);
      var m :| m in nodes && m.id == d;
    }
  }

  lemma FinalExact(k: SinkState, e: Event, x: Node, ns: NodeState, id: Id, log: seq<Event>, st: map<Id, NodeState>)
    requires Has(st, x.id, Pending) && Announces(e, x.id, ns)
    requires forall v | v in log && v.NodeVerifyFailed? :: Has(st, v.id, Failed)
    requires id != x.id ==> RecordExact(id, k.vault, log, st)
    requires id == x.id && e.NodeVerifyFailed? ==> Recorded(k.vault, id, Running)
    ensures RecordExact(id, Project(k, e).vault, log + [e], st[x.id := ns])
  {
    if id != x.id {
      assert VerifyFailedLogged(log + [e], id) == VerifyFailedLogged(log, id);
    } else {
      assert !VerifyFailedLogged(log, id);
      assert e in log + [e];
      assert VerifyFailedLogged(log + [e], id) == e.NodeVerifyFailed?;
    }
  }

  lemma BlockAgainLog(nodes: seq<Node>, mode: Mode, log: seq<Event>, st: map<Id, NodeState>, x: Node)
    requires LogOk(nodes, mode, log, st) && UniqueIds(nodes) && x in nodes && Has(st, x.id, Blocked)
    ensures LogOk(nodes, mode, log + [NodeBlocked(x.id)], st)
  {
    var k := Fold(mode.base, log);
    var e := NodeBlocked(x.id);
    FoldOne(mode.base, log, e);
    assert log[..|log|] == log;
    BlockAgainSound(nodes, mode.artifacts, k, st, x);
    PrefixesAppend(nodes, mode.artifacts, mode.base, log, e, st);
    forall n | n in nodes
      ensures Has(st, n.id, Done) ==> Recorded(Project(k, e).vault, n.id, Done)
      ensures mode.firstRun ==> RecordExact(n.id, Project(k, e).vault, log + [e], st)
    {
      assert mode.firstRun ==> RecordExact(n.id, k.vault, log, st);
      assert VerifyFailedLogged(log + [e], n.id) == VerifyFailedLogged(log, n.id);
    }
  }
}
