/** Quorum nodes count the verdicts in outputs already recorded; no worker is involved. */
module Quorum {
  import opened Wrappers
  import opened Text
  import opened Dag
  import opened Events
  import opened Template
  import opened Verdict

  function Line(id: Id, v: Verdict): string {
    id + ": " + (if v.passed then "PASS" else "FAIL") + " - " + v.reason
  }

  function JoinLines(lines: seq<string>): string {
    if lines == [] then "" else if |lines| == 1 then lines[0] else lines[0] + "\n" + JoinLines(lines[1..])
  }

  function Lines(of: seq<Id>, outs: Outputs): seq<string> {
    seq(|of|, k requires 0 <= k < |of| => Line(of[k], VerdictOf(Lookup(outs, of[k]))))
  }

  function PassCount(of: seq<Id>, outs: Outputs): nat {
    if of == [] then 0
    else (if VerdictOf(Lookup(outs, of[|of| - 1])).passed then 1 else 0) + PassCount(of[..|of| - 1], outs)
  }

  function Summary(cfg: QuorumConfig, outs: Outputs): string {
    "quorum: " + Decimal(PassCount(cfg.of, outs)) + "/" + Decimal(|cfg.of|) + " passed (min_pass=" + Decimal(cfg.minPass) + ")\n"
      + JoinLines(Lines(cfg.of, outs))
  }

  function ConfigOf(node: Node): QuorumConfig {
    match node.quorum
    case None => QuorumConfig([], 0)
    case Some(cfg) => cfg
  }

  function StateOf(node: Node, outs: Outputs): NodeState {
    var cfg := ConfigOf(node);
    var done := cfg.minPass > 0 && PassCount(cfg.of, outs) >= cfg.minPass;
    NodeState(if done then Done else Failed, None, 1, Some(Summary(cfg, outs)))
  }

  function ResultOf(node: Node, outs: Outputs): (r: TaskResult)
    ensures r.Valid()
  {
    TaskResult(None, 1, StateOf(node, outs), None, [], false)
  }

  method ComputeQuorum(node: Node, outs: Outputs) returns (state: NodeState)
    ensures state == StateOf(node, outs)
  {
    hide VerdictOf, Line, Decimal, JoinLines;
    var cfg := ConfigOf(node);
    var passCount := 0;
    var lines: seq<string> := [];
    for k := 0 to |cfg.of|
      invariant passCount == PassCount(cfg.of[..k], outs)
      invariant |lines| == k && forall j | 0 <= j < k :: lines[j] == Lines(cfg.of, outs)[j]
    {
      var v := ParseCriticVerdict(Lookup(outs, cfg.of[k]));
      assert cfg.of[..k + 1][..k] == cfg.of[..k];
      if v.passed {
        passCount := passCount + 1;
      }
      lines := lines + [Line(cfg.of[k], v)];
    }
    assert cfg.of[..|cfg.of|] == cfg.of;
    assert lines == Lines(cfg.of, outs);
    var done := cfg.minPass > 0 && passCount >= cfg.minPass;
    state := NodeState(if done then Done else Failed, None, 1, Some(
      "quorum: " + Decimal(passCount) + "/" + Decimal(|cfg.of|) + " passed (min_pass=" + Decimal(cfg.minPass) + ")\n" + JoinLines(lines)));
  }

  /** The counted outputs are all that matters. */
  lemma {:induction false} PassCountReads(of: seq<Id>, o1: Outputs, o2: Outputs)
    requires forall id | id in of :: Lookup(o1, id) == Lookup(o2, id)
    ensures PassCount(of, o1) == PassCount(of, o2)
  {
    if of != [] {
      assert of[|of| - 1] in of;
      PassCountReads(of[..|of| - 1], o1, o2);
    }
  }

  lemma ResultReads(node: Node, o1: Outputs, o2: Outputs)
    requires forall id | id in ConfigOf(node).of :: Lookup(o1, id) == Lookup(o2, id)
    ensures ResultOf(node, o1) == ResultOf(node, o2)
  {
    var of := ConfigOf(node).of;
    PassCountReads(of, o1, o2);
    assert Lines(of, o1) == Lines(of, o2) by {
      assert forall k | 0 <= k < |of| :: of[k] in of;
    }
  }

  ghost predicate Passes(of: seq<Id>, outs: Outputs, k: nat)
    requires k < |of|
  {
    VerdictOf(Lookup(outs, of[k])).passed
  }

  ghost function PassSet(of: seq<Id>, outs: Outputs): set<nat> {
    set k | 0 <= k < |of| && Passes(of, outs, k)
  }

  /** Done exactly when enough of the counted outputs pass, and a positive number is asked for. */
  lemma QuorumThreshold(node: Node, outs: Outputs)
    ensures StateOf(node, outs).status == Done <==>
      0 < ConfigOf(node).minPass <= |PassSet(ConfigOf(node).of, outs)|
  {
    PassCountIsCardinality(ConfigOf(node).of, outs);
  }

  lemma {:induction false} PassCountIsCardinality(of: seq<Id>, outs: Outputs)
    ensures PassCount(of, outs) == |PassSet(of, outs)|
  {
    hide VerdictOf;
    if of != [] {
      var last := |of| - 1;
      var front := of[..last];
      PassCountIsCardinality(front, outs);
      PassSetSnoc(of, outs, front);
    }
  }

  lemma PassSetMember(of: seq<Id>, outs: Outputs, front: seq<Id>, k: nat)
    requires of != [] && front == of[..|of| - 1]
    ensures k in PassSet(of, outs) <==> k in PassSet(front, outs) || (k == |of| - 1 && Passes(of, outs, k))
  {
    hide VerdictOf, Lookup;
    assert k < |of| - 1 ==> front[k] == of[k];
  }

  lemma PassSetSnoc(of: seq<Id>, outs: Outputs, front: seq<Id>)
    requires of != [] && front == of[..|of| - 1]
    ensures |PassSet(of, outs)| == |PassSet(front, outs)| + if Passes(of, outs, |of| - 1) then 1 else 0
  {
    var last: nat := |of| - 1;
    assert last !in PassSet(front, outs);
    forall k: nat
      ensures k in PassSet(of, outs) <==> k in PassSet(front, outs) || (k == last && Passes(of, outs, last))
    {
      PassSetMember(of, outs, front, k);
    }
    hide Passes, PassSet;
    if Passes(of, outs, last) {
      assert PassSet(of, outs) == PassSet(front, outs) + {last};
    } else {
      assert PassSet(of, outs) == PassSet(front, outs);
    }
  }
}
