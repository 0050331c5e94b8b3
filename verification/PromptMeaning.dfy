/**
 What a running task has been given, told from the authored node and the recorded outputs alone: placeholders
 are filled with the outputs of the nodes they name, and a quorum's result counts the passing ones.
 */
module PromptMeaning {
  import opened Wrappers
  import opened Text
  import opened Pieces
  import opened Dag
  import opened Events
  import opened Verdict
  import opened Template
  import opened TemplateExpand
  import opened Loop
  import opened LoopInvariant
  import opened LoopSteps
  import opened LoopTheorems
  import Quorum

  // ----- Prompts

  /** Ids that can be written in a placeholder. */
  ghost predicate Writable(ids: seq<Id>) {
    forall i | 0 <= i < |ids| :: Lacks(ids[i], '.') && Lacks(ids[i], '}')
  }

  ghost predicate Braceless(pieces: seq<string>) {
    forall i | 0 <= i < |pieces| :: Lacks(pieces[i], '{')
  }

  function Holes(ids: seq<Id>): seq<string> {
    seq(|ids|, i requires 0 <= i < |ids| => "{{" + ids[i] + ".output}}")
  }

  /** What a reader of the output sees: all of it, or its last 32 * 1024 characters behind a note of how many are gone. */
  function Shown(output: string): string {
    if |output| <= 32768 then output
    else "[\U{2026} " + Decimal(|output| - 32768) + " bytes truncated \U{2026}]\n" + output[|output| - 32768..]
  }

  function TemplateFor(pieces: seq<string>, ids: seq<Id>): Template
    requires |pieces| == |ids| + 1
    decreases ids
  {
    if ids == [] then Tail(pieces[0]) else Hole(pieces[0], ids[0] + ".output", TemplateFor(pieces[1..], ids[1..]))
  }

  lemma OneHole(piece: string, id: Id, rest: string)
    ensures piece + ("{{" + (id + ".output") + "}}") + rest == piece + ("{{" + id + ".output}}") + rest
  {
    assert "{{" + (id + ".output") + "}}" == "{{" + id + ".output}}";
  }

  lemma {:induction false} TemplateIs(pieces: seq<string>, ids: seq<Id>)
    requires |pieces| == |ids| + 1 && Writable(ids) && Braceless(pieces)
    ensures Stable(TemplateFor(pieces, ids)) && Unparse(TemplateFor(pieces, ids)) == Woven(pieces, Holes(ids))
    decreases ids
  {
    hide Find;
    LacksPair(pieces[0], '{');
    assert ['{', '{'] == "{{" && ['}', '}'] == "}}";
    if ids != [] {
      assert Lacks(pieces[0], '{');
      TemplateIs(pieces[1..], ids[1..]);
      LacksPair(ids[0], '}');
      QuotableContent(ids[0]);
      OneHole(pieces[0], ids[0], Unparse(TemplateFor(pieces[1..], ids[1..])));
      assert Holes(ids)[1..] == Holes(ids[1..]);
    }
  }

  /** The outputs as `outs` has them, capped. */
  function Fillings(ids: seq<Id>, outs: Outputs): seq<string> {
    seq(|ids|, i requires 0 <= i < |ids| => Shown(if ids[i] in outs then outs[ids[i]] else ""))
  }

  lemma FilledHole(id: Id, outs: Outputs)
    requires Lacks(id, '.')
    ensures Fill(id + ".output", outs) == Shown(if id in outs then outs[id] else "")
  {
    hide RefOf;
    RefOfOutput(id);
  }

  lemma {:induction false} RenderedPieces(pieces: seq<string>, ids: seq<Id>, outs: Outputs)
    requires |pieces| == |ids| + 1 && Writable(ids)
    ensures Render(TemplateFor(pieces, ids), outs) == Woven(pieces, Fillings(ids, outs))
    decreases ids
  {
    hide Fill, Shown;
    if ids != [] {
      RenderedPieces(pieces[1..], ids[1..], outs);
      FilledHole(ids[0], outs);
      assert Fillings(ids, outs)[1..] == Fillings(ids[1..], outs);
    }
  }

  /** Every placeholder is filled with the capped output of its node, and the text between stays as it is. */
  lemma InterpolatedPieces(pieces: seq<string>, ids: seq<Id>, outs: Outputs)
    requires |pieces| == |ids| + 1 && Writable(ids) && Braceless(pieces)
    ensures Interpolate(Woven(pieces, Holes(ids)), outs) == Woven(pieces, Fillings(ids, outs))
  {
    hide Parse, Render, Woven;
    TemplateIs(pieces, ids);
    ParseUnparse(TemplateFor(pieces, ids));
    RenderedPieces(pieces, ids, outs);
  }

  // ----- Tasks

  /** What the node's record holds as its output. */
  function OutputIn(st: map<Id, NodeState>, id: Id): string {
    if id in st && st[id].output.Some? then st[id].output.value else ""
  }

  function ShownOutputs(st: map<Id, NodeState>, ids: seq<Id>): seq<string> {
    seq(|ids|, i requires 0 <= i < |ids| => Shown(OutputIn(st, ids[i])))
  }

  lemma RunningIs(nodes: seq<Node>, s: State, n: Node)
    requires Sets(nodes, s) && n in nodes && n.id in s.running
    ensures s.running[n.id] == TaskOf(n, s.nodeState)
  {
    hide TaskOf;
    assert Dispatched(n, s.nodeState, s.spawned, s.running);
  }

  lemma ReachableSets(nodes: seq<Node>, s: State)
    requires WellFormed(nodes) && Reachable(nodes, s)
    ensures Sets(nodes, s)
  {
    hide WellFormed, Reachable, Sets;
    ReachableOk(nodes, s);
  }

  /** In every state of a run, the task of a node that is no quorum is the node with its prompt's placeholders filled. */
  lemma RunningPrompt(nodes: seq<Node>, s: State, n: Node, pieces: seq<string>, ids: seq<Id>)
    requires Sets(nodes, s) && n in nodes && n.id in s.running && n.nodeType != Some("quorum")
    requires |pieces| == |ids| + 1 && Writable(ids) && Braceless(pieces) && n.prompt == Woven(pieces, Holes(ids))
    ensures s.running[n.id] == Dispatch(n.(prompt := Woven(pieces, ShownOutputs(s.nodeState, ids))))
  {
    hide Interpolate, Woven, Sets;
    RunningIs(nodes, s, n);
    var outs := OutputsOf(s.nodeState);
    InterpolatedPieces(pieces, ids, outs);
    assert Fillings(ids, outs) == ShownOutputs(s.nodeState, ids);
  }

  /** So it is wherever the ready loop takes a node, in first runs and restarts on any graph. */
  lemma TakenPrompt(nodes: seq<Node>, s: State, n: Node, pieces: seq<string>, ids: seq<Id>)
    requires s.queue.ready != [] && GetNode(nodes, s.queue.ready[0]) == Some(n) && StatusOf(s.nodeState, s.queue.ready[0]) == Pending
    requires n.nodeType != Some("quorum")
    requires |pieces| == |ids| + 1 && Writable(ids) && Braceless(pieces) && n.prompt == Woven(pieces, Holes(ids))
    ensures Pop(nodes, s, None).running == s.running[n.id := Dispatch(n.(prompt := Woven(pieces, ShownOutputs(s.nodeState, ids))))]
  {
    hide Interpolate, Woven, GetNode;
    var outs := OutputsOf(s.nodeState);
    InterpolatedPieces(pieces, ids, outs);
    assert Fillings(ids, outs) == ShownOutputs(s.nodeState, ids);
  }

  /** The same with one placeholder. */
  lemma RunningOnePlaceholder(nodes: seq<Node>, s: State, n: Node, pre: string, id: Id, post: string)
    requires WellFormed(nodes) && Reachable(nodes, s) && n in nodes && n.id in s.running && n.nodeType != Some("quorum")
    requires Lacks(pre, '{') && Lacks(post, '{') && Lacks(id, '.') && Lacks(id, '}') && n.prompt == pre + ("{{" + id + ".output}}") + post
    ensures s.running[n.id] == Dispatch(n.(prompt := pre + Shown(OutputIn(s.nodeState, id)) + post))
  {
    hide Woven, Sets, WellFormed, Reachable;
    ReachableSets(nodes, s);
    WovenOnce(pre, "{{" + id + ".output}}", post);
    WovenOnce(pre, Shown(OutputIn(s.nodeState, id)), post);
    assert Holes([id]) == ["{{" + id + ".output}}"] && ShownOutputs(s.nodeState, [id]) == [Shown(OutputIn(s.nodeState, id))];
    RunningPrompt(nodes, s, n, [pre, post], [id]);
  }

  /** For every prompt, by the template it is written from. */
  lemma RunningTemplate(nodes: seq<Node>, s: State, n: Node, t: Template, outs: Outputs)
    requires WellFormed(nodes) && Reachable(nodes, s) && n in nodes && n.id in s.running && n.nodeType != Some("quorum")
    requires Stable(t) && Unparse(t) == n.prompt
    requires forall id | id in Refs(t) :: Lookup(outs, id) == OutputIn(s.nodeState, id)
    ensures s.running[n.id] == Dispatch(n.(prompt := Render(t, outs)))
  {
    hide Sets, WellFormed, Reachable, Render, Stable;
    ReachableSets(nodes, s);
    RunningIs(nodes, s, n);
    ParseUnparse(t);
    RenderReadsOnlyRefs(t, outs, OutputsOf(s.nodeState));
  }

  /** A prompt is filled from finished nodes only, so what it is filled with is what they end with. */
  lemma FilledFromFinished(nodes: seq<Node>, s: State, n: Node, r: Id, acts: seq<Action>)
    requires WellFormed(nodes) && Reachable(nodes, s) && n in nodes && n.id in s.spawned
    requires r in Refs(Parse(n.prompt)) && IsRun(nodes, s, acts)
    ensures Over(s.nodeState, r) && OutputIn(After(nodes, s, acts).nodeState, r) == OutputIn(s.nodeState, r)
  {
    hide Reachable, IsRun, After, Refs, Parse;
    assert WellFormedNode(n);
    DispatchSafety(nodes, s, n);
    assert Edge(n, r);
    TerminalIsFinal(nodes, s, acts, r);
  }

  /** The recorded output reads PASS, behind blanks and as a word. */
  ghost predicate RecordsPass(st: map<Id, NodeState>, id: Id) {
    exists k: nat :: PassAt(OutputIn(st, id), k)
  }

  ghost predicate PassesAt(st: map<Id, NodeState>, ids: seq<Id>, k: nat) {
    k < |ids| && RecordsPass(st, ids[k])
  }

  /** A quorum gives no task to a worker: it ends Done if and only if enough of the counted outputs pass. */
  lemma RunningQuorum(nodes: seq<Node>, s: State, n: Node)
    requires WellFormed(nodes) && Reachable(nodes, s) && n in nodes && n.id in s.running && n.nodeType == Some("quorum")
    ensures s.running[n.id].Count?
    ensures var r, of := s.running[n.id].result, if n.quorum.None? then [] else n.quorum.value.of;
      && r.events == [] && !r.verifyFailed && r.attempt == r.state.attempts == 1 && r.taskModel == r.state.model == None && (r.state.status == Done || r.state.status == Failed)
      && (r.state.status == Done <==>
           n.quorum.Some? && 0 < n.quorum.value.minPass <= |set k | 0 <= k < |of| && PassesAt(s.nodeState, of, k)|)
      && r.state.output.Some?
      && "quorum: " + Decimal(|set k | 0 <= k < |of| && PassesAt(s.nodeState, of, k)|) + "/" + Decimal(|of|)
           + " passed (min_pass=" + Decimal(if n.quorum.None? then 0 else n.quorum.value.minPass) + ")\n" <= r.state.output.value
  {
    hide Sets, WellFormed, Reachable, Interpolate, PassesAt, VerdictOf, Decimal, Quorum.Lines, Quorum.JoinLines, Quorum.PassCount;
    ReachableSets(nodes, s);
    RunningIs(nodes, s, n);
    var outs := OutputsOf(s.nodeState);
    var filled := n.(prompt := Interpolate(n.prompt, outs));
    var of := if n.quorum.None? then [] else n.quorum.value.of;
    Quorum.QuorumThreshold(filled, outs);
    Quorum.PassCountIsCardinality(of, outs);
    forall k | 0 <= k < |of|
      ensures Quorum.Passes(of, outs, k) <==> PassesAt(s.nodeState, of, k)
    {
      PassIff(s.nodeState, of, k);
    }
    assert Quorum.PassSet(of, outs) == set k | 0 <= k < |of| && PassesAt(s.nodeState, of, k);
  }

  lemma PassIff(st: map<Id, NodeState>, of: seq<Id>, k: nat)
    requires k < |of|
    ensures Quorum.Passes(of, OutputsOf(st), k) <==> PassesAt(st, of, k)
  {
    hide VerdictOf, PassAt;
    PassesOnlyOnLeadingPass(OutputIn(st, of[k]));
  }
}
