/** Validation of an expanded graph, and what a validated graph guarantees the scheduler. */
module Validate {
  import opened Wrappers
  import opened Text
  import opened Dag
  import opened Graph
  import opened Cycle
  import opened Template
  import opened LoopInvariant
  import Events
  import Expand
  import Quorum
  import TopoSort
  import Verdict

  datatype Error =
    | ReservedColon(node: Id)
    | QuorumUnknown(node: Id, of: Id)
    | QuorumCannotFail(node: Id)
    | QuorumCannotPass(node: Id)
    | UnknownDependency
    | CyclicGraph
    | NestedBraces(node: Id, content: string)
    | NoDot(node: Id, content: string)
    | NotOutput(node: Id, content: string)
    | UnknownRef(node: Id, content: string)
    | RefIsNoEdge(node: Id, content: string)

  // ----- What is demanded

  predicate QuorumOk(n: Node, ids: set<Id>) {
    match n.quorum
    case None => true
    case Some(q) => (forall id | id in q.of :: id in ids) && 0 < q.minPass <= |q.of|
  }

  /** What stands in the placeholders of a prompt, in order. */
  function Contents(t: Template): seq<string> {
    match t
    case Tail(_) => []
    case Hole(_, content, rest) => [content] + Contents(rest)
  }

  predicate HoleOk(n: Node, ids: set<Id>, content: string) {
    && '{' !in content && '}' !in content
    && RefOf(content).Some? && RefOf(content).value in ids && Edge(n, RefOf(content).value)
  }

  ghost predicate PromptOk(n: Node, ids: set<Id>) {
    forall c | c in Contents(Parse(n.prompt)) :: HoleOk(n, ids, c)
  }

  ghost predicate NoColons(nodes: seq<Node>) {
    forall n | n in nodes :: ':' !in n.id
  }

  ghost predicate QuorumsOk(nodes: seq<Node>) {
    forall n | n in nodes :: QuorumOk(n, Ids(nodes))
  }

  ghost predicate PromptsOk(nodes: seq<Node>) {
    forall n | n in nodes :: PromptOk(n, Ids(nodes))
  }

  ghost predicate ValidDag(nodes: seq<Node>) {
    NoColons(nodes) && QuorumsOk(nodes) && Closed(nodes) && !Cyclic(AllEdges(nodes)) && PromptsOk(nodes)
  }

  /** The placeholder breaks the rule the error names, and no rule checked before it. */
  ghost predicate HoleError(n: Node, ids: set<Id>, content: string, e: Error) {
    match e
    case NestedBraces(id, c) => id == n.id && c == content && ('{' in c || '}' in c)
    case NoDot(id, c) => id == n.id && c == content && '.' !in c
    case NotOutput(id, c) => id == n.id && c == content && '.' in c && RefOf(c) == None
    case UnknownRef(id, c) => id == n.id && c == content && RefOf(c).Some? && RefOf(c).value !in ids
    case RefIsNoEdge(id, c) => id == n.id && c == content && RefOf(c).Some? && RefOf(c).value in ids && !Edge(n, RefOf(c).value)
    case _ => false
  }

  ghost predicate PromptError(n: Node, ids: set<Id>, e: Error) {
    exists c :: c in Contents(Parse(n.prompt)) && HoleError(n, ids, c, e)
  }

  ghost predicate QuorumError(n: Node, ids: set<Id>, e: Error) {
    n.quorum.Some? &&
      match e
      case QuorumUnknown(id, of) => id == n.id && of in n.quorum.value.of && of !in ids
      case QuorumCannotFail(id) => id == n.id && n.quorum.value.minPass == 0
      case QuorumCannotPass(id) => id == n.id && n.quorum.value.minPass > |n.quorum.value.of|
      case _ => false
  }

  /** The graph has the flaw, and passes every check that comes before. */
  ghost predicate Describes(nodes: seq<Node>, e: Error) {
    match e
    case ReservedColon(id) => ':' in id && id in Ids(nodes)
    case QuorumUnknown(_, _) => NoColons(nodes) && exists n :: n in nodes && QuorumError(n, Ids(nodes), e)
    case QuorumCannotFail(_) => NoColons(nodes) && exists n :: n in nodes && QuorumError(n, Ids(nodes), e)
    case QuorumCannotPass(_) => NoColons(nodes) && exists n :: n in nodes && QuorumError(n, Ids(nodes), e)
    case UnknownDependency => NoColons(nodes) && QuorumsOk(nodes) && !Closed(nodes)
    case CyclicGraph => NoColons(nodes) && QuorumsOk(nodes) && Closed(nodes) && Cyclic(AllEdges(nodes))
    case _ =>
      && NoColons(nodes) && QuorumsOk(nodes) && Closed(nodes) && !Cyclic(AllEdges(nodes))
      && exists n :: n in nodes && PromptError(n, Ids(nodes), e)
  }

  // ----- The checks

  lemma DotIsFound(content: string)
    ensures Find(content, ".").None? <==> '.' !in content
  {
    if '.' in content {
      var j :| 0 <= j < |content| && content[j] == '.';
      assert OccursAt(content, ".", j);
    }
    if Find(content, ".").Some? {
      var d := Find(content, ".").value;
      assert content[d..d + 1][0] == content[d];
    }
  }

  method CheckHole(n: Node, ids: set<Id>, content: string) returns (r: Option<Error>)
    ensures r.None? <==> HoleOk(n, ids, content)
    ensures r.Some? ==> HoleError(n, ids, content, r.value)
  {
    DotIsFound(content);
    if '{' in content || '}' in content {
      return Some(NestedBraces(n.id, content));
    }
    var dot := Find(content, ".");
    if dot.None? {
      return Some(NoDot(n.id, content));
    }
    var ref, suffix := content[..dot.value], content[dot.value + 1..];
    if suffix != "output" {
      return Some(NotOutput(n.id, content));
    }
    if ref !in ids {
      return Some(UnknownRef(n.id, content));
    }
    if ref !in n.dependsOn && ref !in n.after {
      return Some(RefIsNoEdge(n.id, content));
    }
    r := None;
  }

  lemma FirstContent(s: string)
    ensures match FirstHole(s)
      case Whole => Contents(Parse(s)) == []
      case Cut(_, content, after) => Contents(Parse(s)) == [content] + Contents(Parse(after))
  {
    hide FirstHole;
  }

  /** The scanner over the placeholders of one prompt; an unclosed "{{" ends it. */
  method ValidateOutputReferences(n: Node, ids: set<Id>) returns (r: Option<Error>)
    ensures r.None? <==> PromptOk(n, ids)
    ensures r.Some? ==> PromptError(n, ids, r.value)
  {
    hide FirstHole, HoleOk, HoleError, Parse, Contents;
    var i := 0;
    assert n.prompt[0..] == n.prompt;
    var cut := FirstHole(n.prompt[i..]);
    ghost var seen: seq<string> := [];
    while cut.Cut?
      invariant 0 <= i <= |n.prompt| && cut == FirstHole(n.prompt[i..])
      invariant Contents(Parse(n.prompt)) == seen + Contents(Parse(n.prompt[i..]))
      invariant forall c | c in seen :: HoleOk(n, ids, c)
      decreases |n.prompt| - i
    {
      SliceCut(n.prompt, i, i, cut.before, cut.content, cut.after);
      FirstContent(n.prompt[i..]);
      NextContent(seen, cut.content, Contents(Parse(cut.after)));
      r := CheckHole(n, ids, cut.content);
      if r.Some? {
        return;
      }
      seen := seen + [cut.content];
      i := i + |cut.before| + |cut.content| + 4;
      cut := FirstHole(n.prompt[i..]);
    }
    FirstContent(n.prompt[i..]);
    assert Contents(Parse(n.prompt)) == seen;
    r := None;
  }

  lemma NextContent(seen: seq<string>, c: string, rest: seq<string>)
    ensures seen + ([c] + rest) == (seen + [c]) + rest
    ensures c in seen + ([c] + rest)
  {
  }

  method CheckQuorum(n: Node, ids: set<Id>) returns (r: Option<Error>)
    ensures r.None? <==> QuorumOk(n, ids)
    ensures r.Some? ==> QuorumError(n, ids, r.value) && (r.value.QuorumUnknown? || r.value.QuorumCannotFail? || r.value.QuorumCannotPass?)
  {
    if n.quorum.None? {
      return None;
    }
    var q := n.quorum.value;
    for j := 0 to |q.of|
      invariant forall id | id in q.of[..j] :: id in ids
    {
      if q.of[j] !in ids {
        return Some(QuorumUnknown(n.id, q.of[j]));
      }
    }
    assert q.of[..|q.of|] == q.of;
    if q.minPass == 0 {
      return Some(QuorumCannotFail(n.id));
    }
    if q.minPass > |q.of| {
      return Some(QuorumCannotPass(n.id));
    }
    r := None;
  }

  method CheckEdges(edges: seq<Id>, ids: set<Id>) returns (known: bool)
    ensures known <==> forall m | m in edges :: m in ids
  {
    for j := 0 to |edges|
      invariant forall m | m in edges[..j] :: m in ids
    {
      if edges[j] !in ids {
        return false;
      }
    }
    assert edges[..|edges|] == edges;
    known := true;
  }

  method CheckIds(nodes: seq<Node>) returns (r: Option<Error>)
    ensures r.None? <==> NoColons(nodes)
    ensures r.Some? ==> r.value.ReservedColon? && Describes(nodes, r.value)
  {
    for i := 0 to |nodes|
      invariant forall n | n in nodes[..i] :: ':' !in n.id
    {
      if ':' in nodes[i].id {
        assert nodes[i] in nodes;
        return Some(ReservedColon(nodes[i].id));
      }
    }
    assert nodes[..|nodes|] == nodes;
    r := None;
  }

  method CheckQuorums(nodes: seq<Node>) returns (r: Option<Error>)
    requires NoColons(nodes)
    ensures r.None? <==> QuorumsOk(nodes)
    ensures r.Some? ==> Describes(nodes, r.value)
  {
    hide QuorumOk, QuorumError, Ids;
    for i := 0 to |nodes|
      invariant forall n | n in nodes[..i] :: QuorumOk(n, Ids(nodes))
    {
      r := CheckQuorum(nodes[i], Ids(nodes));
      if r.Some? {
        assert nodes[i] in nodes;
        return;
      }
    }
    assert nodes[..|nodes|] == nodes;
    r := None;
  }

  method CheckClosed(nodes: seq<Node>) returns (closed: bool)
    ensures closed <==> Closed(nodes)
  {
    hide Ids;
    for i := 0 to |nodes|
      invariant forall n, m | n in nodes[..i] && Edge(n, m) :: m in Ids(nodes)
    {
      assert nodes[i] in nodes;
      closed := CheckEdges(nodes[i].dependsOn, Ids(nodes));
      if closed {
        closed := CheckEdges(nodes[i].after, Ids(nodes));
      }
      if !closed {
        var m :| Edge(nodes[i], m) && m !in Ids(nodes);
        return;
      }
    }
    assert nodes[..|nodes|] == nodes;
    closed := true;
  }

  method CheckPrompts(nodes: seq<Node>) returns (r: Option<Error>)
    ensures r.None? <==> PromptsOk(nodes)
    ensures r.Some? ==> exists n :: n in nodes && PromptError(n, Ids(nodes), r.value)
  {
    hide PromptOk, PromptError, Ids;
    for i := 0 to |nodes|
      invariant forall n | n in nodes[..i] :: PromptOk(n, Ids(nodes))
    {
      r := ValidateOutputReferences(nodes[i], Ids(nodes));
      if r.Some? {
        assert nodes[i] in nodes;
        return;
      }
    }
    assert nodes[..|nodes|] == nodes;
    r := None;
  }

  /** Accepts exactly the valid graphs; otherwise names a flaw, of the first check that fails. */
  method ValidateDag(nodes: seq<Node>) returns (r: Option<Error>)
    ensures r.None? <==> ValidDag(nodes)
    ensures r.Some? ==> Describes(nodes, r.value)
  {
    hide NoColons, QuorumsOk, Closed, PromptsOk, Cyclic, AllEdges, PromptError, QuorumError, Ids;
    r := CheckIds(nodes);
    if r.Some? {
      return;
    }
    r := CheckQuorums(nodes);
    if r.Some? {
      return;
    }
    var closed := CheckClosed(nodes);
    if !closed {
      return Some(UnknownDependency);
    }
    var cyclic := HasCycle(nodes);
    if cyclic {
      return Some(CyclicGraph);
    }
    r := CheckPrompts(nodes);
    if r.Some? {
      PromptErrorKind(nodes, r.value);
    }
  }

  lemma PromptErrorKind(nodes: seq<Node>, e: Error)
    requires exists n :: n in nodes && PromptError(n, Ids(nodes), e)
    ensures e.NestedBraces? || e.NoDot? || e.NotOutput? || e.UnknownRef? || e.RefIsNoEdge?
  {
  }

  // ----- What validation is good for

  /** What validation leaves unchecked and the run loop needs. */
  ghost predicate Unchecked(nodes: seq<Node>) {
    && UniqueIds(nodes)
    && (forall n, d | n in nodes && d in n.dependsOn && GatedOn(n, d) :: n.dependsOn == [d])
    && (forall n, m | n in nodes && m in nodes && m.id in n.after :: |m.dependsOn| <= 1)
  }

  /** What expansion has seen to. */
  ghost predicate QuorumsWired(nodes: seq<Node>) {
    forall n | n in nodes && n.quorum.Some? :: forall r | r in n.quorum.value.of :: r in n.after
  }

  lemma {:induction false} RefsAreContents(t: Template, r: string)
    requires r in Refs(t)
    ensures exists c :: c in Contents(t) && RefOf(c) == Some(r)
  {
    if RefOf(t.content) == Some(r) {
      assert t.content in Contents(t);
    } else {
      RefsAreContents(t.rest, r);
    }
  }

  lemma SelfEdgeIsCycle(nodes: seq<Node>, n: Node)
    requires UniqueIds(nodes) && n in nodes && Edge(n, n.id)
    ensures Cyclic(AllEdges(nodes))
  {
    OwnEdges(nodes, n);
    var p := [n.id, n.id];
    assert Hop(AllEdges(nodes), p, 0);
    assert Walk(AllEdges(nodes), p);
  }

  lemma ValidNode(nodes: seq<Node>, n: Node)
    requires ValidDag(nodes) && Unchecked(nodes) && QuorumsWired(nodes) && n in nodes
    ensures WellFormedNode(n)
  {
    hide Cyclic, AllEdges, UniqueIds;
    if Edge(n, n.id) {
      SelfEdgeIsCycle(nodes, n);
    }
    forall r | r in Refs(Parse(n.prompt))
      ensures Edge(n, r)
    {
      RefsAreContents(Parse(n.prompt), r);
      var c :| c in Contents(Parse(n.prompt)) && RefOf(c) == Some(r);
      assert PromptOk(n, Ids(nodes)) && HoleOk(n, Ids(nodes), c);
    }
  }

  /** A validated graph that also has the unchecked premises is one the run loop is proved for, and has a rank. */
  lemma ValidatedIsWellFormed(nodes: seq<Node>) returns (rank: map<Id, nat>)
    requires ValidDag(nodes) && Unchecked(nodes) && QuorumsWired(nodes)
    ensures WellFormed(nodes) && Ranked(nodes, rank)
  {
    hide Cyclic, AllEdges, WellFormedNode, PromptsOk, QuorumsOk;
    forall n | n in nodes
      ensures WellFormedNode(n)
    {
      ValidNode(nodes, n);
    }
    rank := AcyclicRank(nodes);
  }

  // ----- What the checks rule out

  /** Ids without colons: no critic goes by the name of a node, and a gate's source is read from it as the loop reads it. */
  lemma ColonsAreReserved(nodes: seq<Node>, n: Node)
    requires ValidDag(nodes) && n in nodes
    ensures n.id + "::verify" !in Ids(nodes)
    ensures forall m | GatedOn(m, n.id) :: Expand.GateTarget(m.gate.value) == n.id
  {
    hide QuorumsOk, Closed, Cyclic, PromptsOk, Expand.GateTarget;
    assert (n.id + "::verify")[|n.id|] == ':';
    Expand.GateNames(n.id, "fail");
    assert n.id + ":" + "fail" == n.id + ":fail";
  }

  /** The outputs that say PASS for every id. */
  function AllPass(ids: seq<Id>): Outputs {
    map id | id in ids :: "PASS"
  }

  lemma PassAndNothing()
    ensures Verdict.VerdictOf("PASS").passed && !Verdict.VerdictOf("").passed
  {
    assert Verdict.TrimEnd("PASS") == "PASS" && Verdict.TrimStart("PASS") == "PASS";
  }

  lemma {:induction false} CountOfAll(of: seq<Id>, ids: seq<Id>)
    requires forall id | id in of :: id in ids
    ensures Quorum.PassCount(of, AllPass(ids)) == |of| && Quorum.PassCount(of, map[]) == 0
  {
    hide Verdict.VerdictOf;
    if of != [] {
      PassAndNothing();
      assert of[|of| - 1] in of;
      CountOfAll(of[..|of| - 1], ids);
    }
  }

  lemma {:induction false} CountAtMost(of: seq<Id>, outs: Outputs)
    ensures Quorum.PassCount(of, outs) <= |of|
  {
    hide Verdict.VerdictOf;
    if of != [] {
      CountAtMost(of[..|of| - 1], outs);
    }
  }

  ghost predicate CanPass(n: Node) {
    exists outs: Outputs :: Quorum.StateOf(n, outs).status == Events.Done
  }

  ghost predicate CanFail(n: Node) {
    exists outs: Outputs :: Quorum.StateOf(n, outs).status == Events.Failed
  }

  /** The bounds put on `min_pass` are those with which a quorum can pass and can fail. */
  lemma QuorumIsOpenIff(n: Node)
    requires n.quorum.Some?
    ensures CanPass(n) && CanFail(n) <==> 0 < n.quorum.value.minPass <= |n.quorum.value.of|
  {
    hide Quorum.PassCount, Quorum.Summary;
    var of := n.quorum.value.of;
    CountOfAll(of, of);
    assert Quorum.StateOf(n, map[]).status == Events.Failed;
    if 0 < n.quorum.value.minPass <= |of| {
      assert Quorum.StateOf(n, AllPass(of)).status == Events.Done;
    }
    if outs: Outputs :| Quorum.StateOf(n, outs).status == Events.Done {
      CountAtMost(of, outs);
    }
  }

  /** In a validated graph no quorum is decided before its outputs are. */
  lemma QuorumsAreOpen(nodes: seq<Node>, n: Node)
    requires ValidDag(nodes) && n in nodes && n.quorum.Some?
    ensures CanPass(n) && CanFail(n)
  {
    hide NoColons, Closed, Cyclic, PromptsOk, CanPass, CanFail;
    QuorumIsOpenIff(n);
  }

  lemma DepCycle(nodes: seq<Node>)
    requires Cyclic(TopoSort.DepEdges(nodes))
    ensures Cyclic(AllEdges(nodes))
  {
    var p :| |p| >= 2 && Walk(TopoSort.DepEdges(nodes), p) && p[0] == p[|p| - 1];
    forall i | 0 <= i < |p| - 1
      ensures Hop(AllEdges(nodes), p, i)
    {
      assert Hop(TopoSort.DepEdges(nodes), p, i);
    }
    assert Walk(AllEdges(nodes), p);
  }

  /** Ids may repeat in a validated graph; it can be sorted topologically if and only if they do not. */
  lemma ValidSorts(nodes: seq<Node>)
    requires ValidDag(nodes)
    ensures TopoSort.Sortable(nodes) <==> UniqueIds(nodes)
  {
    hide UniqueIds, Cyclic;
    if UniqueIds(nodes) {
      assert forall n, d | n in nodes && d in n.dependsOn :: Edge(n, d);
      if Cyclic(TopoSort.DepEdges(nodes)) {
        DepCycle(nodes);
      }
    }
  }

  /** A graph that names one node twice passes. */
  lemma RepeatedIdsPass(n: Node)
    requires ':' !in n.id && n.dependsOn == [] && n.after == [] && n.quorum == None && n.prompt == ""
    ensures ValidDag([n, n]) && !UniqueIds([n, n])
  {
    var nodes := [n, n];
    assert nodes[0].id == nodes[1].id;
    assert FirstHole("") == Whole;
    forall x | x in AllEdges(nodes)
      ensures AllEdges(nodes)[x] == []
    {
      assert GetNode(nodes, x) == Some(n);
    }
    OrderIsAcyclic(AllEdges(nodes), []);
  }
}
