/** Expansion of `for_each` fan-outs and quorum edges, as a transformation of the graph. */
module Expand {
  import opened Wrappers
  import opened Text
  import opened Dag
  import opened FanOut
  import TemplateExpand

  type Fans = map<Id, seq<Id>>

  datatype ExpandError = EmptyForEach(node: Id) | GateOnFanOut(node: Id, parent: Id)

  // ----- One child

  function Substitute(s: string, item: string): string {
    Replace(s, "{{item}}", item)
  }

  function SubstituteModels(models: seq<ModelRef>, item: string): seq<ModelRef> {
    seq(|models|, i requires 0 <= i < |models| => models[i].(name := Substitute(models[i].name, item)))
  }

  function SubstituteVerify(v: Verify, item: string): Verify {
    match v
    case Shell(s) => Shell(Substitute(s, item))
    case Critic(prompt, models) => Critic(Substitute(prompt, item), SubstituteModels(models, item))
    case All(arms) => All(seq(|arms|, i requires 0 <= i < |arms| => SubstituteVerify(arms[i], item)))
  }

  function Child(n: Node, id: Id, item: string): Node {
    n.(
      forEach := None,
      id := id,
      prompt := Substitute(n.prompt, item),
      models := SubstituteModels(n.models, item),
      gate := match n.gate case None => None case Some(g) => Some(Substitute(g, item)),
      verify := match n.verify case None => None case Some(v) => Some(SubstituteVerify(v, item)))
  }

  function FanIds(n: Node): seq<Id>
    requires n.forEach.Some?
  {
    ChildIds(n.id, n.forEach.value)
  }

  /** What a node expands into, before references are rewritten. */
  function Fan(n: Node): seq<Node> {
    match n.forEach
    case None => [n]
    case Some(items) => seq(|items|, i requires 0 <= i < |items| => Child(n, FanIds(n)[i], items[i]))
  }

  function FanAll(nodes: seq<Node>): seq<Node> {
    if nodes == [] then [] else FanAll(nodes[..|nodes| - 1]) + Fan(nodes[|nodes| - 1])
  }

  /** The children of each removed parent; of parents with one id the last counts. */
  function FansOf(nodes: seq<Node>): Fans {
    if nodes == [] then map[]
    else
      var last := nodes[|nodes| - 1];
      var fans := FansOf(nodes[..|nodes| - 1]);
      if last.forEach.Some? then fans[last.id := FanIds(last)] else fans
  }

  // ----- References

  function RefList(list: seq<Id>, fans: Fans): seq<Id> {
    if list == [] then []
    else
      var last := list[|list| - 1];
      RefList(list[..|list| - 1], fans) + if last in fans then fans[last] else [last]
  }

  function AddMissing(list: seq<Id>, ids: seq<Id>): seq<Id>
    decreases ids
  {
    if ids == [] then list else AddMissing(if ids[0] in list then list else list + [ids[0]], ids[1..])
  }

  function Relinked(n: Node, fans: Fans): Node {
    n.(
      dependsOn := RefList(n.dependsOn, fans),
      after := RefList(n.after, fans),
      quorum := match n.quorum case None => None case Some(q) => Some(q.(of := RefList(q.of, fans))),
      prompt := TemplateExpand.ExpandRefs(n.prompt, fans))
  }

  /** A quorum waits for what it counts, in any state: `after`, not `depends_on`. */
  function Wired(n: Node): Node {
    match n.quorum
    case None => n
    case Some(q) => n.(after := AddMissing(n.after, q.of))
  }

  function Rewired(n: Node, fans: Fans): Node {
    Wired(Relinked(n, fans))
  }

  /** The node a gate refers to. */
  function GateTarget(gate: string): Id {
    match Find(gate, ":")
    case None => gate
    case Some(k) => gate[..k]
  }

  /** An id without a colon is read back from the gates that begin with it. */
  lemma GateNames(d: Id, rest: string)
    requires ':' !in d
    ensures GateTarget(d + ":" + rest) == d && GateTarget(d) == d
  {
    var gate := d + ":" + rest;
    assert gate[|d|..|d| + 1] == ":" && gate[..|d|] == d;
    forall j: nat | j < |d|
      ensures !OccursAt(gate, ":", j) && !OccursAt(d, ":", j)
    {
      assert gate[j..j + 1] == [d[j]] == d[j..j + 1];
    }
    FindIs(gate, ":", |d|);
  }

  predicate BadGate(n: Node, fans: Fans) {
    n.gate.Some? && GateTarget(n.gate.value) in fans
  }

  predicate EmptyFan(n: Node) {
    n.forEach == Some([])
  }

  // ----- The transformation

  function AllRewired(nodes: seq<Node>, fans: Fans): seq<Node> {
    seq(|nodes|, i requires 0 <= i < |nodes| => Rewired(nodes[i], fans))
  }

  ghost predicate Expandable(nodes: seq<Node>) {
    && (forall n | n in nodes :: !EmptyFan(n))
    && (forall m | m in FanAll(nodes) :: !BadGate(m, FansOf(nodes)))
  }

  ghost function Expanded(nodes: seq<Node>): seq<Node> {
    AllRewired(FanAll(nodes), FansOf(nodes))
  }

  ghost predicate ExplainsRefusal(nodes: seq<Node>, e: ExpandError) {
    match e
    case EmptyForEach(id) => exists n :: n in nodes && n.id == id && EmptyFan(n)
    case GateOnFanOut(id, parent) =>
      && (forall n | n in nodes :: !EmptyFan(n))
      && parent in FansOf(nodes)
      && exists m :: m in FanAll(nodes) && m.id == id && m.gate.Some? && GateTarget(m.gate.value) == parent
  }

  method ExpandRefList(list: seq<Id>, fans: Fans) returns (out: seq<Id>)
    ensures out == RefList(list, fans)
  {
    out := [];
    for i := 0 to |list|
      invariant out == RefList(list[..i], fans)
    {
      assert list[..i + 1][..i] == list[..i];
      out := out + if list[i] in fans then fans[list[i]] else [list[i]];
    }
    assert list[..|list|] == list;
  }

  /** The children of one `for_each` node, in item order. */
  method ExpandNode(n: Node, items: seq<string>) returns (children: seq<Node>, ids: seq<Id>)
    requires n.forEach == Some(items)
    ensures ids == FanIds(n) && children == Fan(n)
  {
    hide Slugify, Child, ChildId, Candidate, ChildIds;
    children, ids := [], [];
    NoChildIds(n.id);
    for idx := 0 to |items|
      invariant ids == ChildIds(n.id, items[..idx])
      invariant |children| == idx && forall i | 0 <= i < idx :: children[i] == Child(n, FanIds(n)[i], items[i])
    {
      ChildAt(n.id, items, idx);
      ChildIdsSnoc(n.id, items, idx);
      var id := ChildId(n.id, items[idx], idx, ids);
      ids := ids + [id];
      children := children + [Child(n, id, items[idx])];
    }
    assert items[..|items|] == items;
    assert children == Fan(n);
  }

  /** The ids a quorum counts, added to what it is ordered after. */
  method WireQuorum(n: Node) returns (wired: Node)
    ensures wired == Wired(n)
  {
    wired := n;
    if n.quorum.Some? {
      var of, after := n.quorum.value.of, n.after;
      for j := 0 to |of|
        invariant AddMissing(after, of[j..]) == AddMissing(n.after, of)
      {
        assert of[j..][0] == of[j] && of[j..][1..] == of[j + 1..];
        if of[j] !in after {
          after := after + [of[j]];
        }
      }
      wired := n.(after := after);
    }
  }

  method Relink(n: Node, fans: Fans) returns (r: Result<Node, ExpandError>)
    ensures r.Ok? <==> !BadGate(n, fans)
    ensures r.Ok? ==> r.value == Relinked(n, fans)
    ensures r.Err? ==> r.error == GateOnFanOut(n.id, GateTarget(n.gate.value))
  {
    hide TemplateExpand.ExpandRefs, RefList;
    var dependsOn := ExpandRefList(n.dependsOn, fans);
    var after := ExpandRefList(n.after, fans);
    var quorum := n.quorum;
    if quorum.Some? {
      var of := ExpandRefList(quorum.value.of, fans);
      quorum := Some(quorum.value.(of := of));
    }
    var prompt := TemplateExpand.ExpandOutputRefs(n.prompt, fans);
    if n.gate.Some? && GateTarget(n.gate.value) in fans {
      return Err(GateOnFanOut(n.id, GateTarget(n.gate.value)));
    }
    r := Ok(n.(dependsOn := dependsOn, after := after, quorum := quorum, prompt := prompt));
  }

  lemma FanSnoc(nodes: seq<Node>, i: nat)
    requires i < |nodes|
    ensures FanAll(nodes[..i + 1]) == FanAll(nodes[..i]) + Fan(nodes[i])
    ensures nodes[i].forEach.None? ==> FansOf(nodes[..i + 1]) == FansOf(nodes[..i]) && Fan(nodes[i]) == [nodes[i]]
    ensures nodes[i].forEach.Some? ==> FansOf(nodes[..i + 1]) == FansOf(nodes[..i])[nodes[i].id := FanIds(nodes[i])]
  {
    hide FanIds, Child;
    assert nodes[..i + 1][..i] == nodes[..i];
  }

  /** Every fan-out replaced by its children. */
  method FanOutAll(nodes: seq<Node>) returns (r: Result<(seq<Node>, Fans), ExpandError>)
    ensures r.Ok? <==> forall n | n in nodes :: !EmptyFan(n)
    ensures r.Ok? ==> r.value == (FanAll(nodes), FansOf(nodes))
    ensures r.Err? ==> ExplainsRefusal(nodes, r.error)
  {
    var flat: seq<Node>, fans: Fans := [], map[];
    assert FanAll(nodes[..0]) == [] && FansOf(nodes[..0]) == map[];
    hide FanIds, Fan, FanAll, FansOf;
    for i := 0 to |nodes|
      invariant flat == FanAll(nodes[..i]) && fans == FansOf(nodes[..i])
      invariant forall n | n in nodes[..i] :: !EmptyFan(n)
    {
      FanSnoc(nodes, i);
      var node := nodes[i];
      assert node in nodes;
      match node.forEach
      case None => flat := flat + [node];
      case Some(items) =>
        if items == [] {
          return Err(EmptyForEach(node.id));
        }
        var children, ids := ExpandNode(node, items);
        flat := flat + children;
        fans := fans[node.id := ids];
    }
    assert nodes[..|nodes|] == nodes;
    r := Ok((flat, fans));
  }

  /** The whole expansion: the transformed graph, or why there is none. */
  method ExpandDag(nodes: seq<Node>) returns (r: Result<seq<Node>, ExpandError>)
    ensures r.Ok? <==> Expandable(nodes)
    ensures r.Ok? ==> r.value == Expanded(nodes)
    ensures r.Err? ==> ExplainsRefusal(nodes, r.error)
  {
    hide FanAll, FansOf, Relinked, Wired, BadGate, EmptyFan;
    var fanned := FanOutAll(nodes);
    if fanned.Err? {
      return Err(fanned.error);
    }
    var (flat, fans) := fanned.value;
    var linked: seq<Node> := [];
    for i := 0 to |flat|
      invariant |linked| == i && forall j | 0 <= j < i :: linked[j] == Relinked(flat[j], fans) && !BadGate(flat[j], fans)
    {
      var one := Relink(flat[i], fans);
      if one.Err? {
        BadGateExplains(nodes, flat[i]);
        return Err(one.error);
      }
      linked := linked + [one.value];
    }
    var out: seq<Node> := [];
    for i := 0 to |linked|
      invariant |out| == i && forall j | 0 <= j < i :: out[j] == Rewired(flat[j], fans)
    {
      var wired := WireQuorum(linked[i]);
      out := out + [wired];
    }
    assert out == AllRewired(flat, fans);
    r := Ok(out);
  }

  lemma BadGateExplains(nodes: seq<Node>, m: Node)
    requires (forall n | n in nodes :: !EmptyFan(n)) && m in FanAll(nodes) && BadGate(m, FansOf(nodes))
    ensures ExplainsRefusal(nodes, GateOnFanOut(m.id, GateTarget(m.gate.value)))
  {
  }
}
