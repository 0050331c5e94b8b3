/** The authored graph: nodes, their edges, and the lookups the scheduler makes in them. */
module Dag {
  import opened Wrappers

  type Id = string

  datatype ModelRef = ModelRef(name: string, paid: bool)

  datatype RetryPolicy = RetryPolicy(attempts: nat, backoffMs: nat)

  datatype QuorumConfig = QuorumConfig(of: seq<Id>, minPass: nat)

  datatype Verify =
    | Shell(cmd: string)
    | Critic(prompt: string, models: seq<ModelRef>)
    | All(arms: seq<Verify>)

  datatype Node = Node(
    id: Id,
    prompt: string,
    dependsOn: seq<Id>,
    models: seq<ModelRef>,
    retry: RetryPolicy,
    validate: Option<string>,
    nodeType: Option<string>,
    gate: Option<string>,
    after: seq<Id>,
    verify: Option<Verify>,
    verifyPre: Option<string>,
    forEach: Option<seq<string>>,
    quorum: Option<QuorumConfig>)

  function Ids(nodes: seq<Node>): set<Id> {
    set n | n in nodes :: n.id
  }

  ghost predicate UniqueIds(nodes: seq<Node>) {
    forall i, j | 0 <= i < j < |nodes| :: nodes[i].id != nodes[j].id
  }

  /** The first node with the id. */
  function GetNode(nodes: seq<Node>, id: Id): (r: Option<Node>)
    ensures r.Some? ==> r.value in nodes && r.value.id == id
    ensures r.None? <==> id !in Ids(nodes)
  {
    if nodes == [] then None
    else if nodes[0].id == id then Some(nodes[0])
    else
      assert Ids(nodes) == {nodes[0].id} + Ids(nodes[1..]) by {
        assert nodes == [nodes[0]] + nodes[1..];
      }
      GetNode(nodes[1..], id)
  }

  lemma {:induction false} GetOwnNode(nodes: seq<Node>, n: Node)
    requires UniqueIds(nodes) && n in nodes
    ensures GetNode(nodes, n.id) == Some(n)
  {
    var r := GetNode(nodes, n.id);
    assert n.id in Ids(nodes);
    var i :| 0 <= i < |nodes| && nodes[i] == n;
    var j :| 0 <= j < |nodes| && nodes[j] == r.value;
    assert i == j;
  }

  /** `gate == "<d>:fail"`: the node is the fix node for `d`. */
  predicate GatedOn(n: Node, d: Id) {
    n.gate == Some(d + ":fail")
  }

  lemma GateNamesOne(n: Node, d: Id, e: Id)
    requires GatedOn(n, d) && GatedOn(n, e)
    ensures d == e
  {
    var g := n.gate.value;
    assert d == g[..|g| - 5] && e == g[..|g| - 5];
  }

  /** One entry of `id` for every occurrence of `x` in the edge list. */
  function Entries(edges: seq<Id>, x: Id, id: Id): (r: seq<Id>)
    ensures forall k | k in r :: k == id
    ensures multiset(r)[id] == multiset(edges)[x]
  {
    if edges == [] then []
    else
      var front, last := edges[..|edges| - 1], edges[|edges| - 1];
      assert edges == front + [last];
      if last == x then Entries(front, x, id) + [id] else Entries(front, x, id)
  }

  /** The reverse index over `depends_on`, in node order. */
  function Dependents(nodes: seq<Node>, x: Id): (r: seq<Id>)
    ensures forall k | k in r :: k in Ids(nodes)
  {
    if nodes == [] then []
    else
      var front, last := nodes[..|nodes| - 1], nodes[|nodes| - 1];
      Dependents(front, x) + Entries(last.dependsOn, x, last.id)
  }

  /** The reverse index over `after`, in node order. */
  function AfterDependents(nodes: seq<Node>, x: Id): (r: seq<Id>)
    ensures forall k | k in r :: k in Ids(nodes)
  {
    if nodes == [] then []
    else
      var front, last := nodes[..|nodes| - 1], nodes[|nodes| - 1];
      AfterDependents(front, x) + Entries(last.after, x, last.id)
  }

  /** A node is listed as a dependent of `x` exactly as often as it lists `x`. */
  lemma {:induction false} DependentsCount(nodes: seq<Node>, x: Id, n: Node)
    requires UniqueIds(nodes) && n in nodes
    ensures multiset(Dependents(nodes, x))[n.id] == multiset(n.dependsOn)[x]
    ensures multiset(AfterDependents(nodes, x))[n.id] == multiset(n.after)[x]
  {
    var front, last := nodes[..|nodes| - 1], nodes[|nodes| - 1];
    assert nodes == front + [last];
    if last == n {
      LastIsNew(nodes);
      assert n.id !in Dependents(front, x);
      assert n.id !in AfterDependents(front, x);
    } else {
      var i :| 0 <= i < |nodes| && nodes[i] == n;
      assert front[i] == n;
      LastIsNew(nodes);
      assert n.id in Ids(front);
      assert n.id !in Entries(last.dependsOn, x, last.id);
      assert n.id !in Entries(last.after, x, last.id);
      DependentsCount(front, x, n);
    }
  }

  lemma LastIsNew(nodes: seq<Node>)
    requires UniqueIds(nodes) && nodes != []
    ensures nodes[|nodes| - 1].id !in Ids(nodes[..|nodes| - 1])
    ensures UniqueIds(nodes[..|nodes| - 1])
  {
  }

  // ----- Edges and order

  /** `n` waits for `m`, through either kind of edge. */
  predicate Edge(n: Node, m: Id) {
    m in n.dependsOn || m in n.after
  }

  /** Every edge leads to a node of smaller rank. */
  ghost predicate Ranked(nodes: seq<Node>, rank: map<Id, nat>) {
    && Ids(nodes) <= rank.Keys
    && forall n, m | n in nodes && Edge(n, m) :: m in rank && rank[m] < rank[n.id]
  }

  ghost predicate Closed(nodes: seq<Node>) {
    forall n, m | n in nodes && Edge(n, m) :: m in Ids(nodes)
  }
}
