/** Kahn's algorithm over `depends_on`. */
module TopoSort {
  import opened Wrappers
  import opened Dag
  import opened Graph
  import opened Loop
  import opened Indices

  datatype TopoError = CycleError

  // ----- What is left to wait for

  function OpenEdges(deps: seq<Id>, done: set<Id>): nat {
    if deps == [] then 0
    else OpenEdges(deps[..|deps| - 1], done) + if deps[|deps| - 1] in done then 0 else 1
  }

  /** Dependency entries of the nodes with the id that are not processed yet. */
  function Left(nodes: seq<Node>, id: Id, done: set<Id>): nat {
    if nodes == [] then 0
    else
      var last := nodes[|nodes| - 1];
      Left(nodes[..|nodes| - 1], id, done) + if last.id == id then OpenEdges(last.dependsOn, done) else 0
  }

  lemma {:induction false} OpenEdgesStep(deps: seq<Id>, done: set<Id>, x: Id)
    requires x !in done
    ensures OpenEdges(deps, done) == OpenEdges(deps, done + {x}) + multiset(deps)[x]
  {
    if deps != [] {
      assert deps == deps[..|deps| - 1] + [deps[|deps| - 1]];
      OpenEdgesStep(deps[..|deps| - 1], done, x);
    }
  }

  lemma {:induction false} NoneDone(deps: seq<Id>)
    ensures OpenEdges(deps, {}) == |deps|
  {
    if deps != [] {
      NoneDone(deps[..|deps| - 1]);
    }
  }

  lemma {:induction false} AllLeft(nodes: seq<Node>, id: Id)
    ensures Left(nodes, id, {}) == DepTotal(nodes, id)
  {
    if nodes != [] {
      AllLeft(nodes[..|nodes| - 1], id);
      NoneDone(nodes[|nodes| - 1].dependsOn);
    }
  }

  /** Processing `x` settles one entry for every time a node with the id is listed under `x`. */
  lemma {:induction false} LeftStep(nodes: seq<Node>, id: Id, done: set<Id>, x: Id)
    requires x !in done
    ensures Left(nodes, id, done) == Left(nodes, id, done + {x}) + multiset(Dependents(nodes, x))[id]
  {
    if nodes != [] {
      var front, last := nodes[..|nodes| - 1], nodes[|nodes| - 1];
      LeftStep(front, id, done, x);
      OpenEdgesStep(last.dependsOn, done, x);
      EntriesOther(last.dependsOn, x, last.id, id);
    }
  }

  lemma EntriesOther(edges: seq<Id>, x: Id, id: Id, other: Id)
    ensures multiset(Entries(edges, x, id))[other] == if id == other then multiset(edges)[x] else 0
  {
    if id != other {
      assert other !in Entries(edges, x, id);
    }
  }

  lemma {:induction false} NoneOpenEdges(deps: seq<Id>, done: set<Id>)
    ensures OpenEdges(deps, done) == 0 <==> forall d | d in deps :: d in done
  {
    if deps != [] {
      assert deps == deps[..|deps| - 1] + [deps[|deps| - 1]];
      NoneOpenEdges(deps[..|deps| - 1], done);
    }
  }

  ghost predicate Served(nodes: seq<Node>, id: Id, done: set<Id>) {
    forall n, d | n in nodes && n.id == id && d in n.dependsOn :: d in done
  }

  lemma {:induction false} NoneLeft(nodes: seq<Node>, id: Id, done: set<Id>)
    ensures Left(nodes, id, done) == 0 <==> Served(nodes, id, done)
  {
    if nodes != [] {
      var front, last := nodes[..|nodes| - 1], nodes[|nodes| - 1];
      assert nodes == front + [last];
      NoneLeft(front, id, done);
      NoneOpenEdges(last.dependsOn, done);
    }
  }

  // ----- The algorithm's invariant

  function Elements(s: seq<Id>): set<Id> {
    set x | x in s
  }

  /** Each element of the list comes after everything it depends on. */
  ghost predicate DepsFirst(nodes: seq<Node>, result: seq<Id>) {
    forall i | 0 <= i < |result| :: Served(nodes, result[i], Elements(result[..i]))
  }

  ghost predicate Degrees(nodes: seq<Node>, degree: map<Id, nat>, done: set<Id>, owed: multiset<Id>) {
    degree.Keys == Ids(nodes) && forall id | id in degree :: degree[id] == Left(nodes, id, done) + owed[id]
  }

  /** Queued or processed are exactly the ids with nothing left. */
  ghost predicate Reached(degree: map<Id, nat>, queue: seq<Id>, result: seq<Id>) {
    && Distinct(result + queue)
    && (forall k | k in result + queue :: k in degree && degree[k] == 0)
    && (forall k | k in degree && degree[k] == 0 :: k in result + queue)
  }

  lemma TakeFirst(nodes: seq<Node>, degree: map<Id, nat>, queue: seq<Id>, result: seq<Id>)
    requires queue != [] && Degrees(nodes, degree, Elements(result), multiset{}) && Reached(degree, queue, result) && DepsFirst(nodes, result)
    ensures var x := queue[0];
      && x in Ids(nodes)
      && Degrees(nodes, degree, Elements(result + [x]), multiset(Dependents(nodes, x)))
      && Reached(degree, queue[1..], result + [x])
      && DepsFirst(nodes, result + [x])
  {
    hide Left, Served;
    var x := queue[0];
    FirstMoves(queue, result);
    assert x in result + queue;
    NewElement(result, x);
    forall id | id in degree
      ensures degree[id] == Left(nodes, id, Elements(result + [x])) + multiset(Dependents(nodes, x))[id]
    {
      LeftStep(nodes, id, Elements(result), x);
    }
    NoneLeft(nodes, x, Elements(result));
    forall i | 0 <= i < |result + [x]|
      ensures Served(nodes, (result + [x])[i], Elements((result + [x])[..i]))
    {
      assert (result + [x])[..i] == if i < |result| then result[..i] else result;
    }
  }

  lemma FirstMoves(queue: seq<Id>, result: seq<Id>)
    requires queue != [] && Distinct(result + queue)
    ensures (result + [queue[0]]) + queue[1..] == result + queue
    ensures queue[0] !in result
  {
    var all := result + queue;
    assert all[|result|] == queue[0];
    assert forall i | 0 <= i < |result| :: all[i] == result[i];
  }

  lemma NewElement(result: seq<Id>, x: Id)
    ensures Elements(result + [x]) == Elements(result) + {x}
  {
  }

  /** One dependent told: one entry less, and queued when that was the last. */
  lemma TellOne(nodes: seq<Node>, degree: map<Id, nat>, queue: seq<Id>, result: seq<Id>, g: Id, owed: multiset<Id>)
    requires Degrees(nodes, degree, Elements(result), owed + multiset{g}) && Reached(degree, queue, result) && g in degree
    ensures degree[g] > 0
    ensures var degree' := degree[g := degree[g] - 1];
      && Degrees(nodes, degree', Elements(result), owed)
      && Reached(degree', if degree'[g] == 0 then queue + [g] else queue, result)
  {
    hide Left, Elements;
    assert (owed + multiset{g})[g] == owed[g] + 1;
    var degree' := degree[g := degree[g] - 1];
    assert g !in result + queue;
    assert result + (queue + [g]) == (result + queue) + [g];
    forall id | id in degree'
      ensures degree'[id] == Left(nodes, id, Elements(result)) + owed[id]
    {
      if id != g {
        assert (owed + multiset{g})[id] == owed[id];
      }
    }
  }

  // ----- The algorithm

  ghost predicate DepsClosed(nodes: seq<Node>) {
    forall n, d | n in nodes && d in n.dependsOn :: d in Ids(nodes)
  }

  function DepEdges(nodes: seq<Node>): Edges<Id> {
    map id | id in Ids(nodes) :: GetNode(nodes, id).value.dependsOn
  }

  /** The graphs that have a topological order. */
  ghost predicate Sortable(nodes: seq<Node>) {
    UniqueIds(nodes) && DepsClosed(nodes) && !Cyclic(DepEdges(nodes))
  }

  method InitialQueue(degree: map<Id, nat>) returns (queue: seq<Id>)
    ensures Reached(degree, queue, [])
  {
    queue := [];
    var left := degree.Keys;
    while left != {}
      invariant left <= degree.Keys
      invariant Distinct(queue) && (forall k | k in queue :: k in degree && k !in left && degree[k] == 0)
      invariant forall k | k in degree && k !in left && degree[k] == 0 :: k in queue
      decreases |left|
    {
      var id :| id in left;
      left := left - {id};
      if degree[id] == 0 {
        queue := queue + [id];
      }
    }
    assert [] + queue == queue;
  }

  method TellDependents(nodes: seq<Node>, degree: map<Id, nat>, queue: seq<Id>, ghost result: seq<Id>, x: Id, dependents: seq<Id>)
    returns (degree': map<Id, nat>, queue': seq<Id>)
    requires dependents == Dependents(nodes, x)
    requires Degrees(nodes, degree, Elements(result), multiset(dependents)) && Reached(degree, queue, result)
    ensures Degrees(nodes, degree', Elements(result), multiset{}) && Reached(degree', queue', result)
  {
    hide Reached, Elements, Degrees, Dependents;
    degree', queue' := degree, queue;
    assert dependents[0..] == dependents;
    for j := 0 to |dependents|
      invariant Degrees(nodes, degree', Elements(result), multiset(dependents[j..])) && Reached(degree', queue', result)
    {
      DegreesCover(nodes, degree', Elements(result), multiset(dependents[j..]));
      var g := dependents[j];
      assert dependents[j..] == [g] + dependents[j + 1..];
      assert multiset(dependents[j..]) == multiset(dependents[j + 1..]) + multiset{g};
      assert g in dependents;
      TellOne(nodes, degree', queue', result, g, multiset(dependents[j + 1..]));
      degree' := degree'[g := degree'[g] - 1];
      if degree'[g] == 0 {
        queue' := queue' + [g];
      }
    }
    assert dependents[|dependents|..] == [];
  }

  method TopoSort(nodes: seq<Node>) returns (r: Result<seq<Id>, TopoError>)
    ensures r.Ok? <==> Sortable(nodes)
    ensures r.Ok? ==> Distinct(r.value) && |r.value| == |nodes| && Elements(r.value) == Ids(nodes) && DepsFirst(nodes, r.value)
  {
    hide Sortable, Left, Elements, Reached, DepsFirst, IsDependents, Served;
    var degree, adjacency := BuildDependencies(nodes);
    StartDegrees(nodes);
    var queue := InitialQueue(degree);
    var result: seq<Id> := [];
    StartOrder(nodes);
    while queue != []
      invariant Degrees(nodes, degree, Elements(result), multiset{}) && Reached(degree, queue, result)
      invariant DepsFirst(nodes, result)
      decreases |Ids(nodes)| - |result|
    {
      hide Degrees, Ids;
      var x := queue[0];
      TakeFirst(nodes, degree, queue, result);
      IndexAt(nodes, adjacency, x);
      DegreesCover(nodes, degree, Elements(result), multiset{});
      ResultFits(nodes, degree, queue[1..], result + [x]);
      result := result + [x];
      degree, queue := TellDependents(nodes, degree, queue[1..], result, x, adjacency[x]);
    }
    FullOrNot(nodes, degree, result);
    r := if |result| == |nodes| then Ok(result) else Err(CycleError);
  }

  lemma StartDegrees(nodes: seq<Node>)
    ensures Degrees(nodes, EdgeCount(nodes), Elements([]), multiset{})
  {
    assert Elements([]) == {};
    forall id | id in EdgeCount(nodes)
      ensures EdgeCount(nodes)[id] == Left(nodes, id, {})
    {
      AllLeft(nodes, id);
    }
  }

  lemma StartOrder(nodes: seq<Node>)
    ensures DepsFirst(nodes, [])
  {
  }

  lemma IndexAt(nodes: seq<Node>, adjacency: map<Id, seq<Id>>, x: Id)
    requires IsDependents(nodes, Ids(nodes), adjacency) && x in Ids(nodes)
    ensures x in adjacency && adjacency[x] == Dependents(nodes, x)
  {
  }

  lemma DegreesCover(nodes: seq<Node>, degree: map<Id, nat>, done: set<Id>, owed: multiset<Id>)
    requires Degrees(nodes, degree, done, owed)
    ensures degree.Keys == Ids(nodes)
  {
  }

  /** Distinct ids of nodes: no more than there are. */
  lemma ResultFits(nodes: seq<Node>, degree: map<Id, nat>, queue: seq<Id>, result: seq<Id>)
    requires degree.Keys == Ids(nodes) && Reached(degree, queue, result)
    ensures |result| <= |Ids(nodes)|
  {
    assert Distinct(result) by {
      assert forall i | 0 <= i < |result| :: (result + queue)[i] == result[i];
    }
    assert forall k | k in result :: k in result + queue;
    Pigeonhole(result, Ids(nodes));
  }

  // ----- A full result means a sortable graph

  lemma {:induction false} DistinctSize(s: seq<Id>)
    requires Distinct(s)
    ensures |Elements(s)| == |s|
  {
    if s != [] {
      var front, last := s[..|s| - 1], s[|s| - 1];
      assert s == front + [last];
      DistinctSize(front);
      NewElement(front, last);
    }
  }

  lemma {:induction false} IdsSize(nodes: seq<Node>)
    ensures |Ids(nodes)| <= |nodes|
    ensures |Ids(nodes)| == |nodes| <==> UniqueIds(nodes)
  {
    if nodes != [] {
      var front, last := nodes[..|nodes| - 1], nodes[|nodes| - 1];
      assert nodes == front + [last];
      IdsSize(front);
      assert Ids(nodes) == Ids(front) + {last.id};
      UniqueSnoc(front, last);
    }
  }

  lemma UniqueSnoc(front: seq<Node>, last: Node)
    ensures UniqueIds(front + [last]) <==> UniqueIds(front) && last.id !in Ids(front)
  {
    var nodes := front + [last];
    assert forall i | 0 <= i < |front| :: nodes[i] == front[i];
    if UniqueIds(nodes) {
      assert nodes[|front|] == last;
      assert last.id !in Ids(front);
    }
  }

  lemma FullOrNot(nodes: seq<Node>, degree: map<Id, nat>, result: seq<Id>)
    requires Degrees(nodes, degree, Elements(result), multiset{}) && Reached(degree, [], result) && DepsFirst(nodes, result)
    ensures |result| == |nodes| <==> Sortable(nodes)
    ensures Distinct(result) && (|result| == |nodes| ==> Elements(result) == Ids(nodes))
  {
    hide Left, DepsFirst, Cyclic, UniqueIds, DepsClosed, DepEdges;
    assert result + [] == result;
    DistinctSize(result);
    IdsSize(nodes);
    assert Elements(result) <= Ids(nodes);
    SubsetSize(Elements(result), Ids(nodes));
    if |result| == |nodes| {
      SameSize(Elements(result), Ids(nodes));
      FullIsSortable(nodes, result);
    }
    if Sortable(nodes) {
      SortableIsFull(nodes, degree, result);
    }
  }

  lemma SameSize(a: set<Id>, b: set<Id>)
    requires a <= b && |a| == |b|
    ensures a == b
  {
    if x :| x in b && x !in a {
      SubsetSize(a, b - {x});
    }
  }

  lemma FullIsSortable(nodes: seq<Node>, result: seq<Id>)
    requires Distinct(result) && Elements(result) == Ids(nodes) && DepsFirst(nodes, result) && UniqueIds(nodes)
    ensures Sortable(nodes)
  {
    hide Cyclic;
    forall n, d | n in nodes && d in n.dependsOn
      ensures d in Ids(nodes)
    {
      assert n.id in Elements(result);
      var i :| 0 <= i < |result| && result[i] == n.id;
      assert d in Elements(result[..i]);
      assert d in Elements(result);
    }
    forall i, y | 0 <= i < |result| && y in Succ(DepEdges(nodes), result[i])
      ensures y in result[..i]
    {
      assert result[i] in Elements(result);
      assert Served(nodes, result[i], Elements(result[..i]));
      var n := GetNode(nodes, result[i]).value;
      assert n in nodes && n.id == result[i] && y in n.dependsOn;
      assert y in Elements(result[..i]);
    }
    assert forall x | x in DepEdges(nodes) :: x in Elements(result);
    OrderIsAcyclic(DepEdges(nodes), result);
  }

  /** What was not reached would contain a cycle. */
  lemma SortableIsFull(nodes: seq<Node>, degree: map<Id, nat>, result: seq<Id>)
    requires Degrees(nodes, degree, Elements(result), multiset{}) && Reached(degree, [], result)
    requires Sortable(nodes) && Elements(result) <= Ids(nodes)
    ensures Elements(result) == Ids(nodes)
  {
    hide Cyclic, Left, DepEdges, DepsClosed, UniqueIds;
    var rest := Ids(nodes) - Elements(result);
    forall id | id in rest
      ensures LeadsInto(DepEdges(nodes), rest, id)
    {
      assert result + [] == result;
      assert id !in result;
      NoneLeft(nodes, id, Elements(result));
      var n, d :| n in nodes && n.id == id && d in n.dependsOn && d !in Elements(result);
      Unreached(nodes, rest, Elements(result), n, d);
    }
    assert NoSink(DepEdges(nodes), rest);
    if rest != {} {
      NoSinkIsCyclic(DepEdges(nodes), rest);
    } else {
      assert forall id | id in Ids(nodes) :: id !in rest && id in Elements(result);
    }
  }

  lemma Unreached(nodes: seq<Node>, rest: set<Id>, done: set<Id>, n: Node, d: Id)
    requires UniqueIds(nodes) && DepsClosed(nodes) && n in nodes && d in n.dependsOn && d !in done
    requires rest == Ids(nodes) - done
    ensures LeadsInto(DepEdges(nodes), rest, n.id)
  {
    GetOwnNode(nodes, n);
    assert n.id in Ids(nodes);
    assert d in Succ(DepEdges(nodes), n.id) && d in rest;
  }
}
