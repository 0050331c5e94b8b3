/** The depth-first cycle check over `depends_on` and `after`. */
module Cycle {
  import opened Wrappers
  import opened Dag
  import opened Graph

  /** The edges followed from an id: those of the first node that has it. */
  function EdgesOf(nodes: seq<Node>, id: Id): seq<Id> {
    match GetNode(nodes, id)
    case None => []
    case Some(n) => n.dependsOn + n.after
  }

  function AllEdges(nodes: seq<Node>): Edges<Id> {
    map id | id in Ids(nodes) :: EdgesOf(nodes, id)
  }

  lemma SuccIs(nodes: seq<Node>, id: Id)
    ensures Succ(AllEdges(nodes), id) == EdgesOf(nodes, id)
  {
  }

  /** Everything the search can come across. */
  function Universe(nodes: seq<Node>): set<Id> {
    Ids(nodes) + (set n, m | n in nodes && m in n.dependsOn :: m) + (set n, m | n in nodes && m in n.after :: m)
  }

  lemma EdgesInUniverse(nodes: seq<Node>, id: Id)
    ensures forall m | m in EdgesOf(nodes, id) :: m in Universe(nodes)
  {
  }

  /** Finished nodes are ordered, the stack is a walk, and together they are what was visited. */
  ghost predicate SearchOk(g: Edges<Id>, universe: set<Id>, visited: set<Id>, recStack: set<Id>, stack: seq<Id>, order: seq<Id>) {
    && Closing(g, order) && Distinct(order)
    && Walk(g, stack) && Distinct(stack)
    && (forall x :: x in recStack <==> x in stack)
    && (forall x :: x in visited <==> x in stack || x in order)
    && (forall x | x in stack :: x !in order)
    && visited <= universe
  }

  lemma PushOk(g: Edges<Id>, universe: set<Id>, visited: set<Id>, recStack: set<Id>, stack: seq<Id>, order: seq<Id>, id: Id)
    requires SearchOk(g, universe, visited, recStack, stack, order)
    requires id !in visited && id in universe && (stack == [] || id in Succ(g, stack[|stack| - 1]))
    ensures SearchOk(g, universe, visited + {id}, recStack + {id}, stack + [id], order)
  {
    hide Closing, Walk;
    WalkSnoc(g, stack, id);
  }

  lemma PopOk(g: Edges<Id>, universe: set<Id>, visited: set<Id>, recStack: set<Id>, before: seq<Id>, order: seq<Id>, id: Id)
    requires SearchOk(g, universe, visited, recStack, before + [id], order)
    requires forall m | m in Succ(g, id) :: m in order
    ensures SearchOk(g, universe, visited, recStack - {id}, before, order + [id])
  {
    hide Closing, Walk;
    var stack := before + [id];
    assert stack[0..|before|] == before;
    WalkSlice(g, stack, 0, |before|);
    ClosingSnoc(g, order, id);
    assert id in stack && id !in order;
    InSnoc(before, id);
    InSnoc(order, id);
  }

  lemma InSnoc(s: seq<Id>, id: Id)
    ensures forall x :: x in s + [id] <==> x in s || x == id
    ensures Distinct(s + [id]) ==> Distinct(s) && id !in s
  {
    if Distinct(s + [id]) {
      assert forall i | 0 <= i < |s| :: (s + [id])[i] == s[i];
      assert (s + [id])[|s|] == id;
    }
  }

  class CycleSearch {
    const nodes: seq<Node>
    var visited: set<Id>
    var recStack: set<Id>
    /** The recursion stack in order, and the finished nodes in the order they were left. */
    ghost var stack: seq<Id>
    ghost var order: seq<Id>

    constructor (nodes: seq<Node>)
      ensures this.nodes == nodes && Valid() && visited == {} && stack == [] && order == []
    {
      this.nodes := nodes;
      visited, recStack, stack, order := {}, {}, [], [];
    }

    ghost predicate Valid()
      reads this
    {
      SearchOk(AllEdges(nodes), Universe(nodes), visited, recStack, stack, order)
    }

    /** Everything below `id`; true if the search runs into the stack. */
    method Dfs(id: Id) returns (found: bool)
      requires Valid() && id !in visited && id in Universe(nodes)
      requires stack == [] || id in Succ(AllEdges(nodes), stack[|stack| - 1])
      modifies this
      ensures found ==> Cyclic(AllEdges(nodes))
      ensures !found ==> Valid() && stack == old(stack) && old(visited) + {id} <= visited
      decreases |Universe(nodes) - visited|, 1
    {
      hide Cyclic, Universe, SearchOk, Succ, AllEdges;
      ghost var before := stack;
      Push(id);
      ghost var pushed := visited;
      SuccIs(nodes, id);
      EdgesInUniverse(nodes, id);
      var node := GetNode(nodes, id);
      if node.Some? {
        found := Explore(node.value.dependsOn, id, before);
        if found {
          return;
        }
        VisitedGrows(Universe(nodes), pushed, visited);
        found := Explore(node.value.after, id, before);
        if found {
          return;
        }
      }
      Pop(id, before);
      found := false;
    }

    method Push(id: Id)
      requires Valid() && id !in visited && id in Universe(nodes)
      requires stack == [] || id in Succ(AllEdges(nodes), stack[|stack| - 1])
      modifies this
      ensures Valid() && stack == old(stack) + [id] && order == old(order)
      ensures visited == old(visited) + {id}
      ensures |Universe(nodes) - visited| < old(|Universe(nodes) - visited|)
    {
      hide Universe, Succ, SearchOk;
      PushOk(AllEdges(nodes), Universe(nodes), visited, recStack, stack, order, id);
      Shrinks(Universe(nodes), visited, id);
      visited := visited + {id};
      recStack := recStack + {id};
      stack := stack + [id];
    }

    method Pop(id: Id, ghost before: seq<Id>)
      requires Valid() && stack == before + [id]
      requires forall m | m in Succ(AllEdges(nodes), id) :: m in order
      modifies this
      ensures Valid() && stack == before && visited == old(visited)
    {
      hide Universe, Succ, SearchOk;
      PopOk(AllEdges(nodes), Universe(nodes), visited, recStack, before, order, id);
      recStack := recStack - {id};
      stack := before;
      order := order + [id];
    }

    /** The targets of one edge list, from the node on top of the stack. */
    method Explore(edges: seq<Id>, ghost id: Id, ghost before: seq<Id>) returns (found: bool)
      requires Valid() && stack == before + [id]
      requires forall m | m in edges :: m in Succ(AllEdges(nodes), id) && m in Universe(nodes)
      modifies this
      ensures found ==> Cyclic(AllEdges(nodes))
      ensures !found ==> Valid() && stack == old(stack) && old(visited) <= visited
      ensures !found ==> (forall m | m in edges :: m in order) && forall m | m in old(order) :: m in order
      decreases |Universe(nodes) - visited|, 2
    {
      hide Cyclic, Universe, Succ, AllEdges;
      for j := 0 to |edges|
        invariant Valid() && stack == old(stack) && old(visited) <= visited
        invariant forall m | m in old(order) :: m in order
        invariant forall m | m in edges[..j] :: m in order
      {
        var m := edges[j];
        VisitedGrows(Universe(nodes), old(visited), visited);
        if m !in visited {
          ghost var done := order;
          found := Dfs(m);
          if found {
            return;
          }
        } else if m in recStack {
          CycleFound(AllEdges(nodes), stack, m);
          return true;
        }
      }
      found := false;
    }
  }

  lemma WalkSnoc(g: Edges<Id>, p: seq<Id>, x: Id)
    requires Walk(g, p) && (p == [] || x in Succ(g, p[|p| - 1]))
    ensures Walk(g, p + [x])
  {
    forall i | 0 <= i < |p|
      ensures Hop(g, p + [x], i)
    {
      if i < |p| - 1 {
        assert Hop(g, p, i);
      }
    }
  }

  lemma ClosingSnoc(g: Edges<Id>, order: seq<Id>, x: Id)
    requires Closing(g, order) && forall m | m in Succ(g, x) :: m in order
    ensures Closing(g, order + [x])
  {
    forall i, y | 0 <= i < |order + [x]| && y in Succ(g, (order + [x])[i])
      ensures y in (order + [x])[..i]
    {
      if i < |order| {
        assert (order + [x])[..i] == order[..i];
      } else {
        assert (order + [x])[..i] == order;
      }
    }
  }

  lemma CycleFound(g: Edges<Id>, stack: seq<Id>, m: Id)
    requires Walk(g, stack) && m in stack && m in Succ(g, stack[|stack| - 1])
    ensures Cyclic(g)
  {
    hide Walk;
    var k :| 0 <= k < |stack| && stack[k] == m;
    WalkSlice(g, stack, k, |stack|);
    assert stack[k..|stack|] == stack[k..];
    WalkSnoc(g, stack[k..], m);
    var p := stack[k..] + [m];
    assert |p| >= 2 && p[0] == p[|p| - 1];
  }

  lemma Shrinks(u: set<Id>, visited: set<Id>, id: Id)
    requires id in u && id !in visited
    ensures |u - (visited + {id})| < |u - visited|
  {
    assert u - visited == u - (visited + {id}) + {id};
  }

  lemma VisitedGrows(u: set<Id>, before: set<Id>, after: set<Id>)
    requires before <= after
    ensures |u - after| <= |u - before|
  {
    Graph.SubsetSize(u - after, u - before);
  }

  /** True exactly when `depends_on` and `after` together have a cycle. */
  method HasCycle(nodes: seq<Node>) returns (cyclic: bool)
    ensures cyclic <==> Cyclic(AllEdges(nodes))
  {
    hide Cyclic, Closing, Walk, AllEdges;
    var search := new CycleSearch(nodes);
    for i := 0 to |nodes|
      invariant fresh(search) && search.nodes == nodes && search.Valid() && search.stack == []
      invariant forall n | n in nodes[..i] :: n.id in search.visited
    {
      if nodes[i].id !in search.visited {
        NodeInUniverse(nodes, i);
        cyclic := search.Dfs(nodes[i].id);
        if cyclic {
          return;
        }
      }
    }
    AllVisited(nodes, search.visited, search.order);
    OrderIsAcyclic(AllEdges(nodes), search.order);
    cyclic := false;
  }

  lemma NodeInUniverse(nodes: seq<Node>, i: nat)
    requires i < |nodes|
    ensures nodes[i].id in Universe(nodes)
  {
    assert nodes[i].id in Ids(nodes);
  }

  lemma AllVisited(nodes: seq<Node>, visited: set<Id>, order: seq<Id>)
    requires forall n | n in nodes[..|nodes|] :: n.id in visited
    requires forall x :: x in visited <==> x in order
    ensures forall x | x in AllEdges(nodes) :: x in order
  {
    assert nodes[..|nodes|] == nodes;
  }

  // ----- Acyclic exactly when a rank exists

  function IndexOf(order: seq<Id>, x: Id): (i: nat)
    requires x in order
    ensures i < |order| && order[i] == x
  {
    if order[|order| - 1] == x then |order| - 1
    else
      assert order == order[..|order| - 1] + [order[|order| - 1]];
      IndexOf(order[..|order| - 1], x)
  }

  lemma OwnEdges(nodes: seq<Node>, n: Node)
    requires UniqueIds(nodes) && n in nodes
    ensures Succ(AllEdges(nodes), n.id) == n.dependsOn + n.after
    ensures forall m :: m in Succ(AllEdges(nodes), n.id) <==> Edge(n, m)
  {
    GetOwnNode(nodes, n);
    assert n.id in Ids(nodes);
    assert forall m :: m in n.dependsOn + n.after <==> m in n.dependsOn || m in n.after;
  }

  lemma Later(order: seq<Id>, x: Id, y: Id)
    requires x in order && Distinct(order) && y in order[..IndexOf(order, x)]
    ensures y in order && IndexOf(order, y) < IndexOf(order, x)
  {
    var i := IndexOf(order, x);
    var j :| 0 <= j < i && order[j] == y;
    assert IndexOf(order, y) == j;
  }

  lemma AcyclicRank(nodes: seq<Node>) returns (rank: map<Id, nat>)
    requires UniqueIds(nodes) && Closed(nodes) && !Cyclic(AllEdges(nodes))
    ensures Ranked(nodes, rank)
  {
    hide Cyclic, AllEdges, Succ;
    var g := AllEdges(nodes);
    var order := AcyclicOrder(g, Ids(nodes));
    rank := map x | x in Ids(nodes) :: IndexOf(order, x);
    forall n, m | n in nodes && Edge(n, m)
      ensures m in rank && rank[m] < rank[n.id]
    {
      OwnEdges(nodes, n);
      assert n.id in Ids(nodes) && m in Ids(nodes);
      assert order[IndexOf(order, n.id)] == n.id;
      Later(order, n.id, m);
    }
  }

  lemma RankedEdges(nodes: seq<Node>, rank: map<Id, nat>, p: seq<Id>, i: nat)
    requires UniqueIds(nodes) && Ranked(nodes, rank) && i + 1 < |p| && Hop(AllEdges(nodes), p, i)
    ensures p[i] in rank && p[i + 1] in rank && rank[p[i + 1]] < rank[p[i]]
  {
    var n := GetNode(nodes, p[i]).value;
    OwnEdges(nodes, n);
  }

  lemma {:induction false} WalkFalls(nodes: seq<Node>, rank: map<Id, nat>, p: seq<Id>)
    requires UniqueIds(nodes) && Ranked(nodes, rank) && Walk(AllEdges(nodes), p) && |p| >= 2
    ensures p[0] in rank && p[|p| - 1] in rank && rank[p[|p| - 1]] < rank[p[0]]
  {
    hide AllEdges, Ranked, Hop;
    var g := AllEdges(nodes);
    assert Hop(g, p, |p| - 2);
    RankedEdges(nodes, rank, p, |p| - 2);
    if |p| > 2 {
      WalkSlice(g, p, 0, |p| - 1);
      assert p[0..|p| - 1] == p[..|p| - 1];
      WalkFalls(nodes, rank, p[..|p| - 1]);
    }
  }

  /** On a graph that names only its own nodes, no cycle means a rank, and a rank means no cycle. */
  lemma AcyclicIffRanked(nodes: seq<Node>)
    requires UniqueIds(nodes) && Closed(nodes)
    ensures !Cyclic(AllEdges(nodes)) <==> exists rank :: Ranked(nodes, rank)
  {
    if !Cyclic(AllEdges(nodes)) {
      var rank := AcyclicRank(nodes);
    } else if rank :| Ranked(nodes, rank) {
      var p :| |p| >= 2 && Walk(AllEdges(nodes), p) && p[0] == p[|p| - 1];
      WalkFalls(nodes, rank, p);
    }
  }
}
