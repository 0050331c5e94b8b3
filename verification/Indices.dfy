/** The counters and reverse indices built from the edge lists before the loop starts. */
module Indices {
  import opened Dag
  import opened Loop

  type Index = map<Id, seq<Id>>

  lemma FrontStep(nodes: seq<Node>, i: nat, x: Id)
    requires i < |nodes|
    ensures Dependents(nodes[..i + 1], x) == Dependents(nodes[..i], x) + Entries(nodes[i].dependsOn, x, nodes[i].id)
    ensures AfterDependents(nodes[..i + 1], x) == AfterDependents(nodes[..i], x) + Entries(nodes[i].after, x, nodes[i].id)
    ensures DepTotal(nodes[..i + 1], x) == DepTotal(nodes[..i], x) + if nodes[i].id == x then |nodes[i].dependsOn| else 0
    ensures AfterTotal(nodes[..i + 1], x) == if nodes[i].id == x && nodes[i].after != [] then |nodes[i].after| else AfterTotal(nodes[..i], x)
  {
    assert nodes[..i + 1][..i] == nodes[..i];
  }

  // ----- One node's entries

  /** Every list has grown by the entries of the edges seen so far. */
  ghost predicate Pushed(index: Index, index': Index, edges: seq<Id>, id: Id) {
    && index'.Keys == index.Keys
    && forall x | x in index :: index'[x] == index[x] + Entries(edges, x, id)
  }

  lemma EntriesStep(index: seq<Id>, edges: seq<Id>, j: nat, x: Id, id: Id)
    requires j < |edges|
    ensures edges[j] != x ==> Entries(edges[..j + 1], x, id) == Entries(edges[..j], x, id)
    ensures edges[j] == x ==> index + Entries(edges[..j + 1], x, id) == index + Entries(edges[..j], x, id) + [id]
  {
    assert edges[..j + 1][..j] == edges[..j];
  }

  lemma PushStep(index: Index, index': Index, edges: seq<Id>, j: nat, id: Id)
    requires j < |edges| && Pushed(index, index', edges[..j], id)
    ensures Pushed(index, if edges[j] in index' then index'[edges[j] := index'[edges[j]] + [id]] else index', edges[..j + 1], id)
  {
    hide Entries;
    forall x | x in index
      ensures (if edges[j] in index' then index'[edges[j] := index'[edges[j]] + [id]] else index')[x] == index[x] + Entries(edges[..j + 1], x, id)
    {
      EntriesStep(index[x], edges, j, x, id);
    }
  }

  /** One node's entries pushed to the lists of the nodes it names; names of no node are passed over. */
  method PushEntries(index: Index, edges: seq<Id>, id: Id) returns (index': Index)
    ensures Pushed(index, index', edges, id)
  {
    index' := index;
    for j := 0 to |edges|
      invariant Pushed(index, index', edges[..j], id)
    {
      hide Pushed;
      PushStep(index, index', edges, j, id);
      if edges[j] in index' {
        index' := index'[edges[j] := index'[edges[j]] + [id]];
      }
    }
    assert edges[..|edges|] == edges;
  }

  // ----- depends_on

  ghost predicate IsDependents(nodes: seq<Node>, ids: set<Id>, index: Index) {
    index.Keys == ids && forall x | x in ids :: index[x] == Dependents(nodes, x)
  }

  ghost predicate IsDegrees(nodes: seq<Node>, ids: set<Id>, degrees: map<Id, nat>) {
    degrees.Keys == ids && forall x | x in ids :: degrees[x] == DepTotal(nodes, x)
  }

  lemma DependentsStep(nodes: seq<Node>, i: nat, ids: set<Id>, index: Index, index': Index)
    requires i < |nodes| && IsDependents(nodes[..i], ids, index)
    requires Pushed(index, index', nodes[i].dependsOn, nodes[i].id)
    ensures IsDependents(nodes[..i + 1], ids, index')
  {
    hide Dependents, Entries;
    forall x | x in ids
      ensures index'[x] == Dependents(nodes[..i + 1], x)
    {
      FrontStep(nodes, i, x);
    }
  }

  lemma DegreesStep(nodes: seq<Node>, i: nat, ids: set<Id>, degrees: map<Id, nat>)
    requires i < |nodes| && nodes[i].id in ids && IsDegrees(nodes[..i], ids, degrees)
    ensures nodes[i].id in degrees
    ensures IsDegrees(nodes[..i + 1], ids, degrees[nodes[i].id := degrees[nodes[i].id] + |nodes[i].dependsOn|])
  {
    hide DepTotal;
    forall x | x in ids
      ensures degrees[nodes[i].id := degrees[nodes[i].id] + |nodes[i].dependsOn|][x] == DepTotal(nodes[..i + 1], x)
    {
      FrontStep(nodes, i, x);
    }
  }

  /** One more for every entry of a node's dependency list. */
  method CountEdges(degrees: map<Id, nat>, node: Node) returns (degrees': map<Id, nat>)
    requires node.id in degrees
    ensures degrees' == degrees[node.id := degrees[node.id] + |node.dependsOn|]
  {
    degrees' := degrees;
    for j := 0 to |node.dependsOn|
      invariant degrees' == degrees[node.id := degrees[node.id] + j]
    {
      degrees' := degrees'[node.id := degrees'[node.id] + 1];
    }
  }

  lemma NoDependencies(ids: set<Id>)
    ensures IsDegrees([], ids, map id | id in ids :: 0)
    ensures IsDependents([], ids, map id | id in ids :: [])
  {
  }

  lemma DegreesDone(nodes: seq<Node>, degrees: map<Id, nat>)
    requires IsDegrees(nodes, Ids(nodes), degrees)
    ensures degrees == EdgeCount(nodes)
  {
  }

  method BuildDependencies(nodes: seq<Node>) returns (inDegree: map<Id, nat>, dependents: Index)
    ensures inDegree == EdgeCount(nodes)
    ensures IsDependents(nodes, Ids(nodes), dependents)
  {
    hide IsDependents, IsDegrees, Pushed, DepTotal, EdgeCount;
    inDegree := map id | id in Ids(nodes) :: 0;
    dependents := map id | id in Ids(nodes) :: [];
    NoDependencies(Ids(nodes));
    for i := 0 to |nodes|
      invariant IsDegrees(nodes[..i], Ids(nodes), inDegree)
      invariant IsDependents(nodes[..i], Ids(nodes), dependents)
    {
      var node := nodes[i];
      assert node.id in Ids(nodes);
      DegreesStep(nodes, i, Ids(nodes), inDegree);
      inDegree := CountEdges(inDegree, node);
      ghost var before := dependents;
      dependents := PushEntries(dependents, node.dependsOn, node.id);
      DependentsStep(nodes, i, Ids(nodes), before, dependents);
    }
    assert nodes[..|nodes|] == nodes;
    DegreesDone(nodes, inDegree);
  }

  // ----- after

  ghost predicate IsAfterDependents(nodes: seq<Node>, ids: set<Id>, index: Index) {
    index.Keys == ids && forall x | x in ids :: index[x] == AfterDependents(nodes, x)
  }

  ghost predicate IsAfterCounts(nodes: seq<Node>, ids: set<Id>, counts: map<Id, nat>) {
    counts.Keys == ids && forall x | x in ids :: counts[x] == AfterTotal(nodes, x)
  }

  lemma AfterDependentsStep(nodes: seq<Node>, i: nat, ids: set<Id>, index: Index, index': Index)
    requires i < |nodes| && IsAfterDependents(nodes[..i], ids, index)
    requires Pushed(index, index', nodes[i].after, nodes[i].id)
    ensures IsAfterDependents(nodes[..i + 1], ids, index')
  {
    hide AfterDependents, Entries;
    forall x | x in ids
      ensures index'[x] == AfterDependents(nodes[..i + 1], x)
    {
      FrontStep(nodes, i, x);
    }
  }

  lemma AfterCountsStep(nodes: seq<Node>, i: nat, ids: set<Id>, counts: map<Id, nat>)
    requires i < |nodes| && nodes[i].id in ids && IsAfterCounts(nodes[..i], ids, counts)
    ensures IsAfterCounts(nodes[..i + 1], ids, if nodes[i].after != [] then counts[nodes[i].id := |nodes[i].after|] else counts)
  {
    hide AfterTotal;
    forall x | x in ids
      ensures (if nodes[i].after != [] then counts[nodes[i].id := |nodes[i].after|] else counts)[x] == AfterTotal(nodes[..i + 1], x)
    {
      FrontStep(nodes, i, x);
    }
  }

  lemma PushNothing(index: Index, id: Id)
    ensures Pushed(index, index, [], id)
  {
  }

  lemma NoAfters(ids: set<Id>)
    ensures IsAfterCounts([], ids, map id | id in ids :: 0)
    ensures IsAfterDependents([], ids, map id | id in ids :: [])
  {
  }

  lemma AfterCountsDone(nodes: seq<Node>, counts: map<Id, nat>)
    requires IsAfterCounts(nodes, Ids(nodes), counts)
    ensures counts == AfterCount(nodes)
  {
  }

  method BuildAfters(nodes: seq<Node>) returns (afterPending: map<Id, nat>, afterDependents: Index)
    ensures afterPending == AfterCount(nodes)
    ensures IsAfterDependents(nodes, Ids(nodes), afterDependents)
  {
    hide IsAfterDependents, IsAfterCounts, Pushed, AfterCount, AfterTotal;
    afterDependents := map id | id in Ids(nodes) :: [];
    afterPending := map id | id in Ids(nodes) :: 0;
    NoAfters(Ids(nodes));
    for i := 0 to |nodes|
      invariant IsAfterCounts(nodes[..i], Ids(nodes), afterPending)
      invariant IsAfterDependents(nodes[..i], Ids(nodes), afterDependents)
    {
      var node := nodes[i];
      assert node.id in Ids(nodes);
      AfterCountsStep(nodes, i, Ids(nodes), afterPending);
      PushNothing(afterDependents, node.id);
      ghost var before := afterDependents;
      if node.after != [] {
        afterPending := afterPending[node.id := |node.after|];
        afterDependents := PushEntries(afterDependents, node.after, node.id);
      }
      AfterDependentsStep(nodes, i, Ids(nodes), before, afterDependents);
    }
    assert nodes[..|nodes|] == nodes;
    AfterCountsDone(nodes, afterPending);
  }
}
