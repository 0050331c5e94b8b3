/** Expansion is an unfolding of the graph: edges, cycles and prompts mean what they meant before. */
module Unfolding {
  import opened Wrappers
  import opened Dag
  import opened Graph
  import opened Cycle
  import opened Expand
  import FanOut
  import opened Template
  import TemplateExpand

  // ----- Where the expanded nodes come from

  lemma {:induction false} FromFan(nodes: seq<Node>, m: Node)
    ensures m in FanAll(nodes) <==> exists n :: n in nodes && m in Fan(n)
  {
    if nodes != [] {
      var front, last := nodes[..|nodes| - 1], nodes[|nodes| - 1];
      assert nodes == front + [last];
      FromFan(front, m);
    }
  }

  /** `u` is what becomes of `m`, a child of `n` or `n` itself. */
  ghost predicate Stems(nodes: seq<Node>, u: Node, m: Node, n: Node) {
    n in nodes && m in Fan(n) && u == Rewired(m, FansOf(nodes))
  }

  lemma ExpandedStems(nodes: seq<Node>, u: Node)
    ensures u in Expanded(nodes) <==> exists m, n :: Stems(nodes, u, m, n)
  {
    hide Rewired, Fan, FanAll, FansOf;
    var flat, fans := FanAll(nodes), FansOf(nodes);
    if u in Expanded(nodes) {
      var i :| 0 <= i < |flat| && AllRewired(flat, fans)[i] == u;
      FromFan(nodes, flat[i]);
      var n :| n in nodes && flat[i] in Fan(n);
      assert Stems(nodes, u, flat[i], n);
    }
    if m, n :| Stems(nodes, u, m, n) {
      FromFan(nodes, m);
      var i :| 0 <= i < |flat| && flat[i] == m;
      assert AllRewired(flat, fans)[i] == u;
    }
  }

  lemma RewiredId(m: Node, fans: Fans)
    ensures Rewired(m, fans).id == m.id
  {
  }

  /** Nodes of different fans have different ids, if all expanded ids are different. */
  lemma {:induction false} FansApart(nodes: seq<Node>, i: nat, j: nat, a: Node, b: Node)
    requires UniqueIds(FanAll(nodes)) && i < j < |nodes|
    requires a in Fan(nodes[i]) && b in Fan(nodes[j])
    ensures a.id != b.id
  {
    hide Fan;
    var front, last := nodes[..|nodes| - 1], nodes[|nodes| - 1];
    var before, rest := FanAll(front), Fan(last);
    UniqueParts(before, rest);
    if j == |nodes| - 1 {
      FromFan(front, a);
      assert front[i] == nodes[i];
      assert a in before;
    } else {
      assert front[i] == nodes[i] && front[j] == nodes[j];
      FansApart(front, i, j, a, b);
    }
  }

  lemma UniqueParts(a: seq<Node>, b: seq<Node>)
    requires UniqueIds(a + b)
    ensures UniqueIds(a) && forall x, y | x in a && y in b :: x.id != y.id
  {
    var all := a + b;
    assert forall i | 0 <= i < |a| :: all[i] == a[i];
    assert forall i | 0 <= i < |b| :: all[|a| + i] == b[i];
    forall x, y | x in a && y in b
      ensures x.id != y.id
    {
      var i :| 0 <= i < |a| && a[i] == x;
      var j :| 0 <= j < |b| && b[j] == y;
      assert all[i].id != all[|a| + j].id;
    }
  }

  lemma UniqueFlat(nodes: seq<Node>)
    requires UniqueIds(Expanded(nodes))
    ensures UniqueIds(FanAll(nodes))
  {
    hide FanAll, FansOf, Rewired;
    var flat, fans := FanAll(nodes), FansOf(nodes);
    forall i, j | 0 <= i < j < |flat|
      ensures flat[i].id != flat[j].id
    {
      RewiredId(flat[i], fans);
      RewiredId(flat[j], fans);
      assert AllRewired(flat, fans)[i].id != AllRewired(flat, fans)[j].id;
    }
  }

  /** One id, one origin. */
  lemma SameOrigin(nodes: seq<Node>, n1: Node, n2: Node, m1: Node, m2: Node)
    requires UniqueIds(FanAll(nodes)) && n1 in nodes && n2 in nodes
    requires m1 in Fan(n1) && m2 in Fan(n2) && m1.id == m2.id
    ensures n1 == n2
  {
    hide Fan, FanAll;
    var i :| 0 <= i < |nodes| && nodes[i] == n1;
    var j :| 0 <= j < |nodes| && nodes[j] == n2;
    if i < j {
      FansApart(nodes, i, j, m1, m2);
    } else if j < i {
      FansApart(nodes, j, i, m2, m1);
    }
  }

  // ----- References

  /** What a reference becomes. */
  ghost predicate RefersTo(fans: Fans, r: Id, x: Id) {
    if r in fans then x in fans[r] else x == r
  }

  lemma {:induction false} RefListHas(list: seq<Id>, fans: Fans, x: Id)
    ensures x in RefList(list, fans) <==> exists r :: r in list && RefersTo(fans, r, x)
  {
    if list != [] {
      var front, last := list[..|list| - 1], list[|list| - 1];
      assert list == front + [last];
      assert forall r :: r in list <==> r in front || r == last;
      RefListHas(front, fans, x);
      assert x in RefList(list, fans) <==> x in RefList(front, fans) || RefersTo(fans, last, x);
    }
  }

  lemma {:induction false} AddMissingHas(list: seq<Id>, ids: seq<Id>, x: Id)
    ensures x in AddMissing(list, ids) <==> x in list || x in ids
    decreases ids
  {
    if ids != [] {
      assert ids == [ids[0]] + ids[1..];
      AddMissingHas(if ids[0] in list then list else list + [ids[0]], ids[1..], x);
    }
  }

  lemma {:induction false} FansAt(nodes: seq<Node>, n: Node)
    requires UniqueIds(nodes) && n in nodes
    ensures n.id in FansOf(nodes) <==> n.forEach.Some?
    ensures n.forEach.Some? ==> FansOf(nodes)[n.id] == FanIds(n)
  {
    hide FanIds;
    var front, last := nodes[..|nodes| - 1], nodes[|nodes| - 1];
    assert nodes == front + [last];
    UniqueParts(front, [last]);
    if n in front {
      FansAt(front, n);
    } else {
      NoFan(front, n.id);
    }
  }

  lemma {:induction false} NoFan(nodes: seq<Node>, id: Id)
    requires forall n | n in nodes :: n.id != id
    ensures id !in FansOf(nodes)
  {
    if nodes != [] {
      NoFan(nodes[..|nodes| - 1], id);
    }
  }

  lemma FanMember(n: Node, m: Node)
    requires m in Fan(n)
    ensures if n.forEach.Some? then m.id in FanIds(n) else m == n
  {
    if n.forEach.Some? {
      var i :| 0 <= i < |Fan(n)| && Fan(n)[i] == m;
      assert m.id == FanIds(n)[i];
    }
  }

  lemma FanMemberOf(n: Node, id: Id)
    requires if n.forEach.Some? then id in FanIds(n) else id == n.id
    ensures exists m :: m in Fan(n) && m.id == id
  {
    if n.forEach.Some? {
      var i :| 0 <= i < |FanIds(n)| && FanIds(n)[i] == id;
      assert Fan(n)[i].id == id && Fan(n)[i] in Fan(n);
    } else {
      assert n in Fan(n);
    }
  }

  /** A reference to a node becomes a reference to an expanded node exactly when that stems from it. */
  lemma RefersToOrigin(nodes: seq<Node>, r: Id, m2: Node, n2: Node)
    requires UniqueIds(nodes) && UniqueIds(FanAll(nodes))
    requires n2 in nodes && m2 in Fan(n2) && r in Ids(nodes)
    ensures RefersTo(FansOf(nodes), r, m2.id) <==> r == n2.id
  {
    hide Fan, FanAll, FanIds, FansOf, UniqueIds;
    FansAt(nodes, n2);
    FanMember(n2, m2);
    var n3 :| n3 in nodes && n3.id == r;
    FansAt(nodes, n3);
    if RefersTo(FansOf(nodes), r, m2.id) {
      FanMemberOf(n3, m2.id);
      var m3 :| m3 in Fan(n3) && m3.id == m2.id;
      SameOrigin(nodes, n3, n2, m3, m2);
    }
  }

  lemma ListOrigin(nodes: seq<Node>, list: seq<Id>, m2: Node, n2: Node)
    requires UniqueIds(nodes) && UniqueIds(FanAll(nodes))
    requires n2 in nodes && m2 in Fan(n2) && forall r | r in list :: r in Ids(nodes)
    ensures m2.id in RefList(list, FansOf(nodes)) <==> n2.id in list
  {
    hide UniqueIds, FanAll, Fan, FansOf, RefersTo, Ids;
    RefListHas(list, FansOf(nodes), m2.id);
    forall r | r in list
      ensures RefersTo(FansOf(nodes), r, m2.id) <==> r == n2.id
    {
      RefersToOrigin(nodes, r, m2, n2);
    }
  }

  function QuorumOf(n: Node): seq<Id> {
    match n.quorum
    case None => []
    case Some(q) => q.of
  }

  /** All references of the authored graph name its nodes. */
  ghost predicate RefsKnown(nodes: seq<Node>) {
    forall n, r | n in nodes && (Edge(n, r) || r in QuorumOf(n)) :: r in Ids(nodes)
  }

  lemma FanKeepsEdges(n: Node, m: Node)
    requires m in Fan(n)
    ensures m.dependsOn == n.dependsOn && m.after == n.after && m.quorum == n.quorum
  {
    if n.forEach.Some? {
      var i :| 0 <= i < |Fan(n)| && Fan(n)[i] == m;
    }
  }

  /**
   The unfolding: one expanded node depends on another exactly when its origin depended on the other's,
   counts it in a quorum exactly when its origin did, and is ordered after it exactly when its origin was, or counted it.
   */
  lemma ExpansionUnfolds(nodes: seq<Node>, u: Node, m1: Node, n1: Node, v: Node, m2: Node, n2: Node)
    requires UniqueIds(nodes) && RefsKnown(nodes) && UniqueIds(Expanded(nodes))
    requires Stems(nodes, u, m1, n1) && Stems(nodes, v, m2, n2)
    ensures v.id in u.dependsOn <==> n2.id in n1.dependsOn
    ensures v.id in u.after <==> n2.id in n1.after || n2.id in QuorumOf(n1)
    ensures v.id in QuorumOf(u) <==> n2.id in QuorumOf(n1)
  {
    hide UniqueIds, FanAll, Fan, FansOf, Expanded, RefList, Ids, TemplateExpand.ExpandRefs;
    var fans := FansOf(nodes);
    UniqueFlat(nodes);
    FanKeepsEdges(n1, m1);
    RewiredId(m2, fans);
    RefsOfNode(nodes, n1);
    ListOrigin(nodes, n1.dependsOn, m2, n2);
    ListOrigin(nodes, n1.after, m2, n2);
    ListOrigin(nodes, QuorumOf(n1), m2, n2);
    AddMissingHas(RefList(m1.after, fans), RefList(QuorumOf(m1), fans), v.id);
  }

  lemma RefsOfNode(nodes: seq<Node>, n: Node)
    requires RefsKnown(nodes) && n in nodes
    ensures forall r | r in n.dependsOn :: r in Ids(nodes)
    ensures forall r | r in n.after :: r in Ids(nodes)
    ensures forall r | r in QuorumOf(n) :: r in Ids(nodes)
  {
    hide Ids;
    assert forall r | r in n.dependsOn || r in n.after :: Edge(n, r);
  }

  // ----- Cycles

  /** The authored graph's edges of all three kinds. */
  function OriginEdges(nodes: seq<Node>): Edges<Id> {
    map id | id in Ids(nodes) :: var n := GetNode(nodes, id).value; n.dependsOn + n.after + QuorumOf(n)
  }

  /** The id's node, or its first child. */
  function Lift(nodes: seq<Node>, id: Id): Id {
    match GetNode(nodes, id)
    case None => id
    case Some(n) => if Fan(n) == [] then id else Fan(n)[0].id
  }

  ghost predicate Premises(nodes: seq<Node>) {
    UniqueIds(nodes) && RefsKnown(nodes) && UniqueIds(Expanded(nodes)) && forall n | n in nodes :: !EmptyFan(n)
  }

  lemma FanNotEmpty(nodes: seq<Node>, n: Node)
    requires n in nodes && !EmptyFan(n)
    ensures Fan(n) != [] && Stems(nodes, Rewired(Fan(n)[0], FansOf(nodes)), Fan(n)[0], n)
  {
    hide FansOf, Rewired;
    assert Fan(n)[0] in Fan(n);
  }

  /** Edges between expanded nodes are edges between their origins. */
  lemma EdgesUnfold(nodes: seq<Node>, u: Node, m1: Node, n1: Node, v: Node, m2: Node, n2: Node)
    requires Premises(nodes) && Stems(nodes, u, m1, n1) && Stems(nodes, v, m2, n2)
    ensures v.id in Succ(AllEdges(Expanded(nodes)), u.id) <==> n2.id in Succ(OriginEdges(nodes), n1.id)
  {
    hide Expanded, FansOf, Fan, Rewired, UniqueIds, RefsKnown, Succ;
    ExpandedStems(nodes, u);
    OwnEdges(Expanded(nodes), u);
    GetOwnNode(nodes, n1);
    OriginSucc(nodes, n1);
    ExpansionUnfolds(nodes, u, m1, n1, v, m2, n2);
  }

  lemma OriginSucc(nodes: seq<Node>, n: Node)
    requires n in nodes && GetNode(nodes, n.id) == Some(n)
    ensures forall r :: r in Succ(OriginEdges(nodes), n.id) <==> Edge(n, r) || r in QuorumOf(n)
  {
    assert n.id in Ids(nodes);
    assert Succ(OriginEdges(nodes), n.id) == n.dependsOn + n.after + QuorumOf(n);
  }

  /** The node of the authored graph behind an id of the expanded one. */
  lemma Behind(nodes: seq<Node>, id: Id) returns (u: Node, m: Node, n: Node)
    requires id in Ids(Expanded(nodes))
    ensures Stems(nodes, u, m, n) && u.id == id
  {
    hide Expanded, Stems;
    u :| u in Expanded(nodes) && u.id == id;
    ExpandedStems(nodes, u);
    m, n :| Stems(nodes, u, m, n);
  }

  lemma HopFrom(g: Edges<Id>, p: seq<Id>, i: nat)
    requires i + 1 < |p| && Hop(g, p, i)
    ensures p[i] in g
  {
  }

  /** `x` is the id of an expanded node that stems from `y`. */
  ghost predicate StandsFor(nodes: seq<Node>, x: Id, y: Id) {
    exists u, m, n :: Stems(nodes, u, m, n) && u.id == x && n.id == y
  }

  lemma WalkOrigins(nodes: seq<Node>, q: seq<Id>) returns (p: seq<Id>)
    requires Premises(nodes) && Walk(AllEdges(Expanded(nodes)), q) && forall x | x in q :: x in Ids(Expanded(nodes))
    ensures |p| == |q| && Walk(OriginEdges(nodes), p)
    ensures forall i | 0 <= i < |q| :: StandsFor(nodes, q[i], p[i])
  {
    hide Premises, Stems, AllEdges, OriginEdges, Expanded, Ids, Succ;
    p := [];
    while |p| < |q|
      invariant |p| <= |q| && Walk(OriginEdges(nodes), p)
      invariant forall i | 0 <= i < |p| :: StandsFor(nodes, q[i], p[i])
    {
      var k := |p|;
      assert q[k] in q;
      var v, m2, n2 := Behind(nodes, q[k]);
      if k > 0 {
        assert StandsFor(nodes, q[k - 1], p[k - 1]);
        var u, m1, n1 :| Stems(nodes, u, m1, n1) && u.id == q[k - 1] && n1.id == p[k - 1];
        assert Hop(AllEdges(Expanded(nodes)), q, k - 1);
        EdgesUnfold(nodes, u, m1, n1, v, m2, n2);
      }
      assert StandsFor(nodes, q[k], n2.id);
      WalkSnoc(OriginEdges(nodes), p, n2.id);
      p := p + [n2.id];
    }
    assert |p| == |q|;
  }

  /** A cycle of the expanded graph is one of the authored graph. */
  lemma CycleComesDown(nodes: seq<Node>)
    requires Premises(nodes) && Cyclic(AllEdges(Expanded(nodes)))
    ensures Cyclic(OriginEdges(nodes))
  {
    hide Premises, AllEdges, OriginEdges, Expanded, Stems, Succ;
    var g := AllEdges(Expanded(nodes));
    var q :| |q| >= 2 && Walk(g, q) && q[0] == q[|q| - 1];
    CycleIds(nodes, q);
    var p := WalkOrigins(nodes, q);
    assert StandsFor(nodes, q[0], p[0]) && StandsFor(nodes, q[|q| - 1], p[|q| - 1]);
    var u1, m1, n1 :| Stems(nodes, u1, m1, n1) && u1.id == q[0] && n1.id == p[0];
    var u2, m2, n2 :| Stems(nodes, u2, m2, n2) && u2.id == q[|q| - 1] && n2.id == p[|q| - 1];
    SameStem(nodes, u1, m1, n1, u2, m2, n2);
  }

  lemma CycleIds(nodes: seq<Node>, q: seq<Id>)
    requires Walk(AllEdges(Expanded(nodes)), q) && |q| >= 2 && q[0] == q[|q| - 1]
    ensures forall x | x in q :: x in Ids(Expanded(nodes))
  {
    hide Expanded;
    forall i | 0 <= i < |q|
      ensures q[i] in Ids(Expanded(nodes))
    {
      var k := if i == |q| - 1 then 0 else i;
      assert Hop(AllEdges(Expanded(nodes)), q, k);
    }
  }

  lemma SameStem(nodes: seq<Node>, u1: Node, m1: Node, n1: Node, u2: Node, m2: Node, n2: Node)
    requires Premises(nodes) && Stems(nodes, u1, m1, n1) && Stems(nodes, u2, m2, n2) && u1.id == u2.id
    ensures n1 == n2
  {
    hide Expanded, FansOf, Fan, UniqueIds, RefsKnown, FanAll;
    UniqueFlat(nodes);
    RewiredId(m1, FansOf(nodes));
    RewiredId(m2, FansOf(nodes));
    SameOrigin(nodes, n1, n2, m1, m2);
  }

  function Lifted(nodes: seq<Node>, p: seq<Id>): seq<Id> {
    seq(|p|, i requires 0 <= i < |p| => Lift(nodes, p[i]))
  }

  lemma LiftStems(nodes: seq<Node>, n: Node)
    requires Premises(nodes) && n in nodes
    ensures Fan(n) != [] && Stems(nodes, Rewired(Fan(n)[0], FansOf(nodes)), Fan(n)[0], n)
    ensures Rewired(Fan(n)[0], FansOf(nodes)).id == Lift(nodes, n.id)
  {
    hide Fan, FansOf, Expanded, RefsKnown, UniqueIds, Rewired;
    GetOwnNode(nodes, n);
    FanNotEmpty(nodes, n);
    RewiredId(Fan(n)[0], FansOf(nodes));
  }

  lemma HopLifts(nodes: seq<Node>, p: seq<Id>, i: nat)
    requires Premises(nodes) && i + 1 < |p| && Hop(OriginEdges(nodes), p, i)
    ensures Hop(AllEdges(Expanded(nodes)), Lifted(nodes, p), i)
  {
    hide Fan, FansOf, Expanded, Rewired, Lift, Stems;
    HopFrom(OriginEdges(nodes), p, i);
    var n1 := GetNode(nodes, p[i]).value;
    OriginSuccKnown(nodes, n1, p[i + 1]);
    var n2 := GetNode(nodes, p[i + 1]).value;
    LiftStems(nodes, n1);
    LiftStems(nodes, n2);
    EdgesUnfold(nodes, Rewired(Fan(n1)[0], FansOf(nodes)), Fan(n1)[0], n1, Rewired(Fan(n2)[0], FansOf(nodes)), Fan(n2)[0], n2);
  }

  lemma OriginSuccKnown(nodes: seq<Node>, n: Node, r: Id)
    requires Premises(nodes) && n in nodes && r in Succ(OriginEdges(nodes), n.id)
    ensures r in Ids(nodes)
  {
    hide Expanded, Succ, OriginEdges;
    GetOwnNode(nodes, n);
    OriginSucc(nodes, n);
  }

  lemma CycleGoesUp(nodes: seq<Node>)
    requires Premises(nodes) && Cyclic(OriginEdges(nodes))
    ensures Cyclic(AllEdges(Expanded(nodes)))
  {
    hide Premises, AllEdges, OriginEdges, Expanded, Succ, Lift;
    var p :| |p| >= 2 && Walk(OriginEdges(nodes), p) && p[0] == p[|p| - 1];
    var q := Lifted(nodes, p);
    forall i | 0 <= i < |q| - 1
      ensures Hop(AllEdges(Expanded(nodes)), q, i)
    {
      assert Hop(OriginEdges(nodes), p, i);
      HopLifts(nodes, p, i);
    }
    assert |q| >= 2 && Walk(AllEdges(Expanded(nodes)), q) && q[0] == q[|q| - 1];
  }

  /** The expanded graph has a cycle if and only if the authored one has, quorum edges counted. */
  lemma CyclicIffOriginCyclic(nodes: seq<Node>)
    requires Premises(nodes)
    ensures Cyclic(AllEdges(Expanded(nodes))) <==> Cyclic(OriginEdges(nodes))
  {
    hide Premises, Cyclic;
    if Cyclic(AllEdges(Expanded(nodes))) {
      CycleComesDown(nodes);
    }
    if Cyclic(OriginEdges(nodes)) {
      CycleGoesUp(nodes);
    }
  }

  // ----- Expanding twice

  /** Nothing left to expand, and every quorum is wired. */
  ghost predicate Flat(nodes: seq<Node>) {
    forall n | n in nodes :: n.forEach == None && forall r | r in QuorumOf(n) :: r in n.after
  }

  lemma FanHasNoForEach(n: Node, m: Node)
    requires m in Fan(n)
    ensures m.forEach == None
  {
    if n.forEach.Some? {
      var i :| 0 <= i < |Fan(n)| && Fan(n)[i] == m;
    }
  }

  lemma RewiredIsFlat(m: Node, fans: Fans)
    requires m.forEach == None
    ensures Rewired(m, fans).forEach == None
    ensures forall r | r in QuorumOf(Rewired(m, fans)) :: r in Rewired(m, fans).after
  {
    hide RefList, TemplateExpand.ExpandRefs;
    forall r | r in QuorumOf(Rewired(m, fans))
      ensures r in Rewired(m, fans).after
    {
      AddMissingHas(RefList(m.after, fans), RefList(QuorumOf(m), fans), r);
    }
  }

  /** Expanded graphs have no fan-outs, and their quorums wait for what they count. */
  lemma ExpandedIsFlat(nodes: seq<Node>)
    ensures Flat(Expanded(nodes))
  {
    hide Fan, FansOf, Expanded, Rewired;
    forall u | u in Expanded(nodes)
      ensures u.forEach == None && forall r | r in QuorumOf(u) :: r in u.after
    {
      ExpandedStems(nodes, u);
      var m, n :| Stems(nodes, u, m, n);
      FanHasNoForEach(n, m);
      RewiredIsFlat(m, FansOf(nodes));
    }
  }

  lemma {:induction false} FlatFans(nodes: seq<Node>)
    requires Flat(nodes)
    ensures FanAll(nodes) == nodes && FansOf(nodes) == map[]
  {
    if nodes != [] {
      var front, last := nodes[..|nodes| - 1], nodes[|nodes| - 1];
      assert nodes == front + [last];
      FlatFans(front);
    }
  }

  lemma {:induction false} NoRewriting(list: seq<Id>)
    ensures RefList(list, map[]) == list
  {
    if list != [] {
      NoRewriting(list[..|list| - 1]);
    }
  }

  lemma {:induction false} NothingMissing(list: seq<Id>, ids: seq<Id>)
    requires forall r | r in ids :: r in list
    ensures AddMissing(list, ids) == list
    decreases ids
  {
    if ids != [] {
      assert ids[0] in ids;
      NothingMissing(list, ids[1..]);
    }
  }

  lemma RewiredOfFlat(n: Node)
    requires forall r | r in QuorumOf(n) :: r in n.after
    ensures Rewired(n, map[]) == n
  {
    hide RefList, AddMissing, TemplateExpand.ExpandRefs;
    NoRewriting(n.dependsOn);
    NoRewriting(n.after);
    NoRewriting(QuorumOf(n));
    NothingMissing(n.after, QuorumOf(n));
    TemplateExpand.NothingToExpand(n.prompt, map[]);
  }

  /** A second expansion is accepted and changes nothing. */
  lemma ExpandingTwice(nodes: seq<Node>)
    ensures var out := Expanded(nodes);
      Expandable(out) && Expanded(out) == out
  {
    hide Expanded;
    ExpandedIsFlat(nodes);
    FlatIsExpanded(Expanded(nodes));
  }

  /** Expansion accepts a graph without fan-outs whose quorums are wired, and leaves it alone. */
  lemma FlatIsExpanded(out: seq<Node>)
    requires Flat(out)
    ensures Expandable(out) && Expanded(out) == out
  {
    hide Expanded, Rewired;
    FlatFans(out);
    forall n | n in out
      ensures Rewired(n, map[]) == n
    {
      RewiredOfFlat(n);
    }
    OnceMore(out);
  }

  lemma OnceMore(out: seq<Node>)
    requires FanAll(out) == out && FansOf(out) == map[] && forall n | n in out :: Rewired(n, map[]) == n
    ensures Expanded(out) == out
  {
    hide FanAll, FansOf, Rewired;
    assert AllRewired(out, map[]) == out;
  }

  // ----- Prompts

  lemma {:induction false} FansAreNamed(nodes: seq<Node>)
    requires forall n | n in nodes :: !EmptyFan(n)
    ensures TemplateExpand.ChildFans(FansOf(nodes))
  {
    if nodes != [] {
      var front, last := nodes[..|nodes| - 1], nodes[|nodes| - 1];
      assert nodes == front + [last];
      FansAreNamed(front);
      if last.forEach.Some? {
        FanOut.ChildrenAreNamed(last.id, last.forEach.value);
        assert last in nodes && last.forEach.value != [];
        assert FanIds(last) != [];
      }
    }
  }

  /**
   Filling in the prompt of an expanded node is filling in the one it stems from, with each reference to
   a fan-out read as the outputs of its children, in item order.
   */
  lemma ExpandedPromptMeans(nodes: seq<Node>, u: Node, m: Node, n: Node, outs: Outputs)
    requires Stems(nodes, u, m, n) && forall k | k in nodes :: !EmptyFan(k)
    ensures Interpolate(u.prompt, outs) == TemplateExpand.RenderFans(Parse(m.prompt), FansOf(nodes), outs)
  {
    hide TemplateExpand.ExpandRefs, FansOf, Fan;
    FansAreNamed(nodes);
    TemplateExpand.ExpansionKeepsMeaning(m.prompt, FansOf(nodes), outs);
  }
}
