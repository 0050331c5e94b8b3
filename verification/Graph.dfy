/** Finite graphs: walks, cycles, and the orders that acyclic graphs have. */
module Graph {
  /** The outgoing edges of each node. */
  type Edges<T> = map<T, seq<T>>

  function Succ<T(!new)>(g: Edges<T>, x: T): seq<T> {
    if x in g then g[x] else []
  }

  ghost predicate Hop<T(!new)>(g: Edges<T>, p: seq<T>, i: nat)
    requires i + 1 < |p|
  {
    p[i + 1] in Succ(g, p[i])
  }

  ghost predicate Walk<T(!new)>(g: Edges<T>, p: seq<T>) {
    forall i | 0 <= i < |p| - 1 :: Hop(g, p, i)
  }

  ghost predicate Cyclic<T(!new)>(g: Edges<T>) {
    exists p :: |p| >= 2 && Walk(g, p) && p[0] == p[|p| - 1]
  }

  /** Every element of the list comes after its successors in `s`. */
  ghost predicate Ordered<T(!new)>(g: Edges<T>, s: set<T>, order: seq<T>) {
    forall i, y | 0 <= i < |order| && y in Succ(g, order[i]) && y in s :: y in order[..i]
  }

  ghost predicate Distinct<T(!new)>(s: seq<T>) {
    forall i, j | 0 <= i < j < |s| :: s[i] != s[j]
  }

  // ----- An order excludes cycles

  /** Every edge of a node in the list leads to an earlier element. */
  ghost predicate Closing<T(!new)>(g: Edges<T>, order: seq<T>) {
    forall i, y | 0 <= i < |order| && y in Succ(g, order[i]) :: y in order[..i]
  }

  /** A walk from an element of such an order moves towards its beginning. */
  lemma {:induction false} WalkDescends<T(!new)>(g: Edges<T>, order: seq<T>, p: seq<T>, i: nat)
    requires Closing(g, order) && Walk(g, p) && |p| >= 2
    requires i < |order| && order[i] == p[0]
    ensures p[|p| - 1] in order[..i]
    decreases |p|
  {
    assert Hop(g, p, 0);
    var j :| 0 <= j < i && order[j] == p[1];
    if |p| > 2 {
      WalkTail(g, p);
      WalkDescends(g, order, p[1..], j);
      assert order[..i][..j] == order[..j];
    }
  }

  lemma WalkTail<T(!new)>(g: Edges<T>, p: seq<T>)
    requires Walk(g, p) && |p| >= 1
    ensures Walk(g, p[1..])
  {
    forall i | 0 <= i < |p[1..]| - 1
      ensures Hop(g, p[1..], i)
    {
      assert Hop(g, p, i + 1);
    }
  }

  lemma OrderIsAcyclic<T(!new)>(g: Edges<T>, order: seq<T>)
    requires Closing(g, order) && Distinct(order)
    requires forall x | x in g && g[x] != [] :: x in order
    ensures !Cyclic(g)
  {
    if Cyclic(g) {
      var p :| |p| >= 2 && Walk(g, p) && p[0] == p[|p| - 1];
      assert Hop(g, p, 0);
      var i :| 0 <= i < |order| && order[i] == p[0];
      WalkDescends(g, order, p, i);
    }
  }

  // ----- A set in which everything has a successor contains a cycle

  ghost predicate LeadsInto<T(!new)>(g: Edges<T>, s: set<T>, x: T) {
    exists y :: y in Succ(g, x) && y in s
  }

  ghost predicate NoSink<T(!new)>(g: Edges<T>, s: set<T>) {
    forall x {:trigger LeadsInto(g, s, x)} | x in s :: LeadsInto(g, s, x)
  }

  lemma SuccInside<T(!new)>(g: Edges<T>, s: set<T>, x: T) returns (y: T)
    requires NoSink(g, s) && x in s
    ensures y in Succ(g, x) && y in s
  {
    assert LeadsInto(g, s, x);
    y :| y in Succ(g, x) && y in s;
  }

  lemma {:induction false} LongWalk<T(!new)>(g: Edges<T>, s: set<T>, start: T, n: nat) returns (p: seq<T>)
    requires NoSink(g, s) && start in s
    ensures |p| == n + 1 && Walk(g, p) && p[0] == start && forall x | x in p :: x in s
  {
    hide NoSink, Walk, Succ;
    if n == 0 {
      p := [start];
      WalkOne(g, start);
    } else {
      var y := SuccInside(g, s, start);
      var q := LongWalk(g, s, y, n - 1);
      WalkCons(g, start, q);
      p := [start] + q;
    }
  }

  lemma WalkOne<T(!new)>(g: Edges<T>, x: T)
    ensures Walk(g, [x])
  {
  }

  lemma WalkCons<T(!new)>(g: Edges<T>, x: T, p: seq<T>)
    requires Walk(g, p) && p != [] && p[0] in Succ(g, x)
    ensures Walk(g, [x] + p)
  {
    var q := [x] + p;
    forall i | 0 <= i < |q| - 1
      ensures Hop(g, q, i)
    {
      if i > 0 {
        assert Hop(g, p, i - 1);
      }
    }
  }

  lemma {:induction false} Pigeonhole<T(!new)>(p: seq<T>, s: set<T>)
    requires Distinct(p) && forall x | x in p :: x in s
    ensures |p| <= |s|
  {
    if p != [] {
      var last := p[|p| - 1];
      assert last in p;
      Pigeonhole(p[..|p| - 1], s - {last});
    }
  }

  lemma WalkSlice<T(!new)>(g: Edges<T>, p: seq<T>, i: nat, j: nat)
    requires Walk(g, p) && i <= j <= |p|
    ensures Walk(g, p[i..j])
  {
    forall k | 0 <= k < j - i - 1
      ensures Hop(g, p[i..j], k)
    {
      assert Hop(g, p, i + k);
    }
  }

  lemma NoSinkIsCyclic<T(!new)>(g: Edges<T>, s: set<T>)
    requires NoSink(g, s) && s != {}
    ensures Cyclic(g)
  {
    hide Walk, NoSink;
    var start :| start in s;
    var p := LongWalk(g, s, start, |s|);
    if Distinct(p) {
      Pigeonhole(p, s);
    }
    var i, j :| 0 <= i < j < |p| && p[i] == p[j];
    WalkSlice(g, p, i, j + 1);
    var q := p[i..j + 1];
    assert |q| >= 2 && q[0] == q[|q| - 1];
  }

  // ----- Acyclic graphs have an order

  lemma {:induction false} AcyclicOrder<T(!new)>(g: Edges<T>, s: set<T>) returns (order: seq<T>)
    requires !Cyclic(g)
    ensures Distinct(order) && Ordered(g, s, order) && forall x :: x in order <==> x in s
    decreases |s|
  {
    hide Cyclic, Succ;
    if s == {} {
      order := [];
    } else {
      if NoSink(g, s) {
        NoSinkIsCyclic(g, s);
      }
      var x :| x in s && !LeadsInto(g, s, x);
      var rest := AcyclicOrder(g, s - {x});
      order := [x] + rest;
      FirstFits(g, s, rest, x);
    }
  }

  lemma FirstFits<T(!new)>(g: Edges<T>, s: set<T>, rest: seq<T>, x: T)
    requires x in s && !LeadsInto(g, s, x)
    requires Ordered(g, s - {x}, rest)
    ensures Ordered(g, s, [x] + rest)
  {
    hide Succ;
    var order := [x] + rest;
    forall i, y | 0 <= i < |order| && y in Succ(g, order[i]) && y in s
      ensures y in order[..i]
    {
      assert order[0] == x;
      assert i > 0;
      assert order[i] == rest[i - 1] && order[..i] == [x] + rest[..i - 1];
      if y != x {
        assert y in s - {x} && y in Succ(g, rest[i - 1]);
        assert y in rest[..i - 1];
      } else {
        assert order[..i][0] == x;
      }
    }
  }

  lemma {:induction false} SubsetSize<T(!new)>(a: set<T>, b: set<T>)
    requires a <= b
    ensures |a| <= |b|
  {
    if a != {} {
      var x :| x in a;
      SubsetSize(a - {x}, b - {x});
    }
  }
}
