/** Round-robin over projects: one entry of each, sweep after sweep. */
module Carousel {

  /** Entry `row` of a project. */
  datatype Pos = Pos(row: nat, project: nat)

  predicate Exists<T>(p: seq<seq<T>>, x: Pos) {
    x.project < |p| && x.row < |p[x.project]|
  }

  /** The order of the carousel: by row, then by project. */
  predicate Before(x: Pos, y: Pos) {
    x.row < y.row || (x.row == y.row && x.project < y.project)
  }

  predicate AllExist<T>(p: seq<seq<T>>, at: seq<Pos>) {
    forall j | 0 <= j < |at| :: Exists(p, at[j])
  }

  /** Row `k` of the projects before `i`. */
  function RowOf<T>(p: seq<seq<T>>, k: nat, i: nat): (r: seq<Pos>)
    requires i <= |p|
    ensures AllExist(p, r) && forall j | 0 <= j < |r| :: r[j].row == k && r[j].project < i
  {
    if i == 0 then [] else RowOf(p, k, i - 1) + if k < |p[i - 1]| then [Pos(k, i - 1)] else []
  }

  /** The first `n` rows, one after the other. */
  function Rows<T>(p: seq<seq<T>>, n: nat): (r: seq<Pos>)
    ensures AllExist(p, r) && forall j | 0 <= j < |r| :: r[j].row < n
  {
    if n == 0 then [] else Rows(p, n - 1) + RowOf(p, n - 1, |p|)
  }

  function Longest<T>(p: seq<seq<T>>): (n: nat)
    ensures forall i | 0 <= i < |p| :: |p[i]| <= n
  {
    if p == [] then 0
    else
      var rest := Longest(p[..|p| - 1]);
      assert forall i | 0 <= i < |p| - 1 :: p[i] == p[..|p| - 1][i];
      if |p[|p| - 1]| > rest then |p[|p| - 1]| else rest
  }

  /** The entries at a list of positions. */
  function Pick<T>(p: seq<seq<T>>, at: seq<Pos>): seq<T>
    requires AllExist(p, at)
  {
    seq(|at|, j requires 0 <= j < |at| => p[at[j].project][at[j].row])
  }

  function Interleaved<T>(p: seq<seq<T>>): seq<T> {
    Pick(p, Rows(p, Longest(p)))
  }

  // ----- What the order is

  ghost predicate InOrder(at: seq<Pos>) {
    forall i, j | 0 <= i < j < |at| :: Before(at[i], at[j])
  }

  lemma {:induction false} RowIsComplete<T>(p: seq<seq<T>>, k: nat, i: nat)
    requires i <= |p|
    ensures InOrder(RowOf(p, k, i))
    ensures forall j | 0 <= j < i && k < |p[j]| :: Pos(k, j) in RowOf(p, k, i)
  {
    if i > 0 {
      RowIsComplete(p, k, i - 1);
    }
  }

  lemma OrderJoins(a: seq<Pos>, b: seq<Pos>, n: nat)
    requires InOrder(a) && InOrder(b)
    requires (forall j | 0 <= j < |a| :: a[j].row < n) && forall j | 0 <= j < |b| :: b[j].row == n
    ensures InOrder(a + b)
  {
  }

  lemma {:induction false} RowsInOrder<T>(p: seq<seq<T>>, n: nat)
    ensures InOrder(Rows(p, n))
  {
    hide RowOf, AllExist;
    if n > 0 {
      RowsInOrder(p, n - 1);
      RowIsComplete(p, n - 1, |p|);
      OrderJoins(Rows(p, n - 1), RowOf(p, n - 1, |p|), n - 1);
    }
  }

  lemma {:induction false} RowsHave<T>(p: seq<seq<T>>, n: nat, x: Pos)
    requires Exists(p, x) && x.row < n
    ensures x in Rows(p, n)
  {
    hide RowOf, AllExist;
    if x.row == n - 1 {
      RowIsComplete(p, n - 1, |p|);
      assert x == Pos(n - 1, x.project);
    } else {
      RowsHave(p, n - 1, x);
    }
  }

  /** Every entry of every project appears exactly once, by row and then by project. */
  lemma InterleavingIsComplete<T>(p: seq<seq<T>>)
    ensures var at := Rows(p, Longest(p));
      InOrder(at) && (forall x: Pos :: x in at <==> Exists(p, x)) && |Interleaved(p)| == |at|
  {
    hide Rows, Longest;
    RowsInOrder(p, Longest(p));
    forall x: Pos | Exists(p, x)
      ensures x in Rows(p, Longest(p))
    {
      RowsHave(p, Longest(p), x);
    }
  }

  lemma {:induction false} EmptyRow<T>(p: seq<seq<T>>, k: nat, i: nat)
    requires i <= |p| && forall j | 0 <= j < |p| :: |p[j]| <= k
    ensures RowOf(p, k, i) == []
  {
    hide AllExist;
    if i > 0 {
      EmptyRow(p, k, i - 1);
    }
  }

  lemma {:induction false} RowsBeyond<T>(p: seq<seq<T>>, n: nat)
    requires n >= Longest(p)
    ensures Rows(p, n) == Rows(p, Longest(p))
  {
    hide AllExist, RowOf, Longest;
    if n > Longest(p) {
      RowsBeyond(p, n - 1);
      EmptyRow(p, n - 1, |p|);
    }
  }

  lemma {:induction false} RowPrefix<T>(p: seq<seq<T>>, k: nat, i: nat, j: nat)
    requires i <= j <= |p|
    ensures RowOf(p, k, i) <= RowOf(p, k, j)
    decreases j
  {
    hide AllExist;
    if i < j {
      RowPrefix(p, k, i, j - 1);
    }
  }

  lemma {:induction false} RowsPrefix<T>(p: seq<seq<T>>, m: nat, n: nat)
    requires m <= n
    ensures Rows(p, m) <= Rows(p, n)
    decreases n
  {
    hide AllExist, RowOf;
    if m < n {
      RowsPrefix(p, m, n - 1);
    }
  }

  lemma JoinPrefix(a: seq<Pos>, b: seq<Pos>, c: seq<Pos>)
    requires b <= c
    ensures a + b <= a + c
  {
  }

  lemma PrefixTransitive(a: seq<Pos>, b: seq<Pos>, c: seq<Pos>)
    requires a <= b <= c
    ensures a <= c
  {
    assert a == b[..|a|] == c[..|a|];
  }

  /** An unfinished sweep is a prefix of the whole order. */
  lemma SweepPrefix<T>(p: seq<seq<T>>, k: nat, i: nat)
    requires i <= |p|
    ensures Rows(p, k) + RowOf(p, k, i) <= Rows(p, Longest(p))
  {
    hide AllExist, RowOf, Longest;
    RowPrefix(p, k, i, |p|);
    var part, whole := Rows(p, k) + RowOf(p, k, i), Rows(p, k + 1);
    JoinPrefix(Rows(p, k), RowOf(p, k, i), RowOf(p, k, |p|));
    if k + 1 <= Longest(p) {
      RowsPrefix(p, k + 1, Longest(p));
      PrefixTransitive(part, whole, Rows(p, Longest(p)));
    } else {
      RowsBeyond(p, k + 1);
    }
  }

  lemma PickSnoc<T>(p: seq<seq<T>>, at: seq<Pos>, x: Pos)
    requires AllExist(p, at) && Exists(p, x)
    ensures AllExist(p, at + [x])
    ensures Pick(p, at + [x]) == Pick(p, at) + [p[x.project][x.row]]
  {
  }

  lemma PickPrefix<T>(p: seq<seq<T>>, at: seq<Pos>, m: nat)
    requires m <= |at| && AllExist(p, at)
    ensures AllExist(p, at[..m])
    ensures Pick(p, at[..m]) == Pick(p, at)[..m]
  {
  }

  // ----- The loops

  /** What is left of a project after `k` sweeps. */
  function LeftOf<T>(project: seq<T>, k: nat): seq<T> {
    if k <= |project| then project[k..] else []
  }

  /** Sweep `k` has passed the projects before `i`. */
  ghost predicate Swept<T>(p: seq<seq<T>>, left: seq<seq<T>>, k: nat, i: nat) {
    && |left| == |p| && i <= |p|
    && (forall j | 0 <= j < i :: left[j] == LeftOf(p[j], k + 1))
    && (forall j | i <= j < |p| :: left[j] == LeftOf(p[j], k))
  }

  lemma SweepOn<T>(p: seq<seq<T>>, left: seq<seq<T>>, k: nat, i: nat)
    requires Swept(p, left, k, i) && i < |p|
    ensures left[i] != [] <==> k < |p[i]|
    ensures left[i] != [] ==> left[i][0] == p[i][k] && Swept(p, left[i := left[i][1..]], k, i + 1)
    ensures left[i] == [] ==> Swept(p, left, k, i + 1)
  {
  }

  lemma SweepEnds<T>(p: seq<seq<T>>, left: seq<seq<T>>, k: nat)
    requires Swept(p, left, k, |p|)
    ensures Swept(p, left, k + 1, 0)
  {
  }

  /** The sweep under way: what it has put out so far. */
  ghost predicate Sweeping<T>(p: seq<seq<T>>, left: seq<seq<T>>, k: nat, i: nat, order: seq<T>) {
    Swept(p, left, k, i) && AllExist(p, Rows(p, k) + RowOf(p, k, i)) && order == Pick(p, Rows(p, k) + RowOf(p, k, i))
  }

  lemma SweepStart<T>(p: seq<seq<T>>)
    ensures Sweeping(p, p, 0, 0, [])
  {
  }

  /** One project of the sweep. */
  lemma SweepStep<T>(p: seq<seq<T>>, left: seq<seq<T>>, k: nat, i: nat, order: seq<T>)
    requires Sweeping(p, left, k, i, order) && i < |p|
    ensures left[i] != [] <==> k < |p[i]|
    ensures if left[i] != [] then Sweeping(p, left[i := left[i][1..]], k, i + 1, order + [left[i][0]]) else Sweeping(p, left, k, i + 1, order)
  {
    hide Rows, Pick, AllExist;
    SweepOn(p, left, k, i);
    if k < |p[i]| {
      PickSnoc(p, Rows(p, k) + RowOf(p, k, i), Pos(k, i));
      assert Rows(p, k) + (RowOf(p, k, i) + [Pos(k, i)]) == (Rows(p, k) + RowOf(p, k, i)) + [Pos(k, i)];
    } else {
      assert RowOf(p, k, i + 1) == RowOf(p, k, i);
    }
  }

  lemma SweepDone<T>(p: seq<seq<T>>, left: seq<seq<T>>, k: nat, order: seq<T>)
    requires Sweeping(p, left, k, |p|, order)
    ensures Sweeping(p, left, k + 1, 0, order)
  {
    hide Pick, AllExist;
    SweepEnds(p, left, k);
    assert Rows(p, k + 1) + RowOf(p, k + 1, 0) == Rows(p, k) + RowOf(p, k, |p|);
  }

  lemma AllSwept<T>(p: seq<seq<T>>, left: seq<seq<T>>, k: nat, order: seq<T>)
    requires Sweeping(p, left, k, 0, order) && k >= Longest(p)
    ensures order == Interleaved(p)
  {
    hide Pick, AllExist, Longest;
    RowsBeyond(p, k);
    assert Rows(p, k) + RowOf(p, k, 0) == Rows(p, k);
  }

  lemma {:induction false} NothingLonger<T>(p: seq<seq<T>>, k: nat)
    requires forall j | 0 <= j < |p| :: |p[j]| <= k
    ensures Longest(p) <= k
  {
    if p != [] {
      NothingLonger(p[..|p| - 1], k);
    }
  }

  method CarouselInterleave<T>(projects: seq<seq<T>>) returns (order: seq<T>)
    ensures order == Interleaved(projects)
  {
    hide Sweeping, Interleaved, Longest;
    var left := projects;
    order := [];
    var anyLeft := true;
    ghost var k := 0;
    SweepStart(projects);
    while anyLeft
      invariant Sweeping(projects, left, k, 0, order) && |left| == |projects|
      invariant !anyLeft ==> Longest(projects) <= k
      decreases if anyLeft then 1 else 0, Longest(projects) + 1 - k
    {
      anyLeft := false;
      for i := 0 to |left|
        invariant Sweeping(projects, left, k, i, order) && |left| == |projects|
        invariant anyLeft <==> exists j :: 0 <= j < i && k < |projects[j]|
      {
        SweepStep(projects, left, k, i, order);
        if left[i] != [] {
          order := order + [left[i][0]];
          left := left[i := left[i][1..]];
          anyLeft := true;
        }
      }
      SweepDone(projects, left, k, order);
      if !anyLeft {
        NothingLonger(projects, k);
      }
      k := k + 1;
    }
    AllSwept(projects, left, k, order);
  }

  // ----- Bounded

  function FirstOf<T>(s: seq<T>, n: nat): seq<T> {
    if n < |s| then s[..n] else s
  }

  lemma SweepIsPrefix<T>(p: seq<seq<T>>, left: seq<seq<T>>, k: nat, i: nat, order: seq<T>)
    requires Sweeping(p, left, k, i, order)
    ensures order <= Interleaved(p)
  {
    hide Rows, RowOf, Longest;
    SweepPrefix(p, k, i);
    var at := Rows(p, k) + RowOf(p, k, i);
    assert at == Rows(p, Longest(p))[..|at|];
    PickPrefix(p, Rows(p, Longest(p)), |at|);
  }

  /** At the batch limit, or with nothing left, the order is the first `batch` entries of the whole. */
  lemma BatchDone<T>(whole: seq<T>, order: seq<T>, batch: nat)
    requires order <= whole && |order| <= batch && (|order| == batch || order == whole)
    ensures order == FirstOf(whole, batch)
  {
  }

  method CarouselBounded<T>(projects: seq<seq<T>>, batch: nat) returns (order: seq<T>)
    ensures order == FirstOf(Interleaved(projects), batch)
  {
    hide Sweeping, Interleaved, Longest, FirstOf;
    var left := projects;
    order := [];
    var anyLeft := true;
    ghost var k := 0;
    SweepStart(projects);
    while anyLeft && |order| < batch
      invariant Sweeping(projects, left, k, 0, order) && |left| == |projects| && |order| <= batch
      invariant !anyLeft ==> Longest(projects) <= k
      decreases if anyLeft then 1 else 0, Longest(projects) + 1 - k
    {
      anyLeft := false;
      for i := 0 to |left|
        invariant Sweeping(projects, left, k, i, order) && |left| == |projects| && |order| <= batch
        invariant anyLeft <==> exists j :: 0 <= j < i && k < |projects[j]|
      {
        if |order| >= batch {
          SweepIsPrefix(projects, left, k, i, order);
          BatchDone(Interleaved(projects), order, batch);
          return;
        }
        SweepStep(projects, left, k, i, order);
        if left[i] != [] {
          order := order + [left[i][0]];
          left := left[i := left[i][1..]];
          anyLeft := true;
        }
      }
      SweepDone(projects, left, k, order);
      if !anyLeft {
        NothingLonger(projects, k);
      }
      k := k + 1;
    }
    SweepIsPrefix(projects, left, k, 0, order);
    if !anyLeft {
      AllSwept(projects, left, k, order);
    }
    BatchDone(Interleaved(projects), order, batch);
  }

  // ----- Labelled

  function WithLabel<L, T>(name: L, entries: seq<T>): seq<(L, T)> {
    seq(|entries|, j requires 0 <= j < |entries| => (name, entries[j]))
  }

  function Labelled<L, T>(projects: seq<(L, seq<T>)>): seq<seq<(L, T)>> {
    seq(|projects|, i requires 0 <= i < |projects| => WithLabel(projects[i].0, projects[i].1))
  }

  function Unlabelled<L, T>(projects: seq<(L, seq<T>)>): seq<seq<T>> {
    seq(|projects|, i requires 0 <= i < |projects| => projects[i].1)
  }

  function Erased<L, T>(s: seq<(L, T)>): seq<T> {
    seq(|s|, i requires 0 <= i < |s| => s[i].1)
  }

  /** Two lists of projects of the same shape have the same positions. */
  lemma {:induction false} SameRow<A, B>(p: seq<seq<A>>, q: seq<seq<B>>, k: nat, i: nat)
    requires |p| == |q| && i <= |p| && forall j | 0 <= j < |p| :: |p[j]| == |q[j]|
    ensures RowOf(p, k, i) == RowOf(q, k, i)
  {
    if i > 0 {
      SameRow(p, q, k, i - 1);
    }
  }

  lemma {:induction false} SameRows<A, B>(p: seq<seq<A>>, q: seq<seq<B>>, n: nat)
    requires |p| == |q| && forall j | 0 <= j < |p| :: |p[j]| == |q[j]|
    ensures Rows(p, n) == Rows(q, n)
  {
    hide RowOf, AllExist;
    if n > 0 {
      SameRows(p, q, n - 1);
      SameRow(p, q, n - 1, |p|);
    }
  }

  lemma {:induction false} SameLongest<A, B>(p: seq<seq<A>>, q: seq<seq<B>>)
    requires |p| == |q| && forall j | 0 <= j < |p| :: |p[j]| == |q[j]|
    ensures Longest(p) == Longest(q)
  {
    if p != [] {
      SameLongest(p[..|p| - 1], q[..|q| - 1]);
    }
  }

  /** Labels do not change the order. */
  lemma LabelsDoNotMatter<L, T>(projects: seq<(L, seq<T>)>)
    ensures Erased(Interleaved(Labelled(projects))) == Interleaved(Unlabelled(projects))
  {
    hide Rows, Longest;
    var p, q := Labelled(projects), Unlabelled(projects);
    SameLongest(p, q);
    SameRows(p, q, Longest(p));
    var at := Rows(p, Longest(p));
    forall j | 0 <= j < |at|
      ensures Pick(p, at)[j].1 == Pick(q, at)[j]
    {
      assert Exists(p, at[j]);
    }
  }

  method RoundRobinOrder<L, T>(projects: seq<(L, seq<T>)>) returns (order: seq<(L, T)>)
    ensures order == Interleaved(Labelled(projects))
    ensures Erased(order) == Interleaved(Unlabelled(projects))
  {
    hide Interleaved, Labelled, Erased, Unlabelled;
    order := CarouselInterleave(Labelled(projects));
    LabelsDoNotMatter(projects);
  }

  // ----- Fairness

  function CountOf(at: seq<Pos>, i: nat): nat {
    if at == [] then 0 else CountOf(at[..|at| - 1], i) + if at[|at| - 1].project == i then 1 else 0
  }

  lemma {:induction false} CountJoins(a: seq<Pos>, b: seq<Pos>, i: nat)
    ensures CountOf(a + b, i) == CountOf(a, i) + CountOf(b, i)
  {
    if b == [] {
      assert a + b == a;
    } else {
      assert (a + b)[..|a + b| - 1] == a + b[..|b| - 1];
      CountJoins(a, b[..|b| - 1], i);
    }
  }

  lemma CountOne(x: Pos, i: nat)
    ensures CountOf([], i) == 0 && CountOf([x], i) == if x.project == i then 1 else 0
  {
    assert [x][..0] == [];
  }

  lemma {:induction false} CountInRow<T>(p: seq<seq<T>>, k: nat, n: nat, i: nat)
    requires n <= |p| && i < |p|
    ensures CountOf(RowOf(p, k, n), i) == if i < n && k < |p[i]| then 1 else 0
  {
    hide CountOf;
    CountOne(Pos(k, n), i);
    if n > 0 {
      CountInRow(p, k, n - 1, i);
      var next := if k < |p[n - 1]| then [Pos(k, n - 1)] else [];
      CountOne(Pos(k, n - 1), i);
      CountJoins(RowOf(p, k, n - 1), next, i);
      assert RowOf(p, k, n) == RowOf(p, k, n - 1) + next;
    }
  }

  lemma {:induction false} CountInRows<T>(p: seq<seq<T>>, k: nat, i: nat)
    requires i < |p|
    ensures CountOf(Rows(p, k), i) == if k < |p[i]| then k else |p[i]|
  {
    hide RowOf, AllExist;
    if k > 0 {
      CountInRows(p, k - 1, i);
      CountInRow(p, k - 1, |p|, i);
      CountJoins(Rows(p, k - 1), RowOf(p, k - 1, |p|), i);
    }
  }

  /** Every prefix of the order ends somewhere in a sweep. */
  lemma {:induction false} PrefixIsSweep<T>(p: seq<seq<T>>, n: nat, m: nat) returns (k: nat, i: nat)
    requires m <= |Rows(p, n)|
    ensures i <= |p| && Rows(p, n)[..m] == Rows(p, k) + RowOf(p, k, i)
  {
    hide AllExist;
    if n == 0 || m == |Rows(p, n)| {
      k, i := n, 0;
      assert Rows(p, n)[..m] == Rows(p, n);
    } else if m <= |Rows(p, n - 1)| {
      k, i := PrefixIsSweep(p, n - 1, m);
      assert Rows(p, n)[..m] == Rows(p, n - 1)[..m];
    } else {
      k := n - 1;
      var r := m - |Rows(p, k)|;
      i := PrefixOfRow(p, k, |p|, r);
      assert Rows(p, n)[..m] == Rows(p, k) + RowOf(p, k, |p|)[..r];
    }
  }

  lemma {:induction false} PrefixOfRow<T>(p: seq<seq<T>>, k: nat, n: nat, r: nat) returns (i: nat)
    requires n <= |p| && r <= |RowOf(p, k, n)|
    ensures i <= n && RowOf(p, k, n)[..r] == RowOf(p, k, i)
  {
    hide AllExist;
    if r == |RowOf(p, k, n)| {
      i := n;
    } else {
      i := PrefixOfRow(p, k, n - 1, r);
      assert RowOf(p, k, n)[..r] == RowOf(p, k, n - 1)[..r];
    }
  }

  /** At every moment two projects that both have entries left have been served equally often, give or take one. */
  lemma Fair<T>(p: seq<seq<T>>, m: nat, i: nat, j: nat)
    requires m <= |Rows(p, Longest(p))| && i < |p| && j < |p|
    requires CountOf(Rows(p, Longest(p))[..m], i) < |p[i]| && CountOf(Rows(p, Longest(p))[..m], j) < |p[j]|
    ensures CountOf(Rows(p, Longest(p))[..m], i) <= CountOf(Rows(p, Longest(p))[..m], j) + 1
  {
    hide Rows, RowOf, Longest, CountOf, AllExist;
    var k, n := PrefixIsSweep(p, Longest(p), m);
    CountJoins(Rows(p, k), RowOf(p, k, n), i);
    CountJoins(Rows(p, k), RowOf(p, k, n), j);
    CountInRows(p, k, i);
    CountInRows(p, k, j);
    CountInRow(p, k, n, i);
    CountInRow(p, k, n, j);
  }
}
