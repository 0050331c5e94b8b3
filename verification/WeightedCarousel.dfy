/**
 The weighted carousel: one sweep of blocks sized by weight, then the left-over slots one at a time to
 the least served project.  The rounded share of a project is left open; ratios are exact.
 */
module WeightedCarousel {
  import opened Wrappers
  import opened Carousel

  /** A project: its weight and its pending entries. */
  datatype Project<T> = Project(weight: real, entries: seq<T>)

  type Weighted<T> = seq<Project<T>>

  function EntriesOf<T>(w: Weighted<T>): seq<seq<T>> {
    seq(|w|, i requires 0 <= i < |w| => w[i].entries)
  }

  predicate Takes<T>(project: Project<T>) {
    project.weight > 0.0 && project.entries != []
  }

  /** The projects that take part. */
  function Active<T>(projects: Weighted<T>): (w: Weighted<T>)
    ensures forall i | 0 <= i < |w| :: Takes(w[i])
  {
    if projects == [] then []
    else
      var last := projects[|projects| - 1];
      Active(projects[..|projects| - 1]) + if Takes(last) then [last] else []
  }

  ghost predicate Increasing(at: seq<nat>, n: nat) {
    (forall i | 0 <= i < |at| :: at[i] < n) && forall i, j | 0 <= i < j < |at| :: at[i] < at[j]
  }

  /** Those with a positive weight and something to give, in the order they come. */
  lemma {:induction false} ActiveAre<T>(projects: Weighted<T>) returns (at: seq<nat>)
    ensures |at| == |Active(projects)| && Increasing(at, |projects|)
    ensures forall i | 0 <= i < |at| :: Active(projects)[i] == projects[at[i]]
    ensures forall k | 0 <= k < |projects| :: k in at <==> projects[k].weight > 0.0 && |projects[k].entries| > 0
  {
    at := [];
    if projects != [] {
      var last := |projects| - 1;
      var front := projects[..last];
      var before := ActiveAre(front);
      OneIndexMore(before, last);
      assert forall k | 0 <= k < last :: front[k] == projects[k];
      at := if Takes(projects[last]) then before + [last] else before;
    }
  }

  lemma OneIndexMore(at: seq<nat>, n: nat)
    requires Increasing(at, n)
    ensures n !in at && Increasing(at, n + 1) && Increasing(at + [n], n + 1)
    ensures forall k :: k in at + [n] <==> k in at || k == n
  {
  }

  function Total<T>(p: seq<seq<T>>): nat {
    if p == [] then 0 else Total(p[..|p| - 1]) + |p[|p| - 1]|
  }

  function Min(a: nat, b: nat): nat {
    if a < b then a else b
  }

  function Max(a: nat, b: nat): nat {
    if a > b then a else b
  }

  // ----- What the order has to be

  /** Every project's entries are taken in order, without gap or repetition. */
  ghost predicate ByProject<T>(p: seq<seq<T>>, at: seq<Pos>) {
    AllExist(p, at) && forall j | 0 <= j < |at| :: at[j].row == CountOf(at[..j], at[j].project)
  }

  /** How often each project has been served. */
  ghost predicate Served(at: seq<Pos>, taken: seq<nat>) {
    forall i | 0 <= i < |taken| :: taken[i] == CountOf(at, i)
  }

  /** `a/b < c/d`, and equality, for counts. */
  predicate RatioLess(a: nat, b: nat, c: nat, d: nat) {
    a * d < c * b
  }

  predicate RatioEqual(a: nat, b: nat, c: nat, d: nat) {
    a * d == c * b
  }

  /** Project `i` is to be preferred to `j`: less of it served, or as much and of lower weight. */
  predicate Preferred<T>(w: Weighted<T>, taken: seq<nat>, i: nat, j: nat)
    requires i < |w| && j < |w| && |taken| == |w|
  {
    || RatioLess(taken[i], |w[i].entries|, taken[j], |w[j].entries|)
    || (RatioEqual(taken[i], |w[i].entries|, taken[j], |w[j].entries|) && w[i].weight < w[j].weight)
  }

  predicate HasLeft<T>(w: Weighted<T>, taken: seq<nat>, i: nat)
    requires i < |w| && |taken| == |w|
  {
    taken[i] < |w[i].entries|
  }

  /** The next slot goes to `i`: nobody with entries left is to be preferred to it, and of equals it is the first. */
  ghost predicate LeastServed<T>(w: Weighted<T>, taken: seq<nat>, i: nat) {
    && |taken| == |w| && i < |w| && HasLeft(w, taken, i)
    && (forall j | 0 <= j < |w| && HasLeft(w, taken, j) :: !Preferred(w, taken, j, i))
    && forall j | 0 <= j < i && HasLeft(w, taken, j) :: Preferred(w, taken, i, j)
  }

  /** The share of its entries a project has had. */
  function Fraction(part: nat, whole: nat): real
    requires whole > 0
  {
    part as real / whole as real
  }

  /** Smaller by fraction, then by weight, then by place. */
  predicate Sooner<T>(w: Weighted<T>, taken: seq<nat>, i: nat, j: nat)
    requires i < |w| && j < |w| && |taken| == |w| && w[i].entries != [] && w[j].entries != []
  {
    var a, b := Fraction(taken[i], |w[i].entries|), Fraction(taken[j], |w[j].entries|);
    a < b || (a == b && (w[i].weight < w[j].weight || (w[i].weight == w[j].weight && i < j)))
  }

  lemma FractionsCompare(a: nat, b: nat, c: nat, d: nat)
    requires b > 0 && d > 0
    ensures Fraction(a, b) < Fraction(c, d) <==> RatioLess(a, b, c, d)
    ensures Fraction(a, b) == Fraction(c, d) <==> RatioEqual(a, b, c, d)
  {
    var x, y := Fraction(a, b), Fraction(c, d);
    assert x * b as real == a as real && y * d as real == c as real;
    Scaled(x, y, b as real * d as real);
    assert x * (b as real * d as real) == a as real * d as real == (a * d) as real;
    assert y * (b as real * d as real) == c as real * b as real == (c * b) as real;
  }

  lemma Scaled(x: real, y: real, z: real)
    requires z > 0.0
    ensures x < y <==> x * z < y * z
    ensures x == y <==> x * z == y * z
  {
  }

  /** The least served project is the soonest of those with entries left. */
  lemma LeastServedIff<T>(w: Weighted<T>, taken: seq<nat>, i: nat)
    requires |taken| == |w| && forall k | 0 <= k < |w| :: w[k].entries != []
    ensures LeastServed(w, taken, i) <==>
      i < |w| && taken[i] < |w[i].entries| && forall j | 0 <= j < |w| && j != i && taken[j] < |w[j].entries| :: Sooner(w, taken, i, j)
  {
    hide Fraction, RatioLess, RatioEqual;
    if i < |w| {
      forall j | 0 <= j < |w| && j != i
        ensures Sooner(w, taken, i, j) <==> !Preferred(w, taken, j, i) && (j < i ==> Preferred(w, taken, i, j))
      {
        PreferredIff(w, taken, i, j);
      }
      NotBefore(w, taken, i);
    }
  }

  lemma PreferredIff<T>(w: Weighted<T>, taken: seq<nat>, i: nat, j: nat)
    requires |taken| == |w| && i < |w| && j < |w| && i != j && w[i].entries != [] && w[j].entries != []
    ensures Sooner(w, taken, i, j) <==> !Preferred(w, taken, j, i) && (j < i ==> Preferred(w, taken, i, j))
  {
    hide Fraction, RatioLess, RatioEqual;
    FractionsCompare(taken[i], |w[i].entries|, taken[j], |w[j].entries|);
    FractionsCompare(taken[j], |w[j].entries|, taken[i], |w[i].entries|);
  }

  function Counts(at: seq<Pos>, n: nat): seq<nat> {
    seq(n, i requires 0 <= i < n => CountOf(at, i))
  }

  /** From slot `from` on, every slot went to the least served project of its moment. */
  ghost predicate TailFair<T>(w: Weighted<T>, at: seq<Pos>, from: nat) {
    forall t | from <= t < |at| :: LeastServed(w, Counts(at[..t], |w|), at[t].project)
  }

  /** The next `n` entries of one project. */
  function Block(project: nat, from: nat, n: nat): seq<Pos> {
    seq(n, j requires 0 <= j < n => Pos(from + j, project))
  }

  /** The weighted sweep over the projects before `i`: each gets its share, at least one slot, while slots last. */
  function Sweep<T>(w: Weighted<T>, shares: nat -> nat, batch: nat, i: nat): (r: seq<Pos>)
    requires i <= |w|
    ensures |r| <= batch
  {
    if i == 0 then []
    else
      var before := Sweep(w, shares, batch, i - 1);
      var take := Min(Min(Max(shares(i - 1), 1), batch - |before|), |w[i - 1].entries|);
      before + Block(i - 1, 0, take)
  }

  // ----- Counting

  lemma {:induction false} CountOfBlock(project: nat, from: nat, n: nat, i: nat)
    ensures CountOf(Block(project, from, n), i) == if project == i then n else 0
  {
    if n > 0 {
      assert Block(project, from, n)[..n - 1] == Block(project, from, n - 1);
      CountOfBlock(project, from, n - 1, i);
    }
  }

  lemma CountSnoc(at: seq<Pos>, x: Pos, i: nat)
    ensures CountOf(at + [x], i) == CountOf(at, i) + if x.project == i then 1 else 0
  {
    assert (at + [x])[..|at|] == at;
  }

  /** One more entry of a project, the next one. */
  lemma ByProjectSnoc<T>(p: seq<seq<T>>, at: seq<Pos>, i: nat)
    requires ByProject(p, at) && i < |p| && CountOf(at, i) < |p[i]|
    ensures ByProject(p, at + [Pos(CountOf(at, i), i)])
  {
    var all := at + [Pos(CountOf(at, i), i)];
    forall j | 0 <= j < |all|
      ensures all[j].row == CountOf(all[..j], all[j].project)
    {
      assert all[..j] == at[..j];
      if j == |at| {
        assert at[..j] == at;
      }
    }
  }

  lemma {:induction false} ByProjectBlock<T>(p: seq<seq<T>>, at: seq<Pos>, i: nat, n: nat)
    requires ByProject(p, at) && i < |p| && CountOf(at, i) == 0 && n <= |p[i]|
    ensures ByProject(p, at + Block(i, 0, n))
  {
    hide ByProject, CountOf;
    if n == 0 {
      assert at + Block(i, 0, 0) == at;
    } else {
      ByProjectBlock(p, at, i, n - 1);
      CountJoins(at, Block(i, 0, n - 1), i);
      CountOfBlock(i, 0, n - 1, i);
      ByProjectSnoc(p, at + Block(i, 0, n - 1), i);
      BlockSnoc(at, i, n);
    }
  }

  lemma BlockSnoc(at: seq<Pos>, i: nat, n: nat)
    requires n > 0
    ensures (at + Block(i, 0, n - 1)) + [Pos(n - 1, i)] == at + Block(i, 0, n)
  {
  }

  lemma {:induction false} SweepCounts<T>(w: Weighted<T>, shares: nat -> nat, batch: nat, i: nat, j: nat)
    requires i <= |w| && i <= j
    ensures CountOf(Sweep(w, shares, batch, i), j) == 0
  {
    hide CountOf, Block;
    if i == 0 {
      NothingCounted(j);
    } else {
      SweepCounts(w, shares, batch, i - 1, j);
      var before := Sweep(w, shares, batch, i - 1);
      var take := Min(Min(Max(shares(i - 1), 1), batch - |before|), |w[i - 1].entries|);
      CountJoins(before, Block(i - 1, 0, take), j);
      CountOfBlock(i - 1, 0, take, j);
    }
  }

  lemma NothingCounted(j: nat)
    ensures CountOf([], j) == 0
  {
  }

  /** A later block takes nothing from an earlier one, and a full batch stays as it is. */
  lemma {:induction false} SweepKeeps<T>(w: Weighted<T>, shares: nat -> nat, batch: nat, i: nat, k: nat, j: nat)
    requires i <= k <= |w|
    ensures j < i ==> CountOf(Sweep(w, shares, batch, k), j) == CountOf(Sweep(w, shares, batch, i), j)
    ensures |Sweep(w, shares, batch, i)| <= |Sweep(w, shares, batch, k)|
    ensures |Sweep(w, shares, batch, i)| == batch && i <= j ==> CountOf(Sweep(w, shares, batch, k), j) == 0
    decreases k
  {
    hide CountOf, Block;
    if i < k {
      SweepKeeps(w, shares, batch, i, k - 1, j);
      var before := Sweep(w, shares, batch, k - 1);
      var take := Min(Min(Max(shares(k - 1), 1), batch - |before|), |w[k - 1].entries|);
      CountJoins(before, Block(k - 1, 0, take), j);
      CountOfBlock(k - 1, 0, take, j);
    } else if i <= j {
      SweepCounts(w, shares, batch, i, j);
    }
  }

  /**
   What the sweep gives a project: no more than its share, or one slot if that is nothing, and no more than it has;
   and less than both only if the batch is full, and then later projects get none.
   */
  lemma SweepGives<T>(w: Weighted<T>, shares: nat -> nat, batch: nat, i: nat)
    requires i < |w|
    ensures var swept := Sweep(w, shares, batch, |w|);
      var got := CountOf(swept, i);
      && got <= |w[i].entries| && (got <= shares(i) || got <= 1)
      && (got < |w[i].entries| && (got < shares(i) || got < 1) ==>
            |swept| == batch && forall j | i < j < |w| :: CountOf(swept, j) == 0)
  {
    hide CountOf, Block;
    var before := Sweep(w, shares, batch, i);
    var take := Min(Min(Max(shares(i), 1), batch - |before|), |w[i].entries|);
    SweepCounts(w, shares, batch, i, i);
    CountJoins(before, Block(i, 0, take), i);
    CountOfBlock(i, 0, take, i);
    BlockLength(i, take);
    SweepKeeps(w, shares, batch, i + 1, |w|, i);
    forall j | i < j < |w|
      ensures |Sweep(w, shares, batch, i + 1)| == batch ==> CountOf(Sweep(w, shares, batch, |w|), j) == 0
    {
      SweepKeeps(w, shares, batch, i + 1, |w|, j);
    }
  }

  lemma {:induction false} SweepIsByProject<T>(w: Weighted<T>, shares: nat -> nat, batch: nat, i: nat)
    requires i <= |w|
    ensures ByProject(EntriesOf(w), Sweep(w, shares, batch, i))
  {
    hide ByProject, CountOf, Block;
    if i == 0 {
      NothingByProject(EntriesOf(w));
    } else {
      SweepIsByProject(w, shares, batch, i - 1);
      SweepCounts(w, shares, batch, i - 1, i - 1);
      var before := Sweep(w, shares, batch, i - 1);
      var take := Min(Min(Max(shares(i - 1), 1), batch - |before|), |w[i - 1].entries|);
      ByProjectBlock(EntriesOf(w), before, i - 1, take);
    }
  }

  lemma NothingByProject<T>(p: seq<seq<T>>)
    ensures ByProject(p, [])
  {
  }

  /** The number of slots used is the sum of what the projects got. */
  function Sum(taken: seq<nat>): nat {
    if taken == [] then 0 else Sum(taken[..|taken| - 1]) + taken[|taken| - 1]
  }

  lemma {:induction false} SumUpdate(taken: seq<nat>, i: nat, n: nat)
    requires i < |taken|
    ensures Sum(taken[i := n]) == Sum(taken) - taken[i] + n
  {
    var last := |taken| - 1;
    if i == last {
      assert taken[i := n][..last] == taken[..last];
    } else {
      assert taken[i := n][..last] == taken[..last][i := n];
      SumUpdate(taken[..last], i, n);
    }
  }

  lemma {:induction false} SumOfZeros(n: nat)
    ensures Sum(Counts([], n)) == 0
  {
    if n > 0 {
      assert Counts([], n)[..n - 1] == Counts([], n - 1);
      SumOfZeros(n - 1);
    }
  }

  lemma CountsSnoc(at: seq<Pos>, n: nat, i: nat)
    requires i < n
    ensures Counts(at + [Pos(CountOf(at, i), i)], n) == Counts(at, n)[i := CountOf(at, i) + 1]
  {
    forall j | 0 <= j < n
      ensures CountOf(at + [Pos(CountOf(at, i), i)], j) == Counts(at, n)[i := CountOf(at, i) + 1][j]
    {
      CountSnoc(at, Pos(CountOf(at, i), i), j);
    }
  }

  lemma {:induction false} SumIsLength(at: seq<Pos>, n: nat)
    requires forall j | 0 <= j < |at| :: at[j].project < n
    ensures Sum(Counts(at, n)) == |at|
  {
    if at == [] {
      SumOfZeros(n);
    } else {
      var front, last := at[..|at| - 1], at[|at| - 1];
      SumIsLength(front, n);
      assert at == front + [last];
      forall j | 0 <= j < n
        ensures Counts(at, n)[j] == Counts(front, n)[last.project := CountOf(front, last.project) + 1][j]
      {
        CountSnoc(front, last, j);
      }
      assert Counts(at, n) == Counts(front, n)[last.project := CountOf(front, last.project) + 1];
      SumUpdate(Counts(front, n), last.project, CountOf(front, last.project) + 1);
    }
  }

  /** No project gives more than it has. */
  lemma CountFits<T>(p: seq<seq<T>>, at: seq<Pos>, i: nat)
    requires ByProject(p, at) && i < |p|
    ensures CountOf(at, i) <= |p[i]|
    decreases |at|
  {
    if at != [] {
      var front, last := at[..|at| - 1], at[|at| - 1];
      ByProjectFront(p, at);
      CountFits(p, front, i);
      assert last.project == i ==> last.row == CountOf(front, i) && last.row < |p[i]|;
    }
  }

  lemma ByProjectFront<T>(p: seq<seq<T>>, at: seq<Pos>)
    requires ByProject(p, at) && at != []
    ensures ByProject(p, at[..|at| - 1])
    ensures at[|at| - 1].row == CountOf(at[..|at| - 1], at[|at| - 1].project)
  {
    var front := at[..|at| - 1];
    forall j | 0 <= j < |front|
      ensures front[j].row == CountOf(front[..j], front[j].project)
    {
      assert front[..j] == at[..j];
    }
  }

  lemma {:induction false} SumAtMostTotal<T>(p: seq<seq<T>>, taken: seq<nat>)
    requires |taken| == |p| && forall i | 0 <= i < |p| :: taken[i] <= |p[i]|
    ensures Sum(taken) <= Total(p)
    ensures Sum(taken) == Total(p) <==> forall i | 0 <= i < |p| :: taken[i] == |p[i]|
  {
    if p != [] {
      var last := |p| - 1;
      SumAtMostTotal(p[..last], taken[..last]);
      assert forall i | 0 <= i < last :: p[..last][i] == p[i] && taken[..last][i] == taken[i];
    }
  }

  /** The used slots: no more than there are entries, and as many only when every project is exhausted. */
  lemma LengthIs<T>(w: Weighted<T>, at: seq<Pos>)
    requires ByProject(EntriesOf(w), at)
    ensures |at| <= Total(EntriesOf(w))
    ensures |at| == Total(EntriesOf(w)) <==> forall i | 0 <= i < |w| :: !HasLeft(w, Counts(at, |w|), i)
  {
    hide CountOf, Sum, Total;
    var p, taken := EntriesOf(w), Counts(at, |w|);
    forall i | 0 <= i < |w|
      ensures taken[i] <= |p[i]|
    {
      CountFits(p, at, i);
    }
    SumIsLength(at, |w|);
    SumAtMostTotal(p, taken);
    forall i | 0 <= i < |w|
      ensures HasLeft(w, taken, i) <==> taken[i] != |p[i]|
    {
      assert p[i] == w[i].entries;
    }
  }

  // ----- The loops

  /** What is left of each project, and how often it has been served. */
  ghost predicate Drained<T>(w: Weighted<T>, left: seq<seq<T>>, taken: seq<nat>, at: seq<Pos>) {
    && |left| == |taken| == |w|
    && taken == Counts(at, |w|)
    && forall i | 0 <= i < |w| :: taken[i] <= |w[i].entries| && left[i] == w[i].entries[taken[i]..]
  }

  lemma DrainOne<T>(w: Weighted<T>, left: seq<seq<T>>, taken: seq<nat>, at: seq<Pos>, i: nat)
    requires Drained(w, left, taken, at) && i < |w| && left[i] != [] && AllExist(EntriesOf(w), at)
    ensures var x := Pos(CountOf(at, i), i);
      && Drained(w, left[i := left[i][1..]], taken[i := taken[i] + 1], at + [x])
      && Exists(EntriesOf(w), x) && AllExist(EntriesOf(w), at + [x])
      && Pick(EntriesOf(w), at + [x]) == Pick(EntriesOf(w), at) + [left[i][0]]
  {
    CountsSnoc(at, |w|, i);
    PickSnoc(EntriesOf(w), at, Pos(CountOf(at, i), i));
  }

  lemma DrainBlock<T>(w: Weighted<T>, left: seq<seq<T>>, taken: seq<nat>, at: seq<Pos>, i: nat, n: nat)
    requires Drained(w, left, taken, at) && i < |w| && taken[i] == 0 && n <= |left[i]| && AllExist(EntriesOf(w), at)
    ensures var block := Block(i, 0, n);
      && Drained(w, left[i := left[i][n..]], taken[i := n], at + block)
      && AllExist(EntriesOf(w), at + block)
      && Pick(EntriesOf(w), at + block) == Pick(EntriesOf(w), at) + left[i][..n]
  {
    var block := Block(i, 0, n);
    forall j | 0 <= j < |w|
      ensures Counts(at + block, |w|)[j] == taken[i := n][j]
    {
      CountJoins(at, block, j);
      CountOfBlock(i, 0, n, j);
    }
    assert left[i] == w[i].entries;
    BlockPicks(EntriesOf(w), at, i, n);
  }

  lemma BlockPicks<T>(p: seq<seq<T>>, at: seq<Pos>, i: nat, n: nat)
    requires AllExist(p, at) && i < |p| && n <= |p[i]|
    ensures AllExist(p, at + Block(i, 0, n))
    ensures Pick(p, at + Block(i, 0, n)) == Pick(p, at) + p[i][..n]
  {
  }

  lemma NoneDrained<T>(w: Weighted<T>)
    ensures Drained(w, EntriesOf(w), Counts([], |w|), [])
    ensures AllExist(EntriesOf(w), []) && Pick(EntriesOf(w), []) == []
  {
  }

  /** The sweep so far, and what goes with it. */
  ghost predicate SweptTo<T>(w: Weighted<T>, at: seq<Pos>, batch: nat, order: seq<T>, left: seq<seq<T>>, taken: seq<nat>, remaining: nat) {
    && AllExist(EntriesOf(w), at) && order == Pick(EntriesOf(w), at)
    && Drained(w, left, taken, at) && |at| <= batch && remaining == batch - |at|
  }

  lemma SweepNext<T>(w: Weighted<T>, shares: nat -> nat, batch: nat, i: nat, order: seq<T>, left: seq<seq<T>>, taken: seq<nat>, remaining: nat)
    requires i < |w| && SweptTo(w, Sweep(w, shares, batch, i), batch, order, left, taken, remaining)
    ensures i < |left| && i < |taken|
    ensures var take := Min(Min(Max(shares(i), 1), remaining), |left[i]|);
      SweptTo(w, Sweep(w, shares, batch, i + 1), batch, order + left[i][..take], left[i := left[i][take..]], taken[i := take], remaining - take)
  {
    hide Drained, Pick, AllExist, Block;
    var at := Sweep(w, shares, batch, i);
    Untouched(w, shares, batch, left, taken, i);
    var take := Min(Min(Max(shares(i), 1), remaining), |left[i]|);
    DrainBlock(w, left, taken, at, i, take);
    BlockLength(i, take);
  }

  lemma BlockLength(i: nat, n: nat)
    ensures |Block(i, 0, n)| == n
  {
  }

  /** One block a project, sized by its share. */
  method WeightedSweep<T>(w: Weighted<T>, shares: nat -> nat, batch: nat)
    returns (order: seq<T>, left: seq<seq<T>>, taken: seq<nat>, remaining: nat)
    ensures SweptTo(w, Sweep(w, shares, batch, |w|), batch, order, left, taken, remaining)
  {
    hide SweptTo, Sweep;
    order, left, taken, remaining := [], EntriesOf(w), Counts([], |w|), batch;
    NothingSwept(w, shares, batch);
    for i := 0 to |w|
      invariant SweptTo(w, Sweep(w, shares, batch, i), batch, order, left, taken, remaining)
    {
      SweepNext(w, shares, batch, i, order, left, taken, remaining);
      var take := Min(Min(Max(shares(i), 1), remaining), |left[i]|);
      order := order + left[i][..take];
      left := left[i := left[i][take..]];
      taken := taken[i := take];
      remaining := remaining - take;
    }
  }

  lemma NothingSwept<T>(w: Weighted<T>, shares: nat -> nat, batch: nat)
    ensures SweptTo(w, Sweep(w, shares, batch, 0), batch, [], EntriesOf(w), Counts([], |w|), batch)
  {
    NoneDrained(w);
  }

  lemma Untouched<T>(w: Weighted<T>, shares: nat -> nat, batch: nat, left: seq<seq<T>>, taken: seq<nat>, i: nat)
    requires i < |w| && Drained(w, left, taken, Sweep(w, shares, batch, i))
    ensures i < |left| && i < |taken| && taken[i] == 0 && left[i] == w[i].entries
  {
    SweepCounts(w, shares, batch, i, i);
  }

  /** The best project seen so far. */
  ghost predicate BestOf<T>(w: Weighted<T>, taken: seq<nat>, n: nat, best: Option<nat>) {
    && |taken| == |w| && n <= |w|
    && (best.None? ==> forall j | 0 <= j < n :: !HasLeft(w, taken, j))
    && (best.Some? ==>
          && best.value < n && HasLeft(w, taken, best.value)
          && (forall j | 0 <= j < n && HasLeft(w, taken, j) :: !Preferred(w, taken, j, best.value))
          && forall j | 0 <= j < best.value && HasLeft(w, taken, j) :: Preferred(w, taken, best.value, j))
  }

  lemma Multiply(a: int, b: int, c: nat)
    requires a < b && c > 0
    ensures a * c < b * c
  {
  }

  lemma MultiplyEqual(a: int, b: int, c: int)
    requires c > 0 && a * c == b * c
    ensures a == b
  {
  }

  /** Ratios are ordered: less, or equal, than one that is no more than a third. */
  lemma RatioTransitive(a: nat, b: nat, c: nat, d: nat, e: nat, f: nat)
    requires b > 0 && d > 0 && f > 0 && a * d <= c * b && c * f <= e * d
    ensures a * f <= e * b
    ensures a * f == e * b ==> a * d == c * b && c * f == e * d
  {
    RatioProducts(a, b, c, d, e, f);
    if a * f > e * b {
      Multiply(e * b, a * f, d);
    }
    if a * f == e * b {
      assert a * d * f == c * b * f && c * f * b == e * d * b;
      MultiplyEqual(a * d, c * b, f);
      MultiplyEqual(c * f, e * d, b);
    }
  }

  lemma RatioProducts(a: nat, b: nat, c: nat, d: nat, e: nat, f: nat)
    requires a * d <= c * b && c * f <= e * d
    ensures a * f * d == a * d * f && e * b * d == e * d * b
    ensures a * d * f <= c * b * f && c * f * b <= e * d * b && c * b * f == c * f * b
  {
    Product(a, f, d);
    Product(e, b, d);
    Product(c, b, f);
    Monotone(a * d, c * b, f);
    Monotone(c * f, e * d, b);
  }

  lemma Product(a: nat, b: nat, c: nat)
    ensures a * b * c == a * c * b
  {
  }

  lemma Monotone(a: nat, b: nat, c: nat)
    requires a <= b
    ensures a * c <= b * c
  {
  }

  /** Preference is transitive, also through projects that are merely not preferred to each other. */
  lemma PreferredTransitive<T>(w: Weighted<T>, taken: seq<nat>, i: nat, b: nat, j: nat)
    requires |taken| == |w| && i < |w| && b < |w| && j < |w|
    requires w[i].entries != [] && w[b].entries != [] && w[j].entries != []
    requires Preferred(w, taken, i, b) && !Preferred(w, taken, j, b)
    ensures Preferred(w, taken, i, j) && !Preferred(w, taken, j, i)
  {
    RatioTransitive(taken[i], |w[i].entries|, taken[b], |w[b].entries|, taken[j], |w[j].entries|);
  }

  lemma BetterSeen<T>(w: Weighted<T>, taken: seq<nat>, n: nat, best: Option<nat>)
    requires BestOf(w, taken, n, best) && n < |w| && (forall i | 0 <= i < |w| :: w[i].entries != [])
    ensures !HasLeft(w, taken, n) ==> BestOf(w, taken, n + 1, best)
    ensures HasLeft(w, taken, n) && best.None? ==> BestOf(w, taken, n + 1, Some(n))
    ensures HasLeft(w, taken, n) && best.Some? ==> BestOf(w, taken, n + 1, if Preferred(w, taken, n, best.value) then Some(n) else best)
  {
    hide Preferred;
    NotBefore(w, taken, n);
    if HasLeft(w, taken, n) && best.Some? && Preferred(w, taken, n, best.value) {
      forall j | 0 <= j < n && HasLeft(w, taken, j)
        ensures Preferred(w, taken, n, j) && !Preferred(w, taken, j, n)
      {
        PreferredTransitive(w, taken, n, best.value, j);
      }
    }
  }

  lemma NotBefore<T>(w: Weighted<T>, taken: seq<nat>, i: nat)
    requires |taken| == |w| && i < |w|
    ensures !Preferred(w, taken, i, i)
  {
  }

  /** The least served project with entries left, if any. */
  method PickLeastServed<T>(w: Weighted<T>, left: seq<seq<T>>, taken: seq<nat>, ghost at: seq<Pos>) returns (best: Option<nat>)
    requires Drained(w, left, taken, at) && forall i | 0 <= i < |w| :: w[i].entries != []
    ensures best.Some? ==> LeastServed(w, taken, best.value)
    ensures best.None? ==> forall i | 0 <= i < |w| :: !HasLeft(w, taken, i)
  {
    hide Preferred;
    best := None;
    for i := 0 to |w|
      invariant BestOf(w, taken, i, best)
    {
      BetterSeen(w, taken, i, best);
      if left[i] != [] {
        if best.None? || Preferred(w, taken, i, best.value) {
          best := Some(i);
        }
      }
    }
  }

  /** All weights within 1e-9 of one. */
  predicate NearOne(x: real) {
    -0.000000001 < x - 1.0 < 0.000000001
  }

  ghost predicate Allocated<T>(w: Weighted<T>, shares: nat -> nat, batch: nat, at: seq<Pos>, order: seq<T>) {
    && ByProject(EntriesOf(w), at) && order == Pick(EntriesOf(w), at)
    && |at| == Min(batch, Total(EntriesOf(w)))
    && Sweep(w, shares, batch, |w|) <= at
    && TailFair(w, at, |Sweep(w, shares, batch, |w|)|)
  }

  lemma TailGrows<T>(w: Weighted<T>, at: seq<Pos>, from: nat, i: nat)
    requires TailFair(w, at, from) && LeastServed(w, Counts(at, |w|), i)
    ensures TailFair(w, at + [Pos(CountOf(at, i), i)], from)
  {
    var all := at + [Pos(CountOf(at, i), i)];
    forall t | from <= t < |all|
      ensures LeastServed(w, Counts(all[..t], |w|), all[t].project)
    {
      assert all[..t] == at[..t];
      if t == |at| {
        assert at[..t] == at;
      }
    }
  }

  /** One left-over slot to the least served project, until the slots or the entries run out. */
  method Distribute<T>(w: Weighted<T>, shares: nat -> nat, batch: nat, order: seq<T>, left: seq<seq<T>>, taken: seq<nat>, remaining: nat)
    returns (order': seq<T>, at: seq<Pos>)
    requires forall i | 0 <= i < |w| :: w[i].entries != []
    requires SweptTo(w, Sweep(w, shares, batch, |w|), batch, order, left, taken, remaining)
    ensures Allocated(w, shares, batch, at, order')
  {
    hide Drained, Pick, AllExist, ByProject, TailFair, Sweep, Total;
    var swept := Sweep(w, shares, batch, |w|);
    SweepIsByProject(w, shares, batch, |w|);
    NoTail(w, swept);
    at, order' := swept, order;
    var left', taken', remaining' := left, taken, remaining;
    while remaining' > 0
      invariant ByProject(EntriesOf(w), at) && AllExist(EntriesOf(w), at) && order' == Pick(EntriesOf(w), at)
      invariant Drained(w, left', taken', at) && remaining' == batch - |at|
      invariant swept <= at && TailFair(w, at, |swept|)
    {
      var best := PickLeastServed(w, left', taken', at);
      DrainedCounts(w, left', taken', at);
      if best.None? {
        LengthIs(w, at);
        return;
      }
      var i := best.value;
      DrainOne(w, left', taken', at, i);
      ByProjectSnoc(EntriesOf(w), at, i);
      TailGrows(w, at, |swept|, i);
      order' := order' + [left'[i][0]];
      at := at + [Pos(CountOf(at, i), i)];
      left' := left'[i := left'[i][1..]];
      taken' := taken'[i := taken'[i] + 1];
      remaining' := remaining' - 1;
    }
    LengthIs(w, at);
  }

  lemma NoTail<T>(w: Weighted<T>, swept: seq<Pos>)
    ensures TailFair(w, swept, |swept|)
  {
  }

  lemma DrainedCounts<T>(w: Weighted<T>, left: seq<seq<T>>, taken: seq<nat>, at: seq<Pos>)
    requires Drained(w, left, taken, at)
    ensures taken == Counts(at, |w|) && |left| == |taken| == |w|
    ensures forall i | 0 <= i < |w| :: left[i] != [] <==> HasLeft(w, taken, i)
    ensures forall i | 0 <= i < |w| :: taken[i] == CountOf(at, i) && EntriesOf(w)[i] == w[i].entries
  {
  }

  /**
   The weighted carousel.  With all weights one it is the plain one; otherwise it fills as many slots as
   there are, or entries to fill them, each project's entries in order, and the tail goes to the least served.
   */
  method WeightedCarouselBounded<T>(projects: Weighted<T>, shares: nat -> nat, batch: nat) returns (order: seq<T>, at: seq<Pos>)
    ensures var w := Active(projects);
      && |order| == Min(batch, Total(EntriesOf(w)))
      && ((forall i | 0 <= i < |w| :: 0.999999999 < w[i].weight < 1.000000001) ==> order == FirstOf(Interleaved(EntriesOf(w)), batch))
      && ((exists i :: 0 <= i < |w| && (w[i].weight <= 0.999999999 || w[i].weight >= 1.000000001)) && batch > 0 ==> Allocated(w, shares, batch, at, order))
  {
    hide Allocated, Interleaved, Sweep, SweptTo, Total;
    at := [];
    var w := Active(projects);
    NoProjects(w, batch);
    if batch == 0 || w == [] {
      return [], at;
    }
    if forall i | 0 <= i < |w| :: NearOne(w[i].weight) {
      order := CarouselBounded(EntriesOf(w), batch);
      BoundedLength(EntriesOf(w), batch);
      return;
    }
    var swept, left, taken, remaining := WeightedSweep(w, shares, batch);
    order, at := Distribute(w, shares, batch, swept, left, taken, remaining);
    ResultLength(w, shares, batch, at, order);
  }

  lemma NoProjects<T>(w: Weighted<T>, batch: nat)
    ensures w == [] ==> Total(EntriesOf(w)) == 0 && Interleaved(EntriesOf(w)) == []
    ensures batch == 0 ==> FirstOf(Interleaved(EntriesOf(w)), batch) == []
  {
  }

  lemma ResultLength<T>(w: Weighted<T>, shares: nat -> nat, batch: nat, at: seq<Pos>, order: seq<T>)
    requires Allocated(w, shares, batch, at, order)
    ensures |order| == Min(batch, Total(EntriesOf(w)))
  {
  }

  /** The plain order has every entry of every project. */
  lemma BoundedLength<T>(p: seq<seq<T>>, batch: nat)
    ensures |FirstOf(Interleaved(p), batch)| == Min(batch, Total(p))
  {
    hide Rows, Longest, Total;
    RowsTotal(p);
  }

  lemma RowsTotal<T>(p: seq<seq<T>>)
    ensures |Rows(p, Longest(p))| == Total(p)
  {
    hide Rows, Longest, Total, CountOf;
    var at := Rows(p, Longest(p));
    SumIsLength(at, |p|);
    forall i | 0 <= i < |p|
      ensures Counts(at, |p|)[i] == |p[i]|
    {
      CountInRows(p, Longest(p), i);
    }
    SumAtMostTotal(p, Counts(at, |p|));
  }

  // ----- Left-over slots are not dealt out one a project

  /** After the blocks of two projects, of 4 and 2 entries. */
  lemma TwoBlocks<T>(w: Weighted<T>, shares: nat -> nat)
    requires |w| == 2 && |w[0].entries| == 40 && |w[1].entries| == 4 && shares(0) == 4 && shares(1) == 2
    ensures var swept := Sweep(w, shares, 8, 2); |swept| == 6 && CountOf(swept, 0) == 4 && CountOf(swept, 1) == 2
  {
    hide CountOf, Block;
    var a, b := Block(0, 0, 4), Block(1, 0, 2);
    BlockSizes();
    assert Sweep(w, shares, 8, 0) == [] && [] + a == a;
    assert Sweep(w, shares, 8, 1) == a;
    assert Sweep(w, shares, 8, 2) == a + b;
    CountJoins(a, b, 0);
    CountJoins(a, b, 1);
    CountOfBlock(0, 0, 4, 0);
    CountOfBlock(0, 0, 4, 1);
    CountOfBlock(1, 0, 2, 0);
    CountOfBlock(1, 0, 2, 1);
  }

  lemma BlockSizes()
    ensures |Block(0, 0, 4)| == 4 && |Block(1, 0, 2)| == 2
  {
  }

  /** Of two projects, the one with 4 of 40 entries served comes before the one with 2 of 4, and so it does with 5. */
  lemma FirstIsNext<T>(w: Weighted<T>, at: seq<Pos>, i: nat)
    requires |w| == 2 && |w[0].entries| == 40 && |w[1].entries| == 4
    requires LeastServed(w, Counts(at, 2), i) && 4 <= CountOf(at, 0) <= 5 && CountOf(at, 1) == 2
    ensures i == 0
  {
    hide CountOf;
    assert HasLeft(w, Counts(at, 2), 0) && Preferred(w, Counts(at, 2), 0, 1);
  }

  /**
   Two projects of equal weight, with 40 and 4 entries, and 8 slots: the shares are 4 and 2, and both left-over
   slots go to the first project, though the second has entries left.
   */
  lemma LeftoversGoToOne<T>(w: Weighted<T>, shares: nat -> nat, at: seq<Pos>, order: seq<T>)
    requires |w| == 2 && |w[0].entries| == 40 && |w[1].entries| == 4 && shares(0) == 4 && shares(1) == 2
    requires Allocated(w, shares, 8, at, order)
    ensures |Sweep(w, shares, 8, 2)| == 6 && |at| == 8 && at[6].project == 0 && at[7].project == 0
    ensures HasLeft(w, Counts(at, 2), 1)
  {
    hide CountOf, LeastServed, Sweep, ByProject, Pick;
    TwoBlocks(w, shares);
    TwoTotal(EntriesOf(w));
    assert at[..6] == Sweep(w, shares, 8, 2);
    FirstIsNext(w, at[..6], at[6].project);
    assert at[..7] == at[..6] + [at[6]] && at == at[..7] + [at[7]];
    CountSnoc(at[..6], at[6], 0);
    CountSnoc(at[..6], at[6], 1);
    FirstIsNext(w, at[..7], at[7].project);
    CountSnoc(at[..7], at[7], 1);
  }

  lemma TwoTotal<T>(p: seq<seq<T>>)
    requires |p| == 2
    ensures Total(p) == |p[0]| + |p[1]|
  {
    assert p[..1] == [p[0]] && [p[0]][..0] == [];
    assert Total([p[0]]) == |p[0]|;
  }
}
