/** Which part of a split owns which artifact, and which parts wait for which. */
module Ownership {
  import opened Wrappers
  import Graph
  import opened Text
  import opened KeyOrder
  import opened Annotate

  // ----- The artifacts of a part

  /** The artifacts a criterion names. */
  function Named(criterion: string): seq<string> {
    Modules(Words(criterion))
  }

  ghost function Artifacts(indices: seq<nat>, criteria: seq<string>): set<string> {
    if indices == [] then {}
    else
      var front, last := Artifacts(indices[..|indices| - 1], criteria), indices[|indices| - 1];
      if last < |criteria| then front + (set m | m in Named(criteria[last])) else front
  }

  /** What the part's criteria name, each once and in order. */
  ghost function Owned(indices: seq<nat>, criteria: seq<string>): seq<string> {
    Sorted(Artifacts(indices, criteria))
  }

  function InsertName(sorted: seq<string>, n: string): seq<string> {
    if sorted == [] || Less(sorted[|sorted| - 1], n) then sorted + [n]
    else InsertName(sorted[..|sorted| - 1], n) + [sorted[|sorted| - 1]]
  }

  lemma {:induction false} InsertNameIs(sorted: seq<string>, n: string)
    requires Increasing(sorted) && n !in sorted
    ensures Increasing(InsertName(sorted, n)) && forall k :: k in InsertName(sorted, n) <==> k in sorted || k == n
  {
    hide Less;
    if sorted != [] {
      var front, last := sorted[..|sorted| - 1], sorted[|sorted| - 1];
      assert sorted == front + [last];
      if Less(last, n) {
        forall i | 0 <= i < |sorted|
          ensures Less(sorted[i], n)
        {
          if i < |front| {
            LessTransitive(sorted[i], last, n);
          }
        }
      } else {
        InsertNameIs(front, n);
        LessTotal(last, n);
        forall k | k in InsertName(front, n)
          ensures Less(k, last)
        {
          if k != n {
            var i :| 0 <= i < |front| && front[i] == k;
            assert sorted[i] == k;
          }
        }
      }
    }
  }

  method SortNames(names: seq<string>, ghost keys: set<string>) returns (sorted: seq<string>)
    requires Graph.Distinct(names) && forall k :: k in names <==> k in keys
    ensures sorted == Sorted(keys)
  {
    hide InsertName, Sorted, Less;
    sorted := [];
    for i := 0 to |names|
      invariant Increasing(sorted) && forall k :: k in sorted <==> k in names[..i]
    {
      InsertNameIs(sorted, names[i]);
      assert names[..i + 1] == names[..i] + [names[i]];
      sorted := InsertName(sorted, names[i]);
    }
    assert names[..|names|] == names;
    SortedIncreases(keys);
    ScanUnique(sorted, Sorted(keys), keys);
  }

  ghost predicate IsListing(names: seq<string>, keys: set<string>) {
    Graph.Distinct(names) && forall k :: k in names <==> k in keys
  }

  method OwnedArtifacts(indices: seq<nat>, criteria: seq<string>) returns (owned: seq<string>)
    ensures owned == Owned(indices, criteria)
  {
    hide Modules, Words, Sorted;
    owned := [];
    for i := 0 to |indices|
      invariant IsListing(owned, Artifacts(indices[..i], criteria))
    {
      assert indices[..i + 1][..i] == indices[..i];
      if indices[i] < |criteria| {
        var modules := ExtractMentionedModules(criteria[indices[i]]);
        ghost var before := Artifacts(indices[..i], criteria);
        for j := 0 to |modules|
          invariant IsListing(owned, before + (set m | m in modules[..j]))
        {
          assert modules[..j + 1] == modules[..j] + [modules[j]];
          if modules[j] !in owned {
            owned := owned + [modules[j]];
          }
        }
        assert modules[..|modules|] == modules;
      }
    }
    assert indices[..|indices|] == indices;
    owned := SortNames(owned, Artifacts(indices, criteria));
  }

  // ----- Who waits for whom

  /** A criterion of the group creates the artifact. */
  predicate Creates(group: seq<nat>, criteria: seq<string>, artifact: string) {
    exists k :: 0 <= k < |group| && IsCreation(group[k], criteria, artifact)
  }

  predicate IsCreation(index: nat, criteria: seq<string>, artifact: string) {
    index < |criteria| && Contains(criteria[index], "test -f") && Contains(criteria[index], artifact)
  }

  /** The group creates something it owns and the others own, too. */
  ghost predicate Supplies(mine: seq<string>, group: seq<nat>, criteria: seq<string>) {
    exists a :: a in Owned(group, criteria) && a in mine && Creates(group, criteria, a)
  }

  /** The parts, other than `me`, that create what part `me` names. */
  ghost function WaitsFor(mine: seq<string>, groups: seq<seq<nat>>, me: nat, criteria: seq<string>): seq<nat> {
    if groups == [] then []
    else
      var front, last := WaitsFor(mine, groups[..|groups| - 1], me, criteria), groups[|groups| - 1];
      if |groups| != me && Supplies(mine, last, criteria) then front + [|groups|] else front
  }

  method FindSupply(mine: seq<string>, group: seq<nat>, criteria: seq<string>) returns (r: bool)
    ensures r == Supplies(mine, group, criteria)
  {
    hide Owned, Creates;
    var theirs := OwnedArtifacts(group, criteria);
    for j := 0 to |theirs|
      invariant forall i | 0 <= i < j :: !(theirs[i] in mine && Creates(group, criteria, theirs[i]))
    {
      if theirs[j] in mine && Creates(group, criteria, theirs[j]) {
        return true;
      }
    }
    r := false;
  }

  /** The list is made in order, and so its sort changes nothing. */
  method DependsOnParts(indices: seq<nat>, groups: seq<seq<nat>>, criteria: seq<string>, me: nat) returns (deps: seq<nat>)
    ensures deps == WaitsFor(Owned(indices, criteria), groups, me, criteria)
  {
    hide Owned, Supplies;
    var mine := OwnedArtifacts(indices, criteria);
    deps := [];
    for i := 0 to |groups|
      invariant deps == WaitsFor(mine, groups[..i], me, criteria)
    {
      assert groups[..i + 1][..i] == groups[..i];
      if i + 1 == me {
        continue;
      }
      var creates := FindSupply(mine, groups[i], criteria);
      if creates {
        deps := deps + [i + 1];
      }
    }
    assert groups[..|groups|] == groups;
  }

  /** Exactly the parts that create something. */
  lemma {:induction false} WaitsForIff(mine: seq<string>, groups: seq<seq<nat>>, me: nat, criteria: seq<string>, p: nat)
    ensures p in WaitsFor(mine, groups, me, criteria) <==> 0 < p <= |groups| && p != me && Supplies(mine, groups[p - 1], criteria)
  {
    hide Supplies;
    if groups != [] {
      var front := groups[..|groups| - 1];
      WaitsForIff(mine, front, me, criteria, p);
      if 0 < p <= |front| {
        assert front[p - 1] == groups[p - 1];
      }
    }
  }

  ghost predicate Ascends(w: seq<nat>, most: nat) {
    (forall i | 0 <= i < |w| :: w[i] <= most) && forall i, j | 0 <= i < j < |w| :: w[i] < w[j]
  }

  lemma Ascended(w: seq<nat>, most: nat)
    requires Ascends(w, most)
    ensures Ascends(w, most + 1) && Ascends(w + [most + 1], most + 1)
  {
  }

  lemma {:induction false} WaitsInOrder(mine: seq<string>, groups: seq<seq<nat>>, me: nat, criteria: seq<string>)
    ensures Ascends(WaitsFor(mine, groups, me, criteria), |groups|)
  {
    hide Supplies, Ascends;
    if groups == [] {
      NothingAscends();
    } else {
      var front := groups[..|groups| - 1];
      WaitsInOrder(mine, front, me, criteria);
      Ascended(WaitsFor(mine, front, me, criteria), |front|);
    }
  }

  lemma NothingAscends()
    ensures Ascends([], 0)
  {
  }

  /** What the metadata of part `p` says it waits for. */
  ghost function WaitsOf(groups: seq<seq<nat>>, criteria: seq<string>, p: nat): seq<nat> {
    if 0 < p <= |groups| then WaitsFor(Owned(groups[p - 1], criteria), groups, p, criteria) else []
  }

  /** Two parts wait for each other if and only if each creates something that both name. */
  lemma WaitForEachOther(groups: seq<seq<nat>>, criteria: seq<string>, p: nat, q: nat)
    requires 0 < p <= |groups| && 0 < q <= |groups| && p != q
    ensures q in WaitsOf(groups, criteria, p) && p in WaitsOf(groups, criteria, q) <==>
      Supplies(Owned(groups[p - 1], criteria), groups[q - 1], criteria) && Supplies(Owned(groups[q - 1], criteria), groups[p - 1], criteria)
  {
    hide Owned, Supplies;
    WaitsForIff(Owned(groups[p - 1], criteria), groups, p, criteria, q);
    WaitsForIff(Owned(groups[q - 1], criteria), groups, q, criteria, p);
  }

  // ----- Whether the parts can be run in some order

  /** All parts, each behind the ones it waits for. */
  ghost predicate RunsInOrder(groups: seq<seq<nat>>, criteria: seq<string>, order: seq<nat>) {
    && Graph.Distinct(order)
    && (forall p: nat :: p in order <==> 0 < p <= |groups|)
    && forall i, q | 0 <= i < |order| && q in WaitsOf(groups, criteria, order[i]) :: q in order[..i]
  }

  function FileOrder(n: nat): seq<nat> {
    seq(n, i => i + 1)
  }

  lemma InFileOrder(n: nat, i: nat, q: nat)
    requires i <= n
    ensures q in FileOrder(n)[..i] <==> 0 < q <= i
  {
    if 0 < q <= i {
      assert FileOrder(n)[..i][q - 1] == q;
    }
  }

  ghost function Parts(groups: seq<seq<nat>>): set<nat> {
    set p | p in FileOrder(|groups|)
  }

  lemma PartsAre(groups: seq<seq<nat>>, p: nat)
    ensures p in Parts(groups) <==> 0 < p <= |groups|
  {
    var order := FileOrder(|groups|);
    assert order[..|groups|] == order;
    InFileOrder(|groups|, |groups|, p);
  }

  /** Each part points at the ones it waits for. */
  ghost function WaitEdges(groups: seq<seq<nat>>, criteria: seq<string>): Graph.Edges<nat> {
    map p | p in Parts(groups) :: WaitsOf(groups, criteria, p)
  }

  lemma EdgesAreWaits(groups: seq<seq<nat>>, criteria: seq<string>, p: nat, q: nat)
    ensures Graph.Succ(WaitEdges(groups, criteria), p) == WaitsOf(groups, criteria, p)
    ensures q in WaitsOf(groups, criteria, p) ==> q in Parts(groups)
  {
    hide Owned, Supplies, Parts;
    PartsAre(groups, p);
    PartsAre(groups, q);
    if 0 < p <= |groups| {
      WaitsForIff(Owned(groups[p - 1], criteria), groups, p, criteria, q);
    }
  }

  /** The parts can be run in some order if and only if no part waits, from part to part, for itself. */
  lemma OrderableIff(groups: seq<seq<nat>>, criteria: seq<string>)
    ensures (exists order :: RunsInOrder(groups, criteria, order)) <==> !Graph.Cyclic(WaitEdges(groups, criteria))
  {
    hide Graph.Cyclic, Graph.Succ, WaitsOf, Parts;
    var g := WaitEdges(groups, criteria);
    forall p: nat
      ensures p in Parts(groups) <==> 0 < p <= |groups|
    {
      PartsAre(groups, p);
    }
    if order :| RunsInOrder(groups, criteria, order) {
      forall i, q | 0 <= i < |order| && q in Graph.Succ(g, order[i])
        ensures q in order[..i]
      {
        EdgesAreWaits(groups, criteria, order[i], q);
      }
      Graph.OrderIsAcyclic(g, order);
    }
    if !Graph.Cyclic(g) {
      var order := Graph.AcyclicOrder(g, Parts(groups));
      forall i, q | 0 <= i < |order| && q in WaitsOf(groups, criteria, order[i])
        ensures q in order[..i]
      {
        EdgesAreWaits(groups, criteria, order[i], q);
      }
      assert RunsInOrder(groups, criteria, order);
    }
  }

  /** A ring of parts, each naming something that the next one creates and names. */
  ghost predicate IsRing(groups: seq<seq<nat>>, criteria: seq<string>, ring: seq<nat>) {
    && |ring| >= 2 && ring[0] == ring[|ring| - 1]
    && forall i | 0 <= i < |ring| - 1 :: Needs(groups, criteria, ring[i], ring[i + 1])
  }

  ghost predicate Needs(groups: seq<seq<nat>>, criteria: seq<string>, p: nat, q: nat) {
    0 < p <= |groups| && 0 < q <= |groups| && p != q && Supplies(Owned(groups[p - 1], criteria), groups[q - 1], criteria)
  }

  lemma NeedsIsEdge(groups: seq<seq<nat>>, criteria: seq<string>, p: nat, q: nat)
    ensures Needs(groups, criteria, p, q) <==> q in WaitsOf(groups, criteria, p)
    ensures Needs(groups, criteria, p, q) <==> q in Graph.Succ(WaitEdges(groups, criteria), p)
  {
    hide Owned, Supplies, WaitEdges, Graph.Succ;
    EdgesAreWaits(groups, criteria, p, q);
    if 0 < p <= |groups| {
      WaitsForIff(Owned(groups[p - 1], criteria), groups, p, criteria, q);
    }
  }

  lemma RingIsWalk(groups: seq<seq<nat>>, criteria: seq<string>, ring: seq<nat>)
    ensures IsRing(groups, criteria, ring) <==>
      |ring| >= 2 && Graph.Walk(WaitEdges(groups, criteria), ring) && ring[0] == ring[|ring| - 1]
  {
    hide Needs, WaitEdges, Graph.Succ;
    forall i | 0 <= i < |ring| - 1
      ensures Needs(groups, criteria, ring[i], ring[i + 1]) <==> Graph.Hop(WaitEdges(groups, criteria), ring, i)
    {
      NeedsIsEdge(groups, criteria, ring[i], ring[i + 1]);
    }
  }

  /** In terms of the criteria: an order is missing if and only if there is a ring of parts. */
  lemma NoOrderIffRing(groups: seq<seq<nat>>, criteria: seq<string>)
    ensures (exists order :: RunsInOrder(groups, criteria, order)) <==> !exists ring :: IsRing(groups, criteria, ring)
  {
    hide RunsInOrder, IsRing, WaitEdges, Graph.Walk;
    OrderableIff(groups, criteria);
    if Graph.Cyclic(WaitEdges(groups, criteria)) {
      var p :| |p| >= 2 && Graph.Walk(WaitEdges(groups, criteria), p) && p[0] == p[|p| - 1];
      RingIsWalk(groups, criteria, p);
    }
    if ring :| IsRing(groups, criteria, ring) {
      RingIsWalk(groups, criteria, ring);
    }
  }

  /** The parts can be run as they are numbered if and only if none needs a later one. */
  lemma FileOrderIff(groups: seq<seq<nat>>, criteria: seq<string>)
    ensures RunsInOrder(groups, criteria, FileOrder(|groups|)) <==> forall p: nat, q: nat | p < q :: !Needs(groups, criteria, p, q)
  {
    hide Needs, WaitsOf;
    var n, order := |groups|, FileOrder(|groups|);
    assert order[..n] == order;
    forall p: nat, q: nat
      ensures Needs(groups, criteria, p, q) <==> q in WaitsOf(groups, criteria, p)
      ensures Needs(groups, criteria, p, q) ==> 0 < p <= n && 0 < q <= n && p != q
    {
      NeedsIsEdge(groups, criteria, p, q);
      NeedsAnother(groups, criteria, p, q);
    }
    forall i: nat, q: nat | i <= n
      ensures q in order[..i] <==> 0 < q <= i
    {
      InFileOrder(n, i, q);
    }
    if !RunsInOrder(groups, criteria, order) {
      var i, q :| 0 <= i < n && q in WaitsOf(groups, criteria, order[i]) && q !in order[..i];
      assert Needs(groups, criteria, i + 1, q);
    } else if p: nat, q: nat :| p < q && Needs(groups, criteria, p, q) {
      assert order[p - 1] == p && q in order[..p - 1];
    }
  }

  lemma NeedsAnother(groups: seq<seq<nat>>, criteria: seq<string>, p: nat, q: nat)
    ensures Needs(groups, criteria, p, q) ==> 0 < p <= |groups| && 0 < q <= |groups| && p != q
  {
  }

  // ----- Who owns what

  /** The artifact's entry, or a new one, names the part. */
  function WithOwner(owners: Owners, artifact: string, part: nat): Owners {
    if owners == [] then [(artifact, [part])]
    else if owners[0].0 == artifact then
      [(artifact, if part in owners[0].1 then owners[0].1 else owners[0].1 + [part])] + owners[1..]
    else [owners[0]] + WithOwner(owners[1..], artifact, part)
  }

  function WithOwners(owners: Owners, artifacts: seq<string>, part: nat): Owners {
    if artifacts == [] then owners
    else WithOwner(WithOwners(owners, artifacts[..|artifacts| - 1], part), artifacts[|artifacts| - 1], part)
  }

  ghost function AllOwners(groups: seq<seq<nat>>, criteria: seq<string>): Owners {
    if groups == [] then []
    else WithOwners(AllOwners(groups[..|groups| - 1], criteria), Owned(groups[|groups| - 1], criteria), |groups|)
  }

  method ArtifactOwners(groups: seq<seq<nat>>, criteria: seq<string>) returns (owners: Owners)
    ensures owners == AllOwners(groups, criteria)
  {
    hide Owned;
    owners := [];
    for i := 0 to |groups|
      invariant owners == AllOwners(groups[..i], criteria)
    {
      hide WithOwner;
      assert groups[..i + 1][..i] == groups[..i];
      var owned := OwnedArtifacts(groups[i], criteria);
      ghost var before := owners;
      for j := 0 to |owned|
        invariant owners == WithOwners(before, owned[..j], i + 1)
      {
        assert owned[..j + 1][..j] == owned[..j];
        owners := WithOwner(owners, owned[j], i + 1);
      }
      assert owned[..|owned|] == owned;
    }
    assert groups[..|groups|] == groups;
  }

  /** The numbers of the parts that own it, in order. */
  ghost function PartsOwning(groups: seq<seq<nat>>, criteria: seq<string>, artifact: string): seq<nat> {
    if groups == [] then []
    else
      PartsOwning(groups[..|groups| - 1], criteria, artifact)
      + if artifact in Owned(groups[|groups| - 1], criteria) then [|groups|] else []
  }

  lemma {:induction false} WithOwnerIs(owners: Owners, artifact: string, part: nat, t: string)
    ensures var parts := OwnersOf(t, owners);
      OwnersOf(t, WithOwner(owners, artifact, part)) == if t != artifact || part in parts then parts else parts + [part]
  {
    if owners != [] {
      WithOwnerIs(owners[1..], artifact, part, t);
    }
  }

  lemma {:induction false} WithOwnersIs(owners: Owners, artifacts: seq<string>, part: nat, t: string)
    requires part !in OwnersOf(t, owners)
    ensures OwnersOf(t, WithOwners(owners, artifacts, part)) == OwnersOf(t, owners) + if t in artifacts then [part] else []
  {
    hide OwnersOf, WithOwner;
    if artifacts != [] {
      var front, last := artifacts[..|artifacts| - 1], artifacts[|artifacts| - 1];
      WithOwnersIs(owners, front, part, t);
      WithOwnerIs(WithOwners(owners, front, part), last, part, t);
      assert artifacts == front + [last];
    }
  }

  /** The table of owners lists, for every artifact, the parts whose criteria name it. */
  lemma {:induction false} OwnersAreExact(groups: seq<seq<nat>>, criteria: seq<string>, t: string)
    ensures OwnersOf(t, AllOwners(groups, criteria)) == PartsOwning(groups, criteria, t)
    ensures forall p: nat :: p in PartsOwning(groups, criteria, t) <==> 0 < p <= |groups| && t in Owned(groups[p - 1], criteria)
  {
    hide Owned, WithOwners;
    if groups != [] {
      var front, last := groups[..|groups| - 1], groups[|groups| - 1];
      OwnersAreExact(front, criteria, t);
      WithOwnersIs(AllOwners(front, criteria), Owned(last, criteria), |groups|, t);
      assert forall p | 0 <= p < |front| :: front[p] == groups[p];
    }
  }

  /** The architecture line names, by itself, an artifact another part owns. */
  ghost predicate NamesForeign(line: string, me: nat, groups: seq<seq<nat>>, criteria: seq<string>) {
    exists i, p :: 0 <= i < |Named(line)| && Bounded(line, Named(line)[i], 0).Some? && IsOthers(Named(line)[i], p, me, groups, criteria)
  }

  ghost predicate IsOthers(artifact: string, p: nat, me: nat, groups: seq<seq<nat>>, criteria: seq<string>) {
    0 < p <= |groups| && p != me && artifact in Owned(groups[p - 1], criteria)
  }

  lemma {:induction false} OthersAre(parts: seq<nat>, me: nat)
    ensures Others(parts, me) == [] <==> forall i | 0 <= i < |parts| :: parts[i] == me
  {
    hide InsertNumber;
    if parts != [] {
      var front, last := parts[..|parts| - 1], parts[|parts| - 1];
      OthersAre(front, me);
      Inserted(Others(front, me), last);
      assert forall i | 0 <= i < |front| :: front[i] == parts[i];
    }
  }

  lemma Inserted(sorted: seq<nat>, n: nat)
    ensures InsertNumber(sorted, n) != []
  {
  }

  /** A line of the architecture is left alone if and only if it names no artifact of another part. */
  lemma MarkedIffOthers(line: string, me: nat, groups: seq<seq<nat>>, criteria: seq<string>)
    ensures AnnotatedLine(line, me, AllOwners(groups, criteria)) == line <==> !NamesForeign(line, me, groups, criteria)
  {
    hide Modules, Words, AnnotatedLine, Bounded, Owned, Others, OwnersOf, AllOwners;
    var owners, tokens := AllOwners(groups, criteria), Named(line);
    MarkedIffForeign(line, me, owners);
    forall i | 0 <= i < |tokens|
      ensures Others(OwnersOf(tokens[i], owners), me) == [] <==> forall p: nat :: !IsOthers(tokens[i], p, me, groups, criteria)
    {
      OwnersAreExact(groups, criteria, tokens[i]);
      OthersAre(OwnersOf(tokens[i], owners), me);
      OnlyMine(tokens[i], me, groups, criteria);
    }
  }

  lemma OnlyMine(t: string, me: nat, groups: seq<seq<nat>>, criteria: seq<string>)
    requires forall p: nat :: p in PartsOwning(groups, criteria, t) <==> 0 < p <= |groups| && t in Owned(groups[p - 1], criteria)
    ensures (forall i | 0 <= i < |PartsOwning(groups, criteria, t)| :: PartsOwning(groups, criteria, t)[i] == me) <==> forall p: nat :: !IsOthers(t, p, me, groups, criteria)
  {
    hide Owned, PartsOwning;
    if forall p: nat :: !IsOthers(t, p, me, groups, criteria) {
      forall i | 0 <= i < |PartsOwning(groups, criteria, t)|
        ensures PartsOwning(groups, criteria, t)[i] == me
      {
        var p := PartsOwning(groups, criteria, t)[i];
        assert p in PartsOwning(groups, criteria, t) && !IsOthers(t, p, me, groups, criteria);
      }
    } else {
      var p: nat :| IsOthers(t, p, me, groups, criteria);
      assert p in PartsOwning(groups, criteria, t);
    }
  }

  // ----- An input on which the children cannot be ordered

  const CHECK_A: string := "test -f a.c"

  lemma CheckWords()
    ensures Words(CHECK_A) == ["test", "-f", "a.c"]
  {
    hide Fields;
    OneField("a.c", IsNoModuleChar, "");
    FieldsBehind("-f", ' ', "a.c", IsNoModuleChar, "");
    FieldsBehind("test", ' ', "-f a.c", IsNoModuleChar, "");
    assert "-f" + [' '] + "a.c" == "-f a.c" && "test" + [' '] + "-f a.c" == CHECK_A;
    assert "" + "a.c" == "a.c" && "" + "-f" == "-f" && "" + "test" == "test";
  }

  lemma CheckNames()
    ensures "a.c" in Named(CHECK_A)
  {
    hide Words;
    CheckWords();
    var words := ["test", "-f", "a.c"];
    assert words[..2] == ["test", "-f"];
    assert TrimDots("a.c") == "a.c";
    assert LastDot("a.c") == Some(1) by {
      assert "a.c"[..2] == "a.";
    }
    assert "a.c"[2..] == "c" && EXTENSIONS[7] == "c";
    assert IsModule("a.c");
  }

  lemma CheckCreates(group: seq<nat>, criteria: seq<string>)
    requires |group| == 1 && group[0] < |criteria| && criteria[group[0]] == CHECK_A
    ensures "a.c" in Owned(group, criteria) && Creates(group, criteria, "a.c")
  {
    hide Modules, Words, Sorted;
    CheckNames();
    assert group[..0] == [];
    assert OccursAt(CHECK_A, "test -f", 0) && OccursAt(CHECK_A, "a.c", 8);
    assert IsCreation(group[0], criteria, "a.c");
  }

  /** The same file tested for in two parts: each waits for the other, and no order is left. */
  lemma WaitInCircle()
    ensures var criteria, groups := [CHECK_A, CHECK_A], [[0], [1]];
      && 2 in WaitsOf(groups, criteria, 1) && 1 in WaitsOf(groups, criteria, 2)
      && !exists order :: RunsInOrder(groups, criteria, order)
  {
    hide Owned, Creates, WaitsOf, RunsInOrder, Needs, Graph.Succ;
    var criteria, groups := [CHECK_A, CHECK_A], [[0], [1]];
    CheckCreates(groups[0], criteria);
    CheckCreates(groups[1], criteria);
    WaitForEachOther(groups, criteria, 1, 2);
    EachOtherIsRing(groups, criteria, 1, 2);
    NoOrderIffRing(groups, criteria);
  }

  lemma EachOtherIsRing(groups: seq<seq<nat>>, criteria: seq<string>, p: nat, q: nat)
    requires 0 < p <= |groups| && 0 < q <= |groups|
    requires q in WaitsOf(groups, criteria, p) && p in WaitsOf(groups, criteria, q)
    ensures IsRing(groups, criteria, [p, q, p])
  {
    hide WaitsOf, Needs;
    NeedsIsEdge(groups, criteria, p, q);
    NeedsIsEdge(groups, criteria, q, p);
  }
}
