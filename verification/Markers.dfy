/** What marking puts into an architecture line, and where, told from the criteria of the parts. */
module Markers {
  import opened Wrappers
  import opened Text
  import opened Pieces
  import opened Annotate
  import Ownership

  // ----- The text

  /** The other parts whose criteria name the artifact, in ascending order. */
  ghost predicate Lists(parts: seq<nat>, artifact: string, me: nat, groups: seq<seq<nat>>, criteria: seq<string>) {
    && Ascending(parts)
    && (forall p: nat :: p in parts <==> Ownership.IsOthers(artifact, p, me, groups, criteria))
  }

  function MarkText(parts: seq<nat>): string
    requires parts != []
  {
    (if |parts| == 1 then " **[Part " else " **[Parts ")
      + Woven(seq(|parts|, i requires 0 <= i < |parts| => Decimal(parts[i])), seq(|parts| - 1, i => ", ")) + "]**"
  }

  lemma {:induction false} ListedIs(parts: seq<nat>)
    requires parts != []
    ensures Listed(parts) == Woven(seq(|parts|, i requires 0 <= i < |parts| => Decimal(parts[i])), seq(|parts| - 1, i => ", "))
  {
    hide Decimal;
    var names, commas := seq(|parts|, i requires 0 <= i < |parts| => Decimal(parts[i])), seq(|parts| - 1, i => ", ");
    if |parts| > 1 {
      ListedIs(parts[1..]);
      var rest := parts[1..];
      assert names[1..] == seq(|rest|, i requires 0 <= i < |rest| => Decimal(rest[i]));
      assert commas[1..] == seq(|rest| - 1, i => ", ");
    }
  }

  lemma MarkerIs(parts: seq<nat>)
    requires parts != []
    ensures Marker(parts) == MarkText(parts)
  {
    hide Decimal, Woven;
    ListedIs(parts);
  }

  ghost predicate Ascending(parts: seq<nat>) {
    forall i, j | 0 <= i < j < |parts| :: parts[i] < parts[j]
  }

  lemma Appended(parts: seq<nat>, n: nat)
    requires Ascending(parts) && forall p | p in parts :: p < n
    ensures InsertNumber(parts, n) == parts + [n] && Ascending(parts + [n])
    ensures forall p :: p in parts + [n] <==> p in parts || p == n
  {
    assert forall i | 0 <= i < |parts| :: parts[i] in parts;
  }

  lemma Fronted(parts: seq<nat>)
    requires Ascending(parts) && parts != []
    ensures var front, last := parts[..|parts| - 1], parts[|parts| - 1];
      Ascending(front) && (forall p | p in front :: p < last) && forall p :: p in parts <==> p in front || p == last
  {
    assert parts == parts[..|parts| - 1] + [parts[|parts| - 1]];
  }

  /** Of ascending numbers, all but one. */
  lemma {:induction false} OthersAscend(parts: seq<nat>, me: nat)
    requires Ascending(parts)
    ensures Ascending(Others(parts, me)) && forall p :: p in Others(parts, me) <==> p in parts && p != me
  {
    hide Ascending, InsertNumber;
    if parts == [] {
      assert Others(parts, me) == parts;
    } else {
      var front, last := parts[..|parts| - 1], parts[|parts| - 1];
      Fronted(parts);
      OthersAscend(front, me);
      if last != me {
        Appended(Others(front, me), last);
      }
    }
  }

  lemma {:induction false} OwningAscends(groups: seq<seq<nat>>, criteria: seq<string>, t: string)
    ensures Ascending(Ownership.PartsOwning(groups, criteria, t))
    ensures forall p | p in Ownership.PartsOwning(groups, criteria, t) :: p <= |groups|
  {
    hide Ownership.Owned;
    if groups != [] {
      OwningAscends(groups[..|groups| - 1], criteria, t);
      var before := Ownership.PartsOwning(groups[..|groups| - 1], criteria, t);
      assert forall i | 0 <= i < |before| :: before[i] in before;
    }
  }

  lemma OthersAreListed(t: string, me: nat, groups: seq<seq<nat>>, criteria: seq<string>)
    ensures Lists(Others(OwnersOf(t, Ownership.AllOwners(groups, criteria)), me), t, me, groups, criteria)
  {
    hide Ownership.Owned, Others, OwnersOf, Ownership.AllOwners, Ownership.PartsOwning, Ascending;
    Ownership.OwnersAreExact(groups, criteria, t);
    OwningAscends(groups, criteria, t);
    OthersAscend(Ownership.PartsOwning(groups, criteria, t), me);
  }

  // ----- The places

  ghost predicate Climbs(line: string, from: nat, places: seq<nat>) {
    && from <= |line|
    && (forall i | 0 <= i < |places| :: from <= places[i] <= |line|)
    && forall i, j | 0 <= i < j < |places| :: places[i] <= places[j]
  }

  /** The line from `from` on, with the texts put in at the places. */
  ghost function Filled(line: string, from: nat, places: seq<nat>, texts: seq<string>): string
    requires Climbs(line, from, places) && |texts| == |places|
    decreases places
  {
    if places == [] then line[from..] else line[from..places[0]] + texts[0] + Filled(line, places[0], places[1..], texts[1..])
  }

  function TextsOf(marks: seq<Mark>): seq<string> {
    seq(|marks|, i requires 0 <= i < |marks| => marks[i].text)
  }

  ghost predicate ByStart(marks: seq<Mark>) {
    forall i, j | 0 <= i < j < |marks| :: marks[i].start <= marks[j].start
  }

  lemma {:induction false} Insertion(sorted: seq<Mark>, m: Mark)
    requires ByStart(sorted)
    ensures ByStart(InsertMark(sorted, m))
  {
    if sorted != [] && sorted[|sorted| - 1].start > m.start {
      var front, last := sorted[..|sorted| - 1], sorted[|sorted| - 1];
      assert sorted == front + [last];
      Insertion(front, m);
      var r := InsertMark(front, m);
      forall i | 0 <= i < |r|
        ensures r[i].start <= last.start
      {
        assert r[i] in r;
      }
    }
  }

  lemma {:induction false} Sorting(marks: seq<Mark>)
    ensures ByStart(SortMarks(marks))
  {
    hide InsertMark;
    if marks != [] {
      Sorting(marks[..|marks| - 1]);
      Insertion(SortMarks(marks[..|marks| - 1]), marks[|marks| - 1]);
    }
  }

  /** The mark lies within what an earlier marker stands behind. */
  ghost predicate Covered(used: seq<Mark>, places: seq<nat>, m: Mark) {
    exists i :: 0 <= i < |used| && i < |places| && used[i].start <= m.start < places[i]
  }

  /** Markers of the line, each behind its name. */
  ghost predicate Placed(line: string, marks: seq<Mark>, last: nat, used: seq<Mark>, places: seq<nat>) {
    && |used| == |places| && Climbs(line, last, places)
    && forall i | 0 <= i < |used| :: used[i] in marks && used[i].end <= |line| && places[i] == Behind(line, used[i].end)
  }

  /** No marker is left out but one that lies before `last`, or within what another stands behind. */
  ghost predicate Complete(marks: seq<Mark>, last: nat, used: seq<Mark>, places: seq<nat>) {
    forall m | m in marks :: m in used || m.start < last || Covered(used, places, m)
  }

  lemma {:induction false} RewrittenIs(line: string, marks: seq<Mark>, last: nat) returns (used: seq<Mark>, places: seq<nat>)
    requires last <= |line| && (forall m | m in marks :: MarkOk(line, m)) && ByStart(marks)
    ensures Placed(line, marks, last, used, places) && Complete(marks, last, used, places)
    ensures Rewritten(line, marks, last) == Filled(line, last, places, TextsOf(used))
    decreases marks
  {
    hide MarkOk, Complete, Covered, Behind, Filled, Placed;
    used, places := [], [];
    if marks == [] {
      NothingUsed(line, last);
    } else {
      var m, rest := marks[0], marks[1..];
      assert m in marks && marks == [m] + rest;
      EndsInside(line, m);
      if m.start < last {
        used, places := RewrittenIs(line, rest, last);
        PassedOver(line, marks, last, used, places);
      } else {
        var at := Behind(line, m.end);
        var more, further := RewrittenIs(line, rest, at);
        used, places := [m] + more, [at] + further;
        PlacesClimb(line, rest, at, more, further);
        OneMorePlace(line, marks, last, more, further);
        OneMoreUsed(marks, last, at, more, further);
        FilledMore(line, last, at, m, further, more);
      }
    }
  }

  lemma NothingUsed(line: string, last: nat)
    requires last <= |line|
    ensures Complete([], last, [], []) && Placed(line, [], last, [], []) && Filled(line, last, [], TextsOf([])) == line[last..]
  {
  }

  lemma PassedOver(line: string, marks: seq<Mark>, last: nat, used: seq<Mark>, places: seq<nat>)
    requires marks != [] && marks[0].start < last && Complete(marks[1..], last, used, places) && Placed(line, marks[1..], last, used, places)
    ensures Complete(marks, last, used, places) && Placed(line, marks, last, used, places)
  {
    hide Covered, Behind;
    assert marks == [marks[0]] + marks[1..];
  }

  lemma PlacesClimb(line: string, marks: seq<Mark>, last: nat, used: seq<Mark>, places: seq<nat>)
    requires Placed(line, marks, last, used, places)
    ensures Climbs(line, last, places) && |used| == |places|
  {
  }

  lemma FilledMore(line: string, last: nat, at: nat, m: Mark, further: seq<nat>, more: seq<Mark>)
    requires last <= at && Climbs(line, at, further) && |more| == |further|
    ensures Climbs(line, last, [at] + further)
    ensures Filled(line, last, [at] + further, TextsOf([m] + more)) == line[last..at] + m.text + Filled(line, at, further, TextsOf(more))
  {
    OneMoreClimb(line, last, at, further);
    assert TextsOf([m] + more)[1..] == TextsOf(more) && ([at] + further)[1..] == further;
  }

  lemma OneMorePlace(line: string, marks: seq<Mark>, last: nat, more: seq<Mark>, further: seq<nat>)
    requires marks != [] && last <= marks[0].start < marks[0].end <= |line|
    requires Placed(line, marks[1..], Behind(line, marks[0].end), more, further)
    ensures Placed(line, marks, last, [marks[0]] + more, [Behind(line, marks[0].end)] + further)
  {
    hide Behind;
    var used, places := [marks[0]] + more, [Behind(line, marks[0].end)] + further;
    assert marks == [marks[0]] + marks[1..];
    forall i | 0 <= i < |used|
      ensures used[i] in marks && used[i].end <= |line| && places[i] == Behind(line, used[i].end)
    {
      if i > 0 {
        assert used[i] == more[i - 1] && places[i] == further[i - 1];
      }
    }
    OneMoreClimb(line, last, Behind(line, marks[0].end), further);
  }

  lemma OneMoreClimb(line: string, from: nat, at: nat, places: seq<nat>)
    requires from <= at && Climbs(line, at, places)
    ensures Climbs(line, from, [at] + places)
  {
  }

  lemma OneMoreUsed(marks: seq<Mark>, last: nat, at: nat, more: seq<Mark>, further: seq<nat>)
    requires marks != [] && ByStart(marks) && Complete(marks[1..], at, more, further)
    ensures Complete(marks, last, [marks[0]] + more, [at] + further)
  {
    hide Covered;
    var m, rest := marks[0], marks[1..];
    var used, places := [m] + more, [at] + further;
    assert marks == [m] + rest && used[0] == m;
    forall x | x in marks
      ensures x in used || x.start < last || Covered(used, places, x)
    {
      if x != m {
        var k :| 0 <= k < |marks| && marks[k] == x;
        assert rest[k - 1] == x;
        FirstCovers(m, at, more, further, x);
        StillCovered(m, at, more, further, x);
      }
    }
  }

  lemma FirstCovers(m: Mark, at: nat, more: seq<Mark>, further: seq<nat>, x: Mark)
    ensures m.start <= x.start < at ==> Covered([m] + more, [at] + further, x)
  {
    assert ([m] + more)[0] == m && ([at] + further)[0] == at;
  }

  lemma StillCovered(m: Mark, at: nat, more: seq<Mark>, further: seq<nat>, x: Mark)
    ensures Covered(more, further, x) ==> Covered([m] + more, [at] + further, x)
  {
    if Covered(more, further, x) {
      var i :| 0 <= i < |more| && i < |further| && more[i].start <= x.start < further[i];
      assert ([m] + more)[i + 1] == more[i] && ([at] + further)[i + 1] == further[i];
    }
  }

  // ----- The markers of a line

  /** The name stands by itself at `start`, for the first time, and `place` is behind it and what closes it. */
  ghost predicate Stands(line: string, name: string, start: nat, place: nat) {
    && BoundedAt(line, name, start) && (forall j: nat | j < start :: !BoundedAt(line, name, j))
    && start + |name| <= place <= |line|
    && (forall k | start + |name| <= k < place :: line[k] in "`'\")")
    && (place < |line| ==> line[place] !in "`'\")")
  }

  lemma {:induction false} BehindIs(line: string, i: nat)
    requires i <= |line|
    ensures forall k | i <= k < Behind(line, i) :: line[k] in "`'\")"
    ensures Behind(line, i) < |line| ==> line[Behind(line, i)] !in "`'\")"
    decreases |line| - i
  {
    if i < |line| && line[i] in "`'\")" {
      BehindIs(line, i + 1);
    }
  }

  /** A marker of the line: the name, where it first stands, where the marker goes, and whom it lists. */
  ghost predicate MarksName(line: string, me: nat, groups: seq<seq<nat>>, criteria: seq<string>, name: string, start: nat, place: nat, text: string) {
    && name in Ownership.Named(line) && Stands(line, name, start, place)
    && exists parts :: parts != [] && Lists(parts, name, me, groups, criteria) && text == MarkText(parts)
  }

  /** An artifact of another part that stands by itself, and where it first does. */
  ghost predicate IsForeign(line: string, me: nat, groups: seq<seq<nat>>, criteria: seq<string>, t: string, start: nat) {
    && t in Ownership.Named(line) && t != "" && start < |line|
    && BoundedAt(line, t, start) && (forall j: nat | j < start :: !BoundedAt(line, t, j))
    && exists p: nat :: Ownership.IsOthers(t, p, me, groups, criteria)
  }

  /** It is marked, or lies within what an earlier marker stands behind. */
  ghost predicate HasMarker(names: seq<string>, starts: seq<nat>, places: seq<nat>, t: string, start: nat)
    requires |names| == |starts| == |places|
  {
    t in names || exists i :: 0 <= i < |names| && starts[i] <= start < places[i]
  }

  lemma {:induction false} MarksAre(line: string, tokens: seq<string>, me: nat, owners: Owners, m: Mark)
    ensures m in MarksOf(line, tokens, me, owners) <==> exists t :: t in tokens && MarkOf(line, t, me, owners) == Some(m)
  {
    hide MarkOf;
    if tokens != [] {
      var front, last := tokens[..|tokens| - 1], tokens[|tokens| - 1];
      assert tokens == front + [last];
      MarksAre(line, front, me, owners, m);
      assert forall t :: t in tokens <==> t in front || t == last;
    }
  }

  lemma MarkMeans(line: string, t: string, me: nat, groups: seq<seq<nat>>, criteria: seq<string>, m: Mark)
    requires t in Ownership.Named(line) && MarkOf(line, t, me, Ownership.AllOwners(groups, criteria)) == Some(m) && m.end <= |line|
    ensures MarksName(line, me, groups, criteria, t, m.start, Behind(line, m.end), m.text)
  {
    hide Ownership.Owned, Others, OwnersOf, Ownership.AllOwners, Ownership.Named, BoundedAt, Lists, Marker, MarkText, Behind;
    var parts := Others(OwnersOf(t, Ownership.AllOwners(groups, criteria)), me);
    OthersAreListed(t, me, groups, criteria);
    MarkerIs(parts);
    BehindIs(line, m.end);
  }

  /** Another part's artifact that stands by itself has a mark. */
  lemma ForeignMeans(line: string, t: string, start: nat, me: nat, groups: seq<seq<nat>>, criteria: seq<string>)
    requires t != "" && BoundedAt(line, t, start) && (forall j: nat | j < start :: !BoundedAt(line, t, j)) && start < |line|
    requires exists p: nat :: Ownership.IsOthers(t, p, me, groups, criteria)
    ensures var m := MarkOf(line, t, me, Ownership.AllOwners(groups, criteria)); m.Some? && m.value.start == start
  {
    hide Ownership.Owned, Others, OwnersOf, Ownership.AllOwners, BoundedAt, Marker, Ownership.IsOthers;
    OthersAreListed(t, me, groups, criteria);
    var p: nat :| Ownership.IsOthers(t, p, me, groups, criteria);
    assert p in Others(OwnersOf(t, Ownership.AllOwners(groups, criteria)), me);
    assert Bounded(line, t, 0) == Some(start);
  }

  /** Of the marks of the line, all that is left out is covered; a mark stands for one name. */
  lemma ForeignIsMarked(line: string, me: nat, groups: seq<seq<nat>>, criteria: seq<string>, t: string, start: nat, all: seq<Mark>, used: seq<Mark>,
      names: seq<string>, starts: seq<nat>, places: seq<nat>)
    requires IsForeign(line, me, groups, criteria, t, start) && all == MarksOf(line, Ownership.Named(line), me, Ownership.AllOwners(groups, criteria))
    requires |names| == |starts| == |places| == |used| && forall i | 0 <= i < |used| :: starts[i] == used[i].start
    requires forall i | 0 <= i < |used| :: MarkOf(line, names[i], me, Ownership.AllOwners(groups, criteria)) == Some(used[i])
    requires forall m | m in all :: m in used || Covered(used, places, m)
    ensures HasMarker(names, starts, places, t, start)
  {
    hide MarksOf, MarkOf, Ownership.AllOwners, Ownership.Named, BoundedAt, Ownership.IsOthers;
    ForeignMeans(line, t, start, me, groups, criteria);
    var m := MarkOf(line, t, me, Ownership.AllOwners(groups, criteria)).value;
    MarksAre(line, Ownership.Named(line), me, Ownership.AllOwners(groups, criteria), m);
    assert m in all;
    if m in used {
      var i :| 0 <= i < |used| && used[i] == m;
      SameMark(line, names[i], t, me, Ownership.AllOwners(groups, criteria), m);
    } else {
      var i :| 0 <= i < |used| && i < |places| && used[i].start <= m.start < places[i];
      assert starts[i] <= start < places[i];
    }
  }

  lemma AllCovered(all: seq<Mark>, marks: seq<Mark>, used: seq<Mark>, places: seq<nat>)
    requires Complete(marks, 0, used, places) && forall m :: m in marks <==> m in all
    ensures forall m | m in all :: m in used || Covered(used, places, m)
  {
    hide Covered;
  }

  lemma PlacedMarks(line: string, marks: seq<Mark>, used: seq<Mark>, places: seq<nat>)
    requires Placed(line, marks, 0, used, places)
    ensures |used| == |places| && Climbs(line, 0, places)
    ensures forall i | 0 <= i < |used| :: used[i] in marks && used[i].end <= |line| && places[i] == Behind(line, used[i].end)
  {
    hide Climbs;
  }

  /** The name is what the mark covers. */
  lemma SameMark(line: string, a: string, b: string, me: nat, owners: Owners, m: Mark)
    requires MarkOf(line, a, me, owners) == Some(m) == MarkOf(line, b, me, owners)
    ensures a == b
  {
    hide Others, OwnersOf, Marker;
    assert line[m.start..m.start + |a|] == a && line[m.start..m.start + |b|] == b;
  }

  /**
   A marked line is the line with a marker behind names that stand by themselves, each listing exactly the other
   parts that own the name; and every such name of another part has its marker, unless it lies within what an
   earlier one stands behind.
   */
  lemma MarkedLineIs(line: string, me: nat, groups: seq<seq<nat>>, criteria: seq<string>) returns (names: seq<string>, starts: seq<nat>, places: seq<nat>, texts: seq<string>)
    ensures |names| == |starts| == |places| == |texts| && Climbs(line, 0, places)
    ensures AnnotatedLine(line, me, Ownership.AllOwners(groups, criteria)) == Filled(line, 0, places, texts)
    ensures forall i | 0 <= i < |names| :: MarksName(line, me, groups, criteria, names[i], starts[i], places[i], texts[i])
    ensures forall t, start: nat | IsForeign(line, me, groups, criteria, t, start) :: HasMarker(names, starts, places, t, start)
  {
    hide MarkOk, Filled, Behind, MarksOf, MarkOf, SortMarks, Complete, Placed, Covered, Rewritten, MarksName, IsForeign, HasMarker, Ownership.AllOwners, Modules, Words;
    var owners := Ownership.AllOwners(groups, criteria);
    var all, marks := MarksOf(line, Ownership.Named(line), me, owners), LineMarks(line, me, owners);
    LineMarksOk(line, me, owners);
    Sorting(all);
    var used;
    assert marks == SortMarks(all);
    used, places := RewrittenIs(line, marks, 0);
    AllCovered(all, marks, used, places);
    PlacedMarks(line, marks, used, places);
    starts, texts, names := seq(|used|, i requires 0 <= i < |used| => used[i].start), TextsOf(used), [];
    while |names| < |used|
      invariant |names| <= |used|
      invariant forall i | 0 <= i < |names| :: MarkOf(line, names[i], me, owners) == Some(used[i])
      invariant forall i | 0 <= i < |names| :: MarksName(line, me, groups, criteria, names[i], starts[i], places[i], texts[i])
      decreases |used| - |names|
    {
      var m := used[|names|];
      MarksAre(line, Ownership.Named(line), me, owners, m);
      var t :| t in Ownership.Named(line) && MarkOf(line, t, me, owners) == Some(m);
      MarkMeans(line, t, me, groups, criteria, m);
      names := names + [t];
    }
    forall t, start: nat | IsForeign(line, me, groups, criteria, t, start)
      ensures HasMarker(names, starts, places, t, start)
    {
      ForeignIsMarked(line, me, groups, criteria, t, start, all, used, names, starts, places);
    }
  }
}
