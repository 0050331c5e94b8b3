/** What a reader finds in the spec of a part, told from the parent, the split and the criteria alone. */
module ChildMeaning {
  import opened Text
  import opened Pieces
  import opened Split
  import opened Markdown
  import opened Annotate
  import opened Ownership
  import opened TestTable
  import opened ChildSpec
  import opened SplitTheorems

  /** The lines stand in the document, one behind the other. */
  ghost predicate Holds(doc: seq<Line>, lines: seq<Line>) {
    exists i: nat :: HoldsAt(doc, lines, i)
  }

  predicate HoldsAt(doc: seq<Line>, lines: seq<Line>, i: nat) {
    i + |lines| <= |doc| && doc[i..i + |lines|] == lines
  }

  lemma HoldsBetween(before: seq<Line>, lines: seq<Line>, behind: seq<Line>)
    ensures Holds(before + lines + behind, lines)
  {
    assert HoldsAt(before + lines + behind, lines, |before|);
  }

  lemma HoldsWithin(before: seq<Line>, doc: seq<Line>, behind: seq<Line>, lines: seq<Line>)
    requires Holds(doc, lines)
    ensures Holds(before + doc + behind, lines)
  {
    var i: nat :| HoldsAt(doc, lines, i);
    var all := before + doc + behind;
    assert all[|before| + i..|before| + i + |lines|] == doc[i..i + |lines|];
    assert HoldsAt(all, lines, |before| + i);
  }

  /** A list of names, one a line. */
  function Listing(names: seq<string>): seq<Line> {
    seq(|names|, i requires 0 <= i < |names| => "- `" + names[i] + "`")
  }

  function Commas(n: nat): seq<string> {
    seq(n, i => ", ")
  }

  /** Names with commas between them. */
  function Enumerated(names: seq<string>): string
    requires names != []
  {
    Woven(names, Commas(|names| - 1))
  }

  lemma {:induction false} JoinedIs(names: seq<string>)
    requires names != []
    ensures Joined(names) == Enumerated(names)
  {
    if |names| > 1 {
      JoinedIs(names[1..]);
      assert Commas(|names| - 1)[1..] == Commas(|names| - 2);
    }
  }

  // ----- The head

  /** The part's number, its criteria counted from one, and the parts it waits for. */
  function HeadLines(stem: string, part: nat, total: nat, indices: seq<nat>, dependsOn: seq<nat>): seq<Line>
    requires indices != []
  {
    ["**Parent-Spec**: `" + stem + ".md`",
     "**Part**: " + Decimal(part) + " of " + Decimal(total),
     "**Covers**: Exit criteria " + Enumerated(seq(|indices|, i requires 0 <= i < |indices| => Decimal(indices[i] + 1))),
     "**Depends-On-Parts**: " + (
       if dependsOn == [] then "none \U{2014} this part is self-contained"
       else Enumerated(seq(|dependsOn|, i requires 0 <= i < |dependsOn| => "part" + Decimal(dependsOn[i]))) + " \U{2014} run those first")]
  }

  lemma HeadSays(parent: seq<Line>, stem: string, part: nat, total: nat, indices: seq<nat>, dependsOn: seq<nat>)
    requires indices != []
    ensures Holds(Head(parent, stem, part, total, indices, dependsOn), HeadLines(stem, part, total, indices, dependsOn))
  {
    hide Decimal, Enumerated, Joined;
    JoinedIs(Numbers(indices));
    assert Numbers(indices) == seq(|indices|, i requires 0 <= i < |indices| => Decimal(indices[i] + 1));
    if dependsOn != [] {
      JoinedIs(PartNames(dependsOn));
      assert PartNames(dependsOn) == seq(|dependsOn|, i requires 0 <= i < |dependsOn| => "part" + Decimal(dependsOn[i]));
    }
    var first := if parent == [] then [] else [parent[0] + " \U{2014} Part " + Decimal(part) + "/" + Decimal(total), ""];
    HoldsBetween(first, HeadLines(stem, part, total, indices, dependsOn), [""]);
    assert first + HeadLines(stem, part, total, indices, dependsOn) + [""] == Head(parent, stem, part, total, indices, dependsOn);
  }

  // ----- The blocks

  ghost predicate AllHeld(doc: seq<Line>, blocks: seq<seq<Line>>) {
    forall i | 0 <= i < |blocks| :: Holds(doc, blocks[i])
  }

  /** One more block behind those that are held. */
  lemma HeldOn(doc: seq<Line>, blocks: seq<seq<Line>>, block: seq<Line>)
    requires AllHeld(doc, blocks)
    ensures AllHeld(doc + block, blocks + [block])
  {
    hide Holds;
    forall i | 0 <= i < |blocks|
      ensures Holds(doc + block, blocks[i])
    {
      HoldsWithin([], doc, block, blocks[i]);
      assert [] + doc + block == doc + block;
    }
    HoldsBetween(doc, block, []);
    assert doc + block + [] == doc + block;
  }

  lemma HoldsPart(doc: seq<Line>, block: seq<Line>, lines: seq<Line>)
    requires Holds(doc, block) && Holds(block, lines)
    ensures Holds(doc, lines)
  {
    var i: nat :| HoldsAt(doc, block, i);
    var j: nat :| HoldsAt(block, lines, j);
    SliceOfSlice(doc, i, |block|, j, |lines|);
    assert HoldsAt(doc, lines, i + j);
  }

  lemma SliceOfSlice(doc: seq<Line>, i: nat, n: nat, j: nat, m: nat)
    requires i + n <= |doc| && j + m <= n
    ensures doc[i..i + n][j..j + m] == doc[i + j..i + j + m]
  {
    var s, t := doc[i..i + n][j..j + m], doc[i + j..i + j + m];
    assert |s| == |t| && forall k | 0 <= k < |s| :: s[k] == t[k];
  }

  /** The blocks of the document, in order. */
  lemma SevenHeld(a: seq<Line>, b: seq<Line>, c: seq<Line>, d: seq<Line>, e: seq<Line>, f: seq<Line>, g: seq<Line>)
    ensures AllHeld(a + b + c + d + e + f + g, [a, b, c, d, e, f, g])
  {
    hide Holds;
    HeldOn([], [], a);
    HeldOn([] + a, [] + [a], b);
    HeldOn([] + a + b, [] + [a] + [b], c);
    HeldOn([] + a + b + c, [] + [a] + [b] + [c], d);
    HeldOn([] + a + b + c + d, [] + [a] + [b] + [c] + [d], e);
    HeldOn([] + a + b + c + d + e, [] + [a] + [b] + [c] + [d] + [e], f);
    HeldOn([] + a + b + c + d + e + f, [] + [a] + [b] + [c] + [d] + [e] + [f], g);
    assert [] + a + b + c + d + e + f + g == a + b + c + d + e + f + g;
    assert [] + [a] + [b] + [c] + [d] + [e] + [f] + [g] == [a, b, c, d, e, f, g];
  }

  lemma ChildBlocks(parent: seq<Line>, stem: string, part: nat, total: nat, indices: seq<nat>, criteria: seq<string>, a: Attribution)
    ensures var child := Child(parent, stem, part, total, indices, criteria, a);
      && Holds(child, Head(parent, stem, part, total, indices, a.dependsOn))
      && Holds(child, Copied("## Overview", TextOf(parent, "## Overview")))
      && Holds(child, Copied("## Requirements", TextOf(parent, "## Requirements")))
      && Holds(child, Scope(part, total, a.owned))
      && (total > 1 ==> Holds(child, Theirs(a.others)))
      && Holds(child, Architecture(TextOf(parent, "## Architecture"), part, total, a.owners))
      && Holds(child, Tests(TextOf(parent, TESTS), a.keep))
      && Holds(child, Guardrails(parent))
  {
    hide Head, Copied, TextOf, Scope, Theirs, Architecture, Tests, Guardrails, Items, Holds;
    var blocks := [
      Head(parent, stem, part, total, indices, a.dependsOn),
      Copied("## Overview", TextOf(parent, "## Overview")),
      Copied("## Requirements", TextOf(parent, "## Requirements")),
      Scope(part, total, a.owned),
      if total > 1 then Theirs(a.others) else [],
      Architecture(TextOf(parent, "## Architecture"), part, total, a.owners),
      Tests(TextOf(parent, TESTS), a.keep)];
    SevenHeld(blocks[0], blocks[1], blocks[2], blocks[3], blocks[4], blocks[5], blocks[6]);
    var before := Before(parent, stem, part, total, indices, a);
    var rest := [HEADING, ""] + Items(criteria, indices) + [""];
    HeldOn(before, blocks, rest);
    HeldOn(before + rest, blocks + [rest], Guardrails(parent));
    assert before + rest + Guardrails(parent) == Child(parent, stem, part, total, indices, criteria, a);
    var all := blocks + [rest] + [Guardrails(parent)];
    assert all[0] == blocks[0] && all[1] == blocks[1] && all[2] == blocks[2] && all[3] == blocks[3] && all[4] == blocks[4];
    assert all[5] == blocks[5] && all[6] == blocks[6] && all[8] == Guardrails(parent);
  }

  // ----- What the blocks say

  lemma CopiedSays(heading: Line, text: seq<Line>)
    ensures text != [] ==> Holds(Copied(heading, text), [heading, ""] + text)
  {
    HoldsBetween([], [heading, ""] + text, [""]);
    assert [] + ([heading, ""] + text) + [""] == [heading, ""] + text + [""];
  }

  lemma HoldsBehind(head: seq<Line>, a: seq<Line>, b: seq<Line>, c: seq<Line>)
    ensures Holds(head + (a + b + c), head + a + b)
  {
    HoldsBetween([], head + a + b, c);
    assert [] + (head + a + b) + c == head + (a + b + c);
  }

  lemma ScopeSays(part: nat, total: nat, owned: seq<string>)
    ensures owned != [] ==> Holds(Scope(part, total, owned),
      ["## Scope (Part " + Decimal(part) + " of " + Decimal(total) + ")", ""] + ONLY_THESE + Listing(owned))
  {
    hide Decimal, Holds;
    assert Bullets(owned) == Listing(owned);
    HoldsBehind(["## Scope (Part " + Decimal(part) + " of " + Decimal(total) + ")", ""], ONLY_THESE, Listing(owned), NOTHING_ELSE);
  }

  /** Every other part that owns anything is listed with what it owns. */
  lemma {:induction false} TheirsSays(groups: seq<seq<nat>>, part: nat, criteria: seq<string>, p: nat)
    requires 0 < p <= |groups| && p != part && Owned(groups[p - 1], criteria) != []
    ensures Holds(Theirs(OthersOwned(groups, part, criteria)), ["Part " + Decimal(p) + " owns:"] + Listing(Owned(groups[p - 1], criteria)))
    decreases |groups|
  {
    hide Holds, Owned, Decimal, Theirs, OthersOwned;
    var n := |groups| - 1;
    var front, names := groups[..n], Owned(groups[n], criteria);
    var before := OthersOwned(front, part, criteria);
    assert groups[..n + 1] == groups;
    OthersStep(groups, n, part, criteria);
    TheirsStep(before, n + 1, names);
    var more := if n + 1 == part || names == [] then [] else ["Part " + Decimal(n + 1) + " owns:"] + Bullets(names) + [""];
    assert Theirs(OthersOwned(groups, part, criteria)) == Theirs(before) + more;
    assert Bullets(names) == Listing(names);
    if p == n + 1 {
      HoldsBetween(Theirs(before), ["Part " + Decimal(p) + " owns:"] + Listing(names), [""]);
      assert Theirs(before) + (["Part " + Decimal(p) + " owns:"] + Listing(names)) + [""] == Theirs(before) + more;
    } else {
      assert front[p - 1] == groups[p - 1];
      TheirsSays(front, part, criteria, p);
      HoldsWithin([], Theirs(before), more, ["Part " + Decimal(p) + " owns:"] + Listing(Owned(groups[p - 1], criteria)));
      assert [] + Theirs(before) + more == Theirs(before) + more;
    }
  }

  /** The architecture line by line, as it is or as it is marked. */
  lemma ArchitectureSays(text: seq<Line>, part: nat, total: nat, owners: Owners)
    ensures text != [] && total > 1 ==> Holds(Architecture(text, part, total, owners),
      ["## Architecture" + " (full system \U{2014} context, not a build list)", ""]
        + seq(|text|, i requires 0 <= i < |text| => AnnotatedLine(text[i], part, owners)))
    ensures text != [] && total <= 1 ==> Holds(Architecture(text, part, total, owners), ["## Architecture", ""] + text)
  {
    hide AnnotatedLine;
    var lines := seq(|text|, i requires 0 <= i < |text| => AnnotatedLine(text[i], part, owners));
    assert Annotated(text, part, owners) == lines;
    HoldsBetween([], [FULL_SYSTEM, ""] + lines, NOTE);
    HoldsBetween([], ["## Architecture", ""] + text, NOTE);
    assert [] + ([FULL_SYSTEM, ""] + lines) + NOTE == [FULL_SYSTEM, ""] + lines + NOTE;
    assert [] + (["## Architecture", ""] + text) + NOTE == ["## Architecture", ""] + text + NOTE;
  }

  lemma TestsSay(parent: seq<Line>, indices: seq<nat>, criteria: seq<string>)
    ensures TextOf(parent, TESTS) != [] ==>
      Holds(Tests(TextOf(parent, TESTS), Relevant(TestsOf(parent), indices, criteria)), [TESTS, ""] + PartTable(parent, indices, criteria))
  {
    hide TextOf, Relevant, TestsOf, KeptRows, Missing, Seen;
    var text, keep := TextOf(parent, TESTS), Relevant(TestsOf(parent), indices, criteria);
    var table := KeptRows(text, keep) + Missing(keep, Seen(text, keep));
    HoldsBetween([], [TESTS, ""] + table, ["", ""]);
    if text != [] {
      TableIs(text, keep, table);
      assert [] + ([TESTS, ""] + table) + ["", ""] == [TESTS, ""] + table + ["", ""];
    }
  }

  lemma GuardrailsSay(parent: seq<Line>)
    ensures Holds(Guardrails(parent), ["## Guardrails", ""] + TextOf(parent, "## Guardrails"))
  {
    hide TextOf;
    HoldsBetween([], ["## Guardrails", ""] + TextOf(parent, "## Guardrails"), RULE);
    assert [] + (["## Guardrails", ""] + TextOf(parent, "## Guardrails")) + RULE == Guardrails(parent);
  }

  /**
   The spec of a part says which criteria it covers and which parts it waits for; it holds the parent's overview,
   requirements and guardrails, its own artifacts as its scope, and the tests its criteria are about.
   */
  lemma PartHolds(parent: seq<Line>, stem: string, part: nat, total: nat, indices: seq<nat>, criteria: seq<string>, groups: seq<seq<nat>>)
    ensures var child, owned := Child(parent, stem, part, total, indices, criteria, Attributed(parent, part, indices, criteria, groups)), Owned(indices, criteria);
      && (forall h | h in ["## Overview", "## Requirements"] && TextOf(parent, h) != [] :: Holds(child, [h, ""] + TextOf(parent, h)))
      && Holds(child, ["## Guardrails", ""] + TextOf(parent, "## Guardrails"))
      && (indices != [] ==> Holds(child, HeadLines(stem, part, total, indices, WaitsFor(owned, groups, part, criteria))))
      && (owned != [] ==> Holds(child, ["## Scope (Part " + Decimal(part) + " of " + Decimal(total) + ")", ""] + ONLY_THESE + Listing(owned)))
      && (TextOf(parent, TESTS) != [] ==> Holds(child, [TESTS, ""] + PartTable(parent, indices, criteria)))
  {
    hide Child, TextOf, Owned, OthersOwned, AllOwners, WaitsFor, Relevant, TestsOf, Holds, Head, Copied, Scope, Theirs, Architecture, Tests, Guardrails, Decimal, Listing, PartTable, HeadLines;
    var a := Attributed(parent, part, indices, criteria, groups);
    var child, owned := Child(parent, stem, part, total, indices, criteria, a), Owned(indices, criteria);
    ChildBlocks(parent, stem, part, total, indices, criteria, a);
    forall h | h in ["## Overview", "## Requirements"] && TextOf(parent, h) != []
      ensures Holds(child, [h, ""] + TextOf(parent, h))
    {
      CopiedSays(h, TextOf(parent, h));
      HoldsPart(child, Copied(h, TextOf(parent, h)), [h, ""] + TextOf(parent, h));
    }
    if indices != [] {
      HeadSays(parent, stem, part, total, indices, a.dependsOn);
      HoldsPart(child, Head(parent, stem, part, total, indices, a.dependsOn), HeadLines(stem, part, total, indices, a.dependsOn));
    }
    GuardrailsSay(parent);
    HoldsPart(child, Guardrails(parent), ["## Guardrails", ""] + TextOf(parent, "## Guardrails"));
    if owned != [] {
      ScopeSays(part, total, owned);
      HoldsPart(child, Scope(part, total, owned), ["## Scope (Part " + Decimal(part) + " of " + Decimal(total) + ")", ""] + ONLY_THESE + Listing(owned));
    }
    if TextOf(parent, TESTS) != [] {
      TestsSay(parent, indices, criteria);
      HoldsPart(child, Tests(TextOf(parent, TESTS), a.keep), [TESTS, ""] + PartTable(parent, indices, criteria));
    }
  }

  /** In a real split it also holds every architecture line, marked for this part, and what each other part owns. */
  lemma PartKnowsOthers(parent: seq<Line>, stem: string, part: nat, total: nat, indices: seq<nat>, criteria: seq<string>, groups: seq<seq<nat>>, p: nat)
    requires total > 1 && 0 < p <= |groups| && p != part
    ensures var child, text := Child(parent, stem, part, total, indices, criteria, Attributed(parent, part, indices, criteria, groups)), TextOf(parent, "## Architecture");
      && (text != [] ==> Holds(child, ["## Architecture" + " (full system \U{2014} context, not a build list)", ""]
            + seq(|text|, i requires 0 <= i < |text| => AnnotatedLine(text[i], part, AllOwners(groups, criteria)))))
      && (Owned(groups[p - 1], criteria) != [] ==> Holds(child, ["Part " + Decimal(p) + " owns:"] + Listing(Owned(groups[p - 1], criteria))))
  {
    hide Child, TextOf, Owned, OthersOwned, AllOwners, WaitsFor, Relevant, TestsOf, Holds, Head, Copied, Scope, Theirs, Architecture, Tests, Guardrails, Decimal, Listing, AnnotatedLine;
    var a := Attributed(parent, part, indices, criteria, groups);
    var child, text := Child(parent, stem, part, total, indices, criteria, a), TextOf(parent, "## Architecture");
    ChildBlocks(parent, stem, part, total, indices, criteria, a);
    if text != [] {
      ArchitectureSays(text, part, total, a.owners);
      HoldsPart(child, Architecture(text, part, total, a.owners), ["## Architecture" + " (full system \U{2014} context, not a build list)", ""]
        + seq(|text|, i requires 0 <= i < |text| => AnnotatedLine(text[i], part, a.owners)));
    }
    if Owned(groups[p - 1], criteria) != [] {
      TheirsSays(groups, part, criteria, p);
      HoldsPart(child, Theirs(a.others), ["Part " + Decimal(p) + " owns:"] + Listing(Owned(groups[p - 1], criteria)));
    }
  }
}
