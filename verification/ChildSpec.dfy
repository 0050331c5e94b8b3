/** The spec of one part. */
module ChildSpec {
  import opened Text
  import opened Markdown
  import opened Split
  import opened Annotate
  import opened Ownership
  import opened TestTable

  /** What the heuristics say about a part: whom it waits for, what it and the others own, and which tests are its own. */
  datatype Attribution = Attribution(
    dependsOn: seq<nat>,
    owned: seq<string>,
    others: seq<(nat, seq<string>)>,
    owners: Owners,
    keep: seq<string>)

  ghost function Attributed(parent: seq<Line>, part: nat, indices: seq<nat>, criteria: seq<string>, groups: seq<seq<nat>>): Attribution {
    Attribution(
      WaitsFor(Owned(indices, criteria), groups, part, criteria),
      Owned(indices, criteria),
      OthersOwned(groups, part, criteria),
      AllOwners(groups, criteria),
      Relevant(TestsOf(parent), indices, criteria))
  }

  ghost function OthersOwned(groups: seq<seq<nat>>, part: nat, criteria: seq<string>): seq<(nat, seq<string>)> {
    if groups == [] then []
    else
      OthersOwned(groups[..|groups| - 1], part, criteria)
      + if |groups| == part then [] else [(|groups|, Owned(groups[|groups| - 1], criteria))]
  }

  // ----- The text

  function Joined(parts: seq<string>): string {
    if parts == [] then "" else if |parts| == 1 then parts[0] else parts[0] + ", " + Joined(parts[1..])
  }

  function Bullets(names: seq<string>): seq<Line> {
    seq(|names|, i requires 0 <= i < |names| => "- `" + names[i] + "`")
  }

  function Numbers(indices: seq<nat>): seq<string> {
    seq(|indices|, i requires 0 <= i < |indices| => Decimal(indices[i] + 1))
  }

  function Head(parent: seq<Line>, stem: string, part: nat, total: nat, indices: seq<nat>, dependsOn: seq<nat>): seq<Line> {
    (if parent == [] then [] else [parent[0] + " \U{2014} Part " + Decimal(part) + "/" + Decimal(total), ""]) + [
      "**Parent-Spec**: `" + stem + ".md`",
      "**Part**: " + Decimal(part) + " of " + Decimal(total),
      "**Covers**: Exit criteria " + Joined(Numbers(indices)),
      "**Depends-On-Parts**: " + Order(dependsOn),
      ""]
  }

  function PartNames(parts: seq<nat>): seq<string> {
    seq(|parts|, i requires 0 <= i < |parts| => "part" + Decimal(parts[i]))
  }

  function Order(dependsOn: seq<nat>): string {
    if dependsOn == [] then "none \U{2014} this part is self-contained" else Joined(PartNames(dependsOn)) + " \U{2014} run those first"
  }

  // The fixed lines.  Long ones are sums: what a line begins with is looked up by the solver in a short literal, and not
  // in one of sixty characters.

  const NO_ARTIFACT: seq<Line> := [
    "This part's criteria name " + "no specific artifact. Satisfy the Exit",
    "Criteria below and create nothing else.",
    ""]

  const ONLY_THESE: seq<Line> := ["Create or modify **only** these artifacts:", ""]

  const NOTHING_ELSE: seq<Line> := [
    "",
    "Anything else in the Architecture " + "belongs to another part. Creating it",
    "here duplicates that part's work " + "and makes the split pointless.",
    ""]

  const NOTE: seq<Line> := [
    "",
    "> **Note**: the Architecture above " + "describes the FULL system, including",
    "> artifacts owned by other parts. " + "Build only what Scope lists.",
    ""]

  const FULL_SYSTEM: Line := "## Architecture" + " (full system \U{2014} context, not a build list)"

  /** A section carried over under its heading, if it has any text. */
  function Copied(heading: Line, text: seq<Line>): seq<Line> {
    if text == [] then [] else [heading, ""] + text + [""]
  }

  function Scope(part: nat, total: nat, owned: seq<string>): seq<Line> {
    ["## Scope (Part " + Decimal(part) + " of " + Decimal(total) + ")", ""] +
    if owned == [] then NO_ARTIFACT else ONLY_THESE + Bullets(owned) + NOTHING_ELSE
  }

  /** What the other parts own. */
  function Theirs(others: seq<(nat, seq<string>)>): seq<Line> {
    if others == [] then []
    else
      var (number, names) := others[|others| - 1];
      Theirs(others[..|others| - 1]) + if names == [] then [] else ["Part " + Decimal(number) + " owns:"] + Bullets(names) + [""]
  }

  function Annotated(lines: seq<Line>, part: nat, owners: Owners): seq<Line> {
    seq(|lines|, i requires 0 <= i < |lines| => AnnotatedLine(lines[i], part, owners))
  }

  function Architecture(text: seq<Line>, part: nat, total: nat, owners: Owners): seq<Line> {
    if text == [] then []
    else
      (if total > 1 then [FULL_SYSTEM, ""] + Annotated(text, part, owners) else ["## Architecture", ""] + text) + NOTE
  }

  function Tests(text: seq<Line>, keep: seq<string>): seq<Line> {
    if text == [] then [] else [TESTS, ""] + KeptRows(text, keep) + Missing(keep, Seen(text, keep)) + ["", ""]
  }

  /** One box for every index that names a criterion. */
  function Items(criteria: seq<string>, indices: seq<nat>): seq<Line> {
    if indices == [] then []
    else
      var last := indices[|indices| - 1];
      Items(criteria, indices[..|indices| - 1]) + if last < |criteria| then [BOX + " " + criteria[last]] else []
  }

  const RULE: seq<Line> := [
    "- **Do NOT create artifacts " + "owned by other parts.** Only what Scope lists.",
    "The Architecture section describes " + "the full system; building all of it here",
    "duplicates other parts' work " + "and defeats the split."]

  function TextOf(parent: seq<Line>, title: string): seq<Line> {
    TrimLines(Section(parent, title))
  }

  /** Everything before the exit criteria. */
  function Before(parent: seq<Line>, stem: string, part: nat, total: nat, indices: seq<nat>, a: Attribution): seq<Line> {
    Head(parent, stem, part, total, indices, a.dependsOn)
    + Copied("## Overview", TextOf(parent, "## Overview"))
    + Copied("## Requirements", TextOf(parent, "## Requirements"))
    + Scope(part, total, a.owned)
    + (if total > 1 then Theirs(a.others) else [])
    + Architecture(TextOf(parent, "## Architecture"), part, total, a.owners)
    + Tests(TextOf(parent, TESTS), a.keep)
  }

  function Guardrails(parent: seq<Line>): seq<Line> {
    ["## Guardrails", ""] + TextOf(parent, "## Guardrails") + RULE
  }

  function Child(parent: seq<Line>, stem: string, part: nat, total: nat, indices: seq<nat>, criteria: seq<string>, a: Attribution): seq<Line> {
    Before(parent, stem, part, total, indices, a) + [HEADING, ""] + Items(criteria, indices) + [""] + Guardrails(parent)
  }

  // ----- Generating it

  method PushBullets(names: seq<string>) returns (lines: seq<Line>)
    ensures lines == Bullets(names)
  {
    lines := [];
    for i := 0 to |names|
      invariant |lines| == i && forall j | 0 <= j < i :: lines[j] == Bullets(names)[j]
    {
      lines := lines + ["- `" + names[i] + "`"];
    }
  }

  lemma OthersStep(groups: seq<seq<nat>>, i: nat, part: nat, criteria: seq<string>)
    requires i < |groups|
    ensures OthersOwned(groups[..i + 1], part, criteria)
         == OthersOwned(groups[..i], part, criteria) + if i + 1 == part then [] else [(i + 1, Owned(groups[i], criteria))]
    ensures i + 1 == part ==> OthersOwned(groups[..i + 1], part, criteria) == OthersOwned(groups[..i], part, criteria)
  {
    hide Owned;
    assert groups[..i + 1][..i] == groups[..i];
  }

  lemma TheirsStep(others: seq<(nat, seq<string>)>, number: nat, names: seq<string>)
    ensures Theirs(others + [(number, names)])
         == Theirs(others) + if names == [] then [] else ["Part " + Decimal(number) + " owns:"] + Bullets(names) + [""]
    ensures names == [] ==> Theirs(others + [(number, names)]) == Theirs(others)
  {
    hide Bullets, Decimal;
    assert (others + [(number, names)])[..|others|] == others;
  }

  method PushOthers(groups: seq<seq<nat>>, part: nat, criteria: seq<string>) returns (lines: seq<Line>)
    ensures lines == Theirs(OthersOwned(groups, part, criteria))
  {
    hide Bullets, Owned;
    lines := [];
    for i := 0 to |groups|
      invariant lines == Theirs(OthersOwned(groups[..i], part, criteria))
    {
      hide OthersOwned, Theirs;
      OthersStep(groups, i, part, criteria);
      if i + 1 == part {
        continue;
      }
      var theirs := OwnedArtifacts(groups[i], criteria);
      TheirsStep(OthersOwned(groups[..i], part, criteria), i + 1, theirs);
      if theirs == [] {
        continue;
      }
      var bullets := PushBullets(theirs);
      lines := lines + (["Part " + Decimal(i + 1) + " owns:"] + bullets + [""]);
    }
    assert groups[..|groups|] == groups;
  }

  /** The architecture as context: every line, marked where another part owns what it names. */
  method PushArchitecture(text: seq<Line>, part: nat, total: nat, groups: seq<seq<nat>>, criteria: seq<string>) returns (lines: seq<Line>)
    ensures lines == Architecture(text, part, total, AllOwners(groups, criteria))
  {
    hide AnnotatedLine, AllOwners;
    if text == [] {
      return [];
    }
    if total > 1 {
      var owners := ArtifactOwners(groups, criteria);
      var marked: seq<Line> := [];
      for i := 0 to |text|
        invariant |marked| == i && forall j | 0 <= j < i :: marked[j] == AnnotatedLine(text[j], part, owners)
      {
        var line := AnnotateLine(text[i], part, owners);
        marked := marked + [line];
      }
      assert marked == Annotated(text, part, owners);
      lines := [FULL_SYSTEM, ""] + marked + NOTE;
    } else {
      lines := ["## Architecture", ""] + text + NOTE;
    }
  }

  method PushItems(criteria: seq<string>, indices: seq<nat>) returns (lines: seq<Line>)
    ensures lines == Items(criteria, indices)
  {
    lines := [];
    for i := 0 to |indices|
      invariant lines == Items(criteria, indices[..i])
    {
      assert indices[..i + 1][..i] == indices[..i];
      if indices[i] < |criteria| {
        lines := lines + [BOX + " " + criteria[indices[i]]];
      }
    }
    assert indices[..|indices|] == indices;
  }

  method GenerateChildSpec(parent: seq<Line>, stem: string, part: nat, total: nat, indices: seq<nat>, criteria: seq<string>, groups: seq<seq<nat>>)
    returns (child: seq<Line>)
    ensures child == Child(parent, stem, part, total, indices, criteria, Attributed(parent, part, indices, criteria, groups))
  {
    hide Section, TrimLines, Items, Theirs, Head, Copied, Scope, Architecture, Tests;
    hide WaitsFor, Owned, OthersOwned, AllOwners, Relevant, TestsOf;
    var tdd := ExtractSection(parent, TESTS);
    var requirements := ExtractSection(parent, "## Requirements");
    var guardrails := ExtractSection(parent, "## Guardrails");
    var overview := ExtractSection(parent, "## Overview");
    var deps := DependsOnParts(indices, groups, criteria, part);
    child := Head(parent, stem, part, total, indices, deps);
    child := child + Copied("## Overview", overview);
    child := child + Copied("## Requirements", requirements);
    var owned := OwnedArtifacts(indices, criteria);
    child := child + Scope(part, total, owned);
    var theirs: seq<Line> := [];
    if total > 1 {
      theirs := PushOthers(groups, part, criteria);
    }
    child := child + theirs;
    var architecture := ExtractSection(parent, "## Architecture");
    var context := PushArchitecture(architecture, part, total, groups, criteria);
    child := child + context;
    var tests := PushTests(tdd, parent, indices, criteria);
    child := child + tests;
    var items := PushItems(criteria, indices);
    child := child + [HEADING, ""] + items + [""];
    child := child + (["## Guardrails", ""] + guardrails + RULE);
  }

  method PushTests(text: seq<Line>, parent: seq<Line>, indices: seq<nat>, criteria: seq<string>) returns (lines: seq<Line>)
    ensures lines == Tests(text, Relevant(TestsOf(parent), indices, criteria))
  {
    hide KeptRows, Missing, Seen, Relevant, TestsOf;
    lines := [];
    if text != [] {
      var relevant := CollectRelevantTests(parent, indices, criteria);
      var table := FilterTable(text, relevant);
      TableIs(text, relevant, table);
      lines := [TESTS, ""] + table + ["", ""];
    }
  }

  lemma TableIs(text: seq<Line>, keep: seq<string>, table: seq<Line>)
    requires text != [] && table == KeptRows(text, keep) + Missing(keep, Seen(text, keep))
    ensures [TESTS, ""] + table + ["", ""] == Tests(text, keep)
  {
    hide KeptRows, Missing, Seen;
    var h, e: seq<Line> := [TESTS, ""], ["", ""];
    assert h + (KeptRows(text, keep) + Missing(keep, Seen(text, keep))) == h + KeptRows(text, keep) + Missing(keep, Seen(text, keep));
  }
}
