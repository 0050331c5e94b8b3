/** Each part's spec reads back as exactly its criteria, and all parts together as the parent's. */
module SplitTheorems {
  import opened Wrappers
  import opened Text
  import opened Verdict
  import opened Markdown
  import opened Split
  import opened Annotate
  import opened TestTable
  import opened ChildSpec
  import opened RoundTrip

  // ----- Every piece before the exit criteria is inert

  lemma OneInert(l: Line)
    requires Inert(l)
    ensures AllInert([l])
  {
  }

  lemma Ordinary(a: string, b: string)
    requires a != "" && !IsSpace(a[0]) && a[0] != '`' && a[0] != '~' && a[0] != '#'
    ensures Inert(a + b)
  {
    OrdinaryLine(a + b);
  }

  lemma TwoInert(a: Line, b: Line)
    requires Inert(a) && Inert(b)
    ensures AllInert([a, b])
  {
  }

  lemma HeadInert(parent: seq<Line>, stem: string, part: nat, total: nat, indices: seq<nat>, dependsOn: seq<nat>)
    requires Tidy(parent)
    ensures AllInert(Head(parent, stem, part, total, indices, dependsOn))
  {
    hide Inert, Joined, Numbers;
    EmptyLine();
    var first := if parent == [] then [] else [parent[0] + " \U{2014} Part " + Decimal(part) + "/" + Decimal(total), ""];
    if parent != [] {
      TitleInert(parent[0], part, total);
    }
    Metadata(stem, part, total, Joined(Numbers(indices)), Order(dependsOn));
    InertJoins(first, [
      "**Parent-Spec**: `" + stem + ".md`",
      "**Part**: " + Decimal(part) + " of " + Decimal(total),
      "**Covers**: Exit criteria " + Joined(Numbers(indices)),
      "**Depends-On-Parts**: " + Order(dependsOn),
      ""]);
  }

  lemma Metadata(stem: string, part: nat, total: nat, covers: string, order: string)
    ensures Inert("**Parent-Spec**: `" + stem + ".md`")
    ensures Inert("**Part**: " + Decimal(part) + " of " + Decimal(total))
    ensures Inert("**Covers**: Exit criteria " + covers)
    ensures Inert("**Depends-On-Parts**: " + order)
  {
    hide Inert, Decimal;
    Ordinary("**Parent-Spec**: `" + stem, ".md`");
    Ordinary("**Part**: " + Decimal(part) + " of ", Decimal(total));
    Ordinary("**Covers**: Exit criteria ", covers);
    Ordinary("**Depends-On-Parts**: ", order);
  }

  lemma CopiedInert(heading: Line, text: seq<Line>)
    requires Inert(heading) && AllInert(text)
    ensures AllInert(Copied(heading, text))
  {
    hide Inert;
    EmptyLine();
    TwoInert(heading, "");
    InertJoins([heading, ""], text);
    OneInert("");
    InertJoins([heading, ""] + text, [""]);
  }

  lemma BulletsInert(names: seq<string>)
    ensures AllInert(Bullets(names))
  {
    hide Inert;
    forall i | 0 <= i < |names|
      ensures Inert(Bullets(names)[i])
    {
      OrdinaryLine("- `" + names[i] + "`");
    }
  }

  lemma ScopeHeading(part: nat, total: nat)
    ensures Inert("## Scope (Part " + Decimal(part) + " of " + Decimal(total) + ")")
  {
    hide Inert, Decimal;
    OtherHeading("## Scope (Part " + Decimal(part) + " of " + Decimal(total) + ")");
  }

  lemma ScopeInert(part: nat, total: nat, owned: seq<string>)
    ensures AllInert(Scope(part, total, owned))
  {
    hide Inert, Bullets, Decimal;
    EmptyLine();
    var heading := "## Scope (Part " + Decimal(part) + " of " + Decimal(total) + ")";
    ScopeHeading(part, total);
    TwoInert(heading, "");
    FixedInert();
    BulletsInert(owned);
    InertJoins(ONLY_THESE, Bullets(owned));
    InertJoins(ONLY_THESE + Bullets(owned), NOTHING_ELSE);
    InertJoins([heading, ""], if owned == [] then NO_ARTIFACT else ONLY_THESE + Bullets(owned) + NOTHING_ELSE);
  }

  /** The fixed lines. */
  lemma FixedInert()
    ensures AllInert(NO_ARTIFACT) && AllInert(ONLY_THESE) && AllInert(NOTHING_ELSE) && AllInert(NOTE)
  {
    hide Inert;
    EmptyLine();
    Ordinary("This part's criteria name ", "no specific artifact. Satisfy the Exit");
    OrdinaryLine("Criteria below and create nothing else.");
    OrdinaryLine("Create or modify **only** these artifacts:");
    Ordinary("Anything else in the Architecture ", "belongs to another part. Creating it");
    Ordinary("here duplicates that part's work ", "and makes the split pointless.");
    Ordinary("> **Note**: the Architecture above ", "describes the FULL system, including");
    Ordinary("> artifacts owned by other parts. ", "Build only what Scope lists.");
  }

  lemma {:induction false} TheirsInert(others: seq<(nat, seq<string>)>)
    ensures AllInert(Theirs(others))
  {
    hide Inert, Bullets, Decimal;
    if others != [] {
      var (number, names) := others[|others| - 1];
      TheirsInert(others[..|others| - 1]);
      if names != [] {
        EmptyLine();
        OrdinaryLine("Part " + Decimal(number) + " owns:");
        BulletsInert(names);
        OneInert("Part " + Decimal(number) + " owns:");
        OneInert("");
        InertJoins(["Part " + Decimal(number) + " owns:"], Bullets(names));
        InertJoins(["Part " + Decimal(number) + " owns:"] + Bullets(names), [""]);
        InertJoins(Theirs(others[..|others| - 1]), ["Part " + Decimal(number) + " owns:"] + Bullets(names) + [""]);
      }
    }
  }

  /** What marking does to a line: the first marker stands behind a name. */
  lemma MarkedLine(l: Line, part: nat, owners: Owners)
    ensures Annotates(l, AnnotatedLine(l, part, owners))
  {
    hide Annotates, LineMarks, MarkOk;
    LineMarksOk(l, part, owners);
    var marks := LineMarks(l, part, owners);
    if marks == [] {
      assert AnnotatedLine(l, part, owners) == l;
      NotMarked(l);
    } else {
      assert MarkOk(l, marks[0]);
      EndsInside(l, marks[0]);
      var at := Behind(l, marks[0].end);
      var rest := Rewritten(l, marks[1..], at);
      assert AnnotatedLine(l, part, owners) == l[..at] + marks[0].text + rest;
      FirstMarker(l, marks[0], at, rest);
    }
  }

  lemma NotMarked(l: Line)
    ensures Annotates(l, l)
  {
  }

  lemma FirstMarker(l: Line, m: Mark, at: nat, rest: string)
    requires MarkOk(l, m) && m.end <= at <= |l|
    ensures Annotates(l, l[..at] + m.text + rest)
  {
    var a := l[..at];
    assert a[m.start] == l[m.start] && IsModuleChar(a[m.start]);
    assert a <= l && '*' in m.text;
  }

  lemma AnnotatedLines(text: seq<Line>, part: nat, owners: Owners)
    requires AllInert(text)
    ensures AllInert(Annotated(text, part, owners))
  {
    hide Inert, Annotates, AnnotatedLine;
    forall i | 0 <= i < |text|
      ensures Inert(Annotated(text, part, owners)[i])
    {
      MarkedLine(text[i], part, owners);
      AnnotatedInert(text[i], AnnotatedLine(text[i], part, owners));
    }
  }

  lemma ArchitectureInert(text: seq<Line>, part: nat, total: nat, owners: Owners)
    requires AllInert(text)
    ensures AllInert(Architecture(text, part, total, owners))
  {
    hide Inert, Annotated;
    EmptyLine();
    FixedInert();
    OtherHeading("## Architecture" + " (full system \U{2014} context, not a build list)");
    OtherHeading("## Architecture");
    TwoInert(FULL_SYSTEM, "");
    TwoInert("## Architecture", "");
    AnnotatedLines(text, part, owners);
    InertJoins([FULL_SYSTEM, ""], Annotated(text, part, owners));
    InertJoins(["## Architecture", ""], text);
    InertJoins([FULL_SYSTEM, ""] + Annotated(text, part, owners), NOTE);
    InertJoins(["## Architecture", ""] + text, NOTE);
  }

  lemma {:induction false} RowsInert(text: seq<Line>, keep: seq<string>)
    requires AllInert(text)
    ensures AllInert(KeptRows(text, keep))
  {
    hide Inert, Drops, Seen;
    if text != [] {
      RowsInert(text[..|text| - 1], keep);
    }
  }

  lemma {:induction false} MissingInert(keep: seq<string>, seen: seq<string>)
    ensures AllInert(Missing(keep, seen))
  {
    hide Inert;
    if keep != [] {
      MissingInert(keep[..|keep| - 1], seen);
      OrdinaryLine(RowFor(keep[|keep| - 1]));
    }
  }

  lemma TestsInert(text: seq<Line>, keep: seq<string>)
    requires AllInert(text)
    ensures AllInert(Tests(text, keep))
  {
    hide Inert, KeptRows, Missing, Seen;
    EmptyLine();
    OtherHeading(TESTS);
    TwoInert(TESTS, "");
    TwoInert("", "");
    RowsInert(text, keep);
    MissingInert(keep, Seen(text, keep));
    InertJoins([TESTS, ""], KeptRows(text, keep));
    InertJoins([TESTS, ""] + KeptRows(text, keep), Missing(keep, Seen(text, keep)));
    InertJoins([TESTS, ""] + KeptRows(text, keep) + Missing(keep, Seen(text, keep)), ["", ""]);
  }

  lemma BeforeInert(parent: seq<Line>, stem: string, part: nat, total: nat, indices: seq<nat>, a: Attribution)
    requires Tidy(parent)
    ensures AllInert(Before(parent, stem, part, total, indices, a))
  {
    hide Inert, Head, Copied, Scope, Theirs, Architecture, Tests, TextOf, Tidy, AllInert;
    SectionInert(parent, "## Overview");
    SectionInert(parent, "## Requirements");
    SectionInert(parent, "## Architecture");
    SectionInert(parent, TESTS);
    OtherHeading("## Overview");
    OtherHeading("## Requirements");
    var b1 := Head(parent, stem, part, total, indices, a.dependsOn);
    HeadInert(parent, stem, part, total, indices, a.dependsOn);
    CopiedInert("## Overview", TextOf(parent, "## Overview"));
    var b2 := b1 + Copied("## Overview", TextOf(parent, "## Overview"));
    InertJoins(b1, Copied("## Overview", TextOf(parent, "## Overview")));
    CopiedInert("## Requirements", TextOf(parent, "## Requirements"));
    var b3 := b2 + Copied("## Requirements", TextOf(parent, "## Requirements"));
    InertJoins(b2, Copied("## Requirements", TextOf(parent, "## Requirements")));
    ScopeInert(part, total, a.owned);
    var b4 := b3 + Scope(part, total, a.owned);
    InertJoins(b3, Scope(part, total, a.owned));
    TheirsInert(a.others);
    NoLines();
    var theirs := if total > 1 then Theirs(a.others) else [];
    var b5 := b4 + theirs;
    InertJoins(b4, theirs);
    ArchitectureInert(TextOf(parent, "## Architecture"), part, total, a.owners);
    var b6 := b5 + Architecture(TextOf(parent, "## Architecture"), part, total, a.owners);
    InertJoins(b5, Architecture(TextOf(parent, "## Architecture"), part, total, a.owners));
    TestsInert(TextOf(parent, TESTS), a.keep);
    InertJoins(b6, Tests(TextOf(parent, TESTS), a.keep));
  }

  lemma NoLines()
    ensures AllInert([])
  {
  }

  // ----- Reading criteria back

  lemma {:induction false} CriteriaJoin(a: seq<Line>, b: seq<Line>)
    ensures CriteriaIn(a + b) == CriteriaIn(a) + CriteriaIn(b)
  {
    hide CriterionOf;
    if b == [] {
      assert a + b == a;
    } else {
      assert (a + b)[..|a + b| - 1] == a + b[..|b| - 1];
      CriteriaJoin(a, b[..|b| - 1]);
    }
  }

  lemma CriterionTrims(l: Line)
    ensures CriterionOf(TrimStart(l)) == CriterionOf(l) && CriterionOf(TrimEnd(l)) == CriterionOf(l)
    ensures TrimStart(l) == "" || TrimEnd(l) == "" ==> CriterionOf(l) == None
  {
    TrimOfTrimStart(l);
    TrimOfTrimEnd(l);
    assert Trim("") == "";
  }

  lemma {:induction false} CriteriaTrimFirst(lines: seq<Line>)
    ensures CriteriaIn(TrimFirst(lines)) == CriteriaIn(lines)
  {
    hide CriterionOf, TrimStart, TrimEnd;
    if lines != [] {
      var rest := lines[1..];
      assert lines == [lines[0]] + rest;
      CriteriaJoin([lines[0]], rest);
      CriterionTrims(lines[0]);
      OneCriterion(lines[0]);
      if TrimStart(lines[0]) == "" {
        CriteriaTrimFirst(rest);
      } else {
        CriteriaJoin([TrimStart(lines[0])], rest);
        OneCriterion(TrimStart(lines[0]));
      }
    }
  }

  lemma OneCriterion(l: Line)
    ensures CriteriaIn([l]) == match CriterionOf(l) case None => [] case Some(c) => [c]
  {
    hide CriterionOf;
    assert [l][..0] == [];
  }

  lemma {:induction false} CriteriaTrimLast(lines: seq<Line>)
    ensures CriteriaIn(TrimLast(lines)) == CriteriaIn(lines)
  {
    hide CriterionOf, TrimStart, TrimEnd;
    if lines != [] {
      var front, last := lines[..|lines| - 1], lines[|lines| - 1];
      CriterionTrims(last);
      if TrimEnd(last) == "" {
        CriteriaTrimLast(front);
      } else {
        assert (front + [TrimEnd(last)])[..|front|] == front;
      }
    }
  }

  /** Trimming the section does not change its criteria. */
  lemma CriteriaTrimmed(lines: seq<Line>)
    ensures CriteriaIn(TrimLines(lines)) == CriteriaIn(lines)
  {
    CriteriaTrimFirst(lines);
    CriteriaTrimLast(TrimFirst(lines));
  }

  /** Text as the parser yields it. */
  ghost predicate Clean(c: string) {
    c != "" && Trim(c) == c
  }

  lemma {:induction false} CriteriaAreClean(lines: seq<Line>)
    ensures forall i | 0 <= i < |CriteriaIn(lines)| :: Clean(CriteriaIn(lines)[i])
  {
    hide Trim;
    if lines != [] {
      CriteriaAreClean(lines[..|lines| - 1]);
      var l := lines[|lines| - 1];
      if CriterionOf(l).Some? {
        TrimmedEnds(Trim(l)[|BOX|..]);
      }
    }
  }

  /** A box with a criterion reads back as the criterion. */
  lemma ItemReadsBack(c: string)
    requires Clean(c)
    ensures CriterionOf(BOX + " " + c) == Some(c) && !IsH1OrH2(BOX + " " + c) && !IsFence(BOX + " " + c)
  {
    var l := BOX + " " + c;
    TrimmedEnds(c);
    assert l[0] == '-' && l[|l| - 1] == c[|c| - 1];
    Tight(l);
    assert l[|BOX|..] == " " + c;
    assert TrimStart(" " + c) == TrimStart((" " + c)[1..]);
    assert (" " + c)[1..] == c;
    OrdinaryLine(l);
  }

  function Chosen(criteria: seq<string>, indices: seq<nat>): seq<string>
    requires forall i | 0 <= i < |indices| :: indices[i] < |criteria|
  {
    seq(|indices|, i requires 0 <= i < |indices| => criteria[indices[i]])
  }

  ghost predicate AllClean(criteria: seq<string>) {
    forall i | 0 <= i < |criteria| :: Clean(criteria[i])
  }

  /** The items are boxes, one for each index. */
  lemma {:induction false} ItemsReadBack(criteria: seq<string>, indices: seq<nat>)
    requires AllClean(criteria) && forall i | 0 <= i < |indices| :: indices[i] < |criteria|
    ensures CriteriaIn(Items(criteria, indices)) == Chosen(criteria, indices)
    ensures forall i | 0 <= i < |Items(criteria, indices)| :: !IsH1OrH2(Items(criteria, indices)[i]) && !IsFence(Items(criteria, indices)[i])
  {
    hide CriterionOf, IsH1OrH2, IsFence, Clean;
    if indices != [] {
      var front, last := indices[..|indices| - 1], indices[|indices| - 1];
      ItemsReadBack(criteria, front);
      ItemReadsBack(criteria[last]);
      CriteriaJoin(Items(criteria, front), [BOX + " " + criteria[last]]);
      OneCriterion(BOX + " " + criteria[last]);
      assert Chosen(criteria, indices) == Chosen(criteria, front) + [criteria[last]];
    }
  }

  // ----- The section of the child

  const GUARD: Line := "## Guardrails"

  /** A file whose exit criteria lie between an inert part and the guardrails. */
  function Framed(before: seq<Line>, items: seq<Line>, rest: seq<Line>): seq<Line> {
    before + [HEADING, ""] + items + [""] + ([GUARD] + rest)
  }

  ghost predicate Unfenced(lines: seq<Line>) {
    forall i | 0 <= i < |lines| :: !IsFence(lines[i])
  }

  ghost predicate NoHeadings(lines: seq<Line>) {
    forall i | 0 <= i < |lines| :: !IsH1OrH2(lines[i])
  }

  lemma InertUnfenced(lines: seq<Line>)
    requires AllInert(lines)
    ensures Unfenced(lines)
  {
    hide IsFence, Trim;
  }

  lemma HeadingFacts()
    ensures !IsFence(HEADING) && !IsFence("") && !IsFence(GUARD) && IsH1OrH2(GUARD) && !IsH1OrH2("")
    ensures TrimEnd(HEADING) == HEADING
  {
    assert Hashes(GUARD[2..]) == 0;
    assert GUARD[1..][1..] == GUARD[2..];
    assert Hashes(GUARD[1..]) == 1 && Hashes(GUARD) == 2;
    assert HEADING[0] == '#' && GUARD[0] == '#';
  }

  lemma FramedUnfenced(before: seq<Line>, items: seq<Line>, rest: seq<Line>)
    requires Unfenced(before) && Unfenced(items) && Unfenced(rest)
    ensures NoFences(Framed(before, items, rest))
  {
    hide IsFence;
    HeadingFacts();
  }

  lemma FramedLines(before: seq<Line>, items: seq<Line>, rest: seq<Line>)
    ensures var f := Framed(before, items, rest);
      var h, e := |before|, |before| + |items| + 3;
      && |f| == e + 1 + |rest|
      && (forall i | 0 <= i < h :: f[i] == before[i])
      && f[h] == HEADING && f[h + 1] == "" && f[e - 1] == "" && f[e] == GUARD
      && (forall i | 0 <= i < |items| :: f[h + 2 + i] == items[i])
      && f[h + 1..e] == [""] + items + [""]
  {
  }

  /** Text does not open the section. */
  lemma InertDoesNotOpen(l: Line)
    requires Inert(l)
    ensures TrimEnd(l) != HEADING
  {
    TrimEndIs(l);
    TrimOfTrimEnd(l);
    TrimmedHeading();
  }

  lemma TrimmedHeading()
    ensures Trim(HEADING) == HEADING
  {
    assert HEADING[0] == '#' && HEADING[|HEADING| - 1] == 'a';
    Tight(HEADING);
  }

  lemma OpeningIs(f: seq<Line>, h: nat)
    requires NoFences(f) && h < |f| && f[h] == HEADING && forall i | 0 <= i < h :: Inert(f[i])
    ensures FirstOpening(f, HEADING, 0) == h
  {
    hide FirstOpening, Opens, Inert, TrimEnd, IsFence;
    HeadingFacts();
    OpensWhen(f, h);
    forall i | 0 <= i < h
      ensures !Opens(f, HEADING, i)
    {
      InertDoesNotOpen(f[i]);
      OpensWhen(f, i);
    }
  }

  lemma OpensWhen(f: seq<Line>, i: nat)
    requires NoFences(f) && i < |f|
    ensures Opens(f, HEADING, i) <==> TrimEnd(f[i]) == HEADING
    ensures Ends(f, i) <==> IsH1OrH2(f[i])
  {
    hide Visible, IsFence, IsH1OrH2, TrimEnd;
    HeadingFacts();
    AllVisible(f, i);
  }

  lemma EndingIs(f: seq<Line>, from: nat, e: nat)
    requires NoFences(f) && from <= e < |f| && f[e] == GUARD && forall i | from <= i < e :: !IsH1OrH2(f[i])
    ensures FirstEnding(f, from) == e
  {
    hide FirstEnding, Ends, IsH1OrH2, IsFence;
    HeadingFacts();
    OpensWhen(f, e);
    forall i | from <= i < e
      ensures !Ends(f, i)
    {
      OpensWhen(f, i);
    }
  }

  lemma FramedSection(before: seq<Line>, items: seq<Line>, rest: seq<Line>)
    requires AllInert(before) && Unfenced(items) && NoHeadings(items) && Unfenced(rest)
    ensures Section(Framed(before, items, rest), HEADING) == [""] + items + [""]
  {
    hide IsFence, Inert, IsH1OrH2, FirstOpening, FirstEnding, Framed;
    var f := Framed(before, items, rest);
    InertUnfenced(before);
    FramedUnfenced(before, items, rest);
    FramedLines(before, items, rest);
    HeadingFacts();
    var h, e := |before|, |before| + |items| + 3;
    OpeningIs(f, h);
    forall i | h + 1 <= i < e
      ensures !IsH1OrH2(f[i])
    {
      assert h + 2 <= i < e - 1 ==> f[i] == items[i - h - 2];
    }
    EndingIs(f, h + 1, e);
  }

  // ----- The part's spec

  lemma GuardrailsUnfenced(parent: seq<Line>)
    requires Tidy(parent)
    ensures Guardrails(parent) == [GUARD] + ([""] + TextOf(parent, "## Guardrails") + RULE)
    ensures Unfenced([""] + TextOf(parent, "## Guardrails") + RULE)
  {
    hide IsFence, Inert, TextOf, Tidy;
    SectionInert(parent, "## Guardrails");
    InertUnfenced(TextOf(parent, "## Guardrails"));
    RuleInert();
    HeadingFacts();
    assert ["## Guardrails", ""] + TextOf(parent, "## Guardrails") + RULE == [GUARD] + ([""] + TextOf(parent, "## Guardrails") + RULE);
  }

  lemma RuleInert()
    ensures Unfenced(RULE)
  {
    hide Inert;
    Ordinary("- **Do NOT create artifacts ", "owned by other parts.** Only what Scope lists.");
    Ordinary("The Architecture section describes ", "the full system; building all of it here");
    Ordinary("duplicates other parts' work ", "and defeats the split.");
    InertUnfenced(RULE);
  }

  lemma HeadingMentioned(before: seq<Line>, items: seq<Line>, rest: seq<Line>)
    ensures Mentions(Framed(before, items, rest), HEADING)
  {
    FramedLines(before, items, rest);
    assert OccursAt(HEADING, HEADING, 0) by {
      assert HEADING[0..|HEADING|] == HEADING;
    }
    assert Contains(Framed(before, items, rest)[|before|], HEADING);
  }

  lemma ChildIsFramed(parent: seq<Line>, stem: string, part: nat, total: nat, indices: seq<nat>, criteria: seq<string>, a: Attribution)
    requires Tidy(parent)
    ensures Child(parent, stem, part, total, indices, criteria, a)
         == Framed(Before(parent, stem, part, total, indices, a), Items(criteria, indices), [""] + TextOf(parent, "## Guardrails") + RULE)
  {
    hide Before, Items, TextOf, Tidy, Guardrails;
    GuardrailsUnfenced(parent);
  }

  lemma BlankHasNone(items: seq<Line>)
    ensures CriteriaIn([""] + items + [""]) == CriteriaIn(items)
  {
    hide CriterionOf;
    CriteriaJoin([""] + items, [""]);
    CriteriaJoin([""], items);
    OneCriterion("");
    CriterionTrims("");
    assert TrimStart("") == "";
  }

  /** The spec of a part reads back as exactly the criteria it was given, in order. */
  lemma PartReadsBack(parent: seq<Line>, stem: string, part: nat, total: nat, indices: seq<nat>, criteria: seq<string>, a: Attribution)
    requires Tidy(parent) && AllClean(criteria)
    requires indices != [] && forall i | 0 <= i < |indices| :: indices[i] < |criteria|
    ensures Parsed(Child(parent, stem, part, total, indices, criteria, a)) == Ok(Chosen(criteria, indices))
  {
    hide Tidy, AllClean, Before, TextOf, Items, Framed, Section, TrimLines, CriteriaIn, Child, Inert, IsFence, IsH1OrH2;
    var before, items := Before(parent, stem, part, total, indices, a), Items(criteria, indices);
    var rest := [""] + TextOf(parent, "## Guardrails") + RULE;
    ChildIsFramed(parent, stem, part, total, indices, criteria, a);
    BeforeInert(parent, stem, part, total, indices, a);
    GuardrailsUnfenced(parent);
    ItemsReadBack(criteria, indices);
    FramedSection(before, items, rest);
    HeadingMentioned(before, items, rest);
    CriteriaTrimmed([""] + items + [""]);
    BlankHasNone(items);
  }

  lemma ParsedIsClean(doc: seq<Line>)
    requires Parsed(doc).Ok?
    ensures AllClean(Parsed(doc).value)
  {
    hide Section, TrimLines;
    CriteriaAreClean(TrimLines(Section(doc, HEADING)));
  }

  lemma PartIndices(total: nat, n: nat, p: nat)
    requires 0 < n <= total && p < n
    ensures PartsOf(total, n)[p] != []
    ensures forall i | 0 <= i < |PartsOf(total, n)[p]| :: PartsOf(total, n)[p][i] < total
  {
    hide PartStart, PartSize;
    PartsCover(total, n);
    PartsMeet(total, n, p);
    PartsGrow(total, n, p + 1, n);
    LastPartEnds(total, n);
  }

  /** Criterion texts of the first `p` parts, one part after the other. */
  ghost function ReadBack(parent: seq<Line>, stem: string, n: nat, criteria: seq<string>, attributions: nat -> Attribution, p: nat): seq<string>
    requires 0 < n <= |criteria| && p <= n
  {
    if p == 0 then []
    else
      var child := Child(parent, stem, p, n, PartsOf(|criteria|, n)[p - 1], criteria, attributions(p));
      ReadBack(parent, stem, n, criteria, attributions, p - 1)
        + (match Parsed(child) case Ok(texts) => texts case Err(_) => [])
  }

  lemma {:induction false} ReadBackIs(parent: seq<Line>, stem: string, n: nat, criteria: seq<string>, attributions: nat -> Attribution, p: nat)
    requires 0 < n <= |criteria| && p <= n && Tidy(parent) && AllClean(criteria)
    ensures PartStart(|criteria|, n, p) <= |criteria|
    ensures ReadBack(parent, stem, n, criteria, attributions, p) == criteria[..PartStart(|criteria|, n, p)]
  {
    hide Tidy, AllClean, Child, Parsed, PartStart;
    PartsGrow(|criteria|, n, p, n);
    LastPartEnds(|criteria|, n);
    PartsMeet(|criteria|, n, 0);
    if p > 0 {
      ReadBackIs(parent, stem, n, criteria, attributions, p - 1);
      var indices := PartsOf(|criteria|, n)[p - 1];
      PartIndices(|criteria|, n, p - 1);
      PartReadsBack(parent, stem, p, n, indices, criteria, attributions(p));
      PartsMeet(|criteria|, n, p - 1);
      ChosenIsSlice(criteria, n, p - 1);
    }
  }

  lemma ChosenIsSlice(criteria: seq<string>, n: nat, p: nat)
    requires 0 < n <= |criteria| && p < n
    requires forall i | 0 <= i < |PartsOf(|criteria|, n)[p]| :: PartsOf(|criteria|, n)[p][i] < |criteria|
    requires PartStart(|criteria|, n, p + 1) <= |criteria|
    ensures PartStart(|criteria|, n, p) <= PartStart(|criteria|, n, p + 1)
    ensures criteria[..PartStart(|criteria|, n, p)] + Chosen(criteria, PartsOf(|criteria|, n)[p]) == criteria[..PartStart(|criteria|, n, p + 1)]
  {
    hide PartStart, PartSize;
    PartsMeet(|criteria|, n, p);
    var a, b := PartStart(|criteria|, n, p), PartStart(|criteria|, n, p + 1);
    assert Chosen(criteria, PartsOf(|criteria|, n)[p]) == criteria[a..b];
  }

  /**
   The round trip: for a parent without fences in which only the heading itself trims to the heading, the
   exit criteria read out of the parts of an ordered split, part after part, are the parent's, in order.
   */
  lemma SplitRoundTrip(parent: seq<Line>, stem: string, n: nat, attributions: nat -> Attribution)
    requires Tidy(parent) && Parsed(parent).Ok? && 0 < n <= |Parsed(parent).value|
    ensures ReadBack(parent, stem, n, Parsed(parent).value, attributions, n) == Parsed(parent).value
  {
    hide Tidy, AllClean, ReadBack, Parsed, PartStart;
    var criteria := Parsed(parent).value;
    ParsedIsClean(parent);
    ReadBackIs(parent, stem, n, criteria, attributions, n);
    LastPartEnds(|criteria|, n);
  }

  // ----- Reading tests back

  /** The table a part keeps of the parent's tests. */
  function PartTable(parent: seq<Line>, indices: seq<nat>, criteria: seq<string>): seq<Line> {
    var keep := Relevant(TestsOf(parent), indices, criteria);
    var text := TextOf(parent, TESTS);
    KeptRows(text, keep) + Missing(keep, Seen(text, keep))
  }

  /** A part's table names exactly the parent's tests that one of its criteria is about, each in one row, and keeps the prose. */
  lemma PartTests(parent: seq<Line>, indices: seq<nat>, criteria: seq<string>, t: string)
    ensures RowsOf(PartTable(parent, indices, criteria), t)
         == if t in TestsOf(parent) && IsWanted(t, indices, criteria) then 1 else 0
    ensures Prose(PartTable(parent, indices, criteria)) == Prose(TextOf(parent, TESTS))
  {
    hide IsTestName, IsWanted, KeptRows, Missing, Seen, RowsOf, Prose, Relevant, TextOf;
    var tests := TestsOf(parent);
    var keep := Relevant(tests, indices, criteria);
    TestsAreNames(TrimLines(Section(parent, TESTS)));
    RelevantAre(tests, indices, criteria, t);
    forall i | 0 <= i < |keep|
      ensures IsTestName(keep[i])
    {
      RelevantAre(tests, indices, criteria, keep[i]);
      assert keep[i] in tests;
    }
    NoTestIsLost(TextOf(parent, TESTS), keep, t);
  }

  lemma {:induction false} InFlat(parts: seq<seq<nat>>, i: nat)
    requires i in Flat(parts)
    ensures exists p :: 0 <= p < |parts| && i in parts[p]
  {
    var front, last := parts[..|parts| - 1], parts[|parts| - 1];
    assert i in last ==> parts[|parts| - 1] == last;
    if i !in last {
      InFlat(front, i);
      var p :| 0 <= p < |front| && i in front[p];
      assert parts[p] == front[p];
    }
  }

  lemma InSomePart(total: nat, n: nat, i: nat)
    requires 0 < n <= total && i < total
    ensures exists p :: 0 <= p < n && i in PartsOf(total, n)[p]
  {
    hide PartOf, Flat;
    PartsCover(total, n);
    assert Indices(total)[i] == i;
    InFlat(PartsOf(total, n), i);
  }

  /** One of all the criteria is about the test. */
  ghost predicate IsTested(t: string, criteria: seq<string>) {
    exists i :: 0 <= i < |criteria| && IsAbout(t, Identifiers(criteria[i]))
  }

  /** Over the whole split a test of the parent has a row in some part if and only if a criterion is about it. */
  lemma TestsSurvive(parent: seq<Line>, n: nat, criteria: seq<string>, t: string)
    requires 0 < n <= |criteria|
    ensures (exists p :: 0 <= p < n && RowsOf(PartTable(parent, PartsOf(|criteria|, n)[p], criteria), t) > 0)
       <==> t in TestsOf(parent) && IsTested(t, criteria)
  {
    hide PartOf, PartTable, RowsOf, TestsOf, IsAbout, Identifiers;
    var parts := PartsOf(|criteria|, n);
    forall p | 0 <= p < n
      ensures RowsOf(PartTable(parent, parts[p], criteria), t) == if t in TestsOf(parent) && IsWanted(t, parts[p], criteria) then 1 else 0
    {
      PartTests(parent, parts[p], criteria, t);
    }
    if IsTested(t, criteria) {
      var i :| 0 <= i < |criteria| && IsAbout(t, Identifiers(criteria[i]));
      InSomePart(|criteria|, n, i);
      var p :| 0 <= p < n && i in parts[p];
      assert IsWanted(t, parts[p], criteria);
    }
  }

  // ----- The automatic split

  /** The criteria of the children, one child after the other. */
  ghost function ReadAll(children: seq<seq<Line>>): seq<string> {
    if children == [] then []
    else ReadAll(children[..|children| - 1]) + (match Parsed(children[|children| - 1]) case Ok(texts) => texts case Err(_) => [])
  }

  ghost predicate AreChildren(parent: seq<Line>, stem: string, n: nat, criteria: seq<string>, attributions: nat -> Attribution, children: seq<seq<Line>>)
    requires 0 < n <= |criteria|
  {
    |children| <= n && forall p | 0 <= p < |children| :: children[p] == Child(parent, stem, p + 1, n, PartsOf(|criteria|, n)[p], criteria, attributions(p + 1))
  }

  lemma {:induction false} ReadAllIs(parent: seq<Line>, stem: string, n: nat, criteria: seq<string>, attributions: nat -> Attribution, children: seq<seq<Line>>)
    requires 0 < n <= |criteria| && AreChildren(parent, stem, n, criteria, attributions, children)
    ensures ReadAll(children) == ReadBack(parent, stem, n, criteria, attributions, |children|)
  {
    hide Child, Parsed, PartsOf;
    if children != [] {
      ReadAllIs(parent, stem, n, criteria, attributions, children[..|children| - 1]);
    }
  }

  /** What the heuristics say of each part of an ordered split. */
  ghost function Attributions(parent: seq<Line>, n: nat, criteria: seq<string>): nat -> Attribution
    requires 0 < n <= |criteria|
  {
    var parts := PartsOf(|criteria|, n);
    (p: nat) => Attributed(parent, p, if 0 < p <= |parts| then parts[p - 1] else [], criteria, parts)
  }

  /** Small specs stay whole; a large one becomes parts of 4 to 6 criteria that read back as the whole. */
  method SplitForAuto(parent: seq<Line>, stem: string) returns (r: Result<Option<seq<seq<Line>>>, ParseError>)
    ensures r.Err? <==> Parsed(parent).Err?
    ensures r.Ok? ==> (r.value.None? <==> |Parsed(parent).value| <= TARGET_MAX)
    ensures r.Ok? && r.value.Some? ==>
      var criteria, n := Parsed(parent).value, AutoDetermineSplitCount(|Parsed(parent).value|);
      && 0 < n <= |criteria| && |r.value.value| == n && AreChildren(parent, stem, n, criteria, Attributions(parent, n, criteria), r.value.value)
      && forall p | 0 <= p < n :: 4 <= |PartOf(|criteria|, n, p)| <= 6
    ensures r.Ok? && r.value.Some? && Tidy(parent) ==>
      ReadAll(r.value.value) == Parsed(parent).value
  {
    hide Parsed, Child, Tidy, PartOf, ReadAll, Attributed;
    var parsed := ParseExitCriteria(parent);
    if parsed.Err? {
      return Err(parsed.error);
    }
    var criteria := parsed.value;
    var n := AutoDetermineSplitCount(|criteria|);
    if n <= 1 || |criteria| <= TARGET_MAX {
      return Ok(None);
    }
    AutoSplitSizes(|criteria|, 0);
    var parts := SplitIntoNPartsOrdered(|criteria|, n);
    ghost var attributions := Attributions(parent, n, criteria);
    var children: seq<seq<Line>> := [];
    for p := 0 to n
      invariant |children| == p && AreChildren(parent, stem, n, criteria, attributions, children)
    {
      var child := GenerateChildSpec(parent, stem, p + 1, n, parts.value[p], criteria, parts.value);
      children := children + [child];
    }
    forall p | 0 <= p < n
      ensures 4 <= |PartOf(|criteria|, n, p)| <= 6
    {
      AutoSplitSizes(|criteria|, p);
    }
    ReadAllIs(parent, stem, n, criteria, attributions, children);
    if Tidy(parent) {
      SplitRoundTrip(parent, stem, n, attributions);
    }
    r := Ok(Some(children));
  }
}
