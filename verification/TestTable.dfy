/** The test table of a spec: the names in it, the tests a criterion is about, and the rows one part keeps. */
module TestTable {
  import opened Wrappers
  import Graph
  import opened Text
  import opened Verdict
  import opened Markdown
  import opened Split

  const TESTS: Line := "## TDD Contract"
  const PREFIX: string := "test_"

  predicate IsWordChar(c: char) {
    IsAlphanumeric(c) || c == '_'
  }

  predicate IsNoWordChar(c: char) {
    !IsWordChar(c)
  }

  predicate IsTestName(t: string) {
    PREFIX <= t && forall c | c in t :: IsWordChar(c)
  }

  // ----- The name in a line

  function TrimTicksStart(s: string): string {
    if s != "" && s[0] == '`' then TrimTicksStart(s[1..]) else s
  }

  function TrimTicksEnd(s: string): string {
    if s != "" && s[|s| - 1] == '`' then TrimTicksEnd(s[..|s| - 1]) else s
  }

  /** The word characters a text begins with. */
  function WordAt(s: string): string {
    if s != "" && IsWordChar(s[0]) then [s[0]] + WordAt(s[1..]) else ""
  }

  function NameIn(cell: string): Option<string> {
    var t := TrimTicksEnd(TrimTicksStart(Trim(cell)));
    if PREFIX <= t then Some(WordAt(t)) else None
  }

  function FirstName(cells: seq<string>): Option<string> {
    if cells == [] then None else if NameIn(cells[0]).Some? then NameIn(cells[0]) else FirstName(cells[1..])
  }

  predicate IsBar(c: char) {
    c == '|'
  }

  function Cells(line: Line): seq<string> {
    Fields(line, IsBar, "")
  }

  function TestIn(line: Line): Option<string> {
    FirstName(Cells(line))
  }

  method ExtractTestName(line: Line) returns (r: Option<string>)
    ensures r == TestIn(line)
  {
    hide NameIn;
    var cells := Cells(line);
    for i := 0 to |cells|
      invariant FirstName(cells[i..]) == FirstName(cells)
    {
      var name := NameIn(cells[i]);
      if name.Some? {
        return name;
      }
      assert cells[i..][1..] == cells[i + 1..];
    }
    r := None;
  }

  lemma {:induction false} WordAtIs(s: string, n: nat)
    requires n <= |s| && forall i | 0 <= i < n :: IsWordChar(s[i])
    ensures n <= |WordAt(s)| && WordAt(s) <= s && forall c | c in WordAt(s) :: IsWordChar(c)
  {
    hide IsWordChar;
    if s != "" && IsWordChar(s[0]) {
      var m: nat := if n == 0 then 0 else n - 1;
      assert forall i | 0 <= i < m :: s[1..][i] == s[i + 1];
      WordAtIs(s[1..], m);
      assert s == [s[0]] + s[1..];
    }
  }

  lemma PrefixIsWord(t: string)
    requires PREFIX <= t
    ensures IsTestName(WordAt(t))
  {
    assert forall i | 0 <= i < 5 :: t[i] == PREFIX[i];
    WordAtIs(t, 5);
    assert WordAt(t)[..5] == t[..5];
  }

  /** What is read out of a line is a test's name. */
  lemma {:induction false} NamesAreTests(cells: seq<string>)
    ensures FirstName(cells).Some? ==> IsTestName(FirstName(cells).value)
  {
    hide IsTestName, WordAt, TrimTicksStart, TrimTicksEnd, Trim;
    if cells != [] && NameIn(cells[0]).None? {
      NamesAreTests(cells[1..]);
    } else if cells != [] {
      PrefixIsWord(TrimTicksEnd(TrimTicksStart(Trim(cells[0]))));
    }
  }

  // ----- The tests of a spec

  predicate NamesTest(line: Line) {
    Contains(line, PREFIX) && Contains(line, "|") && TestIn(line).Some?
  }

  function TestsIn(lines: seq<Line>): seq<string> {
    if lines == [] then []
    else
      var front, last := TestsIn(lines[..|lines| - 1]), lines[|lines| - 1];
      if NamesTest(last) && TestIn(last).value !in front then front + [TestIn(last).value] else front
  }

  function TestsOf(doc: seq<Line>): seq<string> {
    if Mentions(doc, TESTS) then TestsIn(TrimLines(Section(doc, TESTS))) else []
  }

  method ParseTests(doc: seq<Line>) returns (tests: seq<string>)
    ensures tests == TestsOf(doc)
  {
    hide Section, TrimLines, TestIn, Contains;
    tests := [];
    if Mentions(doc, TESTS) {
      var lines := ExtractSection(doc, TESTS);
      for i := 0 to |lines|
        invariant tests == TestsIn(lines[..i])
      {
        assert lines[..i + 1][..i] == lines[..i];
        if Contains(lines[i], PREFIX) && Contains(lines[i], "|") {
          var name := ExtractTestName(lines[i]);
          if name.Some? && name.value !in tests {
            tests := tests + [name.value];
          }
        }
      }
      assert lines[..|lines|] == lines;
    }
  }

  ghost predicate AllTests(names: seq<string>) {
    forall i | 0 <= i < |names| :: IsTestName(names[i])
  }

  lemma {:induction false} TestsAreNames(lines: seq<Line>)
    ensures Graph.Distinct(TestsIn(lines)) && AllTests(TestsIn(lines))
  {
    hide IsTestName;
    if lines != [] {
      TestsAreNames(lines[..|lines| - 1]);
      NamesAreTests(Cells(lines[|lines| - 1]));
    }
  }

  // ----- The tests of a part

  const STOP_WORDS: seq<string> := [
    "the", "and", "for", "with", "that", "this", "from", "it", "in", "to", "of", "a", "an", "is", "are", "be", "as", "on",
    "at", "by", "or", "not", "when", "must", "should", "will", "has", "have", "via", "using", "shell", "test", "tests",
    "cargo", "rustc", "clippy", "fmt", "bash", "run", "go", "make", "gradle", "mvn", "npm", "passes", "pass", "check",
    "checks", "command", "cmd", "implement", "implementation", "expected", "output", "returns", "require", "requires",
    "build", "compile"]

  /** A word with an underscore, or a longer one in small letters; stop words are neither. */
  predicate IsIdentifier(word: string) {
    word != "" && word !in STOP_WORDS && ('_' in word || (|word| >= 4 && forall c | c in word :: 'a' <= c <= 'z'))
  }

  function IdentifiersIn(words: seq<string>): seq<string> {
    if words == [] then []
    else
      var front, last := IdentifiersIn(words[..|words| - 1]), words[|words| - 1];
      if IsIdentifier(last) && last !in front then front + [last] else front
  }

  function Identifiers(text: string): seq<string> {
    IdentifiersIn(Fields(text, IsNoWordChar, ""))
  }

  method ExtractIdentifiers(text: string) returns (identifiers: seq<string>)
    ensures identifiers == Identifiers(text)
  {
    hide Fields;
    var words := Fields(text, IsNoWordChar, "");
    identifiers := [];
    for i := 0 to |words|
      invariant identifiers == IdentifiersIn(words[..i])
    {
      hide IsIdentifier;
      assert words[..i + 1][..i] == words[..i];
      if IsIdentifier(words[i]) && words[i] !in identifiers {
        identifiers := identifiers + [words[i]];
      }
    }
    assert words[..|words|] == words;
  }

  /** The test's name holds one of the words. */
  /** The identifiers of a text are exactly the runs of word characters in it that look like one. */
  lemma IdentifierIff(text: string, w: string)
    ensures w in Identifiers(text) <==> IsIdentifier(w) && exists i: nat :: RunAt(text, w, i, IsNoWordChar)
  {
    hide RunAt, Fields;
    IdentifiersHave(Fields(text, IsNoWordChar, ""), w);
    if w != "" {
      FieldIff(text, w, IsNoWordChar);
    }
  }

  lemma {:induction false} IdentifiersHave(words: seq<string>, w: string)
    ensures w in IdentifiersIn(words) <==> IsIdentifier(w) && w in words
  {
    hide IsIdentifier;
    if words != [] {
      IdentifiersHave(words[..|words| - 1], w);
      assert words == words[..|words| - 1] + [words[|words| - 1]];
    }
  }

  predicate IsAbout(test: string, identifiers: seq<string>) {
    exists i :: 0 <= i < |identifiers| && Contains(test, identifiers[i])
  }

  function About(tests: seq<string>, identifiers: seq<string>): seq<string> {
    if tests == [] then []
    else About(tests[..|tests| - 1], identifiers) + if IsAbout(tests[|tests| - 1], identifiers) then [tests[|tests| - 1]] else []
  }

  method FindTests(criterion: string, tests: seq<string>) returns (related: seq<string>)
    ensures related == About(tests, Identifiers(criterion))
  {
    hide Identifiers, Contains;
    related := [];
    var identifiers := ExtractIdentifiers(criterion);
    for i := 0 to |tests|
      invariant related == About(tests[..i], identifiers)
    {
      assert tests[..i + 1][..i] == tests[..i];
      for j := 0 to |identifiers|
        invariant related == About(tests[..i], identifiers)
        invariant forall k | 0 <= k < j :: !Contains(tests[i], identifiers[k])
      {
        if Contains(tests[i], identifiers[j]) {
          related := related + [tests[i]];
          break;
        }
      }
    }
    assert tests[..|tests|] == tests;
  }

  function Merged(names: seq<string>, more: seq<string>): seq<string> {
    if more == [] then names
    else
      var front, last := Merged(names, more[..|more| - 1]), more[|more| - 1];
      if last in front then front else front + [last]
  }

  function Relevant(tests: seq<string>, indices: seq<nat>, criteria: seq<string>): seq<string> {
    if indices == [] then []
    else
      var front, last := Relevant(tests, indices[..|indices| - 1], criteria), indices[|indices| - 1];
      if last < |criteria| then Merged(front, About(tests, Identifiers(criteria[last]))) else front
  }

  method CollectRelevantTests(doc: seq<Line>, indices: seq<nat>, criteria: seq<string>) returns (relevant: seq<string>)
    ensures relevant == Relevant(TestsOf(doc), indices, criteria)
  {
    hide TestsOf, About, Identifiers;
    var tests := ParseTests(doc);
    relevant := [];
    for i := 0 to |indices|
      invariant relevant == Relevant(tests, indices[..i], criteria)
    {
      assert indices[..i + 1][..i] == indices[..i];
      if indices[i] < |criteria| {
        var related := FindTests(criteria[indices[i]], tests);
        ghost var before := relevant;
        for j := 0 to |related|
          invariant relevant == Merged(before, related[..j])
        {
          assert related[..j + 1][..j] == related[..j];
          if related[j] !in relevant {
            relevant := relevant + [related[j]];
          }
        }
        assert related[..|related|] == related;
      }
    }
    assert indices[..|indices|] == indices;
  }

  lemma {:induction false} AboutAre(tests: seq<string>, identifiers: seq<string>, t: string)
    ensures t in About(tests, identifiers) <==> t in tests && IsAbout(t, identifiers)
  {
    hide IsAbout;
    if tests != [] {
      AboutAre(tests[..|tests| - 1], identifiers, t);
      assert tests == tests[..|tests| - 1] + [tests[|tests| - 1]];
    }
  }

  lemma {:induction false} MergedAre(names: seq<string>, more: seq<string>, t: string)
    requires Graph.Distinct(names)
    ensures Graph.Distinct(Merged(names, more)) && (t in Merged(names, more) <==> t in names || t in more)
  {
    if more != [] {
      MergedAre(names, more[..|more| - 1], t);
      MergedAre(names, more[..|more| - 1], more[|more| - 1]);
      assert more == more[..|more| - 1] + [more[|more| - 1]];
    }
  }

  /** One of the criteria is about the test. */
  ghost predicate IsWanted(t: string, indices: seq<nat>, criteria: seq<string>) {
    exists i :: 0 <= i < |indices| && indices[i] < |criteria| && IsAbout(t, Identifiers(criteria[indices[i]]))
  }

  /** The tests of a part are the spec's tests that one of its criteria is about, each once. */
  lemma {:induction false} RelevantAre(tests: seq<string>, indices: seq<nat>, criteria: seq<string>, t: string)
    ensures Graph.Distinct(Relevant(tests, indices, criteria))
    ensures t in Relevant(tests, indices, criteria) <==> t in tests && IsWanted(t, indices, criteria)
  {
    hide About, Identifiers, IsAbout, Merged;
    if indices != [] {
      var front, last := indices[..|indices| - 1], indices[|indices| - 1];
      RelevantAre(tests, front, criteria, t);
      WantedStep(t, indices, criteria);
      if last < |criteria| {
        MergedAre(Relevant(tests, front, criteria), About(tests, Identifiers(criteria[last])), t);
        AboutAre(tests, Identifiers(criteria[last]), t);
      }
    }
  }

  lemma WantedStep(t: string, indices: seq<nat>, criteria: seq<string>)
    requires indices != []
    ensures var last := indices[|indices| - 1];
      IsWanted(t, indices, criteria) <==>
      IsWanted(t, indices[..|indices| - 1], criteria) || (last < |criteria| && IsAbout(t, Identifiers(criteria[last])))
  {
    hide IsAbout, Identifiers;
    var front := indices[..|indices| - 1];
    assert forall i | 0 <= i < |front| :: front[i] == indices[i];
    if IsWanted(t, front, criteria) {
      var i :| 0 <= i < |front| && front[i] < |criteria| && IsAbout(t, Identifiers(criteria[front[i]]));
      assert indices[i] < |criteria| && IsAbout(t, Identifiers(criteria[indices[i]]));
    }
  }

  // ----- The rows a part keeps

  /** A table row that names a test. */
  predicate IsTestRow(l: Line) {
    "|" <= Trim(l) && TestIn(Trim(l)).Some?
  }

  /** It names a test of another part, or one seen already. */
  predicate Drops(seen: seq<string>, l: Line, keep: seq<string>) {
    IsTestRow(l) && (TestIn(Trim(l)).value !in keep || TestIn(Trim(l)).value in seen)
  }

  function KeptRows(lines: seq<Line>, keep: seq<string>): seq<Line> {
    if lines == [] then []
    else
      var front, last := lines[..|lines| - 1], lines[|lines| - 1];
      KeptRows(front, keep) + if Drops(Seen(front, keep), last, keep) then [] else [last]
  }

  function Seen(lines: seq<Line>, keep: seq<string>): seq<string> {
    if lines == [] then []
    else
      var front, last := lines[..|lines| - 1], lines[|lines| - 1];
      Seen(front, keep) + if IsTestRow(last) && !Drops(Seen(front, keep), last, keep) then [TestIn(Trim(last)).value] else []
  }

  function RowFor(test: string): Line {
    "| `" + test + "` | (test only) |"
  }

  /** Tests without a row get one. */
  function Missing(keep: seq<string>, seen: seq<string>): seq<Line> {
    if keep == [] then []
    else
      var last := keep[|keep| - 1];
      Missing(keep[..|keep| - 1], seen) + if last in seen then [] else [RowFor(last)]
  }

  method FilterTable(text: seq<Line>, keep: seq<string>) returns (lines: seq<Line>)
    ensures lines == KeptRows(text, keep) + Missing(keep, Seen(text, keep))
  {
    hide TestIn, RowFor, Trim;
    var rows: seq<Line>, seen: seq<string> := [], [];
    for i := 0 to |text|
      invariant rows == KeptRows(text[..i], keep) && seen == Seen(text[..i], keep)
    {
      assert text[..i + 1][..i] == text[..i];
      var line := Trim(text[i]);
      if "|" <= line {
        var name := ExtractTestName(line);
        if name.Some? {
          if name.value in keep && name.value !in seen {
            rows := rows + [text[i]];
            seen := seen + [name.value];
          }
          continue;
        }
      }
      rows := rows + [text[i]];
    }
    assert text[..|text|] == text;
    lines := rows;
    for i := 0 to |keep|
      invariant lines == rows + Missing(keep[..i], seen)
    {
      assert keep[..i + 1][..i] == keep[..i];
      if keep[i] !in seen {
        lines := lines + [RowFor(keep[i])];
      }
    }
    assert keep[..|keep|] == keep;
  }

  // ----- No test is lost

  predicate IsRowOf(l: Line, test: string) {
    "|" <= Trim(l) && TestIn(Trim(l)) == Some(test)
  }

  /** How many rows name the test. */
  function RowsOf(lines: seq<Line>, test: string): nat {
    if lines == [] then 0 else RowsOf(lines[..|lines| - 1], test) + if IsRowOf(lines[|lines| - 1], test) then 1 else 0
  }

  /** All other lines. */
  function Prose(lines: seq<Line>): seq<Line> {
    if lines == [] then [] else Prose(lines[..|lines| - 1]) + if IsTestRow(lines[|lines| - 1]) then [] else [lines[|lines| - 1]]
  }

  lemma {:induction false} RowsJoin(a: seq<Line>, b: seq<Line>, test: string)
    ensures RowsOf(a + b, test) == RowsOf(a, test) + RowsOf(b, test) && Prose(a + b) == Prose(a) + Prose(b)
  {
    hide IsRowOf, IsTestRow;
    if b == [] {
      assert a + b == a;
    } else {
      assert (a + b)[..|a + b| - 1] == a + b[..|b| - 1];
      RowsJoin(a, b[..|b| - 1], test);
    }
  }

  lemma OneRowMore(lines: seq<Line>, l: Line, test: string)
    ensures RowsOf(lines + [l], test) == RowsOf(lines, test) + if IsRowOf(l, test) then 1 else 0
    ensures Prose(lines + [l]) == Prose(lines) + if IsTestRow(l) then [] else [l]
  {
    hide IsRowOf, IsTestRow;
    assert (lines + [l])[..|lines|] == lines;
  }

  lemma {:induction false} RowsKept(text: seq<Line>, keep: seq<string>, test: string)
    ensures test in Seen(text, keep) ==> test in keep
    ensures RowsOf(KeptRows(text, keep), test) == if test in Seen(text, keep) then 1 else 0
    ensures Prose(KeptRows(text, keep)) == Prose(text)
  {
    hide TestIn, Trim;
    if text != [] {
      var front, last := text[..|text| - 1], text[|text| - 1];
      RowsKept(front, keep, test);
      OneRowMore(KeptRows(front, keep), last, test);
      if Drops(Seen(front, keep), last, keep) {
        assert KeptRows(text, keep) == KeptRows(front, keep) && Seen(text, keep) == Seen(front, keep);
      }
    }
  }

  lemma SpacesAround(t: string)
    requires t != "" && !IsSpace(t[0]) && !IsSpace(t[|t| - 1])
    ensures Trim(" " + t + " ") == t
  {
    assert (" " + t + " ")[1..] == t + " ";
    assert TrimStart(" " + t + " ") == TrimStart(t + " ") == t + " ";
    assert (t + " ")[..|t|] == t;
    assert TrimEnd(t + " ") == TrimEnd(t) == t;
  }

  lemma TicksAround(name: string)
    requires name != "" && name[0] != '`' && name[|name| - 1] != '`'
    ensures TrimTicksEnd(TrimTicksStart("`" + name + "`")) == name
  {
    assert ("`" + name + "`")[1..] == name + "`";
    assert TrimTicksStart("`" + name + "`") == TrimTicksStart(name + "`") == name + "`";
    assert (name + "`")[..|name|] == name;
    assert TrimTicksEnd(name + "`") == TrimTicksEnd(name) == name;
  }

  lemma NameReadsBack(name: string)
    requires IsTestName(name)
    ensures NameIn(" `" + name + "` ") == Some(name)
  {
    hide Trim, TrimTicksStart, TrimTicksEnd;
    assert name[0] in name && name[|name| - 1] in name;
    assert " `" + name + "` " == " " + ("`" + name + "`") + " ";
    SpacesAround("`" + name + "`");
    TicksAround(name);
    WordAtIs(name, |name|);
    assert WordAt(name) == name[..|name|] == name;
  }

  /** The row made for a test names it. */
  lemma RowNames(test: string)
    requires IsTestName(test)
    ensures IsRowOf(RowFor(test), test)
  {
    hide NameIn, IsTestName, Cells, Trim, RowFor;
    RowParts(test);
    NameReadsBack(test);
    NoName();
    RowIsTight(test);
    assert FirstName(Cells(RowFor(test))) == FirstName(Cells(RowFor(test))[1..]);
  }

  lemma RowIsTight(test: string)
    ensures Trim(RowFor(test)) == RowFor(test) && "|" <= RowFor(test)
  {
    var l := RowFor(test);
    assert l[0] == '|' && l[|l| - 1] == '|';
  }

  lemma RowParts(test: string)
    requires IsTestName(test)
    ensures |Cells(RowFor(test))| > 1 && Cells(RowFor(test))[0] == "" && Cells(RowFor(test))[1] == " `" + test + "` "
  {
    hide IsTestName;
    var cell, rest := " `" + test + "` ", " (test only) |";
    NoBar(test);
    BarsPart(cell, rest);
    assert RowFor(test) == ['|'] + (cell + ['|'] + rest);
  }

  lemma BarsPart(cell: string, rest: string)
    requires forall c | c in cell :: c != '|'
    ensures var cells := Cells(['|'] + (cell + ['|'] + rest)); |cells| > 1 && cells[0] == "" && cells[1] == cell
  {
    hide Fields;
    assert "" + ['|'] + (cell + ['|'] + rest) == ['|'] + (cell + ['|'] + rest);
    FieldsBehind("", '|', cell + ['|'] + rest, IsBar, "");
    FieldsBehind(cell, '|', rest, IsBar, "");
    assert "" + cell == cell;
  }

  lemma NoBar(test: string)
    requires IsTestName(test)
    ensures forall c | c in " `" + test + "` " :: c != '|'
  {
  }

  lemma NoName()
    ensures NameIn("") == None
  {
  }

  lemma {:induction false} MissingNamed(keep: seq<string>, seen: seq<string>, test: string)
    requires Graph.Distinct(keep) && AllTests(keep)
    ensures RowsOf(Missing(keep, seen), test) == if test in keep && test !in seen then 1 else 0
    ensures Prose(Missing(keep, seen)) == []
  {
    hide IsTestName, TestIn, Trim, RowFor;
    if keep != [] {
      var front, last := keep[..|keep| - 1], keep[|keep| - 1];
      MissingNamed(front, seen, test);
      assert keep == front + [last];
      RowNames(last);
      OneRowMore(Missing(front, seen), RowFor(last), test);
      if last in seen {
        assert Missing(keep, seen) == Missing(front, seen);
      }
    }
  }

  /** In a part's table each of its tests has one row and no other test has any; the other lines stay as they are. */
  lemma NoTestIsLost(text: seq<Line>, keep: seq<string>, test: string)
    requires Graph.Distinct(keep) && AllTests(keep)
    ensures var table := KeptRows(text, keep) + Missing(keep, Seen(text, keep));
      RowsOf(table, test) == (if test in keep then 1 else 0) && Prose(table) == Prose(text)
  {
    hide KeptRows, Missing, Seen, RowsOf, Prose;
    RowsKept(text, keep, test);
    MissingNamed(keep, Seen(text, keep), test);
    RowsJoin(KeptRows(text, keep), Missing(keep, Seen(text, keep)), test);
  }
}
