/** The marking of architecture lines with the parts that own what they name. */
module Annotate {
  import opened Wrappers
  import opened Text
  import opened Verdict

  type Owners = seq<(string, seq<nat>)>

  /** A marker, and the bounds of the name it belongs to. */
  datatype Mark = Mark(start: nat, end: nat, text: string)

  // ----- The names in a line

  predicate IsModuleChar(c: char) {
    IsAlphanumeric(c) || c == '_' || c == '.' || c == '-'
  }

  predicate IsNoModuleChar(c: char) {
    !IsModuleChar(c)
  }

  /** The runs of name characters. */
  function Words(text: string): seq<string> {
    Fields(text, IsNoModuleChar, "")
  }

  function TrimDotsStart(s: string): string {
    if s != "" && s[0] == '.' then TrimDotsStart(s[1..]) else s
  }

  function TrimDotsEnd(s: string): string {
    if s != "" && s[|s| - 1] == '.' then TrimDotsEnd(s[..|s| - 1]) else s
  }

  function TrimDots(s: string): string {
    TrimDotsEnd(TrimDotsStart(s))
  }

  const EXTENSIONS: seq<string> := [
    "rs", "py", "js", "ts", "go", "rb", "java", "c", "h", "cpp", "hpp", "sh", "toml", "json", "yaml", "yml", "md", "sql"]

  /** The position of the last dot. */
  function LastDot(s: string): Option<nat> {
    if s == "" then None else if s[|s| - 1] == '.' then Some(|s| - 1) else LastDot(s[..|s| - 1])
  }

  predicate IsModule(candidate: string) {
    && |candidate| >= 3
    && LastDot(candidate).Some?
    && 0 < LastDot(candidate).value < |candidate|
    && candidate[LastDot(candidate).value + 1..] in EXTENSIONS
  }

  function Modules(words: seq<string>): seq<string> {
    if words == [] then []
    else
      var front, candidate := Modules(words[..|words| - 1]), TrimDots(words[|words| - 1]);
      if IsModule(candidate) && candidate !in front then front + [candidate] else front
  }

  method ExtractMentionedModules(text: string) returns (modules: seq<string>)
    ensures modules == Modules(Words(text))
  {
    var words := Words(text);
    modules := [];
    for i := 0 to |words|
      invariant modules == Modules(words[..i])
    {
      assert words[..i + 1][..i] == words[..i];
      var candidate := TrimDots(words[i]);
      if IsModule(candidate) && candidate !in modules {
        modules := modules + [candidate];
      }
    }
    assert words[..|words|] == words;
  }

  // ----- Where a name stands

  /** An occurrence that is no part of a longer name. */
  predicate BoundedAt(line: string, token: string, i: nat) {
    && OccursAt(line, token, i)
    && (i == 0 || !IsModuleChar(line[i - 1]))
    && (i + |token| == |line| || !IsModuleChar(line[i + |token|]))
  }

  /** The first bounded occurrence, or none, is found. */
  method FindBoundedOccurrence(line: string, token: string) returns (r: Option<nat>)
    requires token != ""
    ensures r == Bounded(line, token, 0)
  {
    hide Find, OccursAt, BoundedAt;
    var searchFrom := 0;
    while searchFrom < |line|
      invariant searchFrom <= |line|
      invariant Bounded(line, token, 0) == Bounded(line, token, searchFrom)
    {
      var rel := Find(line[searchFrom..], token);
      FoundBehind(line, token, searchFrom);
      if rel.None? {
        SkipTo(line, token, searchFrom, |line|);
        return None;
      }
      var start := searchFrom + rel.value;
      SkipTo(line, token, searchFrom, start);
      if BoundedAt(line, token, start) {
        return Some(start);
      }
      searchFrom := start + 1;
    }
    r := None;
  }

  function Bounded(line: string, token: string, i: nat): (r: Option<nat>)
    requires i <= |line|
    ensures r.Some? ==> i <= r.value < |line| && BoundedAt(line, token, r.value)
    ensures r.Some? ==> forall j | i <= j < r.value :: !BoundedAt(line, token, j)
    ensures r.None? ==> forall j | i <= j < |line| :: !BoundedAt(line, token, j)
    decreases |line| - i
  {
    if i == |line| then None else if BoundedAt(line, token, i) then Some(i) else Bounded(line, token, i + 1)
  }

  lemma OccursBehind(line: string, token: string, from: nat, k: nat)
    requires from <= k && from <= |line|
    ensures OccursAt(line[from..], token, k - from) <==> OccursAt(line, token, k)
  {
    if k + |token| <= |line| {
      assert line[from..][k - from..k - from + |token|] == line[k..k + |token|];
    }
  }

  /** What a search behind `from` says about the line. */
  lemma FoundBehind(line: string, token: string, from: nat)
    requires from <= |line| && token != ""
    ensures var rel := Find(line[from..], token);
      && (rel.Some? ==> from + rel.value < |line| && forall k: nat | from <= k < from + rel.value :: !OccursAt(line, token, k))
      && (rel.None? ==> forall k: nat | from <= k :: !OccursAt(line, token, k))
  {
    var rel := Find(line[from..], token);
    if rel.Some? {
      OccursBehind(line, token, from, from + rel.value);
    }
    forall k: nat | from <= k && (rel.Some? ==> k < from + rel.value)
      ensures !OccursAt(line, token, k)
    {
      OccursBehind(line, token, from, k);
    }
  }

  lemma {:induction false} SkipTo(line: string, token: string, from: nat, to: nat)
    requires from <= to <= |line| && forall k: nat | from <= k < to :: !OccursAt(line, token, k)
    ensures Bounded(line, token, from) == Bounded(line, token, to)
    decreases |line| - from
  {
    hide OccursAt;
    if from < to {
      SkipTo(line, token, from + 1, to);
    }
  }

  // ----- The markers

  function OwnersOf(token: string, owners: Owners): seq<nat> {
    if owners == [] then [] else if owners[0].0 == token then owners[0].1 else OwnersOf(token, owners[1..])
  }

  function InsertNumber(sorted: seq<nat>, n: nat): seq<nat> {
    if sorted == [] || sorted[|sorted| - 1] <= n then sorted + [n]
    else InsertNumber(sorted[..|sorted| - 1], n) + [sorted[|sorted| - 1]]
  }

  /** The other parts among them, in order. */
  function Others(parts: seq<nat>, me: nat): seq<nat> {
    if parts == [] then []
    else
      var front, last := Others(parts[..|parts| - 1], me), parts[|parts| - 1];
      if last == me then front else InsertNumber(front, last)
  }

  function Listed(parts: seq<nat>): string {
    if parts == [] then "" else if |parts| == 1 then Decimal(parts[0]) else Decimal(parts[0]) + ", " + Listed(parts[1..])
  }

  function Marker(others: seq<nat>): string {
    if |others| == 1 then " **[Part " + Decimal(others[0]) + "]**" else " **[Parts " + Listed(others) + "]**"
  }

  function MarkOf(line: string, token: string, me: nat, owners: Owners): Option<Mark> {
    var others := Others(OwnersOf(token, owners), me);
    if others == [] || token == "" then None
    else
      match Bounded(line, token, 0)
      case None => None
      case Some(start) => Some(Mark(start, start + |token|, Marker(others)))
  }

  function MarksOf(line: string, tokens: seq<string>, me: nat, owners: Owners): seq<Mark> {
    if tokens == [] then []
    else
      var front := MarksOf(line, tokens[..|tokens| - 1], me, owners);
      match MarkOf(line, tokens[|tokens| - 1], me, owners)
      case None => front
      case Some(m) => front + [m]
  }

  function InsertMark(sorted: seq<Mark>, m: Mark): (r: seq<Mark>)
    ensures forall x :: x in r <==> x in sorted || x == m
  {
    if sorted == [] || sorted[|sorted| - 1].start <= m.start then sorted + [m]
    else
      assert sorted == sorted[..|sorted| - 1] + [sorted[|sorted| - 1]];
      InsertMark(sorted[..|sorted| - 1], m) + [sorted[|sorted| - 1]]
  }

  /** By their starts; the sort is stable. */
  function SortMarks(marks: seq<Mark>): (r: seq<Mark>)
    ensures forall x :: x in r <==> x in marks
  {
    if marks == [] then []
    else
      assert marks == marks[..|marks| - 1] + [marks[|marks| - 1]];
      InsertMark(SortMarks(marks[..|marks| - 1]), marks[|marks| - 1])
  }

  // ----- The marked line

  /** Behind whatever closes the name. */
  function Behind(line: string, i: nat): (r: nat)
    requires i <= |line|
    ensures i <= r <= |line|
    decreases |line| - i
  {
    if i < |line| && line[i] in "`'\")" then Behind(line, i + 1) else i
  }

  /** The line from `last` on with its markers; one that begins before `last` is passed over. */
  function Rewritten(line: string, marks: seq<Mark>, last: nat): string
    requires last <= |line| && forall m | m in marks :: MarkOk(line, m)
    decreases marks
  {
    if marks == [] then line[last..]
    else if marks[0].start < last then Rewritten(line, marks[1..], last)
    else
      assert MarkOk(line, marks[0]);
      var at := Behind(line, marks[0].end);
      line[last..at] + marks[0].text + Rewritten(line, marks[1..], at)
  }

  /** The marked name is not empty and begins with a name character. */
  predicate MarkOk(line: string, m: Mark) {
    m.start < m.end <= |line| && IsModuleChar(line[m.start]) && '*' in m.text
  }

  /** A run of name characters. */
  predicate IsName(t: string) {
    t != "" && forall c | c in t :: IsModuleChar(c)
  }

  ghost predicate AllNames(tokens: seq<string>) {
    forall i | 0 <= i < |tokens| :: IsName(tokens[i])
  }

  lemma WordsAreNames(text: string)
    ensures forall w, c | w in Words(text) && c in w :: IsModuleChar(c)
  {
    FieldsAreClear(text, IsNoModuleChar, "");
  }

  lemma {:induction false} TrimDotsInside(s: string)
    ensures forall c | c in TrimDotsStart(s) :: c in s
    ensures forall c | c in TrimDotsEnd(s) :: c in s
  {
    if s != "" {
      TrimDotsInside(s[1..]);
      TrimDotsInside(s[..|s| - 1]);
    }
  }

  lemma {:induction false} ModulesAreNames(words: seq<string>)
    requires forall w, c | w in words && c in w :: IsModuleChar(c)
    ensures AllNames(Modules(words))
  {
    if words != [] {
      ModulesAreNames(words[..|words| - 1]);
      var last := words[|words| - 1];
      assert last in words;
      TrimDotsInside(last);
      TrimDotsInside(TrimDotsStart(last));
    }
  }

  lemma MarkerHasStar(others: seq<nat>)
    ensures '*' in Marker(others)
  {
    assert Marker(others)[1] == '*';
  }

  lemma MarkOfOk(line: string, token: string, me: nat, owners: Owners)
    requires IsName(token)
    ensures MarkOf(line, token, me, owners).Some? ==> MarkOk(line, MarkOf(line, token, me, owners).value)
  {
    var start := Bounded(line, token, 0);
    if start.Some? {
      assert line[start.value] == line[start.value..start.value + |token|][0] == token[0];
      MarkerHasStar(Others(OwnersOf(token, owners), me));
    }
  }

  lemma {:induction false} MarksOfOk(line: string, tokens: seq<string>, me: nat, owners: Owners)
    requires AllNames(tokens)
    ensures forall m | m in MarksOf(line, tokens, me, owners) :: MarkOk(line, m)
  {
    if tokens != [] {
      MarksOfOk(line, tokens[..|tokens| - 1], me, owners);
      MarkOfOk(line, tokens[|tokens| - 1], me, owners);
    }
  }

  lemma LineMarksOk(line: string, me: nat, owners: Owners)
    ensures forall m | m in LineMarks(line, me, owners) :: MarkOk(line, m)
  {
    hide MarkOk, IsModuleChar;
    WordsAreNames(line);
    ModulesAreNames(Words(line));
    MarksOfOk(line, Modules(Words(line)), me, owners);
  }

  function LineMarks(line: string, me: nat, owners: Owners): seq<Mark> {
    SortMarks(MarksOf(line, Modules(Words(line)), me, owners))
  }

  function AnnotatedLine(line: string, me: nat, owners: Owners): string {
    LineMarksOk(line, me, owners);
    Rewritten(line, LineMarks(line, me, owners), 0)
  }

  /** One line marked in place: the marks collected, sorted, and put in from left to right. */
  method AnnotateLine(line: string, me: nat, owners: Owners) returns (out: string)
    ensures out == AnnotatedLine(line, me, owners)
  {
    hide Words, Modules, MarkOf, IsModuleChar, SortMarks, Behind;
    var tokens := ExtractMentionedModules(line);
    var marks: seq<Mark> := [];
    for i := 0 to |tokens|
      invariant marks == MarksOf(line, tokens[..i], me, owners)
    {
      assert tokens[..i + 1][..i] == tokens[..i];
      var mark := MarkToken(line, tokens[i], me, owners);
      if mark.Some? {
        marks := marks + [mark.value];
      }
    }
    assert tokens[..|tokens|] == tokens;
    LineMarksOk(line, me, owners);
    marks := SortMarks(marks);
    var last := 0;
    out := "";
    for j := 0 to |marks|
      invariant last <= |line| && forall m | m in marks[j..] :: MarkOk(line, m)
      invariant out + Rewritten(line, marks[j..], last) == AnnotatedLine(line, me, owners)
    {
      hide MarkOk, AnnotatedLine;
      assert marks[j] in marks[j..] && marks[j..][0] == marks[j] && marks[j..][1..] == marks[j + 1..];
      EndsInside(line, marks[j]);
      if marks[j].start >= last {
        var at := Behind(line, marks[j].end);
        AtOrBehind(line, marks[j], last, at);
        assert out + (line[last..at] + marks[j].text + Rewritten(line, marks[j + 1..], at))
            == (out + line[last..at] + marks[j].text) + Rewritten(line, marks[j + 1..], at);
        out := out + line[last..at] + marks[j].text;
        last := at;
      }
    }
    out := out + line[last..];
  }

  lemma EndsInside(line: string, m: Mark)
    requires MarkOk(line, m)
    ensures m.start < m.end <= |line|
  {
  }

  lemma AtOrBehind(line: string, m: Mark, last: nat, at: nat)
    requires MarkOk(line, m) && m.start >= last && at == Behind(line, m.end)
    ensures last <= at <= |line|
  {
  }

  method MarkToken(line: string, token: string, me: nat, owners: Owners) returns (mark: Option<Mark>)
    ensures mark == MarkOf(line, token, me, owners)
  {
    var others := Others(OwnersOf(token, owners), me);
    if others == [] || token == "" {
      return None;
    }
    var start := FindBoundedOccurrence(line, token);
    mark := if start.None? then None else Some(Mark(start.value, start.value + |token|, Marker(others)));
  }

  // ----- What marking does to a line

  /** `t` is `s` with text put in. */
  predicate Embeds(s: string, t: string)
    decreases t
  {
    s == "" || (t != "" && ((s[0] == t[0] && Embeds(s[1..], t[1..])) || Embeds(s, t[1..])))
  }

  lemma {:induction false} EmbedsBehind(a: string, s: string, t: string)
    requires Embeds(s, t)
    ensures Embeds(a + s, a + t) && Embeds(s, a + t)
  {
    if a == "" {
      assert a + s == s && a + t == t;
    } else {
      EmbedsBehind(a[1..], s, t);
      assert (a + s)[1..] == a[1..] + s && (a + t)[1..] == a[1..] + t;
    }
  }

  lemma {:induction false} EmbedsItself(s: string)
    ensures Embeds(s, s)
  {
    if s != "" {
      EmbedsItself(s[1..]);
    }
  }

  lemma {:induction false} RewrittenEmbeds(line: string, marks: seq<Mark>, last: nat)
    requires last <= |line| && forall m | m in marks :: MarkOk(line, m)
    ensures Embeds(line[last..], Rewritten(line, marks, last))
    decreases marks
  {
    hide Embeds, MarkOk;
    if marks == [] {
      EmbedsItself(line[last..]);
    } else if marks[0].start < last {
      RewrittenEmbeds(line, marks[1..], last);
    } else {
      assert marks[0] in marks;
      EndsInside(line, marks[0]);
      var at := Behind(line, marks[0].end);
      var rest := Rewritten(line, marks[1..], at);
      RewrittenEmbeds(line, marks[1..], at);
      EmbedsBehind(marks[0].text, line[at..], rest);
      EmbedsBehind(line[last..at], line[at..], marks[0].text + rest);
      assert line[last..] == line[last..at] + line[at..];
      assert line[last..at] + marks[0].text + rest == line[last..at] + (marks[0].text + rest);
    }
  }

  /** Marking drops nothing of a line. */
  lemma NothingIsDropped(line: string, me: nat, owners: Owners)
    ensures Embeds(line, AnnotatedLine(line, me, owners))
  {
    LineMarksOk(line, me, owners);
    RewrittenEmbeds(line, LineMarks(line, me, owners), 0);
    assert line[0..] == line;
  }

  /** No name that stands in the line by itself is another part's. */
  predicate NothingForeign(line: string, tokens: seq<string>, me: nat, owners: Owners) {
    forall i | 0 <= i < |tokens| && Bounded(line, tokens[i], 0).Some? :: Others(OwnersOf(tokens[i], owners), me) == []
  }

  lemma SortedMarks(line: string, me: nat, owners: Owners)
    ensures LineMarks(line, me, owners) == [] <==> MarksOf(line, Modules(Words(line)), me, owners) == []
  {
    hide MarksOf, Modules, Words;
    var marks := MarksOf(line, Modules(Words(line)), me, owners);
    SomeMark(marks);
    SomeMark(SortMarks(marks));
  }

  /** A line is left alone if and only if it names nothing that another part owns. */
  lemma MarkedIffForeign(line: string, me: nat, owners: Owners)
    ensures AnnotatedLine(line, me, owners) == line <==> NothingForeign(line, Modules(Words(line)), me, owners)
  {
    hide Words, Modules, NothingForeign, MarkOk, Rewritten, SortMarks, IsModuleChar, LineMarks, MarksOf, Rewritten;
    var tokens := Modules(Words(line));
    WordsAreNames(line);
    ModulesAreNames(Words(line));
    LineMarksOk(line, me, owners);
    MarksIff(line, tokens, me, owners);
    var marks := LineMarks(line, me, owners);
    SortedMarks(line, me, owners);
    MarkedGrows(line, marks);
    assert AnnotatedLine(line, me, owners) == Rewritten(line, marks, 0);
  }

  lemma SomeMark(marks: seq<Mark>)
    ensures marks != [] <==> exists m :: m in marks
  {
    if marks != [] {
      assert marks[0] in marks;
    }
  }

  lemma MarkedGrows(line: string, marks: seq<Mark>)
    requires forall m | m in marks :: MarkOk(line, m)
    ensures marks == [] ==> Rewritten(line, marks, 0) == line
    ensures marks != [] ==> |Rewritten(line, marks, 0)| > |line|
  {
    if marks != [] {
      assert marks[0] in marks;
      RewrittenGrows(line, marks[1..], Behind(line, marks[0].end));
    }
  }

  lemma {:induction false} RewrittenGrows(line: string, marks: seq<Mark>, last: nat)
    requires last <= |line| && forall m | m in marks :: MarkOk(line, m)
    ensures |Rewritten(line, marks, last)| >= |line| - last
    decreases marks
  {
    if marks != [] {
      assert marks[0] in marks;
      RewrittenGrows(line, marks[1..], if marks[0].start < last then last else Behind(line, marks[0].end));
    }
  }

  lemma {:induction false} MarksIff(line: string, tokens: seq<string>, me: nat, owners: Owners)
    requires AllNames(tokens)
    ensures MarksOf(line, tokens, me, owners) == [] <==> NothingForeign(line, tokens, me, owners)
  {
    hide Bounded, Others, OwnersOf, Marker, IsModuleChar;
    if tokens != [] {
      var front, last := tokens[..|tokens| - 1], tokens[|tokens| - 1];
      MarksIff(line, front, me, owners);
      assert forall i | 0 <= i < |front| :: front[i] == tokens[i];
      assert IsName(tokens[|tokens| - 1]);
    }
  }
}
