/** Sections of a Markdown file: a line scan that knows headings and fences. */
module Markdown {
  import opened Wrappers
  import opened Verdict

  type Line = string

  // ----- Lines

  predicate IsBacktickFence(l: Line) {
    "```" <= TrimStart(l)
  }

  predicate IsTildeFence(l: Line) {
    "~~~" <= TrimStart(l)
  }

  predicate IsFence(l: Line) {
    IsBacktickFence(l) || IsTildeFence(l)
  }

  /** Spaces that `u8::is_ascii_whitespace` knows: all of them but the vertical tab. */
  predicate IsAsciiSpace(c: char) {
    IsSpace(c) && c != '\U{000B}'
  }

  function Hashes(l: Line): (n: nat)
    ensures n <= |l|
  {
    if l != "" && l[0] == '#' then 1 + Hashes(l[1..]) else 0
  }

  /** A level-1 or level-2 heading. */
  predicate IsH1OrH2(l: Line) {
    var n := Hashes(l);
    1 <= n <= 2 && n < |l| && IsAsciiSpace(l[n])
  }

  // ----- Fences

  function Backticks(lines: seq<Line>): nat {
    if lines == [] then 0 else Backticks(lines[..|lines| - 1]) + if IsBacktickFence(lines[|lines| - 1]) then 1 else 0
  }

  function Tildes(lines: seq<Line>): nat {
    if lines == [] then 0
    else Tildes(lines[..|lines| - 1]) + if !IsBacktickFence(lines[|lines| - 1]) && IsTildeFence(lines[|lines| - 1]) then 1 else 0
  }

  /** Markers pair up in file order; the last of an odd number stands alone and is text. */
  function Paired(total: nat): nat {
    total - total % 2
  }

  /** The line opens or closes a fence. */
  predicate Toggles(lines: seq<Line>, i: nat)
    requires i < |lines|
  {
    if IsBacktickFence(lines[i]) then Backticks(lines[..i + 1]) <= Paired(Backticks(lines))
    else if IsTildeFence(lines[i]) then Tildes(lines[..i + 1]) <= Paired(Tildes(lines))
    else false
  }

  predicate Inside(lines: seq<Line>, i: nat)
    requires i <= |lines|
  {
    i > 0 && Inside(lines, i - 1) != Toggles(lines, i - 1)
  }

  /** Outside every fence, and no marker itself. */
  predicate Visible(lines: seq<Line>, i: nat)
    requires i < |lines|
  {
    !Toggles(lines, i) && !Inside(lines, i)
  }

  predicate Opens(lines: seq<Line>, title: string, i: nat)
    requires i < |lines|
  {
    Visible(lines, i) && TrimEnd(lines[i]) == TrimEnd(title)
  }

  predicate Ends(lines: seq<Line>, i: nat)
    requires i < |lines|
  {
    Visible(lines, i) && IsH1OrH2(lines[i])
  }

  // ----- The section

  /** The first line that opens the section. */
  function FirstOpening(lines: seq<Line>, title: string, i: nat): (r: nat)
    requires i <= |lines|
    ensures i <= r <= |lines| && (r < |lines| ==> Opens(lines, title, r))
    ensures forall j | i <= j < r :: !Opens(lines, title, j)
    decreases |lines| - i
  {
    if i == |lines| || Opens(lines, title, i) then i else FirstOpening(lines, title, i + 1)
  }

  function FirstEnding(lines: seq<Line>, i: nat): (r: nat)
    requires i <= |lines|
    ensures i <= r <= |lines| && (r < |lines| ==> Ends(lines, r))
    ensures forall j | i <= j < r :: !Ends(lines, j)
    decreases |lines| - i
  {
    if i == |lines| || Ends(lines, i) then i else FirstEnding(lines, i + 1)
  }

  /** From the first line that is the title to the next level-1 or level-2 heading, fences left alone. */
  function Section(lines: seq<Line>, title: string): seq<Line> {
    var start := FirstOpening(lines, title, 0);
    if start == |lines| then [] else lines[start + 1..FirstEnding(lines, start + 1)]
  }

  /** What trimming the joined lines leaves, line by line. */
  function TrimLines(lines: seq<Line>): seq<Line> {
    TrimLast(TrimFirst(lines))
  }

  function TrimFirst(lines: seq<Line>): seq<Line> {
    if lines == [] then []
    else if TrimStart(lines[0]) == "" then TrimFirst(lines[1..])
    else [TrimStart(lines[0])] + lines[1..]
  }

  function TrimLast(lines: seq<Line>): seq<Line> {
    if lines == [] then []
    else if TrimEnd(lines[|lines| - 1]) == "" then TrimLast(lines[..|lines| - 1])
    else lines[..|lines| - 1] + [TrimEnd(lines[|lines| - 1])]
  }

  method CountFences(lines: seq<Line>) returns (backticks: nat, tildes: nat)
    ensures backticks == Backticks(lines) && tildes == Tildes(lines)
  {
    backticks, tildes := 0, 0;
    for i := 0 to |lines|
      invariant backticks == Backticks(lines[..i]) && tildes == Tildes(lines[..i])
    {
      assert lines[..i + 1][..i] == lines[..i];
      if IsBacktickFence(lines[i]) {
        backticks := backticks + 1;
      } else if IsTildeFence(lines[i]) {
        tildes := tildes + 1;
      }
    }
    assert lines[..|lines|] == lines;
  }

  /** The scan before line `i`: the section has not begun, or has with its first lines collected. */
  ghost predicate Scanning(lines: seq<Line>, title: string, i: nat, body: Option<seq<Line>>) {
    && i <= |lines|
    && match body
       case None => forall j | 0 <= j < i :: !Opens(lines, title, j)
       case Some(b) =>
         var start := FirstOpening(lines, title, 0);
         start < i && b == lines[start + 1..i] && forall j | start < j < i :: !Ends(lines, j)
  }

  lemma ScanLine(lines: seq<Line>, title: string, i: nat, body: Option<seq<Line>>)
    requires Scanning(lines, title, i, body) && i < |lines|
    ensures body.None? && !Opens(lines, title, i) ==> Scanning(lines, title, i + 1, None)
    ensures body.None? && Opens(lines, title, i) ==> Scanning(lines, title, i + 1, Some([]))
    ensures body.Some? && !Ends(lines, i) ==> Scanning(lines, title, i + 1, Some(body.value + [lines[i]]))
    ensures body.Some? && Ends(lines, i) ==> body.value == Section(lines, title)
  {
    hide Opens, Ends;
    var start := FirstOpening(lines, title, 0);
    if body.None? && Opens(lines, title, i) {
      assert start == i;
      assert lines[i + 1..i + 1] == [];
    }
    if body.Some? {
      var end := FirstEnding(lines, start + 1);
      assert end >= i;
    }
  }

  lemma ScanDone(lines: seq<Line>, title: string, body: Option<seq<Line>>)
    requires Scanning(lines, title, |lines|, body)
    ensures (match body case None => [] case Some(b) => b) == Section(lines, title)
  {
    hide Opens, Ends;
  }

  method ExtractSection(lines: seq<Line>, title: string) returns (text: seq<Line>)
    ensures text == TrimLines(Section(lines, title))
  {
    hide Scanning, Section, TrimLines;
    var backtickTotal, tildeTotal := CountFences(lines);
    var backtickLimit, tildeLimit := Paired(backtickTotal), Paired(tildeTotal);
    var backtickSeen, tildeSeen := 0, 0;
    var inFence := false;
    var body: Option<seq<Line>> := None;
    ScanStart(lines, title);
    for i := 0 to |lines|
      invariant backtickSeen == Backticks(lines[..i]) && tildeSeen == Tildes(lines[..i])
      invariant inFence == Inside(lines, i) && Scanning(lines, title, i, body)
    {
      hide FirstOpening, FirstEnding;
      assert lines[..i + 1][..i] == lines[..i];
      var line := lines[i];
      ScanLine(lines, title, i, body);
      var toggles := false;
      if IsBacktickFence(line) {
        backtickSeen := backtickSeen + 1;
        toggles := backtickSeen <= backtickLimit;
      } else if IsTildeFence(line) {
        tildeSeen := tildeSeen + 1;
        toggles := tildeSeen <= tildeLimit;
      }
      if toggles {
        inFence := !inFence;
        body := Pushed(body, line);
      } else if inFence {
        body := Pushed(body, line);
      } else {
        match body
        case None =>
          if TrimEnd(line) == TrimEnd(title) {
            body := Some([]);
          }
        case Some(b) =>
          if IsH1OrH2(line) {
            return TrimLines(b);
          }
          body := Pushed(body, line);
      }
    }
    ScanDone(lines, title, body);
    text := TrimLines(match body case None => [] case Some(b) => b);
  }

  function Pushed(body: Option<seq<Line>>, line: Line): Option<seq<Line>> {
    match body
    case None => None
    case Some(b) => Some(b + [line])
  }

  lemma ScanStart(lines: seq<Line>, title: string)
    ensures Scanning(lines, title, 0, None)
  {
  }

  // ----- Files without fences

  ghost predicate NoFences(lines: seq<Line>) {
    forall i | 0 <= i < |lines| :: !IsFence(lines[i])
  }

  lemma {:induction false} AllVisible(lines: seq<Line>, i: nat)
    requires NoFences(lines) && i < |lines|
    ensures Visible(lines, i)
  {
    NeverInside(lines, i);
    assert !IsFence(lines[i]);
  }

  lemma {:induction false} NeverInside(lines: seq<Line>, i: nat)
    requires NoFences(lines) && i <= |lines|
    ensures !Inside(lines, i)
  {
    if i > 0 {
      NeverInside(lines, i - 1);
      assert !IsFence(lines[i - 1]);
    }
  }

  /** Without fences a section holds lines of the file, and no level-1 or level-2 heading. */
  lemma SectionLines(lines: seq<Line>, title: string, l: Line)
    requires NoFences(lines) && l in Section(lines, title)
    ensures l in lines && !IsH1OrH2(l)
  {
    hide Inside, Toggles, IsH1OrH2, IsFence;
    var start := FirstOpening(lines, title, 0);
    var end := FirstEnding(lines, start + 1);
    var k :| 0 <= k < |Section(lines, title)| && Section(lines, title)[k] == l;
    assert l == lines[start + 1 + k];
    AllVisible(lines, start + 1 + k);
    assert !Ends(lines, start + 1 + k);
  }

  // ----- A lone marker swallows nothing

  function AtMost(n: nat, limit: nat): nat {
    if n < limit then n else limit
  }

  /** How many markers of the first `n` lines open or close a fence. */
  function Togglers(lines: seq<Line>, n: nat): nat
    requires n <= |lines|
  {
    AtMost(Backticks(lines[..n]), Paired(Backticks(lines))) + AtMost(Tildes(lines[..n]), Paired(Tildes(lines)))
  }

  lemma TogglersStep(lines: seq<Line>, n: nat)
    requires n < |lines|
    ensures Togglers(lines, n + 1) == Togglers(lines, n) + if Toggles(lines, n) then 1 else 0
  {
    hide Paired;
    assert lines[..n + 1][..n] == lines[..n];
  }

  lemma {:induction false} InsideIsParity(lines: seq<Line>, n: nat)
    requires n <= |lines|
    ensures Inside(lines, n) <==> Togglers(lines, n) % 2 == 1
  {
    if n > 0 {
      hide Togglers, Toggles;
      TogglersStep(lines, n - 1);
      InsideIsParity(lines, n - 1);
    }
  }

  lemma PairedIsEven(n: nat)
    ensures AtMost(n, Paired(n)) == Paired(n) && Paired(n) % 2 == 0
  {
  }

  /** However the markers stand, no fence is open at the end of the file. */
  lemma EveryFenceCloses(lines: seq<Line>)
    ensures !Inside(lines, |lines|)
  {
    hide AtMost, Paired, Inside, Backticks, Tildes;
    InsideIsParity(lines, |lines|);
    assert lines[..|lines|] == lines;
    PairedIsEven(Backticks(lines));
    PairedIsEven(Tildes(lines));
  }

  // ----- Headings and fences, by their looks

  /** One or two number signs, and a blank. */
  lemma HeadingIff(l: Line)
    ensures IsH1OrH2(l) <==>
      || (|l| > 1 && l[0] == '#' && IsAsciiSpace(l[1]))
      || (|l| > 2 && l[0] == l[1] == '#' && IsAsciiSpace(l[2]))
  {
    if |l| > 1 && l[0] == '#' {
      var rest, more := l[1..], l[1..][1..];
      assert Hashes(l) == 1 + Hashes(rest) && rest[0] == l[1];
      assert l[1] == '#' ==> Hashes(rest) == 1 + Hashes(more);
      assert |l| > 2 ==> more[0] == l[2];
      assert more == "" || more[0] != '#' ==> Hashes(more) == 0;
      assert more != "" && more[0] == '#' ==> Hashes(more) > 0;
    }
  }

  /** Markers of one of the two kinds. */
  function MarkerCount(lines: seq<Line>, tilde: bool): nat {
    if tilde then Tildes(lines) else Backticks(lines)
  }

  predicate IsMarker(l: Line, tilde: bool) {
    if tilde then IsTildeFence(l) && !IsBacktickFence(l) else IsBacktickFence(l)
  }

  lemma {:induction false} MarkersJoin(a: seq<Line>, b: seq<Line>, tilde: bool)
    ensures MarkerCount(a + b, tilde) == MarkerCount(a, tilde) + MarkerCount(b, tilde)
  {
    if b == [] {
      assert a + b == a;
    } else {
      assert (a + b)[..|a + b| - 1] == a + b[..|b| - 1];
      MarkersJoin(a, b[..|b| - 1], tilde);
    }
  }

  lemma {:induction false} NoMarkers(lines: seq<Line>, tilde: bool)
    requires NoFences(lines)
    ensures MarkerCount(lines, tilde) == 0
  {
    if lines != [] {
      NoMarkers(lines[..|lines| - 1], tilde);
      assert !IsFence(lines[|lines| - 1]);
    }
  }

  lemma OneMarker(l: Line, tilde: bool)
    requires IsMarker(l, tilde)
    ensures MarkerCount([l], tilde) == 1 && MarkerCount([l], !tilde) == 0
  {
    hide IsBacktickFence, IsTildeFence;
    assert [l][..0] == [];
    assert Backticks([l]) == (if IsBacktickFence(l) then 1 else 0);
    assert Tildes([l]) == if !IsBacktickFence(l) && IsTildeFence(l) then 1 else 0;
  }

  /** How many markers there are up to a line, around one marker. */
  lemma CountAround(before: seq<Line>, fence: Line, behind: seq<Line>, tilde: bool, n: nat)
    requires NoFences(before) && IsMarker(fence, tilde) && n <= |before| + 1 + |behind|
    ensures var doc := before + [fence] + behind;
      forall k | k == tilde || k == !tilde :: MarkerCount(doc[..n], k) ==
        if n <= |before| then 0 else (if k == tilde then 1 else 0) + MarkerCount(behind[..n - |before| - 1], k)
  {
    hide IsFence, IsMarker;
    var doc := before + [fence] + behind;
    OneMarker(fence, tilde);
    if n <= |before| {
      assert doc[..n] == before[..n];
      NoMarkers(before[..n], tilde);
      NoMarkers(before[..n], !tilde);
    } else {
      var rest := behind[..n - |before| - 1];
      assert doc[..n] == before + [fence] + rest;
      forall k: bool
        ensures MarkerCount(doc[..n], k) == (if k == tilde then 1 else 0) + MarkerCount(rest, k)
      {
        MarkersJoin(before + [fence], rest, k);
        MarkersJoin(before, [fence], k);
        NoMarkers(before, k);
      }
    }
  }

  /** In a file with one marker, that is no fence, and every line is seen. */
  lemma LoneMarker(before: seq<Line>, fence: Line, behind: seq<Line>, tilde: bool, i: nat)
    requires NoFences(before) && NoFences(behind) && IsMarker(fence, tilde) && i < |before| + 1 + |behind|
    ensures Visible(before + [fence] + behind, i)
  {
    hide IsFence, IsMarker, Backticks, Tildes, Inside, Toggles;
    var doc := before + [fence] + behind;
    assert doc[..|doc|] == doc && behind[..|behind|] == behind;
    CountAround(before, fence, behind, tilde, |doc|);
    NoMarkers(behind, tilde);
    NoMarkers(behind, !tilde);
    Unseen(doc, tilde, i);
  }

  /** With at most one marker of either kind nothing is fenced. */
  lemma Unseen(doc: seq<Line>, tilde: bool, i: nat)
    requires MarkerCount(doc, tilde) <= 1 && MarkerCount(doc, !tilde) == 0 && i < |doc|
    ensures Visible(doc, i)
  {
    hide Backticks, Tildes, IsFence;
    InsideIsParity(doc, i);
    TogglersStep(doc, i);
  }

  /** Two markers of one kind hide exactly themselves and the lines between them. */
  lemma OneFence(before: seq<Line>, open: Line, inner: seq<Line>, close: Line, behind: seq<Line>, tilde: bool, i: nat)
    requires NoFences(before) && NoFences(inner) && NoFences(behind) && IsMarker(open, tilde) && IsMarker(close, tilde)
    requires i < |before| + |inner| + |behind| + 2
    ensures Visible(before + [open] + (inner + [close] + behind), i) <==> i < |before| || i > |before| + |inner| + 1
  {
    hide IsFence, IsMarker, Backticks, Tildes, Inside, Toggles, Togglers;
    var rest := inner + [close] + behind;
    var doc := before + [open] + rest;
    assert doc[..|doc|] == doc && rest[..|rest|] == rest && behind[..|behind|] == behind;
    CountAround(before, open, rest, tilde, |doc|);
    CountAround(inner, close, behind, tilde, |rest|);
    NoMarkers(behind, tilde);
    NoMarkers(behind, !tilde);
    FenceCounts(before, open, inner, close, behind, tilde, i);
    FenceCounts(before, open, inner, close, behind, tilde, i + 1);
    InsideIsParity(doc, i);
    TogglersStep(doc, i);
  }

  lemma FenceCounts(before: seq<Line>, open: Line, inner: seq<Line>, close: Line, behind: seq<Line>, tilde: bool, n: nat)
    requires NoFences(before) && NoFences(inner) && NoFences(behind) && IsMarker(open, tilde) && IsMarker(close, tilde)
    requires n <= |before| + |inner| + |behind| + 2
    requires var doc := before + [open] + (inner + [close] + behind); MarkerCount(doc, tilde) == 2 && MarkerCount(doc, !tilde) == 0
    ensures Togglers(before + [open] + (inner + [close] + behind), n) == if n <= |before| then 0 else if n <= |before| + |inner| + 1 then 1 else 2
  {
    hide IsFence, IsMarker, Backticks, Tildes;
    var rest := inner + [close] + behind;
    var doc := before + [open] + rest;
    assert forall k: seq<Line> | k in [doc, doc[..n]] :: MarkerCount(k, true) == Tildes(k) && MarkerCount(k, false) == Backticks(k);
    CountAround(before, open, rest, tilde, n);
    if n > |before| {
      var m := n - |before| - 1;
      CountAround(inner, close, behind, tilde, m);
      if m > |inner| {
        NoMarkers(behind[..m - |inner| - 1], tilde);
        NoMarkers(behind[..m - |inner| - 1], !tilde);
      }
    }
  }
}
