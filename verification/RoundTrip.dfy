/** The exit criteria of the parts, read back and put together, are the parent's. */
module RoundTrip {
  import opened Text
  import opened Verdict
  import opened Markdown
  import opened Split
  import opened ChildSpec

  // ----- Trimming

  lemma TrimStartIs(s: string)
    ensures TrimStart(TrimStart(s)) == TrimStart(s)
    ensures TrimStart(s) != "" ==> !IsSpace(TrimStart(s)[0])
  {
    var k := TrimStartDropsBlanks(s);
    assert TrimStart(s) != "" ==> TrimStart(s)[0] == s[k];
  }

  lemma {:induction false} TrimEndIs(s: string)
    ensures TrimEnd(TrimEnd(s)) == TrimEnd(s) && TrimEnd(s) <= s
    ensures TrimEnd(s) != "" ==> !IsSpace(TrimEnd(s)[|TrimEnd(s)| - 1])
  {
    if s != "" && IsSpace(s[|s| - 1]) {
      TrimEndIs(s[..|s| - 1]);
    }
  }

  /** A space at the end does not matter. */
  lemma {:induction false} TrimDropsSpace(s: string, c: char)
    requires IsSpace(c)
    ensures Trim(s + [c]) == Trim(s)
    decreases |s|
  {
    var t := s + [c];
    if s == "" {
      assert t == [c];
      assert TrimStart([c]) == TrimStart([c][1..]);
    } else if IsSpace(s[0]) {
      assert t[1..] == s[1..] + [c];
      TrimDropsSpace(s[1..], c);
    } else {
      assert t[..|t| - 1] == s;
      assert TrimEnd(t) == TrimEnd(s);
    }
  }

  lemma {:induction false} TrimOfTrimEnd(s: string)
    ensures Trim(TrimEnd(s)) == Trim(s)
  {
    if s != "" && IsSpace(s[|s| - 1]) {
      var front := s[..|s| - 1];
      assert s == front + [s[|s| - 1]];
      TrimDropsSpace(front, s[|s| - 1]);
      TrimOfTrimEnd(front);
    }
  }

  lemma TrimOfTrimStart(s: string)
    ensures Trim(TrimStart(s)) == Trim(s)
  {
    TrimStartIs(s);
  }

  /** Trimmed text begins and ends with something else than a space. */
  lemma TrimmedEnds(s: string)
    ensures Trim(s) != "" ==> !IsSpace(Trim(s)[0]) && !IsSpace(Trim(s)[|Trim(s)| - 1])
    ensures Trim(Trim(s)) == Trim(s)
  {
    TrimStartIs(s);
    TrimEndIs(TrimStart(s));
    if Trim(s) != "" {
      assert Trim(s)[0] == TrimStart(s)[0];
      Tight(Trim(s));
    }
  }

  /** Text that begins and ends with something else than a space is left alone. */
  lemma Tight(s: string)
    requires s != "" && !IsSpace(s[0]) && !IsSpace(s[|s| - 1])
    ensures TrimStart(s) == s && TrimEnd(s) == s && Trim(s) == s
  {
  }

  /** A character that is no space survives trimming. */
  lemma Survives(s: string, c: char)
    requires c in s && !IsSpace(c)
    ensures c in Trim(s)
  {
    hide TrimStart, TrimEnd;
    SurvivesStart(s, c);
    SurvivesEnd(TrimStart(s), c);
  }

  lemma {:induction false} SurvivesStart(s: string, c: char)
    requires c in s && !IsSpace(c)
    ensures c in TrimStart(s)
  {
    if IsSpace(s[0]) {
      assert s == [s[0]] + s[1..];
      SurvivesStart(s[1..], c);
    }
  }

  lemma {:induction false} SurvivesEnd(s: string, c: char)
    requires c in s && !IsSpace(c)
    ensures c in TrimEnd(s)
  {
    if IsSpace(s[|s| - 1]) {
      assert s == s[..|s| - 1] + [s[|s| - 1]];
      SurvivesEnd(s[..|s| - 1], c);
    }
  }

  // ----- Lines that are neither the heading nor a fence

  predicate Inert(l: Line) {
    !IsFence(l) && Trim(l) != HEADING
  }

  ghost predicate AllInert(lines: seq<Line>) {
    forall i | 0 <= i < |lines| :: Inert(lines[i])
  }

  lemma InertTrims(l: Line)
    requires Inert(l)
    ensures Inert(TrimStart(l)) && Inert(TrimEnd(l))
  {
    TrimStartIs(l);
    TrimOfTrimStart(l);
    TrimOfTrimEnd(l);
    StartOfTrimmed(l);
  }

  lemma StartOfTrimmed(l: Line)
    ensures TrimStart(TrimEnd(l)) <= TrimStart(l)
  {
    TrimEndIs(l);
    StartOfPrefix(TrimEnd(l), l);
  }

  lemma {:induction false} StartOfPrefix(a: string, l: string)
    requires a <= l
    ensures TrimStart(a) <= TrimStart(l)
  {
    if a != "" && IsSpace(a[0]) {
      assert a[1..] <= l[1..];
      StartOfPrefix(a[1..], l[1..]);
    }
  }

  /** A line that starts with an ordinary character. */
  lemma OrdinaryLine(l: Line)
    requires l != "" && !IsSpace(l[0]) && l[0] != '`' && l[0] != '~' && l[0] != '#'
    ensures Inert(l)
  {
    TrimEndIs(l);
    if TrimEnd(l) != "" {
      assert TrimEnd(l)[0] == l[0];
    }
  }

  lemma EmptyLine()
    ensures Inert("")
  {
  }

  /** Another heading. */
  lemma OtherHeading(l: Line)
    requires |l| > 3 && l[0] == '#' && l[3] != 'E'
    ensures Inert(l)
  {
    TrimEndIs(l);
    assert |TrimEnd(l)| > 3 ==> TrimEnd(l)[3] == l[3];
    assert |HEADING| > 3 && HEADING[3] == 'E';
  }

  lemma {:induction false} StartOfSum(p: string, q: string)
    requires q != ""
    ensures TrimStart(p + q) == if TrimStart(p) == "" then TrimStart(q) else TrimStart(p) + q
  {
    if p == "" {
      assert p + q == q;
    } else {
      assert (p + q)[1..] == p[1..] + q;
      if IsSpace(p[0]) {
        StartOfSum(p[1..], q);
      }
    }
  }

  lemma NoFenceInSum(p: string, q: string, fence: string)
    requires |fence| == 3 && !(fence <= p) && q != "" && q[0] != fence[0] && q[0] != fence[1] && q[0] != fence[2]
    ensures !(fence <= p + q)
  {
    assert (p + q)[|p|] == q[0];
    assert |p| >= 3 ==> (p + q)[..3] == p[..3];
  }

  /** The title line of a part. */
  lemma TitleInert(first: Line, part: nat, total: nat)
    requires !IsFence(first)
    ensures Inert(first + " \U{2014} Part " + Decimal(part) + "/" + Decimal(total))
  {
    var q := " \U{2014} Part " + Decimal(part) + "/" + Decimal(total);
    hide Decimal;
    Associated(first, " \U{2014} Part ", Decimal(part), "/", Decimal(total));
    Associated("", " \U{2014} Part ", Decimal(part), "/", Decimal(total));
    EndsInDigit(q, total);
    SuffixedInert(first, q);
  }

  lemma Associated(f: string, a: string, b: string, c: string, d: string)
    ensures f + a + b + c + d == f + (a + b + c + d)
    ensures |a| > 1 ==> (a + b + c + d)[0] == a[0] && (a + b + c + d)[1] == a[1]
  {
  }

  lemma SuffixedInert(first: Line, q: string)
    requires !IsFence(first) && |q| > 2 && q[0] == ' ' && q[1] == '\U{2014}' && '0' <= q[|q| - 1] <= '9'
    ensures Inert(first + q)
  {
    StartOfSum(first, q);
    NoFenceInSum(TrimStart(first), q, "```");
    NoFenceInSum(TrimStart(first), q, "~~~");
    assert TrimStart(q) == TrimStart(q[1..]) == q[1..];
    var t := TrimStart(first + q);
    assert t[|t| - 1] == q[|q| - 1];
    assert TrimEnd(t) == t;
    assert HEADING[|HEADING| - 1] == 'a';
  }

  lemma EndsInDigit(q: string, n: nat)
    requires exists a: string :: q == a + Decimal(n)
    ensures q != "" && '0' <= q[|q| - 1] <= '9'
  {
    var a: string :| q == a + Decimal(n);
    assert q[|q| - 1] == Decimal(n)[|Decimal(n)| - 1];
  }

  // ----- The lines before the exit criteria are inert

  lemma InertJoins(a: seq<Line>, b: seq<Line>)
    requires AllInert(a) && AllInert(b)
    ensures AllInert(a + b)
  {
    hide Inert;
  }

  lemma {:induction false} InertTrimmedFirst(lines: seq<Line>)
    requires AllInert(lines)
    ensures AllInert(TrimFirst(lines))
  {
    hide Inert;
    if lines != [] {
      if TrimStart(lines[0]) == "" {
        InertTrimmedFirst(lines[1..]);
      } else {
        InertTrims(lines[0]);
      }
    }
  }

  lemma {:induction false} InertTrimmedLast(lines: seq<Line>)
    requires AllInert(lines)
    ensures AllInert(TrimLast(lines))
  {
    hide Inert;
    if lines != [] {
      if TrimEnd(lines[|lines| - 1]) == "" {
        InertTrimmedLast(lines[..|lines| - 1]);
      } else {
        InertTrims(lines[|lines| - 1]);
      }
    }
  }

  /** No fences, and a line that trims to the heading is the heading. */
  ghost predicate Tidy(parent: seq<Line>) {
    NoFences(parent) && forall l | l in parent && Trim(l) == HEADING :: TrimEnd(l) == HEADING
  }

  lemma HeadingIsHeading(l: Line)
    requires TrimEnd(l) == HEADING
    ensures IsH1OrH2(l)
  {
    TrimEndIs(l);
    assert HEADING <= l;
    assert l[0] == HEADING[0] && l[1] == HEADING[1] && l[2] == HEADING[2];
    assert Hashes(l[2..]) == 0;
    assert l[1..][1..] == l[2..];
    assert Hashes(l[1..]) == 1 && Hashes(l) == 2;
  }

  lemma SectionInert(parent: seq<Line>, title: string)
    requires Tidy(parent)
    ensures AllInert(TextOf(parent, title))
  {
    hide Section, TrimLines, IsFence, IsH1OrH2;
    var body := Section(parent, title);
    forall i | 0 <= i < |body|
      ensures Inert(body[i])
    {
      SectionLines(parent, title, body[i]);
      LineOf(parent, body[i]);
      if TrimEnd(body[i]) == HEADING {
        HeadingIsHeading(body[i]);
      }
    }
    TrimLinesInert(body);
  }

  lemma LineOf(parent: seq<Line>, l: Line)
    requires NoFences(parent) && l in parent
    ensures !IsFence(l)
  {
    hide IsFence;
  }

  lemma TrimLinesInert(body: seq<Line>)
    requires AllInert(body)
    ensures AllInert(TrimLines(body))
  {
    InertTrimmedFirst(body);
    InertTrimmedLast(TrimFirst(body));
  }

  /** What annotating may do to a line: insert text with a star in it, behind something that cannot begin a fence. */
  ghost predicate Annotates(l: Line, l': Line) {
    l' == l || exists a: string, m: string, r: string ::
      && l' == a + m + r && a <= l && '*' in m
      && exists i :: 0 <= i < |a| && !IsSpace(a[i]) && a[i] != '`' && a[i] != '~'
  }

  lemma AnnotatedInert(l: Line, l': Line)
    requires Inert(l) && Annotates(l, l')
    ensures Inert(l')
  {
    hide Inert;
    if l' != l {
      var a: string, m: string, r: string :|
        l' == a + m + r && a <= l && '*' in m && exists i :: 0 <= i < |a| && !IsSpace(a[i]) && a[i] != '`' && a[i] != '~';
      var i :| 0 <= i < |a| && !IsSpace(a[i]) && a[i] != '`' && a[i] != '~';
      MarkedInert(l, a, m, r, i);
    }
  }

  lemma MarkedInert(l: Line, a: string, m: string, r: string, i: nat)
    requires Inert(l) && a <= l && '*' in m
    requires i < |a| && !IsSpace(a[i]) && a[i] != '`' && a[i] != '~'
    ensures Inert(a + m + r)
  {
    hide TrimStart, TrimEnd, Trim;
    StarStays(a, m, r);
    NoStar();
    MarkedStart(a, m, r);
    SurvivesStart(a, a[i]);
    StartOfPrefix(a, l);
    NoFenceThrough(TrimStart(a), m + r, "```", TrimStart(l));
    NoFenceThrough(TrimStart(a), m + r, "~~~", TrimStart(l));
  }

  lemma NoStar()
    ensures '*' !in HEADING
  {
  }

  lemma MarkedStart(a: string, m: string, r: string)
    requires m + r != ""
    ensures TrimStart(a + m + r) == if TrimStart(a) == "" then TrimStart(m + r) else TrimStart(a) + (m + r)
  {
    StartOfSum(a, m + r);
    assert a + m + r == a + (m + r);
  }

  lemma StarStays(a: string, m: string, r: string)
    requires '*' in m
    ensures '*' in Trim(a + m + r) && m + r != ""
  {
    var j :| 0 <= j < |m| && m[j] == '*';
    assert (a + m + r)[|a| + j] == '*';
    Survives(a + m + r, '*');
  }

  lemma NoFenceThrough(t: string, q: string, fence: string, whole: string)
    requires |fence| == 3 && fence[0] == fence[1] == fence[2]
    requires t <= whole && !(fence <= whole)
    requires exists c :: c in t && c != fence[0]
    ensures !(fence <= t + q)
  {
    var c :| c in t && c != fence[0];
    var j :| 0 <= j < |t| && t[j] == c;
    assert |t| >= 3 ==> (t + q)[..3] == whole[..3];
    assert (t + q)[j] == c;
    assert j < 3 ==> fence[j] == fence[0];
  }
}
