/** Which names a text mentions: runs of name characters, without dots around them, that end in a known extension. */
module Names {
  import opened Wrappers
  import opened Text
  import opened Annotate
  import opened Ownership

  // ----- Dots around them

  function Dots(n: nat): string {
    seq(n, i => '.')
  }

  lemma {:induction false} StartIs(s: string) returns (a: nat)
    ensures s == Dots(a) + TrimDotsStart(s) && (TrimDotsStart(s) != "" ==> TrimDotsStart(s)[0] != '.')
  {
    a := 0;
    if s != "" && s[0] == '.' {
      a := StartIs(s[1..]);
      a := a + 1;
      assert Dots(a) == "." + Dots(a - 1) && s == [s[0]] + s[1..];
    }
  }

  lemma {:induction false} EndIs(s: string) returns (b: nat)
    ensures s == TrimDotsEnd(s) + Dots(b) && (TrimDotsEnd(s) != "" ==> TrimDotsEnd(s)[|TrimDotsEnd(s)| - 1] != '.')
  {
    b := 0;
    if s != "" && s[|s| - 1] == '.' {
      b := EndIs(s[..|s| - 1]);
      b := b + 1;
      assert Dots(b) == Dots(b - 1) + "." && s == s[..|s| - 1] + [s[|s| - 1]];
    }
  }

  lemma {:induction false} StartGoes(a: nat, s: string)
    requires s != "" && s[0] != '.'
    ensures TrimDotsStart(Dots(a) + s) == s
  {
    if a == 0 {
      assert Dots(0) + s == s;
    } else {
      assert (Dots(a) + s)[1..] == Dots(a - 1) + s;
      StartGoes(a - 1, s);
    }
  }

  lemma {:induction false} EndGoes(s: string, b: nat)
    requires s != "" && s[|s| - 1] != '.'
    ensures TrimDotsEnd(s + Dots(b)) == s
  {
    if b == 0 {
      assert s + Dots(0) == s;
    } else {
      assert (s + Dots(b))[..|s| + b - 1] == s + Dots(b - 1);
      EndGoes(s, b - 1);
    }
  }

  lemma TrimDotsIff(w: string, t: string)
    requires t != "" && t[0] != '.' && t[|t| - 1] != '.'
    ensures TrimDots(w) == t <==> exists a, b: nat :: w == Dots(a) + t + Dots(b)
  {
    hide TrimDotsStart, TrimDotsEnd, Dots;
    if TrimDots(w) == t {
      var a := StartIs(w);
      var b := EndIs(TrimDotsStart(w));
      assert w == Dots(a) + t + Dots(b);
    }
    if a, b: nat :| w == Dots(a) + t + Dots(b) {
      assert w == Dots(a) + (t + Dots(b));
      assert (t + Dots(b))[0] == t[0];
      StartGoes(a, t + Dots(b));
      EndGoes(t, b);
    }
  }

  // ----- A known extension

  ghost predicate HasExtension(t: string) {
    exists stem, ext: string :: stem != "" && ext in EXTENSIONS && t == stem + "." + ext
  }

  lemma ExtensionsArePlain(ext: string)
    requires ext in EXTENSIONS
    ensures ext != "" && '.' !in ext
  {
    var k :| 0 <= k < |EXTENSIONS| && EXTENSIONS[k] == ext;
    assert k < 18;
  }

  lemma {:induction false} LastDotOf(stem: string, ext: string)
    requires '.' !in ext
    ensures LastDot(stem + "." + ext) == Some(|stem|)
  {
    var s := stem + "." + ext;
    if ext == "" {
      assert s[|s| - 1] == '.';
    } else {
      assert s[|s| - 1] == ext[|ext| - 1] && s[..|s| - 1] == stem + "." + ext[..|ext| - 1];
      LastDotOf(stem, ext[..|ext| - 1]);
    }
  }

  lemma {:induction false} LastDotIs(s: string)
    ensures LastDot(s).Some? ==> LastDot(s).value < |s| && s[LastDot(s).value] == '.'
  {
    if s != "" && s[|s| - 1] != '.' {
      LastDotIs(s[..|s| - 1]);
    }
  }

  lemma ModuleIff(t: string)
    ensures IsModule(t) <==> HasExtension(t)
  {
    LastDotIs(t);
    if IsModule(t) {
      var d := LastDot(t).value;
      assert t == t[..d] + "." + t[d + 1..];
    }
    if HasExtension(t) {
      var stem, ext: string :| stem != "" && ext in EXTENSIONS && t == stem + "." + ext;
      ExtensionsArePlain(ext);
      LastDotOf(stem, ext);
      assert t[|stem| + 1..] == ext;
    }
  }

  lemma {:induction false} ModulesHave(words: seq<string>, t: string)
    ensures t in Modules(words) <==> IsModule(t) && exists w :: w in words && TrimDots(w) == t
  {
    hide IsModule, TrimDots;
    if words != [] {
      var front, last := words[..|words| - 1], words[|words| - 1];
      assert words == front + [last];
      ModulesHave(front, t);
      assert forall w :: w in words <==> w in front || w == last;
    }
  }

  lemma EndsPlain(t: string)
    requires HasExtension(t)
    ensures t != "" && t[|t| - 1] != '.'
  {
    var stem, ext: string :| stem != "" && ext in EXTENSIONS && t == stem + "." + ext;
    ExtensionsArePlain(ext);
    assert t[|t| - 1] == ext[|ext| - 1];
  }

  /** The text mentions the name: a run of name characters is the name, but for dots around it. */
  ghost predicate Mentions(line: string, t: string) {
    exists a, b, i: nat :: RunAt(line, Dots(a) + t + Dots(b), i, IsNoModuleChar)
  }

  /**
   The artifacts a criterion or an architecture line names are exactly the names with a known extension, and no dot in
   front, that it mentions.
   */
  lemma NamedIff(line: string, t: string)
    ensures t in Named(line) <==> HasExtension(t) && !("." <= t) && Mentions(line, t)
  {
    hide HasExtension, IsModule, TrimDots, RunAt, Fields, Modules, Dots;
    ModulesHave(Words(line), t);
    ModuleIff(t);
    if t in Named(line) {
      EndsPlain(t);
      var w :| w in Words(line) && TrimDots(w) == t;
      TrimmedFront(w);
      TrimDotsIff(w, t);
      var a, b: nat :| w == Dots(a) + t + Dots(b);
      FieldIff(line, w, IsNoModuleChar);
      var i: nat :| RunAt(line, w, i, IsNoModuleChar);
      assert "." <= t <==> t[0] == '.';
    }
    if HasExtension(t) && !("." <= t) && Mentions(line, t) {
      EndsPlain(t);
      assert "." <= t <==> t[0] == '.';
      var a, b, i: nat :| RunAt(line, Dots(a) + t + Dots(b), i, IsNoModuleChar);
      TrimDotsIff(Dots(a) + t + Dots(b), t);
      FieldIff(line, Dots(a) + t + Dots(b), IsNoModuleChar);
    }
  }

  lemma {:induction false} EndKeepsFront(s: string)
    ensures TrimDotsEnd(s) <= s
  {
    if s != "" && s[|s| - 1] == '.' {
      EndKeepsFront(s[..|s| - 1]);
    }
  }

  lemma TrimmedFront(w: string)
    ensures TrimDots(w) != "" ==> TrimDots(w)[0] != '.'
  {
    var a := StartIs(w);
    EndKeepsFront(TrimDotsStart(w));
  }
}
