/**
 Rewriting `{{parent.output}}` into one placeholder per child of a fan-out, and the check of
 placeholders at validation time.
 */
module TemplateExpand {
  import opened Wrappers
  import opened Text
  import opened Template

  type Fans = map<string, seq<string>>

  function Prepend(text: string, t: Template): Template {
    match t
    case Tail(u) => Tail(text + u)
    case Hole(u, content, rest) => Hole(text + u, content, rest)
  }

  /** `text`, one placeholder per id, then `rest`. */
  function FanOut(text: string, ids: seq<string>, rest: Template): Template
    decreases ids
  {
    if ids == [] then Prepend(text, rest)
    else Hole(text, ids[0] + ".output", FanOut("", ids[1..], rest))
  }

  function ExpandTemplate(t: Template, fans: Fans): Template {
    match t
    case Tail(_) => t
    case Hole(text, content, rest) =>
      var rest' := ExpandTemplate(rest, fans);
      match RefOf(content)
      case Some(id) => if id in fans then FanOut(text, fans[id], rest') else Hole(text, content, rest')
      case None => Hole(text, content, rest')
  }

  function ExpandRefs(prompt: string, fans: Fans): string {
    Unparse(ExpandTemplate(Parse(prompt), fans))
  }

  function Placeholders(ids: seq<string>): string {
    if ids == [] then "" else ("{{" + (ids[0] + ".output") + "}}") + Placeholders(ids[1..])
  }

  /** The rewriting scanner used by graph expansion. */
  method ExpandOutputRefs(prompt: string, fans: Fans) returns (result: string)
    ensures result == ExpandRefs(prompt, fans)
  {
    hide FirstHole, RefOf;
    UnparseParse(prompt);
    if |fans| == 0 || !Contains(prompt, "{{") {
      NothingToExpand(prompt, fans);
      return prompt;
    }
    result := "";
    var i := 0;
    assert prompt[0..] == prompt;
    var cut := FirstHole(prompt[i..]);
    while cut.Cut?
      invariant 0 <= i <= |prompt|
      invariant cut == FirstHole(prompt[i..])
      invariant result + ExpandRefs(prompt[i..], fans) == ExpandRefs(prompt, fans)
      decreases |prompt| - i
    {
      SliceCut(prompt, i, i, cut.before, cut.content, cut.after);
      ghost var rest := ExpandTemplate(Parse(cut.after), fans);
      var written := "{{" + cut.content + "}}";
      if RefOf(cut.content).Some? && RefOf(cut.content).value in fans {
        var ids := fans[RefOf(cut.content).value];
        UnparseFanOut(cut.before, ids, rest);
        written := WritePlaceholders(ids);
      }
      Regroup(result, cut.before, written, Unparse(rest));
      result := result + cut.before + written;
      i := i + |cut.before| + |cut.content| + 4;
      cut := FirstHole(prompt[i..]);
    }
    result := result + prompt[i..];
  }

  method WritePlaceholders(ids: seq<string>) returns (written: string)
    ensures written == Placeholders(ids)
  {
    written := "";
    for k := 0 to |ids|
      invariant written + Placeholders(ids[k..]) == Placeholders(ids)
    {
      var one := "{{" + (ids[k] + ".output") + "}}";
      assert ids[k..][0] == ids[k] && ids[k..][1..] == ids[k + 1..];
      Assoc(written, one, Placeholders(ids[k + 1..]));
      written := written + one;
    }
    assert ids[|ids|..] == [];
  }

  lemma Regroup(a: string, b: string, c: string, d: string)
    ensures (a + b + c) + d == a + (b + c + d)
  {
  }

  lemma NothingToExpand(prompt: string, fans: Fans)
    requires |fans| == 0 || !Contains(prompt, "{{")
    ensures ExpandRefs(prompt, fans) == prompt
  {
    UnparseParse(prompt);
    if |fans| == 0 {
      assert fans.Keys == {};
      ExpandNothing(Parse(prompt), fans);
    }
  }

  lemma {:induction false} ExpandNothing(t: Template, fans: Fans)
    requires fans.Keys == {}
    ensures ExpandTemplate(t, fans) == t
  {
    if t.Hole? {
      ExpandNothing(t.rest, fans);
    }
  }

  lemma {:induction false} UnparseFanOut(text: string, ids: seq<string>, rest: Template)
    ensures Unparse(FanOut(text, ids, rest)) == text + Placeholders(ids) + Unparse(rest)
    decreases ids
  {
    if ids == [] {
      UnparsePrepend(text, rest);
    } else {
      UnparseFanOut("", ids[1..], rest);
      JoinFan(text, "{{" + (ids[0] + ".output") + "}}", Placeholders(ids[1..]), Unparse(rest));
    }
  }

  lemma UnparsePrepend(text: string, t: Template)
    ensures Unparse(Prepend(text, t)) == text + "" + Unparse(t)
  {
    if t.Hole? {
      Regroup(text, t.text, "{{" + t.content + "}}", Unparse(t.rest));
    }
  }

  lemma JoinFan(a: string, b: string, c: string, d: string)
    ensures a + b + ("" + c + d) == a + (b + c) + d
  {
  }

  // ----- The split survives the rewriting

  predicate EndsWith(s: string, c: char) {
    |s| > 0 && s[|s| - 1] == c
  }

  /** Templates that come out of `Parse`: no piece can be cut differently after joining. */
  predicate Stable(t: Template) {
    match t
    case Tail(text) => FirstHole(text).Whole?
    case Hole(text, content, rest) =>
      && Find(text, "{{").None? && !EndsWith(text, '{')
      && Find(content, "}}").None? && !EndsWith(content, '}')
      && Stable(rest)
  }

  /** The first occurrence of a doubled character behind text that has none and does not end with it. */
  lemma FindBehind(a: string, c: char, b: string)
    requires Find(a, [c, c]).None? && !EndsWith(a, c)
    ensures Find(a + [c, c] + b, [c, c]) == Some(|a|)
  {
    var s := a + [c, c] + b;
    assert s[|a|..|a| + 2] == [c, c];
    forall j: nat | j < |a|
      ensures !OccursAt(s, [c, c], j)
    {
      assert !OccursAt(a, [c, c], j);
      if j + 2 <= |a| {
        assert s[j..j + 2] == a[j..j + 2];
      } else {
        assert s[j..j + 2][0] == a[|a| - 1];
      }
    }
    FindIs(s, [c, c], |a|);
  }

  /** What precedes the first occurrence of a doubled character. */
  lemma BeforeFirst(s: string, c: char, k: nat)
    requires Find(s, [c, c]) == Some(k)
    ensures Find(s[..k], [c, c]).None? && !EndsWith(s[..k], c)
  {
    var r := Find(s[..k], [c, c]);
    if r.Some? {
      assert s[..k][r.value..r.value + 2] == s[r.value..r.value + 2];
      assert OccursAt(s, [c, c], r.value);
    }
    if EndsWith(s[..k], c) {
      assert s[k..k + 2][0] == s[k];
      assert s[k - 1..k + 1] == [c, c];
      assert OccursAt(s, [c, c], k - 1);
    }
  }

  lemma FirstHoleOf(text: string, content: string, after: string)
    requires Find(text, "{{").None? && !EndsWith(text, '{')
    requires Find(content, "}}").None? && !EndsWith(content, '}')
    ensures FirstHole(text + ("{{" + content + "}}") + after) == Cut(text, content, after)
  {
    var tail := content + "}}" + after;
    JoinCut(text, "{{", content, "}}", after);
    FindBehind(text, '{', tail);
    FindBehind(content, '}', after);
    SplitJoined(text + "{{" + tail, text, "{{", tail);
    SplitJoined(tail, content, "}}", after);
  }

  lemma {:induction false} ParseUnparse(t: Template)
    requires Stable(t)
    ensures Parse(Unparse(t)) == t
  {
    hide FirstHole;
    if t.Hole? {
      FirstHoleOf(t.text, t.content, Unparse(t.rest));
      ParseUnparse(t.rest);
    }
  }

  lemma {:induction false} ParseIsStable(s: string)
    ensures Stable(Parse(s))
    decreases |s|
  {
    match FirstHole(s)
    case Whole =>
    case Cut(_, _, after) =>
      var a := Find(s, "{{").value;
      BeforeFirst(s, '{', a);
      BeforeFirst(s[a + 2..], '}', Find(s[a + 2..], "}}").value);
      ParseIsStable(after);
  }

  /** Ids whose placeholders parse back: no dot, and no "}}". */
  predicate Quotable(id: string) {
    '.' !in id && Find(id, "}}").None?
  }

  lemma NoPairAt(a: string, b: string, c: char, j: nat)
    requires !OccursAt(a, [c, c], j) && c !in b
    ensures !OccursAt(a + b, [c, c], j)
  {
    var s := a + b;
    if j + 2 <= |a| {
      assert s[j..j + 2] == a[j..j + 2];
    } else if j + 2 <= |s| {
      assert s[j..j + 2][1] == s[j + 1] == b[j + 1 - |a|];
    }
  }

  /** Text with no pair of a character has none, either, in front of text without the character. */
  lemma NoPairInSum(a: string, b: string, c: char)
    requires Find(a, [c, c]).None? && c !in b
    ensures Find(a + b, [c, c]).None?
  {
    hide OccursAt;
    forall j: nat
      ensures !OccursAt(a + b, [c, c], j)
    {
      NoPairAt(a, b, c, j);
    }
  }

  lemma QuotableContent(id: string)
    requires Quotable(id)
    ensures RefOf(id + ".output") == Some(id)
    ensures Find(id + ".output", "}}").None? && !EndsWith(id + ".output", '}')
  {
    RefOfOutput(id);
    NoPairInSum(id, ".output", '}');
    assert ['}', '}'] == "}}";
    assert (id + ".output")[|id| + 6] == 't';
  }

  /** A child's id is its parent's, a dash, and more characters that are no dots or braces. */
  predicate IsChildId(c: string, p: string) {
    |p| < |c| && c[..|p|] == p && c[|p|] == '-' && forall i | |p| <= i < |c| :: c[i] != '.' && c[i] != '}'
  }

  ghost predicate ChildFans(fans: Fans) {
    forall p | p in fans :: fans[p] != [] && forall c | c in fans[p] :: IsChildId(c, p)
  }

  /** A parent that some placeholder refers to has neither a dot nor "}}", so its children are quotable. */
  lemma ReferredFan(content: string, p: string, fans: Fans)
    requires Find(content, "}}").None?
    requires RefOf(content) == Some(p) && p in fans && ChildFans(fans)
    ensures fans[p] != [] && forall c | c in fans[p] :: Quotable(c)
  {
    RefOfInverse(content);
    forall c | c in fans[p]
      ensures Quotable(c)
    {
      forall j: nat | j + 2 <= |c|
        ensures !OccursAt(c, "}}", j)
      {
        if j + 2 <= |p| {
          assert c[j..j + 2] == p[j..j + 2] && content[j..j + 2] == p[j..j + 2];
          assert !OccursAt(content, "}}", j);
        } else {
          assert c[j..j + 2][1] == c[j + 1] != '}';
        }
      }
    }
  }

  lemma {:induction false} FanOutIsStable(text: string, ids: seq<string>, rest: Template)
    requires Find(text, "{{").None? && !EndsWith(text, '{')
    requires ids != [] && forall c | c in ids :: Quotable(c)
    requires Stable(rest)
    ensures Stable(FanOut(text, ids, rest))
    decreases ids
  {
    hide Find;
    QuotableContent(ids[0]);
    NothingFound();
    if |ids| == 1 {
      PrependNothing(rest);
    } else {
      FanOutIsStable("", ids[1..], rest);
    }
  }

  lemma NothingFound()
    ensures Find("", "{{").None?
  {
  }

  lemma PrependNothing(t: Template)
    ensures Prepend("", t) == t
  {
    assert "" + t.text == t.text;
  }

  lemma {:induction false} ExpandIsStable(t: Template, fans: Fans)
    requires Stable(t) && ChildFans(fans)
    ensures Stable(ExpandTemplate(t, fans))
  {
    hide FirstHole, RefOf, Find;
    if t.Hole? {
      ExpandIsStable(t.rest, fans);
      if RefOf(t.content).Some? && RefOf(t.content).value in fans {
        ReferredFan(t.content, RefOf(t.content).value, fans);
        FanOutIsStable(t.text, fans[RefOf(t.content).value], ExpandTemplate(t.rest, fans));
      }
    }
  }

  // ----- Meaning

  /** The outputs of a list of nodes, one after the other. */
  function AllOutputs(ids: seq<string>, outs: Outputs): string {
    if ids == [] then "" else Cap(Lookup(outs, ids[0])) + AllOutputs(ids[1..], outs)
  }

  /** The authored template, a reference to a fan-out read as all its children's outputs. */
  function RenderFans(t: Template, fans: Fans, outs: Outputs): string {
    match t
    case Tail(text) => text
    case Hole(text, content, rest) =>
      var value := match RefOf(content)
        case Some(id) => if id in fans then AllOutputs(fans[id], outs) else Fill(content, outs)
        case None => Fill(content, outs);
      text + value + RenderFans(rest, fans, outs)
  }

  lemma {:induction false} RenderFanOut(text: string, ids: seq<string>, rest: Template, outs: Outputs)
    requires ids != [] && forall c | c in ids :: Quotable(c)
    ensures Render(FanOut(text, ids, rest), outs) == text + AllOutputs(ids, outs) + Render(rest, outs)
    decreases ids
  {
    hide Cap, RefOf;
    QuotableContent(ids[0]);
    var first := Cap(Lookup(outs, ids[0]));
    if |ids| == 1 {
      PrependNothing(rest);
      assert AllOutputs(ids, outs) == first + "" == first;
    } else {
      RenderFanOut("", ids[1..], rest, outs);
      JoinFan(text, first, AllOutputs(ids[1..], outs), Render(rest, outs));
    }
  }

  lemma {:induction false} RenderExpanded(t: Template, fans: Fans, outs: Outputs)
    requires Stable(t) && ChildFans(fans)
    ensures Render(ExpandTemplate(t, fans), outs) == RenderFans(t, fans, outs)
  {
    hide Cap, RefOf;
    if t.Hole? {
      RenderExpanded(t.rest, fans, outs);
      if RefOf(t.content).Some? && RefOf(t.content).value in fans {
        ReferredFan(t.content, RefOf(t.content).value, fans);
        RenderFanOut(t.text, fans[RefOf(t.content).value], ExpandTemplate(t.rest, fans), outs);
      }
    }
  }

  /**
   Rewriting keeps the meaning of every prompt: filling in the rewritten prompt is filling in the
   authored one, each reference to a fan-out read as its children's capped outputs in item order.
   */
  lemma ExpansionKeepsMeaning(prompt: string, fans: Fans, outs: Outputs)
    requires ChildFans(fans)
    ensures Interpolate(ExpandRefs(prompt, fans), outs) == RenderFans(Parse(prompt), fans, outs)
  {
    var t := Parse(prompt);
    ParseIsStable(prompt);
    ExpandIsStable(t, fans);
    ParseUnparse(ExpandTemplate(t, fans));
    RenderExpanded(t, fans, outs);
  }
}
