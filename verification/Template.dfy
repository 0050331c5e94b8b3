/**
 Prompt templates: the `{{node.output}}` placeholders.  Three scanners of the source walk a
 prompt with the same two searches (the next "{{", then the next "}}"); `Parse` is that split,
 and each scanner is proved to compute a function of it.
 */
module Template {
  import opened Wrappers
  import opened Text

  const MAX_INTERPOLATED: nat := 32 * 1024

  /** Plain text, then what stands between "{{" and "}}", and so on to the closing text. */
  datatype Template = Tail(text: string) | Hole(text: string, content: string, rest: Template)

  datatype Cut = Whole | Cut(before: string, content: string, after: string)

  /** The first placeholder: the next "{{" and the next "}}" behind it. */
  function FirstHole(s: string): (r: Cut)
    ensures r.Cut? ==> |r.before| + |r.content| + |r.after| + 4 == |s|
  {
    match Find(s, "{{")
    case None => Whole
    case Some(a) =>
      match Find(s[a + 2..], "}}")
      case None => Whole
      case Some(b) => Cut(s[..a], s[a + 2..][..b], s[a + 2..][b + 2..])
  }

  lemma CutJoins(s: string)
    requires FirstHole(s).Cut?
    ensures var Cut(before, content, after) := FirstHole(s);
      s == before + ("{{" + content + "}}") + after
  {
    var a := Find(s, "{{").value;
    SplitAround(s, a);
    var t := s[a + 2..];
    var b := Find(t, "}}").value;
    SplitAround(t, b);
    JoinCut(s[..a], "{{", t[..b], "}}", t[b + 2..]);
  }

  lemma SplitAround(s: string, a: nat)
    requires a + 2 <= |s|
    ensures s == s[..a] + s[a..a + 2] + s[a + 2..]
  {
  }

  lemma JoinCut(a: string, b: string, c: string, d: string, e: string)
    ensures a + b + (c + d + e) == a + (b + c + d) + e
  {
  }

  function Parse(s: string): Template
    decreases |s|
  {
    match FirstHole(s)
    case Whole => Tail(s)
    case Cut(before, content, after) => Hole(before, content, Parse(after))
  }

  function Unparse(t: Template): string {
    match t
    case Tail(text) => text
    case Hole(text, content, rest) => text + ("{{" + content + "}}") + Unparse(rest)
  }

  lemma {:induction false} UnparseParse(s: string)
    ensures Unparse(Parse(s)) == s
    decreases |s|
  {
    match FirstHole(s)
    case Whole =>
    case Cut(_, _, after) =>
      CutJoins(s);
      UnparseParse(after);
  }

  /** The id referred to by a placeholder of the form `id.output`. */
  function RefOf(content: string): Option<string> {
    match Find(content, ".")
    case None => None
    case Some(d) => if content[d + 1..] == "output" then Some(content[..d]) else None
  }

  lemma RefOfInverse(content: string)
    requires RefOf(content).Some?
    ensures content == RefOf(content).value + ".output" && '.' !in RefOf(content).value
  {
    var d := Find(content, ".").value;
    assert content == content[..d] + content[d..d + 1] + content[d + 1..];
    if '.' in content[..d] {
      var j :| 0 <= j < d && content[j] == '.';
      assert OccursAt(content, ".", j);
    }
  }

  lemma RefOfOutput(id: string)
    requires '.' !in id
    ensures RefOf(id + ".output") == Some(id)
  {
    var c := id + ".output";
    assert c[|id|..|id| + 1] == ".";
    forall j: nat | j < |id|
      ensures !OccursAt(c, ".", j)
    {
      assert c[j..j + 1] == [id[j]];
    }
    FindIs(c, ".", |id|);
    assert c[|id| + 1..] == "output";
    assert c[..|id|] == id;
  }

  /** Recorded outputs; a node without one reads as the empty string. */
  type Outputs = map<string, string>

  function Lookup(outs: Outputs, id: string): string {
    if id in outs then outs[id] else ""
  }

  /** At most the last 32 * 1024 characters, announced by a marker when something was dropped. */
  function Cap(output: string): string {
    if |output| > MAX_INTERPOLATED then
      var cut := |output| - MAX_INTERPOLATED;
      "[\U{2026} " + Decimal(cut) + " bytes truncated \U{2026}]\n" + output[cut..]
    else output
  }

  /** What dispatch puts in the place of a placeholder. */
  function Fill(content: string, outs: Outputs): string {
    match RefOf(content)
    case None => "{{" + content + "}}"
    case Some(id) => Cap(Lookup(outs, id))
  }

  function Render(t: Template, outs: Outputs): string {
    match t
    case Tail(text) => text
    case Hole(text, content, rest) => text + Fill(content, outs) + Render(rest, outs)
  }

  /** A prompt with its placeholders filled in. */
  function Interpolate(prompt: string, outs: Outputs): string {
    Render(Parse(prompt), outs)
  }

  /** The ids whose outputs a prompt reads. */
  function Refs(t: Template): set<string> {
    match t
    case Tail(_) => {}
    case Hole(_, content, rest) =>
      (match RefOf(content) case None => {} case Some(id) => {id}) + Refs(rest)
  }

  /** Interpolation looks at nothing but the outputs of the ids referred to. */
  lemma {:induction false} RenderReadsOnlyRefs(t: Template, o1: Outputs, o2: Outputs)
    requires forall id | id in Refs(t) :: Lookup(o1, id) == Lookup(o2, id)
    ensures Render(t, o1) == Render(t, o2)
  {
    if t.Hole? {
      RenderReadsOnlyRefs(t.rest, o1, o2);
    }
  }

  /** What the scanner still has to append when `prompt[lastEnd..i]` is scanned but not copied. */
  function Pending(prompt: string, lastEnd: nat, i: nat, outs: Outputs): string
    requires lastEnd <= i <= |prompt|
    decreases |prompt| - i
  {
    match FirstHole(prompt[i..])
    case Whole => prompt[lastEnd..]
    case Cut(before, content, _) =>
      var end := i + |before| + |content| + 4;
      if RefOf(content).Some? then
        prompt[lastEnd..i + |before|] + (Fill(content, outs) + Pending(prompt, end, end, outs))
      else
        Pending(prompt, lastEnd, end, outs)
  }

  /** The dispatch-time scanner. */
  method InterpolateOutputs(prompt: string, outs: Outputs) returns (result: string)
    ensures result == Interpolate(prompt, outs)
  {
    hide FirstHole, RefOf, Cap;
    result := "";
    var lastEnd, i := 0, 0;
    var cut := FirstHole(prompt[i..]);
    while cut.Cut?
      invariant 0 <= lastEnd <= i <= |prompt|
      invariant cut == FirstHole(prompt[i..])
      invariant result + Pending(prompt, lastEnd, i, outs) == Pending(prompt, 0, 0, outs)
      decreases |prompt| - i
    {
      var start, end := i + |cut.before|, i + |cut.before| + |cut.content| + 4;
      if RefOf(cut.content).Some? {
        var output := Cap(Lookup(outs, RefOf(cut.content).value));
        Assoc(result, prompt[lastEnd..start], output + Pending(prompt, end, end, outs));
        Assoc(result + prompt[lastEnd..start], output, Pending(prompt, end, end, outs));
        result := result + prompt[lastEnd..start] + output;
        lastEnd := end;
      }
      i := end;
      cut := FirstHole(prompt[i..]);
    }
    result := result + prompt[lastEnd..];
    PendingIsRender(prompt, 0, 0, outs);
    assert prompt[0..] == prompt;
  }

  lemma {:induction false} PendingIsRender(prompt: string, lastEnd: nat, i: nat, outs: Outputs)
    requires lastEnd <= i <= |prompt|
    ensures Pending(prompt, lastEnd, i, outs) == prompt[lastEnd..i] + Interpolate(prompt[i..], outs)
    decreases |prompt| - i
  {
    hide FirstHole, RefOf, Cap;
    match FirstHole(prompt[i..])
    case Whole =>
      assert prompt[lastEnd..] == prompt[lastEnd..i] + prompt[i..];
    case Cut(before, content, after) =>
      var end := i + |before| + |content| + 4;
      SliceCut(prompt, lastEnd, i, before, content, after);
      var p, f, r := prompt[lastEnd..i], Fill(content, outs), Interpolate(after, outs);
      if RefOf(content).Some? {
        PendingIsRender(prompt, end, end, outs);
        JoinFilled(p, before, f, prompt[end..end], r);
      } else {
        PendingIsRender(prompt, lastEnd, end, outs);
        JoinCopied(p, before, f, r);
      }
  }

  lemma JoinFilled(a: string, b: string, c: string, none: string, d: string)
    requires none == ""
    ensures (a + b) + (c + (none + d)) == a + (b + c + d)
  {
  }

  lemma JoinCopied(a: string, b: string, c: string, d: string)
    ensures (a + (b + c)) + d == a + (b + c + d)
  {
  }

  lemma SliceCut(prompt: string, lastEnd: nat, i: nat, before: string, content: string, after: string)
    requires lastEnd <= i <= |prompt|
    requires FirstHole(prompt[i..]) == Cut(before, content, after)
    ensures var end := i + |before| + |content| + 4;
      && end <= |prompt|
      && prompt[lastEnd..i + |before|] == prompt[lastEnd..i] + before
      && prompt[lastEnd..end] == prompt[lastEnd..i] + (before + ("{{" + content + "}}"))
      && prompt[end..] == after
  {
    CutJoins(prompt[i..]);
    SplitJoined(prompt[i..], before, "{{" + content + "}}", after);
    TakeBehind(prompt, lastEnd, i, |before|);
    TakeBehind(prompt, lastEnd, i, |before| + |content| + 4);
  }

  lemma SplitJoined(s: string, a: string, b: string, c: string)
    requires s == a + b + c
    ensures s[..|a|] == a && s[..|a| + |b|] == a + b && s[|a| + |b|..] == c
  {
  }

  lemma TakeBehind(s: string, i: nat, j: nat, n: nat)
    requires i <= j <= j + n <= |s|
    ensures s[i..j + n] == s[i..j] + s[j..][..n]
    ensures s[j..][n..] == s[j + n..]
  {
  }

  lemma Assoc(a: string, b: string, c: string)
    ensures (a + b) + c == a + (b + c)
  {
  }
}
