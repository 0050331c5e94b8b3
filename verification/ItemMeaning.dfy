/**
 What the child of a fan-out is, told from the authored node and the item: every text with the item in the place
 of each `{{item}}`, and everything else as it was written.
 */
module ItemMeaning {
  import opened Wrappers
  import opened Text
  import opened Dag
  import opened FanOut
  import opened Expand
  import TemplateExpand

  const ITEM: string := "{{item}}"

  /** Pieces with one and the same text between them. */
  function Between(pieces: seq<string>, filling: string): string
    requires pieces != []
  {
    if |pieces| == 1 then pieces[0] else pieces[0] + filling + Between(pieces[1..], filling)
  }

  ghost predicate Clear(pieces: seq<string>) {
    pieces != [] && forall i | 0 <= i < |pieces| :: !Contains(pieces[i], ITEM)
  }

  /** `r` is `s` with the item in the place of every occurrence: the pieces between are kept and hold none. */
  ghost predicate Filled(s: string, item: string, r: string) {
    exists pieces: seq<string> :: Clear(pieces) && s == Between(pieces, ITEM) && r == Between(pieces, item)
  }

  // ----- Replacing by pieces

  lemma Letters(s: string, j: nat)
    requires OccursAt(s, ITEM, j)
    ensures s[j] == s[j + 1] == '{' && s[j + 2] == 'i' && s[j + 3] == 't' && s[j + 4] == 'e' && s[j + 5] == 'm' && s[j + 6] == s[j + 7] == '}'
  {
    var t := s[j..j + 8];
    assert t == ITEM;
    assert t[0] == '{' && t[1] == '{' && t[2] == 'i' && t[3] == 't' && t[4] == 'e' && t[5] == 'm' && t[6] == '}' && t[7] == '}';
  }

  /** An occurrence of the placeholder begins nowhere within another one. */
  lemma NoOverlap(s: string, j: nat, k: nat)
    requires OccursAt(s, ITEM, k) && OccursAt(s, ITEM, j) && j <= k
    ensures j == k || j + 8 <= k
  {
    Letters(s, j);
    Letters(s, k);
  }

  lemma WithinPiece(piece: string, rest: string, j: nat)
    ensures j < |piece| && OccursAt(piece + ITEM + rest, ITEM, j) ==> Contains(piece, ITEM)
  {
    var s := piece + ITEM + rest;
    assert s[|piece|..|piece| + 8] == ITEM;
    if j < |piece| && OccursAt(s, ITEM, j) {
      NoOverlap(s, j, |piece|);
      assert piece[j..j + 8] == s[j..j + 8];
      assert OccursAt(piece, ITEM, j);
    }
  }

  /** Behind a piece without one, the first occurrence is where it is put. */
  lemma FirstBehind(piece: string, rest: string)
    requires !Contains(piece, ITEM)
    ensures Find(piece + ITEM + rest, ITEM) == Some(|piece|)
  {
    var s := piece + ITEM + rest;
    assert s[|piece|..|piece| + 8] == ITEM;
    forall j: nat | j < |piece|
      ensures !OccursAt(s, ITEM, j)
    {
      WithinPiece(piece, rest, j);
    }
    FindIs(s, ITEM, |piece|);
  }

  lemma {:induction false} ReplaceJoined(pieces: seq<string>, item: string)
    requires Clear(pieces)
    ensures Replace(Between(pieces, ITEM), ITEM, item) == Between(pieces, item)
    decreases |pieces|
  {
    hide Find;
    if |pieces| > 1 {
      var rest := Between(pieces[1..], ITEM);
      FirstBehind(pieces[0], rest);
      ReplaceJoined(pieces[1..], item);
      SplitAt(pieces[0], rest);
    }
  }

  lemma SplitAt(piece: string, rest: string)
    ensures var s := piece + ITEM + rest;
      s[..|piece|] == piece && s[|piece| + 8..] == rest
  {
  }

  /** Every text has such pieces. */
  lemma {:induction false} SomePieces(s: string) returns (pieces: seq<string>)
    ensures Clear(pieces) && Between(pieces, ITEM) == s
    decreases |s|
  {
    hide Find;
    match Find(s, ITEM)
    case None => pieces := [s];
    case Some(k) =>
      var rest := SomePieces(s[k + 8..]);
      pieces := [s[..k]] + rest;
      NoneBefore(s, k);
      assert pieces[1..] == rest;
      AroundFirst(s, k);
  }

  lemma NoneBefore(s: string, k: nat)
    requires Find(s, ITEM) == Some(k)
    ensures !Contains(s[..k], ITEM)
  {
    forall j: nat | j + 8 <= k
      ensures !OccursAt(s[..k], ITEM, j)
    {
      assert s[..k][j..j + 8] == s[j..j + 8];
      assert !OccursAt(s, ITEM, j);
    }
  }

  lemma AroundFirst(s: string, k: nat)
    requires OccursAt(s, ITEM, k)
    ensures s == s[..k] + ITEM + s[k + 8..]
  {
  }

  /** Substitution is filling in, and filling in has one result. */
  lemma SubstituteFills(s: string, item: string, r: string)
    ensures Filled(s, item, r) <==> r == Substitute(s, item)
  {
    hide Between, Contains, Replace;
    var pieces := SomePieces(s);
    ReplaceJoined(pieces, item);
    if Filled(s, item, r) {
      var other: seq<string> :| Clear(other) && s == Between(other, ITEM) && r == Between(other, item);
      ReplaceJoined(other, item);
    }
  }

  // ----- The child

  ghost predicate FilledModels(models: seq<ModelRef>, item: string, r: seq<ModelRef>) {
    |r| == |models| && forall i | 0 <= i < |models| :: r[i].paid == models[i].paid && Filled(models[i].name, item, r[i].name)
  }

  /** Every leaf of the tree, the tree keeping its shape. */
  ghost predicate FilledVerify(v: Verify, item: string, r: Verify)
    decreases v
  {
    match v
    case Shell(cmd) => r.Shell? && Filled(cmd, item, r.cmd)
    case Critic(prompt, models) => r.Critic? && Filled(prompt, item, r.prompt) && FilledModels(models, item, r.models)
    case All(arms) => r.All? && |r.arms| == |arms| && forall i | 0 <= i < |arms| :: FilledVerify(arms[i], item, r.arms[i])
  }

  ghost predicate FilledGate(gate: Option<string>, item: string, r: Option<string>) {
    r.Some? == gate.Some? && (gate.Some? ==> Filled(gate.value, item, r.value))
  }

  /** The child `m` of `n` for an item, but for its references; its prompt is `prompt` with references rewritten. */
  ghost predicate IsChild(n: Node, item: string, prompt: string, m: Node) {
    && Filled(n.prompt, item, prompt)
    && FilledModels(n.models, item, m.models)
    && FilledGate(n.gate, item, m.gate)
    && m.verify.Some? == n.verify.Some? && (n.verify.Some? ==> FilledVerify(n.verify.value, item, m.verify.value))
    && m.retry == n.retry && m.validate == n.validate && m.nodeType == n.nodeType && m.verifyPre == n.verifyPre
    && m.forEach == None
    && m.quorum.Some? == n.quorum.Some? && (n.quorum.Some? ==> m.quorum.value.minPass == n.quorum.value.minPass)
  }

  lemma ModelsFilled(models: seq<ModelRef>, item: string)
    ensures FilledModels(models, item, SubstituteModels(models, item))
  {
    hide Filled, Substitute;
    forall i | 0 <= i < |models|
      ensures Filled(models[i].name, item, Substitute(models[i].name, item))
    {
      SubstituteFills(models[i].name, item, Substitute(models[i].name, item));
    }
  }

  lemma {:induction false} VerifyFilled(v: Verify, item: string)
    ensures FilledVerify(v, item, SubstituteVerify(v, item))
    decreases v
  {
    hide Filled, Substitute, FilledModels, SubstituteModels;
    match v
    case Shell(cmd) => SubstituteFills(cmd, item, Substitute(cmd, item));
    case Critic(prompt, models) =>
      SubstituteFills(prompt, item, Substitute(prompt, item));
      ModelsFilled(models, item);
    case All(arms) =>
      forall i | 0 <= i < |arms|
        ensures FilledVerify(arms[i], item, SubstituteVerify(arms[i], item))
      {
        VerifyFilled(arms[i], item);
      }
  }

  lemma ChildIsFilled(n: Node, id: Id, item: string, fans: Fans)
    ensures IsChild(n, item, Child(n, id, item).prompt, Rewired(Child(n, id, item), fans))
    ensures Rewired(Child(n, id, item), fans).id == id
    ensures Rewired(Child(n, id, item), fans).prompt == TemplateExpand.ExpandRefs(Child(n, id, item).prompt, fans)
  {
    hide Filled, Substitute, FilledModels, SubstituteModels, FilledVerify, SubstituteVerify, RefList, AddMissing, TemplateExpand.ExpandRefs;
    SubstituteFills(n.prompt, item, Substitute(n.prompt, item));
    ModelsFilled(n.models, item);
    if n.gate.Some? {
      SubstituteFills(n.gate.value, item, Substitute(n.gate.value, item));
    }
    if n.verify.Some? {
      VerifyFilled(n.verify.value, item);
    }
  }

  // ----- The expanded graph

  function Width(n: Node): nat {
    match n.forEach
    case None => 1
    case Some(items) => |items|
  }

  /** Where what the `k`th node expands into begins. */
  function Offset(nodes: seq<Node>, k: nat): nat
    requires k <= |nodes|
  {
    if k == 0 then 0 else Offset(nodes, k - 1) + Width(nodes[k - 1])
  }

  lemma {:induction false} FanLength(nodes: seq<Node>)
    ensures |FanAll(nodes)| == Offset(nodes, |nodes|)
  {
    hide Child, FanIds;
    if nodes != [] {
      var front := nodes[..|nodes| - 1];
      FanLength(front);
      SameOffset(nodes, front, |front|);
    }
  }

  lemma {:induction false} FanPrefix(nodes: seq<Node>, k: nat)
    requires k <= |nodes|
    ensures FanAll(nodes[..k]) <= FanAll(nodes)
    decreases |nodes|
  {
    hide Fan;
    if k < |nodes| {
      FanPrefix(nodes[..|nodes| - 1], k);
      assert nodes[..|nodes| - 1][..k] == nodes[..k];
    } else {
      assert nodes[..k] == nodes;
    }
  }

  lemma FanPlaces(nodes: seq<Node>, k: nat)
    requires k < |nodes|
    ensures |FanAll(nodes)| == Offset(nodes, |nodes|) && Offset(nodes, k) + Width(nodes[k]) <= |FanAll(nodes)|
    ensures |Fan(nodes[k])| == Width(nodes[k])
    ensures forall i | 0 <= i < Width(nodes[k]) :: FanAll(nodes)[Offset(nodes, k) + i] == Fan(nodes[k])[i]
  {
    hide FanAll, FansOf, Offset, Fan, FanIds, Width;
    FanLength(nodes);
    FanWidth(nodes[k]);
    var before := FanAll(nodes[..k]);
    FanLength(nodes[..k]);
    SameOffset(nodes, nodes[..k], k);
    assert |before| == Offset(nodes, k);
    FanSnoc(nodes, k);
    FanPrefix(nodes, k + 1);
    assert before + Fan(nodes[k]) <= FanAll(nodes);
    Within(before, Fan(nodes[k]), FanAll(nodes));
  }

  lemma FanWidth(n: Node)
    ensures |Fan(n)| == Width(n)
  {
  }

  lemma Within(a: seq<Node>, b: seq<Node>, all: seq<Node>)
    requires a + b <= all
    ensures forall i | 0 <= i < |b| :: all[|a| + i] == b[i]
  {
    forall i | 0 <= i < |b|
      ensures all[|a| + i] == b[i]
    {
      assert (a + b)[|a| + i] == b[i];
    }
  }

  lemma {:induction false} SameOffset(nodes: seq<Node>, front: seq<Node>, k: nat)
    requires front <= nodes && k <= |front|
    ensures Offset(nodes, k) == Offset(front, k)
  {
    if k > 0 {
      SameOffset(nodes, front, k - 1);
    }
  }

  ghost predicate ChildAtPlace(nodes: seq<Node>, n: Node, item: string, m: Node) {
    exists prompt :: IsChild(n, item, prompt, m) && m.prompt == TemplateExpand.ExpandRefs(prompt, FansOf(nodes))
  }

  lemma ExpandedAt(nodes: seq<Node>, k: nat, i: nat)
    requires k < |nodes| && i < Width(nodes[k])
    ensures Offset(nodes, k) + i < |Expanded(nodes)|
    ensures |Fan(nodes[k])| == Width(nodes[k]) && Expanded(nodes)[Offset(nodes, k) + i] == Rewired(Fan(nodes[k])[i], FansOf(nodes))
  {
    hide Fan, FanAll, FansOf, Rewired, Offset, Width;
    FanPlaces(nodes, k);
  }

  /** A node that is no fan-out stays in its place, its references rewritten. */
  lemma PlainPlace(nodes: seq<Node>, k: nat)
    requires k < |nodes| && nodes[k].forEach.None?
    ensures var n, at := nodes[k], Offset(nodes, k);
      && at < |Expanded(nodes)|
      && var m := Expanded(nodes)[at];
        && m.prompt == TemplateExpand.ExpandRefs(n.prompt, FansOf(nodes))
        && m == n.(prompt := m.prompt, dependsOn := m.dependsOn, after := m.after, quorum := m.quorum)
  {
    hide FanAll, FansOf, RefList, AddMissing, TemplateExpand.ExpandRefs, Expanded, Offset;
    ExpandedAt(nodes, k, 0);
  }

  /**
   In the expanded graph a fan-out is replaced, in its place, by its children in item order: the child for an item
   has the next child id and is the parent with the item filled in, but for the rewritten references.
   */
  lemma ChildPlace(nodes: seq<Node>, k: nat, i: nat)
    requires k < |nodes| && nodes[k].forEach.Some? && i < |nodes[k].forEach.value|
    ensures var n, at := nodes[k], Offset(nodes, k) + i;
      && at < |Expanded(nodes)|
      && Expanded(nodes)[at].id == ChildIds(n.id, n.forEach.value)[i]
      && ChildAtPlace(nodes, n, n.forEach.value[i], Expanded(nodes)[at])
  {
    hide Child, FanAll, FansOf, Rewired, TemplateExpand.ExpandRefs, ChildIds, IsChild, Expanded, Offset;
    ExpandedAt(nodes, k, i);
    var n := nodes[k];
    ChildIsFilled(n, FanIds(n)[i], n.forEach.value[i], FansOf(nodes));
  }

  /** Nothing else is in it. */
  lemma ExpandedLength(nodes: seq<Node>)
    ensures |Expanded(nodes)| == Offset(nodes, |nodes|)
  {
    hide FanAll, FansOf, Rewired, Offset;
    FanLength(nodes);
  }
}
