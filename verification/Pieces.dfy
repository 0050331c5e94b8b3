/** Text described by its pieces: plain text, a filling, plain text, and so on. */
module Pieces {
  import opened Text

  /** One piece more than fillings. */
  function Woven(pieces: seq<string>, fillings: seq<string>): string
    requires |pieces| == |fillings| + 1
    decreases fillings
  {
    if fillings == [] then pieces[0] else pieces[0] + fillings[0] + Woven(pieces[1..], fillings[1..])
  }

  predicate Lacks(s: string, c: char) {
    c !in s
  }

  lemma LacksPair(s: string, c: char)
    ensures Lacks(s, c) ==> Find(s, [c, c]).None?
  {
    var r := Find(s, [c, c]);
    if r.Some? {
      assert s[r.value] == s[r.value..r.value + 2][0];
    }
  }

  /** One filling. */
  lemma WovenOnce(pre: string, filling: string, post: string)
    ensures Woven([pre, post], [filling]) == pre + filling + post
  {
    assert [pre, post][1..] == [post] && [filling][1..] == [];
  }
}
