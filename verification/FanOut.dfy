/** The ids of a fan-out's children. */
module FanOut {
  import opened Text
  import opened Dag
  import opened Graph
  import TemplateExpand

  function SlugChar(c: char): char {
    if 'A' <= c <= 'Z' then c - 'A' + 'a'
    else if 'a' <= c <= 'z' || '0' <= c <= '9' then c
    else '-'
  }

  function Slugify(s: string): string {
    seq(|s|, i requires 0 <= i < |s| => SlugChar(s[i]))
  }

  function Numbered(base: Id, idx: nat): Id {
    base + "-" + Decimal(idx)
  }

  function Candidate(base: Id, item: string, idx: nat): Id {
    if Slugify(item) == "" then Numbered(base, idx) else base + "-" + Slugify(item)
  }

  /** The slug, unless it is empty or taken; the index is not looked up. */
  function ChildId(base: Id, item: string, idx: nat, used: seq<Id>): Id {
    if Candidate(base, item, idx) in used then Numbered(base, idx) else Candidate(base, item, idx)
  }

  function ChildIds(base: Id, items: seq<string>): (r: seq<Id>)
    ensures |r| == |items|
  {
    if items == [] then []
    else
      var last := |items| - 1;
      var used := ChildIds(base, items[..last]);
      used + [ChildId(base, items[last], last, used)]
  }

  lemma NoChildIds(base: Id)
    ensures ChildIds(base, []) == []
  {
  }

  lemma ChildIdsSnoc(base: Id, items: seq<string>, i: nat)
    requires i < |items|
    ensures ChildIds(base, items[..i + 1]) == ChildIds(base, items[..i]) + [ChildId(base, items[i], i, ChildIds(base, items[..i]))]
  {
    hide ChildId;
    assert items[..i + 1][..i] == items[..i];
  }

  // ----- Slugs

  predicate IsUpper(c: char) {
    'A' <= c <= 'Z'
  }

  predicate IsLetterOrDigit(c: char) {
    IsUpper(c) || 'a' <= c <= 'z' || '0' <= c <= '9'
  }

  /** One letter in two cases, one character twice, or two that are neither letter nor digit. */
  predicate Alike(c: char, d: char) {
    || c == d
    || (IsUpper(c) && d as int == c as int + 32) || (IsUpper(d) && c as int == d as int + 32)
    || (!IsLetterOrDigit(c) && !IsLetterOrDigit(d))
  }

  /** Two items have one slug if and only if they differ in case, and in what is neither letter nor digit, only. */
  lemma SameSlugIff(s: string, t: string)
    ensures Slugify(s) == Slugify(t) <==> |s| == |t| && forall i | 0 <= i < |s| :: Alike(s[i], t[i])
  {
    if |s| == |t| {
      forall i | 0 <= i < |s|
        ensures Slugify(s)[i] == Slugify(t)[i] <==> Alike(s[i], t[i])
      {
        SlugCharAlike(s[i], t[i]);
      }
    }
  }

  lemma SlugCharAlike(c: char, d: char)
    ensures SlugChar(c) == SlugChar(d) <==> Alike(c, d)
  {
  }

  /** A text is its own slug exactly if it is made of small letters, digits and dashes. */
  lemma OwnSlugIff(s: string)
    ensures Slugify(Slugify(s)) == Slugify(s)
    ensures Slugify(s) == s <==> forall i | 0 <= i < |s| :: s[i] == '-' || (IsLetterOrDigit(s[i]) && !IsUpper(s[i]))
  {
  }

  // ----- Shape

  lemma SlugIsPlain(item: string, idx: nat)
    ensures forall c | c in Slugify(item) :: c != '.' && c != '}'
    ensures forall c | c in Decimal(idx) :: c != '.' && c != '}'
  {
  }

  lemma Dashed(base: Id, rest: string)
    requires rest != "" && forall c | c in rest :: c != '.' && c != '}'
    ensures TemplateExpand.IsChildId(base + "-" + rest, base)
  {
    var id := base + "-" + rest;
    forall i | |base| <= i < |id|
      ensures id[i] != '.' && id[i] != '}'
    {
      if i > |base| {
        assert id[i] == rest[i - |base| - 1];
        assert rest[i - |base| - 1] in rest;
      }
    }
  }

  /** Every child is named after its parent. */
  lemma {:induction false} ChildrenAreNamed(base: Id, items: seq<string>)
    ensures forall c | c in ChildIds(base, items) :: TemplateExpand.IsChildId(c, base)
  {
    if items != [] {
      var last := |items| - 1;
      ChildrenAreNamed(base, items[..last]);
      SlugIsPlain(items[last], last);
      Dashed(base, Decimal(last));
      if Slugify(items[last]) != "" {
        Dashed(base, Slugify(items[last]));
      }
    }
  }

  // ----- Distinctness

  lemma DashCancels(base: Id, a: string, b: string)
    requires base + "-" + a == base + "-" + b
    ensures a == b
  {
    assert (base + "-" + a)[|base| + 1..] == a;
    assert (base + "-" + b)[|base| + 1..] == b;
  }

  lemma PrefixOfChildren(base: Id, items: seq<string>, i: nat)
    requires i <= |items|
    ensures ChildIds(base, items)[..i] == ChildIds(base, items[..i])
    decreases |items|
  {
    if i < |items| {
      var last := |items| - 1;
      PrefixOfChildren(base, items[..last], i);
      assert items[..last][..i] == items[..i];
    } else {
      assert items[..i] == items;
    }
  }

  lemma ChildAt(base: Id, items: seq<string>, i: nat)
    requires i < |items|
    ensures ChildIds(base, items)[i] == ChildId(base, items[i], i, ChildIds(base, items[..i]))
  {
    hide ChildId;
    PrefixOfChildren(base, items, i + 1);
    assert items[..i + 1][..i] == items[..i];
  }

  lemma SomeSlug(items: seq<string>, idx: nat)
    requires items != []
    ensures var last := |items| - 1;
      (exists j :: 0 <= j < |items| && Slugify(items[j]) == Decimal(idx))
        <==> (exists j :: 0 <= j < last && Slugify(items[..last][j]) == Decimal(idx)) || Slugify(items[last]) == Decimal(idx)
  {
    hide Slugify, Decimal;
    var front := items[..|items| - 1];
    assert forall j | 0 <= j < |front| :: front[j] == items[j];
  }

  /** The numbered form of `idx` is taken exactly when an earlier slug is that numeral. */
  lemma {:induction false} NumberedTaken(base: Id, items: seq<string>, idx: nat)
    requires |items| <= idx
    ensures Numbered(base, idx) in ChildIds(base, items) <==> exists j :: 0 <= j < |items| && Slugify(items[j]) == Decimal(idx)
  {
    hide Slugify, Numbered, ChildId, Decimal;
    if items != [] {
      var last := |items| - 1;
      var front := items[..last];
      NumberedTaken(base, front, idx);
      NewestId(base, items[last], last, ChildIds(base, front), idx);
      assert ChildIds(base, items) == ChildIds(base, front) + [ChildId(base, items[last], last, ChildIds(base, front))];
      SomeSlug(items, idx);
    }
  }

  lemma NewestId(base: Id, item: string, idx: nat, used: seq<Id>, other: nat)
    requires idx != other
    ensures Numbered(base, other) in used + [ChildId(base, item, idx, used)] <==> Numbered(base, other) in used || Slugify(item) == Decimal(other)
  {
    if Numbered(base, idx) == Numbered(base, other) {
      DashCancels(base, Decimal(idx), Decimal(other));
      DecimalInjective(idx, other);
    }
    SlugCandidate(base, item, idx, other);
  }

  lemma SlugCandidate(base: Id, item: string, idx: nat, other: nat)
    requires idx != other
    ensures Candidate(base, item, idx) == Numbered(base, other) <==> Slugify(item) == Decimal(other)
  {
    if Candidate(base, item, idx) == Numbered(base, other) {
      if Slugify(item) == "" {
        DashCancels(base, Decimal(idx), Decimal(other));
        DecimalInjective(idx, other);
      } else {
        DashCancels(base, Slugify(item), Decimal(other));
      }
    }
  }

  /** Item `i` gets its index for an id: its slug is empty, or its candidate is taken. */
  predicate FallsBack(base: Id, items: seq<string>, i: nat)
    requires i < |items|
  {
    Slugify(items[i]) == "" || Candidate(base, items[i], i) in ChildIds(base, items[..i])
  }

  predicate NumeralBefore(items: seq<string>, i: nat)
    requires i <= |items|
  {
    exists j :: 0 <= j < i && Slugify(items[j]) == Decimal(i)
  }

  /** No child that falls back to its index finds that index spelled by an earlier slug. */
  ghost predicate NoClash(base: Id, items: seq<string>) {
    forall i | 0 <= i < |items| :: FallsBack(base, items, i) ==> !NumeralBefore(items, i)
  }

  lemma NewChild(base: Id, items: seq<string>, i: nat)
    requires i < |items|
    ensures ChildIds(base, items)[i] in ChildIds(base, items[..i]) <==> FallsBack(base, items, i) && NumeralBefore(items, i)
  {
    ChildAt(base, items, i);
    NumberedTaken(base, items[..i], i);
    assert forall j | 0 <= j < i :: items[..i][j] == items[j];
  }

  lemma DistinctIsNew(ids: seq<Id>)
    ensures Distinct(ids) <==> forall i | 0 <= i < |ids| :: ids[i] !in ids[..i]
  {
    if !Distinct(ids) {
      var i, j :| 0 <= i < j < |ids| && ids[i] == ids[j];
      assert ids[j] == ids[..j][i];
    }
  }

  /** The children of one fan-out have distinct ids if and only if nothing clashes. */
  lemma DistinctIffNoClash(base: Id, items: seq<string>)
    ensures Distinct(ChildIds(base, items)) <==> NoClash(base, items)
  {
    hide FallsBack, NumeralBefore, ChildIds, Distinct;
    var ids := ChildIds(base, items);
    DistinctIsNew(ids);
    forall i | 0 <= i < |items|
      ensures ids[i] in ids[..i] <==> FallsBack(base, items, i) && NumeralBefore(items, i)
    {
      NewChild(base, items, i);
      PrefixOfChildren(base, items, i);
    }
  }

  /** In particular when no slug is the numeral of an index. */
  lemma NoNumeralsNoClash(base: Id, items: seq<string>)
    requires forall i, j | 0 <= j < i < |items| :: Slugify(items[j]) != Decimal(i)
    ensures Distinct(ChildIds(base, items))
  {
    DistinctIffNoClash(base, items);
  }

  /** An input that clashes: the first slug is the index of the second item, which has none. */
  lemma ClashingItems(base: Id)
    ensures ChildIds(base, ["1", ""]) == [base + "-1", base + "-1"]
    ensures !NoClash(base, ["1", ""]) && !Distinct(ChildIds(base, ["1", ""]))
  {
    var items, one := ["1", ""], base + "-1";
    assert Slugify("1") == "1" && Slugify("") == "";
    assert items[..1] == ["1"] && ["1"][..0] == [];
    assert Decimal(1) == "1" && base + "-" + "1" == one;
    assert ChildIds(base, ["1"]) == [ChildId(base, "1", 0, [])] == [one];
    assert ChildIds(base, items) == ChildIds(base, ["1"]) + [ChildId(base, "", 1, ChildIds(base, ["1"]))];
    assert ChildIds(base, items)[0] == ChildIds(base, items)[1];
    DistinctIffNoClash(base, items);
  }
}
