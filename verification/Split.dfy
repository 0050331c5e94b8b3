/** Splitting a spec into parts, and reading the parts' exit criteria back. */
module Split {
  import opened Wrappers
  import opened Text
  import opened Verdict
  import opened Markdown

  const HEADING: Line := "## Exit Criteria"
  const BOX: string := "- [ ]"

  // ----- Criteria

  /** The criterion in a line, if it holds one. */
  function CriterionOf(l: Line): Option<string> {
    var trimmed := Trim(l);
    if BOX <= trimmed && Trim(trimmed[|BOX|..]) != "" then Some(Trim(trimmed[|BOX|..])) else None
  }

  function CriteriaIn(lines: seq<Line>): seq<string> {
    if lines == [] then []
    else
      CriteriaIn(lines[..|lines| - 1]) + (match CriterionOf(lines[|lines| - 1]) case None => [] case Some(c) => [c])
  }

  datatype ParseError = NoSection | NoCriteria | NoParts | TooManyParts

  predicate Mentions(doc: seq<Line>, text: string) {
    exists i :: 0 <= i < |doc| && Contains(doc[i], text)
  }

  function Parsed(doc: seq<Line>): Result<seq<string>, ParseError> {
    if !Mentions(doc, HEADING) then Err(NoSection)
    else
      var criteria := CriteriaIn(TrimLines(Section(doc, HEADING)));
      if criteria == [] then Err(NoCriteria) else Ok(criteria)
  }

  method ParseExitCriteria(doc: seq<Line>) returns (r: Result<seq<string>, ParseError>)
    ensures r == Parsed(doc)
  {
    hide Section, TrimLines;
    if !Mentions(doc, HEADING) {
      return Err(NoSection);
    }
    var lines := ExtractSection(doc, HEADING);
    var criteria := [];
    for i := 0 to |lines|
      invariant criteria == CriteriaIn(lines[..i])
    {
      assert lines[..i + 1][..i] == lines[..i];
      var trimmed := Trim(lines[i]);
      if BOX <= trimmed {
        var text := Trim(trimmed[|BOX|..]);
        if text != "" {
          criteria := criteria + [text];
        }
      }
    }
    assert lines[..|lines|] == lines;
    r := if criteria == [] then Err(NoCriteria) else Ok(criteria);
  }

  // ----- Parts

  const TARGET_MAX: nat := 7
  const TARGET_AVG: nat := 6

  function AutoDetermineSplitCount(total: nat): (n: nat)
    ensures n >= 1
  {
    if total <= TARGET_MAX then 1 else (total + TARGET_AVG - 1) / TARGET_AVG
  }

  /** Where part `p` of `n` begins: the first parts take one more while the remainder lasts. */
  function PartStart(total: nat, n: nat, p: nat): nat
    requires n > 0
  {
    p * (total / n) + if p < total % n then p else total % n
  }

  function PartSize(total: nat, n: nat, p: nat): nat
    requires n > 0
  {
    total / n + if p < total % n then 1 else 0
  }

  lemma PartsMeet(total: nat, n: nat, p: nat)
    requires n > 0
    ensures PartStart(total, n, p + 1) == PartStart(total, n, p) + PartSize(total, n, p)
    ensures PartStart(total, n, 0) == 0
  {
    Stepped(p, total / n);
  }

  lemma Stepped(p: nat, q: nat)
    ensures (p + 1) * q == p * q + q && 0 * q == 0
  {
  }

  lemma LastPartEnds(total: nat, n: nat)
    requires n > 0
    ensures PartStart(total, n, n) == total
  {
    DivMod(total, n);
  }

  lemma DivMod(total: nat, n: nat)
    requires n > 0
    ensures n * (total / n) + total % n == total && total % n < n
  {
  }

  lemma {:induction false} PartsGrow(total: nat, n: nat, p: nat, q: nat)
    requires n > 0 && p <= q
    ensures PartStart(total, n, p) <= PartStart(total, n, q)
    decreases q
  {
    if p < q {
      PartsGrow(total, n, p, q - 1);
      PartsMeet(total, n, q - 1);
    }
  }

  function Range(from: nat, n: nat): seq<nat> {
    seq(n, (i: nat) => from + i)
  }

  /** The indices of part `p`: a contiguous range. */
  function PartOf(total: nat, n: nat, p: nat): seq<nat>
    requires n > 0
  {
    Range(PartStart(total, n, p), PartSize(total, n, p))
  }

  function PartsOf(total: nat, n: nat): seq<seq<nat>>
    requires n > 0
  {
    seq(n, p requires 0 <= p < n => PartOf(total, n, p))
  }

  function Indices(n: nat): seq<nat> {
    Range(0, n)
  }

  method SplitIntoNPartsOrdered(total: nat, n: nat) returns (r: Result<seq<seq<nat>>, ParseError>)
    ensures r.Ok? <==> 0 < n <= total
    ensures r.Ok? ==> r.value == PartsOf(total, n)
  {
    hide PartsOf, PartOf, PartStart, PartSize;
    if n == 0 {
      return Err(NoParts);
    }
    if n > total {
      return Err(TooManyParts);
    }
    if n == 1 {
      OnePart(total);
      return Ok([Indices(total)]);
    }
    var base, remainder := total / n, total % n;
    var parts: seq<seq<nat>> := [];
    var offset := 0;
    PartsMeet(total, n, 0);
    for p := 0 to n
      invariant offset == PartStart(total, n, p) && |parts| == p
      invariant forall q | 0 <= q < p :: parts[q] == PartOf(total, n, q)
    {
      var chunk := base + if p < remainder then 1 else 0;
      PartsMeet(total, n, p);
      SizeIs(total, n, p);
      PartIs(total, n, p);
      parts := parts + [Range(offset, chunk)];
      offset := offset + chunk;
    }
    PartsAre(total, n, parts);
    r := Ok(parts);
  }

  lemma SizeIs(total: nat, n: nat, p: nat)
    requires n > 0
    ensures PartSize(total, n, p) == total / n + if p < total % n then 1 else 0
  {
  }

  lemma PartIs(total: nat, n: nat, p: nat)
    requires n > 0
    ensures PartOf(total, n, p) == Range(PartStart(total, n, p), PartSize(total, n, p))
  {
  }

  lemma PartsAre(total: nat, n: nat, parts: seq<seq<nat>>)
    requires n > 0 && |parts| == n && forall q | 0 <= q < n :: parts[q] == PartOf(total, n, q)
    ensures parts == PartsOf(total, n)
  {
  }

  lemma OnePart(total: nat)
    ensures [Indices(total)] == PartsOf(total, 1)
  {
    assert total / 1 == total && total % 1 == 0;
    assert PartOf(total, 1, 0) == Indices(total);
  }

  function Flat<T>(parts: seq<seq<T>>): seq<T> {
    if parts == [] then [] else Flat(parts[..|parts| - 1]) + parts[|parts| - 1]
  }

  lemma {:induction false} FlatParts(total: nat, n: nat, p: nat)
    requires n > 0 && p <= n
    ensures Flat(PartsOf(total, n)[..p]) == Indices(PartStart(total, n, p))
  {
    hide PartStart, PartSize;
    PartsMeet(total, n, 0);
    if p > 0 {
      FlatParts(total, n, p - 1);
      PartsMeet(total, n, p - 1);
      assert PartsOf(total, n)[..p][..p - 1] == PartsOf(total, n)[..p - 1];
      assert PartsOf(total, n)[..p][p - 1] == PartOf(total, n, p - 1);
    }
  }

  /** The parts are the criteria in order, each once, none of them empty, and of sizes that differ by one at most. */
  lemma PartsCover(total: nat, n: nat)
    requires 0 < n <= total
    ensures Flat(PartsOf(total, n)) == Indices(total)
    ensures forall p | 0 <= p < n :: |PartsOf(total, n)[p]| > 0
    ensures forall p, q | 0 <= p < n && 0 <= q < n :: |PartsOf(total, n)[p]| <= |PartsOf(total, n)[q]| + 1
  {
    FlatParts(total, n, n);
    LastPartEnds(total, n);
    assert PartsOf(total, n)[..n] == PartsOf(total, n);
    AtLeastOne(total, n);
  }

  lemma AtLeastOne(total: nat, n: nat)
    requires 0 < n <= total
    ensures total / n >= 1
  {
  }

  /** When a spec is split automatically, every part has 4 to 6 criteria. */
  lemma AutoSplitSizes(total: nat, p: nat)
    requires total > TARGET_MAX && p < AutoDetermineSplitCount(total)
    ensures AutoDetermineSplitCount(total) <= total
    ensures 4 <= |PartOf(total, AutoDetermineSplitCount(total), p)| <= 6
  {
    var n := AutoDetermineSplitCount(total);
    assert 6 * (n - 1) < total <= 6 * n && n >= 2;
    DivMod(total, n);
    Quotient(total, n);
  }

  lemma Quotient(total: nat, n: nat)
    requires n >= 2 && 6 * (n - 1) < total <= 6 * n && total >= 8
    ensures 4 <= total / n && total / n + (if total % n > 0 then 1 else 0) <= 6
  {
    var q := total / n;
    DivMod(total, n);
    if q < 4 {
      Bounded(n, q, 3);
    }
    if q >= 6 {
      Bounded(n, 6, q);
    }
  }

  lemma Bounded(n: nat, a: nat, b: nat)
    requires a <= b
    ensures n * a <= n * b
  {
  }
}
