/** Strings as the source uses them: substring search and decimal numerals. */
module Text {
  import opened Wrappers

  predicate OccursAt(s: string, pat: string, j: nat) {
    j + |pat| <= |s| && s[j..j + |pat|] == pat
  }

  /** `str::find`: the least position at which `pat` occurs. */
  function Find(s: string, pat: string): (r: Option<nat>)
    ensures r.Some? ==> OccursAt(s, pat, r.value) && forall j: nat | j < r.value :: !OccursAt(s, pat, j)
    ensures r.None? ==> forall j: nat :: !OccursAt(s, pat, j)
  {
    if OccursAt(s, pat, 0) then
      Some(0)
    else if s == [] then
      None
    else
      assert forall j: nat | j > 0 :: OccursAt(s, pat, j) == OccursAt(s[1..], pat, j - 1) by {
        forall j: nat | j > 0
          ensures OccursAt(s, pat, j) == OccursAt(s[1..], pat, j - 1)
        {
          if j + |pat| <= |s| {
            assert s[1..][j - 1..j - 1 + |pat|] == s[j..j + |pat|];
          }
        }
      }
      match Find(s[1..], pat)
      case None => None
      case Some(k) => Some(k + 1)
  }

  /** The least occurrence is determined by its defining property. */
  lemma FindIs(s: string, pat: string, k: nat)
    requires OccursAt(s, pat, k)
    requires forall j: nat | j < k :: !OccursAt(s, pat, j)
    ensures Find(s, pat) == Some(k)
  {
    var r := Find(s, pat);
    assert r.Some?;
    assert r.value == k;
  }

  predicate Contains(s: string, pat: string) {
    Find(s, pat).Some?
  }

  /** `str::split`: the pieces between separators; `piece` is the one begun so far. */
  function Fields(s: string, separates: char -> bool, piece: string): seq<string>
    decreases s
  {
    if s == "" then [piece]
    else if separates(s[0]) then [piece] + Fields(s[1..], separates, "")
    else Fields(s[1..], separates, piece + [s[0]])
  }

  lemma {:induction false} FieldsAreClear(s: string, separates: char -> bool, piece: string)
    requires forall c | c in piece :: !separates(c)
    ensures forall f, c | f in Fields(s, separates, piece) && c in f :: !separates(c)
    decreases s
  {
    if s != "" {
      FieldsAreClear(s[1..], separates, if separates(s[0]) then "" else piece + [s[0]]);
    }
  }

  /** Without a separator there is one piece. */
  lemma {:induction false} OneField(s: string, separates: char -> bool, piece: string)
    requires forall c | c in s :: !separates(c)
    ensures Fields(s, separates, piece) == [piece + s]
    decreases s
  {
    if s == "" {
      assert piece + s == piece;
    } else {
      assert s[0] in s;
      OneField(s[1..], separates, piece + [s[0]]);
      assert piece + [s[0]] + s[1..] == piece + s;
    }
  }

  /** The first separator ends the first piece. */
  lemma {:induction false} FieldsBehind(a: string, c: char, b: string, separates: char -> bool, piece: string)
    requires separates(c) && forall x | x in a :: !separates(x)
    ensures Fields(a + [c] + b, separates, piece) == [piece + a] + Fields(b, separates, "")
    decreases a
  {
    var s := a + [c] + b;
    if a == "" {
      assert s[0] == c && s[1..] == b && piece + a == piece;
    } else {
      assert s[0] == a[0] && a[0] in a && s[1..] == a[1..] + [c] + b;
      FieldsBehind(a[1..], c, b, separates, piece + [a[0]]);
      assert piece + [a[0]] + a[1..] == piece + a;
    }
  }

  /** A run of characters that do not separate, which nothing extends. */
  ghost predicate RunAt(s: string, w: string, i: nat, separates: char -> bool) {
    && w != "" && OccursAt(s, w, i) && (forall c | c in w :: !separates(c))
    && (i == 0 || separates(s[i - 1])) && (i + |w| == |s| || separates(s[i + |w|]))
  }

  ghost predicate RunFrom(s: string, w: string, b: nat, separates: char -> bool) {
    exists i: nat :: b <= i && RunAt(s, w, i, separates)
  }

  /** From `b` to `i` there is no separator, and nothing else before `b`. */
  ghost predicate Begun(s: string, b: nat, i: nat, separates: char -> bool) {
    b <= i <= |s| && (b == 0 || separates(s[b - 1])) && forall k | b <= k < i :: !separates(s[k])
  }

  /** A run that begins in a piece that ends at `i` is the piece. */
  lemma RunOfPiece(s: string, w: string, b: nat, i: nat, j: nat, separates: char -> bool)
    requires Begun(s, b, i, separates) && (i == |s| || separates(s[i])) && b <= j <= i
    ensures RunAt(s, w, j, separates) <==> j == b && w == s[b..i] && w != ""
  {
    if RunAt(s, w, j, separates) {
      assert forall k | 0 <= k < |w| :: s[j + k] == s[j..j + |w|][k] == w[k] && w[k] in w;
      assert s[j + 0] == w[0];
      assert j == b;
    }
    if j == b && w == s[b..i] && w != "" {
      assert OccursAt(s, w, j);
    }
  }

  lemma {:induction false} FieldsAreRuns(s: string, w: string, b: nat, i: nat, separates: char -> bool)
    requires Begun(s, b, i, separates) && w != ""
    ensures w in Fields(s[i..], separates, s[b..i]) <==> RunFrom(s, w, b, separates)
    decreases |s| - i
  {
    hide RunAt;
    if i == |s| {
      forall j: nat | b <= j
        ensures RunAt(s, w, j, separates) <==> j == b && w == s[b..i]
      {
        RunFits(s, w, j, separates);
        if j <= i {
          RunOfPiece(s, w, b, i, j, separates);
        }
      }
      assert s[i..] == "";
      if w == s[b..i] {
        assert RunAt(s, w, b, separates);
      }
    } else if !separates(s[i]) {
      assert s[i..][0] == s[i] && s[i..][1..] == s[i + 1..] && s[b..i] + [s[i]] == s[b..i + 1];
      FieldsAreRuns(s, w, b, i + 1, separates);
    } else {
      assert s[i..][0] == s[i] && s[i..][1..] == s[i + 1..] && s[i + 1..i + 1] == "";
      FieldsAreRuns(s, w, i + 1, i + 1, separates);
      forall j: nat | b <= j <= i
        ensures RunAt(s, w, j, separates) <==> j == b && w == s[b..i]
      {
        RunOfPiece(s, w, b, i, j, separates);
      }
      if RunFrom(s, w, i + 1, separates) {
        var j: nat :| i + 1 <= j && RunAt(s, w, j, separates);
        assert RunFrom(s, w, b, separates);
      }
      if w == s[b..i] {
        assert RunAt(s, w, b, separates);
      }
    }
  }

  lemma RunFits(s: string, w: string, j: nat, separates: char -> bool)
    ensures RunAt(s, w, j, separates) ==> j < |s|
  {
  }

  /** The pieces that are not empty are exactly the runs. */
  lemma FieldIff(s: string, w: string, separates: char -> bool)
    requires w != ""
    ensures w in Fields(s, separates, "") <==> exists i: nat :: RunAt(s, w, i, separates)
  {
    hide RunAt;
    assert s[0..] == s && s[0..0] == "";
    FieldsAreRuns(s, w, 0, 0, separates);
    if i: nat :| RunAt(s, w, i, separates) {
      assert RunFrom(s, w, 0, separates);
    }
  }

  const DIGITS: string := "0123456789"

  /** Decimal numeral without leading zeros. */
  function Decimal(n: nat): (r: string)
    ensures |r| > 0
    ensures forall c | c in r :: '0' <= c <= '9'
  {
    if n < 10 then [DIGITS[n]] else Decimal(n / 10) + [DIGITS[n % 10]]
  }

  lemma {:induction false} DecimalInjective(m: nat, n: nat)
    requires Decimal(m) == Decimal(n)
    ensures m == n
  {
    var a, b := Decimal(m), Decimal(n);
    assert (|a| > 1 <==> m >= 10) && (|b| > 1 <==> n >= 10);
    assert a[|a| - 1] == DIGITS[m % 10] && b[|b| - 1] == DIGITS[n % 10];
    DigitsDiffer(m % 10, n % 10);
    if m >= 10 {
      assert a[..|a| - 1] == Decimal(m / 10) && b[..|b| - 1] == Decimal(n / 10);
      DecimalInjective(m / 10, n / 10);
    }
  }

  lemma DigitsDiffer(i: nat, j: nat)
    requires i < 10 && j < 10 && DIGITS[i] == DIGITS[j]
    ensures i == j
  {
  }

  /** `str::replace`: every occurrence, from the left and without overlap. */
  function Replace(s: string, pat: string, text: string): string
    requires pat != ""
  {
    match Find(s, pat)
    case None => s
    case Some(k) => s[..k] + text + Replace(s[k + |pat|..], pat, text)
  }
}
