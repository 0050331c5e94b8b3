/** The order of the tables' keys, and what the key layout makes of it. */
module KeyOrder {
  import opened Text

  /** Lexicographic order, by code point. */
  predicate Less(a: string, b: string) {
    b != "" && (a == "" || a[0] < b[0] || (a[0] == b[0] && Less(a[1..], b[1..])))
  }

  lemma {:induction false} LessIrreflexive(a: string)
    ensures !Less(a, a)
  {
    if a != "" {
      LessIrreflexive(a[1..]);
    }
  }

  lemma {:induction false} LessTotal(a: string, b: string)
    ensures Less(a, b) || a == b || Less(b, a)
  {
    if a != "" && b != "" && a[0] == b[0] {
      LessTotal(a[1..], b[1..]);
      assert a == [a[0]] + a[1..] && b == [b[0]] + b[1..];
    }
  }

  lemma {:induction false} LessTransitive(a: string, b: string, c: string)
    requires Less(a, b) && Less(b, c)
    ensures Less(a, c)
  {
    if a != "" && a[0] == b[0] == c[0] {
      LessTransitive(a[1..], b[1..], c[1..]);
    }
  }

  /** A common prefix does not matter. */
  lemma {:induction false} LessBehind(p: string, a: string, b: string)
    ensures Less(p + a, p + b) <==> Less(a, b)
  {
    if p == "" {
      assert p + a == a && p + b == b;
    } else {
      assert (p + a)[1..] == p[1..] + a && (p + b)[1..] == p[1..] + b;
      LessBehind(p[1..], a, b);
    }
  }

  const NUL: string := "\U{0000}"
  const ONE: string := "\U{0001}"

  /** Between `p` with a NUL and `p` with the next character lie exactly the keys that continue `p` with a NUL. */
  lemma {:induction false} PrefixRange(p: string, k: string)
    ensures !Less(k, p + NUL) && Less(k, p + ONE) <==> p + NUL <= k
  {
    if p == "" {
      assert p + NUL == NUL && p + ONE == ONE;
      assert NUL <= k <==> k != "" && k[0] == NUL[0];
    } else if k != "" && k[0] == p[0] {
      PrefixRange(p[1..], k[1..]);
      assert (p + NUL)[1..] == p[1..] + NUL && (p + ONE)[1..] == p[1..] + ONE;
      assert p + NUL <= k <==> p[1..] + NUL <= k[1..];
    }
  }

  // ----- Sorted enumerations

  ghost predicate Increasing(s: seq<string>) {
    forall i, j | 0 <= i < j < |s| :: Less(s[i], s[j])
  }

  ghost predicate SortedScan(s: seq<string>, keys: set<string>) {
    Increasing(s) && forall k :: k in s <==> k in keys
  }

  lemma {:induction false} LeastExists(keys: set<string>)
    requires keys != {}
    ensures exists m :: m in keys && forall x | x in keys :: !Less(x, m)
  {
    var k :| k in keys;
    if keys == {k} {
      LessIrreflexive(k);
    } else {
      var rest := keys - {k};
      assert rest != {};
      LeastExists(rest);
      var m :| m in rest && forall x | x in rest :: !Less(x, m);
      LeastOfTwo(keys, k, m);
    }
  }

  lemma LeastOfTwo(keys: set<string>, k: string, m: string)
    requires k in keys && m in keys - {k} && forall x | x in keys - {k} :: !Less(x, m)
    ensures exists l :: l in keys && forall x | x in keys :: !Less(x, l)
  {
    LessIrreflexive(k);
    if Less(k, m) {
      forall x | x in keys
        ensures !Less(x, k)
      {
        if Less(x, k) {
          LessTransitive(x, k, m);
        }
      }
    }
  }

  /** The keys in order, as a table iterates them. */
  ghost function Sorted(keys: set<string>): (s: seq<string>)
    ensures |s| == |keys| && forall k :: k in s <==> k in keys
    decreases |keys|
  {
    if keys == {} then []
    else
      LeastExists(keys);
      var m :| m in keys && forall x | x in keys :: !Less(x, m);
      [m] + Sorted(keys - {m})
  }

  lemma {:induction false} SortedIncreases(keys: set<string>)
    ensures SortedScan(Sorted(keys), keys)
    decreases |keys|
  {
    if keys != {} {
      LeastExists(keys);
      var s := Sorted(keys);
      SortedIncreases(keys - {s[0]});
      FirstIsLeast(s, keys);
    }
  }

  lemma FirstIsLeast(s: seq<string>, keys: set<string>)
    requires s != [] && s[0] in keys && (forall x | x in keys :: !Less(x, s[0])) && SortedScan(s[1..], keys - {s[0]})
    ensures Increasing(s)
  {
    forall i, j | 0 <= i < j < |s|
      ensures Less(s[i], s[j])
    {
      if i == 0 {
        assert s[j] == s[1..][j - 1] && s[1..][j - 1] in keys - {s[0]};
        LessTotal(s[0], s[j]);
      } else {
        assert s[i] == s[1..][i - 1] && s[j] == s[1..][j - 1];
      }
    }
  }

  /** There is only one sorted enumeration of a set of keys. */
  lemma {:induction false} ScanUnique(s: seq<string>, t: seq<string>, keys: set<string>)
    requires SortedScan(s, keys) && SortedScan(t, keys)
    ensures s == t
    decreases |s|
  {
    if s == [] {
      SomeMember(t);
    } else {
      assert s[0] in keys && s[0] in t && t[0] in s;
      SameFirst(s, t);
      TailScan(s, keys);
      TailScan(t, keys);
      ScanUnique(s[1..], t[1..], keys - {s[0]});
    }
  }

  lemma SomeMember(t: seq<string>)
    ensures t != [] ==> exists x :: x in t
  {
    if t != [] {
      assert t[0] in t;
    }
  }

  lemma SameFirst(s: seq<string>, t: seq<string>)
    requires Increasing(s) && Increasing(t) && s != [] && t != [] && s[0] in t && t[0] in s
    ensures s[0] == t[0]
  {
    var i :| 0 <= i < |t| && t[i] == s[0];
    var j :| 0 <= j < |s| && s[j] == t[0];
    if i > 0 && j > 0 {
      LessTransitive(s[0], t[0], s[0]);
      LessIrreflexive(s[0]);
    }
  }

  lemma TailScan(s: seq<string>, keys: set<string>)
    requires SortedScan(s, keys) && s != []
    ensures SortedScan(s[1..], keys - {s[0]})
  {
    assert s == [s[0]] + s[1..];
    forall i | 0 <= i < |s[1..]|
      ensures s[1..][i] != s[0]
    {
      LessIrreflexive(s[0]);
      assert Less(s[0], s[i + 1]);
    }
  }

  // ----- Zero-padded numerals

  const U64_MAX: nat := 18446744073709551615

  /** The last `width` decimal digits, leading zeros included. */
  function Padded(n: nat, width: nat): (s: string)
    ensures |s| == width
    ensures forall i | 0 <= i < width :: '0' <= s[i] <= '9'
  {
    if width == 0 then "" else Padded(n / 10, width - 1) + [DIGITS[n % 10]]
  }

  function Pow10(n: nat): (r: nat)
    ensures r >= 1
  {
    if n == 0 then 1 else 10 * Pow10(n - 1)
  }

  lemma DigitOrder(i: nat, j: nat)
    requires i < 10 && j < 10
    ensures DIGITS[i] < DIGITS[j] <==> i < j
    ensures DIGITS[i] == DIGITS[j] <==> i == j
  {
  }

  /** For one width, the order of the numerals is the order of the numbers. */
  lemma {:induction false} PaddedOrder(m: nat, n: nat, width: nat)
    requires m < Pow10(width) && n < Pow10(width)
    ensures Less(Padded(m, width), Padded(n, width)) <==> m < n
    ensures Padded(m, width) == Padded(n, width) <==> m == n
  {
    if width > 0 {
      PaddedOrder(m / 10, n / 10, width - 1);
      DigitOrder(m % 10, n % 10);
      var a, b := Padded(m / 10, width - 1), Padded(n / 10, width - 1);
      SnocOrder(a, DIGITS[m % 10], b, DIGITS[n % 10]);
    }
  }

  /** Of two strings of one length, the last character decides only if all before it agree. */
  lemma {:induction false} SnocOrder(a: string, c: char, b: string, d: char)
    requires |a| == |b|
    ensures Less(a + [c], b + [d]) <==> Less(a, b) || (a == b && c < d)
    ensures a + [c] == b + [d] <==> a == b && c == d
  {
    if a == "" {
      assert a + [c] == [c] && b + [d] == [d];
      LessIrreflexive("");
    } else {
      assert (a + [c])[1..] == a[1..] + [c] && (b + [d])[1..] == b[1..] + [d];
      SnocOrder(a[1..], c, b[1..], d);
      assert a == [a[0]] + a[1..] && b == [b[0]] + b[1..];
      SnocEqual(a, c, b, d);
    }
  }

  lemma SnocEqual(a: string, c: char, b: string, d: char)
    requires |a| == |b|
    ensures a + [c] == b + [d] <==> a == b && c == d
  {
    if a + [c] == b + [d] {
      assert (a + [c])[..|a|] == a && (b + [d])[..|b|] == b;
      assert (a + [c])[|a|] == c && (b + [d])[|b|] == d;
    }
  }

  const WIDTH: nat := 20

  lemma U64Fits(n: nat)
    requires n <= U64_MAX
    ensures n < Pow10(WIDTH)
  {
    assert Pow10(4) == 10000;
    assert Pow10(8) == 10000 * Pow10(4);
    assert Pow10(12) == 10000 * Pow10(8);
    assert Pow10(16) == 10000 * Pow10(12);
    assert Pow10(20) == 10000 * Pow10(16);
  }
}
