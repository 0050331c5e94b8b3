/**
 The event tables.  The vault keeps the events of all runs in one ordered table, under the run id, a
 NUL and a 20-digit number; the in-memory store keeps a list a run.  Both hold the same lists.
 */
module Store {
  import opened Wrappers
  import opened Text
  import opened Events
  import opened KeyOrder

  function Key(run: string, seqNo: nat): string {
    run + NUL + Padded(seqNo, WIDTH)
  }

  ghost predicate NulFree(run: string) {
    NUL[0] !in run
  }

  // ----- Which keys a range holds

  function InRange(keys: set<string>, lower: string, upper: string): set<string> {
    set k | k in keys && !Less(k, lower) && Less(k, upper)
  }

  /** The range from `run` NUL to `run` 0x01 is the filter on the prefix, whatever the keys. */
  lemma RangeIsFilter(keys: set<string>, run: string)
    ensures InRange(keys, run + NUL, run + ONE) == set k | k in keys && run + NUL <= k
  {
    forall k | k in keys
      ensures !Less(k, run + NUL) && Less(k, run + ONE) <==> run + NUL <= k
    {
      PrefixRange(run, k);
    }
  }

  /** Run ids without NUL do not run into each other. */
  lemma OwnPrefix(run: string, other: string, suffix: string)
    requires NulFree(run) && NulFree(other)
    ensures run + NUL <= other + NUL + suffix <==> run == other
  {
    var k := other + NUL + suffix;
    assert k[|other|] == NUL[0] && k[..|other|] == other;
    forall i | 0 <= i < |other|
      ensures k[i] != NUL[0]
    {
      assert k[i] == other[i];
    }
    if run + NUL <= k {
      assert k[|run|] == (run + NUL)[|run|] == NUL[0];
      forall i | 0 <= i < |run|
        ensures k[i] != NUL[0]
      {
        assert k[i] == (run + NUL)[i] == run[i];
      }
      assert |run| == |other|;
      assert k[..|run|] == (run + NUL)[..|run|] == run;
    }
    if run == other {
      assert k[..|run + NUL|] == run + NUL;
    }
  }

  lemma KeyOrderIsNumeric(run: string, m: nat, n: nat)
    requires m <= U64_MAX && n <= U64_MAX
    ensures Less(Key(run, m), Key(run, n)) <==> m < n
    ensures Key(run, m) == Key(run, n) <==> m == n
  {
    U64Fits(m);
    U64Fits(n);
    var p, a, b := run + NUL, Padded(m, WIDTH), Padded(n, WIDTH);
    PaddedOrder(m, n, WIDTH);
    LessBehind(p, a, b);
    assert (p + a)[|p|..] == a && (p + b)[|p|..] == b;
  }

  // ----- The table and the lists

  type Lists = map<string, seq<Event>>

  function ListOf(lists: Lists, run: string): seq<Event> {
    if run in lists then lists[run] else []
  }

  /** The counter of a run after `n` events, and the next number: 64 bits wide, it starts again after the greatest number. */
  function CounterAfter(n: nat): nat {
    n % (U64_MAX + 1)
  }

  function NextNumber(n: nat): nat {
    if n == U64_MAX then 0 else n + 1
  }

  lemma CounterSteps(n: nat)
    requires n <= U64_MAX
    ensures CounterAfter(n) == n && CounterAfter(n + 1) == NextNumber(n)
  {
  }

  /** The row of the event, if the key is one of a stored event. */
  ghost predicate Holds(lists: Lists, k: string, run: string, i: nat) {
    run in lists && i < |lists[run]| && k == Key(run, i)
  }

  ghost predicate CountersOk(seqs: map<string, nat>, lists: Lists) {
    && seqs.Keys == lists.Keys
    && forall run | run in lists :: NulFree(run) && seqs[run] == CounterAfter(|lists[run]|) && |lists[run]| <= U64_MAX + 1
  }

  ghost predicate RowsOk(events: map<string, Event>, lists: Lists) {
    forall run, i: nat | run in lists && i < |lists[run]| :: Key(run, i) in events && events[Key(run, i)] == lists[run][i]
  }

  ghost predicate NothingElse(events: map<string, Event>, lists: Lists) {
    forall k | k in events :: exists run, i: nat :: Holds(lists, k, run, i)
  }

  ghost predicate Stored(events: map<string, Event>, seqs: map<string, nat>, lists: Lists) {
    CountersOk(seqs, lists) && RowsOk(events, lists) && NothingElse(events, lists)
  }

  function KeysFrom(run: string, lower: nat, n: nat): seq<string>
    requires lower <= n
  {
    seq(n - lower, i requires 0 <= i < n - lower => Key(run, lower + i))
  }

  lemma KeysIncrease(run: string, lower: nat, n: nat)
    requires lower <= n <= U64_MAX + 1
    ensures Increasing(KeysFrom(run, lower, n))
  {
    hide Key, Less;
    var keys := KeysFrom(run, lower, n);
    forall i, j | 0 <= i < j < |keys|
      ensures Less(keys[i], keys[j])
    {
      KeyOrderIsNumeric(run, lower + i, lower + j);
    }
  }

  lemma PrefixLess(k: string, p: string, x: string)
    requires Less(k, p)
    ensures Less(k, p + x)
  {
    if k != "" {
      assert (p + x)[1..] == p[1..] + x;
      if k[0] == p[0] {
        PrefixLess(k[1..], p[1..], x);
      }
    }
  }

  /** Whether a stored key lies in the scan of a run from a number on. */
  lemma KeyInScan(run: string, lower: nat, other: string, i: nat)
    requires NulFree(run) && NulFree(other) && lower <= U64_MAX && i <= U64_MAX
    ensures !Less(Key(other, i), Key(run, lower)) && Less(Key(other, i), run + ONE) <==> other == run && lower <= i
  {
    hide Less;
    var k := Key(other, i);
    PrefixRange(run, k);
    OwnPrefix(run, other, Padded(i, WIDTH));
    if Less(k, run + NUL) {
      PrefixLess(k, run + NUL, Padded(lower, WIDTH));
    }
    if other == run {
      KeyOrderIsNumeric(run, i, lower);
    }
  }

  /** The scan of a run from a number on: its keys from that number on, in order. */
  lemma ScanOfRun(events: map<string, Event>, seqs: map<string, nat>, lists: Lists, run: string, lower: nat)
    requires Stored(events, seqs, lists) && NulFree(run) && lower <= U64_MAX
    ensures var n := |ListOf(lists, run)|;
      Sorted(InRange(events.Keys, Key(run, lower), run + ONE)) == KeysFrom(run, if lower < n then lower else n, n)
  {
    hide Less, Key, Sorted;
    var n := |ListOf(lists, run)|;
    var from := if lower < n then lower else n;
    var keys := InRange(events.Keys, Key(run, lower), run + ONE);
    var scan := KeysFrom(run, from, n);
    KeysIncrease(run, from, n);
    forall k
      ensures k in scan <==> k in keys
    {
      ScanMember(events, seqs, lists, run, lower, k);
    }
    SortedIncreases(keys);
    ScanUnique(scan, Sorted(keys), keys);
  }

  lemma ScanMember(events: map<string, Event>, seqs: map<string, nat>, lists: Lists, run: string, lower: nat, k: string)
    requires Stored(events, seqs, lists) && NulFree(run) && lower <= U64_MAX
    ensures var n := |ListOf(lists, run)|;
      k in KeysFrom(run, if lower < n then lower else n, n) <==> k in InRange(events.Keys, Key(run, lower), run + ONE)
  {
    hide Less, Key, NulFree, KeysFrom, Stored, ListOf;
    var n := |ListOf(lists, run)|;
    var from := if lower < n then lower else n;
    var scan := KeysFrom(run, from, n);
    if k in scan {
      var i :| 0 <= i < |scan| && scan[i] == k;
      KeyAt(run, from, n, i);
      RowAt(events, seqs, lists, run, from + i);
      SmallNumbers(events, seqs, lists, run);
      KeyInScan(run, lower, run, from + i);
    }
    if k in InRange(events.Keys, Key(run, lower), run + ONE) {
      var other, i := Owner(events, seqs, lists, k);
      KeyInScan(run, lower, other, i);
      KeyCount(run, from, n);
      KeyAt(run, from, n, i - from);
      assert scan[i - from] == k;
    }
  }

  lemma SmallNumbers(events: map<string, Event>, seqs: map<string, nat>, lists: Lists, run: string)
    requires Stored(events, seqs, lists)
    ensures |ListOf(lists, run)| <= U64_MAX + 1
  {
    hide Key, NulFree;
  }

  lemma Owner(events: map<string, Event>, seqs: map<string, nat>, lists: Lists, k: string) returns (run: string, i: nat)
    requires Stored(events, seqs, lists) && k in events
    ensures k == Key(run, i) && i < |ListOf(lists, run)| && i <= U64_MAX && NulFree(run)
  {
    hide Key, NulFree;
    run, i :| Holds(lists, k, run, i);
  }

  /** `run` NUL bounds the run as its first key does. */
  lemma WholeRun(events: map<string, Event>, seqs: map<string, nat>, lists: Lists, run: string)
    requires Stored(events, seqs, lists) && NulFree(run)
    ensures InRange(events.Keys, run + NUL, run + ONE) == InRange(events.Keys, Key(run, 0), run + ONE)
  {
    hide Less;
    forall k | k in events
      ensures !Less(k, run + NUL) && Less(k, run + ONE) <==> !Less(k, Key(run, 0)) && Less(k, run + ONE)
    {
      var other, i: nat :| Holds(lists, k, other, i);
      KeyInScan(run, 0, other, i);
      PrefixRange(run, k);
      OwnPrefix(run, other, Padded(i, WIDTH));
    }
  }

  // ----- Reading the number back

  predicate IsDigit(c: char) {
    '0' <= c <= '9'
  }

  function DigitValue(c: char): nat
    requires IsDigit(c)
  {
    (c - '0') as nat
  }

  function NumberOf(s: string): nat
    requires forall i | 0 <= i < |s| :: IsDigit(s[i])
  {
    if s == "" then 0 else 10 * NumberOf(s[..|s| - 1]) + DigitValue(s[|s| - 1])
  }

  /** `str::parse::<u64>`. */
  function ParseU64(s: string): Option<nat> {
    var digits := if s != "" && s[0] == '+' then s[1..] else s;
    if digits != "" && (forall i | 0 <= i < |digits| :: IsDigit(digits[i])) && NumberOf(digits) <= U64_MAX
    then Some(NumberOf(digits))
    else None
  }

  lemma FewerDigits(n: nat, width: nat)
    requires n < Pow10(width) && width > 0
    ensures n / 10 < Pow10(width - 1)
  {
  }

  lemma OneMoreDigit(front: string, last: char)
    requires (forall i | 0 <= i < |front| :: IsDigit(front[i])) && IsDigit(last)
    ensures forall i | 0 <= i < |front + [last]| :: IsDigit((front + [last])[i])
    ensures NumberOf(front + [last]) == 10 * NumberOf(front) + DigitValue(last)
  {
    hide IsDigit, DigitValue;
    assert (front + [last])[..|front|] == front;
  }

  lemma {:induction false} NumberOfPadded(n: nat, width: nat)
    requires n < Pow10(width)
    ensures NumberOf(Padded(n, width)) == n
  {
    if width > 0 {
      FewerDigits(n, width);
      hide Pow10, IsDigit, DigitValue;
      NumberOfPadded(n / 10, width - 1);
      var front, last := Padded(n / 10, width - 1), DIGITS[n % 10];
      DigitIs(n % 10);
      assert Padded(n, width) == front + [last];
      OneMoreDigit(front, last);
    }
  }

  lemma DigitIs(d: nat)
    requires d < 10
    ensures IsDigit(DIGITS[d]) && DigitValue(DIGITS[d]) == d
  {
  }

  lemma ParsePadded(n: nat)
    requires n <= U64_MAX
    ensures ParseU64(Padded(n, WIDTH)) == Some(n)
  {
    hide Padded, NumberOf, Pow10;
    U64Fits(n);
    NumberOfPadded(n, WIDTH);
    var s := Padded(n, WIDTH);
    assert s != "" && s[0] != '+';
    assert forall i | 0 <= i < |s| :: IsDigit(s[i]);
    assert NumberOf(s) == n;
  }

  /** The row's number, if the key belongs to the run and ends in a number. */
  function SeqOf(run: string, k: string): Option<nat> {
    var prefix := run + NUL;
    if prefix <= k then ParseU64(k[|prefix|..]) else None
  }

  lemma SeqOfKey(run: string, n: nat)
    requires n <= U64_MAX
    ensures SeqOf(run, Key(run, n)) == Some(n)
  {
    ParsePadded(n);
    assert Key(run, n)[..|run + NUL|] == run + NUL;
    assert Key(run, n)[|run + NUL|..] == Padded(n, WIDTH);
  }

  // ----- Sorting by number

  function Insert(rows: seq<(nat, Event)>, row: (nat, Event)): seq<(nat, Event)> {
    if rows == [] || rows[|rows| - 1].0 <= row.0 then rows + [row]
    else Insert(rows[..|rows| - 1], row) + [rows[|rows| - 1]]
  }

  /** `sort_by_key` on the number: stable. */
  function SortRows(rows: seq<(nat, Event)>): seq<(nat, Event)> {
    if rows == [] then [] else Insert(SortRows(rows[..|rows| - 1]), rows[|rows| - 1])
  }

  lemma InsertedLast(rows: seq<(nat, Event)>, row: (nat, Event))
    requires rows == [] || rows[|rows| - 1].0 <= row.0
    ensures Insert(rows, row) == rows + [row]
  {
  }

  lemma {:induction false} SortedRowsStay(rows: seq<(nat, Event)>)
    requires forall i, j | 0 <= i < j < |rows| :: rows[i].0 <= rows[j].0
    ensures SortRows(rows) == rows
  {
    if rows != [] {
      var front, last := rows[..|rows| - 1], rows[|rows| - 1];
      SortedRowsStay(front);
      assert rows == front + [last];
      InsertedLast(front, last);
    }
  }

  /** A list with its numbers. */
  function Numbered(list: seq<Event>, lower: nat): seq<(nat, Event)>
    requires lower <= |list|
  {
    seq(|list| - lower, i requires 0 <= i < |list| - lower => (lower + i, list[lower + i]))
  }

  /** The list from a number on. */
  function From(list: seq<Event>, lower: nat): seq<(nat, Event)> {
    Numbered(list, if lower < |list| then lower else |list|)
  }

  function SaturatingNext(n: nat): nat {
    if n >= U64_MAX then U64_MAX else n + 1
  }

  /** The saturated bound is the filter `> since` if and only if there is a next number, or no event has the last one. */
  lemma SinceIsFilter(list: seq<Event>, since: nat)
    requires since <= U64_MAX && |list| <= U64_MAX + 1
    ensures From(list, SaturatingNext(since)) == From(list, since + 1) <==> since < U64_MAX || |list| <= U64_MAX
  {
    if since == U64_MAX && |list| == U64_MAX + 1 {
      assert |From(list, SaturatingNext(since))| == 1 && |From(list, since + 1)| == 0;
    }
  }

  function EventsOf(rows: seq<(nat, Event)>): seq<Event> {
    seq(|rows|, i requires 0 <= i < |rows| => rows[i].1)
  }

  // ----- The vault's table

  class RedbEvents {
    var events: map<string, Event>
    var seqs: map<string, nat>
    ghost var lists: Lists

    ghost predicate Valid()
      reads this
    {
      Stored(events, seqs, lists)
    }

    constructor ()
      ensures Valid() && lists == map[]
    {
      events, seqs, lists := map[], map[], map[];
    }

    /** One transaction: the row and the run's counter.  With every number used the first event is overwritten. */
    method AppendEvent(run: string, ev: Event) returns (seqNo: nat)
      requires Valid() && NulFree(run)
      modifies this
      ensures |ListOf(old(lists), run)| <= U64_MAX ==>
        && Valid() && seqNo == |ListOf(old(lists), run)|
        && lists == old(lists)[run := ListOf(old(lists), run) + [ev]]
      ensures |ListOf(old(lists), run)| > U64_MAX ==>
        seqNo == 0 && Key(run, 0) in old(events) && events == old(events)[Key(run, 0) := ev] && seqs == old(seqs)[run := 1]
    {
      hide Key, NulFree, Stored;
      seqNo := if run in seqs then seqs[run] else 0;
      if |ListOf(lists, run)| <= U64_MAX {
        StoredMore(events, seqs, lists, run, ev);
      } else {
        AllNumbersUsed(events, seqs, lists, run);
      }
      events := events[Key(run, seqNo) := ev];
      seqs := seqs[run := NextNumber(seqNo)];
      lists := lists[run := ListOf(lists, run) + [ev]];
    }

    /** The rows of a scan whose keys carry a number. */
    method CollectRows(run: string, keys: seq<string>, ghost lower: nat, ghost n: nat) returns (rows: seq<(nat, Event)>)
      requires lower <= n <= U64_MAX + 1 && keys == KeysFrom(run, lower, n)
      requires forall k | k in keys :: k in events
      ensures |rows| == |keys| && forall i | 0 <= i < |rows| :: rows[i] == (lower + i, events[keys[i]])
    {
      hide Key, SeqOf;
      rows := [];
      for j := 0 to |keys|
        invariant |rows| == j && forall i | 0 <= i < j :: rows[i] == (lower + i, events[keys[i]])
      {
        SeqOfKey(run, lower + j);
        var seqNo := SeqOf(run, keys[j]);
        if seqNo.Some? {
          rows := rows + [(seqNo.value, events[keys[j]])];
        }
      }
    }

    method LoadEvents(run: string) returns (r: seq<Event>)
      requires Valid() && NulFree(run)
      ensures r == ListOf(lists, run)
    {
      hide Key, Less, Sorted, NulFree, InRange, Stored, KeysFrom, SortRows, ListOf;
      var keys := RangeScan(events.Keys, run + NUL, run + ONE);
      WholeRun(events, seqs, lists, run);
      SmallNumbers(events, seqs, lists, run);
      ScanOfRun(events, seqs, lists, run, 0);
      ScanStored(events, seqs, lists, run, 0);
      ghost var n := |ListOf(lists, run)|;
      var rows := CollectRows(run, keys, 0, n);
      RowsAre(events, seqs, lists, run, 0, keys, rows);
      rows := SortRows(rows);
      r := EventsOf(rows);
      assert r == ListOf(lists, run);
    }

    /** Every event from the next number on; `next` does not go beyond the greatest number there is. */
    method LoadEventsSince(run: string, since: nat) returns (rows: seq<(nat, Event)>)
      requires Valid() && NulFree(run) && since <= U64_MAX
      ensures rows == From(ListOf(lists, run), SaturatingNext(since))
    {
      hide Key, Less, Sorted, NulFree, InRange;
      var next := SaturatingNext(since);
      var keys := RangeScan(events.Keys, Key(run, next), run + ONE);
      ScanOfRun(events, seqs, lists, run, next);
      ScanStored(events, seqs, lists, run, next);
      ghost var n := |ListOf(lists, run)|;
      ghost var from := if next < n then next else n;
      rows := CollectRows(run, keys, from, n);
      RowsAre(events, seqs, lists, run, from, keys, rows);
      rows := SortRows(rows);
    }
  }

  lemma StoredMore(events: map<string, Event>, seqs: map<string, nat>, lists: Lists, run: string, ev: Event)
    requires Stored(events, seqs, lists) && NulFree(run) && |ListOf(lists, run)| <= U64_MAX
    ensures var n := |ListOf(lists, run)|;
      && n == (if run in seqs then seqs[run] else 0)
      && Stored(events[Key(run, n) := ev], seqs[run := NextNumber(n)], lists[run := ListOf(lists, run) + [ev]])
  {
    hide Key, NulFree, CountersOk, RowsOk, NothingElse;
    CountersMore(seqs, lists, run, ev);
    RowsMore(events, seqs, lists, run, ev);
    NothingElseMore(events, lists, run, ev);
  }

  lemma CountersMore(seqs: map<string, nat>, lists: Lists, run: string, ev: Event)
    requires CountersOk(seqs, lists) && NulFree(run) && |ListOf(lists, run)| <= U64_MAX
    ensures var n := |ListOf(lists, run)|;
      n == (if run in seqs then seqs[run] else 0) && CountersOk(seqs[run := NextNumber(n)], lists[run := ListOf(lists, run) + [ev]])
  {
    hide NulFree, CounterAfter;
    CounterSteps(|ListOf(lists, run)|);
  }

  lemma RowsMore(events: map<string, Event>, seqs: map<string, nat>, lists: Lists, run: string, ev: Event)
    requires CountersOk(seqs, lists) && RowsOk(events, lists) && NulFree(run) && |ListOf(lists, run)| <= U64_MAX
    ensures RowsOk(events[Key(run, |ListOf(lists, run)|) := ev], lists[run := ListOf(lists, run) + [ev]])
  {
    hide Key, NulFree, CounterAfter;
    var n := |ListOf(lists, run)|;
    var events', lists' := events[Key(run, n) := ev], lists[run := ListOf(lists, run) + [ev]];
    forall r, i: nat | r in lists' && i < |lists'[r]|
      ensures Key(r, i) in events' && events'[Key(r, i)] == lists'[r][i]
    {
      KeysApart(r, i, run, n);
    }
  }

  lemma NothingElseMore(events: map<string, Event>, lists: Lists, run: string, ev: Event)
    requires NothingElse(events, lists)
    ensures NothingElse(events[Key(run, |ListOf(lists, run)|) := ev], lists[run := ListOf(lists, run) + [ev]])
  {
    hide Key;
    var n := |ListOf(lists, run)|;
    var events', lists' := events[Key(run, n) := ev], lists[run := ListOf(lists, run) + [ev]];
    forall k | k in events'
      ensures exists r, i: nat :: Holds(lists', k, r, i)
    {
      if k == Key(run, n) {
        assert Holds(lists', k, run, n);
      } else {
        var r, i: nat :| Holds(lists, k, r, i);
        assert Holds(lists', k, r, i);
      }
    }
  }

  lemma AllNumbersUsed(events: map<string, Event>, seqs: map<string, nat>, lists: Lists, run: string)
    requires Stored(events, seqs, lists) && |ListOf(lists, run)| > U64_MAX
    ensures run in seqs && seqs[run] == 0 && Key(run, 0) in events
  {
    hide Key, NulFree;
  }

  /** A key determines its run and its number. */
  lemma KeysApart(r: string, i: nat, run: string, n: nat)
    requires NulFree(r) && NulFree(run) && i <= U64_MAX && n <= U64_MAX
    ensures Key(r, i) == Key(run, n) <==> r == run && i == n
  {
    hide Less;
    KeyInScan(run, n, r, i);
    KeyInScan(run, n, run, n);
    KeyOrderIsNumeric(run, i, n);
  }

  lemma ScanStored(events: map<string, Event>, seqs: map<string, nat>, lists: Lists, run: string, lower: nat)
    requires Stored(events, seqs, lists)
    ensures var n := |ListOf(lists, run)|;
      forall k | k in KeysFrom(run, if lower < n then lower else n, n) :: k in events
  {
    hide Key;
  }

  lemma RowsAre(events: map<string, Event>, seqs: map<string, nat>, lists: Lists, run: string, from: nat, keys: seq<string>, rows: seq<(nat, Event)>)
    requires Stored(events, seqs, lists) && from <= |ListOf(lists, run)|
    requires keys == KeysFrom(run, from, |ListOf(lists, run)|)
    requires |rows| == |keys| && forall i | 0 <= i < |rows| :: keys[i] in events && rows[i] == (from + i, events[keys[i]])
    ensures rows == Numbered(ListOf(lists, run), from) && SortRows(rows) == rows
  {
    hide Key, NulFree, Stored, ListOf, KeysFrom, Numbered, SortRows;
    KeyCount(run, from, |ListOf(lists, run)|);
    forall i | 0 <= i < |rows|
      ensures rows[i] == (from + i, ListOf(lists, run)[from + i])
    {
      RowAt(events, seqs, lists, run, from + i);
      KeyAt(run, from, |ListOf(lists, run)|, i);
    }
    NumberedIs(rows, ListOf(lists, run), from);
  }

  lemma KeyAt(run: string, lower: nat, n: nat, i: nat)
    requires lower <= n && i < |KeysFrom(run, lower, n)|
    ensures KeysFrom(run, lower, n)[i] == Key(run, lower + i) && lower + i < n
  {
  }

  lemma KeyCount(run: string, lower: nat, n: nat)
    requires lower <= n
    ensures |KeysFrom(run, lower, n)| == n - lower
  {
  }

  lemma NumberedIs(rows: seq<(nat, Event)>, list: seq<Event>, from: nat)
    requires from <= |list| && |rows| == |list| - from
    requires forall i | 0 <= i < |rows| :: rows[i] == (from + i, list[from + i])
    ensures rows == Numbered(list, from) && SortRows(rows) == rows
  {
    hide SortRows;
    Ascending(rows, from);
    SortedRowsStay(rows);
  }

  lemma Ascending(rows: seq<(nat, Event)>, from: nat)
    requires forall i | 0 <= i < |rows| :: rows[i].0 == from + i
    ensures forall i, j | 0 <= i < j < |rows| :: rows[i].0 <= rows[j].0
  {
  }

  lemma RowAt(events: map<string, Event>, seqs: map<string, nat>, lists: Lists, run: string, i: nat)
    requires Stored(events, seqs, lists) && i < |ListOf(lists, run)|
    ensures Key(run, i) in events && events[Key(run, i)] == ListOf(lists, run)[i]
  {
    hide Key, NulFree;
  }

  /** The least key, as the ordered table finds it. */
  method Least(keys: set<string>) returns (least: string)
    requires keys != {}
    ensures least in keys && forall k | k in keys :: !Less(k, least)
  {
    hide Less;
    least :| least in keys;
    LessIrreflexive(least);
    var left := keys - {least};
    while left != {}
      invariant left <= keys && least in keys
      invariant forall k | k in keys - left :: !Less(k, least)
      decreases |left|
    {
      var k :| k in left;
      LessIrreflexive(k);
      if Less(k, least) {
        SmallerIsLeast(keys - left, k, least);
        least := k;
      }
      left := left - {k};
    }
    assert keys - left == keys;
  }

  lemma SmallerIsLeast(seen: set<string>, k: string, least: string)
    requires Less(k, least) && forall x | x in seen :: !Less(x, least)
    ensures forall x | x in seen :: !Less(x, k)
  {
    forall x | x in seen
      ensures !Less(x, k)
    {
      if Less(x, k) {
        LessTransitive(x, k, least);
      }
    }
  }

  lemma SortedStep(keys: set<string>, least: string)
    requires least in keys && forall k | k in keys :: !Less(k, least)
    ensures Sorted(keys) == [least] + Sorted(keys - {least})
  {
    hide Less;
    var s := [least] + Sorted(keys - {least});
    SortedIncreases(keys);
    SortedIncreases(keys - {least});
    assert s[1..] == Sorted(keys - {least}) && s[0] == least;
    FirstIsLeast(s, keys);
    assert forall k :: k in s <==> k in keys;
    ScanUnique(s, Sorted(keys), keys);
  }

  lemma Regroup(front: seq<string>, k: string, rest: seq<string>)
    ensures front + [k] + rest == front + ([k] + rest)
  {
  }

  lemma ScanStep(keys: seq<string>, left: set<string>, least: string)
    requires least in left && forall k | k in left :: !Less(k, least)
    ensures keys + [least] + Sorted(left - {least}) == keys + Sorted(left)
  {
    hide *;
    SortedStep(left, least);
    Regroup(keys, least, Sorted(left - {least}));
  }

  lemma SortedNothing()
    ensures Sorted({}) == []
  {
  }

  /** What a table's range iterator yields, in order. */
  method RangeScan(table: set<string>, lower: string, upper: string) returns (keys: seq<string>)
    ensures keys == Sorted(InRange(table, lower, upper))
  {
    hide *;
    keys := [];
    var left := InRange(table, lower, upper);
    ghost var all := left;
    assert keys + Sorted(left) == Sorted(all);
    while left != {}
      invariant left <= all && keys + Sorted(left) == Sorted(all)
      decreases |left|
    {
      var least := Least(left);
      ScanStep(keys, left, least);
      keys := keys + [least];
      left := left - {least};
    }
    SortedNothing();
  }

  // ----- The in-memory store

  /** One list a run, each event with its number. */
  class MockEvents {
    var events: map<string, seq<(nat, Event)>>
    var eventSeq: map<string, nat>
    ghost var lists: Lists

    ghost predicate Valid()
      reads this
    {
      && events.Keys == lists.Keys == eventSeq.Keys
      && forall run | run in lists :: eventSeq[run] == CounterAfter(|lists[run]|) && events[run] == Numbered(lists[run], 0) && |lists[run]| <= U64_MAX + 1
    }

    constructor ()
      ensures Valid() && lists == map[]
    {
      events, eventSeq, lists := map[], map[], map[];
    }

    method AppendEvent(run: string, ev: Event) returns (seqNo: nat)
      requires Valid()
      modifies this
      ensures |ListOf(old(lists), run)| <= U64_MAX ==>
        && Valid() && seqNo == |ListOf(old(lists), run)|
        && lists == old(lists)[run := ListOf(old(lists), run) + [ev]]
      ensures |ListOf(old(lists), run)| > U64_MAX ==>
        seqNo == 0 && run in old(events) && events == old(events)[run := old(events)[run] + [(0, ev)]]
    {
      hide CounterAfter;
      seqNo := if run in eventSeq then eventSeq[run] else 0;
      if |ListOf(lists, run)| <= U64_MAX {
        CounterSteps(|ListOf(lists, run)|);
      } else {
        assert CounterAfter(U64_MAX + 1) == 0 by {
          WrapsToZero();
        }
      }
      eventSeq := eventSeq[run := NextNumber(seqNo)];
      NumberedSnoc(ListOf(lists, run), ev);
      events := events[run := (if run in events then events[run] else []) + [(seqNo, ev)]];
      lists := lists[run := ListOf(lists, run) + [ev]];
    }

    method LoadEvents(run: string) returns (r: seq<Event>)
      requires Valid()
      ensures r == ListOf(lists, run)
    {
      if run in events {
        SortedRowsStay(events[run]);
        r := EventsOf(SortRows(events[run]));
      } else {
        r := [];
      }
    }

    method LoadEventsSince(run: string, since: nat) returns (rows: seq<(nat, Event)>)
      requires Valid()
      ensures var n := |ListOf(lists, run)|;
        rows == Numbered(ListOf(lists, run), if since + 1 < n then since + 1 else n)
    {
      if run in events {
        var list := events[run];
        rows := [];
        for j := 0 to |list|
          invariant rows == Newer(list[..j], since)
        {
          assert list[..j + 1][..j] == list[..j];
          if list[j].0 > since {
            rows := rows + [list[j]];
          }
        }
        assert list[..|list|] == list;
        NewerNumbered(lists[run], since, |list|);
        SortedRowsStay(rows);
        rows := SortRows(rows);
      } else {
        rows := [];
      }
    }
  }

  /** The filter on the number. */
  function Newer(rows: seq<(nat, Event)>, since: nat): seq<(nat, Event)> {
    if rows == [] then []
    else Newer(rows[..|rows| - 1], since) + if rows[|rows| - 1].0 > since then [rows[|rows| - 1]] else []
  }

  lemma WrapsToZero()
    ensures CounterAfter(U64_MAX + 1) == 0
  {
  }

  lemma NumberedSnoc(list: seq<Event>, ev: Event)
    ensures Numbered(list + [ev], 0) == Numbered(list, 0) + [(|list|, ev)]
  {
  }

  lemma {:induction false} NewerNumbered(list: seq<Event>, since: nat, n: nat)
    requires n <= |list|
    ensures Newer(Numbered(list, 0)[..n], since) == Numbered(list[..n], if since + 1 < n then since + 1 else n)
    ensures Numbered(list, 0)[..|list|] == Numbered(list, 0) && list[..|list|] == list
  {
    if n > 0 {
      NewerNumbered(list, since, n - 1);
      var rows := Numbered(list, 0)[..n];
      assert rows[..n - 1] == Numbered(list, 0)[..n - 1];
      assert rows[n - 1] == (n - 1, list[n - 1]);
    }
  }

  // ----- Appends from any mix of runs

  function Appended(log: seq<(string, Event)>): Lists {
    if log == [] then map[]
    else
      var front, (run, ev) := Appended(log[..|log| - 1]), log[|log| - 1];
      front[run := ListOf(front, run) + [ev]]
  }

  /** The events of one run, in order. */
  function OfRun(log: seq<(string, Event)>, run: string): seq<Event> {
    if log == [] then []
    else OfRun(log[..|log| - 1], run) + if log[|log| - 1].0 == run then [log[|log| - 1].1] else []
  }

  /** Each run's list is its own part of the log: runs do not disturb each other. */
  lemma {:induction false} AppendedIsOfRun(log: seq<(string, Event)>, run: string)
    ensures ListOf(Appended(log), run) == OfRun(log, run)
  {
    if log != [] {
      AppendedIsOfRun(log[..|log| - 1], run);
    }
  }

  lemma {:induction false} OfRunFits(log: seq<(string, Event)>, run: string)
    ensures |OfRun(log, run)| <= |log|
  {
    if log != [] {
      OfRunFits(log[..|log| - 1], run);
    }
  }

  lemma AppendedOne(log: seq<(string, Event)>, i: nat)
    requires i < |log|
    ensures var before, (run, ev) := Appended(log[..i]), log[i];
      Appended(log[..i + 1]) == before[run := ListOf(before, run) + [ev]] && |ListOf(before, run)| <= i
  {
    assert log[..i + 1][..i] == log[..i];
    AppendedIsOfRun(log[..i], log[i].0);
    OfRunFits(log[..i], log[i].0);
  }

  /** One append to both stores: they number it alike. */
  method AppendBoth(redb: RedbEvents, mock: MockEvents, run: string, ev: Event)
    requires redb.Valid() && mock.Valid() && redb.lists == mock.lists && NulFree(run) && |ListOf(redb.lists, run)| <= U64_MAX
    modifies redb, mock
    ensures redb.Valid() && mock.Valid()
    ensures redb.lists == mock.lists == old(redb.lists)[run := ListOf(old(redb.lists), run) + [ev]]
  {
    hide NulFree, ListOf, Stored, Numbered, CounterAfter, Key;
    var a := redb.AppendEvent(run, ev);
    var b := mock.AppendEvent(run, ev);
    assert a == b;
  }

  /** Both stores, fed the same appends, load the same events for every run. */
  method Replay(log: seq<(string, Event)>) returns (redb: RedbEvents, mock: MockEvents)
    requires |log| <= U64_MAX && forall i | 0 <= i < |log| :: NulFree(log[i].0)
    ensures redb.Valid() && mock.Valid()
    ensures redb.lists == mock.lists == Appended(log)
  {
    assert Appended(log[..0]) == map[];
    hide NulFree, ListOf, Appended, Stored, Numbered, CounterAfter;
    redb := new RedbEvents();
    mock := new MockEvents();
    for i := 0 to |log|
      invariant fresh(redb) && fresh(mock) && redb.Valid() && mock.Valid()
      invariant redb.lists == mock.lists == Appended(log[..i])
    {
      AppendedOne(log, i);
      AppendBoth(redb, mock, log[i].0, log[i].1);
    }
    assert log[..|log|] == log;
  }
}
