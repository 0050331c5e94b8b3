/**
 The node table.  The vault keeps the records of all runs in one ordered table, under the run id, a
 NUL and the node id; the in-memory store keeps a list a run.  Both list the same records.
 */
module NodeTable {
  import opened Wrappers
  import opened Dag
  import opened Events
  import opened KeyOrder
  import opened Store

  datatype Row = Row(nodeId: Id, state: Status, model: Option<string>, attempt: nat)

  /** What a history of writes leaves: the last record of each node of each run. */
  type Records = map<(string, Id), Row>

  datatype Put = Put(run: string, row: Row)

  function NodeKey(run: string, id: Id): string {
    run + NUL + id
  }

  function Written(puts: seq<Put>): Records {
    if puts == [] then map[]
    else
      var last := puts[|puts| - 1];
      Written(puts[..|puts| - 1])[(last.run, last.row.nodeId) := last.row]
  }

  /** Every record of the run, once. */
  ghost predicate ListsRun(recs: Records, run: string, rows: seq<Row>) {
    && (forall r :: r in rows <==> (run, r.nodeId) in recs && recs[(run, r.nodeId)] == r)
    && forall i, j | 0 <= i < j < |rows| :: rows[i].nodeId != rows[j].nodeId
  }

  /** The rows of the table, and nothing else. */
  ghost predicate Keyed(rows: map<string, Row>, recs: Records) {
    && (forall p | p in recs :: NulFree(p.0) && recs[p].nodeId == p.1)
    && (forall p | p in recs :: NodeKey(p.0, p.1) in rows && rows[NodeKey(p.0, p.1)] == recs[p])
    && (forall k | k in rows :: FromRecord(recs, k))
  }

  ghost predicate FromRecord(recs: Records, k: string) {
    exists p :: p in recs && NodeKey(p.0, p.1) == k
  }

  /** A key determines its run and its node, though node ids may hold anything. */
  lemma NodeKeysApart(run: string, id: Id, run': string, id': Id)
    requires NulFree(run) && NulFree(run') && NodeKey(run, id) == NodeKey(run', id')
    ensures run == run' && id == id'
  {
    hide NulFree;
    var k := NodeKey(run, id);
    assert run + NUL <= k;
    OwnPrefix(run, run', id');
    assert k[|run + NUL|..] == id && NodeKey(run, id')[|run + NUL|..] == id';
  }

  lemma KeyedMore(rows: map<string, Row>, recs: Records, run: string, row: Row)
    requires Keyed(rows, recs) && NulFree(run)
    ensures Keyed(rows[NodeKey(run, row.nodeId) := row], recs[(run, row.nodeId) := row])
  {
    hide NulFree, NodeKey;
    var rows' := rows[NodeKey(run, row.nodeId) := row];
    var recs' := recs[(run, row.nodeId) := row];
    forall p | p in recs'
      ensures NodeKey(p.0, p.1) in rows' && rows'[NodeKey(p.0, p.1)] == recs'[p]
    {
      if p in recs && NodeKey(p.0, p.1) == NodeKey(run, row.nodeId) {
        NodeKeysApart(p.0, p.1, run, row.nodeId);
      }
    }
    forall k | k in rows'
      ensures FromRecord(recs', k)
    {
      if k in rows {
        var p :| p in recs && NodeKey(p.0, p.1) == k;
        assert p in recs';
      } else {
        assert (run, row.nodeId) in recs';
      }
    }
  }

  /** The range scan of a run holds exactly the keys of its nodes. */
  lemma ScanIsRun(rows: map<string, Row>, recs: Records, run: string, k: string)
    requires Keyed(rows, recs) && NulFree(run)
    ensures k in InRange(rows.Keys, run + NUL, run + ONE) <==> exists id :: (run, id) in recs && k == NodeKey(run, id)
  {
    hide NulFree, Less;
    PrefixRange(run, k);
    if k in InRange(rows.Keys, run + NUL, run + ONE) {
      var p :| p in recs && NodeKey(p.0, p.1) == k;
      OwnPrefix(run, p.0, p.1);
      assert (run, p.1) in recs;
    }
    if id :| (run, id) in recs && k == NodeKey(run, id) {
      OwnPrefix(run, run, id);
    }
  }

  lemma ScannedRows(rows: map<string, Row>, recs: Records, run: string, keys: seq<string>, out: seq<Row>)
    requires Keyed(rows, recs) && NulFree(run)
    requires SortedScan(keys, InRange(rows.Keys, run + NUL, run + ONE)) && |out| == |keys|
    requires forall i | 0 <= i < |keys| :: keys[i] in rows && out[i] == rows[keys[i]]
    ensures ListsRun(recs, run, out)
  {
    hide NulFree, Less, InRange, SortedScan, Keyed;
    forall i | 0 <= i < |keys|
      ensures (run, out[i].nodeId) in recs && recs[(run, out[i].nodeId)] == out[i] && keys[i] == NodeKey(run, out[i].nodeId)
    {
      ScannedRow(rows, recs, run, keys, i);
    }
    forall r: Row | (run, r.nodeId) in recs && recs[(run, r.nodeId)] == r
      ensures r in out
    {
      RecordScanned(rows, recs, run, keys, r.nodeId);
      var i :| 0 <= i < |keys| && keys[i] == NodeKey(run, r.nodeId);
      KeyedRow(rows, recs, run, r.nodeId);
      assert out[i] == r;
    }
    forall i, j | 0 <= i < j < |out|
      ensures out[i].nodeId != out[j].nodeId
    {
      ScanDistinct(keys, InRange(rows.Keys, run + NUL, run + ONE), i, j);
    }
  }

  lemma ScanDistinct(keys: seq<string>, all: set<string>, i: nat, j: nat)
    requires SortedScan(keys, all) && i < j < |keys|
    ensures keys[i] != keys[j]
  {
    LessIrreflexive(keys[i]);
  }

  lemma KeyedRow(rows: map<string, Row>, recs: Records, run: string, id: Id)
    requires Keyed(rows, recs) && (run, id) in recs
    ensures NodeKey(run, id) in rows && rows[NodeKey(run, id)] == recs[(run, id)] && recs[(run, id)].nodeId == id
  {
    hide NulFree, NodeKey;
  }

  lemma ScannedRow(rows: map<string, Row>, recs: Records, run: string, keys: seq<string>, i: nat)
    requires Keyed(rows, recs) && NulFree(run) && i < |keys|
    requires SortedScan(keys, InRange(rows.Keys, run + NUL, run + ONE))
    ensures keys[i] in rows
    ensures var r := rows[keys[i]];
      (run, r.nodeId) in recs && recs[(run, r.nodeId)] == r && keys[i] == NodeKey(run, r.nodeId)
  {
    hide NulFree, Less, InRange, NodeKey, Keyed;
    assert keys[i] in keys;
    ScanIsRun(rows, recs, run, keys[i]);
    var id :| (run, id) in recs && keys[i] == NodeKey(run, id);
    KeyedRow(rows, recs, run, id);
  }

  lemma RecordScanned(rows: map<string, Row>, recs: Records, run: string, keys: seq<string>, id: Id)
    requires Keyed(rows, recs) && NulFree(run) && (run, id) in recs
    requires SortedScan(keys, InRange(rows.Keys, run + NUL, run + ONE))
    ensures NodeKey(run, id) in keys
  {
    hide NulFree, Less, InRange, NodeKey, Keyed;
    ScanIsRun(rows, recs, run, NodeKey(run, id));
  }

  // ----- The terminal rows

  function TerminalRows(rows: seq<Row>): seq<(Id, Status)> {
    if rows == [] then []
    else
      var last := rows[|rows| - 1];
      TerminalRows(rows[..|rows| - 1]) + if IsTerminal(last.state) then [(last.nodeId, last.state)] else []
  }

  lemma {:induction false} TerminalRowsHas(rows: seq<Row>, id: Id, status: Status)
    ensures (id, status) in TerminalRows(rows) <==> IsTerminal(status) && exists r :: r in rows && r.nodeId == id && r.state == status
  {
    if rows != [] {
      var front, last := rows[..|rows| - 1], rows[|rows| - 1];
      TerminalRowsHas(front, id, status);
      assert forall r :: r in rows <==> r in front || r == last;
    }
  }

  /** The terminal set: the nodes whose last record is terminal. */
  lemma TerminalSetIs(recs: Records, run: string, rows: seq<Row>, id: Id, status: Status)
    requires ListsRun(recs, run, rows) && forall p | p in recs :: recs[p].nodeId == p.1
    ensures (id, status) in TerminalRows(rows) <==> IsTerminal(status) && (run, id) in recs && recs[(run, id)].state == status
  {
    TerminalRowsHas(rows, id, status);
    if (run, id) in recs {
      assert recs[(run, id)] in rows;
    }
  }

  /** What the run's records say is terminal. */
  ghost predicate TerminalOfRun(recs: Records, run: string, out: seq<(Id, Status)>) {
    forall id, status :: (id, status) in out <==> IsTerminal(status) && (run, id) in recs && recs[(run, id)].state == status
  }

  method FilterTerminal(rows: seq<Row>, ghost recs: Records, ghost run: string) returns (out: seq<(Id, Status)>)
    requires ListsRun(recs, run, rows) && forall p | p in recs :: recs[p].nodeId == p.1
    ensures TerminalOfRun(recs, run, out)
  {
    hide ListsRun;
    out := [];
    for i := 0 to |rows|
      invariant out == TerminalRows(rows[..i])
    {
      assert rows[..i + 1][..i] == rows[..i];
      if IsTerminal(rows[i].state) {
        out := out + [(rows[i].nodeId, rows[i].state)];
      }
    }
    assert rows[..|rows|] == rows;
    forall id, status
      ensures (id, status) in out <==> IsTerminal(status) && (run, id) in recs && recs[(run, id)].state == status
    {
      TerminalSetIs(recs, run, rows, id, status);
    }
  }

  // ----- The vault's table

  class RedbNodes {
    var rows: map<string, Row>
    ghost var recs: Records

    ghost predicate Valid()
      reads this
    {
      Keyed(rows, recs)
    }

    constructor ()
      ensures Valid() && recs == map[]
    {
      rows, recs := map[], map[];
    }

    method PutNodeState(run: string, row: Row)
      requires Valid() && NulFree(run)
      modifies this
      ensures Valid() && recs == old(recs)[(run, row.nodeId) := row]
    {
      KeyedMore(rows, recs, run, row);
      rows := rows[NodeKey(run, row.nodeId) := row];
      recs := recs[(run, row.nodeId) := row];
    }

    /** The rows of the run's key range, in key order. */
    method ListNodes(run: string) returns (out: seq<Row>)
      requires Valid() && NulFree(run)
      ensures ListsRun(recs, run, out)
    {
      hide NulFree, Less, InRange, Keyed, Sorted, ListsRun;
      var keys := RangeScan(rows.Keys, run + NUL, run + ONE);
      ScanInside(rows.Keys, run, keys);
      out := [];
      for j := 0 to |keys|
        invariant |out| == j && forall i | 0 <= i < j :: out[i] == rows[keys[i]]
      {
        out := out + [rows[keys[j]]];
      }
      ScannedRows(rows, recs, run, keys, out);
    }

    method TerminalSet(run: string) returns (out: seq<(Id, Status)>)
      requires Valid() && NulFree(run)
      ensures TerminalOfRun(recs, run, out)
    {
      hide NulFree, NodeKey, ListsRun, TerminalOfRun;
      var nodes := ListNodes(run);
      out := FilterTerminal(nodes, recs, run);
    }
  }

  lemma ScanInside(table: set<string>, run: string, keys: seq<string>)
    requires keys == Sorted(InRange(table, run + NUL, run + ONE))
    ensures SortedScan(keys, InRange(table, run + NUL, run + ONE)) && forall i | 0 <= i < |keys| :: keys[i] in table
  {
    hide Less, Sorted;
    SortedIncreases(InRange(table, run + NUL, run + ONE));
    forall i | 0 <= i < |keys|
      ensures keys[i] in table
    {
      assert keys[i] in keys;
    }
  }

  // ----- The in-memory store

  function Without(list: seq<Row>, id: Id): seq<Row> {
    if list == [] then []
    else
      var last := list[|list| - 1];
      Without(list[..|list| - 1], id) + if last.nodeId != id then [last] else []
  }

  lemma {:induction false} WithoutHas(list: seq<Row>, id: Id, r: Row)
    ensures r in Without(list, id) <==> r in list && r.nodeId != id
  {
    if list != [] {
      var front, last := list[..|list| - 1], list[|list| - 1];
      WithoutHas(front, id, r);
      assert r in list <==> r in front || r == last;
    }
  }

  ghost predicate Apart(list: seq<Row>) {
    forall i, j | 0 <= i < j < |list| :: list[i].nodeId != list[j].nodeId
  }

  lemma {:induction false} WithoutApart(list: seq<Row>, id: Id)
    requires Apart(list)
    ensures Apart(Without(list, id))
  {
    if list != [] {
      var front, last := list[..|list| - 1], list[|list| - 1];
      WithoutApart(front, id);
      forall r | r in Without(front, id)
        ensures r.nodeId != last.nodeId
      {
        WithoutHas(front, id, r);
      }
    }
  }

  lemma ListedMore(recs: Records, run: string, list: seq<Row>, row: Row)
    requires ListsRun(recs, run, list)
    ensures ListsRun(recs[(run, row.nodeId) := row], run, Without(list, row.nodeId) + [row])
  {
    var list' := Without(list, row.nodeId) + [row];
    var recs' := recs[(run, row.nodeId) := row];
    forall r
      ensures r in list' <==> (run, r.nodeId) in recs' && recs'[(run, r.nodeId)] == r
    {
      WithoutHas(list, row.nodeId, r);
    }
    assert Apart(list);
    WithoutApart(list, row.nodeId);
    forall r | r in Without(list, row.nodeId)
      ensures r.nodeId != row.nodeId
    {
      WithoutHas(list, row.nodeId, r);
    }
  }

  class MockNodes {
    var lists: map<string, seq<Row>>
    ghost var recs: Records

    ghost predicate Valid()
      reads this
    {
      && (forall run | run in lists :: ListsRun(recs, run, lists[run]))
      && forall p | p in recs :: p.0 in lists && recs[p].nodeId == p.1
    }

    constructor ()
      ensures Valid() && recs == map[]
    {
      lists, recs := map[], map[];
    }

    /** The old record out, the new one at the end. */
    method PutNodeState(run: string, row: Row)
      requires Valid()
      modifies this
      ensures Valid() && recs == old(recs)[(run, row.nodeId) := row]
    {
      hide ListsRun;
      var list := if run in lists then lists[run] else [];
      NothingListed(recs, run, lists);
      ListedMore(recs, run, list, row);
      OthersListed(recs, run, lists, row);
      var kept: seq<Row> := [];
      for i := 0 to |list|
        invariant kept == Without(list[..i], row.nodeId)
      {
        assert list[..i + 1][..i] == list[..i];
        if list[i].nodeId != row.nodeId {
          kept := kept + [list[i]];
        }
      }
      assert list[..|list|] == list;
      lists := lists[run := kept + [row]];
      recs := recs[(run, row.nodeId) := row];
    }

    method ListNodes(run: string) returns (out: seq<Row>)
      requires Valid()
      ensures ListsRun(recs, run, out)
    {
      out := if run in lists then lists[run] else [];
    }

    method TerminalSet(run: string) returns (out: seq<(Id, Status)>)
      requires Valid()
      ensures TerminalOfRun(recs, run, out)
    {
      hide ListsRun, TerminalOfRun;
      var nodes := ListNodes(run);
      out := FilterTerminal(nodes, recs, run);
    }
  }

  lemma NothingListed(recs: Records, run: string, lists: map<string, seq<Row>>)
    requires forall p | p in recs :: p.0 in lists
    ensures run !in lists ==> ListsRun(recs, run, [])
  {
  }

  lemma OthersListed(recs: Records, run: string, lists: map<string, seq<Row>>, row: Row)
    requires forall r | r in lists :: ListsRun(recs, r, lists[r])
    ensures forall r | r in lists && r != run :: ListsRun(recs[(run, row.nodeId) := row], r, lists[r])
  {
  }

  // ----- The stores agree

  lemma {:induction false} CountOnce(recs: Records, run: string, rows: seq<Row>, r: Row)
    requires Apart(rows)
    ensures multiset(rows)[r] == if r in rows then 1 else 0
  {
    if rows != [] {
      var front, last := rows[..|rows| - 1], rows[|rows| - 1];
      assert rows == front + [last];
      CountOnce(recs, run, front, r);
    }
  }

  /** Two listings of a run are the same rows, whatever their orders. */
  lemma ListingsAgree(recs: Records, run: string, a: seq<Row>, b: seq<Row>)
    requires ListsRun(recs, run, a) && ListsRun(recs, run, b)
    ensures multiset(a) == multiset(b)
  {
    assert Apart(a) && Apart(b);
    forall r: Row
      ensures multiset(a)[r] == multiset(b)[r]
    {
      CountOnce(recs, run, a, r);
      CountOnce(recs, run, b, r);
    }
  }

  /** Both stores, fed the same writes of any mix of runs, hold the last record of each node of each run. */
  method ReplayPuts(puts: seq<Put>) returns (redb: RedbNodes, mock: MockNodes)
    requires forall p | p in puts :: NulFree(p.run)
    ensures redb.Valid() && mock.Valid()
    ensures redb.recs == mock.recs == Written(puts)
  {
    hide NulFree;
    redb := new RedbNodes();
    mock := new MockNodes();
    for i := 0 to |puts|
      invariant fresh(redb) && fresh(mock) && redb.Valid() && mock.Valid()
      invariant redb.recs == mock.recs == Written(puts[..i])
    {
      assert puts[..i + 1][..i] == puts[..i] && puts[i] in puts;
      redb.PutNodeState(puts[i].run, puts[i].row);
      mock.PutNodeState(puts[i].run, puts[i].row);
    }
    assert puts[..|puts|] == puts;
  }
}
