/** In-memory tables: appended chunks, a set of deleted row ids, and transactions that copy
    both when they start. */
module MemoryTables {
  import opened Common

  /** A visible row with its id: its position among all rows ever appended. */
  datatype Visible = Visible(id: nat, row: Row)

  function VisibleIn(rows: seq<Row>, first: nat, dead: set<nat>): seq<Visible> {
    if rows == [] then []
    else
      var n := |rows| - 1;
      VisibleIn(rows[..n], first, dead) + (if first + n in dead then [] else [Visible(first + n, rows[n])])
  }

  /** What a table with these chunks and deletions shows. */
  function Shown(chunks: seq<seq<Row>>, dead: set<nat>): seq<Visible> {
    VisibleIn(Flatten(chunks), 0, dead)
  }

  lemma {:induction false} VisibleSnoc(rows: seq<Row>, r: Row, first: nat, dead: set<nat>)
    ensures VisibleIn(rows + [r], first, dead) ==
            VisibleIn(rows, first, dead) + (if first + |rows| in dead then [] else [Visible(first + |rows|, r)])
  {
    assert (rows + [r])[..|rows|] == rows;
  }

  lemma {:induction false} VisibleNone(first: nat, dead: set<nat>)
    ensures VisibleIn([], first, dead) == []
  {}

  lemma {:induction false} VisibleAppend(a: seq<Row>, b: seq<Row>, first: nat, dead: set<nat>)
    ensures VisibleIn(a + b, first, dead) == VisibleIn(a, first, dead) + VisibleIn(b, first + |a|, dead)
  {
    hide VisibleIn;
    if b == [] {
      assert a + b == a;
      VisibleNone(first + |a|, dead);
    } else {
      var n := |b| - 1;
      VisibleAppend(a, b[..n], first, dead);
      VisibleSnoc(a + b[..n], b[n], first, dead);
      VisibleSnoc(b[..n], b[n], first + |a|, dead);
      assert a + b == a + b[..n] + [b[n]] && b == b[..n] + [b[n]];
    }
  }

  // ---- what the operations do ----

  datatype Txn = Txn(snapshot: seq<seq<Row>>, dead: set<nat>, buffer: seq<seq<Row>>, deletes: seq<nat>)

  datatype Table = Table(chunks: seq<seq<Row>>, dead: set<nat>)

  function Ids(deletes: seq<nat>): set<nat> {
    set x | x in deletes
  }

  function Started(t: Table): Txn {
    Txn(t.chunks, t.dead, [], [])
  }

  function Buffered(x: Txn, chunk: seq<Row>): Txn {
    x.(buffer := x.buffer + [chunk])
  }

  function Marked(x: Txn, row: nat): Txn {
    x.(deletes := x.deletes + [row])
  }

  function Applied(t: Table, x: Txn): Table {
    Table(t.chunks + x.buffer, t.dead + Ids(x.deletes))
  }

  // ---- the objects ----

  class TableInner {
    var chunks: seq<seq<Row>>
    var deletedRows: set<nat>

    function View(): Table
      reads this
    {
      Table(chunks, deletedRows)
    }

    constructor ()
      ensures View() == Table([], {})
    {
      chunks, deletedRows := [], {};
    }

    method Append(chunk: seq<Row>)
      modifies this`chunks
      ensures chunks == old(chunks) + [chunk]
    {
      chunks := chunks + [chunk];
    }

    method Delete(row: nat)
      modifies this`deletedRows
      ensures deletedRows == old(deletedRows) + {row}
    {
      deletedRows := deletedRows + {row};
    }
  }

  class Transaction {
    const table: TableInner
    const snapshot: seq<seq<Row>>
    const deletedRows: set<nat>
    var buffer: seq<seq<Row>>
    var deleteBuffer: seq<nat>

    function View(): Txn
      reads this
    {
      Txn(snapshot, deletedRows, buffer, deleteBuffer)
    }

    constructor (table: TableInner)
      ensures this.table == table && View() == Started(table.View())
    {
      this.table, snapshot, deletedRows := table, table.chunks, table.deletedRows;
      buffer, deleteBuffer := [], [];
    }

    method Append(chunk: seq<Row>)
      modifies this`buffer
      ensures View() == Buffered(old(View()), chunk)
    {
      buffer := buffer + [chunk];
    }

    method Delete(row: nat)
      modifies this`deleteBuffer
      ensures View() == Marked(old(View()), row)
    {
      deleteBuffer := deleteBuffer + [row];
    }

    /** Applies both buffers to the table as it is now. */
    method Commit()
      modifies this, table
      ensures table.View() == Applied(old(table.View()), old(View()))
      ensures buffer == [] && deleteBuffer == []
    {
      for i := 0 to |buffer|
        invariant buffer == old(buffer) && deleteBuffer == old(deleteBuffer)
        invariant table.deletedRows == old(table.deletedRows)
        invariant table.chunks == old(table.chunks) + buffer[..i]
      {
        table.Append(buffer[i]);
      }
      for i := 0 to |deleteBuffer|
        invariant buffer == old(buffer) && deleteBuffer == old(deleteBuffer)
        invariant table.chunks == old(table.chunks) + buffer
        invariant table.deletedRows == old(table.deletedRows) + Ids(deleteBuffer[..i])
      {
        assert deleteBuffer[..i + 1] == deleteBuffer[..i] + [deleteBuffer[i]];
        table.Delete(deleteBuffer[i]);
      }
      assert deleteBuffer[..|deleteBuffer|] == deleteBuffer;
      buffer, deleteBuffer := [], [];
    }
  }

  /** Scans a snapshot chunk by chunk, counting row ids across chunks. */
  class TxnIterator {
    const chunks: seq<seq<Row>>
    const deletedRows: set<nat>
    var cnt: nat
    var rowCnt: nat

    constructor (chunks: seq<seq<Row>>, deletedRows: set<nat>)
      ensures Valid() && cnt == 0 && this.chunks == chunks && this.deletedRows == deletedRows
    {
      this.chunks, this.deletedRows := chunks, deletedRows;
      cnt, rowCnt := 0, 0;
    }

    ghost predicate Valid()
      reads this
    {
      cnt <= |chunks| && rowCnt == |Flatten(chunks[..cnt])|
    }

    method NextBatch() returns (batch: Option<seq<Visible>>)
      requires Valid()
      modifies this
      ensures Valid()
      ensures if old(cnt) == |chunks| then batch == None && cnt == old(cnt)
              else cnt == old(cnt) + 1 && batch == Some(VisibleIn(chunks[old(cnt)], |Flatten(chunks[..old(cnt)])|,
                  deletedRows))
    {
      if cnt >= |chunks| {
        return None;
      }
      var chunk := chunks[cnt];
      var kept := VisibleRows(chunk, rowCnt, deletedRows);
      assert chunks[..cnt + 1] == chunks[..cnt] + [chunk];
      FlattenSnoc(chunks[..cnt], chunk);
      cnt := cnt + 1;
      rowCnt := rowCnt + |chunk|;
      return Some(kept);
    }

    /** The batches of a whole scan together are what the snapshot shows, in order. */
    method Drain() returns (all: seq<Visible>)
      requires Valid() && cnt == 0
      modifies this
      ensures all == Shown(chunks, deletedRows)
    {
      hide Flatten, VisibleIn;
      all := [];
      NoRows(chunks, deletedRows);
      while true
        invariant Valid() && all == VisibleIn(Flatten(chunks[..cnt]), 0, deletedRows)
        decreases |chunks| - cnt
      {
        ghost var c := cnt;
        var batch := NextBatch();
        if batch.None? {
          assert chunks[..c] == chunks;
          return;
        }
        OneChunkMore(chunks, c, deletedRows);
        all := all + batch.value;
      }
    }
  }

  lemma {:induction false} NoRows(chunks: seq<seq<Row>>, dead: set<nat>)
    ensures VisibleIn(Flatten(chunks[..0]), 0, dead) == []
  {}

  lemma {:induction false} OneChunkMore(chunks: seq<seq<Row>>, c: nat, dead: set<nat>)
    requires c < |chunks|
    ensures VisibleIn(Flatten(chunks[..c + 1]), 0, dead) ==
            VisibleIn(Flatten(chunks[..c]), 0, dead) + VisibleIn(chunks[c], |Flatten(chunks[..c])|, dead)
  {
    hide Flatten, VisibleIn;
    assert chunks[..c + 1] == chunks[..c] + [chunks[c]];
    FlattenSnoc(chunks[..c], chunks[c]);
    VisibleAppend(Flatten(chunks[..c]), chunks[c], 0, dead);
  }

  method VisibleRows(chunk: seq<Row>, first: nat, dead: set<nat>) returns (kept: seq<Visible>)
    ensures kept == VisibleIn(chunk, first, dead)
  {
    kept := [];
    for i := 0 to |chunk|
      invariant kept == VisibleIn(chunk[..i], first, dead)
    {
      assert chunk[..i + 1] == chunk[..i] + [chunk[i]];
      VisibleSnoc(chunk[..i], chunk[i], first, dead);
      if first + i !in dead {
        kept := kept + [Visible(first + i, chunk[i])];
      }
    }
    assert chunk[..|chunk|] == chunk;
  }

  // ---- interleavings ----

  datatype State = State(table: Table, txns: map<nat, Txn>)

  datatype Action =
    | Start(id: nat)
    | Append(id: nat, chunk: seq<Row>)
    | Delete(id: nat, row: nat)
    | Commit(id: nat)
    | Abort(id: nat)

  const EMPTY := State(Table([], {}), map[])

  predicate Enabled(s: State, a: Action) {
    if a.Start? then a.id !in s.txns else a.id in s.txns
  }

  function Step(s: State, a: Action): State
    requires Enabled(s, a)
  {
    match a
    case Start(id) => s.(txns := s.txns[id := Started(s.table)])
    case Append(id, chunk) => s.(txns := s.txns[id := Buffered(s.txns[id], chunk)])
    case Delete(id, row) => s.(txns := s.txns[id := Marked(s.txns[id], row)])
    case Commit(id) => State(Applied(s.table, s.txns[id]), s.txns - {id})
    case Abort(id) => s.(txns := s.txns - {id})
  }

  ghost predicate IsRun(states: seq<State>, actions: seq<Action>) {
    && |states| == |actions| + 1
    && states[0] == EMPTY
    && forall i {:trigger actions[i]} :: 0 <= i < |actions| ==>
         Enabled(states[i], actions[i]) && states[i + 1] == Step(states[i], actions[i])
  }

  /** What a scan of a transaction returns. */
  function ScanOf(t: Txn): seq<Visible> {
    Shown(t.snapshot, t.dead)
  }

  /** The transaction started at step `i` is still running, and the same, at state `j`. */
  ghost predicate StillOpen(actions: seq<Action>, id: nat, i: nat, j: nat) {
    forall k :: i < k < j && k < |actions| ==> !(actions[k].id == id && (actions[k].Commit? || actions[k].Abort?))
  }

  /** However other transactions interleave, every scan of a transaction returns exactly the
      rows that were visible when it started. */
  lemma {:induction false} ScanSeesStart(states: seq<State>, actions: seq<Action>, i: nat, j: nat)
    requires IsRun(states, actions) && i < j < |states| && actions[i].Start?
    requires StillOpen(actions, actions[i].id, i, j)
    ensures actions[i].id in states[j].txns
    ensures ScanOf(states[j].txns[actions[i].id]) == Shown(states[i].table.chunks, states[i].table.dead)
  {
    hide Shown;
    SnapshotKept(states, actions, i, j);
  }

  lemma {:induction false} SnapshotKept(states: seq<State>, actions: seq<Action>, i: nat, j: nat)
    requires IsRun(states, actions) && i < j < |states| && actions[i].Start?
    requires StillOpen(actions, actions[i].id, i, j)
    ensures var id := actions[i].id;
            id in states[j].txns && states[j].txns[id].snapshot == states[i].table.chunks && states[j].txns[id].dead ==
                states[i].table.dead
    decreases j
  {
    var id := actions[i].id;
    assert states[j] == Step(states[j - 1], actions[j - 1]);
    if i < j - 1 {
      SnapshotKept(states, actions, i, j - 1);
      assert Enabled(states[j - 1], actions[j - 1]);
    }
  }

  /** Chunks are only ever appended and deletions only ever added. */
  lemma {:induction false} TableGrows(states: seq<State>, actions: seq<Action>, i: nat, j: nat)
    requires IsRun(states, actions) && i <= j < |states|
    ensures states[i].table.chunks <= states[j].table.chunks && states[i].table.dead <= states[j].table.dead
    decreases j
  {
    if i < j {
      TableGrows(states, actions, i, j - 1);
      assert states[j] == Step(states[j - 1], actions[j - 1]);
    }
  }

  /** A row id names the same row in every later state, and a row once deleted stays so. */
  lemma {:induction false} RowIdsAreStable(states: seq<State>, actions: seq<Action>, i: nat, j: nat, row: nat)
    requires IsRun(states, actions) && i <= j < |states| && row < |Flatten(states[i].table.chunks)|
    ensures row < |Flatten(states[j].table.chunks)| && Flatten(states[j].table.chunks)[row] ==
            Flatten(states[i].table.chunks)[row]
    ensures row in states[i].table.dead ==> row in states[j].table.dead
  {
    TableGrows(states, actions, i, j);
    var a, b := states[i].table.chunks, states[j].table.chunks;
    assert b == a + b[|a|..];
    FlattenAppend(a, b[|a|..]);
  }

  /** The chunks a transaction has appended since it started. */
  function AppendedBy(actions: seq<Action>, id: nat): seq<seq<Row>> {
    if actions == [] then []
    else
      var n := |actions| - 1;
      if actions[n] == Start(id) then []
      else AppendedBy(actions[..n], id) + if actions[n].Append? && actions[n].id == id then [actions[n].chunk] else []
  }

  /** The rows it has deleted. */
  function DeletedBy(actions: seq<Action>, id: nat): set<nat> {
    if actions == [] then {}
    else
      var n := |actions| - 1;
      if actions[n] == Start(id) then {}
      else DeletedBy(actions[..n], id) + if actions[n].Delete? && actions[n].id == id then {actions[n].row} else {}
  }

  /** What the transactions that committed have appended, in commit order. */
  function Committed(actions: seq<Action>): seq<seq<Row>> {
    if actions == [] then []
    else
      var n := |actions| - 1;
      Committed(actions[..n]) + if actions[n].Commit? then AppendedBy(actions[..n], actions[n].id) else []
  }

  /** And what they have deleted. */
  function CommittedDeletes(actions: seq<Action>): set<nat> {
    if actions == [] then {}
    else
      var n := |actions| - 1;
      CommittedDeletes(actions[..n]) + if actions[n].Commit? then DeletedBy(actions[..n], actions[n].id) else {}
  }

  /** The buffers of an open transaction are what it appended and deleted. */
  lemma {:induction false} BuffersAre(states: seq<State>, actions: seq<Action>, n: nat, id: nat)
    requires IsRun(states, actions) && n <= |actions| && id in states[n].txns
    ensures states[n].txns[id].buffer == AppendedBy(actions[..n], id)
    ensures Ids(states[n].txns[id].deletes) == DeletedBy(actions[..n], id)
  {
    if n > 0 {
      var s, a := states[n - 1], actions[n - 1];
      assert Enabled(s, a) && states[n] == Step(s, a);
      assert actions[..n][..n - 1] == actions[..n - 1] && actions[..n][n - 1] == a;
      if a != Start(id) {
        BuffersAre(states, actions, n - 1, id);
      }
    }
  }

  /** In every reachable state the table is what the committed transactions appended, in commit order, minus what
      they deleted; open and aborted transactions leave no trace. */
  lemma {:induction false} TableIsCommits(states: seq<State>, actions: seq<Action>, n: nat)
    requires IsRun(states, actions) && n <= |actions|
    ensures states[n].table == Table(Committed(actions[..n]), CommittedDeletes(actions[..n]))
    ensures Shown(states[n].table.chunks, states[n].table.dead) ==
            VisibleIn(Flatten(Committed(actions[..n])), 0, CommittedDeletes(actions[..n]))
  {
    hide VisibleIn;
    if n > 0 {
      TableIsCommits(states, actions, n - 1);
      var s, a := states[n - 1], actions[n - 1];
      assert Enabled(s, a) && states[n] == Step(s, a);
      assert actions[..n][..n - 1] == actions[..n - 1] && actions[..n][n - 1] == a;
      if a.Commit? {
        BuffersAre(states, actions, n - 1, a.id);
      }
    }
  }

  ghost predicate IdsAscend(shown: seq<Visible>, n: nat) {
    && (forall i :: 0 <= i < |shown| ==> shown[i].id < n)
    && (forall i, j :: 0 <= i < j < |shown| ==> shown[i].id < shown[j].id)
  }

  /** Rows are shown in the order of their ids. */
  lemma {:induction false} ShownInOrder(rows: seq<Row>, dead: set<nat>)
    ensures IdsAscend(VisibleIn(rows, 0, dead), |rows|)
  {
    if rows != [] {
      ShownInOrder(rows[..|rows| - 1], dead);
    }
  }

  /** A row is shown exactly when it exists and is not deleted. */
  lemma {:induction false} ShownIff(rows: seq<Row>, dead: set<nat>, id: nat, r: Row)
    ensures Visible(id, r) in VisibleIn(rows, 0, dead) <==> id < |rows| && rows[id] == r && id !in dead
  {
    if rows != [] {
      ShownIff(rows[..|rows| - 1], dead, id, r);
    }
  }
}
