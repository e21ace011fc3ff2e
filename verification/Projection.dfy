/**
 * Diagnostics point into source tables. A snapshot drops every source that no diagnostic
 * needs, renumbers the rest densely across all tables, and must keep each diagnostic's
 * chain of including files.
 *
 * Lemmas about tables switch automatic induction off: an induction hypothesis over records
 * that hold object references is of no use here and confuses the verifier.
 */
module Projection {
  import opened Common
  import opened SourceTables

  datatype SourceRef = SourceRef(table: DiagnosticSources, index: nat)

  /** What a diagnostic says; the snapshot copies it. */
  datatype Body = Body(code: string, severity: string, setting: string, value: string, message: string,
                       line: Option<nat>, byteColumn: Option<nat>, terminal: bool)

  datatype Diagnostic = Diagnostic(source: SourceRef, body: Body)

  datatype Table = Table(source: DiagnosticSources, metadata: seq<Source>, referenced: seq<bool>)

  datatype PendingRow = PendingRow(diagnostic: Diagnostic, table: nat)

  datatype SourceRow = SourceRow(id: nat, ordinal: nat, parent: Option<nat>)

  datatype SnapshotRow = SnapshotRow(source: nat, body: Body)

  datatype Snapshot = Snapshot(generation: nat, sources: seq<SourceRow>, diagnostics: seq<SnapshotRow>)

  ghost predicate WellKept(t: Table) {
    |t.metadata| == |t.referenced| && Ordered(t.metadata) && Closed(t.metadata, t.referenced)
  }

  ghost predicate AllKept(tables: seq<Table>) {
    forall t :: 0 <= t < |tables| ==> WellKept(tables[t])
  }

  // ---- Dense numbering --------------------------------------------------------------------

  function Count(marks: seq<bool>, n: nat): nat
    requires n <= |marks|
  {
    if n == 0 then 0 else Count(marks, n - 1) + (if marks[n - 1] then 1 else 0)
  }

  lemma {:induction false} CountGrows(marks: seq<bool>, i: nat, n: nat)
    requires i <= n <= |marks|
    ensures Count(marks, i) <= Count(marks, n)
    ensures i < n && marks[i] ==> Count(marks, i) < Count(marks, n)
    decreases n
  {
    if i < n {
      CountGrows(marks, i, n - 1);
    }
  }

  ghost function NewRow(t: Table, base: nat, i: nat): SourceRow
    requires WellKept(t) && i < |t.metadata| && t.referenced[i]
  {
    var parent := t.metadata[i].parent;
    assert ParentMarked(t.metadata, t.referenced, i);
    SourceRow(base + Count(t.referenced, i), i,
              if parent.None? then None else Some(base + Count(t.referenced, parent.value)))
  }

  /** The rows of a table's first `n` sources, numbered from `base`. */
  ghost function TableRows(t: Table, base: nat, n: nat): (rows: seq<SourceRow>)
    requires WellKept(t) && n <= |t.metadata|
    ensures |rows| == Count(t.referenced, n)
  {
    if n == 0 then []
    else TableRows(t, base, n - 1) + (if t.referenced[n - 1] then [NewRow(t, base, n - 1)] else [])
  }

  ghost function AllRows(tables: seq<Table>, n: nat): seq<SourceRow>
    requires AllKept(tables) && n <= |tables|
  {
    if n == 0 then []
    else
      var before := AllRows(tables, n - 1);
      before + TableRows(tables[n - 1], |before|, |tables[n - 1].metadata|)
  }

  /** The published number of a marked source. */
  ghost function IdOf(tables: seq<Table>, t: nat, i: nat): nat
    requires AllKept(tables) && t < |tables| && i < |tables[t].metadata|
  {
    |AllRows(tables, t)| + Count(tables[t].referenced, i)
  }

  ghost predicate MarkedIn(t: Table, i: nat) {
    i < |t.metadata| && i < |t.referenced| && t.referenced[i]
  }

  ghost predicate IsMarked(tables: seq<Table>, t: nat, i: nat) {
    t < |tables| && MarkedIn(tables[t], i)
  }

  lemma {:induction false} TableRowAt(t: Table, base: nat, n: nat, i: nat)
    requires WellKept(t) && i < n <= |t.metadata| && t.referenced[i]
    ensures Count(t.referenced, i) < Count(t.referenced, n)
    ensures TableRows(t, base, n)[Count(t.referenced, i)] == NewRow(t, base, i)
    decreases n
  {
    CountGrows(t.referenced, i, n);
    if i < n - 1 {
      TableRowAt(t, base, n - 1, i);
    }
  }

  lemma {:induction false} AllRowsGrow(tables: seq<Table>, t: nat, n: nat)
    requires AllKept(tables) && t <= n <= |tables|
    ensures AllRows(tables, t) <= AllRows(tables, n)
    decreases n
  {
    if t < n {
      AllRowsGrow(tables, t, n - 1);
    }
  }

  lemma {:induction false} NotShorter(tables: seq<Table>, t: nat, n: nat)
    requires AllKept(tables) && t <= n <= |tables|
    ensures |AllRows(tables, t)| <= |AllRows(tables, n)|
  {
    AllRowsGrow(tables, t, n);
  }

  lemma {:induction false} IdWithin(tables: seq<Table>, t: nat, i: nat)
    requires AllKept(tables) && IsMarked(tables, t, i)
    ensures IdOf(tables, t, i) < |AllRows(tables, t + 1)|
  {
    TableRowAt(tables[t], |AllRows(tables, t)|, |tables[t].metadata|, i);
  }

  /** The row of a marked source stands at its number. */
  ghost predicate PublishedAt(t: Table, base: nat, rows: seq<SourceRow>, i: nat)
    requires WellKept(t) && MarkedIn(t, i)
  {
    base + Count(t.referenced, i) < |rows| && rows[base + Count(t.referenced, i)] == NewRow(t, base, i)
  }

  lemma {:induction false} RowPublished(tables: seq<Table>, t: nat, i: nat)
    requires AllKept(tables) && IsMarked(tables, t, i)
    ensures PublishedAt(tables[t], |AllRows(tables, t)|, AllRows(tables, |tables|), i)
  {
    RowAt(tables, t, i);
  }

  /** A marked source is published under its number, in every longer table too. */
  lemma {:induction false} RowAt(tables: seq<Table>, t: nat, i: nat)
    requires AllKept(tables) && IsMarked(tables, t, i)
    ensures IdOf(tables, t, i) < |AllRows(tables, t + 1)| <= |AllRows(tables, |tables|)|
    ensures AllRows(tables, |tables|)[IdOf(tables, t, i)] == NewRow(tables[t], |AllRows(tables, t)|, i)
  {
    TableRowAt(tables[t], |AllRows(tables, t)|, |tables[t].metadata|, i);
    AllRowsGrow(tables, t + 1, |tables|);
  }

  lemma {:induction false} TableRowFrom(t: Table, base: nat, n: nat, k: nat) returns (i: nat)
    requires WellKept(t) && n <= |t.metadata| && k < Count(t.referenced, n)
    ensures i < n && t.referenced[i] && Count(t.referenced, i) == k
    decreases n
  {
    if k < Count(t.referenced, n - 1) {
      i := TableRowFrom(t, base, n - 1, k);
    } else {
      i := n - 1;
    }
  }

  /** Every published row comes from a marked source. */
  lemma {:induction false} RowFrom(tables: seq<Table>, n: nat, id: nat) returns (t: nat, i: nat)
    requires AllKept(tables) && n <= |tables| && id < |AllRows(tables, n)|
    ensures t < n && IsMarked(tables, t, i) && IdOf(tables, t, i) == id
    decreases n
  {
    var base := |AllRows(tables, n - 1)|;
    if id < base {
      t, i := RowFrom(tables, n - 1, id);
    } else {
      t := n - 1;
      i := TableRowFrom(tables[t], base, |tables[t].metadata|, id - base);
    }
  }

  lemma {:induction false} IdBelow(tables: seq<Table>, t: nat, i: nat, u: nat)
    requires AllKept(tables) && IsMarked(tables, t, i) && t < u <= |tables|
    ensures IdOf(tables, t, i) < |AllRows(tables, u)|
  {
    IdWithin(tables, t, i);
    NotShorter(tables, t + 1, u);
  }

  lemma {:induction false} EarlierTableSmallerId(tables: seq<Table>, t: nat, i: nat, u: nat, j: nat)
    requires AllKept(tables) && IsMarked(tables, t, i) && IsMarked(tables, u, j) && t < u
    ensures IdOf(tables, t, i) < IdOf(tables, u, j)
  {
    IdBelow(tables, t, i, u);
    assert IdOf(tables, u, j) >= |AllRows(tables, u)|;
  }

  /** Numbers are not shared. */
  lemma {:induction false} IdsDiffer(tables: seq<Table>, t: nat, i: nat, u: nat, j: nat)
    requires AllKept(tables) && IsMarked(tables, t, i) && IsMarked(tables, u, j)
    ensures IdOf(tables, t, i) == IdOf(tables, u, j) <==> t == u && i == j
  {
    if t < u {
      EarlierTableSmallerId(tables, t, i, u, j);
    } else if u < t {
      EarlierTableSmallerId(tables, u, j, t, i);
    } else if i < j {
      CountGrows(tables[t].referenced, i, j);
    } else if j < i {
      CountGrows(tables[t].referenced, j, i);
    }
  }

  // ---- Published chains -----------------------------------------------------------------------

  /** Ids are positions, and a parent's id is smaller than its child's. */
  ghost predicate Dense(rows: seq<SourceRow>) {
    forall k :: 0 <= k < |rows| ==>
      rows[k].id == k && (rows[k].parent.Some? ==> rows[k].parent.value < k)
  }

  /** A published source and its published ancestors, innermost first. */
  ghost function IdChain(rows: seq<SourceRow>, id: nat): (chain: seq<nat>)
    requires Dense(rows) && id < |rows|
    ensures forall a :: 0 <= a < |chain| ==> chain[a] <= id
    decreases id
  {
    [id] + (if rows[id].parent.None? then [] else IdChain(rows, rows[id].parent.value))
  }

  lemma {:induction false} AllRowsDense(tables: seq<Table>)
    requires AllKept(tables)
    ensures Dense(AllRows(tables, |tables|))
  {
    var rows := AllRows(tables, |tables|);
    forall k | 0 <= k < |rows|
      ensures rows[k].id == k && (rows[k].parent.Some? ==> rows[k].parent.value < k)
    {
      var t, i := RowFrom(tables, |tables|, k);
      RowAt(tables, t, i);
      assert ParentMarked(tables[t].metadata, tables[t].referenced, i);
      if rows[k].parent.Some? {
        CountGrows(tables[t].referenced, tables[t].metadata[i].parent.value, i);
      }
    }
  }

  /** The rows of one table's marked sources stand at their numbers. */
  ghost predicate Published(t: Table, base: nat, rows: seq<SourceRow>)
    requires WellKept(t)
  {
    forall i: nat :: MarkedIn(t, i) ==> PublishedAt(t, base, rows, i)
  }

  /** `ids` are the numbers of the sources `chain` of one table, position by position. */
  ghost predicate Numbers(t: Table, base: nat, chain: seq<nat>, ids: seq<nat>)
    requires WellKept(t)
  {
    |ids| == |chain|
    && forall a :: 0 <= a < |chain| ==> MarkedIn(t, chain[a]) && ids[a] == base + Count(t.referenced, chain[a])
  }

  lemma NumbersCons(t: Table, base: nat, i: nat, chain: seq<nat>, ids: seq<nat>)
    requires WellKept(t) && MarkedIn(t, i) && Numbers(t, base, chain, ids)
    ensures Numbers(t, base, [i] + chain, [base + Count(t.referenced, i)] + ids)
  {
  }

  /** The published chain of a marked source is its own chain, source for source. */
  lemma {:induction false} ChainMaps(t: Table, base: nat, rows: seq<SourceRow>, i: nat)
    requires WellKept(t) && Published(t, base, rows) && Dense(rows) && MarkedIn(t, i)
    ensures Numbers(t, base, Chain(t.metadata, i), IdChain(rows, base + Count(t.referenced, i)))
    decreases i
  {
    var id, parent := base + Count(t.referenced, i), t.metadata[i].parent;
    assert PublishedAt(t, base, rows, i);
    assert ParentMarked(t.metadata, t.referenced, i);
    if parent.None? {
      NumbersCons(t, base, i, [], []);
    } else {
      ChainMaps(t, base, rows, parent.value);
      NumbersCons(t, base, i, Chain(t.metadata, parent.value),
                  IdChain(rows, base + Count(t.referenced, parent.value)));
    }
  }

  lemma {:induction false} AllPublished(tables: seq<Table>, t: nat)
    requires AllKept(tables) && t < |tables|
    ensures Published(tables[t], |AllRows(tables, t)|, AllRows(tables, |tables|))
  {
    forall i: nat | MarkedIn(tables[t], i)
      ensures PublishedAt(tables[t], |AllRows(tables, t)|, AllRows(tables, |tables|), i)
    {
      RowPublished(tables, t, i);
    }
  }

  // ---- Collecting -------------------------------------------------------------------------------

  ghost predicate DistinctTables(tables: seq<Table>) {
    forall t, u :: 0 <= t < u < |tables| ==> tables[t].source != tables[u].source
  }

  /** A pending row's source is marked in its own table. */
  ghost predicate RowOk(tables: seq<Table>, row: PendingRow) {
    && IsMarked(tables, row.table, row.diagnostic.source.index)
    && tables[row.table].source == row.diagnostic.source.table
  }

  /** The source is the row's own or one of its ancestors. */
  ghost predicate NeededBy(tables: seq<Table>, row: PendingRow, t: nat, i: nat) {
    && t == row.table && t < |tables| && Ordered(tables[t].metadata)
    && row.diagnostic.source.index < |tables[t].metadata|
    && i in Chain(tables[t].metadata, row.diagnostic.source.index)
  }

  ghost predicate Needed(tables: seq<Table>, rows: seq<PendingRow>, t: nat, i: nat) {
    exists k :: 0 <= k < |rows| && NeededBy(tables, rows[k], t, i)
  }

  ghost predicate Collected(tables: seq<Table>, rows: seq<PendingRow>) {
    && AllKept(tables) && DistinctTables(tables)
    && (forall k :: 0 <= k < |rows| ==> RowOk(tables, rows[k]))
    && (forall t: nat, i: nat :: IsMarked(tables, t, i) ==> Needed(tables, rows, t, i))
  }

  ghost predicate AllFresh(ds: seq<Diagnostic>)
    reads set k | 0 <= k < |ds| :: ds[k].source.table
  {
    forall k :: 0 <= k < |ds| ==> ds[k].source.table.Valid() && ds[k].source.index < |ds[k].source.table.sources|
  }

  /** The diagnostic's source was there when its table was recorded. */
  ghost predicate RecordedFor(tables: seq<Table>, d: Diagnostic) {
    forall t :: 0 <= t < |tables| && tables[t].source == d.source.table ==> d.source.index < |tables[t].metadata|
  }

  ghost predicate AllRecorded(tables: seq<Table>, ds: seq<Diagnostic>) {
    forall k :: 0 <= k < |ds| ==> RecordedFor(tables, ds[k])
  }

  /** Tables recorded before keep their metadata; new ones hold what their sources hold now. */
  ghost predicate Extends(before: seq<Table>, after: seq<Table>)
    reads set t | 0 <= t < |after| :: after[t].source
  {
    && |before| <= |after|
    && (forall t :: 0 <= t < |before| ==>
          after[t].source == before[t].source && after[t].metadata == before[t].metadata)
    && (forall t :: |before| <= t < |after| ==> after[t].metadata == after[t].source.sources)
  }

  lemma {:induction false} NewTableCollected(tables: seq<Table>, rows: seq<PendingRow>, table: Table)
    requires Collected(tables, rows) && WellKept(table)
    requires forall i :: 0 <= i < |table.referenced| ==> !table.referenced[i]
    requires forall t :: 0 <= t < |tables| ==> tables[t].source != table.source
    ensures Collected(tables + [table], rows)
  {
    var more := tables + [table];
    forall t: nat, i: nat | IsMarked(more, t, i)
      ensures Needed(more, rows, t, i)
    {
      assert t < |tables| && IsMarked(tables, t, i);
      var k :| 0 <= k < |rows| && NeededBy(tables, rows[k], t, i);
      assert NeededBy(more, rows[k], t, i);
    }
    forall k | 0 <= k < |rows|
      ensures RowOk(more, rows[k])
    {
      assert RowOk(tables, rows[k]);
    }
  }

  ghost predicate Adds(tables: seq<Table>, row: PendingRow, marks: seq<bool>)
    requires AllKept(tables)
  {
    && row.table < |tables| && tables[row.table].source == row.diagnostic.source.table
    && row.diagnostic.source.index < |tables[row.table].metadata|
    && Marks(tables[row.table].referenced, marks,
             Chain(tables[row.table].metadata, row.diagnostic.source.index))
    && Closed(tables[row.table].metadata, marks)
  }

  ghost function WithMarks(tables: seq<Table>, t: nat, marks: seq<bool>): seq<Table>
    requires t < |tables|
  {
    tables[t := tables[t].(referenced := marks)]
  }

  lemma {:induction false} RowStaysOk(tables: seq<Table>, row: PendingRow, marks: seq<bool>, earlier: PendingRow)
    requires AllKept(tables) && Adds(tables, row, marks) && RowOk(tables, earlier)
    ensures RowOk(WithMarks(tables, row.table, marks), earlier)
  {
  }

  lemma {:induction false} AddedRowOk(tables: seq<Table>, row: PendingRow, marks: seq<bool>)
    requires AllKept(tables) && Adds(tables, row, marks)
    ensures RowOk(WithMarks(tables, row.table, marks), row)
  {
    assert Chain(tables[row.table].metadata, row.diagnostic.source.index)[0] == row.diagnostic.source.index;
  }

  lemma {:induction false} MarkIsNeeded(
      tables: seq<Table>, rows: seq<PendingRow>, row: PendingRow, marks: seq<bool>, t: nat, i: nat)
    requires AllKept(tables) && Adds(tables, row, marks)
    requires IsMarked(tables, t, i) ==> Needed(tables, rows, t, i)
    requires IsMarked(WithMarks(tables, row.table, marks), t, i)
    ensures Needed(WithMarks(tables, row.table, marks), rows + [row], t, i)
  {
    var after, all := WithMarks(tables, row.table, marks), rows + [row];
    if IsMarked(tables, t, i) {
      var k :| 0 <= k < |rows| && NeededBy(tables, rows[k], t, i);
      assert all[k] == rows[k] && NeededBy(after, all[k], t, i);
    } else {
      assert all[|rows|] == row && NeededBy(after, row, t, i);
    }
  }

  lemma {:induction false} NewRowCollected(tables: seq<Table>, rows: seq<PendingRow>, row: PendingRow, marks: seq<bool>)
    requires Collected(tables, rows) && Adds(tables, row, marks)
    ensures Collected(WithMarks(tables, row.table, marks), rows + [row])
  {
    var after, all := WithMarks(tables, row.table, marks), rows + [row];
    forall k | 0 <= k < |all|
      ensures RowOk(after, all[k])
    {
      if k < |rows| {
        RowStaysOk(tables, row, marks, rows[k]);
      } else {
        AddedRowOk(tables, row, marks);
      }
    }
    forall t: nat, i: nat | IsMarked(after, t, i)
      ensures Needed(after, all, t, i)
    {
      MarkIsNeeded(tables, rows, row, marks, t, i);
    }
  }

  lemma StillRecorded(before: seq<Table>, after: seq<Table>, ds: seq<Diagnostic>)
    requires AllFresh(ds) && AllRecorded(before, ds) && Extends(before, after)
    ensures AllRecorded(after, ds)
  {
    forall k | 0 <= k < |ds|
      ensures RecordedFor(after, ds[k])
    {
      assert RecordedFor(before, ds[k]);
    }
  }

  lemma StillExtends(first: seq<Table>, second: seq<Table>, third: seq<Table>)
    requires Extends(first, second) && Extends(second, third)
    ensures Extends(first, third)
  {
  }

  ghost function RowFor(tables: seq<Table>, row: PendingRow): SnapshotRow
    requires AllKept(tables) && RowOk(tables, row)
  {
    SnapshotRow(IdOf(tables, row.table, row.diagnostic.source.index), row.diagnostic.body)
  }

  class Projector {
    var tables: seq<Table>
    var rows: seq<PendingRow>

    ghost predicate Valid()
      reads this
    {
      Collected(tables, rows)
    }

    constructor ()
      ensures Valid() && tables == [] && rows == []
    {
      tables, rows := [], [];
    }

    /**
     * The position of a source's table, recording the table on first use. Source tables may
     * have grown since they were recorded.
     */
    method TableFor(source: DiagnosticSources) returns (index: nat)
      requires Valid() && source.Valid()
      modifies this
      ensures Valid() && rows == old(rows) && Extends(old(tables), tables)
      ensures index < |tables| && tables[index].source == source
    {
      index := 0;
      while index < |tables|
        invariant 0 <= index <= |tables|
        invariant forall t :: 0 <= t < index ==> tables[t].source != source
      {
        if tables[index].source == source {
          return;
        }
        index := index + 1;
      }
      var marks := seq(|source.sources|, _ => false);
      NewTableCollected(tables, rows, Table(source, source.sources, marks));
      tables := tables + [Table(source, source.sources, marks)];
    }

    /** Marks a diagnostic's source and its ancestors, and queues its row. */
    method PushOne(d: Diagnostic)
      requires Valid() && d.source.table.Valid() && d.source.index < |d.source.table.sources|
      requires RecordedFor(tables, d)
      modifies this
      ensures Valid() && Extends(old(tables), tables) && Diagnostics(rows) == Diagnostics(old(rows)) + [d]
    {
      var table := TableFor(d.source.table);
      var t, row := tables[table], PendingRow(d, table);
      var marks := MarkAncestry(t.metadata, t.referenced, d.source.index);
      NewRowCollected(tables, rows, row, marks);
      tables := tables[table := t.(referenced := marks)];
      rows := rows + [row];
    }

    method PushBucket(ds: seq<Diagnostic>)
      requires Valid() && AllFresh(ds) && AllRecorded(tables, ds)
      modifies this
      ensures Valid() && Extends(old(tables), tables) && Diagnostics(rows) == Diagnostics(old(rows)) + ds
    {
      for n := 0 to |ds|
        invariant Valid() && AllFresh(ds) && AllRecorded(tables, ds)
        invariant Extends(old(tables), tables)
        invariant Diagnostics(rows) == Diagnostics(old(rows)) + ds[..n]
      {
        ghost var before := tables;
        PushOne(ds[n]);
        StillRecorded(before, tables, ds);
        StillExtends(old(tables), before, tables);
        assert ds[..n + 1] == ds[..n] + [ds[n]];
      }
      assert ds[..|ds|] == ds;
    }

    /** Numbers the marked sources table by table and points every row at its number. */
    method Finish(generation: nat) returns (snap: Snapshot)
      requires Valid()
      ensures AllKept(tables) && IsFinished(tables, rows, generation, snap)
    {
      var sources, remapped := NumberTables(tables);
      var diagnostics := PointRows(tables, rows, remapped);
      snap := Snapshot(generation, sources, diagnostics);
    }
  }

  /** Rows `diagnostics` say what the pending rows say and point at the numbers of their sources. */
  ghost predicate Points(tables: seq<Table>, rows: seq<PendingRow>, diagnostics: seq<SnapshotRow>)
    requires AllKept(tables)
  {
    |diagnostics| == |rows|
    && forall k :: 0 <= k < |rows| ==> RowOk(tables, rows[k]) && diagnostics[k] == RowFor(tables, rows[k])
  }

  ghost predicate IsFinished(tables: seq<Table>, rows: seq<PendingRow>, generation: nat, snap: Snapshot)
    requires AllKept(tables)
  {
    && snap.generation == generation && snap.sources == AllRows(tables, |tables|)
    && Points(tables, rows, snap.diagnostics)
  }

  method PointRows(tables: seq<Table>, rows: seq<PendingRow>, remapped: seq<seq<Option<nat>>>)
    returns (diagnostics: seq<SnapshotRow>)
    requires AllKept(tables) && AllRemapped(tables, remapped, |tables|)
    requires forall k :: 0 <= k < |rows| ==> RowOk(tables, rows[k])
    ensures Points(tables, rows, diagnostics)
  {
    diagnostics := [];
    for k := 0 to |rows|
      invariant |diagnostics| == k
      invariant forall j :: 0 <= j < k ==> diagnostics[j] == RowFor(tables, rows[j])
    {
      NumberKnown(tables, remapped, rows[k].table, rows[k].diagnostic.source.index);
      var source := remapped[rows[k].table][rows[k].diagnostic.source.index].value;
      diagnostics := diagnostics + [SnapshotRow(source, rows[k].diagnostic.body)];
    }
  }

  function Diagnostics(rows: seq<PendingRow>): seq<Diagnostic> {
    seq(|rows|, k requires 0 <= k < |rows| => rows[k].diagnostic)
  }

  /** The numbers of the marked sources among the first `n`, and nothing for the others. */
  ghost predicate Remaps(t: Table, base: nat, ids: seq<Option<nat>>, n: nat)
    requires WellKept(t) && n <= |t.metadata|
  {
    |ids| == |t.metadata|
    && forall i {:trigger ids[i]} :: 0 <= i < |ids| ==>
      ids[i] == if i < n && t.referenced[i] then Some(base + Count(t.referenced, i)) else None
  }

  lemma {:induction false} RemapsNext(t: Table, base: nat, ids: seq<Option<nat>>, n: nat)
    requires WellKept(t) && n < |t.metadata| && Remaps(t, base, ids, n)
    ensures t.referenced[n] ==> Remaps(t, base, ids[n := Some(base + Count(t.referenced, n))], n + 1)
    ensures !t.referenced[n] ==> Remaps(t, base, ids, n + 1)
  {
  }

  lemma {:induction false} ParentKnown(t: Table, base: nat, ids: seq<Option<nat>>, n: nat)
    requires WellKept(t) && n < |t.metadata| && Remaps(t, base, ids, n) && t.referenced[n]
    ensures var parent := t.metadata[n].parent;
            NewRow(t, base, n).parent
            == if parent.None? then None else assert ParentMarked(t.metadata, t.referenced, n); ids[parent.value]
  {
    assert ParentMarked(t.metadata, t.referenced, n);
  }

  /** Appends the rows of one table. A parent's number is known when its child needs it. */
  method NumberTable(t: Table, before: seq<SourceRow>) returns (sources: seq<SourceRow>, ids: seq<Option<nat>>)
    requires WellKept(t)
    ensures sources == before + TableRows(t, |before|, |t.metadata|)
    ensures Remaps(t, |before|, ids, |t.metadata|)
  {
    sources := before;
    ids := seq(|t.metadata|, _ => None);
    for ordinal := 0 to |t.referenced|
      invariant sources == before + TableRows(t, |before|, ordinal)
      invariant Remaps(t, |before|, ids, ordinal)
    {
      RemapsNext(t, |before|, ids, ordinal);
      if t.referenced[ordinal] {
        ParentKnown(t, |before|, ids, ordinal);
        assert ParentMarked(t.metadata, t.referenced, ordinal);
        ids := ids[ordinal := Some(|sources|)];
        var link := t.metadata[ordinal].parent;
        var row := SourceRow(|sources|, ordinal, if link.None? then None else ids[link.value]);
        Associate(before, TableRows(t, |before|, ordinal), [row]);
        sources := sources + [row];
      }
    }
  }

  ghost predicate AllRemapped(tables: seq<Table>, remapped: seq<seq<Option<nat>>>, n: nat)
    requires AllKept(tables) && n <= |tables|
  {
    |remapped| == n
    && forall t {:trigger remapped[t]} :: 0 <= t < n ==>
      Remaps(tables[t], |AllRows(tables, t)|, remapped[t], |tables[t].metadata|)
  }

  lemma {:induction false} NumberKnown(tables: seq<Table>, remapped: seq<seq<Option<nat>>>, t: nat, i: nat)
    requires AllKept(tables) && AllRemapped(tables, remapped, |tables|) && IsMarked(tables, t, i)
    ensures i < |remapped[t]| && remapped[t][i] == Some(IdOf(tables, t, i))
  {
  }

  method NumberTables(tables: seq<Table>) returns (sources: seq<SourceRow>, remapped: seq<seq<Option<nat>>>)
    requires AllKept(tables)
    ensures sources == AllRows(tables, |tables|) && AllRemapped(tables, remapped, |tables|)
  {
    sources, remapped := [], [];
    for n := 0 to |tables|
      invariant sources == AllRows(tables, n) && AllRemapped(tables, remapped, n)
    {
      var ids;
      sources, ids := NumberTable(tables[n], sources);
      remapped := remapped + [ids];
    }
  }

  // ---- What a reader of the snapshot may rely on ---------------------------------------------------

  ghost predicate ValidRow(sources: seq<SourceRow>, row: SnapshotRow) {
    Dense(sources) && row.source < |sources|
  }

  ghost predicate ValidRef(d: Diagnostic, m: seq<Source>) {
    Ordered(m) && d.source.index < |m|
  }

  /** The row says what its diagnostic says, and its chain is the diagnostic's, ordinal for ordinal. */
  ghost predicate RowFaithful(d: Diagnostic, m: seq<Source>, sources: seq<SourceRow>, row: SnapshotRow) {
    && ValidRef(d, m) && ValidRow(sources, row)
    && row.body == d.body
    && var ids, chain := IdChain(sources, row.source), Chain(m, d.source.index);
       |ids| == |chain| && forall a :: 0 <= a < |ids| ==> sources[ids[a]].ordinal == chain[a]
  }

  /** Positions of two chains share a published source exactly when they share an original one. */
  ghost predicate SharesExactly(
      d: Diagnostic, m: seq<Source>, row: SnapshotRow, e: Diagnostic, n: seq<Source>, other: SnapshotRow,
      sources: seq<SourceRow>)
    requires RowFaithful(d, m, sources, row) && RowFaithful(e, n, sources, other)
  {
    var ids, others := IdChain(sources, row.source), IdChain(sources, other.source);
    forall a, b :: 0 <= a < |ids| && 0 <= b < |others| ==>
      (ids[a] == others[b] <==>
         d.source.table == e.source.table && Chain(m, d.source.index)[a] == Chain(n, e.source.index)[b])
  }

  ghost predicate OnChain(sources: seq<SourceRow>, row: SnapshotRow, id: nat) {
    ValidRow(sources, row)
    && exists a :: 0 <= a < |IdChain(sources, row.source)| && IdChain(sources, row.source)[a] == id
  }

  ghost predicate OnSomeChain(snap: Snapshot, id: nat) {
    exists k :: 0 <= k < |snap.diagnostics| && OnChain(snap.sources, snap.diagnostics[k], id)
  }

  /** `metas[k]` is the content of the table that diagnostic `k` points into. */
  ghost predicate Faithful(ds: seq<Diagnostic>, metas: seq<seq<Source>>, snap: Snapshot) {
    && |metas| == |ds| && |snap.diagnostics| == |ds| && Dense(snap.sources)
    && (forall k :: 0 <= k < |ds| ==> RowFaithful(ds[k], metas[k], snap.sources, snap.diagnostics[k]))
    && (forall k, l :: 0 <= k < |ds| && 0 <= l < |ds| ==>
          SharesExactly(ds[k], metas[k], snap.diagnostics[k], ds[l], metas[l], snap.diagnostics[l], snap.sources))
    && (forall id: nat :: id < |snap.sources| ==> OnSomeChain(snap, id))
  }

  ghost function MetaOf(tables: seq<Table>, row: PendingRow): seq<Source> {
    if row.table < |tables| then tables[row.table].metadata else []
  }

  ghost function MetasOf(tables: seq<Table>, rows: seq<PendingRow>): seq<seq<Source>> {
    seq(|rows|, k requires 0 <= k < |rows| => MetaOf(tables, rows[k]))
  }

  lemma {:induction false} RowChainIn(t: Table, base: nat, sources: seq<SourceRow>, index: nat)
    requires WellKept(t) && Published(t, base, sources) && Dense(sources) && MarkedIn(t, index)
    ensures base + Count(t.referenced, index) < |sources|
    ensures Numbers(t, base, Chain(t.metadata, index), IdChain(sources, base + Count(t.referenced, index)))
  {
    ChainMaps(t, base, sources, index);
  }

  /** The numbers along a row's published chain. */
  lemma {:induction false} RowChain(tables: seq<Table>, row: PendingRow)
    requires AllKept(tables) && RowOk(tables, row)
    ensures var sources, t, index := AllRows(tables, |tables|), row.table, row.diagnostic.source.index;
            && Dense(sources) && IdOf(tables, t, index) < |sources|
            && Numbers(tables[t], |AllRows(tables, t)|, Chain(tables[t].metadata, index),
                       IdChain(sources, IdOf(tables, t, index)))
  {
    AllRowsDense(tables);
    AllPublished(tables, row.table);
    RowChainIn(tables[row.table], |AllRows(tables, row.table)|, AllRows(tables, |tables|),
               row.diagnostic.source.index);
  }

  lemma {:induction false} RowIsFaithful(tables: seq<Table>, row: PendingRow)
    requires AllKept(tables) && RowOk(tables, row)
    ensures RowFaithful(row.diagnostic, tables[row.table].metadata, AllRows(tables, |tables|), RowFor(tables, row))
  {
    RowChain(tables, row);
    var sources, t := AllRows(tables, |tables|), row.table;
    var ids, chain := IdChain(sources, RowFor(tables, row).source),
                      Chain(tables[t].metadata, row.diagnostic.source.index);
    forall a | 0 <= a < |ids|
      ensures sources[ids[a]].ordinal == chain[a]
    {
      assert MarkedIn(tables[t], chain[a]);
      RowAt(tables, t, chain[a]);
    }
  }

  lemma {:induction false} RowsShareExactly(tables: seq<Table>, r: PendingRow, s: PendingRow)
    requires AllKept(tables) && DistinctTables(tables) && RowOk(tables, r) && RowOk(tables, s)
    requires var sources := AllRows(tables, |tables|);
             && RowFaithful(r.diagnostic, tables[r.table].metadata, sources, RowFor(tables, r))
             && RowFaithful(s.diagnostic, tables[s.table].metadata, sources, RowFor(tables, s))
    ensures SharesExactly(r.diagnostic, tables[r.table].metadata, RowFor(tables, r),
                          s.diagnostic, tables[s.table].metadata, RowFor(tables, s), AllRows(tables, |tables|))
  {
    RowChain(tables, r);
    RowChain(tables, s);
    var sources := AllRows(tables, |tables|);
    var ids, others := IdChain(sources, RowFor(tables, r).source), IdChain(sources, RowFor(tables, s).source);
    var chain, link := Chain(tables[r.table].metadata, r.diagnostic.source.index),
                       Chain(tables[s.table].metadata, s.diagnostic.source.index);
    forall a, b | 0 <= a < |ids| && 0 <= b < |others|
      ensures ids[a] == others[b] <==>
                r.diagnostic.source.table == s.diagnostic.source.table && chain[a] == link[b]
    {
      assert MarkedIn(tables[r.table], chain[a]) && MarkedIn(tables[s.table], link[b]);
      IdsDiffer(tables, r.table, chain[a], s.table, link[b]);
    }
  }

  lemma {:induction false} NumberOnChain(t: Table, base: nat, chain: seq<nat>, ids: seq<nat>, i: nat)
    returns (a: nat)
    requires WellKept(t) && Numbers(t, base, chain, ids) && i in chain
    ensures i < |t.referenced| && a < |ids| && ids[a] == base + Count(t.referenced, i)
  {
    a :| 0 <= a < |chain| && chain[a] == i;
  }

  lemma {:induction false} AncestorOnChain(
      t: Table, base: nat, sources: seq<SourceRow>, row: SnapshotRow, index: nat, i: nat, id: nat)
    requires WellKept(t) && Published(t, base, sources) && Dense(sources) && MarkedIn(t, index)
    requires i in Chain(t.metadata, index) && i < |t.referenced|
    requires row.source == base + Count(t.referenced, index) && id == base + Count(t.referenced, i)
    ensures OnChain(sources, row, id)
  {
    RowChainIn(t, base, sources, index);
    var a := NumberOnChain(t, base, Chain(t.metadata, index), IdChain(sources, row.source), i);
    assert IdChain(sources, row.source)[a] == id;
  }

  lemma {:induction false} NeededIsOnChain(tables: seq<Table>, row: PendingRow, t: nat, i: nat)
    requires AllKept(tables) && RowOk(tables, row) && NeededBy(tables, row, t, i) && IsMarked(tables, t, i)
    ensures OnChain(AllRows(tables, |tables|), RowFor(tables, row), IdOf(tables, t, i))
  {
    AllRowsDense(tables);
    AllPublished(tables, t);
    AncestorOnChain(tables[t], |AllRows(tables, t)|, AllRows(tables, |tables|), RowFor(tables, row),
                    row.diagnostic.source.index, i, IdOf(tables, t, i));
  }

  lemma {:induction false} SourceIsOnSomeChain(tables: seq<Table>, rows: seq<PendingRow>, snap: Snapshot, id: nat)
    requires Collected(tables, rows) && IsFinished(tables, rows, snap.generation, snap)
    requires Dense(snap.sources) && id < |snap.sources|
    ensures OnSomeChain(snap, id)
  {
    var t, i := RowFrom(tables, |tables|, id);
    assert Needed(tables, rows, t, i);
    var k :| 0 <= k < |rows| && NeededBy(tables, rows[k], t, i);
    NeededIsOnChain(tables, rows[k], t, i);
    assert snap.diagnostics[k] == RowFor(tables, rows[k]);
  }

  /**
   * The snapshot has dense ids with parents first, keeps every row's text and whole chain,
   * merges exactly the sources that are one source, and holds nothing no row needs.
   */
  lemma {:induction false} FinishedIsFaithful(tables: seq<Table>, rows: seq<PendingRow>, snap: Snapshot)
    requires Collected(tables, rows) && IsFinished(tables, rows, snap.generation, snap)
    ensures Faithful(Diagnostics(rows), MetasOf(tables, rows), snap)
  {
    AllRowsDense(tables);
    forall k | 0 <= k < |rows|
      ensures RowFaithful(rows[k].diagnostic, tables[rows[k].table].metadata, snap.sources, snap.diagnostics[k])
    {
      RowIsFaithful(tables, rows[k]);
    }
    forall k, l | 0 <= k < |rows| && 0 <= l < |rows|
      ensures SharesExactly(rows[k].diagnostic, tables[rows[k].table].metadata, snap.diagnostics[k],
                            rows[l].diagnostic, tables[rows[l].table].metadata, snap.diagnostics[l], snap.sources)
    {
      RowsShareExactly(tables, rows[k], rows[l]);
    }
    forall id: nat | id < |snap.sources|
      ensures OnSomeChain(snap, id)
    {
      SourceIsOnSomeChain(tables, rows, snap, id);
    }
  }

  /** Tables that grew in the meantime mean the same to every row. */
  lemma {:induction false} FaithfulToGrownTables(
      ds: seq<Diagnostic>, metas: seq<seq<Source>>, grown: seq<seq<Source>>, snap: Snapshot)
    requires Faithful(ds, metas, snap) && |grown| == |ds|
    requires forall k :: 0 <= k < |ds| ==> metas[k] <= grown[k] && Ordered(grown[k])
    ensures Faithful(ds, grown, snap)
  {
    forall k | 0 <= k < |ds|
      ensures Chain(grown[k], ds[k].source.index) == Chain(metas[k], ds[k].source.index)
      ensures RowFaithful(ds[k], grown[k], snap.sources, snap.diagnostics[k])
    {
      assert RowFaithful(ds[k], metas[k], snap.sources, snap.diagnostics[k]);
      ChainKept(metas[k], grown[k], ds[k].source.index);
    }
    forall k, l | 0 <= k < |ds| && 0 <= l < |ds|
      ensures SharesExactly(ds[k], grown[k], snap.diagnostics[k], ds[l], grown[l], snap.diagnostics[l], snap.sources)
    {
      assert SharesExactly(ds[k], metas[k], snap.diagnostics[k], ds[l], metas[l], snap.diagnostics[l], snap.sources);
    }
  }
}
