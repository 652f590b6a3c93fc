/** What the write stream of one sync does to the rows of a destination that overwrites and deletes stale rows. */
module RowStore {
  import opened Basics
  import opened SyncRun
  import P = TransformerPipeline
  import R = RecordTransformer

  /** A stored row; the source name and sync time columns may be NULL. */
  datatype Row = Row(table: Bytes, key: Bytes, source: Option<string>, time: Option<int>, value: Bytes)

  type Store = set<Row>

  /**
   How this destination reads records, which rows of a store a delete request dooms (it may follow relations from one
   row to another), and the run's source name and sync time.
   */
  datatype Reader = Reader(rows: Bytes -> seq<Row>, doomed: (Bytes, Store) -> set<Row>, source: string, time: int)

  /** An upsert on the primary key. */
  function Put(store: Store, r: Row): Store {
    (set x | x in store && !(x.table == r.table && x.key == r.key)) + {r}
  }

  function PutAll(store: Store, rs: seq<Row>): Store {
    if rs == [] then store else Put(PutAll(store, rs[..|rs| - 1]), rs[|rs| - 1])
  }

  /** `delete from t where _cq_source_name = $1 and _cq_sync_time < $2`; a NULL in either column is no match. */
  predicate IsStale(rd: Reader, t: Bytes, r: Row) {
    r.table == t && r.source == Some(rd.source) && r.time.Some? && r.time.value < rd.time
  }

  function Effect(rd: Reader, store: Store, w: WriteMessage): Store {
    match w
    case WriteInsert(record) => PutAll(store, rd.rows(record))
    case WriteMigrate(_) => store
    case WriteDelete(request) => store - rd.doomed(request, store)
    case WriteStale(t) => set r | r in store && !IsStale(rd, t, r)
  }

  function After(rd: Reader, store: Store, ws: seq<WriteMessage>): Store {
    if ws == [] then store else Effect(rd, After(rd, store, ws[..|ws| - 1]), ws[|ws| - 1])
  }

  /** The stream up to the first stale delete, when stale deletes come last. */
  function BeforeStale(ws: seq<WriteMessage>): seq<WriteMessage> {
    if ws == [] || !ws[|ws| - 1].WriteStale? then ws else BeforeStale(ws[..|ws| - 1])
  }

  ghost predicate StaleInSome(rd: Reader, ws: seq<WriteMessage>, r: Row) {
    exists j :: 0 <= j < |ws| && ws[j].WriteStale? && IsStale(rd, ws[j].table, r)
  }

  /** Every row this run writes carries the run's source name and sync time. */
  ghost predicate RunStampsRows(rd: Reader, ws: seq<WriteMessage>) {
    forall j, r :: 0 <= j < |ws| && ws[j].WriteInsert? && r in rd.rows(ws[j].record) ==>
      r.source == Some(rd.source) && r.time == Some(rd.time)
  }

  /** A later row of rs has the same key. */
  predicate Overwritten(rs: seq<Row>, q: nat, r: Row) {
    exists i :: q <= i < |rs| && rs[i].table == r.table && rs[i].key == r.key
  }

  /** After upserts a row is there exactly when it was upserted, or there before, and no later one has its key. */
  lemma {:induction false} LastUpsertWins(store: Store, rs: seq<Row>, r: Row)
    ensures r in PutAll(store, rs) <==>
            || (r in store && !Overwritten(rs, 0, r))
            || exists q: nat :: q < |rs| && rs[q] == r && !Overwritten(rs, q + 1, r)
  {
    if rs != [] {
      var n := |rs| - 1;
      LastUpsertWins(store, rs[..n], r);
      if rs[n] == r {
        assert !Overwritten(rs, n + 1, r);
      }
      forall q: nat | q <= n
        ensures Overwritten(rs, q, r) <==>
                Overwritten(rs[..n], q, r) || (rs[n].table == r.table && rs[n].key == r.key)
      {
        OverwrittenMore(rs, q, r);
      }
    }
  }

  lemma OverwrittenMore(rs: seq<Row>, q: nat, r: Row)
    requires rs != [] && q <= |rs| - 1
    ensures var n := |rs| - 1;
      Overwritten(rs, q, r) <==> Overwritten(rs[..n], q, r) || (rs[n].table == r.table && rs[n].key == r.key)
  {
    var n := |rs| - 1;
    if Overwritten(rs[..n], q, r) {
      var i :| q <= i < n && rs[..n][i].table == r.table && rs[..n][i].key == r.key;
      assert rs[i].table == r.table;
    }
    if Overwritten(rs, q, r) {
      var i :| q <= i < |rs| && rs[i].table == r.table && rs[i].key == r.key;
      assert i < n ==> rs[..n][i] == rs[i];
    }
  }

  /** No two rows of a table have the same key. */
  ghost predicate KeysAreUnique(store: Store) {
    forall a, b :: a in store && b in store && a.table == b.table && a.key == b.key ==> a == b
  }

  lemma {:induction false} UpsertsKeepKeys(store: Store, rs: seq<Row>)
    requires KeysAreUnique(store)
    ensures KeysAreUnique(PutAll(store, rs))
  {
    if rs != [] {
      UpsertsKeepKeys(store, rs[..|rs| - 1]);
    }
  }

  /**
   What a stream does: nothing without a message, and then message by message. An insert upserts its rows, a migration
   keeps them, a record delete takes the rows it dooms, and every key stays unique.
   */
  lemma {:induction false} StreamEffects(rd: Reader, store: Store, ws: seq<WriteMessage>, w: WriteMessage)
    ensures After(rd, store, []) == store
    ensures var now, next := After(rd, store, ws), After(rd, store, ws + [w]);
      && (w.WriteInsert? ==> next == PutAll(now, rd.rows(w.record)))
      && (w.WriteMigrate? ==> next == now)
      && (w.WriteDelete? ==> forall r :: r in next <==> r in now && r !in rd.doomed(w.request, now))
      && (w.WriteStale? ==>
            forall r :: r in next <==>
              r in now &&
              !(r.table == w.table && r.source == Some(rd.source) && r.time.Some? && r.time.value < rd.time))
      && (KeysAreUnique(now) ==> KeysAreUnique(next))
  {
    assert (ws + [w])[..|ws|] == ws;
    if w.WriteInsert? && KeysAreUnique(After(rd, store, ws)) {
      UpsertsKeepKeys(After(rd, store, ws), rd.rows(w.record));
    }
  }

  /** Some stale delete of the stream names the row's table, and the row is of this source and older than the run. */
  ghost predicate Doomed(rd: Reader, ws: seq<WriteMessage>, r: Row) {
    && r.source == Some(rd.source) && r.time.Some? && r.time.value < rd.time
    && exists j :: 0 <= j < |ws| && ws[j] == WriteStale(r.table)
  }

  lemma DoomedIsStale(rd: Reader, ws: seq<WriteMessage>, r: Row)
    ensures StaleInSome(rd, ws, r) <==> Doomed(rd, ws, r)
  {
  }

  /** When stale deletes come last, they are just what is cut off. */
  lemma {:induction false} BeforeStaleIs(ws: seq<WriteMessage>)
    requires StaleLast(ws)
    ensures BeforeStale(ws) <= ws
    ensures forall j :: 0 <= j < |ws| ==> (ws[j].WriteStale? <==> j >= |BeforeStale(ws)|)
  {
    if ws != [] {
      if ws[|ws| - 1].WriteStale? {
        BeforeStaleIs(ws[..|ws| - 1]);
      } else {
        NoStaleBefore(ws);
      }
    }
  }

  /** The stale deletes remove exactly the rows of this source, in a listed table, that are older than the run. */
  lemma {:induction false} StaleDeletesAreExact(rd: Reader, store: Store, ws: seq<WriteMessage>)
    requires StaleLast(ws)
    ensures forall r :: r in After(rd, store, ws) <==> r in After(rd, store, BeforeStale(ws)) && !StaleInSome(rd, ws, r)
    ensures forall r :: r in After(rd, store, ws) <==> r in After(rd, store, BeforeStale(ws)) && !Doomed(rd, ws, r)
  {
    forall r ensures StaleInSome(rd, ws, r) <==> Doomed(rd, ws, r) {
      DoomedIsStale(rd, ws, r);
    }
    if ws != [] {
      var front, last := ws[..|ws| - 1], ws[|ws| - 1];
      if last.WriteStale? {
        StaleDeletesAreExact(rd, store, front);
        forall r ensures StaleInSome(rd, ws, r) <==> StaleInSome(rd, front, r) || IsStale(rd, last.table, r) {
          if StaleInSome(rd, front, r) {
            var j :| 0 <= j < |front| && front[j].WriteStale? && IsStale(rd, front[j].table, r);
            assert ws[j] == front[j];
          }
        }
      } else {
        NoStaleBefore(ws);
      }
    }
  }

  lemma NoStaleBefore(ws: seq<WriteMessage>)
    requires StaleLast(ws) && ws != [] && !ws[|ws| - 1].WriteStale?
    ensures forall j :: 0 <= j < |ws| ==> !ws[j].WriteStale?
  {
    forall j | 0 <= j < |ws| ensures !ws[j].WriteStale? {
      if ws[j].WriteStale? {
        StaleToTheEnd(ws, j, |ws| - 1);
      }
    }
  }

  lemma {:induction false} PutAllFrom(store: Store, rs: seq<Row>)
    ensures forall r :: r in PutAll(store, rs) ==> r in store || r in rs
  {
    if rs != [] {
      PutAllFrom(store, rs[..|rs| - 1]);
      assert forall r :: r in rs[..|rs| - 1] ==> r in rs;
    }
  }

  predicate IsStamped(rd: Reader, r: Row) {
    r.source == Some(rd.source) && r.time == Some(rd.time)
  }

  /** What a run brings in carries its stamps, whatever the store held before. */
  lemma {:induction false} OwnRowsAreStamped(rd: Reader, store: Store, ws: seq<WriteMessage>)
    requires RunStampsRows(rd, ws)
    ensures forall r :: r in After(rd, store, ws) ==> r in store || IsStamped(rd, r)
  {
    if ws != [] {
      var front, last := ws[..|ws| - 1], ws[|ws| - 1];
      forall j, r | 0 <= j < |front| && front[j].WriteInsert? && r in rd.rows(front[j].record)
        ensures r.source == Some(rd.source) && r.time == Some(rd.time)
      {
        assert ws[j] == front[j];
      }
      OwnRowsAreStamped(rd, store, front);
      if last.WriteInsert? {
        PutAllFrom(After(rd, store, front), rd.rows(last.record));
      }
    }
  }

  /**
   In every run and for every previous content, the stale deletes take no row that carries the run's stamps, so none
   that the run brought in; what they take is this source's and older, and they take all of that in the listed tables.
   */
  lemma SyncKeepsItsRows(c: Config, states: seq<State>, steps: seq<Step>, k: nat, d: nat, rd: Reader, store: Store)
    requires IsRun(c, states, steps) && k < |states| && d < |c.dests| && d < |states[k].lanes|
    ensures var ws := states[k].lanes[d].stream;
      var before, after := After(rd, store, BeforeStale(ws)), After(rd, store, ws);
      && (forall r :: r in before && IsStamped(rd, r) ==> r in after)
      && (RunStampsRows(rd, ws) ==> forall r :: r in before && r !in store ==> r in after)
      && (forall r :: r in before && r !in after ==>
          r.source == Some(rd.source) && r.time.Some? && r.time.value < rd.time)
      && (forall r :: r in after <==> r in before && !Doomed(rd, ws, r))
      && BeforeStale(ws) <= ws
      && (forall j :: 0 <= j < |ws| ==> (ws[j].WriteStale? <==> j >= |BeforeStale(ws)|))
  {
    var ws := states[k].lanes[d].stream;
    RunInv(c, states, steps, k);
    assert LaneOk(c, states[k], d);
    StaleDeletesAreExact(rd, store, ws);
    BeforeStaleIs(ws);
    if RunStampsRows(rd, ws) {
      OwnRowsAreStamped(rd, store, BeforeStale(ws));
    }
  }

  // ---------------------------------------------------------------- where the stamps come from

  /** Records as bytes, and the time a cell stands for. */
  datatype Format = Format(read: Bytes -> R.Record, write: R.Record -> Bytes, when: R.Cell -> Option<int>)

  function CellOf(rec: R.Record, name: string, i: nat): Option<R.Cell> {
    if !R.HasField(rec.schema.fields, name) then None
    else
      var j := R.FirstNamed(rec.schema.fields, name);
      if j < |rec.columns| && i < |rec.columns[j].cells| then Some(rec.columns[j].cells[i]) else None
  }

  function SourceAt(rec: R.Record, i: nat): Option<string> {
    match CellOf(rec, R.SOURCE_NAME, i)
    case Some(Text(text)) => Some(text)
    case _ => None
  }

  function TimeAt(fmt: Format, rec: R.Record, i: nat): Option<int> {
    match CellOf(rec, R.SYNC_TIME, i)
    case Some(cell) => fmt.when(cell)
    case None => None
  }

  /** The stored rows of a record are its rows: each with the source name and sync time found there. */
  ghost predicate ReadsStamps(rd: Reader, fmt: Format, b: Bytes) {
    && (forall r :: r in rd.rows(b) ==> exists i: nat :: IsRowAt(fmt, fmt.read(b), r, i))
    && (forall i: nat :: i < fmt.read(b).rows ==> IsStored(rd, fmt, b, i))
  }

  ghost predicate IsStored(rd: Reader, fmt: Format, b: Bytes, i: nat) {
    exists r :: r in rd.rows(b) && IsRowAt(fmt, fmt.read(b), r, i)
  }

  predicate IsRowAt(fmt: Format, rec: R.Record, r: Row, i: nat) {
    i < rec.rows && r.source == SourceAt(rec, i) && r.time == TimeAt(fmt, rec, i)
  }

  ghost predicate AllStamped(rd: Reader, b: Bytes) {
    forall r :: r in rd.rows(b) ==> IsStamped(rd, r)
  }

  /** What the run writes into a column: as an added one, or in the cloud over one that is there already. */
  function Stamp(s: R.Settings, lib: R.Library, cloud: bool, fields: seq<R.Field>, name: string): Option<R.Cell> {
    if !R.HasField(fields, name) then R.OwnCell(s, lib, name)
    else if cloud then R.OwnOver(s, lib, fields, fields[R.FirstNamed(fields, name)])
    else None
  }

  lemma {:induction false} FirstNamedIs(fields: seq<R.Field>, name: string, j: nat)
    requires j < |fields| && fields[j].name == name && forall i :: 0 <= i < j ==> fields[i].name != name
    ensures R.FirstNamed(fields, name) == j
  {
    if j > 0 {
      FirstNamedIs(fields[1..], name, j - 1);
    }
  }

  lemma {:induction false} FirstNamedIsFirst(fields: seq<R.Field>, name: string)
    requires R.HasField(fields, name)
    ensures forall i :: 0 <= i < R.FirstNamed(fields, name) ==> fields[i].name != name
  {
    if fields[0].name != name {
      FirstNamedIsFirst(fields[1..], name);
    }
  }

  /** Where a column of the record stands after the transformation. */
  lemma KeptField(s: R.Settings, sc: R.Schema, name: string)
    requires (name == R.SYNC_TIME || name == R.SOURCE_NAME) && R.HasField(sc.fields, name)
    ensures var fields := R.Transformed(s, sc).fields;
      R.HasField(fields, name) && R.FirstNamed(fields, name) == |R.Added(s, sc)| + R.FirstNamed(sc.fields, name)
  {
    var j, added := R.FirstNamed(sc.fields, name), R.Added(s, sc);
    FirstNamedIsFirst(sc.fields, name);
    assert forall i :: 0 <= i < |added| ==> added[i].name != name;
    FirstNamedIs(R.Transformed(s, sc).fields, name, |added| + j);
  }

  /** The cell of a row after the transformation: the run's, or the record's own where the run writes none. */
  lemma CellIs(s: R.Settings, lib: R.Library, cloud: bool, rec: R.Record, name: string, i: nat)
    requires s.sourceName.Some? && s.syncTime.Some? && R.Stamps(s, lib) && R.Aligned(rec) && i < rec.rows
    requires cloud ==> R.ReplacesByName(lib, rec.schema.fields)
    requires name == R.SYNC_TIME || name == R.SOURCE_NAME
    ensures var stamp := Stamp(s, lib, cloud, rec.schema.fields, name);
      CellOf(R.TransformedRecord(s, lib, cloud, rec), name, i) == if stamp.Some? then stamp else CellOf(rec, name, i)
  {
    if R.HasField(rec.schema.fields, name) {
      KeptCellIs(s, lib, cloud, rec, name, i);
    } else {
      AddedCellIs(s, lib, cloud, rec, name, i);
    }
  }

  lemma AddedCellIs(s: R.Settings, lib: R.Library, cloud: bool, rec: R.Record, name: string, i: nat)
    requires s.sourceName.Some? && s.syncTime.Some? && R.Stamps(s, lib) && i < rec.rows
    requires (name == R.SYNC_TIME || name == R.SOURCE_NAME) && !R.HasField(rec.schema.fields, name)
    ensures CellOf(R.TransformedRecord(s, lib, cloud, rec), name, i) == R.OwnCell(s, lib, name)
  {
    var j := if name == R.SYNC_TIME || R.HasField(rec.schema.fields, R.SYNC_TIME) then 0 else 1;
    var t := R.TransformedRecord(s, lib, cloud, rec);
    assert R.Added(s, rec.schema)[j].name == name && t.schema.fields[j].name == name;
    FirstNamedIs(t.schema.fields, name, j);
    R.AddedColumnsAreOwn(s, lib, cloud, rec, j);
  }

  lemma KeptCellIs(s: R.Settings, lib: R.Library, cloud: bool, rec: R.Record, name: string, i: nat)
    requires s.sourceName.Some? && s.syncTime.Some? && R.Stamps(s, lib) && R.Aligned(rec) && i < rec.rows
    requires cloud ==> R.ReplacesByName(lib, rec.schema.fields)
    requires (name == R.SYNC_TIME || name == R.SOURCE_NAME) && R.HasField(rec.schema.fields, name)
    ensures var stamp := Stamp(s, lib, cloud, rec.schema.fields, name);
      CellOf(R.TransformedRecord(s, lib, cloud, rec), name, i) == if stamp.Some? then stamp else CellOf(rec, name, i)
  {
    KeptField(s, rec.schema, name);
    KeptColumnIs(s, lib, cloud, rec, R.FirstNamed(rec.schema.fields, name), i);
    AddedColumnsAlign(s, lib, cloud, rec, R.FirstNamed(rec.schema.fields, name));
  }

  lemma AddedColumnsAlign(s: R.Settings, lib: R.Library, cloud: bool, rec: R.Record, j: nat)
    requires R.Stamps(s, lib) && j < |R.KeptColumns(s, lib, cloud, rec)|
    ensures var (t, n) := (R.TransformedRecord(s, lib, cloud, rec), |R.Added(s, rec.schema)|);
      n + j < |t.columns| && t.columns[n + j] == R.KeptColumns(s, lib, cloud, rec)[j]
  {
    assert |R.AddedColumns(s, lib, rec.schema, rec.rows)| == |R.Added(s, rec.schema)|;
  }

  lemma KeptColumnIs(s: R.Settings, lib: R.Library, cloud: bool, rec: R.Record, j: nat, i: nat)
    requires R.Aligned(rec) && j < |rec.columns| && i < rec.rows && (cloud ==> R.ReplacesByName(lib, rec.schema.fields))
    ensures |R.KeptColumns(s, lib, cloud, rec)| == |rec.columns|
    ensures var own := if cloud then R.OwnOver(s, lib, rec.schema.fields, rec.schema.fields[j]) else None;
      var cells := R.KeptColumns(s, lib, cloud, rec)[j].cells;
      i < |cells| == |rec.columns[j].cells| && cells[i] == if own.Some? then own.value else rec.columns[j].cells[i]
  {
    if cloud {
      R.CloudOverwritesInternal(s, lib, rec, j);
    }
  }

  predicate RowStamped(rec: R.Record, fmt: Format, rd: Reader, i: nat) {
    SourceAt(rec, i) == Some(rd.source) && TimeAt(fmt, rec, i) == Some(rd.time)
  }

  /** The run writes the source name, or the record has it already. */
  predicate SourceStampedAt(s: R.Settings, lib: R.Library, cloud: bool, rec: R.Record, rd: Reader, i: nat) {
    Stamp(s, lib, cloud, rec.schema.fields, R.SOURCE_NAME).Some? || SourceAt(rec, i) == Some(rd.source)
  }

  /** The time the run writes can be read back, in its column's unit, or the record has it already. */
  predicate TimeStampedAt(s: R.Settings, lib: R.Library, cloud: bool, rec: R.Record, fmt: Format, rd: Reader, i: nat) {
    var stamp := Stamp(s, lib, cloud, rec.schema.fields, R.SYNC_TIME);
    (if stamp.Some? then fmt.when(stamp.value) else TimeAt(fmt, rec, i)) == Some(rd.time)
  }

  lemma RowIsStampedIff(s: R.Settings, lib: R.Library, cloud: bool, rec: R.Record, fmt: Format, rd: Reader, i: nat)
    requires s.sourceName == Some(rd.source) && s.syncTime == Some(rd.time) && R.Stamps(s, lib) && R.Aligned(rec)
    requires (cloud ==> R.ReplacesByName(lib, rec.schema.fields)) && i < rec.rows
    ensures RowStamped(R.TransformedRecord(s, lib, cloud, rec), fmt, rd, i) <==>
            SourceStampedAt(s, lib, cloud, rec, rd, i) && TimeStampedAt(s, lib, cloud, rec, fmt, rd, i)
  {
    CellIs(s, lib, cloud, rec, R.SOURCE_NAME, i);
    CellIs(s, lib, cloud, rec, R.SYNC_TIME, i);
  }

  lemma StampedIffEachRow(rd: Reader, fmt: Format, b: Bytes)
    requires ReadsStamps(rd, fmt, b)
    ensures AllStamped(rd, b) <==> forall i: nat :: i < fmt.read(b).rows ==> RowStamped(fmt.read(b), fmt, rd, i)
  {
    if AllStamped(rd, b) {
      forall i: nat | i < fmt.read(b).rows ensures RowStamped(fmt.read(b), fmt, rd, i) {
        assert IsStored(rd, fmt, b, i);
        var r :| r in rd.rows(b) && IsRowAt(fmt, fmt.read(b), r, i);
        assert IsStamped(rd, r);
      }
    }
    if forall i: nat :: i < fmt.read(b).rows ==> RowStamped(fmt.read(b), fmt, rd, i) {
      forall r | r in rd.rows(b) ensures IsStamped(rd, r) {
        var i: nat :| IsRowAt(fmt, fmt.read(b), r, i);
        assert RowStamped(fmt.read(b), fmt, rd, i);
      }
    }
  }

  /**
   The rows of a transformed record carry the run's stamps if and only if each of the two columns was missing, or
   overwritten in the cloud, or had the run's value in every row already.
   */
  lemma TransformedIsStampedIff(s: R.Settings, lib: R.Library, cloud: bool, rec: R.Record, fmt: Format, rd: Reader)
    requires s.sourceName == Some(rd.source) && s.syncTime == Some(rd.time) && R.Stamps(s, lib) && R.Aligned(rec)
    requires cloud ==> R.ReplacesByName(lib, rec.schema.fields)
    requires var t := R.TransformedRecord(s, lib, cloud, rec);
      fmt.read(fmt.write(t)) == t && ReadsStamps(rd, fmt, fmt.write(t))
    ensures AllStamped(rd, fmt.write(R.TransformedRecord(s, lib, cloud, rec))) <==>
            forall i: nat :: i < rec.rows ==>
              SourceStampedAt(s, lib, cloud, rec, rd, i) && TimeStampedAt(s, lib, cloud, rec, fmt, rd, i)
  {
    var t := R.TransformedRecord(s, lib, cloud, rec);
    StampedIffEachRow(rd, fmt, fmt.write(t));
    forall i: nat | i < rec.rows
      ensures RowStamped(t, fmt, rd, i) <==>
              SourceStampedAt(s, lib, cloud, rec, rd, i) && TimeStampedAt(s, lib, cloud, rec, fmt, rd, i)
    {
      RowIsStampedIff(s, lib, cloud, rec, fmt, rd, i);
    }
  }

  lemma {:induction false} ThroughKeepsStamps(rd: Reader, fs: seq<P.Transform>, b: Bytes)
    requires AllStamped(rd, b) && forall f, x :: f in fs && AllStamped(rd, x) ==> AllStamped(rd, f(x))
    ensures AllStamped(rd, P.Through(fs, [b])[0])
    decreases fs
  {
    if fs != [] {
      assert fs[0] in fs && MapSeq(fs[0], [b]) == [fs[0](b)];
      ThroughKeepsStamps(rd, fs[1..], fs[0](b));
    }
  }

  /** When the records sent are stamped and no transformer takes the stamps away, every run stamps its rows. */
  lemma StreamIsStamped(c: Config, states: seq<State>, steps: seq<Step>, k: nat, d: nat, rd: Reader)
    requires IsRun(c, states, steps) && k < |states| && d < |c.dests| && d < |states[k].lanes|
    requires forall m :: m in c.src && m.Insert? ==> AllStamped(rd, c.dests[d].encode(m.record))
    requires forall f, x :: f in Chain(c.dests[d]) && AllStamped(rd, x) ==> AllStamped(rd, f(x))
    ensures RunStampsRows(rd, states[k].lanes[d].stream)
  {
    var ws, dest := states[k].lanes[d].stream, c.dests[d];
    forall j, r | 0 <= j < |ws| && ws[j].WriteInsert? && r in rd.rows(ws[j].record)
      ensures r.source == Some(rd.source) && r.time == Some(rd.time)
    {
      var i := InsertAfterItsMigrations(c, states, steps, k, d, j);
      assert c.src[i] in c.src;
      ThroughKeepsStamps(rd, Chain(dest), dest.encode(c.src[i].record));
      assert IsStamped(rd, r);
    }
  }
}
