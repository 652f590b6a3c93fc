/**
 The PostgreSQL destination's InsertBatch: rows queued and flushed in batches, embeddings written after each flush.
 */
module PgInserts {
  import opened Basics
  import opened PgEmbeddings

  datatype Table = Table(name: string, columns: seq<string>, keyed: bool)

  datatype Query = Upsert(table: Table) | Insert(table: Table)

  /** A row written to a base table, a row written to an embeddings table, or a delete from one by ids. */
  datatype Statement =
    | Base(query: Query, row: Row) | Embed(target: string, row: Row) | DeleteById(config: TableConfig, ids: seq<Id>)

  /** The statements the server has executed, in order. */
  type Log = seq<Statement>

  /** An insert: the table name in the schema's metadata, the rows, and their _cq_ids unless these cannot be read. */
  datatype Message = Message(name: Option<string>, table: Table, rows: seq<Row>, ids: Option<seq<Id>>)

  /** How the server answers a call. */
  datatype Verdict = Done | Deadlock | Failed

  datatype Failure =
    | DbFailed | NoTableName | UnknownTable(name: string) | MissingColumns(name: string) | EmbeddingFailed(error: Error)

  /** The client's settings, the tables the server has, and the server's answer to call number k. */
  datatype Config = Config(
    batchSize: int, retryOnDeadlock: nat, tables: map<string, TableConfig>, known: set<string>,
    normalize: Table -> Table, show: Value -> string, model: Model, verdict: nat -> Verdict)

  /** As validated: no two source tables share a target table. */
  ghost predicate DistinctTargets(cfg: Config) {
    forall a, b :: a in cfg.tables && b in cfg.tables && cfg.tables[a].target == cfg.tables[b].target ==> a == b
  }

  /** No call from number a to b was made, or the last of them was executed. */
  predicate LastDone(cfg: Config, a: nat, b: nat) {
    a < b ==> cfg.verdict(b - 1).Done?
  }

  lemma MoreCalls(cfg: Config, a: nat, b: nat, c: nat)
    requires a <= b <= c && LastDone(cfg, a, b)
    ensures LastDone(cfg, a, c) <==> LastDone(cfg, b, c)
  {
  }

  // ---------------------------------------------------------------- what a log leaves behind

  /** The rows of an embeddings table. */
  function Rows(log: Log, target: string): seq<Row> {
    if log == [] then []
    else
      var before := Rows(log[..|log| - 1], target);
      match log[|log| - 1]
      case Embed(t, row) => if t == target then before + [row] else before
      case DeleteById(config, ids) => if config.target == target then Without(config, before, ids) else before
      case Base(_, _) => before
  }

  /** The statements on base tables. */
  function BaseOf(log: Log): Log {
    if log == [] then []
    else BaseOf(log[..|log| - 1]) + if log[|log| - 1].Base? then [log[|log| - 1]] else []
  }

  ghost predicate AllBase(batch: Log) {
    forall i :: 0 <= i < |batch| ==> batch[i].Base?
  }

  ghost predicate NoBase(batch: Log) {
    forall i :: 0 <= i < |batch| ==> !batch[i].Base?
  }

  function Embeds(target: string, rows: seq<Row>): Log {
    MapSeq(row => Embed(target, row), rows)
  }

  lemma {:induction false} BaseOfConcat(a: Log, b: Log)
    ensures BaseOf(a + b) == BaseOf(a) + BaseOf(b)
  {
    if b == [] {
      assert a + b == a;
    } else {
      assert (a + b)[..|a + b| - 1] == a + b[..|b| - 1];
      BaseOfConcat(a, b[..|b| - 1]);
    }
  }

  lemma {:induction false} BaseOfAre(batch: Log)
    ensures AllBase(batch) ==> BaseOf(batch) == batch
    ensures NoBase(batch) ==> BaseOf(batch) == []
  {
    if batch != [] {
      BaseOfAre(batch[..|batch| - 1]);
    }
  }

  lemma {:induction false} RowsOfBase(log: Log, batch: Log, target: string)
    requires AllBase(batch)
    ensures Rows(log + batch, target) == Rows(log, target)
  {
    if batch == [] {
      assert log + batch == log;
    } else {
      assert (log + batch)[..|log + batch| - 1] == log + batch[..|batch| - 1];
      RowsOfBase(log, batch[..|batch| - 1], target);
    }
  }

  lemma {:induction false} RowsOfEmbeds(log: Log, t: string, rows: seq<Row>, target: string)
    ensures Rows(log + Embeds(t, rows), target) == if t == target then Rows(log, target) + rows else Rows(log, target)
  {
    if rows == [] {
      assert log + Embeds(t, rows) == log;
    } else {
      var front, all := rows[..|rows| - 1], log + Embeds(t, rows);
      RowsOfEmbeds(log, t, front, target);
      assert all[..|all| - 1] == log + Embeds(t, front) && all[|all| - 1] == Embed(t, rows[|rows| - 1]);
    }
  }

  /** Some of the first n answers from call k on is a success, after nothing but deadlocks. */
  predicate Retried(verdict: nat -> Verdict, k: nat, n: nat)
    decreases n
  {
    n > 0 && (verdict(k).Done? || (verdict(k).Deadlock? && Retried(verdict, k + 1, n - 1)))
  }

  /** Tried again after a deadlock only: the first of the n calls that is none is a success. */
  lemma {:induction false} RetriedIff(verdict: nat -> Verdict, k: nat, n: nat)
    ensures Retried(verdict, k, n) <==>
            exists j: nat :: k <= j < k + n && verdict(j).Done? && forall i: nat :: k <= i < j ==> verdict(i).Deadlock?
    decreases n
  {
    if n > 0 {
      RetriedIff(verdict, k + 1, n - 1);
      if verdict(k).Deadlock? && Retried(verdict, k + 1, n - 1) {
        var j: nat :| k + 1 <= j < k + n && verdict(j).Done? &&
            forall i: nat :: k + 1 <= i < j ==> verdict(i).Deadlock?;
        assert forall i: nat :: k <= i < j ==> verdict(i).Deadlock?;
      }
    }
  }

  // ---------------------------------------------------------------- the chunks of a list of messages

  function RowCount(ms: seq<Message>): nat {
    if ms == [] then 0 else RowCount(ms[..|ms| - 1]) + |ms[|ms| - 1].rows|
  }

  /** The chunks completed, and the messages queued since. */
  datatype Cut = Cut(done: seq<seq<Message>>, open: seq<Message>)

  function Queue(size: int, cut: Cut, m: Message): Cut {
    var open := cut.open + [m];
    if RowCount(open) >= size then Cut(cut.done + [open], []) else Cut(cut.done, open)
  }

  function CutOf(size: int, ms: seq<Message>): Cut {
    if ms == [] then Cut([], []) else Queue(size, CutOf(size, ms[..|ms| - 1]), ms[|ms| - 1])
  }

  /** What is flushed together: the completed chunks and the rest, which may be empty. */
  function FlushesOf(size: int, ms: seq<Message>): seq<seq<Message>> {
    CutOf(size, ms).done + [CutOf(size, ms).open]
  }

  /** The messages in the chunks and behind them, in order. */
  function Content(cut: Cut): seq<Message> {
    Flatten(cut.done) + cut.open
  }

  lemma QueueKeeps(size: int, cut: Cut, m: Message)
    ensures Content(Queue(size, cut, m)) == Content(cut) + [m]
  {
    FlattenSnoc(cut.done, cut.open + [m]);
  }

  lemma {:induction false} CutIsAll(size: int, ms: seq<Message>)
    ensures Content(CutOf(size, ms)) == ms
  {
    if ms == [] {
      assert CutOf(size, ms) == Cut([], []);
    } else {
      var front, m := ms[..|ms| - 1], ms[|ms| - 1];
      assert ms == front + [m];
      CutIsAll(size, front);
      QueueKeeps(size, CutOf(size, front), m);
    }
  }

  /** Every message is flushed exactly once, in order. */
  lemma FlushesAreAll(size: int, ms: seq<Message>)
    ensures Flatten(FlushesOf(size, ms)) == ms
  {
    CutIsAll(size, ms);
    FlattenSnoc(CutOf(size, ms).done, CutOf(size, ms).open);
  }

  /** A chunk is complete as soon as it holds batchSize rows, and not before. */
  ghost predicate Full(size: int, chunk: seq<Message>) {
    chunk != [] && RowCount(chunk) >= size && RowCount(chunk[..|chunk| - 1]) < size
  }

  ghost predicate Bounded(size: int, cut: Cut) {
    && (forall i :: 0 <= i < |cut.done| ==> Full(size, cut.done[i]))
    && RowCount(cut.open) < size
  }

  lemma {:induction false} CutIsBounded(size: int, ms: seq<Message>)
    requires size >= 1
    ensures Bounded(size, CutOf(size, ms))
  {
    if ms != [] {
      CutIsBounded(size, ms[..|ms| - 1]);
    }
  }

  /** A flush is smaller than batchSize plus the rows of its last message. */
  lemma FlushesAreBounded(size: int, ms: seq<Message>)
    requires size >= 1
    ensures forall i :: 0 <= i < |FlushesOf(size, ms)| - 1 ==> Full(size, FlushesOf(size, ms)[i])
    ensures forall c: seq<Message> :: c in FlushesOf(size, ms) && c != [] ==> RowCount(c) < size + |c[|c| - 1].rows|
  {
    CutIsBounded(size, ms);
    forall c: seq<Message> | c in FlushesOf(size, ms) && c != [] ensures RowCount(c) < size + |c[|c| - 1].rows| {
      if c in CutOf(size, ms).done {
        var i :| 0 <= i < |CutOf(size, ms).done| && CutOf(size, ms).done[i] == c;
        assert Full(size, CutOf(size, ms).done[i]);
      }
    }
  }

  // ---------------------------------------------------------------- what a chunk writes

  /** The table of the first message with this name: its query is cached for the later ones. */
  function FirstTable(ms: seq<Message>, name: string): Option<Table> {
    if ms == [] then None
    else if ms[0].name == Some(name) then Some(ms[0].table)
    else FirstTable(ms[1..], name)
  }

  function QueryOf(cfg: Config, table: Table): Query {
    var normalized := cfg.normalize(table);
    if normalized.keyed then Upsert(normalized) else Insert(normalized)
  }

  /** The query for the messages with this name. */
  function QueryFor(cfg: Config, all: seq<Message>, m: Message): Query {
    var first := if m.name.Some? then FirstTable(all, m.name.value) else None;
    QueryOf(cfg, if first.Some? then first.value else m.table)
  }

  function Statements(cfg: Config, all: seq<Message>, m: Message): Log {
    MapSeq(row => Base(QueryFor(cfg, all, m), row), m.rows)
  }

  function ChunkStatements(cfg: Config, all: seq<Message>, chunk: seq<Message>): Log {
    if chunk == [] then []
    else ChunkStatements(cfg, all, chunk[..|chunk| - 1]) + Statements(cfg, all, chunk[|chunk| - 1])
  }

  lemma {:induction false} ChunkStatementsAre(cfg: Config, all: seq<Message>, chunk: seq<Message>)
    ensures |ChunkStatements(cfg, all, chunk)| == RowCount(chunk) && AllBase(ChunkStatements(cfg, all, chunk))
  {
    if chunk != [] {
      ChunkStatementsAre(cfg, all, chunk[..|chunk| - 1]);
    }
  }

  lemma {:induction false} FirstTableIs(ms: seq<Message>, name: string, i: nat)
    requires i < |ms| && ms[i].name == Some(name)
    requires forall j :: 0 <= j < i ==> ms[j].name != Some(name)
    ensures FirstTable(ms, name) == Some(ms[i].table)
  {
    if i > 0 {
      FirstTableIs(ms[1..], name, i - 1);
    }
  }

  lemma {:induction false} FirstTableAgrees(ms: seq<Message>, m: Message)
    requires m in ms && m.name.Some?
    requires forall a, b :: a in ms && b in ms && a.name == b.name ==> a.table == b.table
    ensures FirstTable(ms, m.name.value) == Some(m.table)
  {
    if ms[0].name != m.name {
      FirstTableAgrees(ms[1..], m);
    }
  }

  /** When messages for one table agree on its definition, every message is written with its own table's query. */
  lemma ConsistentQueries(cfg: Config, ms: seq<Message>, m: Message)
    requires m in ms
    requires forall a, b :: a in ms && b in ms && a.name == b.name ==> a.table == b.table
    ensures QueryFor(cfg, ms, m) == QueryOf(cfg, m.table)
    ensures QueryFor(cfg, ms, m).table == cfg.normalize(m.table)
    ensures QueryFor(cfg, ms, m).Upsert? <==> cfg.normalize(m.table).keyed
  {
    if m.name.Some? {
      FirstTableAgrees(ms, m);
    }
  }

  /** Message f is the first one with this name. */
  ghost predicate IsFirst(all: seq<Message>, f: nat, name: Option<string>) {
    f < |all| && all[f].name == name && forall g: nat :: g < f ==> all[g].name != name
  }

  /**
   Row j of message i is written behind the rows before it: to the table that the first message with this name
   normalises to, by an upsert if and only if that table has a key.
   */
  ghost predicate RowWritten(cfg: Config, all: seq<Message>, ms: seq<Message>, log: Log, i: nat, j: nat)
    requires i < |ms| && j < |ms[i].rows|
  {
    var k := RowCount(ms[..i]) + j;
    && k < |log| && log[k].Base? && log[k].row == ms[i].rows[j]
    && (forall f: nat :: IsFirst(all, f, ms[i].name) && ms[i].name.Some? ==>
          && log[k].query.table == cfg.normalize(all[f].table)
          && (log[k].query.Upsert? <==> cfg.normalize(all[f].table).keyed))
  }

  /** The statements are the rows of the messages, each once and in order. */
  ghost predicate AllWritten(cfg: Config, all: seq<Message>, ms: seq<Message>, log: Log) {
    |log| == RowCount(ms) &&
    forall i: nat, j: nat :: i < |ms| && j < |ms[i].rows| ==> RowWritten(cfg, all, ms, log, i, j)
  }

  lemma QueryForIs(cfg: Config, all: seq<Message>, m: Message, f: nat)
    requires IsFirst(all, f, m.name) && m.name.Some?
    ensures QueryFor(cfg, all, m).table == cfg.normalize(all[f].table)
    ensures QueryFor(cfg, all, m).Upsert? <==> cfg.normalize(all[f].table).keyed
  {
    FirstTableIs(all, m.name.value, f);
  }

  lemma ChunkIsWritten(cfg: Config, all: seq<Message>, ms: seq<Message>)
    ensures AllWritten(cfg, all, ms, ChunkStatements(cfg, all, ms))
  {
    ChunkStatementsAre(cfg, all, ms);
    var log := ChunkStatements(cfg, all, ms);
    forall i: nat, j: nat | i < |ms| && j < |ms[i].rows| ensures RowWritten(cfg, all, ms, log, i, j) {
      RowIsWritten(cfg, all, ms, i, j);
    }
  }

  lemma {:induction false} RowIsWritten(cfg: Config, all: seq<Message>, ms: seq<Message>, i: nat, j: nat)
    requires i < |ms| && j < |ms[i].rows|
    ensures RowWritten(cfg, all, ms, ChunkStatements(cfg, all, ms), i, j)
  {
    var n := |ms| - 1;
    ChunkStatementsAre(cfg, all, ms[..n]);
    if i < n {
      assert ms[..n][..i] == ms[..i];
      RowIsWritten(cfg, all, ms[..n], i, j);
    } else {
      forall f: nat | IsFirst(all, f, ms[i].name) && ms[i].name.Some?
        ensures QueryFor(cfg, all, ms[i]).table == cfg.normalize(all[f].table)
        ensures QueryFor(cfg, all, ms[i]).Upsert? <==> cfg.normalize(all[f].table).keyed
      {
        QueryForIs(cfg, all, ms[i], f);
      }
    }
  }

  /** The columns a table's configuration names are columns of the message. */
  predicate ColumnsPresent(config: TableConfig, table: Table) {
    && (forall c :: c in config.metadataColumns ==> c in table.columns)
    && forall c :: c in config.embedColumns ==> c in table.columns
  }

  predicate Accepted(cfg: Config, m: Message) {
    && m.name.Some? && m.name.value in cfg.known
    && (m.name.value in cfg.tables ==> ColumnsPresent(cfg.tables[m.name.value], m.table))
  }

  /**
   The message names a table the server has and, when embeddings are configured for it, has every column they need.
   */
  ghost predicate Acceptable(cfg: Config, m: Message) {
    && m.name.Some? && m.name.value in cfg.known
    && (m.name.value in cfg.tables ==>
          var config := cfg.tables[m.name.value];
          forall c :: c in config.metadataColumns || c in config.embedColumns ==> c in m.table.columns)
  }

  lemma AllAcceptedIff(cfg: Config, ms: seq<Message>)
    ensures AllAccepted(cfg, ms) <==> forall m :: m in ms ==> Acceptable(cfg, m)
  {
    forall i | 0 <= i < |ms| ensures Accepted(cfg, ms[i]) <==> Acceptable(cfg, ms[i]) {
    }
  }

  predicate AllAccepted(cfg: Config, ms: seq<Message>) {
    forall i :: 0 <= i < |ms| ==> Accepted(cfg, ms[i])
  }

  predicate EmbedsTo(cfg: Config, m: Message, source: string) {
    m.name == Some(source) && source in cfg.tables && m.ids.Some?
  }

  /** The work accumulated per table: nothing for a message whose ids cannot be read. */
  function Accumulated(cfg: Config, embeds: map<string, EmbeddingBatch>, m: Message): map<string, EmbeddingBatch> {
    if m.name.Some? && EmbedsTo(cfg, m, m.name.value) then
      var b := if m.name.value in embeds then embeds[m.name.value] else EmbeddingBatch(m.table.columns, [], []);
      embeds[m.name.value := EmbeddingBatch(b.columns, b.rows + m.rows, b.ids + m.ids.value)]
    else embeds
  }

  function ChunkEmbeds(cfg: Config, chunk: seq<Message>): map<string, EmbeddingBatch> {
    if chunk == [] then map[] else Accumulated(cfg, ChunkEmbeds(cfg, chunk[..|chunk| - 1]), chunk[|chunk| - 1])
  }

  /** The rows and ids of the chunk that go to a table's embeddings. */
  function EmbedRows(cfg: Config, chunk: seq<Message>, source: string): seq<Row> {
    if chunk == [] then []
    else
      EmbedRows(cfg, chunk[..|chunk| - 1], source) +
      if EmbedsTo(cfg, chunk[|chunk| - 1], source) then chunk[|chunk| - 1].rows else []
  }

  function EmbedIds(cfg: Config, chunk: seq<Message>, source: string): seq<Id> {
    if chunk == [] then []
    else
      EmbedIds(cfg, chunk[..|chunk| - 1], source) +
      if EmbedsTo(cfg, chunk[|chunk| - 1], source) then chunk[|chunk| - 1].ids.value else []
  }

  /** The batch of a table holds exactly the rows and ids of the chunk's messages for it. */
  lemma {:induction false} EmbedsAreTheChunks(cfg: Config, chunk: seq<Message>, source: string)
    ensures source in ChunkEmbeds(cfg, chunk) <==> exists i :: 0 <= i < |chunk| && EmbedsTo(cfg, chunk[i], source)
    ensures source in ChunkEmbeds(cfg, chunk) ==>
              && ChunkEmbeds(cfg, chunk)[source].rows == EmbedRows(cfg, chunk, source)
              && ChunkEmbeds(cfg, chunk)[source].ids == EmbedIds(cfg, chunk, source)
    ensures source !in ChunkEmbeds(cfg, chunk) ==>
              EmbedRows(cfg, chunk, source) == [] && EmbedIds(cfg, chunk, source) == []
  {
    if chunk != [] {
      var front, m := chunk[..|chunk| - 1], chunk[|chunk| - 1];
      EmbedsAreTheChunks(cfg, front, source);
      assert forall i :: 0 <= i < |front| ==> front[i] == chunk[i];
    }
  }

  function RowsOf(m: Message): seq<Row> {
    m.rows
  }

  function IdsOf(m: Message): seq<Id> {
    if m.ids.Some? then m.ids.value else []
  }

  /** The batch is made of these messages, and of the columns of the first. */
  ghost predicate IsBatchOf(b: EmbeddingBatch, picked: seq<Message>) {
    && picked != [] && b.columns == picked[0].table.columns
    && b.rows == Flatten(MapSeq(RowsOf, picked)) && b.ids == Flatten(MapSeq(IdsOf, picked))
  }

  /** One message more for the table. */
  lemma BatchGrows(b: EmbeddingBatch, picked: seq<Message>, m: Message)
    requires IsBatchOf(b, picked)
    ensures IsBatchOf(EmbeddingBatch(b.columns, b.rows + RowsOf(m), b.ids + IdsOf(m)), picked + [m])
  {
    assert MapSeq(RowsOf, picked + [m]) == MapSeq(RowsOf, picked) + [RowsOf(m)];
    assert MapSeq(IdsOf, picked + [m]) == MapSeq(IdsOf, picked) + [IdsOf(m)];
    FlattenSnoc(MapSeq(RowsOf, picked), RowsOf(m));
    FlattenSnoc(MapSeq(IdsOf, picked), IdsOf(m));
  }

  lemma BatchStarts(m: Message)
    ensures IsBatchOf(EmbeddingBatch(m.table.columns, m.rows, IdsOf(m)), [m])
  {
    assert MapSeq(RowsOf, [m]) == [] + [m.rows] && MapSeq(IdsOf, [m]) == [] + [IdsOf(m)];
    FlattenSnoc([], m.rows);
    FlattenSnoc([], IdsOf(m));
    assert Flatten<Row>([]) + m.rows == m.rows && Flatten<Id>([]) + IdsOf(m) == IdsOf(m);
  }

  /** A configured table's batch is made of the chunk's messages that name it and whose ids can be read, in order. */
  lemma {:induction false} EmbedsArePicked(cfg: Config, chunk: seq<Message>, source: string)
    returns (at: seq<nat>, picked: seq<Message>)
    ensures Picks(chunk, at, picked)
    ensures forall i: nat :: i in at <==>
              i < |chunk| && chunk[i].name == Some(source) && source in cfg.tables && chunk[i].ids.Some?
    ensures if picked == [] then source !in ChunkEmbeds(cfg, chunk)
            else source in ChunkEmbeds(cfg, chunk) && IsBatchOf(ChunkEmbeds(cfg, chunk)[source], picked)
  {
    at, picked := [], [];
    if chunk != [] {
      var n, m := |chunk| - 1, chunk[|chunk| - 1];
      var before, front := EmbedsArePicked(cfg, chunk[..n], source);
      assert chunk == chunk[..n] + [m];
      PicksMore(chunk[..n], before, front, m);
      if m.name == Some(source) && source in cfg.tables && m.ids.Some? {
        at, picked := before + [n], front + [m];
        if front == [] {
          BatchStarts(m);
          assert [] + m.rows == m.rows && [] + m.ids.value == m.ids.value && picked == [m];
        } else {
          BatchGrows(ChunkEmbeds(cfg, chunk[..n])[source], front, m);
        }
      } else {
        at, picked := before, front;
      }
    }
  }

  /**
   A row accumulated for a table comes from a message for it, which writes the row to the base table with the same
   chunk.
   */
  lemma {:induction false} EmbeddedRowIsFlushed(cfg: Config, all: seq<Message>, chunk: seq<Message>, source: string,
                                                row: Row)
    returns (m: Message, j: nat)
    requires row in EmbedRows(cfg, chunk, source)
    ensures m in chunk && EmbedsTo(cfg, m, source) && row in m.rows
    ensures j < |ChunkStatements(cfg, all, chunk)|
    ensures ChunkStatements(cfg, all, chunk)[j] == Base(QueryFor(cfg, all, m), row)
  {
    var front, last := chunk[..|chunk| - 1], chunk[|chunk| - 1];
    if row in EmbedRows(cfg, front, source) {
      m, j := EmbeddedRowIsFlushed(cfg, all, front, source, row);
    } else {
      var i :| 0 <= i < |last.rows| && last.rows[i] == row;
      m, j := last, |ChunkStatements(cfg, all, front)| + i;
      assert Statements(cfg, all, last)[i] == Base(QueryFor(cfg, all, last), row);
    }
  }

  // ---------------------------------------------------------------- the embeddings tables

  /** The embeddings of a batch; the configured columns are looked up first. */
  function EmbeddingsOf(cfg: Config, config: TableConfig, b: EmbeddingBatch): Result<seq<seq<Embedding>>, Error> {
    Created(cfg.model, Inputs(b.rows, Positions(b.columns, config.embedColumns), cfg.show))
  }

  /** The embed columns exist, every row gets its embeddings, and the delete by the batch's ids is SQL. */
  predicate Computed(cfg: Config, config: TableConfig, b: EmbeddingBatch) {
    && (forall c :: c in config.embedColumns ==> c in b.columns)
    && EmbeddingsOf(cfg, config, b).Ok? && |EmbeddingsOf(cfg, config, b).value| == |b.rows|
    && ParseInList(InList(b.ids)).Some?
  }

  predicate AllComputed(cfg: Config, embeds: map<string, EmbeddingBatch>) {
    forall s :: s in embeds && s in cfg.tables ==> Computed(cfg, cfg.tables[s], embeds[s])
  }

  predicate ChunksComputed(cfg: Config, chunks: seq<seq<Message>>) {
    forall i :: 0 <= i < |chunks| ==> AllComputed(cfg, ChunkEmbeds(cfg, chunks[i]))
  }

  /** What is executed for one table: the delete, then a row for every chunk of every base row. */
  function TableLog(cfg: Config, config: TableConfig, b: EmbeddingBatch): Log {
    if !Computed(cfg, config, b) then []
    else
      [DeleteById(config, b.ids)] +
      Embeds(config.target, AllValues(b.rows, b.columns, config, EmbeddingsOf(cfg, config, b).value))
  }

  /** The rows of a table's embeddings after a batch that could be computed. */
  function RowsAfter(cfg: Config, config: TableConfig, rows: seq<Row>, b: EmbeddingBatch): seq<Row> {
    if Computed(cfg, config, b) then Replaced(config, rows, b, EmbeddingsOf(cfg, config, b).value) else rows
  }

  lemma RowsOfReplacement(log: Log, config: TableConfig, ids: seq<Id>, values: seq<Row>, target: string)
    ensures Rows(log + ([DeleteById(config, ids)] + Embeds(config.target, values)), target) ==
            if target == config.target then Without(config, Rows(log, target), ids) + values else Rows(log, target)
  {
    assert Rows(log + ([DeleteById(config, ids)] + Embeds(config.target, values)), target) ==
           Rows(log + [DeleteById(config, ids)] + Embeds(config.target, values), target) by {
      assert log + ([DeleteById(config, ids)] + Embeds(config.target, values)) ==
             log + [DeleteById(config, ids)] + Embeds(config.target, values);
    }
    RowsOfEmbeds(log + [DeleteById(config, ids)], config.target, values, target);
  }

  lemma RowsOfTableLog(cfg: Config, config: TableConfig, b: EmbeddingBatch, log: Log, target: string)
    ensures Rows(log + TableLog(cfg, config, b), target) ==
            if target == config.target then RowsAfter(cfg, config, Rows(log, target), b) else Rows(log, target)
  {
    if Computed(cfg, config, b) {
      RowsOfReplacement(log, config, b.ids, AllValues(b.rows, b.columns, config, EmbeddingsOf(cfg, config, b).value),
          target);
    } else {
      assert log + [] == log;
    }
  }

  /** The rows of a table's embeddings after the chunks. */
  function RowsAfterAll(cfg: Config, source: string, rows: seq<Row>, chunks: seq<seq<Message>>): seq<Row>
    requires source in cfg.tables
  {
    if chunks == [] then rows
    else
      var before := RowsAfterAll(cfg, source, rows, chunks[..|chunks| - 1]);
      var embeds := ChunkEmbeds(cfg, chunks[|chunks| - 1]);
      if source in embeds then RowsAfter(cfg, cfg.tables[source], before, embeds[source]) else before
  }

  // ---------------------------------------------------------------- which chunks can be embedded

  /** The columns of an accumulated batch are those of some message of the chunk for the table. */
  lemma {:induction false} BatchColumns(cfg: Config, chunk: seq<Message>, source: string) returns (i: nat)
    requires source in ChunkEmbeds(cfg, chunk)
    ensures i < |chunk| && EmbedsTo(cfg, chunk[i], source)
    ensures ChunkEmbeds(cfg, chunk)[source].columns == chunk[i].table.columns
  {
    var front := chunk[..|chunk| - 1];
    if source in ChunkEmbeds(cfg, front) {
      i := BatchColumns(cfg, front, source);
    } else {
      i := |chunk| - 1;
    }
  }

  /** The chunk has messages for this configured table, and not one row in them. */
  ghost predicate HoldsNoRows(cfg: Config, chunk: seq<Message>, source: string) {
    (exists i :: 0 <= i < |chunk| && EmbedsTo(cfg, chunk[i], source)) && EmbedRows(cfg, chunk, source) == []
  }

  /** getCQIDs gives an id for every row. */
  predicate IdPerRow(m: Message) {
    m.ids.Some? ==> |m.ids.value| == |m.rows|
  }

  lemma {:induction false} IdsAsRows(cfg: Config, chunk: seq<Message>, source: string)
    requires forall i :: 0 <= i < |chunk| ==> IdPerRow(chunk[i])
    ensures |EmbedIds(cfg, chunk, source)| == |EmbedRows(cfg, chunk, source)|
  {
    if chunk != [] {
      IdsAsRows(cfg, chunk[..|chunk| - 1], source);
    }
  }

  /** Every input can be split, and the endpoint embeds every chunk by itself. */
  ghost predicate ModelWorks(model: Model, vector: string -> Vector) {
    PositionWise(model, vector) && forall input :: model.split(input).Some?
  }

  lemma {:induction false} TableComputedIff(cfg: Config, chunk: seq<Message>, source: string, vector: string -> Vector)
    requires ModelWorks(cfg.model, vector) && AllAccepted(cfg, chunk) && forall i :: 0 <= i < |chunk| ==>
              IdPerRow(chunk[i])
    requires source in ChunkEmbeds(cfg, chunk)
    ensures source in cfg.tables
    ensures Computed(cfg, cfg.tables[source], ChunkEmbeds(cfg, chunk)[source]) <==> !HoldsNoRows(cfg, chunk, source)
  {
    var b := ChunkEmbeds(cfg, chunk)[source];
    var i := BatchColumns(cfg, chunk, source);
    assert Accepted(cfg, chunk[i]);
    EmbedsAreTheChunks(cfg, chunk, source);
    IdsAsRows(cfg, chunk, source);
    InListParsesIff(b.ids);
    BatchIsSeparate(cfg.model, vector, Inputs(b.rows, Positions(b.columns, cfg.tables[source].embedColumns), cfg.show));
  }

  /** A chunk can be embedded if and only if every configured table it has messages for has a row in them. */
  lemma {:induction false} ChunkComputedIff(cfg: Config, chunk: seq<Message>, vector: string -> Vector)
    requires ModelWorks(cfg.model, vector) && AllAccepted(cfg, chunk) && forall i :: 0 <= i < |chunk| ==>
              IdPerRow(chunk[i])
    ensures AllComputed(cfg, ChunkEmbeds(cfg, chunk)) <==> forall source :: !HoldsNoRows(cfg, chunk, source)
  {
    var embeds := ChunkEmbeds(cfg, chunk);
    forall source
      ensures source in embeds ==>
                source in cfg.tables && (Computed(cfg, cfg.tables[source], embeds[source]) <==>
                    !HoldsNoRows(cfg, chunk, source))
      ensures source !in embeds ==> !HoldsNoRows(cfg, chunk, source)
    {
      EmbedsAreTheChunks(cfg, chunk, source);
      if source in embeds {
        TableComputedIff(cfg, chunk, source, vector);
      }
    }
  }

  lemma FlushMembers(size: int, ms: seq<Message>, k: nat, m: Message)
    requires k < |FlushesOf(size, ms)| && m in FlushesOf(size, ms)[k]
    ensures m in ms
  {
    FlushesAreAll(size, ms);
    FlattenMember(FlushesOf(size, ms), k, m);
  }

  lemma {:induction false} FlattenMember<T>(xss: seq<seq<T>>, k: nat, x: T)
    requires k < |xss| && x in xss[k]
    ensures x in Flatten(xss)
  {
    if k > 0 {
      FlattenMember(xss[1..], k - 1, x);
    }
  }

  /** No flush holds messages for a configured table and not one row in them. */
  ghost predicate EveryTableHasRows(cfg: Config, flushes: seq<seq<Message>>) {
    forall k, source :: 0 <= k < |flushes| ==> !HoldsNoRows(cfg, flushes[k], source)
  }

  /**
   With accepted messages, a splitter and an endpoint that work, all flushes can be embedded, so that InsertBatch
   returns nil unless its last call fails, if and only if no flush holds messages for a configured table and not one row
   in them.
   */
  lemma InsertSucceedsIff(cfg: Config, ms: seq<Message>, vector: string -> Vector)
    requires ModelWorks(cfg.model, vector) && AllAccepted(cfg, ms) && forall m :: m in ms ==> IdPerRow(m)
    ensures ChunksComputed(cfg, FlushesOf(cfg.batchSize, ms)) <==> EveryTableHasRows(cfg, FlushesOf(cfg.batchSize, ms))
  {
    var flushes := FlushesOf(cfg.batchSize, ms);
    forall k | 0 <= k < |flushes|
      ensures AllComputed(cfg, ChunkEmbeds(cfg, flushes[k])) <==> forall source :: !HoldsNoRows(cfg, flushes[k], source)
    {
      forall i | 0 <= i < |flushes[k]| ensures Accepted(cfg, flushes[k][i]) && IdPerRow(flushes[k][i]) {
        FlushMembers(cfg.batchSize, ms, k, flushes[k][i]);
      }
      ChunkComputedIff(cfg, flushes[k], vector);
    }
  }

  /**
   One insert of no rows into a table with embeddings: its flush cannot be embedded, so InsertBatch returns an error.
   */
  lemma EmptyInsertFails(cfg: Config, m: Message, source: string)
    requires EmbedsTo(cfg, m, source) && m.rows == [] && m.ids == Some([])
    ensures !ChunksComputed(cfg, FlushesOf(cfg.batchSize, [m]))
  {
    var cut := CutOf(cfg.batchSize, [m]);
    assert [m][..0] == [] && CutOf(cfg.batchSize, [m][..0]) == Cut([], []);
    assert cut == Queue(cfg.batchSize, Cut([], []), m);
    assert [] + [m] == [m];
    var k := if cut.done == [] then |cut.done| else 0;
    assert FlushesOf(cfg.batchSize, [m])[k] == [m];
    EmbedsAreTheChunks(cfg, [m], source);
    assert EmbedsTo(cfg, [m][0], source);
    InListParsesIff([]);
  }

  // ---------------------------------------------------------------- which rows the embeddings tables end with

  predicate CarriesId(columns: seq<string>, row: Row, id: Id) {
    CQ_ID in columns && Cell(row, PositionOf(columns, CQ_ID).value) == Uuid(id)
  }

  /** A message for the table has these columns, and its ids are those of its rows. */
  ghost predicate IdsMatch(cfg: Config, m: Message, source: string, columns: seq<string>) {
    EmbedsTo(cfg, m, source) ==>
      && m.table.columns == columns && |m.ids.value| == |m.rows|
      && forall j :: 0 <= j < |m.rows| ==> CarriesId(columns, m.rows[j], m.ids.value[j])
  }

  ghost predicate ChunkMatches(cfg: Config, chunk: seq<Message>, source: string, columns: seq<string>) {
    forall i :: 0 <= i < |chunk| ==> IdsMatch(cfg, chunk[i], source, columns)
  }

  lemma {:induction false} ChunkCarries(cfg: Config, chunk: seq<Message>, source: string, columns: seq<string>)
    requires source in cfg.tables && CQ_ID in cfg.tables[source].metadataColumns && CQ_ID in columns
    requires ChunkMatches(cfg, chunk, source, columns) && source in ChunkEmbeds(cfg, chunk)
    ensures ChunkEmbeds(cfg, chunk)[source].columns == columns
    ensures Carries(cfg.tables[source], ChunkEmbeds(cfg, chunk)[source])
  {
    var front, m := chunk[..|chunk| - 1], chunk[|chunk| - 1];
    assert forall i :: 0 <= i < |front| ==> front[i] == chunk[i];
    if source in ChunkEmbeds(cfg, front) {
      ChunkCarries(cfg, front, source, columns);
    }
    if EmbedsTo(cfg, m, source) {
      var ids := m.ids.value;
      assert IdsMatch(cfg, chunk[|chunk| - 1], source, columns);
      assert forall j :: 0 <= j < |m.rows| ==> CarriesId(columns, m.rows[j], ids[j]);
    }
  }

  /** The rows this chunk makes for an id it holds. */
  function RowsFor(cfg: Config, source: string, chunk: seq<Message>, id: Id): seq<Row>
    requires source in cfg.tables
  {
    var embeds := ChunkEmbeds(cfg, chunk);
    if source in embeds && Computed(cfg, cfg.tables[source], embeds[source]) &&
        |embeds[source].ids| == |embeds[source].rows| then
      var b := embeds[source];
      PgEmbeddings.Chunks(cfg.tables[source], b, EmbeddingsOf(cfg, cfg.tables[source], b).value, id, |b.rows|)
    else []
  }

  /** One chunk more: its ids end with exactly its rows, the other ids keep theirs. */
  lemma OneChunkMore(cfg: Config, source: string, rows: seq<Row>, chunks: seq<seq<Message>>, columns: seq<string>,
                     id: Id)
    requires source in cfg.tables && CQ_ID in cfg.tables[source].metadataColumns && CQ_ID in columns
    requires chunks != [] && ChunkMatches(cfg, chunks[|chunks| - 1], source, columns)
    requires AllComputed(cfg, ChunkEmbeds(cfg, chunks[|chunks| - 1]))
    ensures var (config, last) := (cfg.tables[source], chunks[|chunks| - 1]);
      Having(config, RowsAfterAll(cfg, source, rows, chunks), id) ==
      if id in EmbedIds(cfg, last, source) then RowsFor(cfg, source, last, id)
      else Having(config, RowsAfterAll(cfg, source, rows, chunks[..|chunks| - 1]), id)
  {
    var config, last := cfg.tables[source], chunks[|chunks| - 1];
    EmbedsAreTheChunks(cfg, last, source);
    if source in ChunkEmbeds(cfg, last) {
      ChunkCarries(cfg, last, source, columns);
      var b := ChunkEmbeds(cfg, last)[source];
      ReplacedExactly(config, RowsAfterAll(cfg, source, rows, chunks[..|chunks| - 1]), b,
          EmbeddingsOf(cfg, config, b).value, id);
    }
  }

  /** The id is in chunk j and in none after it. */
  predicate LastHolder(cfg: Config, source: string, chunks: seq<seq<Message>>, id: Id, j: nat) {
    && j < |chunks| && id in EmbedIds(cfg, chunks[j], source)
    && forall l :: j < l < |chunks| ==> id !in EmbedIds(cfg, chunks[l], source)
  }

  /** An id ends with the rows of the last chunk that holds it, and with no others. */
  lemma {:induction false} LastChunkWins(cfg: Config, source: string, rows: seq<Row>, chunks: seq<seq<Message>>,
                                         columns: seq<string>, id: Id, j: nat)
    requires source in cfg.tables && CQ_ID in cfg.tables[source].metadataColumns && CQ_ID in columns
    requires ChunksComputed(cfg, chunks) && forall k :: 0 <= k < |chunks| ==>
              ChunkMatches(cfg, chunks[k], source, columns)
    requires LastHolder(cfg, source, chunks, id, j)
    ensures Having(cfg.tables[source], RowsAfterAll(cfg, source, rows, chunks), id) ==
            RowsFor(cfg, source, chunks[j], id)
  {
    OneChunkMore(cfg, source, rows, chunks, columns, id);
    if j < |chunks| - 1 {
      LastChunkWins(cfg, source, rows, chunks[..|chunks| - 1], columns, id, j);
    }
  }

  /** An id in no chunk keeps its rows. */
  lemma {:induction false} OthersKeepTheirs(cfg: Config, source: string, rows: seq<Row>, chunks: seq<seq<Message>>,
                                            columns: seq<string>, id: Id)
    requires source in cfg.tables && CQ_ID in cfg.tables[source].metadataColumns && CQ_ID in columns
    requires ChunksComputed(cfg, chunks) && forall k :: 0 <= k < |chunks| ==>
              ChunkMatches(cfg, chunks[k], source, columns)
    requires forall j :: 0 <= j < |chunks| ==> id !in EmbedIds(cfg, chunks[j], source)
    ensures Having(cfg.tables[source], RowsAfterAll(cfg, source, rows, chunks), id) ==
            Having(cfg.tables[source], rows, id)
  {
    if chunks != [] {
      OneChunkMore(cfg, source, rows, chunks, columns, id);
      OthersKeepTheirs(cfg, source, rows, chunks[..|chunks| - 1], columns, id);
    }
  }

  /** The embeddings table of every configured source is as the chunks leave it. */
  ghost predicate TargetsWritten(cfg: Config, before: Log, after: Log, chunks: seq<seq<Message>>) {
    forall s :: s in cfg.tables ==> TargetWritten(cfg, before, after, chunks, s)
  }

  ghost predicate TargetWritten(cfg: Config, before: Log, after: Log, chunks: seq<seq<Message>>, s: string)
    requires s in cfg.tables
  {
    Rows(after, cfg.tables[s].target) == RowsAfterAll(cfg, s, Rows(before, cfg.tables[s].target), chunks)
  }

  /** What a successful InsertBatch leaves for an id: the rows of the last flush that holds it. */
  lemma {:induction false} InsertedLastWins(cfg: Config, ms: seq<Message>, before: Log, after: Log, source: string,
                                            columns: seq<string>, id: Id, j: nat)
    requires source in cfg.tables && CQ_ID in cfg.tables[source].metadataColumns && CQ_ID in columns
    requires forall m :: m in ms ==> IdsMatch(cfg, m, source, columns)
    requires var flushes := FlushesOf(cfg.batchSize, ms);
      TargetsWritten(cfg, before, after, flushes) && ChunksComputed(cfg, flushes) &&
          LastHolder(cfg, source, flushes, id, j)
    ensures Having(cfg.tables[source], Rows(after, cfg.tables[source].target), id) ==
            RowsFor(cfg, source, FlushesOf(cfg.batchSize, ms)[j], id)
  {
    var flushes := FlushesOf(cfg.batchSize, ms);
    forall k, i | 0 <= k < |flushes| && 0 <= i < |flushes[k]| ensures IdsMatch(cfg, flushes[k][i], source, columns) {
      FlushMembers(cfg.batchSize, ms, k, flushes[k][i]);
    }
    assert TargetWritten(cfg, before, after, flushes, source);
    LastChunkWins(cfg, source, Rows(before, cfg.tables[source].target), flushes, columns, id, j);
  }
}
