/** The PostgreSQL client's InsertBatch as it runs: what is executed, in which order, and when it succeeds. */
module PgClient {
  import opened Basics
  import opened PgEmbeddings
  import opened PgInserts

  // ---------------------------------------------------------------- what was executed

  /** The statement belongs to the embeddings work of one of these tables. */
  ghost predicate ActOk(cfg: Config, embeds: map<string, EmbeddingBatch>, act: Statement) {
    exists s :: s in embeds && s in cfg.tables && act in TableLog(cfg, cfg.tables[s], embeds[s])
  }

  ghost predicate ActsOk(cfg: Config, embeds: map<string, EmbeddingBatch>, acts: Log) {
    forall i {:trigger ActOk(cfg, embeds, acts[i])} :: 0 <= i < |acts| ==> ActOk(cfg, embeds, acts[i])
  }

  /** The chunks' base rows, each chunk followed by its embeddings work, as far as it got. */
  function Interleaved(cfg: Config, all: seq<Message>, chunks: seq<seq<Message>>, acts: seq<Log>): Log
    requires |chunks| == |acts|
  {
    if chunks == [] then []
    else
      var n := |chunks| - 1;
      Interleaved(cfg, all, chunks[..n], acts[..n]) + ChunkStatements(cfg, all, chunks[n]) + acts[n]
  }

  /** Between these two logs exactly these chunks were flushed, each with embeddings work of its own behind it. */
  ghost predicate Traced(cfg: Config, all: seq<Message>, before: Log, after: Log, chunks: seq<seq<Message>>,
                         acts: seq<Log>) {
    EachActsOk(cfg, chunks, acts) && after == before + Interleaved(cfg, all, chunks, acts)
  }

  ghost predicate EachActsOk(cfg: Config, chunks: seq<seq<Message>>, acts: seq<Log>) {
    |acts| == |chunks| && forall i :: 0 <= i < |chunks| ==> ActsOk(cfg, ChunkEmbeds(cfg, chunks[i]), acts[i])
  }

  lemma Behind(a: Log, b: Log, c: Log)
    ensures a + b + c == a + (b + c)
  {
  }

  lemma TracedMore(cfg: Config, all: seq<Message>, before: Log, now: Log, after: Log, chunks: seq<seq<Message>>,
                   acts: seq<Log>,
                   chunk: seq<Message>, more: Log)
    requires Traced(cfg, all, before, now, chunks, acts) && after == now + ChunkStatements(cfg, all, chunk) + more
    requires ActsOk(cfg, ChunkEmbeds(cfg, chunk), more)
    ensures Traced(cfg, all, before, after, chunks + [chunk], acts + [more])
  {
    Behind(before, Interleaved(cfg, all, chunks, acts), ChunkStatements(cfg, all, chunk));
    Behind(before, Interleaved(cfg, all, chunks, acts) + ChunkStatements(cfg, all, chunk), more);
  }

  lemma {:induction false} ChunkStatementsConcat(cfg: Config, all: seq<Message>, a: seq<Message>, b: seq<Message>)
    ensures ChunkStatements(cfg, all, a + b) == ChunkStatements(cfg, all, a) + ChunkStatements(cfg, all, b)
  {
    if b == [] {
      assert a + b == a;
    } else {
      assert (a + b)[..|a + b| - 1] == a + b[..|b| - 1];
      ChunkStatementsConcat(cfg, all, a, b[..|b| - 1]);
    }
  }

  lemma ActsHaveNoBase(cfg: Config, embeds: map<string, EmbeddingBatch>, acts: Log)
    requires ActsOk(cfg, embeds, acts)
    ensures BaseOf(acts) == []
  {
    forall i | 0 <= i < |acts| ensures !acts[i].Base? {
      assert ActOk(cfg, embeds, acts[i]);
    }
    BaseOfAre(acts);
  }

  lemma BaseOfStretch(front: Log, batch: Log, acts: Log)
    requires AllBase(batch) && BaseOf(acts) == []
    ensures BaseOf(front + batch + acts) == BaseOf(front) + batch
  {
    BaseOfAre(batch);
    BaseOfConcat(front, batch);
    BaseOfConcat(front + batch, acts);
  }

  /** The base statements are the chunks' rows in message order. */
  lemma {:induction false} TracedBase(cfg: Config, all: seq<Message>, chunks: seq<seq<Message>>, acts: seq<Log>)
    requires EachActsOk(cfg, chunks, acts)
    ensures BaseOf(Interleaved(cfg, all, chunks, acts)) == ChunkStatements(cfg, all, Flatten(chunks))
  {
    if chunks != [] {
      var n := |chunks| - 1;
      var front := Interleaved(cfg, all, chunks[..n], acts[..n]);
      TracedBase(cfg, all, chunks[..n], acts[..n]);
      ActsHaveNoBase(cfg, ChunkEmbeds(cfg, chunks[n]), acts[n]);
      ChunkStatementsAre(cfg, all, chunks[n]);
      BaseOfStretch(front, ChunkStatements(cfg, all, chunks[n]), acts[n]);
      FlattenSnoc(chunks[..n], chunks[n]);
      ChunkStatementsConcat(cfg, all, Flatten(chunks[..n]), chunks[n]);
      assert chunks == chunks[..n] + [chunks[n]];
    }
  }

  /** The chunk is one that the row's own input is split into. */
  predicate OwnChunk(cfg: Config, config: TableConfig, columns: seq<string>, row: Row, chunk: string) {
    var chunks := cfg.model.split(Input(row, Positions(columns, config.embedColumns), cfg.show));
    chunks.Some? && chunk in chunks.value
  }

  /** v is made from this base row: its metadata cells, a chunk of its own text, and a vector. */
  ghost predicate MadeFrom(cfg: Config, config: TableConfig, columns: seq<string>, row: Row, v: Row) {
    exists e: Embedding ::
      && OwnChunk(cfg, config, columns, row, e.chunk)
      && v == Metadata(row, columns, config.metadataColumns) + [Text(e.chunk), Literal(e.vector)]
  }

  ghost predicate EachOwn(cfg: Config, config: TableConfig, columns: seq<string>, rows: seq<Row>,
                          embeddings: seq<seq<Embedding>>) {
    |embeddings| == |rows| &&
    forall i, k :: 0 <= i < |rows| && 0 <= k < |embeddings[i]| ==>
      OwnChunk(cfg, config, columns, rows[i], embeddings[i][k].chunk)
  }

  lemma EmbeddingsAreOwn(cfg: Config, config: TableConfig, b: EmbeddingBatch)
    requires EmbeddingsOf(cfg, config, b).Ok? && |EmbeddingsOf(cfg, config, b).value| == |b.rows|
    ensures EachOwn(cfg, config, b.columns, b.rows, EmbeddingsOf(cfg, config, b).value)
  {
    var positions := Positions(b.columns, config.embedColumns);
    var inputs := Inputs(b.rows, positions, cfg.show);
    var embeddings: seq<seq<Embedding>> := EmbeddingsOf(cfg, config, b).value;
    forall i: nat, k: nat | i < |b.rows| && k < |embeddings[i]|
      ensures OwnChunk(cfg, config, b.columns, b.rows[i], embeddings[i][k].chunk)
    {
      ChunksAreTheInputs(cfg.model, inputs, i);
      assert inputs[i] == Input(b.rows[i], positions, cfg.show);
      assert ChunkTexts(embeddings[i])[k] == embeddings[i][k].chunk;
    }
  }

  lemma {:induction false} ValueHasRow(cfg: Config, config: TableConfig, columns: seq<string>, rows: seq<Row>,
                                       embeddings: seq<seq<Embedding>>, v: Row) returns (i: nat)
    requires EachOwn(cfg, config, columns, rows, embeddings) && v in AllValues(rows, columns, config, embeddings)
    ensures i < |rows| && MadeFrom(cfg, config, columns, rows[i], v)
  {
    var n := |rows| - 1;
    if v in AllValues(rows[..n], columns, config, embeddings[..n]) {
      i := ValueHasRow(cfg, config, columns, rows[..n], embeddings[..n], v);
    } else {
      i := n;
      var k :| 0 <= k < |RowValues(rows[n], columns, config, embeddings[n])| &&
               RowValues(rows[n], columns, config, embeddings[n])[k] == v;
      assert OwnChunk(cfg, config, columns, rows[n], embeddings[n][k].chunk);
      var e := embeddings[n][k];
      assert v == Metadata(rows[n], columns, config.metadataColumns) + [Text(e.chunk), Literal(e.vector)];
    }
  }

  lemma EmbedIsValue(cfg: Config, config: TableConfig, b: EmbeddingBatch, target: string, v: Row)
    returns (embeddings: seq<seq<Embedding>>)
    requires Embed(target, v) in TableLog(cfg, config, b)
    ensures config.target == target && EachOwn(cfg, config, b.columns, b.rows, embeddings)
    ensures v in AllValues(b.rows, b.columns, config, embeddings)
  {
    EmbeddingsAreOwn(cfg, config, b);
    embeddings := EmbeddingsOf(cfg, config, b).value;
    var values := AllValues(b.rows, b.columns, config, embeddings);
    var k :| 0 <= k < |Embeds(config.target, values)| && Embeds(config.target, values)[k] == Embed(target, v);
    assert values[k] in values;
  }

  /**
   v is made for this target from a row of m, under the columns of first, both messages for the table configured with
   it.
   */
  ghost predicate MadeBy(cfg: Config, ms: seq<Message>, m: Message, first: Message, row: Row, target: string, v: Row) {
    && m in ms && m.name.Some? && EmbedsTo(cfg, m, m.name.value) && row in m.rows
    && first in ms && EmbedsTo(cfg, first, m.name.value)
    && cfg.tables[m.name.value].target == target && MadeFrom(cfg, cfg.tables[m.name.value], first.table.columns, row, v)
  }

  /** Statement j writes the row to m's base table. */
  ghost predicate WritesRow(cfg: Config, all: seq<Message>, log: Log, j: nat, m: Message, row: Row) {
    j < |log| && log[j] == Base(QueryFor(cfg, all, m), row)
  }

  /** Within a chunk's stretch of the log, a value made for a table stands behind the base row it is made from. */
  lemma ChunkEmbedAfterBase(cfg: Config, all: seq<Message>, chunk: seq<Message>, source: string,
                            embeddings: seq<seq<Embedding>>, v: Row)
    returns (m: Message, row: Row, first: Message, j: nat)
    requires source in cfg.tables && source in ChunkEmbeds(cfg, chunk)
    requires var b := ChunkEmbeds(cfg, chunk)[source]; EachOwn(cfg, cfg.tables[source], b.columns, b.rows, embeddings)
    requires var b := ChunkEmbeds(cfg, chunk)[source]; v in AllValues(b.rows, b.columns, cfg.tables[source], embeddings)
    ensures MadeBy(cfg, chunk, m, first, row, cfg.tables[source].target, v)
    ensures WritesRow(cfg, all, ChunkStatements(cfg, all, chunk), j, m, row)
  {
    var b := ChunkEmbeds(cfg, chunk)[source];
    var i := ValueHasRow(cfg, cfg.tables[source], b.columns, b.rows, embeddings, v);
    EmbedsAreTheChunks(cfg, chunk, source);
    var l := BatchColumns(cfg, chunk, source);
    row, first := b.rows[i], chunk[l];
    m, j := EmbeddedRowIsFlushed(cfg, all, chunk, source, row);
  }

  lemma ActAfterBase(cfg: Config, all: seq<Message>, chunk: seq<Message>, acts: Log, i: nat)
    returns (m: Message, row: Row, first: Message, j: nat)
    requires ActsOk(cfg, ChunkEmbeds(cfg, chunk), acts) && i < |acts| && acts[i].Embed?
    ensures MadeBy(cfg, chunk, m, first, row, acts[i].target, acts[i].row)
    ensures WritesRow(cfg, all, ChunkStatements(cfg, all, chunk), j, m, row)
  {
    var embeds, act := ChunkEmbeds(cfg, chunk), acts[i];
    assert ActOk(cfg, embeds, act);
    var source :| source in embeds && source in cfg.tables && act in TableLog(cfg, cfg.tables[source], embeds[source]);
    var embeddings := EmbedIsValue(cfg, cfg.tables[source], embeds[source], act.target, act.row);
    m, row, first, j := ChunkEmbedAfterBase(cfg, all, chunk, source, embeddings, act.row);
  }

  lemma WritesRowBehind(cfg: Config, all: seq<Message>, front: Log, batch: Log, acts: Log, l: nat, m: Message, row: Row)
    requires WritesRow(cfg, all, batch, l, m, row)
    ensures l < |batch| && WritesRow(cfg, all, front + batch + acts, |front| + l, m, row)
  {
  }

  lemma LastStretch(cfg: Config, all: seq<Message>, front: Log, chunk: seq<Message>, batch: Log, acts: Log, k: nat)
    returns (m: Message, row: Row, first: Message, j: nat)
    requires batch == ChunkStatements(cfg, all, chunk) && ActsOk(cfg, ChunkEmbeds(cfg, chunk), acts)
    requires |front| <= k < |front + batch + acts| && (front + batch + acts)[k].Embed?
    ensures var embed := (front + batch + acts)[k]; MadeBy(cfg, chunk, m, first, row, embed.target, embed.row)
    ensures j < k && WritesRow(cfg, all, front + batch + acts, j, m, row)
  {
    ChunkStatementsAre(cfg, all, chunk);
    var i := EmbedIsAct(front, batch, acts, k);
    var l;
    m, row, first, l := ActAfterBase(cfg, all, chunk, acts, i);
    WritesRowBehind(cfg, all, front, batch, acts, l, m, row);
    j := |front| + l;
  }

  lemma MadeByMore(cfg: Config, some: seq<Message>, ms: seq<Message>, m: Message, first: Message, row: Row,
                   target: string, v: Row)
    requires MadeBy(cfg, some, m, first, row, target, v) && forall x :: x in some ==> x in ms
    ensures MadeBy(cfg, ms, m, first, row, target, v)
  {
  }

  /**
   Whatever the outcome of InsertBatch: a row written to an embeddings table is made from a row of a message for the
   table configured with that target, its cells named by the columns of a message for that same table, the first of its
   flush, and it stands in the log behind the statement that wrote this row to its base table.
   */
  lemma {:induction false} EmbeddedAfterBase(cfg: Config, all: seq<Message>, chunks: seq<seq<Message>>, acts: seq<Log>,
                                             k: nat)
    returns (m: Message, row: Row, first: Message, j: nat)
    requires EachActsOk(cfg, chunks, acts)
    requires k < |Interleaved(cfg, all, chunks, acts)| && Interleaved(cfg, all, chunks, acts)[k].Embed?
    ensures var embed := Interleaved(cfg, all, chunks, acts)[k];
      MadeBy(cfg, Flatten(chunks), m, first, row, embed.target, embed.row)
    ensures j < k && WritesRow(cfg, all, Interleaved(cfg, all, chunks, acts), j, m, row)
  {
    var n, log := |chunks| - 1, Interleaved(cfg, all, chunks, acts);
    var front := Interleaved(cfg, all, chunks[..n], acts[..n]);
    assert chunks == chunks[..n] + [chunks[n]];
    FlattenSnoc(chunks[..n], chunks[n]);
    if k < |front| {
      m, row, first, j := EmbeddedAfterBase(cfg, all, chunks[..n], acts[..n], k);
      MadeByMore(cfg, Flatten(chunks[..n]), Flatten(chunks), m, first, row, log[k].target, log[k].row);
    } else {
      m, row, first, j := LastStretch(cfg, all, front, chunks[n], ChunkStatements(cfg, all, chunks[n]), acts[n], k);
      MadeByMore(cfg, chunks[n], Flatten(chunks), m, first, row, log[k].target, log[k].row);
    }
  }

  lemma EmbedIsAct(front: Log, batch: Log, acts: Log, k: nat) returns (i: nat)
    requires AllBase(batch) && |front| <= k < |front + batch + acts| && (front + batch + acts)[k].Embed?
    ensures i < |acts| && k == |front| + |batch| + i && (front + batch + acts)[k] == acts[i]
  {
    assert forall q :: |front| <= q < |front| + |batch| ==> (front + batch + acts)[q] == batch[q - |front|];
    i := k - |front| - |batch|;
  }

  /** The first n flushes were executed. */
  ghost predicate Ran(cfg: Config, all: seq<Message>, before: Log, after: Log, n: nat, acts: seq<Log>) {
    var flushes := FlushesOf(cfg.batchSize, all);
    n <= |flushes| && Traced(cfg, all, before, after, flushes[..n], acts)
  }

  lemma TracedRan(cfg: Config, all: seq<Message>, before: Log, after: Log, done: seq<seq<Message>>, acts: seq<Log>)
    requires Traced(cfg, all, before, after, done, acts) && done <= FlushesOf(cfg.batchSize, all)
    ensures Ran(cfg, all, before, after, |done|, acts)
  {
    assert FlushesOf(cfg.batchSize, all)[..|done|] == done;
  }

  /** So the base tables hold the rows of the first messages, and of all of them after all flushes. */
  lemma {:induction false} RanBase(cfg: Config, all: seq<Message>, before: Log, after: Log, n: nat, acts: seq<Log>)
    requires Ran(cfg, all, before, after, n, acts)
    ensures var flushes := FlushesOf(cfg.batchSize, all);
      && n <= |flushes| && BaseOf(after) == BaseOf(before) + ChunkStatements(cfg, all, Flatten(flushes[..n]))
      && (n == |flushes| ==> Flatten(flushes[..n]) == all)
      && Flatten(flushes[..n]) <= all
      && AllWritten(cfg, all, Flatten(flushes[..n]), BaseOf(after)[|BaseOf(before)|..])
  {
    var flushes := FlushesOf(cfg.batchSize, all);
    TracedBase(cfg, all, flushes[..n], acts);
    BaseOfConcat(before, Interleaved(cfg, all, flushes[..n], acts));
    FlushesAreAll(cfg.batchSize, all);
    assert n == |flushes| ==> flushes[..n] == flushes;
    assert flushes == flushes[..n] + flushes[n..];
    FlattenAppend(flushes[..n], flushes[n..]);
    ChunkIsWritten(cfg, all, Flatten(flushes[..n]));
  }

  // ---------------------------------------------------------------- one chunk after the other

  /** The statements of one table: all of them, or the first. */
  ghost predicate TableRan(cfg: Config, config: TableConfig, b: EmbeddingBatch, ok: bool, acts: Log) {
    && acts <= TableLog(cfg, config, b)
    && (ok ==> Computed(cfg, config, b) && acts == TableLog(cfg, config, b))
  }

  /** After the embeddings of these sources have been written. */
  ghost predicate EmbedsWritten(cfg: Config, before: Log, after: Log, embeds: map<string, EmbeddingBatch>,
                                sources: set<string>) {
    forall s :: s in cfg.tables ==> TargetEmbedded(cfg, before, after, embeds, sources, s)
  }

  ghost predicate TargetEmbedded(cfg: Config, before: Log, after: Log, embeds: map<string, EmbeddingBatch>,
                                 sources: set<string>,
                                 s: string)
    requires s in cfg.tables
  {
    var config := cfg.tables[s];
    Rows(after, config.target) ==
    if s in embeds && s in sources then RowsAfter(cfg, config, Rows(before, config.target), embeds[s])
    else Rows(before, config.target)
  }

  ghost predicate SourcesComputed(cfg: Config, embeds: map<string, EmbeddingBatch>, sources: set<string>) {
    forall s :: s in sources && s in embeds && s in cfg.tables ==> Computed(cfg, cfg.tables[s], embeds[s])
  }

  lemma SourceSkipped(cfg: Config, before: Log, now: Log, embeds: map<string, EmbeddingBatch>, sources: set<string>,
                      source: string)
    requires source !in cfg.tables && EmbedsWritten(cfg, before, now, embeds, sources)
    requires SourcesComputed(cfg, embeds, sources)
    ensures EmbedsWritten(cfg, before, now, embeds, sources + {source})
    ensures SourcesComputed(cfg, embeds, sources + {source})
  {
    forall s | s in cfg.tables ensures TargetEmbedded(cfg, before, now, embeds, sources + {source}, s) {
      assert TargetEmbedded(cfg, before, now, embeds, sources, s);
    }
  }

  lemma ActsMore(cfg: Config, embeds: map<string, EmbeddingBatch>, source: string, ok: bool, done: Log, acts: Log)
    requires ActsOk(cfg, embeds, done) && source in embeds && source in cfg.tables
    requires TableRan(cfg, cfg.tables[source], embeds[source], ok, acts)
    ensures ActsOk(cfg, embeds, done + acts)
  {
    forall i | 0 <= i < |acts| ensures ActOk(cfg, embeds, acts[i]) {
      assert TableLog(cfg, cfg.tables[source], embeds[source])[i] == acts[i];
    }
  }

  /** One table more: the targets are distinct, so the others' rows stay. */
  lemma SourceWritten(cfg: Config, before: Log, now: Log, after: Log, embeds: map<string, EmbeddingBatch>,
                      sources: set<string>,
                      source: string, acts: Log)
    requires DistinctTargets(cfg) && source in embeds && source !in sources && source in cfg.tables
    requires EmbedsWritten(cfg, before, now, embeds, sources) && SourcesComputed(cfg, embeds, sources)
    requires after == now + acts && TableRan(cfg, cfg.tables[source], embeds[source], true, acts)
    ensures EmbedsWritten(cfg, before, after, embeds, sources + {source})
    ensures SourcesComputed(cfg, embeds, sources + {source})
  {
    forall s | s in cfg.tables ensures TargetEmbedded(cfg, before, after, embeds, sources + {source}, s) {
      assert TargetEmbedded(cfg, before, now, embeds, sources, s);
      RowsOfTableLog(cfg, cfg.tables[source], embeds[source], now, cfg.tables[s].target);
    }
  }

  lemma TargetsMore(cfg: Config, all: seq<Message>, before: Log, now: Log, after: Log, done: seq<seq<Message>>,
                    chunk: seq<Message>)
    requires TargetsWritten(cfg, before, now, done)
    requires var embeds := ChunkEmbeds(cfg, chunk);
      EmbedsWritten(cfg, now + ChunkStatements(cfg, all, chunk), after, embeds, embeds.Keys)
    ensures TargetsWritten(cfg, before, after, done + [chunk])
  {
    ChunkStatementsAre(cfg, all, chunk);
    forall s | s in cfg.tables ensures TargetWritten(cfg, before, after, done + [chunk], s) {
      RowsOfBase(now, ChunkStatements(cfg, all, chunk), cfg.tables[s].target);
      assert TargetWritten(cfg, before, now, done, s);
    }
  }

  lemma ComputedMore(cfg: Config, done: seq<seq<Message>>, chunk: seq<Message>)
    ensures ChunksComputed(cfg, done + [chunk]) <==>
            ChunksComputed(cfg, done) && AllComputed(cfg, ChunkEmbeds(cfg, chunk))
  {
    if ChunksComputed(cfg, done + [chunk]) {
      forall i | 0 <= i < |done| ensures AllComputed(cfg, ChunkEmbeds(cfg, done[i])) {
        assert (done + [chunk])[i] == done[i];
      }
      assert (done + [chunk])[|done|] == chunk;
    }
  }

  /** The queries cached for the first i messages. */
  ghost predicate Cached(cfg: Config, all: seq<Message>, i: nat, queries: map<string, Query>)
    requires i <= |all|
  {
    && (forall j :: 0 <= j < i && all[j].name.Some? ==> all[j].name.value in queries)
    && (forall name :: name in queries ==>
        FirstTable(all, name).Some? && queries[name] == QueryOf(cfg, FirstTable(all, name).value))
    && (forall name :: name in queries ==> exists j :: 0 <= j < i && all[j].name == Some(name))
  }

  lemma CutUnfolds(size: int, all: seq<Message>, i: nat)
    requires i < |all|
    ensures CutOf(size, all[..i + 1]) == Queue(size, CutOf(size, all[..i]), all[i])
  {
    assert all[..i + 1][..i] == all[..i];
  }

  /** The chunks completed by the first messages are flushes of all of them. */
  lemma {:induction false} DoneArePrefix(size: int, all: seq<Message>, i: nat)
    requires i <= |all|
    ensures CutOf(size, all[..i]).done <= FlushesOf(size, all)
    decreases |all| - i
  {
    if i == |all| {
      assert all[..i] == all;
    } else {
      DoneArePrefix(size, all, i + 1);
      CutUnfolds(size, all, i);
    }
  }

  lemma AcceptedMore(cfg: Config, all: seq<Message>, i: nat)
    requires i < |all| && AllAccepted(cfg, all[..i]) && Accepted(cfg, all[i])
    ensures AllAccepted(cfg, all[..i + 1])
  {
    assert all[..i + 1] == all[..i] + [all[i]];
  }

  lemma {:induction false} ValuesGrow(b: EmbeddingBatch, config: TableConfig, embeddings: seq<seq<Embedding>>, i: nat)
    requires |embeddings| == |b.rows| && i <= |b.rows|
    ensures AllValues(b.rows[..i], b.columns, config, embeddings[..i]) <=
            AllValues(b.rows, b.columns, config, embeddings)
    decreases |b.rows| - i
  {
    if i == |b.rows| {
      assert b.rows[..i] == b.rows && embeddings[..i] == embeddings;
    } else {
      ValuesGrow(b, config, embeddings, i + 1);
      AllValuesUnfolds(b, config, embeddings, i);
    }
  }

  lemma AllRows(b: EmbeddingBatch, config: TableConfig, embeddings: seq<seq<Embedding>>)
    requires |embeddings| == |b.rows|
    ensures AllValues(b.rows[..|b.rows|], b.columns, config, embeddings[..|b.rows|]) ==
            AllValues(b.rows, b.columns, config, embeddings)
  {
    assert b.rows[..|b.rows|] == b.rows && embeddings[..|b.rows|] == embeddings;
  }

  lemma ValuesSoFar(b: EmbeddingBatch, config: TableConfig, embeddings: seq<seq<Embedding>>, i: nat)
    requires |embeddings| == |b.rows| && i < |b.rows|
    ensures AllValues(b.rows[..i + 1], b.columns, config, embeddings[..i + 1]) ==
            AllValues(b.rows[..i], b.columns, config, embeddings[..i]) +
                RowValues(b.rows[i], b.columns, config, embeddings[i])
    ensures AllValues(b.rows[..i + 1], b.columns, config, embeddings[..i + 1]) <=
            AllValues(b.rows, b.columns, config, embeddings)
  {
    AllValuesUnfolds(b, config, embeddings, i);
    ValuesGrow(b, config, embeddings, i + 1);
  }

  lemma EmbedsConcat(log: Log, target: string, sent: seq<Row>, queued: seq<Row>, values: seq<Row>)
    ensures Embeds(target, queued + values) == Embeds(target, queued) + Embeds(target, values)
    ensures log + Embeds(target, sent) + Embeds(target, queued) == log + Embeds(target, sent + queued)
    ensures sent + (queued + values) == sent + queued + values
  {
    assert Embeds(target, sent + queued) == Embeds(target, sent) + Embeds(target, queued);
  }

  lemma ReplacementPart(log: Log, config: TableConfig, ids: seq<Id>, sent: seq<Row>, values: seq<Row>)
    requires sent <= values
    ensures [DeleteById(config, ids)] + Embeds(config.target, sent) <=
            [DeleteById(config, ids)] + Embeds(config.target, values)
    ensures log + [DeleteById(config, ids)] + Embeds(config.target, sent) ==
            log + ([DeleteById(config, ids)] + Embeds(config.target, sent))
  {
    assert Embeds(config.target, sent) == Embeds(config.target, values)[..|sent|];
  }

  /** The refusal of a message, before anything of it is written. */
  function Refusal(cfg: Config, m: Message): Option<Failure> {
    if m.name.None? then Some(NoTableName)
    else if m.name.value !in cfg.known then Some(UnknownTable(m.name.value))
    else if m.name.value in cfg.tables && !ColumnsPresent(cfg.tables[m.name.value], m.table)
      then Some(MissingColumns(m.name.value))
    else None
  }

  /** Every message is accepted and every flush can be embedded. */
  ghost predicate Succeeds(cfg: Config, all: seq<Message>) {
    AllAccepted(cfg, all) && ChunksComputed(cfg, FlushesOf(cfg.batchSize, all))
  }

  /**
   The splitter splits every input, the endpoint embeds every chunk by itself, and getCQIDs gives an id for every row.
   */
  ghost predicate Embeddable(cfg: Config, all: seq<Message>) {
    (exists vector: string -> Vector :: ModelWorks(cfg.model, vector)) && forall m :: m in all ==> IdPerRow(m)
  }

  lemma EmbeddableSucceedsIff(cfg: Config, all: seq<Message>)
    ensures AllAccepted(cfg, all) && Embeddable(cfg, all) ==>
              (Succeeds(cfg, all) <==> EveryTableHasRows(cfg, FlushesOf(cfg.batchSize, all)))
  {
    if AllAccepted(cfg, all) && Embeddable(cfg, all) {
      var vector: string -> Vector :| ModelWorks(cfg.model, vector);
      InsertSucceedsIff(cfg, all, vector);
    }
  }

  lemma NotComputed(cfg: Config, embeds: map<string, EmbeddingBatch>, source: string)
    requires source in embeds
    ensures source in cfg.tables && !Computed(cfg, cfg.tables[source], embeds[source]) ==> !AllComputed(cfg, embeds)
  {
  }

  /** One chunk more, flushed and embedded. */
  lemma ChunkWritten(cfg: Config, all: seq<Message>, before: Log, now: Log, after: Log, done: seq<seq<Message>>,
                     chunk: seq<Message>)
    requires TargetsWritten(cfg, before, now, done) && ChunksComputed(cfg, done)
    requires var embeds := ChunkEmbeds(cfg, chunk);
      AllComputed(cfg, embeds) && EmbedsWritten(cfg, now + ChunkStatements(cfg, all, chunk), after, embeds, embeds.Keys)
    ensures TargetsWritten(cfg, before, after, done + [chunk]) && ChunksComputed(cfg, done + [chunk])
  {
    TargetsMore(cfg, all, before, now, after, done, chunk);
    ComputedMore(cfg, done, chunk);
  }

  /** A flush that cannot be embedded, among those that complete chunks. */
  lemma ChunkNotComputed(cfg: Config, all: seq<Message>, i: nat, cut: Cut)
    requires i < |all| && cut == CutOf(cfg.batchSize, all[..i]) && RowCount(cut.open + [all[i]]) >= cfg.batchSize
    ensures AllComputed(cfg, ChunkEmbeds(cfg, cut.open + [all[i]])) || !Succeeds(cfg, all)
  {
    CutUnfolds(cfg.batchSize, all, i);
    DoneArePrefix(cfg.batchSize, all, i + 1);
    assert FlushesOf(cfg.batchSize, all)[|cut.done|] == cut.open + [all[i]];
  }

  class Client {
    const cfg: Config
    var calls: nat
    var log: Log

    constructor (cfg: Config, log: Log)
      ensures this.cfg == cfg && this.log == log && calls == 0
    {
      this.cfg, this.log, calls := cfg, log, 0;
    }

    method Call() returns (v: Verdict)
      modifies this`calls
      ensures v == cfg.verdict(old(calls)) && calls == old(calls) + 1
    {
      v := cfg.verdict(calls);
      calls := calls + 1;
    }

    /** flushBatch: the batch is executed as a whole or not at all, and tried again after a deadlock. */
    method FlushBatch(batch: Log) returns (ok: bool)
      modifies this
      ensures ok <==> batch == [] || Retried(cfg.verdict, old(calls), cfg.retryOnDeadlock + 1)
      ensures old(calls) <= calls <= old(calls) + cfg.retryOnDeadlock + 1 && (ok <==> LastDone(cfg, old(calls), calls))
      ensures log == if ok then old(log) + batch else old(log)
    {
      if |batch| == 0 {
        return true;
      }
      var attempts: nat := cfg.retryOnDeadlock + 1;
      while attempts > 0
        invariant log == old(log) && calls == old(calls) + (cfg.retryOnDeadlock + 1 - attempts) &&
            attempts <= cfg.retryOnDeadlock + 1
        invariant calls > old(calls) ==> !LastDone(cfg, old(calls), calls)
        invariant Retried(cfg.verdict, old(calls), cfg.retryOnDeadlock + 1) == Retried(cfg.verdict, calls, attempts)
      {
        var v := Call();
        if v.Done? {
          log := log + batch;
          return true;
        }
        if v.Failed? {
          return false;
        }
        attempts := attempts - 1;
      }
      return false;
    }

    /** The delete by ids, which the server refuses when its list is not SQL. */
    method DeleteIds(config: TableConfig, ids: seq<Id>) returns (ok: bool)
      modifies this
      ensures ok <==> ParseInList(InList(ids)).Some? && LastDone(cfg, old(calls), calls)
      ensures calls == old(calls) + 1
      ensures log == if ok then old(log) + [DeleteById(config, ids)] else old(log)
    {
      var list := BuildDeleteIds(ids);
      InListParsesIff(ids);
      var v := Call();
      var parsed := ParseInList(list);
      if parsed.None? || !v.Done? {
        return false;
      }
      log := log + [DeleteById(config, parsed.value)];
      return true;
    }

    /** The values sent are in the log, and those queued are in the batch. */
    ghost predicate Sending(before: Log, target: string, sent: seq<Row>, batch: Log, queued: seq<Row>)
      reads this`log
    {
      batch == Embeds(target, queued) && log == before + Embeds(target, sent)
    }

    /** The rows of the embeddings table, in batches of at least batchSize: all of them, or the first. */
    method InsertValues(config: TableConfig, b: EmbeddingBatch, embeddings: seq<seq<Embedding>>)
      returns (ok: bool, ghost sent: seq<Row>)
      requires |embeddings| == |b.rows|
      modifies this
      ensures log == old(log) + Embeds(config.target, sent)
      ensures sent <= AllValues(b.rows, b.columns, config, embeddings)
      ensures ok ==> sent == AllValues(b.rows, b.columns, config, embeddings)
      ensures old(calls) <= calls
      ensures ok <==> LastDone(cfg, old(calls), calls)
    {
      var batch: Log := [];
      ghost var queued: seq<Row> := [];
      sent := [];
      assert log + Embeds(config.target, sent) == log;
      for i := 0 to |b.rows|
        invariant Sending(old(log), config.target, sent, batch, queued) && old(calls) <= calls &&
            LastDone(cfg, old(calls), calls)
        invariant sent + queued == AllValues(b.rows[..i], b.columns, config, embeddings[..i])
      {
        ValuesSoFar(b, config, embeddings, i);
        ok, batch, sent, queued := SendRow(config, b, embeddings, i, batch, old(log), sent, queued);
        if !ok {
          return;
        }
      }
      AllRows(b, config, embeddings);
      ok, sent := FlushValues(batch, config.target, old(log), sent, queued);
    }

    /** One turn of its loop. */
    method SendRow(config: TableConfig, b: EmbeddingBatch, embeddings: seq<seq<Embedding>>, i: nat,
                   batch: Log, ghost before: Log, ghost sent: seq<Row>, ghost queued: seq<Row>)
      returns (ok: bool, batch': Log, ghost sent': seq<Row>, ghost queued': seq<Row>)
      requires i < |b.rows| == |embeddings| && Sending(before, config.target, sent, batch, queued)
      modifies this
      ensures ok ==> Sending(before, config.target, sent', batch', queued')
      ensures sent' + queued' == sent + queued + RowValues(b.rows[i], b.columns, config, embeddings[i])
      ensures log == before + Embeds(config.target, sent')
      ensures old(calls) <= calls
      ensures ok <==> LastDone(cfg, old(calls), calls)
    {
      var values := BuildRowValues(b.rows[i], b.columns, config, embeddings[i]);
      EmbedsConcat(before, config.target, sent, queued, values);
      ok, batch', sent', queued' := true, batch + Embeds(config.target, values), sent, queued + values;
      if |batch'| >= cfg.batchSize {
        ok, sent' := FlushValues(batch', config.target, before, sent, queued');
        if ok {
          assert sent' + [] == sent + queued';
          batch', queued' := [], [];
        }
      }
    }

    /** Run the values queued after those sent. */
    method FlushValues(batch: Log, target: string, ghost before: Log, ghost sent: seq<Row>, ghost queued: seq<Row>)
      returns (ok: bool, ghost sent': seq<Row>)
      requires Sending(before, target, sent, batch, queued)
      modifies this
      ensures log == before + Embeds(target, sent') && sent' == if ok then sent + queued else sent
      ensures old(calls) <= calls
      ensures ok <==> LastDone(cfg, old(calls), calls)
    {
      EmbedsConcat(before, target, sent, queued, []);
      ok := FlushBatch(batch);
      sent' := if ok then sent + queued else sent;
    }

    /** One table of insertEmbeddingsBatch: all of its statements, or the first of them. */
    method EmbedTable(config: TableConfig, b: EmbeddingBatch) returns (err: Option<Failure>, ghost acts: Log)
      modifies this
      ensures log == old(log) + acts && TableRan(cfg, config, b, err.None?, acts)
      ensures old(calls) <= calls
      ensures err.None? <==> Computed(cfg, config, b) && LastDone(cfg, old(calls), calls)
    {
      acts := [];
      assert log + [] == log;
      var columnIdxs := ColumnIndexes(b.columns, config.embedColumns);
      if columnIdxs.Err? {
        return Some(EmbeddingFailed(columnIdxs.error)), acts;
      }
      var inputs := BuildInputs(b.rows, columnIdxs.value, cfg.show);
      var responses := CreateEmbeddings(cfg.model, inputs);
      if responses.Err? {
        return Some(EmbeddingFailed(responses.error)), acts;
      }
      if |responses.value| != |b.rows| {
        return Some(EmbeddingFailed(CountMismatch(|responses.value|, |b.rows|))), acts;
      }
      var ok;
      ok, acts := ReplaceRows(config, b, responses.value);
      return if ok then None else Some(DbFailed), acts;
    }

    /** Delete the batch's ids and write its rows. */
    method ReplaceRows(config: TableConfig, b: EmbeddingBatch, embeddings: seq<seq<Embedding>>)
      returns (ok: bool, ghost acts: Log)
      requires |embeddings| == |b.rows|
      modifies this
      ensures var all := [DeleteById(config, b.ids)] +
          Embeds(config.target, AllValues(b.rows, b.columns, config, embeddings));
        log == old(log) + acts && acts <= all && (ok ==> acts == all)
      ensures ok ==> ParseInList(InList(b.ids)).Some?
      ensures ParseInList(InList(b.ids)).None? ==> acts == []
      ensures old(calls) <= calls
      ensures ok <==> ParseInList(InList(b.ids)).Some? && LastDone(cfg, old(calls), calls)
    {
      acts := [];
      assert log + [] == log;
      ok := DeleteIds(config, b.ids);
      if ok {
        ghost var sent;
        ok, sent := InsertValues(config, b, embeddings);
        acts := [DeleteById(config, b.ids)] + Embeds(config.target, sent);
        ReplacementPart(old(log), config, b.ids, sent, AllValues(b.rows, b.columns, config, embeddings));
      }
    }

    /** One turn of the loop over the tables: a table without a configuration is skipped. */
    method EmbedSource(embeds: map<string, EmbeddingBatch>, source: string, ghost before: Log, ghost done: Log,
                       ghost written: set<string>)
      returns (err: Option<Failure>, ghost done': Log)
      requires DistinctTargets(cfg) && source in embeds && source !in written && log == before + done
      requires ActsOk(cfg, embeds, done)
      requires EmbedsWritten(cfg, before, log, embeds, written) && SourcesComputed(cfg, embeds, written)
      modifies this
      ensures log == before + done' && ActsOk(cfg, embeds, done')
      ensures err.None? ==>
                EmbedsWritten(cfg, before, log, embeds, written + {source}) &&
                    SourcesComputed(cfg, embeds, written + {source})
      ensures old(calls) <= calls
      ensures err.None? ==> LastDone(cfg, old(calls), calls)
      ensures err.Some? && LastDone(cfg, old(calls), calls) ==>
                source in cfg.tables && !Computed(cfg, cfg.tables[source], embeds[source])
    {
      if source !in cfg.tables {
        SourceSkipped(cfg, before, log, embeds, written, source);
        return None, done;
      }
      ghost var acts;
      err, acts := EmbedTable(cfg.tables[source], embeds[source]);
      done' := done + acts;
      Behind(before, done, acts);
      ActsMore(cfg, embeds, source, err.None?, done, acts);
      if err.None? {
        SourceWritten(cfg, before, old(log), log, embeds, written, source, acts);
      }
    }

    /** insertEmbeddingsBatch, whatever the order of the tables. */
    method InsertEmbeddingsBatch(embeds: map<string, EmbeddingBatch>) returns (err: Option<Failure>, ghost acts: Log)
      requires DistinctTargets(cfg)
      modifies this
      ensures log == old(log) + acts && ActsOk(cfg, embeds, acts)
      ensures err.None? ==> AllComputed(cfg, embeds) && EmbedsWritten(cfg, old(log), log, embeds, embeds.Keys)
      ensures old(calls) <= calls
      ensures err.None? <==> AllComputed(cfg, embeds) && LastDone(cfg, old(calls), calls)
    {
      acts := [];
      assert log + [] == log;
      if |embeds| == 0 {
        return None, acts;
      }
      var extension := Call();
      if !extension.Done? {
        return Some(DbFailed), acts;
      }
      var todo := embeds.Keys;
      ghost var written: set<string> := {};
      while todo != {}
        invariant written + todo == embeds.Keys && written !! todo
        invariant old(calls) <= calls && LastDone(cfg, old(calls), calls)
        invariant log == old(log) + acts && ActsOk(cfg, embeds, acts)
        invariant EmbedsWritten(cfg, old(log), log, embeds, written) && SourcesComputed(cfg, embeds, written)
        decreases |todo|
      {
        var source :| source in todo;
        ghost var made := calls;
        err, acts := EmbedSource(embeds, source, old(log), acts, written);
        MoreCalls(cfg, old(calls), made, calls);
        if err.Some? {
          NotComputed(cfg, embeds, source);
          return;
        }
        todo, written := todo - {source}, written + {source};
      }
      return None, acts;
    }

    /** These chunks are flushed and embedded: the log and every configured target are as they leave it. */
    ghost predicate Progress(all: seq<Message>, before: Log, done: seq<seq<Message>>, acts: seq<Log>)
      reads this`log
    {
      Traced(cfg, all, before, log, done, acts) && TargetsWritten(cfg, before, log, done) && ChunksComputed(cfg, done)
    }

    /** Flush a chunk and write its embeddings. */
    method FlushChunk(batch: Log, embeds: map<string, EmbeddingBatch>, ghost all: seq<Message>, ghost before: Log,
                      ghost done: seq<seq<Message>>, ghost acts: seq<Log>, ghost chunk: seq<Message>)
      returns (err: Option<Failure>, ghost done': seq<seq<Message>>, ghost acts': seq<Log>)
      requires DistinctTargets(cfg) && Progress(all, before, done, acts)
      requires batch == ChunkStatements(cfg, all, chunk) && embeds == ChunkEmbeds(cfg, chunk)
      modifies this
      ensures Traced(cfg, all, before, log, done', acts') && (done' == done || done' == done + [chunk])
      ensures err.None? ==> done' == done + [chunk] && Progress(all, before, done', acts')
      ensures old(calls) <= calls && (err.None? <==> AllComputed(cfg, embeds) && LastDone(cfg, old(calls), calls))
    {
      var ok := FlushBatch(batch);
      if !ok {
        return Some(DbFailed), done, acts;
      }
      ghost var made := calls;
      ghost var more;
      err, more := EmbedChunk(embeds, all, before, old(log), done, acts, chunk);
      MoreCalls(cfg, old(calls), made, calls);
      done', acts' := done + [chunk], acts + [more];
    }

    /** Write the embeddings of a chunk that has been flushed. */
    method EmbedChunk(embeds: map<string, EmbeddingBatch>, ghost all: seq<Message>, ghost before: Log, ghost now: Log,
                      ghost done: seq<seq<Message>>, ghost acts: seq<Log>, ghost chunk: seq<Message>)
      returns (err: Option<Failure>, ghost more: Log)
      requires DistinctTargets(cfg) && log == now + ChunkStatements(cfg, all, chunk)
      requires embeds == ChunkEmbeds(cfg, chunk)
      requires Traced(cfg, all, before, now, done, acts) && TargetsWritten(cfg, before, now, done)
      requires ChunksComputed(cfg, done)
      modifies this
      ensures Traced(cfg, all, before, log, done + [chunk], acts + [more])
      ensures err.None? ==> Progress(all, before, done + [chunk], acts + [more])
      ensures old(calls) <= calls && (err.None? <==> AllComputed(cfg, embeds) && LastDone(cfg, old(calls), calls))
    {
      err, more := InsertEmbeddingsBatch(embeds);
      TracedMore(cfg, all, before, now, log, done, acts, chunk, more);
      if err.None? {
        ChunkWritten(cfg, all, before, now, log, done, chunk);
      }
    }

    /** After a message has been queued. */
    method FlushWhenFull(ghost all: seq<Message>, ghost m: Message, ghost cut: Cut, batch: Log,
                         embeds: map<string, EmbeddingBatch>, ghost before: Log, ghost acts: seq<Log>)
      returns (err: Option<Failure>, batch': Log, embeds': map<string, EmbeddingBatch>,
               ghost done': seq<seq<Message>>, ghost acts': seq<Log>)
      requires DistinctTargets(cfg) && Progress(all, before, cut.done, acts)
      requires batch == ChunkStatements(cfg, all, cut.open + [m]) && embeds == ChunkEmbeds(cfg, cut.open + [m])
      modifies this
      ensures Traced(cfg, all, before, log, done', acts')
      ensures done' == cut.done || done' == Queue(cfg.batchSize, cut, m).done
      ensures old(calls) <= calls && (err.None? ==> LastDone(cfg, old(calls), calls))
      ensures err.Some? && LastDone(cfg, old(calls), calls) ==>
                RowCount(cut.open + [m]) >= cfg.batchSize && !AllComputed(cfg, ChunkEmbeds(cfg, cut.open + [m]))
      ensures err.None? ==>
                var next := Queue(cfg.batchSize, cut, m);
                && batch' == ChunkStatements(cfg, all, next.open) && embeds' == ChunkEmbeds(cfg, next.open)
                && done' == next.done && Progress(all, before, done', acts')
    {
      ghost var open := cut.open + [m];
      ChunkStatementsAre(cfg, all, open);
      if |batch| < cfg.batchSize {
        return None, batch, embeds, cut.done, acts;
      }
      batch', embeds' := [], map[];
      err, done', acts' := FlushChunk(batch, embeds, all, before, cut.done, acts, open);
    }

    /** addEmbeddingRows: a message whose ids cannot be read is left out without an error. */
    method AddEmbeddingRows(embeds: map<string, EmbeddingBatch>, name: string, m: Message)
      returns (err: Option<Failure>, embeds': map<string, EmbeddingBatch>)
      requires m.name == Some(name) && name in cfg.tables
      modifies this`calls
      ensures err.None? ==> ColumnsPresent(cfg.tables[name], m.table) && embeds' == Accumulated(cfg, embeds, m)
      ensures err.Some? || m.ids.None? ==> embeds' == embeds
      ensures err.None? && m.ids.Some? ==>
                && name in embeds' && embeds' - {name} == embeds - {name}
                && embeds'[name] ==
                   if name in embeds
                   then embeds[name].(rows := embeds[name].rows + m.rows, ids := embeds[name].ids + m.ids.value)
                   else EmbeddingBatch(m.table.columns, m.rows, m.ids.value)
      ensures !ColumnsPresent(cfg.tables[name], m.table) ==> err == Some(MissingColumns(name))
      ensures old(calls) <= calls
      ensures err.Some? && ColumnsPresent(cfg.tables[name], m.table) ==>
                err == Some(DbFailed) && !LastDone(cfg, old(calls), calls)
      ensures err.None? ==> LastDone(cfg, old(calls), calls)
    {
      embeds' := embeds;
      if !ColumnsPresent(cfg.tables[name], m.table) {
        return Some(MissingColumns(name)), embeds';
      }
      var created := Call();
      if !created.Done? {
        return Some(DbFailed), embeds';
      }
      err := None;
      if m.ids.Some? {
        var b := if name in embeds then embeds[name] else EmbeddingBatch(m.table.columns, [], []);
        b := b.(rows := b.rows + m.rows, ids := b.ids + m.ids.value);
        embeds' := embeds[name := b];
        assert [] + m.rows == m.rows && [] + m.ids.value == m.ids.value;
      }
    }

    /** One message: its query, looked up or cached, its rows queued, and its embeddings work accumulated. */
    method QueueMessage(all: seq<Message>, i: nat, queries: map<string, Query>, batch: Log,
                        embeds: map<string, EmbeddingBatch>, ghost open: seq<Message>)
      returns (err: Option<Failure>, queries': map<string, Query>, batch': Log, embeds': map<string, EmbeddingBatch>)
      requires i < |all| && Cached(cfg, all, i, queries)
      requires batch == ChunkStatements(cfg, all, open) && embeds == ChunkEmbeds(cfg, open)
      modifies this`calls
      ensures err.None? ==> Accepted(cfg, all[i]) && Cached(cfg, all, i + 1, queries')
      ensures err.None? ==>
                batch' == ChunkStatements(cfg, all, open + [all[i]]) && embeds' == ChunkEmbeds(cfg, open + [all[i]])
      ensures err.None? ==> batch <= batch' && AllWritten(cfg, all, open + [all[i]], batch')
      ensures Refusal(cfg, all[i]).Some? ==> err == Refusal(cfg, all[i])
      ensures all[i].name.None? ==> err == Some(NoTableName)
      ensures all[i].name.Some? && all[i].name.value !in cfg.known ==> err == Some(UnknownTable(all[i].name.value))
      ensures all[i].name.Some? && all[i].name.value in cfg.known && !Acceptable(cfg, all[i]) ==>
                err == Some(MissingColumns(all[i].name.value))
      ensures Acceptable(cfg, all[i]) && err.Some? ==> err == Some(DbFailed) && !LastDone(cfg, old(calls), calls)
      ensures old(calls) <= calls
      ensures err.Some? && Refusal(cfg, all[i]).None? ==> err == Some(DbFailed) && !LastDone(cfg, old(calls), calls)
      ensures err.None? ==> LastDone(cfg, old(calls), calls)
    {
      var m := all[i];
      queries', batch', embeds' := queries, batch, embeds;
      if m.name.None? {
        return Some(NoTableName), queries', batch', embeds';
      }
      var name := m.name.value;
      if name !in cfg.known {
        return Some(UnknownTable(name)), queries', batch', embeds';
      }
      if name !in queries {
        FirstTableIs(all, name, i);
        queries' := queries[name := QueryOf(cfg, m.table)];
      }
      batch' := batch + MapSeq(row => Base(queries'[name], row), m.rows);
      assert (open + [m])[..|open|] == open;
      assert MapSeq(row => Base(queries'[name], row), m.rows) == Statements(cfg, all, m);
      ChunkIsWritten(cfg, all, open + [m]);
      if name in cfg.tables {
        err, embeds' := AddEmbeddingRows(embeds, name, m);
      } else {
        err := None;
      }
    }

    /** Where InsertBatch stands before message i: the completed chunks are written, the open one is queued. */
    ghost predicate At(all: seq<Message>, i: nat, cut: Cut, before: Log, acts: seq<Log>,
                       queries: map<string, Query>, batch: Log, embeds: map<string, EmbeddingBatch>)
      reads this`log
    {
      && i <= |all| && cut == CutOf(cfg.batchSize, all[..i]) && Cached(cfg, all, i, queries) &&
          AllAccepted(cfg, all[..i])
      && batch == ChunkStatements(cfg, all, cut.open) && embeds == ChunkEmbeds(cfg, cut.open)
      && Progress(all, before, cut.done, acts)
    }

    /** One turn of the loop of InsertBatch. */
    method InsertMessage(all: seq<Message>, i: nat, queries: map<string, Query>, batch: Log,
                         embeds: map<string, EmbeddingBatch>, ghost cut: Cut, ghost before: Log, ghost acts: seq<Log>)
      returns (err: Option<Failure>, queries': map<string, Query>, batch': Log, embeds': map<string, EmbeddingBatch>,
               ghost n: nat, ghost acts': seq<Log>)
      requires DistinctTargets(cfg) && i < |all| && At(all, i, cut, before, acts, queries, batch, embeds)
      modifies this
      ensures Ran(cfg, all, before, log, n, acts')
      ensures err.None? ==> At(all, i + 1, Queue(cfg.batchSize, cut, all[i]), before, acts', queries', batch', embeds')
      ensures old(calls) <= calls
      ensures err.None? ==> LastDone(cfg, old(calls), calls)
      ensures err.Some? && LastDone(cfg, old(calls), calls) ==> !Succeeds(cfg, all)
    {
      CutUnfolds(cfg.batchSize, all, i);
      DoneArePrefix(cfg.batchSize, all, i);
      DoneArePrefix(cfg.batchSize, all, i + 1);
      err, queries', batch', embeds' := QueueMessage(all, i, queries, batch, embeds, cut.open);
      if err.Some? {
        n, acts' := |cut.done|, acts;
        TracedRan(cfg, all, before, log, cut.done, acts);
        return;
      }
      AcceptedMore(cfg, all, i);
      ghost var done';
      ghost var made := calls;
      err, batch', embeds', done', acts' := FlushWhenFull(all, all[i], cut, batch', embeds', before, acts);
      MoreCalls(cfg, old(calls), made, calls);
      n := |done'|;
      TracedRan(cfg, all, before, log, done', acts');
      if err.Some? && LastDone(cfg, old(calls), calls) {
        ChunkNotComputed(cfg, all, i, cut);
      }
    }

    /** The last flush, of what is still queued. */
    method FinishBatch(ghost all: seq<Message>, batch: Log, embeds: map<string, EmbeddingBatch>,
                       ghost cut: Cut, ghost before: Log, ghost acts: seq<Log>)
      returns (err: Option<Failure>, ghost n: nat, ghost acts': seq<Log>)
      requires DistinctTargets(cfg) && cut == CutOf(cfg.batchSize, all) && AllAccepted(cfg, all)
      requires batch == ChunkStatements(cfg, all, cut.open) && embeds == ChunkEmbeds(cfg, cut.open)
      requires Progress(all, before, cut.done, acts)
      modifies this
      ensures Ran(cfg, all, before, log, n, acts')
      ensures err.None? ==>
                n == |FlushesOf(cfg.batchSize, all)| && TargetsWritten(cfg, before, log, FlushesOf(cfg.batchSize, all))
      ensures old(calls) <= calls && (err.None? <==> Succeeds(cfg, all) && LastDone(cfg, old(calls), calls))
    {
      ghost var done';
      err, done', acts' := FlushChunk(batch, embeds, all, before, cut.done, acts, cut.open);
      n := |done'|;
      TracedRan(cfg, all, before, log, done', acts');
      ComputedMore(cfg, cut.done, cut.open);
    }

    /**
     InsertBatch. Whatever its outcome, the first n flushes were executed in order, each in front of its own embeddings
     work, so the base tables hold the rows of the first messages. It returns nil only when all of them were flushed and
     embedded, and exactly when every message is accepted, every flush can be embedded and the last call was executed:
     with a model that works, when no flush holds messages for a configured table and not one row in them. A call that
     fails is therefore the last one, but for deadlocks that a flush tries again.
     */
    method InsertBatch(messages: seq<Message>) returns (err: Option<Failure>, ghost n: nat, ghost acts: seq<Log>)
      requires DistinctTargets(cfg)
      modifies this
      ensures Ran(cfg, messages, old(log), log, n, acts)
      ensures n <= |FlushesOf(cfg.batchSize, messages)|
      ensures BaseOf(log) ==
              BaseOf(old(log)) + ChunkStatements(cfg, messages, Flatten(FlushesOf(cfg.batchSize, messages)[..n]))
      ensures var flushes := FlushesOf(cfg.batchSize, messages);
        err.None? ==>
          && n == |flushes| && AllAccepted(cfg, messages) && ChunksComputed(cfg, flushes)
          && TargetsWritten(cfg, old(log), log, flushes)
          && BaseOf(log) == BaseOf(old(log)) + ChunkStatements(cfg, messages, messages)
      ensures BaseOf(old(log)) <= BaseOf(log)
      ensures var done := Flatten(FlushesOf(cfg.batchSize, messages)[..n]);
        done <= messages && AllWritten(cfg, messages, done, BaseOf(log)[|BaseOf(old(log))|..])
      ensures err.None? ==> AllWritten(cfg, messages, messages, BaseOf(log)[|BaseOf(old(log))|..])
      ensures old(calls) <= calls
      ensures err.None? <==> Succeeds(cfg, messages) && LastDone(cfg, old(calls), calls)
      ensures AllAccepted(cfg, messages) <==> forall m :: m in messages ==> Acceptable(cfg, m)
      ensures AllAccepted(cfg, messages) && Embeddable(cfg, messages) ==>
                (err.None? <==>
                 EveryTableHasRows(cfg, FlushesOf(cfg.batchSize, messages)) && LastDone(cfg, old(calls), calls))
    {
      EmbeddableSucceedsIff(cfg, messages);
      AllAcceptedIff(cfg, messages);
      var batch: Log := [];
      var embeds: map<string, EmbeddingBatch> := map[];
      var queries: map<string, Query> := map[];
      ghost var cut := Cut([], []);
      acts, n := [], 0;
      assert log + [] == log;
      for i := 0 to |messages|
        invariant At(messages, i, cut, old(log), acts, queries, batch, embeds)
        invariant old(calls) <= calls && LastDone(cfg, old(calls), calls)
      {
        ghost var made := calls;
        err, queries, batch, embeds, n, acts := InsertMessage(messages, i, queries, batch, embeds, cut, old(log), acts);
        MoreCalls(cfg, old(calls), made, calls);
        if err.Some? {
          RanBase(cfg, messages, old(log), log, n, acts);
          return;
        }
        cut := Queue(cfg.batchSize, cut, messages[i]);
      }
      assert messages[..|messages|] == messages;
      ghost var made := calls;
      err, n, acts := FinishBatch(messages, batch, embeds, cut, old(log), acts);
      MoreCalls(cfg, old(calls), made, calls);
      RanBase(cfg, messages, old(log), log, n, acts);
    }
  }
}
