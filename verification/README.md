# CloudQuery: sync protocol, SQL compilers and batchers

A Dafny model of the parts of CloudQuery that are algorithms or protocols rather than plumbing, and proofs of
what they promise. `dafny verify dfyconfig.toml` checks everything.

| file | what it models |
|---|---|
| `TransformerPipeline.dfy` | one destination's chain of transform clients, its goroutines as the steps of a state machine, and the object they run on |
| `SyncRun.dfy` | a whole v3 sync: source loop, one pipeline per destination, locked write streams, join, stale deletes |
| `RowStore.dfy` | what the write stream of a sync does to stored rows |
| `StaleTables.dfy` | which tables are skipped from stale deletion |
| `TableNames.dfy` | the table name changer, and the loop that sends stale deletes from one shared map |
| `RecordTransformer.dfy` | internal columns and constraints: schema and record transformation |
| `Images.dfy` | overlap sweep and right-to-left splicing of Markdown image tags |
| `WhereClause.dfy` | the generated WHERE clause, read back by a SQL parser with precedence and evaluated in three-valued logic; PostgreSQL and ClickHouse |
| `DeleteCte.dfy` | record deletion compiled to a PostgreSQL CTE chain, with a row-set semantics |
| `Firehose.dfy` | batching by count and bytes, retries of failed records |
| `DuckDbTypes.dfy` | type text written and parsed, normalisation, the type rows are written with |
| `DuckDbTexts.dfy` | which types the parser reads back from their text, by what its splitter cuts |
| `DuckDbNames.dfy` | which field names survive the type parser: a test on each name |
| `PgEmbeddings.dfy` | one embeddings request for many inputs, and the rows of an embeddings table |
| `PgInserts.dfy` | what InsertBatch is to execute: chunks, queries, embeddings work, and the rows a log of statements leaves |
| `PgClient.dfy` | InsertBatch as it runs: queueing, flushing, retrying, embeddings after each flush, every outcome |
| `SchemaMerge.dfy` | BigQuery schema merge and match |
| `Basics.dfy` | shared types and list lemmas |

Code that changes state is written as classes and methods with loops, each proved against a specification
function or a property; the properties of those functions are the lemmas. Concurrent code is a state machine whose
runs are all interleavings. Transform clients, record encoding, the text splitter and the embeddings endpoint are
arbitrary functions; servers answer each call by an arbitrary function of the call number.

## What the proofs found

- Nobody calls CloseSend on the first transform client, so its stage returns only through its one-second timer. If the
  timer fires while the client or the stage still holds a record, the record is lost: `LosingRun` gives such a run for
  every chain and record, with the record in the stage's hand, and `SyncCanLoseAnInsert` the run of a sync that comes
  through its join with the insert missing. `CompleteIffTimeoutDrained` is the exact condition.
- A DeleteRecord can overtake an insert read before it, since only inserts go through the pipeline: `DeleteCanOvertake`
  gives a run for every chain. `DeleteFollowsAllIff` is the exact condition: the delete stands behind all inserts sent
  before it if and only if, when it is written, every stage has passed on all it was given.
- `UpdateTableNames` deletes the names it renames from the caller's map, and the stale-delete loop passes the same
  map for every destination. Names kept by the transformers are learned too, so the second
  overwrite-delete-stale destination is told to clean nothing (`LaterGetNothing`, `SecondDestinationIsSkipped`).
  `GetsAllIff` is the exact condition per destination and `AllGetAllIff` for all.
- A child announced before its incremental parent is cleaned as stale (`ChildBeforeParent`). Tracking is exact if and only
  if every parent under an incremental table comes before its children (`TrackingIsExactIff`).
- A relation listed before its parent makes a record delete fail (`ChildBeforeParentFails`). The statement runs if and
  only if its tables are distinct and exist, the WHERE clause is SQL, and every parent is the root, a relation before it,
  or has a table named like its CTE (`StatementRunsIff`).
- A trailing empty predicate group leaves a dangling AND: the statement is not SQL. `GeneratedParses` is the exact condition.
- Firehose `sendBatch` reports an error when the last record is acknowledged on call number MaxRetries; with MaxRetries 1
  it never succeeds on a non-empty batch (`SendSucceedsIff`, `OneRetryNeverSucceeds`).
- `splitParams` never returns an empty list, so the "unsupported struct spec" panic cannot happen; `struct()` panics on
  its field instead. It knows no quotes, so a DuckDB struct is misread unless no field name, in quotes or not, holds a
  space or a quote, its brackets are balanced (the last name may leave some open) and every comma is inside brackets:
  `NamesAreReadIff`, and for nested types `TypeIsReadIff`. A struct of the columns `id` and `a,b` makes the parser panic
  (`CommaIsMisread`), as does every first name with such a comma (`CommaInNamePanics`). When a field's type is itself
  spelled with a comma, as `decimal(18,3)` is, an open bracket in a name may hide a cut and the test is only sufficient
  (`SpelledCommaHidesACut`), but for names without brackets it is exact all the same (`BracketFreeNamesAreReadIff`).
- Deleting embeddings by an empty list of ids is no SQL (`InListParsesIff`), so an insert of zero rows into a table with
  embeddings makes InsertBatch fail (`EmptyInsertFails`). With accepted messages and a working model InsertBatch returns
  nil if and only if no flush holds messages for a configured table and not one row in them, and the last call it made
  to the server, if any, was executed (`InsertSucceedsIff`, and the contract of `PgClient.Client.InsertBatch`).
- A table whose wanted schema names a column twice with different types merges and then never matches (`MergedMatchesIff`).

Where a comment and the code disagree the code is modelled: the comment on parents being migrated before children is a
hypothesis of `TrackingIsExact`, and `ChildBeforeParent` shows what happens without it.

## Model

| member | source | states |
|---|---|---|
| TransformerPipeline.RunInv | cli/internal/transformerpipeline/pipeline.go:35-171 | the invariant of stages, queues, flags and output holds in every state of every interleaving of sends, receives, forwards, failures, timeouts and Close |
| TransformerPipeline.DeliveredIsPrefix | cli/internal/transformerpipeline/pipeline.go:41-58 | in every reachable state the delivered records are a prefix of the sent ones mapped through all transformers in order |
| TransformerPipeline.EmptyChainIsIdentity | cli/internal/transformerpipeline/identity.go:11-40 | without transformers the one identity stage changes nothing |
| TransformerPipeline.WiredIsTheClients | cli/internal/transformerpipeline/pipeline.go:35-63 | New wires exactly the given clients, first to last, so every record goes through them in this order; without clients one stage that changes nothing |
| TransformerPipeline.ThroughAt | cli/internal/transformerpipeline/pipeline.go:143-163 | the chain treats every record on its own, by position |
| TransformerPipeline.CloseSendIsLast | cli/internal/transformerpipeline/pipeline.go:52-58 | CloseSend reaches a client at most once and no Send follows it; the first client is never closed; only stage 0 leaves by timeout |
| TransformerPipeline.ClosedAfterAllForwarded | cli/internal/transformerpipeline/pipeline.go:154-170 | beyond stage 0 a client is closed only after the stage before forwarded everything its own client produced |
| TransformerPipeline.CompleteIffDrained | cli/internal/transformerpipeline/pipeline.go:154-170 | when all stages returned nil, all sent records were delivered if and only if stage 0's client was drained |
| TransformerPipeline.Stage0TimedOut | cli/internal/transformerpipeline/pipeline.go:156-159 | stage 0 can have returned nil only through its timeout |
| TransformerPipeline.CompleteIffTimeoutDrained | cli/internal/transformerpipeline/pipeline.go:156-159 | over whole runs: delivery is complete exactly when stage 0 was drained at its timeout and no send was accepted after it |
| TransformerPipeline.AllOutIffPassedOn | cli/internal/transformerpipeline/pipeline.go:143-170 | in every reachable state: all that a stage was given is in the output if and only if this stage and all after it have passed on everything they were given |
| TransformerPipeline.ClosedCanMove | cli/internal/transformerpipeline/pipeline.go:154-170 | a closed pipeline is never stuck: until every stage has returned, or one has failed, some stage can go on |
| TransformerPipeline.LosingRun | cli/internal/transformerpipeline/pipeline.go:156-159 | for every chain and record, a run in which the record is received at once, every stage returns nil and the record, in the first stage's hand, is never delivered |
| TransformerPipeline.StepFrame | cli/internal/transformerpipeline/pipeline.go:65-123 | what any one step leaves alone: output only grows, stopped stages stay stopped, and stage 0's flag is raised only by Close or a failing output |
| TransformerPipeline.Pipeline.constructor | cli/internal/transformerpipeline/pipeline.go:35-63 | stage i runs client i, or the one stage the identity when there are no clients; all stages are open, running and empty, nothing is pending and no output registered |
| TransformerPipeline.Pipeline.OnOutput | cli/internal/transformerpipeline/pipeline.go:103-117 | refuses a nil callback, and otherwise registers the output, without touching the queues |
| TransformerPipeline.Pipeline.Send | cli/internal/transformerpipeline/pipeline.go:72-101 | refuses without an output or after Close, and otherwise takes exactly the machine's send-check step |
| TransformerPipeline.Pipeline.CommitSend | cli/internal/transformerpipeline/pipeline.go:86-89 | the asynchronous client send is exactly the machine's send-commit step |
| TransformerPipeline.Pipeline.Close | cli/internal/transformerpipeline/pipeline.go:119-123 | sets stage 0's flag and nothing else |
| TransformerPipeline.Pipeline.Receive | cli/internal/transformerpipeline/pipeline.go:143-152 | the receive goroutine takes exactly the machine's receive step |
| TransformerPipeline.Pipeline.Select | cli/internal/transformerpipeline/pipeline.go:137-171 | one pass of the select loop: at EOF, or at the timer once closed, the stage returns nil or the error of closing the next client, which it closes; a held record goes to the next client or the output, whose failure closes the pipeline; another receive error or a missing output is the stage's error; otherwise nothing changes |
| TransformerPipeline.Pipeline.Pass | cli/internal/transformerpipeline/pipeline.go:107-115 | handing a record on is the forward step; a failing output also closes the pipeline |
| TransformerPipeline.Pipeline.Leave | cli/internal/transformerpipeline/pipeline.go:158-166 | returning closes the next client, and the last stage has nothing to close |
| SyncRun.RunInv | cli/cmd/sync_v3.go:396-652 | the invariant of all destinations' pipelines and write streams holds in every state of every run |
| SyncRun.InsertAfterItsMigrations | cli/cmd/sync_v3.go:408-497 | every insert in a write stream is one source insert, encoded and passed through the destination's transformers first to last; for every migration (unless switched off) and record delete before it in the source, the transformed message stands before it in the stream |
| SyncRun.DirectAreTheSources | cli/cmd/sync_v3.go:497-589 | in every state of every run the migrations and record deletes in a stream are those of the source messages dealt with so far, transformed for this destination, one each and in order; with no-migrate there are no migrations |
| SyncRun.StaleDeletesComeLast | cli/cmd/sync_v3.go:601-652 | a stale delete is in the stream only after source and all stages have joined, and only stale deletes follow it |
| SyncRun.StaleDeletesGoOn | cli/cmd/sync_v3.go:644-652 | after the join every destination can be told to clean any table, and is told so behind all that it was sent |
| SyncRun.NeverStuck | cli/cmd/sync_v3.go:396-603 | in every state of every run in which nothing has failed, some step takes the sync on towards its join, so no send waits for ever and every chain can shut down |
| SyncRun.DispatchMeans | cli/cmd/sync_v3.go:465-589 | one message for one destination: an insert waits in the pipeline, unless that is closed, which ends the loop with nil; the other messages pass it by |
| SyncRun.InsertsAreTheSources | cli/cmd/sync_v3.go:408-497 | in every state of every run the inserts in a stream are the first inserts of the source, one each and in order, encoded and passed through the transformers |
| SyncRun.JoinedSync | cli/cmd/sync_v3.go:601-603 | after the join every source message has been dealt with for every destination, and the inserts in the stream are all of the source's if and only if the pipeline was drained |
| SyncRun.JoinedInserts | cli/cmd/sync_v3.go:601-603 | the same said of the messages: every insert of the source stands in the stream, encoded and transformed, if and only if stage 0 was drained |
| SyncRun.SyncCanLoseAnInsert | cli/cmd/sync_v3.go:601-652 | for every chain, a run of the sync that passes its join with the only insert missing from the stream |
| SyncRun.DeleteFollowsAllIff | cli/cmd/sync_v3.go:482-538 | when a record delete is written, the stream in front of it holds all inserts sent before it if and only if every stage of that pipeline has passed on all it was given |
| SyncRun.DeleteCanOvertake | cli/cmd/sync_v3.go:482-538 | for every chain, a run in which a record delete overtakes the insert that the source sent before it |
| RowStore.StaleDeletesAreExact | plugins/destination/postgresql/client/delete.go:14-32 | stale deletes at the end of a stream remove exactly the listed tables' rows of this source that are older than the run |
| RowStore.LastUpsertWins | plugins/destination/postgresql/client/insert.go:174-200 | after upserts a row is stored exactly when it was upserted, or stored before, and no later one has its key |
| RowStore.StreamEffects | plugins/destination/postgresql/client/delete.go:14-46 | message by message: an insert upserts its rows, a migration keeps them, a delete takes what it dooms, a stale delete the older rows of this source in its table; keys stay unique |
| RowStore.OwnRowsAreStamped | cli/cmd/sync_v3.go:207-211 | when the run's inserts carry its source name and sync time, every row after a stream that was not there before does, although a record delete may depend on all rows stored |
| RowStore.SyncKeepsItsRows | cli/cmd/sync_v3.go:644-652 | in every run and for every earlier content: the stale deletes keep each row with the run's stamps and each row the run brought in, remove only older rows of this source, and leave exactly the rows no stale delete names |
| RowStore.TransformedIsStampedIff | cli/internal/transformer/transformer.go:135-191 | the record transformer's output is read back as rows with the run's source name and sync time if and only if, for each of the two columns, the record did not have it, or it is overwritten in the cloud with a value that can be read in its unit, or it already held the run's value in every row |
| RowStore.StreamIsStamped | cli/cmd/sync_v3.go:408-497 | in every run all inserts of a stream are stamped, when the records put into the pipeline are and the transformers keep stamps |
| StaleTables.TrackTables | cli/cmd/sync_v3.go:549-555 | the loop computes the specified pair of sets |
| StaleTables.TrackingIsExact | cli/cmd/sync_v3.go:549-555 | with a backend and parents first, after every prefix the skipped tables are exactly the seen ones that are incremental or have an incremental ancestor, the others are to be cleaned, and the sets are disjoint |
| StaleTables.TrackingIsExactIff | cli/cmd/sync_v3.go:549-555 | with a backend, tracking is exact after every prefix if and only if the parents of tables under an incremental one come before them |
| StaleTables.UnderIncrementalUnfolds | cli/cmd/sync_v3.go:550-551 | having an incremental ancestor, defined by paths, agrees with the one-level test of the code |
| StaleTables.NothingSkippedWithoutBackend | cli/cmd/sync_v3.go:551-555 | without a state backend nothing is skipped |
| StaleTables.ChildBeforeParent | cli/cmd/sync_v3.go:550 | a child announced before its incremental parent is cleaned: the order in the comment matters |
| TableNames.TableNameChanger.constructor | cli/internal/tablenamechanger/table_name_changer.go:15-23 | every destination starts with no learned name |
| TableNames.TableNameChanger.UpdateTableName | cli/internal/tablenamechanger/table_name_changer.go:46-51 | the learned name, or the old one |
| TableNames.TableNameChanger.UpdateTableNamesSlice | cli/internal/tablenamechanger/table_name_changer.go:38-44 | renames position by position as UpdateTableName does |
| TableNames.TableNameChanger.UpdateTableNames | cli/internal/tablenamechanger/table_name_changer.go:25-36 | returns the image of the caller's set and removes exactly the learned names from that set |
| TableNames.TableNameChanger.LearnTableNameChange | cli/internal/tablenamechanger/table_name_changer.go:53-70 | learns the first non-empty name for this destination and table and changes nothing else; fails exactly on bad bytes for a table without one |
| TableNames.FirstNamePersists | cli/internal/tablenamechanger/table_name_changer.go:54-58 | no later message changes a learned non-empty name |
| TableNames.FirstNameIsLearned | cli/internal/tablenamechanger/table_name_changer.go:53-70 | over any messages the name of a table is that of the first one that gives it one, and without such a message there is none |
| TableNames.LearnedIsUsed | cli/internal/tablenamechanger/table_name_changer.go:46-68 | a learned name is the one used from then on |
| TableNames.DeleteStale | cli/cmd/sync_v3.go:821-837 | sends one message per table of the set, in some order |
| TableNames.SendStaleDeletes | cli/cmd/sync_v3.go:644-652 | an overwrite-delete-stale destination is told, once each, its names for the tables that no such destination before it has learned, and no others; another destination is told nothing; and what is left of the shared map |
| TableNames.FirstGetsAll | cli/cmd/sync_v3.go:644-652 | the first overwrite-delete-stale destination gets the full renamed set |
| TableNames.GetsAllIff | cli/cmd/sync_v3.go:644-652 | for all renames: a destination gets the full renamed set exactly when every table has one with the same new name that no earlier such destination had learned |
| TableNames.LaterGetNothing | cli/cmd/sync_v3.go:644-652 | after a destination that learned every table, the later ones get no stale delete at all |
| TableNames.AllGetAllIff | cli/cmd/sync_v3.go:644-652 | with all names learned, all destinations get the full set exactly when there is nothing to clean or at most one of them deletes stale rows |
| TableNames.SecondDestinationIsSkipped | cli/cmd/sync_v3.go:647 | two destinations that keep the name users: the second is told to clean nothing |
| RecordTransformer.Transformer.constructor | cli/internal/transformer/transformer.go:83-89 | applying the options one by one gives the settings they come to |
| RecordTransformer.Transformer.TransformSchema | cli/internal/transformer/transformer.go:91-133 | computes the specified schema |
| RecordTransformer.Transformer.Transform | cli/internal/transformer/transformer.go:148-194 | computes the specified record |
| RecordTransformer.ConfiguredFor | cli/cmd/sync_v3.go:250-268 | what the CLI's options come to for every write mode and key mode |
| RecordTransformer.FlagsAre | cli/internal/transformer/transformer.go:18-89 | for all option lists: a flag is set exactly when its option is among them |
| RecordTransformer.ValuesAreLast | cli/internal/transformer/transformer.go:18-89 | and a value is that of its last option |
| RecordTransformer.NoValueWithoutOption | cli/internal/transformer/transformer.go:18-89 | and there is none without an option |
| RecordTransformer.SourceFieldsStay | cli/internal/transformer/transformer.go:107-133 | the schema's metadata and the source's fields stay in order, name, type, nullability and metadata, but for the key and unique marks, which are there exactly as the settings say |
| RecordTransformer.AddedFieldsAre | cli/internal/transformer/transformer.go:91-107 | the fields in front are the internal columns asked for and missing: sync time, source name, sync group, in this order, with their types, nullability and keys |
| RecordTransformer.TransformedIsStable | cli/internal/transformer/transformer.go:91-133 | TransformSchema is idempotent for all settings and schemas |
| RecordTransformer.InternalColumnsPresent | cli/internal/transformer/transformer.go:93-107 | every configured internal column is in the result |
| RecordTransformer.AppendHasNoKeys | cli/cmd/sync_v3.go:261-263 | an append destination gets no primary or unique key, whatever the other options |
| RecordTransformer.CqIdIsTheOnlyKey | cli/cmd/sync_v3.go:264-267 | with _cq_id keys a field is a key if and only if it is _cq_id |
| RecordTransformer.DefaultKeepsFields | cli/internal/transformer/transformer.go:111-130 | otherwise the source's fields and keys are unchanged, and of the added ones only the sync group is a key |
| RecordTransformer.TransformIsAligned | cli/internal/transformer/transformer.go:148-194 | for all settings and records, in the cloud or not, columns and fields agree one by one in number, type and length |
| RecordTransformer.AddedColumnsAreOwn | cli/internal/transformer/transformer.go:153-191 | an added column holds in every row this run's value, for the sync time the stamp of the run's own time, and outside the cloud the record's own columns follow unchanged |
| RecordTransformer.CloudOverwritesInternal | cli/internal/transformer/transformer.go:135-189 | in the cloud an internal column already there gets this run's value in its own unit and zone, if its type allows it, and no other column changes |
| RecordTransformer.TransformIsStable | cli/internal/transformer/transformer.go:148-194 | outside the cloud, transforming a transformed record changes nothing |
| Images.Collect | cli/internal/publish/images/images.go:162-178 | keeps the references with a known range, and fails exactly at the first known range that is empty |
| Images.KeptAt | cli/internal/publish/images/images.go:162-169 | the kept references are those with an endPos other than 0, one each and in order |
| Images.KeptCount | cli/internal/publish/images/images.go:162-169 | each as often as it was given |
| Images.Sweep | cli/internal/publish/images/images.go:187-202 | the loop reports an overlap exactly when two ranges are ever open at once |
| Images.SweepIsExact | cli/internal/publish/images/images.go:180-202 | two ranges share a byte if and only if the sweep over the sorted positions ever has two open |
| Images.ConvertReferences | cli/internal/publish/images/images.go:157-205 | each result and each error if and only if: kept references, empty range, overlap |
| Images.SpliceStep | cli/internal/publish/images/images.go:219-223 | one splice further left is in bounds, still reads original bytes and changes only them |
| Images.Splice | cli/internal/publish/images/images.go:218-225 | the in-place loop computes the specified text with every index in bounds |
| Images.SplicedIsSimultaneous | cli/internal/publish/images/images.go:213-223 | splicing from right to left equals replacing all ranges at once |
| Images.ReplaceImages | cli/internal/publish/images/images.go:207-226 | succeeds exactly when no known range is empty and no two known ranges share a byte, and then gives the simultaneous substitution of all known references: gaps kept byte for byte, every range replaced by its tag |
| Images.TagIs | cli/internal/publish/images/images.go:219-222 | the tag is the range with the first mention of the reference swapped for its url, and the range itself when there is none |
| WhereClause.GenerateGroup | plugins/destination/postgresql/client/delete.go:59-68 | the inner loop writes one bracketed group, numbered on from the counter |
| WhereClause.GenerateGroups | plugins/destination/postgresql/client/delete.go:54-72 | the outer loop writes the clause, skipping empty groups |
| WhereClause.ExtractValues | plugins/destination/postgresql/client/delete.go:124-140 | fills the result slice with the values in placeholder order |
| WhereClause.GeneratedParses | plugins/destination/postgresql/client/delete.go:52-73 | the clause is SQL exactly when the last group is not empty and the connectives are AND or OR, and then it parses to the conjunction of the groups |
| WhereClause.GeneratedWhereIsExact | plugins/destination/postgresql/client/delete.go:48-77 | the parsed clause is true of a row exactly when every non-empty group holds, placeholder k bound to the k-th extracted value, with NULLs |
| WhereClause.TrailingEmptyGroupBreaksTheClause | plugins/destination/postgresql/client/delete.go:69-71 | a trailing empty group leaves a dangling AND and no SQL |
| WhereClause.GenerateClickHouseWhere | plugins/destination/clickhouse/client/delete.go:97-131 | the tokens written select, with the extracted values, exactly the rows of which all groups hold, every row without groups, and are no SQL for unspellable groups |
| WhereClause.ClickHouseWhereIsExact | plugins/destination/clickhouse/client/delete.go:66-131 | the ClickHouse condition selects exactly the rows of which all groups hold, every row without groups, and is no SQL otherwise |
| DeleteCte.GenerateInitialDelete | plugins/destination/postgresql/client/delete.go:48-77 | the root statement: no WHERE without groups |
| DeleteCte.GenerateDeleteCTE | plugins/destination/postgresql/client/delete.go:79-122 | the CTE list in relation order, and the counts selected at the end |
| DeleteCte.CompiledDeleteIsExact | plugins/destination/postgresql/client/delete.go:79-122 | for parents-first relations with distinct tables the statement runs and deletes exactly the matching root rows and all their descendants through listed relations, from a single snapshot (section 7.8.4 of the PostgreSQL manual) |
| DeleteCte.StatementRunsIff | plugins/destination/postgresql/client/delete.go:79-122 | the statement runs if and only if the tables are distinct and exist, the WHERE clause is SQL and every relation's parent is the root, a relation before it, or has a table named like its CTE |
| DeleteCte.NoOrphans | plugins/destination/postgresql/client/delete.go:79-91 | no surviving row of a listed table points at a deleted row of its parent |
| DeleteCte.ChildBeforeParentFails | plugins/destination/postgresql/client/delete.go:103-112 | a relation listed before its parent makes the statement fail |
| Firehose.SetDefaults | plugins/destination/firehose/client/spec/spec.go:17-45 | all limits are at least 1 afterwards, and each limit that was is kept |
| Firehose.Client.GetFailedRecords | plugins/destination/firehose/client/write.go:125-135 | the loop computes the specified list |
| Firehose.FailingAt | plugins/destination/firehose/client/write.go:125-135 | it is the records at the positions without an id, one each and in order |
| Firehose.Client.SendBatch | plugins/destination/firehose/client/write.go:108-123 | appends exactly the specified calls to the log and returns their outcome |
| Firehose.SendIsBounded | plugins/destination/firehose/client/write.go:108-123 | at most MaxRetries calls, numbered by attempt |
| Firehose.CallsAreAChain | plugins/destination/firehose/client/write.go:108-123 | the first call sends the batch, each later one what the one before left without an id; the calls end when one fails as a whole, nothing is left or MaxRetries is reached, and nil means the second before the third |
| Firehose.SendConserves | plugins/destination/firehose/client/write.go:108-135 | no record is acknowledged more often than it was sent, and on success each is acknowledged exactly once |
| Firehose.SendSucceedsIff | plugins/destination/firehose/client/write.go:108-123 | nil exactly when no call fails as a whole and nothing is failing after fewer than MaxRetries calls |
| Firehose.OneRetryNeverSucceeds | plugins/destination/firehose/client/write.go:109-111 | with MaxRetries 1 a non-empty batch is always reported as failed |
| Firehose.RetriesAreWithinBounds | plugins/destination/firehose/client/write.go:121-135 | every retry carries between 1 and MaxBatchRecords records within the byte limits |
| Firehose.CallsAreBounded | plugins/destination/firehose/client/write.go:76-84 | with MaxRecordSizeBytes at most MaxBatchSizeBytes no call carries more than MaxBatchSizeBytes |
| Firehose.KeptCount | plugins/destination/firehose/client/write.go:54-74 | when all messages are handled, a record within MaxRecordSizeBytes is kept as often as it stands in the messages and a larger one never |
| Firehose.KeptSnoc | plugins/destination/firehose/client/write.go:54-74 | in the order of the messages |
| Firehose.RowsKeptSnoc | plugins/destination/firehose/client/write.go:54-74 | and of their rows, up to the first that cannot be marshalled |
| Firehose.AckedCounts | plugins/destination/firehose/client/write.go:108-135 | a log acknowledges a record as often as there are places in its calls at which the record got an id |
| Firehose.BatchesAreGreedy | plugins/destination/firehose/client/write.go:71-101 | the batches are the kept records cut in order, each within bounds, each closed only when full or when the next record does not fit |
| Firehose.Client.WriteRecord | plugins/destination/firehose/client/write.go:76-101 | one record: flush first if it does not fit, flush after if the batch is full, batchSize stays the byte sum |
| Firehose.Client.WriteRow | plugins/destination/firehose/client/write.go:54-101 | a row over MaxRecordSizeBytes is skipped, an unmarshallable one is an error, and any other goes into the batches |
| Firehose.Client.Write | plugins/destination/firehose/client/write.go:19-106 | nil if and only if every message is handled and every greedy batch is delivered; then every row within MaxRecordSizeBytes got an id exactly as often as it stands in the messages, and no larger one did. Error: the first of these batches were sent, and no row got more ids than that |
| Firehose.DeliveredSnoc | plugins/destination/firehose/client/write.go:76-105 | every batch delivered means that sendBatch returns nil for each, one after the other from where the calls stand |
| DuckDbTypes.SplitParamsLoop | plugins/destination/duckdb/client/types.go:166-191 | the bracket-counting loop computes the specified split |
| DuckDbTypes.SpacesAre | plugins/destination/duckdb/client/types.go:166-191 | the characters trimmed are those of unicode.IsSpace |
| DuckDbTypes.TrimLeftIs | plugins/destination/duckdb/client/types.go:166-191 | trimming takes away the longest stretch of such characters in front |
| DuckDbTypes.TrimRightIs | plugins/destination/duckdb/client/types.go:166-191 | and behind |
| DuckDbTypes.CutsAre | plugins/destination/duckdb/client/types.go:125-129 | a prefix or suffix is cut off when it is there, and otherwise nothing is |
| DuckDbTypes.DuckDbToArrow | plugins/destination/duckdb/client/types.go:79-123 | the parser computes the specified type or panic and terminates on the text's length |
| DuckDbTypes.ListText | plugins/destination/duckdb/client/types.go:79-82 | a text followed by two square brackets is read as a list of what the text is read as |
| DuckDbTypes.NamesOfLeaves | plugins/destination/duckdb/client/types.go:89-123 | which names are read as which plain type; anything else is a string |
| DuckDbTypes.PrimIsNamed | plugins/destination/duckdb/client/types.go:79-123 | a text read as a plain type is read by its name |
| DuckDbTypes.DuckDbStructToArrow | plugins/destination/duckdb/client/types.go:125-150 | struct text, field by field, and its panics |
| DuckDbTypes.FieldsAreRead | plugins/destination/duckdb/client/types.go:125-150 | when a struct is read, every field is: the name up to the first space without its quotes, the rest as a type |
| DuckDbTypes.FirstPanic | plugins/destination/duckdb/client/types.go:137-143 | otherwise the panic is that of the first field that cannot be read |
| DuckDbTypes.DuckDbMapToArrow | plugins/destination/duckdb/client/types.go:152-164 | map text: exactly two parts |
| DuckDbTypes.SplitOfJoin | plugins/destination/duckdb/client/types.go:166-191 | splitting undoes joining, whatever is nested inside brackets in the parts |
| DuckDbNames.TextRoundTrip | plugins/destination/duckdb/client/types.go:79-191 | parsing the text of any nesting of lists, structs and maps gives the type back, for every spelling of the leaves and every quoting policy, over plain names and quoted names with balanced brackets and no bare comma |
| DuckDbTexts.TypeIsReadIff | plugins/destination/duckdb/client/types.go:79-191 | for any nesting, names in quotes or not, leaves spelled without commas: the type is read back if and only if at every struct and map the splitter cuts the text at its own parts and no name holds a space or a quote |
| DuckDbTexts.SplitIsRead | plugins/destination/duckdb/client/types.go:79-191 | the if-half of it for leaves spelled in any way |
| DuckDbNames.NamesAreReadIff | plugins/destination/duckdb/client/types.go:125-191 | a struct whose names are plain or in quotes, over types that are read back, is read back if and only if no name has a space or a quote and the splitter meets no bare comma and only balanced brackets in it, the last name being free to leave brackets open |
| DuckDbNames.BracketFreeNamesAreReadIff | plugins/destination/duckdb/client/types.go:125-191 | for types spelled in any way and names without brackets: read back if and only if no name has a space, a quote or a comma |
| DuckDbNames.SpelledCommaHidesACut | plugins/destination/duckdb/client/types.go:166-191 | with a type spelled with a comma inside brackets, a name that fails the test can be read back: an open bracket in it is closed by the spelling |
| DuckDbNames.CommaInNamePanics | plugins/destination/duckdb/client/types.go:137-143 | when any name without a space is cut by the splitter, behind names that are not cut and leave no bracket open, the parser panics |
| DuckDbNames.CommaIsMisread | plugins/destination/duckdb/client/types.go:137-143 | for every readable type and every quoting of `id`, the struct of `id` and `a,b` panics |
| DuckDbNames.BracketIsMisread | plugins/destination/duckdb/client/types.go:166-191 | an open bracket in a name hides the fields after it, and is harmless in the last name |
| DuckDbTypes.ReadBackIsNormal | plugins/destination/duckdb/client/types.go:36-123 | writing any type and reading it back never panics and normalises it at every list depth, timestamps of every unit and zone to microseconds UTC |
| DuckDbTypes.SqlTypesAre | plugins/destination/duckdb/client/types.go:36-77 | which plain types share one SQL type |
| DuckDbTypes.ReadBackIsStable | plugins/destination/duckdb/client/types.go:36-123 | duckDBToArrow after arrowToDuckDB is idempotent |
| DuckDbTypes.NormalIsStable | plugins/destination/duckdb/client/migrate.go:43-44 | a normalised type has the same SQL type and is normal |
| DuckDbTypes.WritingIsStringifiedNormal | plugins/destination/duckdb/client/types.go:23-34 | rows are written with the normalised column type in which UUID and JSON are strings |
| DuckDbTypes.WritingIsStable | plugins/destination/duckdb/client/types.go:23-34 | the type for writing is its own type for writing |
| DuckDbTypes.TransformFieldsForWriting | plugins/destination/duckdb/client/types.go:16-21 | overwrites every field's type in place and keeps the names |
| DuckDbTypes.NormalizeColumns | plugins/destination/duckdb/client/migrate.go:31-51 | every column gets its normal type, and a primary key is NOT NULL |
| DuckDbTypes.GetTableInfo | plugins/destination/duckdb/client/migrate.go:240-293 | the columns read, no table when none is reported, and the parser's panic |
| DuckDbTypes.ColumnsAreRead | plugins/destination/duckdb/client/migrate.go:240-293 | every reported column is read with its own name, marks and type, in order |
| DuckDbTypes.FirstUnreadable | plugins/destination/duckdb/client/migrate.go:240-293 | and the panic is that of the first type that cannot be read |
| DuckDbTypes.TableReadsBack | plugins/destination/duckdb/client/migrate.go:188-288 | a table reads back as its normalised columns |
| DuckDbTypes.NormalTableReadsBack | plugins/destination/duckdb/client/migrate.go:31-51 | a table made from normalised columns reads back unchanged, so no change is detected |
| PgEmbeddings.CreateEmbeddings | plugins/destination/postgresql/client/embeddings_requester.go:96-135 | computes the specified result: split error, request error, count mismatch, or the regrouped answer |
| PgEmbeddings.RegroupedIsPartition | plugins/destination/postgresql/client/embeddings_requester.go:106-134 | the recorded boundaries partition the flat list |
| PgEmbeddings.BatchIsSeparate | plugins/destination/postgresql/client/embeddings_requester.go:106-134 | for any splitter and any position-wise endpoint, every input gets the embeddings it gets by itself, and the call fails exactly when an input cannot be split |
| PgEmbeddings.CreatedIsPartition | plugins/destination/postgresql/client/embeddings_requester.go:119-134 | whatever the endpoint answers, the results end to end are its answer, cut by the chunk counts |
| PgEmbeddings.ChunksAreTheInputs | plugins/destination/postgresql/client/embeddings_requester.go:106-134 | whatever the endpoint answers, each input gets back exactly the chunks it was split into, in order |
| PgEmbeddings.ColumnIndexes | plugins/destination/postgresql/client/insert_embeddings.go:172-186 | the last column of each name, or an error exactly when a name is missing |
| PgEmbeddings.BuildInputs | plugins/destination/postgresql/client/insert_embeddings.go:236-250 | per row the non-null embed cells joined by newlines |
| PgEmbeddings.PartsAt | plugins/destination/postgresql/client/insert_embeddings.go:236-250 | the lines of an input are the embed cells that are there and not null, one each and in order |
| PgEmbeddings.OneMoreLine | plugins/destination/postgresql/client/insert_embeddings.go:236-250 | joined by one newline between two lines |
| PgEmbeddings.BuildRowValues | plugins/destination/postgresql/client/insert_embeddings.go:205-234 | per embedding the metadata cells, the chunk and the vector; a missing name takes the first cell |
| PgEmbeddings.RowValuesAre | plugins/destination/postgresql/client/insert_embeddings.go:205-234 | one row per embedding; its cell j is the base row's cell under the last column with metadata name j, or under the first column for a name that is none, null when the row is too short; chunk and vector come last |
| PgEmbeddings.AllValuesAre | plugins/destination/postgresql/client/insert_embeddings.go:205-234 | the rows of all base rows stand one stretch after the other |
| PgEmbeddings.ReplacedExactly | plugins/destination/postgresql/client/insert_embeddings.go:114-136 | after a batch, the target rows of each of its ids are exactly this batch's chunks in order, and the rows of other ids are untouched |
| PgClient.Client.FlushBatch | plugins/destination/postgresql/client/insert.go:110-145 | all statements run or none: all of them if and only if one of the first RetryOnDeadlock + 1 answers is a success after nothing but deadlocks, and then it was the last call made |
| PgInserts.RetriedIff | plugins/destination/postgresql/client/insert.go:118-145 | a batch succeeds exactly when the first of its calls that is no deadlock is a success |
| PgClient.Client.InsertBatch | plugins/destination/postgresql/client/insert.go:39-108 | every outcome, for every server: the first n flushes were executed in order, each in front of embeddings work of its own. The base statements added are the rows of the first messages, each once and in order: to the table that the first message with this name normalises to, an upsert if and only if that table has a key. Nil only after all of them, with every target as the flushes leave it. Nil if and only if all messages are accepted, all flushes can be embedded, and the last call made, if any, was executed |
| PgClient.Client.QueueMessage | plugins/destination/postgresql/client/insert.go:54-89 | one message: exactly which refusal, otherwise nil or a failed call; the rows queued behind the others, by an upsert if and only if the table is keyed, and the embeddings work |
| PgClient.Client.AddEmbeddingRows | plugins/destination/postgresql/client/insert_embeddings.go:46-73 | accumulates rows and ids, skips a message whose ids cannot be read, refuses exactly missing columns |
| PgClient.Client.InsertEmbeddingsBatch | plugins/destination/postgresql/client/insert_embeddings.go:76-139 | every outcome, for every server: only statements of the accumulated tables were executed. Nil: every configured table's target is replaced for its batch, in whatever order the tables come. Nil if and only if every table can be embedded and the last call made, if any, was executed |
| PgInserts.FlushesAreAll | plugins/destination/postgresql/client/insert.go:54-107 | every message is in exactly one flush, in order |
| PgInserts.FlushesAreBounded | plugins/destination/postgresql/client/insert.go:90-101 | every flush but the last is complete at batchSize rows and not before, so a flush is smaller than batchSize plus its last message |
| PgInserts.ConsistentQueries | plugins/destination/postgresql/client/insert.go:66-76 | with agreeing definitions every message is written to its own normalised table, by an upsert if and only if that table is keyed |
| PgInserts.ChunkIsWritten | plugins/destination/postgresql/client/insert.go:66-89 | in general the table is that of the first message with the name, and row j of message i is written behind all rows before it |
| PgInserts.AllAcceptedIff | plugins/destination/postgresql/client/insert.go:54-82 | accepted means: a table name, known to the server, and every column its embeddings configuration names |
| PgInserts.EmbedsAreTheChunks | plugins/destination/postgresql/client/insert_embeddings.go:56-71 | a table's accumulated batch holds exactly the rows and ids of the flush's messages for it |
| PgInserts.EmbedsArePicked | plugins/destination/postgresql/client/insert_embeddings.go:56-71 | that is of the messages that name the table and whose ids can be read, in order, under the columns of the first |
| PgClient.EmbeddedAfterBase | plugins/destination/postgresql/client/insert.go:90-107 | for every outcome: a row in an embeddings table is made from a row of a message for the table configured with that target, its metadata cells found under the columns of a message for that same table and its chunk one that the row's own text was split into, and stands in the log behind the statement that wrote this row to its base table |
| PgInserts.LastChunkWins | plugins/destination/postgresql/client/insert_embeddings.go:114-136 | over any chunks, the target rows of an id are those of the last chunk that holds it |
| PgInserts.OthersKeepTheirs | plugins/destination/postgresql/client/insert_embeddings.go:114-136 | an id that no chunk holds keeps its rows |
| PgInserts.InsertedLastWins | plugins/destination/postgresql/client/insert.go:90-107 | so after a successful InsertBatch the target rows of an id are those of the last flush that holds it |
| PgEmbeddings.BuildDeleteIds | plugins/destination/postgresql/client/insert_embeddings.go:188-194 | the loop writes the list of quoted ids between brackets |
| PgEmbeddings.InListParsesIff | plugins/destination/postgresql/client/insert_embeddings.go:188-194 | the list is read back as these ids, and it is SQL if and only if there are any |
| PgInserts.InsertSucceedsIff | plugins/destination/postgresql/client/insert.go:39-108 | with accepted messages, a splitter and an endpoint that work, every flush can be embedded if and only if none holds messages for a configured table and not one row in them |
| PgInserts.EmptyInsertFails | plugins/destination/postgresql/client/insert_embeddings.go:188-194 | the flush of one insert of no rows cannot be embedded, so InsertBatch fails |
| SchemaMerge.SchemasMatch | plugins/destination/bigquery/client/migrate.go:151-167 | true exactly when every wanted field is there with its type |
| SchemaMerge.MergeSchemas | plugins/destination/bigquery/client/migrate.go:171-200 | fails exactly on a changed type or a required dropped column, naming the first; otherwise the old schema followed by the new names |
| SchemaMerge.MayStayIff | plugins/destination/bigquery/client/migrate.go:179-191 | a column may stay unless its name is wanted (last) with another type, or not at all while it is required |
| SchemaMerge.StopsBecause | plugins/destination/bigquery/client/migrate.go:183-189 | the error names the column, the type it has and the type wanted |
| SchemaMerge.NewAt | plugins/destination/bigquery/client/migrate.go:193-199 | the columns added are those of the new schema with a name the old one lacks, one each and in order |
| SchemaMerge.MatchIff | plugins/destination/bigquery/client/migrate.go:151-167 | a match means that the last column of each wanted name has the wanted type |
| SchemaMerge.MergedMatchesIff | plugins/destination/bigquery/client/migrate.go:151-200 | the old schema is a prefix of the result, which matches the wanted one if and only if no name is wanted with two types |
| SchemaMerge.MergingAgainChangesNothing | plugins/destination/bigquery/client/migrate.go:171-200 | merging again adds nothing, and succeeds if and only if no new name is wanted with two types |
| SchemaMerge.TwoTypesNeverMatch | plugins/destination/bigquery/client/migrate.go:101-125 | a schema with one name under two types merges and never matches |

## Left out

- gRPC, HTTP, SQL drivers, Arrow buffers, JSON and the MigrateTables gates: represented by sequences, arbitrary functions and verdicts per call.
- Real time: the one-second timers are steps that may happen at any moment; there are no liveness claims.
- A client's queue is unbounded, while the identity stage's channel holds nothing: a send there waits for the receiver, which only removes interleavings. The failing runs shown are runs in which every send is received at once, so both kinds of client have them.
- TransformerPipeline.Pipeline.Send: the wait for the asynchronous send and its one-second check are the steps SendCommit of the pipeline and SendDone and SendAbandoned of the sync.
- Errors of a write stream's Send in the stale-delete phase: the sync fails there, and nothing further is sent.
- SyncRun models a table error message as skipped; progress counters, statistics and metrics are not part of it.
- Go maps that only ever hold true are sets, and their iteration order is arbitrary.
- The result type of the markdown reference search is a list; `findMarkdownImages` and the HTML walk are not part of this model. sort.Slice is modelled by an insertion sort on its key: position, starts before ends.
- SQL identifiers are single quoted tokens, so quoting itself is not modelled; a predicate's operator is ignored, as in the code.
- Tables are sets of rows that carry a row identity, `_cq_id` and `_cq_parent_id`; the counts the CTE statement returns are named but not evaluated.
- WhereClause.ExtractValues: the conversion of a column to a driver value, and its error in ClickHouse, are not modelled.
- Firehose.Client.Write: requires the positive limits that SetDefaults leaves; the check of the stream's ARN before the loop is not modelled, the service answers for every record, and the sleep before a retry is dropped.
- Images.ReplaceImages: requires the ranges to lie within the text, as the search that produces them sees to; the slices would panic otherwise.
- TableNames.TableNameChanger.LearnTableNameChange: requires a destination the changer was made with; the code would write to a nil map otherwise.
- DuckDbNames.TextRoundTrip: a quoted name with a space, a quote, a bare comma or unbalanced brackets is left out, since it is misread (DuckDbNames.NamesAreReadIff); the letter case DuckDB reports is covered by a hypothesis that lower-casing gives the created text back.
- DuckDbTexts.TypeIsReadIff: the leaves are spelled without commas; with one, the if-half is DuckDbTexts.SplitIsRead.
- DuckDbNames.NamesAreReadIff: the leaves are spelled without commas; with one, the only-if half is false (DuckDbNames.SpelledCommaHidesACut), and true for names without brackets (DuckDbNames.BracketFreeNamesAreReadIff). The field types themselves are ones that are read back; DuckDbTexts.TypeIsReadIff is for all.
- DuckDbTypes.GetTableInfo: the query for unique columns is a field of the reported row, and query errors are left out.
- RecordTransformer.TransformIsAligned: assumes that the SDK's ReplaceFieldInRecord, which is not part of this model, keeps number, type and length of the columns, and that a UTC microsecond timestamp can be built.
- RecordTransformer.AddedColumnsAreOwn: assumes that the run's time can be built in the column's unit and zone; without it the transformer returns an error.
- RowStore.StreamIsStamped: assumes that the records put into the pipeline are stamped, for which RowStore.TransformedIsStampedIff is the exact condition given an encoding that can be read back, and that the plugins' transformations keep stamps.
- RecordTransformer.CloudOverwritesInternal: assumes that ReplaceFieldInRecord changes the columns of the name and refuses another type.
- PgEmbeddings.BatchIsSeparate: the endpoint is deterministic.
- PgClient.Client.InsertBatch: target tables are distinct, as the spec's validation ensures; listing the server's tables before the loop is not modelled.
- PgInserts.InsertedLastWins: assumes that _cq_id is among the metadata columns, as the spec's defaults ensure, and that messages for one table have the same columns.
- The MySQL and MSSQL type tables, the Kafka writer, spec loading, publishing, login and the v1 and v2 sync paths would only add easier members.
