# streamingSQL data path, in Dafny

This project models the data path of streamingSQL, an incremental SQL view engine fed by
PostgreSQL logical replication, and proves properties of that model. It covers these parts:

- **Replication bookkeeping** (`pg_client/replication.rs`, module `Replication`).
  - The replicator reads wal2json records from the replication stream.
  - It remembers the commit position of the current transaction and buffers change records.
  - On commit it publishes the decoded batch and acknowledges the position with a Standby
    Status Update. That is a 34-byte message, laid out as section 52.4 "Streaming Replication
    Protocol" of the PostgreSQL 10 documentation describes.
- **WAL decoding** (`pg_client/data.rs`, module `WalDecode`).
  - Turns a wal2json record into a `WalEvent`: timestamp, transaction id, primary key, and an
    insert, update or delete with its column map.
- **Normalisation into deltas** (`core/types/dataflow_types.rs`, module `DataflowTypes`).
  - Turns events into signed, keyed deltas `(key, (foreign key, record), time, ±1)`.
  - Also covers the `DBRecord` column-map operations and the SQL text the sink executes.
- **The earlier normaliser** (`core/dataflow_types.rs`, module `LegacyDataflowTypes`).
  - Modelled side by side with the current one. They differ in key parsing, update times and
    what equality compares.
- **The reorder buffer** (`core/types/buffer.rs`, module `ReorderBuffer`).
  - A FIFO queue with a watermark. It releases a batch once it holds `2 * size` items or once
    `delay` milliseconds have passed.
  - A batch may only end at a change of logical time after `size` items.
  - The `sort_by` in `pop` sorts a temporary vector of references and never reorders the
    queue. Items therefore leave in arrival order, and the model has no sort.
- **The sink** (`core/sink.rs`, module `SinkModel`).
  - Pending SQL statements for one output table, executed as one text inside
    `BEGIN`/`COMMIT`.
- **Query-description extraction** (`core/parser.rs`, module `QueryParser`).
  - Reads tables, projected columns, inner-join conditions and the `WHERE` comparison from a
    parsed `SELECT`.

Shared modules:

- `Wrappers`: `Option`, `Result` for panics, and the fallible iterations the code uses
  (`map(..).collect()` as `MapAll`, flattening loops as `FlatMap`, a run of steps as `Fold`).
- `Text`: Rust's string order, decimal text, `join` and `trim_matches`.
- `JsonValue`: the part of `serde_json::Value` that is inspected.
- `OrderedMap`: `BTreeMap<String, V>` as a strictly ascending association list.

Modelling conventions:

- Every panic (`unwrap`, `expect`, indexing, `panic!`) is an `Err` result or a `Panicked`
  outcome. None of them is a precondition.
- Imperative code stays imperative:
  - a loop becomes a `method` proved equal to a specification function;
  - an object whose fields change becomes a `class` whose methods state the new state.
- The outside world is passed in as parameters:
  - clocks;
  - the string hasher;
  - the PgLsn and JSON parsers;
  - the outcome of every database or channel call.

## Model

| member | source | states |
|---|---|---|
| WalDecode.FindColumn | streamingSQL/src/pg_client/data.rs:32-37 | the first column whose `name` equals the key name, or none when no column has it |
| WalDecode.PkeyFromPk | streamingSQL/src/pg_client/data.rs:30-43 | with a null `identity`, the key is `pk[0].name` with the value of the first column of that name; it fails exactly when no column has that name or the first one is not an object with a `value` |
| WalDecode.PkeyFromIdentity | streamingSQL/src/pg_client/data.rs:44-54 | with an `identity` array, the key is `identity[0]`'s name and value, failing exactly when the array is empty or `identity[0]` is not an object with a string `name` and a `value`; an `identity` that is neither null nor an array fails with "No primary key found" |
| WalDecode.ColumnName | streamingSQL/src/pg_client/data.rs:83 | a column's name is read exactly when it is a string, and the column is then named by it |
| WalDecode.ColumnMapOk | streamingSQL/src/pg_client/data.rs:80-88 | the column map decodes exactly when every column has a string name |
| WalDecode.ColumnMapKeys | streamingSQL/src/pg_client/data.rs:80-88 | the keys of the decoded map are exactly the column names |
| WalDecode.ColumnMapLastWins | streamingSQL/src/pg_client/data.rs:82-86 | a repeated column name keeps the value of its last occurrence |
| WalDecode.DecodeColumns | streamingSQL/src/pg_client/data.rs:80-88 | the loop over `columns` computes the column map, and fails when `columns` is not an array or a name is not a string |
| WalDecode.ActionDecoding | streamingSQL/src/pg_client/data.rs:66-73 | `I`, `U` and `D` decode to insert, update and delete (a delete without columns); every other or missing action fails |
| WalDecode.InsertUpdateAgree | streamingSQL/src/pg_client/data.rs:95-103 | an update decodes the same column map as an insert of the same columns |
| WalDecode.EventHeader | streamingSQL/src/pg_client/data.rs:20-27 | `timestamp` must be a string and `xid` an `i64`; both are copied unchanged, next to the decoded key and change |
| DataflowTypes.KeyToUsize | streamingSQL/src/core/types/dataflow_types.rs:130-143 | a string key is hashed, a number key passes through only when it is a `u64`, and every other value kind fails |
| DataflowTypes.RecordGet | streamingSQL/src/core/types/dataflow_types.rs:204-209 | a column's value, or `Null` when the record lacks the column |
| DataflowTypes.ForeignKeyRule | streamingSQL/src/core/types/dataflow_types.rs:98-128 | the primary key is `key_to_usize` of the identity value; the foreign key is absent when no column is requested, the column is missing or the event is a delete, and is otherwise `key_to_usize` of that column |
| DataflowTypes.Swap | streamingSQL/src/core/types/dataflow_types.rs:171-177 | exchanges the primary and the foreign key, and fails without a foreign key |
| DataflowTypes.SwapTwice | streamingSQL/src/core/types/dataflow_types.rs:171-177 | swapping twice gives back the original keys |
| DataflowTypes.DataKeys | streamingSQL/src/core/types/dataflow_types.rs:148-161 | iterating an element yields its key, then its foreign key when there is one |
| DataflowTypes.TimeOf | streamingSQL/src/core/types/dataflow_types.rs:53-54 | the time conversion succeeds exactly for non-negative values and keeps them unchanged |
| DataflowTypes.InsertDelta | streamingSQL/src/core/types/dataflow_types.rs:43-57 | an insert yields exactly one `+1` delta at time `xid`, carrying the inserted columns and the keys |
| DataflowTypes.UpdateDeltas | streamingSQL/src/core/types/dataflow_types.rs:58-79 | an update yields a `-1` delta with an empty record at `xid - 1`, then a `+1` delta with the new record at `xid`; it fails when `xid - 1` is negative |
| DataflowTypes.DeleteDelta | streamingSQL/src/core/types/dataflow_types.rs:82-91 | a delete yields exactly one `-1` delta with an empty record at time `xid` |
| DataflowTypes.NormalizeConcat | streamingSQL/src/core/types/dataflow_types.rs:39-96 | normalising two runs of events one after the other is normalising each run and concatenating the deltas in order; the first failure wins |
| DataflowTypes.NormalizeLength | streamingSQL/src/core/types/dataflow_types.rs:39-96 | a successful run yields `#inserts + 2 * #updates + #deletes` deltas |
| DataflowTypes.NormalizeStopsAt | streamingSQL/src/core/types/dataflow_types.rs:39-96 | the first event that fails ends the whole run with its own failure |
| DataflowTypes.FromWalEvent | streamingSQL/src/core/types/dataflow_types.rs:39-96 | the push loop computes the normalisation of the events |
| DataflowTypes.DataOrderConsistent | streamingSQL/src/core/types/dataflow_types.rs:338-362 | `cmp` is `Equal` exactly for `==` elements, `==` elements hash alike, and `Less` and `Greater` are mirror images |
| DataflowTypes.RecordTypeFromValue | streamingSQL/src/core/types/dataflow_types.rs:187-193 | 1 and -1 are the only accepted changes, and each maps to the kind with that discriminant |
| DataflowTypes.RecordTypeRoundTrip | streamingSQL/src/core/types/dataflow_types.rs:187-193 | `from_value` inverts the discriminant of both record kinds |
| DataflowTypes.GetKeyForValue | streamingSQL/src/core/types/dataflow_types.rs:210-217 | the first column, in ascending order, whose value is the given `u64`; none when no column holds it |
| DataflowTypes.Merge | streamingSQL/src/core/types/dataflow_types.rs:312-315 | the receiver becomes the union of both maps, with `other`'s value winning on a shared column, and the returned clone equals it |
| DataflowTypes.PrefixKeys | streamingSQL/src/core/types/dataflow_types.rs:316-322 | every column `k` is renamed to `prefix.k`, with values, order and size unchanged |
| DataflowTypes.Pick | streamingSQL/src/core/types/dataflow_types.rs:324-335 | exactly the requested columns that the record has, with their values |
| DataflowTypes.InsertSqlText | streamingSQL/src/core/types/dataflow_types.rs:229-251 | an empty record renders as nothing; otherwise `INSERT INTO t VALUES (` with the rendered values joined by commas, then `);` |
| DataflowTypes.DeleteConditions | streamingSQL/src/core/types/dataflow_types.rs:252-263 | one ` "k" = v` condition per key, in the order given |
| DataflowTypes.DeleteSql | streamingSQL/src/core/types/dataflow_types.rs:252-263 | the `DELETE` statement exists exactly when keys are given |
| DataflowTypes.DeleteSqlTwoKeys | streamingSQL/src/core/types/dataflow_types.rs:252-263 | a two-key delete separates its conditions by `AND` followed by two spaces and ends in `;` |
| DataflowTypes.ToSqlValues | streamingSQL/src/core/types/dataflow_types.rs:222-265 | the `push_str`/`pop` loop builds the insert text above, and the delete text (or its failure) |
| DataflowTypes.GetSqlColumns | streamingSQL/src/core/types/dataflow_types.rs:266-274 | one double-quoted name per column, in the record's order (ascending, since a `DBRecord` is sorted by key) |
| DataflowTypes.SchemaSqlText | streamingSQL/src/core/types/dataflow_types.rs:275-295 | the typed definitions joined by `, ` inside `(` and ` );`; with none, only ` );` is left |
| DataflowTypes.CreateSqlSchema | streamingSQL/src/core/types/dataflow_types.rs:275-295 | the `push_str`/`pop` loop builds the schema text above |
| LegacyDataflowTypes.ParseUsizeRoundTrip | streamingSQL/src/core/dataflow_types.rs:24 | a key written in decimal, with or without `+`, parses back to itself |
| LegacyDataflowTypes.ParseUsizeRejects | streamingSQL/src/core/dataflow_types.rs:24 | the empty string, a lone `+`, a minus sign and 2^64 are rejected |
| LegacyDataflowTypes.LegacySingleDelta | streamingSQL/src/core/dataflow_types.rs:22-61 | an insert or a delete yields one delta at `xid` (`+1` with the columns, `-1` with none); it succeeds exactly when the key is a decimal string and `xid` is non-negative |
| LegacyDataflowTypes.LegacyUpdateSameTime | streamingSQL/src/core/dataflow_types.rs:33-53 | an update retracts an empty record and asserts the new one, both at time `xid` |
| LegacyDataflowTypes.LegacyNormalizeLength | streamingSQL/src/core/dataflow_types.rs:18-65 | the earlier normaliser yields as many deltas as the current one |
| LegacyDataflowTypes.LegacyStopsAt | streamingSQL/src/core/dataflow_types.rs:18-65 | the first event that fails ends the run with its own failure |
| LegacyDataflowTypes.LegacyFromWalEvent | streamingSQL/src/core/dataflow_types.rs:18-65 | the push loop computes the earlier normalisation, in event order |
| LegacyDataflowTypes.LegacyOrderInconsistent | streamingSQL/src/core/dataflow_types.rs:72-96 | some `==` elements hash differently, and some `!=` elements compare `Equal` |
| LegacyDataflowTypes.LegacyRetractionsCollide | streamingSQL/src/core/dataflow_types.rs:72-96 | the retractions of two deletes with different keys are `==` yet hash apart |
| ReorderBuffer.Buffer.constructor | streamingSQL/src/core/types/buffer.rs:19-28 | an empty queue, watermark 0, the given size and delay, last release now |
| ReorderBuffer.Buffer.Insert | streamingSQL/src/core/types/buffer.rs:30-32 | exactly one item is appended at the back; watermark, size, delay and last release are unchanged |
| ReorderBuffer.Buffer.GetWatermark | streamingSQL/src/core/types/buffer.rs:34-36 | the current watermark |
| ReorderBuffer.Buffer.UpdateWatermark | streamingSQL/src/core/types/buffer.rs:57-59 | afterwards the watermark reads back as the given time; the queue and the settings are unchanged |
| ReorderBuffer.Buffer.ShouldPop | streamingSQL/src/core/types/buffer.rs:38-55 | a buffer is due only when its queue is non-empty |
| ReorderBuffer.SizeTrigger | streamingSQL/src/core/types/buffer.rs:38-55 | `should_pop` of a buffer: never for an empty queue; below the `u16` wrap-around, exactly when `len >= 2 * size` or the delay has passed; with a size of 32768, `size * 2` wraps to 0 and any non-empty queue is due |
| ReorderBuffer.FixedCutFrom | streamingSQL/src/core/types/buffer.rs:68-73 | the intended batch is non-empty; it ends at the first time boundary after `size` items, or takes the whole queue when there is none |
| ReorderBuffer.CutFromAgrees | streamingSQL/src/core/types/buffer.rs:68-73 | the loop as written stops where the intended one does, except that it panics when the intended batch is the whole queue and `|q| as u16 >= size` |
| ReorderBuffer.ShortQueueDrains | streamingSQL/src/core/types/buffer.rs:68-73 | a queue shorter than `size` is released whole |
| ReorderBuffer.NoBoundaryPanics | streamingSQL/src/core/types/buffer.rs:70 | a queue of at least `size` items that all share one time panics in `front().unwrap()` |
| ReorderBuffer.Buffer.Pop | streamingSQL/src/core/types/buffer.rs:61-78 | when not due, nothing changes; otherwise the batch is the queue's prefix up to the loop's cut, the rest stays queued in order, the release time is recorded, or the loop panics with the queue drained |
| ReorderBuffer.Buffer.PopFixed | streamingSQL/src/core/types/buffer.rs:61-78 | the same with the intended cut, which never panics |
| SinkModel.Sink.constructor | streamingSQL/src/core/sink.rs:39-45 | no columns, no pending statements, table not created |
| SinkModel.Sink.SetSchema | streamingSQL/src/core/sink.rs:47-61 | executes `CREATE TABLE IF NOT EXISTS <table> <schema>`; the table counts as created only when that succeeds |
| SinkModel.Sink.SetColumns | streamingSQL/src/core/sink.rs:62-64 | replaces the columns and touches nothing else |
| SinkModel.Sink.Insert | streamingSQL/src/core/sink.rs:66-68 | the caller's statements move, in order, to the back of the pending ones, and the caller's vector is left empty |
| SinkModel.Sink.Save | streamingSQL/src/core/sink.rs:70-80 | every pending statement is drained and executed as one text joined by single spaces; it panics when that execution fails |
| SinkModel.TransactionTranscript | streamingSQL/src/core/sink.rs:82-91 | `BEGIN TRANSACTION`, the joined batch, `COMMIT TRANSACTION`, in that order, cut short at the first failed call |
| SinkModel.Sink.ExecuteTransaction | streamingSQL/src/core/sink.rs:82-91 | executes that transcript; the pending statements are drained once `BEGIN` succeeded; it panics unless all three calls succeed |
| Text.JoinAppend | streamingSQL/src/core/sink.rs:74 | two runs of statements saved together are one text: the two joined texts separated by one space |
| Replication.U64Bytes | streamingSQL/src/pg_client/replication.rs:113 | eight bytes that read back, most significant first, as the number |
| Replication.BigEndianRoundTrip | streamingSQL/src/pg_client/replication.rs:113 | big-endian bytes read back as the number they encode |
| Replication.ClockSince2000 | streamingSQL/src/pg_client/replication.rs:114-120 | microseconds since 2000-01-01, that is Unix microseconds minus 946684800 * 10^6; it fails before 2000 and beyond `u64` |
| Replication.SsuLayout | streamingSQL/src/pg_client/replication.rs:123-142 | 34 bytes: `'r'`, then write, flush and apply position all equal to the big-endian `write_lsn`, then the big-endian clock, then 1 |
| Replication.PrepareSsu | streamingSQL/src/pg_client/replication.rs:112-143 | the appends build that message, and fail when the clock conversion does |
| Replication.DecodeRecords | streamingSQL/src/pg_client/replication.rs:205-211 | every buffered record decoded, in order; it fails exactly when some record does not decode |
| Replication.RecordStepEffects | streamingSQL/src/pg_client/replication.rs:217-254 | `B` succeeds exactly when `nextlsn` is a string the LSN parser accepts, and then changes only the commit position to the parsed `nextlsn`; `I`/`U`/`D` append the record and change nothing else; `C` publishes the decoded buffer when it is non-empty, acknowledges the commit position and empties the buffer; other actions change nothing; a missing action fails |
| Replication.TxnStepDispatch | streamingSQL/src/pg_client/replication.rs:256-277 | an empty payload fails; `'w'` processes the JSON after the 25-byte header and fails when the payload is shorter than the header or the JSON does not parse; `'k'` acknowledges the commit position exactly when its last byte is 1, and then fails exactly when the clock conversion does; other tags change nothing |
| Replication.RunAppend | streamingSQL/src/pg_client/replication.rs:217-254 | processing two runs of records is processing the first and then the second from where it left off |
| Replication.RunChanges | streamingSQL/src/pg_client/replication.rs:233-249 | change records are buffered in arrival order and nothing else changes |
| Replication.TransactionPublishes | streamingSQL/src/pg_client/replication.rs:217-254 | a whole `B`, changes, `C` transaction on an empty buffer publishes the changes as one batch (none if there are none), acknowledges the transaction's `nextlsn` and empties the buffer |
| Replication.Replicator.constructor | streamingSQL/src/pg_client/replication.rs:146-163 | the commit position is the slot's; nothing is buffered, published or acknowledged |
| Replication.Replicator.Replicate | streamingSQL/src/pg_client/replication.rs:201-215 | the new state is what `replicate` computes, and the method panics exactly when that fails |
| Replication.Replicator.Commit | streamingSQL/src/pg_client/replication.rs:165-171 | the commit position is acknowledged and the buffer cleared, or the method panics |
| Replication.Replicator.ProcessRecord | streamingSQL/src/pg_client/replication.rs:217-254 | the new state is that of the record step above, and the method panics exactly when it fails |
| Replication.Replicator.ProcessTxn | streamingSQL/src/pg_client/replication.rs:256-277 | the new state is that of the payload dispatch above, and the method panics exactly when it fails |
| QueryParser.RowPropertyRoundTrip | streamingSQL/src/core/parser.rs:31-39 | the text is `row` for an empty table and `table.row` otherwise, and splitting it at the first dot gives table and row back |
| QueryParser.TableNameUnquoted | streamingSQL/src/core/parser.rs:113 | a one-part table name comes out without its double quotes |
| QueryParser.Operand | streamingSQL/src/core/parser.rs:188-192 | a plain identifier has an empty table; a compound one gives parts 0 and 1 and fails with fewer than two parts; anything else gives two empty strings |
| QueryParser.ParseCondition | streamingSQL/src/core/parser.rs:182-212 | no condition for an absent selection or a non-binary expression; otherwise the left operand, the operator text and the right literal |
| QueryParser.StringLiteralDropped | streamingSQL/src/core/parser.rs:193-200 | a string literal on the right becomes the empty string |
| Wrappers.FlatMapAppend | streamingSQL/src/core/parser.rs:83-104 | the collecting loops handle a list in two parts as the two parts one after the other, keeping order |
| QueryParser.ParseProjection | streamingSQL/src/core/parser.rs:81-106 | the loop computes the columns of the select list, in order |
| QueryParser.ProjectionOrder | streamingSQL/src/core/parser.rs:86-103 | an unnamed identifier contributes its column at its place in the list, and items other than unnamed expressions contribute nothing |
| QueryParser.TablesNeverFail | streamingSQL/src/core/parser.rs:108-128 | listing the tables never fails |
| QueryParser.ParseFrom | streamingSQL/src/core/parser.rs:108-128 | each base table, then the tables joined to it, in order, with non-table factors skipped |
| QueryParser.ParseJoins | streamingSQL/src/core/parser.rs:130-180 | one condition per inner join whose `ON` clause is a binary operation, in order |
| QueryParser.NonInnerJoinsSkipped | streamingSQL/src/core/parser.rs:135-143 | other join kinds, other constraints and non-binary `ON` clauses contribute nothing |
| QueryParser.UnsupportedQueries | streamingSQL/src/core/parser.rs:53-77 | the returned error "Unsupported query type" arises exactly when the first statement is not a query or its body is not a `SELECT`; every other failure is an out-of-range-index panic (no statements, or a compound identifier of fewer than two parts) |
| QueryParser.ItemRowsFailures | streamingSQL/src/core/parser.rs:81-106 | the projection fails only by the index panic of a short compound identifier |
| QueryParser.JoinsFailures | streamingSQL/src/core/parser.rs:130-180 | the join conditions fail only by the index panic of a short compound identifier |
| QueryParser.ParseQuery | streamingSQL/src/core/parser.rs:49-79 | builds the query description from the first statement: its columns, tables, join conditions and condition |

## Left out

- I/O and concurrency are not modelled:
  - the tokio runtime;
  - the broadcast channel (only whether a send succeeds);
  - the replication stream (`send_ssu`'s poll loop and `start_replication`);
  - the database client (only whether each call succeeds);
  - logging.
- ReorderBuffer.Buffer.constructor: `BUFFER_SIZE` and `BUFFER_DELAY` are passed in already parsed. The
  environment lookup and its parse panics are left out.
- SinkModel.Sink.constructor: the connection set-up in `Sink::new` is left out. The sink starts from its
  table name.
- Replication.Replicator.constructor: takes the slot position as a number. The `slot.lsn.unwrap()` panic
  and the publication and slot names are left out.
- Opaque library behaviour is a parameter:
  - `DefaultHasher` on strings;
  - `PgLsn` parsing;
  - `serde_json::from_slice`;
  - `Instant` and `SystemTime` readings. In `pop`, one reading `now` stands for both the
    `last_pop.elapsed()` test and the later `Instant::now()` release time;
  - `sqlparser::Parser::parse_sql`. `ParseQuery` starts from the statement list. A syntax error
    in `parse_sql` is not part of this model.
- QueryParser: the syntax tree is a subset of sqlparser's. Node kinds the extraction never
  inspects are single `Other...` constructors.
- QueryParser.IdentText: quote characters inside a quoted identifier are not doubled as
  sqlparser's `Display` does, and a quote style other than `"`, `'`, `` ` `` or `[` (where
  sqlparser's `Display` panics) is rendered like the others instead.
- DataflowTypes.Merge: the receiver changed in place by `&mut self` is returned as the
  out-parameter `updated`. Updating a record shared with another owner is not modelled.
- Panic messages in `Err` results are indicative. The model does not promise Rust's exact text.
  The one error the code returns rather than panics with, `parse_query`'s "Unsupported query
  type", is exact, and `QueryParser.UnsupportedQueries` shows no panic carries it.
- Integer overflow follows a release build, which wraps (`len as u16`, `size * 2`). A debug
  build would panic instead.
- Floating-point JSON numbers are kept only as their text. They are never keys, never `u64`
  and never `i64`.
- `DBRecord::as_raw_pointer` / `from_raw_pointer` and the `abomonate` serialisation impls
  are unsafe pointer glue and are not modelled.
- `Insert::from_wal_json` and `Update::from_wal_json` have identical bodies. Both are
  `WalDecode.DecodeColumns`.

## Findings

| source | as written | input that shows it | evidently intended | confidence | as-written member | corrected member |
|---|---|---|---|---|---|---|
| streamingSQL/src/core/types/buffer.rs:68-73 | after `size` items the loop calls `front().unwrap()` on the queue, which panics once the queue is empty | `size` 1 and a due queue of one item: the item is taken, `1 >= 1`, and `front()` of the empty queue is `None` | an emptied queue ends the batch and the whole queue is released | high, not executed | ReorderBuffer.NoBoundaryPanics | ReorderBuffer.Buffer.PopFixed |
| streamingSQL/src/core/dataflow_types.rs:72-96 | `PartialEq` compares the records while `Hash` and `Ord` use the key | the retractions of keys 1 and 2 both carry the empty record: they are `==` but hash and order apart | equality, order and hash all on the key, as the later snapshot has it | high, not executed | LegacyDataflowTypes.LegacyOrderInconsistent | DataflowTypes.DataOrderConsistent |
