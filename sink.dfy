/** The sink (streamingSQL/src/core/sink.rs): pending SQL statements for one output table,
    executed in batches inside a transaction. The database client is replaced by the list
    `sent` of statements handed to it, and whether each call succeeds is a parameter. */
module SinkModel {
  import opened Text

  const CreateTablePrefix := "CREATE TABLE IF NOT EXISTS "
  const BeginStatement := "BEGIN TRANSACTION"
  const CommitStatement := "COMMIT TRANSACTION"

  /** A caller-owned `Vec<String>` of statements, emptied by `Sink::insert`. */
  class Statements {
    var items: seq<string>

    constructor (items: seq<string>)
      ensures this.items == items
    {
      this.items := items;
    }
  }

  /** The statements one `execute_transaction` hands to the database: a prefix of `BEGIN`,
      the pending statements joined by single spaces, `COMMIT`, cut short just after the
      first call that fails. */
  function TransactionTranscript(pending: seq<string>, beginOk: bool, batchOk: bool): (t: seq<string>)
    ensures t <= [BeginStatement, Join(pending, " "), CommitStatement]
    ensures |t| == if !beginOk then 1 else if !batchOk then 2 else 3
  {
    if !beginOk then [BeginStatement]
    else if !batchOk then [BeginStatement, Join(pending, " ")]
    else [BeginStatement, Join(pending, " "), CommitStatement]
  }

  class Sink {
    const table: string
    var columns: seq<string>
    var data: seq<string>
    var tableCreated: bool
    /** The statements executed on the client so far, oldest first. */
    var sent: seq<string>

    /** `Sink::new`, once connected. */
    constructor (table: string)
      ensures this.table == table
      ensures columns == [] && data == [] && !tableCreated && sent == []
    {
      this.table := table;
      columns := [];
      data := [];
      tableCreated := false;
      sent := [];
    }

    /** `set_schema`: executes `CREATE TABLE IF NOT EXISTS <table> <schema>`; the table counts
        as created only when that succeeds, and a failure is only logged. */
    method SetSchema(schema: string, executeOk: bool)
      modifies this
      ensures sent == old(sent) + [CreateTablePrefix + table + " " + schema]
      ensures tableCreated == (old(tableCreated) || executeOk)
      ensures columns == old(columns) && data == old(data)
    {
      var sql := CreateTablePrefix + table + " ";
      sent := sent + [sql + schema];
      if executeOk {
        tableCreated := true;
      }
    }

    /** `set_columns`: replaces the column list, nothing else. */
    method SetColumns(columns: seq<string>)
      modifies this
      ensures this.columns == columns
      ensures data == old(data) && tableCreated == old(tableCreated) && sent == old(sent)
    {
      this.columns := columns;
    }

    /** `insert`: `Vec::append` moves the caller's statements, in order, to the back of the
        pending ones and leaves the caller's vector empty. */
    method Insert(batch: Statements)
      modifies this, batch
      ensures data == old(data) + old(batch.items)
      ensures batch.items == []
      ensures columns == old(columns) && tableCreated == old(tableCreated) && sent == old(sent)
    {
      data := data + batch.items;
      batch.items := [];
    }

    /** `save`: drains every pending statement before executing them as one text joined by
        single spaces; `panicked` is the `unwrap` of a failed execution. */
    method Save(executeOk: bool) returns (panicked: bool)
      modifies this
      ensures data == []
      ensures sent == old(sent) + [Join(old(data), " ")]
      ensures panicked == !executeOk
      ensures columns == old(columns) && tableCreated == old(tableCreated)
    {
      var values := Join(data, " ");
      data := [];
      sent := sent + [values];
      panicked := !executeOk;
    }

    /** `execute_transaction`: `BEGIN`, `save`, `COMMIT`, each unwrapped. The pending
        statements are drained once `BEGIN` has succeeded. */
    method ExecuteTransaction(beginOk: bool, batchOk: bool, commitOk: bool) returns (panicked: bool)
      modifies this
      ensures sent == old(sent) + TransactionTranscript(old(data), beginOk, batchOk)
      ensures panicked == !(beginOk && batchOk && commitOk)
      ensures data == if beginOk then [] else old(data)
      ensures columns == old(columns) && tableCreated == old(tableCreated)
    {
      sent := sent + [BeginStatement];
      if !beginOk {
        return true;
      }
      panicked := Save(batchOk);
      if panicked {
        return;
      }
      sent := sent + [CommitStatement];
      panicked := !commitOk;
    }
  }
}
