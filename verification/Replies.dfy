/** What each request replies and leaves on the disk, told by the table's files and the request alone. */
module Replies {
  import opened Columns
  import opened Commitments
  import opened Consistency
  import opened Handlers
  import opened History
  import opened Invariants
  import opened Layout
  import opened Names
  import opened Queries
  import opened Results
  import opened Schemas
  import opened Service
  import opened Store

  /** The disk once `request` has been carried out in full. */
  function AfterServing(server: Server, d: Disk, request: Request): Disk {
    ApplyAll(d, Handle(server, d, request).actions)
  }

  // ---- Inserting ----

  predicate WideAs(rows: seq<Row>, schema: Schema) {
    forall i :: 0 <= i < |rows| ==> |rows[i]| == |schema|
  }

  /** The reply to an insert, by the first thing wrong with it. */
  function InsertReply(server: Server, d: Disk, t: TableRef, body: string): Reply {
    if t !in d then Failed(NotFound(t))
    else
      var view := ViewOf(d[t]);
      if view.files == [] then Failed(Empty)
      else if !view.files[0].ParquetFile? then Failed(NotParquet)
      else
        var schema := view.files[0].batch.schema;
        var rows := server.decode(schema, body);
        if rows.None? || !WideAs(rows.value, schema) then BadRows
        else if view.commit.None? then Failed(DbError.Io)
        else if !view.commit.value.CommitFile? then Failed(DbError.Decode)
        else if view.commit.value.commitment.rows + |rows.value| > server.capacity then Failed(DbError.Append)
        else Created
  }

  lemma DecodedRows(server: Server, schema: Schema, body: string)
    ensures var rows, batch := server.decode(schema, body), DecodeRows(server, schema, body);
      && (batch.None? <==> rows.None? || !WideAs(rows.value, schema))
      && (batch.Some? ==> batch.value.schema == schema && batch.value.rows == rows.value)
  {
  }

  lemma AcceptedInsertReplies(server: Server, d: Disk, t: TableRef, batch: RecordBatch)
    requires Good(server.tau, d) && t in d && AcceptsInsert(ViewOf(d[t]), batch)
    ensures InsertScript(d, t, batch, server.Setup()).result ==
      if ViewOf(d[t]).commit.value.commitment.rows + |batch.rows| > server.capacity then Err(DbError.Append) else Ok(())
  {
    TableFacts(server.tau, d, t);
    InsertActions(d, t, batch, server.Setup());
    RoomDecides(server.tau, ViewOf(d[t]), batch, server.capacity);
  }

  lemma InsertReplies(server: Server, d: Disk, t: TableRef, body: string)
    requires Good(server.tau, d)
    ensures Handle(server, d, InsertRows(t, body)).reply == InsertReply(server, d, t, body)
  {
    if t in d {
      var view := ViewOf(d[t]);
      SchemaAt(server.tau, d, t);
      if view.files != [] && view.files[0].ParquetFile? {
        var schema := view.files[0].batch.schema;
        DecodedRows(server, schema, body);
        var batch := DecodeRows(server, schema, body);
        if batch.Some? {
          RefusedInsert(d, t, batch.value, server.Setup());
          if AcceptsInsert(view, batch.value) {
            AcceptedInsertReplies(server, d, t, batch.value);
          }
        }
      }
    }
  }

  /** Rows are turned down exactly when the table's schema can be read and they do not decode against
      it, each to a row of its width. */
  lemma BadRowsIff(server: Server, d: Disk, t: TableRef, body: string)
    requires Good(server.tau, d)
    ensures Handle(server, d, InsertRows(t, body)).reply == BadRows <==>
      && SchemaOf(d, t).Ok?
      && (server.decode(SchemaOf(d, t).value, body).None? ||
          exists i :: 0 <= i < |server.decode(SchemaOf(d, t).value, body).value| &&
            |server.decode(SchemaOf(d, t).value, body).value[i]| != |SchemaOf(d, t).value|)
  {
    InsertReplies(server, d, t, body);
    if t in d {
      SchemaAt(server.tau, d, t);
    }
  }

  /** The table after an insert that replied Created: one file more, holding the rows sent, under an
      extended commitment. */
  lemma CreatedInsertFiles(server: Server, d: Disk, t: TableRef, body: string)
    requires Good(server.tau, d) && Handle(server, d, InsertRows(t, body)).reply == Created
    ensures SchemaOf(d, t).Ok? && server.decode(SchemaOf(d, t).value, body).Some?
    ensures WideAs(server.decode(SchemaOf(d, t).value, body).value, SchemaOf(d, t).value)
    ensures var batch: RecordBatch := Batch(SchemaOf(d, t).value, server.decode(SchemaOf(d, t).value, body).value);
            var after := AfterServing(server, d, InsertRows(t, body));
      && Good(server.tau, after) && t in d && t in after && AcceptsInsert(ViewOf(d[t]), batch)
      && Appendable(ViewOf(d[t]).commit.value.commitment, batch, server.Setup())
      && after == d[t := LaidOut(InsertStage(ViewOf(d[t]), batch, Extended(ViewOf(d[t]), batch, server.Setup()), 4))]
      && ViewOf(after[t]) == InsertStage(ViewOf(d[t]), batch, Extended(ViewOf(d[t]), batch, server.Setup()), 4)
  {
    InsertReplies(server, d, t, body);
    SchemaAt(server.tau, d, t);
    DecodedRows(server, SchemaOf(d, t).value, body);
    var batch := DecodeRows(server, SchemaOf(d, t).value, body).value;
    TableFacts(server.tau, d, t);
    RoomDecides(server.tau, ViewOf(d[t]), batch, server.capacity);
    var e := Event(Op.Insert(t, batch), server.capacity, 4);
    ScriptLength(server.tau, d, e);
    EventEffect(server.tau, d, e);
    EventViews(server.tau, d, e, t);
    GoodAfter(server.tau, d, e);
  }

  /** An insert that replies Created has stored exactly the rows it was sent, after all those that were
      there: the data, up to a million files, and the count of rows committed both grow by them. Other
      tables are left alone. */
  lemma CreatedInsertStores(server: Server, d: Disk, t: TableRef, body: string, schema: Schema, rows: seq<Row>, after: Disk)
    requires Good(server.tau, d) && Handle(server, d, InsertRows(t, body)).reply == Created
    requires SchemaOf(d, t) == Ok(schema) && server.decode(schema, body) == Some(rows)
    requires after == AfterServing(server, d, InsertRows(t, body))
    ensures Good(server.tau, after) && t in after && WideAs(rows, schema)
    ensures CommitmentOf(d, t).Ok? && CommitmentOf(after, t).Ok?
    ensures CommitmentOf(after, t).value.rows == CommitmentOf(d, t).value.rows + |rows|
    ensures TableData(after, t).Ok? <==> TableData(d, t).Ok?
    ensures TableData(d, t).Ok? && |ParquetPaths(after[t])| <= LIMIT ==>
              TableData(after, t).value.schema == schema && TableData(after, t).value.rows == TableData(d, t).value.rows + rows
    ensures forall u :: u != t ==> (u in after <==> u in d) && (u in d ==> after[u] == d[u])
  {
    CreatedInsertFiles(server, d, t, body);
    StoredInsert(server.tau, d, t, after, Batch(schema, rows), server.Setup());
  }

  lemma StoredInsert(tau: Ceremony, d: Disk, t: TableRef, after: Disk, batch: RecordBatch, setup: Setup)
    requires Good(tau, d) && Good(tau, after) && t in d && t in after && AcceptsInsert(ViewOf(d[t]), batch)
    requires Appendable(ViewOf(d[t]).commit.value.commitment, batch, setup)
    requires ViewOf(after[t]) == InsertStage(ViewOf(d[t]), batch, Extended(ViewOf(d[t]), batch, setup), 4)
    ensures CommitmentOf(d, t).Ok? && CommitmentOf(after, t).Ok?
    ensures CommitmentOf(after, t).value.rows == CommitmentOf(d, t).value.rows + |batch.rows|
    ensures TableData(after, t).Ok? <==> TableData(d, t).Ok?
    ensures TableData(d, t).Ok? && |ParquetPaths(after[t])| <= LIMIT ==>
              TableData(after, t).value.schema == batch.schema && TableData(after, t).value.rows == TableData(d, t).value.rows + batch.rows
  {
    StoredCount(tau, d, t, after, batch, setup);
    StoredRows(tau, d, t, after, batch);
  }

  lemma StoredCount(tau: Ceremony, d: Disk, t: TableRef, after: Disk, batch: RecordBatch, setup: Setup)
    requires Good(tau, d) && Good(tau, after) && t in d && t in after && AcceptsInsert(ViewOf(d[t]), batch)
    requires Appendable(ViewOf(d[t]).commit.value.commitment, batch, setup)
    requires ViewOf(after[t]).commit == Some(CommitFile(Extended(ViewOf(d[t]), batch, setup)))
    ensures CommitmentOf(d, t).Ok? && CommitmentOf(after, t).Ok?
    ensures CommitmentOf(after, t).value.rows == CommitmentOf(d, t).value.rows + |batch.rows|
  {
    TableFacts(tau, d, t);
    TableFacts(tau, after, t);
    CommitmentView(d, t);
    CommitmentView(after, t);
  }

  lemma StoredRows(tau: Ceremony, d: Disk, t: TableRef, after: Disk, batch: RecordBatch)
    requires Good(tau, d) && Good(tau, after) && t in d && t in after && AcceptsInsert(ViewOf(d[t]), batch)
    requires ViewOf(after[t]).files == ViewOf(d[t]).files + [ParquetFile(batch)]
    ensures TableData(after, t).Ok? <==> TableData(d, t).Ok?
    ensures TableData(d, t).Ok? && |ParquetPaths(after[t])| <= LIMIT ==>
              TableData(after, t).value.schema == batch.schema && TableData(after, t).value.rows == TableData(d, t).value.rows + batch.rows
  {
    var before := ViewOf(d[t]);
    DataReadable(tau, d, t);
    DataReadable(tau, after, t);
    TableFacts(tau, d, t);
    TableFacts(tau, after, t);
    PathsAreNumbered(before);
    PathsAreNumbered(ViewOf(after[t]));
    ReadableExtend(before, ParquetFile(batch), ViewOf(after[t]).commit);
    AllRowsExtend(before.files, ParquetFile(batch));
    assert ViewOf(after[t]) == View(before.files + [ParquetFile(batch)], ViewOf(after[t]).commit);
  }

  /** Any other reply but Failed(Append) means that nothing was done. */
  lemma RefusedInsertLeaves(server: Server, d: Disk, t: TableRef, body: string)
    requires Good(server.tau, d)
    requires var reply := Handle(server, d, InsertRows(t, body)).reply; reply != Created && reply != Failed(DbError.Append)
    ensures AfterServing(server, d, InsertRows(t, body)) == d
  {
    if t in d && SchemaOf(d, t).Ok? && DecodeRows(server, SchemaOf(d, t).value, body).Some? {
      ReportsTruthfully(server.tau, d, Event(Op.Insert(t, DecodeRows(server, SchemaOf(d, t).value, body).value), server.capacity, 4));
    }
  }

  // ---- Creating ----

  predicate Understood(columns: seq<(string, Option<SqlType>)>) {
    forall i :: 0 <= i < |columns| ==> columns[i].1.Some? && columns[i].1 != Some(SqlOther)
  }

  /** `schema` has the columns asked for: the same names in order, each of the type its own is stored as. */
  predicate SchemaFor(columns: seq<(string, Option<SqlType>)>, schema: Schema) {
    && |schema| == |columns|
    && forall i :: 0 <= i < |columns| ==>
         schema[i].name == columns[i].0 && Some(schema[i].dataType) == ParseColumnType(columns[i].1)
  }

  lemma CreateReplies(server: Server, d: Disk, t: TableRef, columns: seq<(string, Option<SqlType>)>)
    ensures var outcome := Handle(server, d, CreateTable(t, columns));
      && (!Understood(columns) ==> outcome == Outcome([], BadColumns))
      && (Understood(columns) && t in d ==> outcome == Outcome([], Failed(AlreadyExists(t))))
      && (Understood(columns) && t !in d ==> outcome.reply == Created)
  {
    DescribedAsCreated(columns);
  }

  /** A creation that replies Created has made an empty table of the columns asked for, committed to as
      such, and left every other table alone. */
  lemma CreatedTable(server: Server, d: Disk, t: TableRef, columns: seq<(string, Option<SqlType>)>) returns (schema: Schema)
    requires Good(server.tau, d) && Handle(server, d, CreateTable(t, columns)).reply == Created
    ensures SchemaFor(columns, schema)
    ensures var after := AfterServing(server, d, CreateTable(t, columns));
      && t !in d && t in after && Good(server.tau, after)
      && TableData(after, t) == Ok(Batch(schema, []))
      && CommitmentOf(after, t) == Ok(CommitmentTo(server.tau, Batch(schema, [])))
      && (forall u :: u != t ==> (u in after <==> u in d) && (u in d ==> after[u] == d[u]))
  {
    CreateReplies(server, d, t, columns);
    DescribedAsCreated(columns);
    ParsedColumns(columns);
    schema := ParseColumns(columns).value;
    var e := Event(Op.Create(t, schema), server.capacity, 5);
    CreatedEffect(server.tau, d, e);
    ScriptLength(server.tau, d, e);
    EventEffect(server.tau, d, e);
  }

  lemma CreatedEffect(tau: Ceremony, d: Disk, e: Event)
    requires Good(tau, d) && e.op.Create? && e.op.t !in d && AllProvable(e.op.schema) && e.stop >= 5
    ensures var after, t := After(tau, d, e), e.op.t;
      && Good(tau, after) && t in after
      && TableData(after, t) == Ok(Batch(e.op.schema, []))
      && CommitmentOf(after, t) == Ok(CommitmentTo(tau, Batch(e.op.schema, [])))
  {
    EventViews(tau, d, e, e.op.t);
    GoodAfter(tau, d, e);
    CommitUnderAnySetup(tau, Batch(e.op.schema, []), e.capacity);
    EmptyTable(tau, After(tau, d, e), e.op.t, e.op.schema, CommitmentTo(tau, Batch(e.op.schema, [])));
  }

  lemma EmptyTable(tau: Ceremony, d: Disk, t: TableRef, schema: Schema, c: TableCommitment)
    requires Good(tau, d) && t in d && ViewOf(d[t]) == View([ParquetFile(Batch(schema, []))], Some(CommitFile(c)))
    ensures TableData(d, t) == Ok(Batch(schema, [])) && CommitmentOf(d, t) == Ok(c)
  {
    var view := ViewOf(d[t]);
    TableFacts(tau, d, t);
    PathsAreNumbered(view);
    DataReadable(tau, d, t);
    CommitmentView(d, t);
    EmptyWhole(view, schema);
  }

  lemma EmptyWhole(view: View, schema: Schema)
    requires view.files == [ParquetFile(Batch(schema, []))]
    ensures Readable(view) && WholeTable(view) == Batch(schema, [])
  {
    AllRowsExtend([], view.files[0]);
    assert [] + [view.files[0]] == view.files;
  }

  // ---- Looking ----

  /** Describing a table reads its commitment alone, and says which way that fails. */
  lemma ShowReplies(server: Server, d: Disk, t: TableRef)
    requires Good(server.tau, d)
    ensures var outcome := Handle(server, d, Show(t));
      && outcome.actions == []
      && (t !in d ==> outcome.reply == Failed(NotFound(t)))
      && (t in d && ViewOf(d[t]).commit.None? ==> outcome.reply == Failed(DbError.Io))
      && (t in d && ViewOf(d[t]).commit.Some? && !ViewOf(d[t]).commit.value.CommitFile? ==> outcome.reply == Failed(DbError.Decode))
      && (t in d && HasCommitment(ViewOf(d[t])) ==> Depicts(outcome.reply, ViewOf(d[t]).commit.value.commitment))
  {
    if t in d {
      TableFacts(server.tau, d, t);
      LaidOutContents(ViewOf(d[t]));
      if HasCommitment(ViewOf(d[t])) {
        DescribedColumns(ViewOf(d[t]).commit.value.commitment.schema);
      }
    }
  }

  /** The reply describes `commitment`: its columns in order by name and canonical type, its row count and itself. */
  predicate Depicts(reply: Reply, commitment: TableCommitment) {
    if !AllSupported(commitment.schema) then reply == Undescribable
    else
      && reply.Described? && reply.numRows == commitment.rows && reply.commitment == commitment
      && |reply.columns| == |commitment.schema|
      && forall i :: 0 <= i < |commitment.schema| ==>
           reply.columns[i].0 == commitment.schema[i].name && Some(reply.columns[i].1) == ColumnTypeName(commitment.schema[i].dataType)
  }

  /** The tables are listed in byte order, each exactly once. */
  lemma ListReplies(server: Server, d: Disk)
    ensures var outcome := Handle(server, d, List);
      && outcome.actions == [] && outcome.reply.Listed?
      && Ascending(outcome.reply.tables) && |outcome.reply.tables| == |d|
      && forall t :: t in outcome.reply.tables <==> t in d
  {
  }

  lemma ReadingFails(dir: Dir, view: View, schema: Schema)
    requires dir == LaidOut(view)
    requires forall i :: 0 <= i < |view.files| && view.files[i].ParquetFile? ==> view.files[i].batch.schema == schema
    ensures var read := ReadBatches(dir, ParquetPaths(dir));
            if read.Err? then read.error == NotParquet else ConcatBatches(schema, read.value).Ok?
  {
    FilesOfOneSchema(dir, view, schema);
    ReadsOneSchema(dir, ParquetPaths(dir), schema);
    if ReadBatches(dir, ParquetPaths(dir)).Ok? {
      ConcatOneSchema(schema, ReadBatches(dir, ParquetPaths(dir)).value);
    }
  }

  /** Reading a table fails by the first thing wrong with it. */
  lemma TableDataFails(tau: Ceremony, d: Disk, t: TableRef)
    requires Good(tau, d) && TableData(d, t).Err?
    ensures TableData(d, t).error ==
      if t !in d then NotFound(t) else if ViewOf(d[t]).files == [] then Empty else NotParquet
  {
    if t in d {
      SchemaAt(tau, d, t);
      if SchemaOf(d, t).Ok? {
        TableFacts(tau, d, t);
        ReadingFails(d[t], ViewOf(d[t]), SchemaOf(d, t).value);
      }
    }
  }

  lemma CommitmentFails(tau: Ceremony, d: Disk, t: TableRef)
    requires Good(tau, d) && CommitmentOf(d, t).Err?
    ensures CommitmentOf(d, t).error ==
      if t !in d then NotFound(t) else if ViewOf(d[t]).commit.None? then DbError.Io else DbError.Decode
  {
    if t in d {
      TableFacts(tau, d, t);
      LaidOutContents(ViewOf(d[t]));
    }
  }

  lemma QueryReplies(server: Server, d: Disk, sql: string)
    ensures var answer, outcome := Answer(server.engine, server.tau, d, sql), Handle(server, d, Query(sql));
      && outcome.actions == []
      && (answer.Ok? ==> outcome.reply == Answered(answer.value))
      && (answer.Err? ==> outcome.reply == QueryFailed(answer.error))
  {
  }

  // ---- In every interleaving ----

  /** `before` and `entry` are the first so many entries of the log and the one after them. */
  predicate Follows(log: seq<Entry>, before: seq<Entry>, entry: Entry) {
    |before| < |log| && log[..|before|] == before && log[|before|] == entry
  }

  /** A completed entry replied as its request does alone on the disk it met, and left that disk served. */
  lemma {:induction false} LoggedServed(server: Server, d: Disk, schedule: seq<Step>, before: seq<Entry>, entry: Entry)
    requires Follows(Interleave(server, Started(d), schedule).log, before, entry) && entry.completed
    ensures entry.reply == Handle(server, Replay(server, d, before), entry.request).reply
    ensures Replay(server, d, before + [entry]) == AfterServing(server, Replay(server, d, before), entry.request)
  {
    EveryInterleaving(server, d, schedule);
    var log := Interleave(server, Started(d), schedule).log;
    assert EntryHolds(server, Replay(server, d, log[..|before|]), log[|before|]);
    ReplayOne(server, d, before, entry);
    var actions := Handle(server, Replay(server, d, before), entry.request).actions;
    assert actions[..entry.written] == actions;
  }

  /** Over every interleaving: an insert that completed and replied Created left its table holding the rows
      that were there followed by exactly the rows its body decodes to, and committed to as many more. */
  lemma {:induction false} LoggedInsertStores(server: Server, d: Disk, schedule: seq<Step>, before: seq<Entry>, entry: Entry,
                                              state: Disk, after: Disk, t: TableRef, body: string)
    requires Good(server.tau, d) && Follows(Interleave(server, Started(d), schedule).log, before, entry)
    requires entry.completed && entry.request == InsertRows(t, body) && entry.reply == Created
    requires state == Replay(server, d, before) && after == Replay(server, d, before + [entry])
    ensures t in after && SchemaOf(state, t).Ok? && CommitmentOf(state, t).Ok? && CommitmentOf(after, t).Ok?
    ensures server.decode(SchemaOf(state, t).value, body).Some?
    ensures var schema := SchemaOf(state, t).value;
            var rows := server.decode(schema, body).value;
      && WideAs(rows, schema)
      && CommitmentOf(after, t).value.rows == CommitmentOf(state, t).value.rows + |rows|
      && (TableData(after, t).Ok? <==> TableData(state, t).Ok?)
      && (TableData(state, t).Ok? && |ParquetPaths(after[t])| <= LIMIT ==>
            TableData(after, t).value.schema == schema && TableData(after, t).value.rows == TableData(state, t).value.rows + rows)
  {
    LoggedServed(server, d, schedule, before, entry);
    ReplayGood(server, d, before);
    CreatedInsertFiles(server, state, t, body);
    CreatedInsertStores(server, state, t, body, SchemaOf(state, t).value, server.decode(SchemaOf(state, t).value, body).value, after);
  }

  /** Over every interleaving: a listing that completed gave the tables on the disk it met. */
  lemma {:induction false} LoggedListing(server: Server, d: Disk, schedule: seq<Step>, before: seq<Entry>, entry: Entry)
    requires Follows(Interleave(server, Started(d), schedule).log, before, entry)
    requires entry.completed && entry.request == List
    ensures entry.reply.Listed? && Ascending(entry.reply.tables)
    ensures forall t :: t in entry.reply.tables <==> t in Replay(server, d, before)
  {
    LoggedServed(server, d, schedule, before, entry);
    ListReplies(server, Replay(server, d, before));
  }
}
