/** Column types from the request that creates a table to the replies that describe and query it. */
module Schemas {
  import opened Columns
  import opened Commitments
  import opened Consistency
  import opened Handlers
  import opened History
  import opened Invariants
  import opened Layout
  import opened Queries
  import opened Results
  import opened Service
  import opened Store

  // ---- Names in, names out ----

  /** The documented name for each accepted spelling. */
  function Canonical(sqlType: SqlType): string {
    match sqlType
    case SqlBoolean => "BOOLEAN"
    case SqlBool => "BOOLEAN"
    case SqlTinyInt => "TINYINT"
    case SqlSmallInt => "SMALLINT"
    case SqlInt => "INT"
    case SqlInteger => "INT"
    case SqlBigInt => "BIGINT"
    case SqlVarchar => "VARCHAR"
    case SqlText => "VARCHAR"
    case SqlString => "VARCHAR"
    case SqlOther => ""
  }

  lemma {:induction false} ParsedColumns(columns: seq<(string, Option<SqlType>)>)
    ensures ParseColumns(columns).Some? <==> forall i :: 0 <= i < |columns| ==> ParseColumnType(columns[i].1).Some?
    ensures ParseColumns(columns).Some? ==>
      && |ParseColumns(columns).value| == |columns|
      && forall i :: 0 <= i < |columns| ==>
           ParseColumns(columns).value[i] == Field(columns[i].0, ParseColumnType(columns[i].1).value)
  {
    if columns != [] {
      ParsedColumns(columns[..|columns| - 1]);
      assert forall i :: 0 <= i < |columns| - 1 ==> columns[i] == columns[..|columns| - 1][i];
    }
  }

  lemma {:induction false} DescribedColumns(schema: Schema)
    ensures DescribeColumns(schema).Some? <==> AllSupported(schema)
    ensures DescribeColumns(schema).Some? ==>
      && |DescribeColumns(schema).value| == |schema|
      && forall i :: 0 <= i < |schema| ==>
           ColumnTypeName(schema[i].dataType).Some?
           && DescribeColumns(schema).value[i] == (schema[i].name, ColumnTypeName(schema[i].dataType).value)
  {
    if schema != [] {
      DescribedColumns(schema[..|schema| - 1]);
      assert forall i :: 0 <= i < |schema| - 1 ==> schema[i] == schema[..|schema| - 1][i];
    }
  }

  /** How many bits SQL gives an integer type. */
  function SqlBits(sqlType: SqlType): Option<nat> {
    if sqlType == SqlTinyInt then Some(8)
    else if sqlType == SqlSmallInt then Some(16)
    else if sqlType == SqlInt || sqlType == SqlInteger then Some(32)
    else if sqlType == SqlBigInt then Some(64)
    else None
  }

  /** How many bits arrow stores an integer in. */
  function ArrowBits(dataType: DataType): Option<nat> {
    match dataType
    case Int8 => Some(8)
    case Int16 => Some(16)
    case Int32 => Some(32)
    case Int64 => Some(64)
    case _ => None
  }

  /** One type: accepted exactly when it is a supported spelling, then stored as an integer of as many
      bits, a boolean or a string, and named canonically. */
  lemma TypeRoundTrips(sqlType: Option<SqlType>)
    ensures ParseColumnType(sqlType).Some? ==>
      && ArrowBits(ParseColumnType(sqlType).value) == SqlBits(sqlType.value)
      && (ParseColumnType(sqlType).value.Boolean? <==> sqlType.value.SqlBoolean? || sqlType.value.SqlBool?)
      && (ParseColumnType(sqlType).value.Utf8? <==> sqlType.value.SqlVarchar? || sqlType.value.SqlText? || sqlType.value.SqlString?)
    ensures ParseColumnType(sqlType).Some? <==> sqlType.Some? && sqlType != Some(SqlOther)
    ensures ParseColumnType(sqlType).Some? ==>
      Supported(ParseColumnType(sqlType).value) && ColumnTypeName(ParseColumnType(sqlType).value) == Some(Canonical(sqlType.value))
  {
  }

  /** What a request's columns are described as: accepted exactly when every type is one of the
      supported spellings, and then by canonical name, under the same column names in order. */
  lemma DescribedAsCreated(columns: seq<(string, Option<SqlType>)>)
    ensures ParseColumns(columns).Some? <==>
            forall i :: 0 <= i < |columns| ==> columns[i].1.Some? && columns[i].1 != Some(SqlOther)
    ensures ParseColumns(columns).Some? ==>
      && AllSupported(ParseColumns(columns).value) && AllProvable(ParseColumns(columns).value)
      && DescribeColumns(ParseColumns(columns).value).Some?
      && |DescribeColumns(ParseColumns(columns).value).value| == |columns|
      && forall i :: 0 <= i < |columns| ==>
           DescribeColumns(ParseColumns(columns).value).value[i] == (columns[i].0, Canonical(columns[i].1.value))
  {
    ParsedColumns(columns);
    forall i | 0 <= i < |columns|
      ensures ParseColumnType(columns[i].1).Some? <==> columns[i].1.Some? && columns[i].1 != Some(SqlOther)
    {
      TypeRoundTrips(columns[i].1);
    }
    if ParseColumns(columns).Some? {
      var schema := ParseColumns(columns).value;
      forall i | 0 <= i < |columns|
        ensures Supported(schema[i].dataType) && ColumnTypeName(schema[i].dataType) == Some(Canonical(columns[i].1.value))
      {
        TypeRoundTrips(columns[i].1);
      }
      DescribedColumns(schema);
    }
  }

  // ---- Concatenation never fails ----

  /** Whatever order the files come in, and however many there are: a table's batches always
      concatenate, under the schema of batch 0. */
  lemma DataConcatenates(tau: Ceremony, d: Disk, t: TableRef)
    requires Good(tau, d)
    ensures TableData(d, t) != Err(Arrow)
    ensures TableData(d, t).Ok? ==>
              t in d && ViewOf(d[t]).files != [] && ViewOf(d[t]).files[0].ParquetFile?
              && TableData(d, t).value.schema == ViewOf(d[t]).files[0].batch.schema
  {
    if t in d {
      TableFacts(tau, d, t);
      var view := ViewOf(d[t]);
      SchemaIsBatchZero(d, t, view);
      if view.files != [] && view.files[0].ParquetFile? {
        var schema := view.files[0].batch.schema;
        FilesOfOneSchema(d[t], view, schema);
        ReadsOneSchema(d[t], ParquetPaths(d[t]), schema);
        if ReadBatches(d[t], ParquetPaths(d[t])).Ok? {
          ConcatOneSchema(schema, ReadBatches(d[t], ParquetPaths(d[t])).value);
        }
      }
    }
  }

  // ---- Only created schemas are ever stored ----

  predicate StoredSchema(view: View, ok: Schema -> bool) {
    forall i :: 0 <= i < |view.files| && view.files[i].ParquetFile? ==> ok(view.files[i].batch.schema)
  }

  predicate StoredSchemaAt(d: Disk, t: TableRef, ok: Schema -> bool) {
    t in d && StoredSchema(ViewOf(d[t]), ok)
  }

  predicate AllStored(d: Disk, ok: Schema -> bool) {
    forall t {:trigger StoredSchemaAt(d, t, ok)} :: t in d ==> StoredSchemaAt(d, t, ok)
  }

  lemma TableStores(tau: Ceremony, d: Disk, e: Event, ok: Schema -> bool, t: TableRef)
    requires Good(tau, d) && t in After(tau, d, e)
    requires t in d ==> StoredSchema(ViewOf(d[t]), ok)
    requires e.op.Create? ==> ok(e.op.schema)
    ensures StoredSchema(ViewOf(After(tau, d, e)[t]), ok)
  {
    EventViews(tau, d, e, t);
    if t != e.op.t || Steps(tau, d, e) == 0 {
      assert After(tau, d, e)[t] == d[t];
    } else if e.op.Create? {
      CreateStores(e.op.schema, FirstCommitment(e.op.schema, Powers(tau, e.capacity)), Steps(tau, d, e), ok);
    } else {
      InsertStores(ViewOf(d[t]), e.op.batch, Extended(ViewOf(d[t]), e.op.batch, Powers(tau, e.capacity)), Steps(tau, d, e), ok);
    }
  }

  lemma CreateStores(schema: Schema, commitment: TableCommitment, k: nat, ok: Schema -> bool)
    requires ok(schema)
    ensures StoredSchema(CreateStage(Batch(schema, []), commitment, k), ok)
  {
  }

  lemma InsertStores(view: View, batch: RecordBatch, extended: TableCommitment, k: nat, ok: Schema -> bool)
    requires AcceptsInsert(view, batch) && StoredSchema(view, ok)
    ensures StoredSchema(InsertStage(view, batch, extended, k), ok)
  {
    assert ok(batch.schema);
  }

  /** Inserts bring in no schema that a creation did not. */
  lemma EventStores(tau: Ceremony, d: Disk, e: Event, ok: Schema -> bool)
    requires Good(tau, d) && AllStored(d, ok)
    requires e.op.Create? ==> ok(e.op.schema)
    ensures AllStored(After(tau, d, e), ok)
  {
    forall t | t in After(tau, d, e)
      ensures StoredSchemaAt(After(tau, d, e), t, ok)
    {
      assert t in d ==> StoredSchemaAt(d, t, ok);
      TableStores(tau, d, e, ok, t);
    }
  }

  lemma {:induction false} RunStores(tau: Ceremony, d: Disk, events: seq<Event>, ok: Schema -> bool)
    requires Good(tau, d) && AllStored(d, ok)
    requires forall i :: 0 <= i < |events| && events[i].op.Create? ==> ok(events[i].op.schema)
    ensures AllStored(Run(tau, d, events), ok)
  {
    if events != [] {
      RunStores(tau, d, events[..|events| - 1], ok);
      GoodRun(tau, d, events[..|events| - 1]);
      EventStores(tau, Run(tau, d, events[..|events| - 1]), events[|events| - 1], ok);
    }
  }

  lemma {:induction false} LoggedCreations(server: Server, d: Disk, log: seq<Entry>)
    ensures forall i :: 0 <= i < |EventsOf(server, d, log)| && EventsOf(server, d, log)[i].op.Create? ==>
              AllSupported(EventsOf(server, d, log)[i].op.schema)
  {
    if log != [] {
      LoggedCreations(server, d, log[..|log| - 1]);
      var request := log[|log| - 1].request;
      if request.CreateTable? {
        DescribedAsCreated(request.columns);
      }
    }
  }

  function Supports(): Schema -> bool {
    (schema: Schema) => AllSupported(schema)
  }

  /** Replies that would mean a schema had gone wrong somewhere. */
  predicate SchemaFailure(reply: Reply) {
    || reply == Failed(SchemaMismatch) || reply == Failed(DbError.Commit) || reply == Failed(Arrow)
    || reply == Undescribable
    || reply == QueryFailed(UnprovableColumn) || reply == QueryFailed(Snapshot(Arrow))
  }

  lemma SupportedData(tau: Ceremony, d: Disk, t: TableRef)
    requires Good(tau, d) && AllStored(d, Supports()) && TableData(d, t).Ok?
    ensures AllProvable(TableData(d, t).value.schema)
  {
    DataConcatenates(tau, d, t);
    assert StoredSchemaAt(d, t, Supports());
    assert Supports()(ViewOf(d[t]).files[0].batch.schema);
  }

  lemma SupportedCommitment(tau: Ceremony, d: Disk, t: TableRef)
    requires Good(tau, d) && AllStored(d, Supports()) && CommitmentOf(d, t).Ok?
    ensures AllSupported(CommitmentOf(d, t).value.schema)
  {
    TableFacts(tau, d, t);
    CommitmentView(d, t);
    assert StoredSchemaAt(d, t, Supports());
    assert Supports()(ViewOf(d[t]).files[0].batch.schema);
  }

  lemma {:induction false} DataErrors(tau: Ceremony, d: Disk, refs: seq<TableRef>)
    requires Good(tau, d)
    ensures Data(d, refs) != Err(Arrow)
  {
    if refs != [] {
      DataErrors(tau, d, refs[..|refs| - 1]);
      DataConcatenates(tau, d, refs[|refs| - 1]);
    }
  }

  lemma {:induction false} CommitmentErrors(d: Disk, refs: seq<TableRef>)
    ensures CommitmentsOf(d, refs) != Err(Arrow)
  {
    if refs != [] {
      CommitmentErrors(d, refs[..|refs| - 1]);
    }
  }

  lemma DataProvable(tau: Ceremony, d: Disk, refs: seq<TableRef>)
    requires Good(tau, d) && AllStored(d, Supports()) && Data(d, refs).Ok?
    ensures forall t :: t in Data(d, refs).value ==> AllProvable(Data(d, refs).value[t].schema)
  {
    DataContents(d, refs);
    forall t | t in Data(d, refs).value
      ensures AllProvable(Data(d, refs).value[t].schema)
    {
      SupportedData(tau, d, t);
    }
  }

  lemma QuerySchemasSound(server: Server, d: Disk, sql: string)
    requires Good(server.tau, d) && AllStored(d, Supports())
    ensures !SchemaFailure(ReplyToQuery(Answer(server.engine, server.tau, d, sql)))
  {
    var refs := server.engine.refs(sql);
    if refs.Some? {
      DataErrors(server.tau, d, refs.value);
      CommitmentErrors(d, refs.value);
      if Data(d, refs.value).Ok? {
        DataProvable(server.tau, d, refs.value);
      }
    }
  }

  /** Rows decoded under the lock against the stored schema cannot mismatch it. */
  lemma InsertMatchesSchema(server: Server, d: Disk, t: TableRef, body: string)
    ensures !SchemaFailure(Handle(server, d, InsertRows(t, body)).reply)
  {
  }

  lemma HandledSchemasSound(server: Server, d: Disk, request: Request)
    requires Good(server.tau, d) && AllStored(d, Supports())
    ensures !SchemaFailure(Handle(server, d, request).reply)
  {
    match request
    case CreateTable(_, columns) => DescribedAsCreated(columns);
    case InsertRows(t, body) => InsertMatchesSchema(server, d, t, body);
    case Show(t) =>
      if CommitmentOf(d, t).Ok? {
        SupportedCommitment(server.tau, d, t);
        DescribedColumns(CommitmentOf(d, t).value.schema);
      }
    case List =>
    case Query(sql) => QuerySchemasSound(server, d, sql);
  }

  /** An insert the server decodes and accepts, and has no setup left for. */
  predicate OutOfRoom(server: Server, d: Disk, request: Request) {
    && request.InsertRows? && SchemaOf(d, request.t).Ok? && CommitmentOf(d, request.t).Ok?
    && DecodeRows(server, SchemaOf(d, request.t).value, request.body).Some?
    && CommitmentOf(d, request.t).value.rows + |DecodeRows(server, SchemaOf(d, request.t).value, request.body).value.rows| > server.capacity
  }

  /** Of the reasons an append could fail, only want of room is ever one. */
  lemma AppendFailsForRoom(server: Server, d: Disk, request: Request)
    requires Good(server.tau, d)
    ensures Handle(server, d, request).reply == Failed(DbError.Append) <==> OutOfRoom(server, d, request)
  {
    match request
    case InsertRows(t, body) =>
      if t in d {
        TableFacts(server.tau, d, t);
        SchemaIsBatchZero(d, t, ViewOf(d[t]));
        CommitmentView(d, t);
        if SchemaOf(d, t).Ok? && DecodeRows(server, SchemaOf(d, t).value, body).Some? {
          AppendFailsIff(server.tau, d, t, DecodeRows(server, SchemaOf(d, t).value, body).value, server.capacity);
        }
      }
    case CreateTable(_, _) =>
    case Show(_) =>
    case List =>
    case Query(_) =>
  }

  /** Every database a server can find: numbered files, sound commitments, supported types. */
  ghost predicate Servable(tau: Ceremony, d: Disk) {
    Good(tau, d) && AllStored(d, Supports())
  }

  lemma {:induction false} LogStaysServable(server: Server, d: Disk, log: seq<Entry>)
    requires Servable(server.tau, d)
    ensures Servable(server.tau, Replay(server, d, log))
  {
    ReplayGood(server, d, log);
    ReplayIsRun(server, d, log);
    LoggedCreations(server, d, log);
    RunStores(server.tau, d, EventsOf(server, d, log), Supports());
  }

  /** In every interleaving of handlers no reply reports a schema gone wrong: not a mismatch, not a
      failed concatenation or commitment, not an undescribable column, and proving never meets a type
      it has no column for. An append fails exactly for want of room, so never for a schema. */
  lemma {:induction false} NoSchemaFailures(server: Server, d: Disk, schedule: seq<Step>, i: nat)
    requires Servable(server.tau, d)
    requires i < |Interleave(server, Started(d), schedule).log|
    ensures var log := Interleave(server, Started(d), schedule).log;
      && !SchemaFailure(log[i].reply)
      && (log[i].reply == Failed(DbError.Append) <==> log[i].completed && OutOfRoom(server, Replay(server, d, log[..i]), log[i].request))
  {
    EveryInterleaving(server, d, schedule);
    var log := Interleave(server, Started(d), schedule).log;
    var state := Replay(server, d, log[..i]);
    assert EntryHolds(server, state, log[i]);
    LogStaysServable(server, d, log[..i]);
    HandledSchemasSound(server, state, log[i].request);
    AppendFailsForRoom(server, state, log[i].request);
  }

  /** Showing a table whose commitment matches its data reports the data's columns, by canonical
      name, and its row count, both read from the commitment alone. */
  lemma ShowDescribesTable(server: Server, d: Disk, t: TableRef)
    requires Good(server.tau, d) && AllStored(d, Supports()) && Matches(server.tau, d, t)
    ensures var table := TableData(d, t).value;
            var reply := Handle(server, d, Show(t)).reply;
      && reply.Described? && reply.numRows == |table.rows| && reply.commitment == CommitmentTo(server.tau, table)
      && |reply.columns| == |table.schema|
      && forall i :: 0 <= i < |table.schema| ==>
           reply.columns[i].0 == table.schema[i].name && Some(reply.columns[i].1) == ColumnTypeName(table.schema[i].dataType)
  {
    SupportedCommitment(server.tau, d, t);
    DescribedColumns(CommitmentOf(d, t).value.schema);
  }

  // ---- Without the handlers' guard ----

  /** A table with a commitment, readable or torn, has only provable columns. */
  predicate CommittedProvable(view: View) {
    view.commit.Some? && view.files != [] && view.files[0].ParquetFile? ==> AllProvable(view.files[0].batch.schema)
  }

  predicate CommittedProvableAt(d: Disk, t: TableRef) {
    t in d && CommittedProvable(ViewOf(d[t]))
  }

  predicate AllCommittedProvable(d: Disk) {
    forall t {:trigger CommittedProvableAt(d, t)} :: t in d ==> CommittedProvableAt(d, t)
  }

  lemma EventCommitsProvableAt(tau: Ceremony, d: Disk, e: Event, t: TableRef)
    requires Good(tau, d) && t in After(tau, d, e) && (t in d ==> CommittedProvable(ViewOf(d[t])))
    ensures CommittedProvable(ViewOf(After(tau, d, e)[t]))
  {
    EventViews(tau, d, e, t);
    if t != e.op.t || Steps(tau, d, e) == 0 {
      assert After(tau, d, e)[t] == d[t];
    } else if e.op.Create? {
      assert Steps(tau, d, e) > 3 ==> AllProvable(e.op.schema);
    }
  }

  lemma EventCommitsProvable(tau: Ceremony, d: Disk, e: Event)
    requires Good(tau, d) && AllCommittedProvable(d)
    ensures AllCommittedProvable(After(tau, d, e))
  {
    forall t | t in After(tau, d, e)
      ensures CommittedProvableAt(After(tau, d, e), t)
    {
      assert t in d ==> CommittedProvableAt(d, t);
      EventCommitsProvableAt(tau, d, e, t);
    }
  }

  /** Whoever creates tables, through the handlers or not: a column type without a prover-side
      counterpart is only ever found in a table that has no commitment. */
  lemma {:induction false} UnprovableIsUncommitted(tau: Ceremony, events: seq<Event>)
    ensures AllCommittedProvable(Run(tau, map[], events))
  {
    if events != [] {
      UnprovableIsUncommitted(tau, events[..|events| - 1]);
      GoodRun(tau, map[], events[..|events| - 1]);
      EventCommitsProvable(tau, Run(tau, map[], events[..|events| - 1]), events[|events| - 1]);
    }
  }

  /** What asking for a table's schema, before proving, would tell. */
  predicate UnprovableAt(d: Disk, t: TableRef) {
    SchemaOf(d, t).Ok? && !AllProvable(SchemaOf(d, t).value)
  }

  lemma DataUnprovableIff(tau: Ceremony, d: Disk, t: TableRef)
    requires Good(tau, d) && TableData(d, t).Ok?
    ensures !AllProvable(TableData(d, t).value.schema) <==> UnprovableAt(d, t)
  {
    DataConcatenates(tau, d, t);
    TableFacts(tau, d, t);
    SchemaIsBatchZero(d, t, ViewOf(d[t]));
  }

  lemma AnswerPanics(engine: Engine, tau: Ceremony, d: Disk, sql: string)
    ensures Answer(engine, tau, d, sql) == Err(UnprovableColumn) <==>
            engine.refs(sql).Some? && Data(d, engine.refs(sql).value).Ok? && Unproved(Data(d, engine.refs(sql).value).value)
  {
  }

  predicate Unproved(tables: map<TableRef, RecordBatch>) {
    exists t :: t in tables && !AllProvable(tables[t].schema)
  }

  /** When proving panics: all the data reads back, and some table's stored schema has a column type
      without a prover-side counterpart. */
  lemma ProvingPanicsIff(engine: Engine, tau: Ceremony, d: Disk, sql: string)
    requires Good(tau, d)
    ensures Answer(engine, tau, d, sql) == Err(UnprovableColumn) <==>
      && engine.refs(sql).Some?
      && (forall t :: t in engine.refs(sql).value ==> TableData(d, t).Ok?)
      && exists t :: t in engine.refs(sql).value && UnprovableAt(d, t)
  {
    AnswerPanics(engine, tau, d, sql);
    if engine.refs(sql).Some? {
      DataContents(d, engine.refs(sql).value);
      forall t | t in engine.refs(sql).value && TableData(d, t).Ok?
        ensures !AllProvable(TableData(d, t).value.schema) <==> UnprovableAt(d, t)
      {
        DataUnprovableIff(tau, d, t);
      }
      if t :| t in engine.refs(sql).value && UnprovableAt(d, t) && Data(d, engine.refs(sql).value).Ok? {
        assert t in Data(d, engine.refs(sql).value).value;
      }
    }
  }

  /** `e` creates table `t` under `schema` and gets as far as storing its first batch. */
  predicate CreatesUnder(tau: Ceremony, d: Disk, e: Event, t: TableRef, schema: Schema) {
    e.op == Op.Create(t, schema) && Steps(tau, d, e) >= 3
  }

  lemma SchemaAt(tau: Ceremony, d: Disk, t: TableRef)
    requires Good(tau, d) && t in d
    ensures SchemaOf(d, t) == if ViewOf(d[t]).files == [] then Err(Empty) else ReadSchema(ViewOf(d[t]).files[0])
  {
    TableFacts(tau, d, t);
    SchemaIsBatchZero(d, t, ViewOf(d[t]));
  }

  lemma EventSchema(tau: Ceremony, d: Disk, e: Event, t: TableRef, schema: Schema)
    requires Good(tau, d)
    ensures SchemaOf(After(tau, d, e), t) == Ok(schema) <==> SchemaOf(d, t) == Ok(schema) || CreatesUnder(tau, d, e, t, schema)
  {
    EventViews(tau, d, e, t);
    GoodAfter(tau, d, e);
    if t in d {
      SchemaAt(tau, d, t);
    }
    if t in After(tau, d, e) {
      SchemaAt(tau, After(tau, d, e), t);
    }
  }

  predicate CreatedAt(tau: Ceremony, d: Disk, events: seq<Event>, i: nat, t: TableRef, schema: Schema) {
    i < |events| && CreatesUnder(tau, Run(tau, d, events[..i]), events[i], t, schema)
  }

  predicate WasCreated(tau: Ceremony, d: Disk, events: seq<Event>, t: TableRef, schema: Schema) {
    exists i :: 0 <= i < |events| && CreatedAt(tau, d, events, i, t, schema)
  }

  lemma {:induction false} CreatedOneMore(tau: Ceremony, d: Disk, before: seq<Event>, e: Event, t: TableRef, schema: Schema)
    ensures WasCreated(tau, d, before + [e], t, schema) <==>
            WasCreated(tau, d, before, t, schema) || CreatesUnder(tau, Run(tau, d, before), e, t, schema)
  {
    var events := before + [e];
    assert events[..|before|] == before;
    forall i | 0 <= i < |before|
      ensures CreatedAt(tau, d, events, i, t, schema) <==> CreatedAt(tau, d, before, i, t, schema)
    {
      assert events[..i] == before[..i];
    }
    assert CreatedAt(tau, d, events, |before|, t, schema) <==> CreatesUnder(tau, Run(tau, d, before), e, t, schema);
    if i :| 0 <= i < |before| && CreatedAt(tau, d, before, i, t, schema) {
      assert CreatedAt(tau, d, events, i, t, schema);
    }
  }

  /** A table has the schema of the creation that stored its first batch, and no insert, no restart
      and no later creation gives it another. */
  lemma {:induction false} SchemaIsCreated(tau: Ceremony, d: Disk, events: seq<Event>, t: TableRef, schema: Schema)
    requires Good(tau, d)
    ensures SchemaOf(Run(tau, d, events), t) == Ok(schema) <==> SchemaOf(d, t) == Ok(schema) || WasCreated(tau, d, events, t, schema)
  {
    if events != [] {
      var before, e := events[..|events| - 1], events[|events| - 1];
      assert events == before + [e];
      SchemaIsCreated(tau, d, before, t, schema);
      GoodRun(tau, d, before);
      EventSchema(tau, Run(tau, d, before), e, t, schema);
      CreatedOneMore(tau, d, before, e, t, schema);
    }
  }

  /** The `i`-th event creates its table below the handlers, with an unprovable column, and gets as
      far as storing its first batch. */
  predicate StoresUnprovable(tau: Ceremony, events: seq<Event>, i: nat) {
    && i < |events| && events[i].op.Create? && !AllProvable(events[i].op.schema)
    && CreatedAt(tau, map[], events, i, events[i].op.t, events[i].op.schema)
  }

  lemma {:induction false} UnprovableIffCreated(tau: Ceremony, events: seq<Event>, t: TableRef)
    ensures UnprovableAt(Run(tau, map[], events), t) <==> exists i :: 0 <= i < |events| && events[i].op.t == t && StoresUnprovable(tau, events, i)
  {
    var d := Run(tau, map[], events);
    if UnprovableAt(d, t) {
      SchemaIsCreated(tau, map[], events, t, SchemaOf(d, t).value);
      var i :| 0 <= i < |events| && CreatedAt(tau, map[], events, i, t, SchemaOf(d, t).value);
      assert StoresUnprovable(tau, events, i);
    }
    if i :| 0 <= i < |events| && events[i].op.t == t && StoresUnprovable(tau, events, i) {
      SchemaIsCreated(tau, map[], events, t, events[i].op.schema);
    }
  }

  /** Over whole histories: proving over data that reads back panics exactly when a table it is over
      was created with an unprovable column. */
  lemma {:induction false} HistoryPanicsIff(engine: Engine, tau: Ceremony, events: seq<Event>, sql: string)
    requires engine.refs(sql).Some?
    requires forall t :: t in engine.refs(sql).value ==> TableData(Run(tau, map[], events), t).Ok?
    ensures Answer(engine, tau, Run(tau, map[], events), sql) == Err(UnprovableColumn) <==>
            exists i :: 0 <= i < |events| && events[i].op.t in engine.refs(sql).value && StoresUnprovable(tau, events, i)
  {
    var d, refs := Run(tau, map[], events), engine.refs(sql).value;
    GoodRun(tau, map[], events);
    ProvingPanicsIff(engine, tau, d, sql);
    if t :| t in refs && UnprovableAt(d, t) {
      UnprovableIffCreated(tau, events, t);
    }
    if i :| 0 <= i < |events| && events[i].op.t in refs && StoresUnprovable(tau, events, i) {
      UnprovableIffCreated(tau, events, events[i].op.t);
    }
  }

  const FLOATS: Schema := [Field("x", Foreign("Float16", false))]

  function Refused(): Event {
    Event(Op.Create("db.t", FLOATS), 0, 5)
  }

  lemma RefusedLeaves(tau: Ceremony)
    ensures Good(tau, After(tau, map[], Refused())) && "db.t" in After(tau, map[], Refused())
    ensures ViewOf(After(tau, map[], Refused())["db.t"]) == View([ParquetFile(Batch(FLOATS, []))], None)
  {
    assert !Provable(FLOATS[0].dataType);
    EventViews(tau, map[], Refused(), "db.t");
    GoodAfter(tau, map[], Refused());
  }

  lemma RefusedReads(tau: Ceremony, d: Disk)
    requires Good(tau, d) && "db.t" in d && ViewOf(d["db.t"]) == View([ParquetFile(Batch(FLOATS, []))], None)
    ensures TableData(d, "db.t") == Ok(Batch(FLOATS, []))
    ensures CommitmentOf(d, "db.t") == Err(DbError.Io)
  {
    var view := ViewOf(d["db.t"]);
    TableFacts(tau, d, "db.t");
    PathsAreNumbered(view);
    DataReadable(tau, d, "db.t");
    AllRowsExtend([], view.files[0]);
    assert [] + [view.files[0]] == view.files;
    LaidOutContents(view);
  }

  lemma ProvingPanics(engine: Engine, tau: Ceremony, d: Disk, sql: string)
    requires TableData(d, "db.t") == Ok(Batch(FLOATS, [])) && engine.refs(sql) == Some(["db.t"])
    ensures Answer(engine, tau, d, sql) == Err(UnprovableColumn)
  {
    DataContents(d, ["db.t"]);
    assert "db.t" in Data(d, ["db.t"]).value;
    assert !Provable(FLOATS[0].dataType);
  }

  /** Such a table can be there, and proving over it panics: creating it stores its batch before the
      commitment that would have turned its schema down. */
  lemma UnprovableTable(engine: Engine, tau: Ceremony, sql: string)
    ensures var d := Run(tau, map[], [Event(Op.Create("db.t", FLOATS), 0, 5)]);
      && TableData(d, "db.t") == Ok(Batch(FLOATS, []))
      && CommitmentOf(d, "db.t") == Err(DbError.Io)
      && (engine.refs(sql) == Some(["db.t"]) ==> Answer(engine, tau, d, sql) == Err(UnprovableColumn))
  {
    RunOneMore(tau, map[], [], Refused());
    assert [] + [Refused()] == [Refused()];
    RefusedLeaves(tau);
    RefusedReads(tau, After(tau, map[], Refused()));
    if engine.refs(sql) == Some(["db.t"]) {
      ProvingPanics(engine, tau, After(tau, map[], Refused()), sql);
    }
  }
}
