/** What a query answers with, and which responses verify, told by the engine, the data and the
    commitments alone. */
module Verdicts {
  import opened Coerce
  import opened Columns
  import opened Commitments
  import opened Queries
  import opened Results
  import opened Store

  // ---- Collecting stops at the first failure ----

  predicate FirstUnreadable(d: Disk, refs: seq<TableRef>, i: int) {
    0 <= i < |refs| && TableData(d, refs[i]).Err? && forall j :: 0 <= j < i ==> TableData(d, refs[j]).Ok?
  }

  predicate FirstUncommitted(d: Disk, refs: seq<TableRef>, i: int) {
    0 <= i < |refs| && CommitmentOf(d, refs[i]).Err? && forall j :: 0 <= j < i ==> CommitmentOf(d, refs[j]).Ok?
  }

  predicate FirstNotGiven(refs: seq<TableRef>, commitments: map<TableRef, TableCommitment>, i: int) {
    0 <= i < |refs| && refs[i] !in commitments && forall j :: 0 <= j < i ==> refs[j] in commitments
  }

  lemma PrefixReads(d: Disk, refs: seq<TableRef>)
    requires Data(d, refs).Ok?
    ensures forall i :: 0 <= i < |refs| ==> TableData(d, refs[i]).Ok?
  {
    DataContents(d, refs);
  }

  lemma OneMoreTable(d: Disk, before: seq<TableRef>, t: TableRef)
    ensures Data(d, before).Err? ==> Data(d, before + [t]) == Data(d, before)
    ensures Data(d, before).Ok? && Data(d, before + [t]).Err? ==>
              TableData(d, t).Err? && Data(d, before + [t]) == Err(TableData(d, t).error)
  {
    assert (before + [t])[..|before|] == before;
  }

  lemma {:induction false} DataStops(d: Disk, refs: seq<TableRef>) returns (i: nat)
    requires Data(d, refs).Err?
    ensures FirstUnreadable(d, refs, i) && Data(d, refs) == Err(TableData(d, refs[i]).error)
  {
    var before, t := refs[..|refs| - 1], refs[|refs| - 1];
    assert refs == before + [t];
    OneMoreTable(d, before, t);
    if Data(d, before).Err? {
      i := DataStops(d, before);
    } else {
      i := |before|;
      PrefixReads(d, before);
    }
  }

  lemma {:induction false} CommitmentsStop(d: Disk, refs: seq<TableRef>) returns (i: nat)
    requires CommitmentsOf(d, refs).Err?
    ensures FirstUncommitted(d, refs, i) && CommitmentsOf(d, refs) == Err(CommitmentOf(d, refs[i]).error)
  {
    var before := refs[..|refs| - 1];
    if CommitmentsOf(d, before).Err? {
      i := CommitmentsStop(d, before);
    } else {
      i := |before|;
      CommitmentsContents(d, before);
      forall j | 0 <= j < i ensures CommitmentOf(d, refs[j]).Ok? { assert refs[j] == before[j]; }
    }
  }

  /** What `verify` makes of a commitment it cannot pin: undecodable, or not there. */
  function PinError(error: DbError): CliError {
    if error == DbError.Decode then CliError.Decode else CliError.Io
  }

  lemma {:induction false} PinStops(d: Disk, refs: seq<TableRef>) returns (i: nat)
    requires Pin(d, refs).Err?
    ensures FirstUncommitted(d, refs, i) && Pin(d, refs) == Err(PinError(CommitmentOf(d, refs[i]).error))
  {
    var before := refs[..|refs| - 1];
    if Pin(d, before).Err? {
      i := PinStops(d, before);
    } else {
      i := |before|;
      PinContents(d, before);
      PinnedIsCommitment(d, refs[i]);
      forall j | 0 <= j < i ensures CommitmentOf(d, refs[j]).Ok? { assert refs[j] == before[j]; }
    }
  }

  lemma {:induction false} SelfReportedStops(tables: map<TableRef, QueriedTable>, order: seq<TableRef>)
    requires forall t :: t in order ==> t in tables
    ensures SelfReported(tables, order).Err? ==> SelfReported(tables, order).error == CliError.Decode
  {
    if order != [] {
      SelfReportedStops(tables, order[..|order| - 1]);
    }
  }

  // ---- What a query answers ----

  predicate AllReadable(d: Disk, refs: seq<TableRef>) {
    forall t :: t in refs ==> TableData(d, t).Ok?
  }

  predicate AllCommitted(d: Disk, refs: seq<TableRef>) {
    forall t :: t in refs ==> CommitmentOf(d, t).Ok?
  }

  /** Every table's data as one disk has it. */
  function DataAt(d: Disk, refs: seq<TableRef>): map<TableRef, RecordBatch>
    requires AllReadable(d, refs)
  {
    map t | t in refs :: TableData(d, t).value
  }

  function SchemasIn(tables: map<TableRef, RecordBatch>): map<TableRef, Schema> {
    map t | t in tables :: tables[t].schema
  }

  predicate AllProvableIn(tables: map<TableRef, RecordBatch>) {
    forall t :: t in tables ==> AllProvable(tables[t].schema)
  }

  /** Some scalar column under an integer field holds a value out of that field's range. */
  predicate AnyOverflow(table: OwnedTable, fields: seq<ColumnType>) {
    exists i :: 0 <= i < |table| && i < |fields| && Overflows(table[i].1, fields[i])
  }

  /** `rows` is `result` with each column read at its field's type. */
  predicate CoercedTable(result: OwnedTable, fields: seq<ColumnType>, rows: OwnedTable) {
    && |rows| == (if |fields| < |result| then |fields| else |result|)
    && forall i :: 0 <= i < |rows| ==> rows[i].0 == result[i].0 && Coerced(result[i].1, fields[i], rows[i].1)
  }

  /** The engine can plan and evaluate `sql` over these tables. */
  predicate Evaluates(engine: Engine, sql: string, tables: map<TableRef, RecordBatch>) {
    && engine.plan(sql, SchemasIn(tables)).Some?
    && engine.evaluate(engine.plan(sql, SchemasIn(tables)).value, tables).Some?
  }

  /** The one proof there is of `sql` over these tables. */
  function ProofAt(engine: Engine, tau: Ceremony, sql: string, tables: map<TableRef, RecordBatch>): Proof
    requires Evaluates(engine, sql, tables)
  {
    var plan := engine.plan(sql, SchemasIn(tables)).value;
    Proof(plan, map t | t in tables :: CommitmentTo(tau, tables[t]), engine.evaluate(plan, tables).value)
  }

  lemma ProvingEnds(engine: Engine, tau: Ceremony, sql: string, tables: map<TableRef, RecordBatch>)
    ensures var proof := ProveOver(engine, tau, sql, tables);
      && (!AllProvableIn(tables) ==> proof == Err(UnprovableColumn))
      && (AllProvableIn(tables) && engine.plan(sql, SchemasIn(tables)).None? ==> proof == Err(NoPlan))
      && (AllProvableIn(tables) && engine.plan(sql, SchemasIn(tables)).Some? && !Evaluates(engine, sql, tables) ==> proof == Err(CannotProve))
      && (AllProvableIn(tables) && Evaluates(engine, sql, tables) ==> proof == Ok(ProofAt(engine, tau, sql, tables)))
  {
    assert SchemasIn(tables) == SchemasOfData(tables);
  }

  /** How building the response ends. */
  lemma BuildingEnds(proof: Proof, commitments: map<TableRef, TableCommitment>)
    ensures var built := BuildResponse(proof, commitments);
      if AnyOverflow(proof.result, proof.plan.fields) then built == Err(Overflow)
      else
        && built.Ok? && built.value.proof == ProofBlob(proof)
        && CoercedTable(proof.result, proof.plan.fields, built.value.rows)
        && built.value.tables.Keys == commitments.Keys
        && forall t :: t in commitments ==> built.value.tables[t] == QueriedTable(CommitmentBlob(commitments[t]), commitments[t].rows)
  {
    AllOrNothing(proof.result, proof.plan.fields);
  }

  /** Everything a query needs of the disk and the engine to be answered. */
  predicate Answerable(engine: Engine, tau: Ceremony, d: Disk, sql: string, refs: seq<TableRef>) {
    && AllReadable(d, refs) && AllProvableIn(DataAt(d, refs))
    && Evaluates(engine, sql, DataAt(d, refs))
    && AllCommitted(d, refs)
    && !AnyOverflow(ProofAt(engine, tau, sql, DataAt(d, refs)).result, ProofAt(engine, tau, sql, DataAt(d, refs)).plan.fields)
  }

  /** `response` carries the proof of `sql` over the disk's data, its result with every column read at
      its declared type, and each table's stored commitment and row count. */
  ghost predicate Answers(engine: Engine, tau: Ceremony, d: Disk, sql: string, refs: seq<TableRef>, response: Response)
    requires Answerable(engine, tau, d, sql, refs)
  {
    var proof := ProofAt(engine, tau, sql, DataAt(d, refs));
    && response.proof == ProofBlob(proof)
    && CoercedTable(proof.result, proof.plan.fields, response.rows)
    && (forall t :: t in response.tables <==> t in refs)
    && forall t :: t in refs ==>
         response.tables[t] == QueriedTable(CommitmentBlob(CommitmentOf(d, t).value), CommitmentOf(d, t).value.rows)
  }

  lemma AnswerStages(engine: Engine, tau: Ceremony, d: Disk, sql: string, refs: seq<TableRef>)
    requires engine.refs(sql) == Some(refs)
    ensures Data(d, refs).Ok? <==> AllReadable(d, refs)
    ensures AllReadable(d, refs) ==>
      var proof := ProveOver(engine, tau, sql, DataAt(d, refs));
      if proof.Err? then Answer(engine, tau, d, sql) == Err(proof.error)
      else if CommitmentsOf(d, refs).Err? then Answer(engine, tau, d, sql) == Err(Snapshot(CommitmentsOf(d, refs).error))
      else Answer(engine, tau, d, sql) == BuildResponse(proof.value, CommitmentsOf(d, refs).value)
    ensures !AllReadable(d, refs) ==> Data(d, refs).Err? && Answer(engine, tau, d, sql) == Err(Snapshot(Data(d, refs).error))
  {
    DataContents(d, refs);
  }

  lemma AnsweredOver(engine: Engine, tau: Ceremony, d: Disk, sql: string, refs: seq<TableRef>)
    requires engine.refs(sql) == Some(refs)
    ensures Answer(engine, tau, d, sql).Ok? <==> Answerable(engine, tau, d, sql, refs)
    ensures Answer(engine, tau, d, sql).Ok? ==> Answers(engine, tau, d, sql, refs, Answer(engine, tau, d, sql).value)
  {
    AnswerStages(engine, tau, d, sql, refs);
    CommitmentsContents(d, refs);
    if AllReadable(d, refs) {
      ProvingEnds(engine, tau, sql, DataAt(d, refs));
      if AllProvableIn(DataAt(d, refs)) && Evaluates(engine, sql, DataAt(d, refs)) && AllCommitted(d, refs) {
        BuildingEnds(ProofAt(engine, tau, sql, DataAt(d, refs)), CommitmentsOf(d, refs).value);
      }
    }
  }

  /** A query is answered exactly when it can be, and then with the engine's own result over the data. */
  lemma AnsweredIff(engine: Engine, tau: Ceremony, d: Disk, sql: string)
    ensures Answer(engine, tau, d, sql).Ok? <==> engine.refs(sql).Some? && Answerable(engine, tau, d, sql, engine.refs(sql).value)
    ensures Answer(engine, tau, d, sql).Ok? ==>
              Answers(engine, tau, d, sql, engine.refs(sql).value, Answer(engine, tau, d, sql).value)
  {
    if engine.refs(sql).Some? {
      AnsweredOver(engine, tau, d, sql, engine.refs(sql).value);
    }
  }

  /** Why a query is not answered, in the order the reasons are met. */
  lemma UnansweredBecause(engine: Engine, tau: Ceremony, d: Disk, sql: string, refs: seq<TableRef>)
    requires Answer(engine, tau, d, sql).Err?
    ensures engine.refs(sql).None? ==> Answer(engine, tau, d, sql).error == BadSql
    ensures engine.refs(sql) == Some(refs) ==>
      var error := Answer(engine, tau, d, sql).error;
      if !AllReadable(d, refs) then exists i :: FirstUnreadable(d, refs, i) && error == Snapshot(TableData(d, refs[i]).error)
      else if !AllProvableIn(DataAt(d, refs)) then error == UnprovableColumn
      else if engine.plan(sql, SchemasIn(DataAt(d, refs))).None? then error == NoPlan
      else if !Evaluates(engine, sql, DataAt(d, refs)) then error == CannotProve
      else if !AllCommitted(d, refs) then exists i :: FirstUncommitted(d, refs, i) && error == Snapshot(CommitmentOf(d, refs[i]).error)
      else error == Overflow
  {
    if engine.refs(sql) == Some(refs) {
      AnswerStages(engine, tau, d, sql, refs);
      CommitmentsContents(d, refs);
      if !AllReadable(d, refs) {
        var i := DataStops(d, refs);
      } else {
        ProvingEnds(engine, tau, sql, DataAt(d, refs));
        if AllProvableIn(DataAt(d, refs)) && Evaluates(engine, sql, DataAt(d, refs)) {
          if AllCommitted(d, refs) {
            BuildingEnds(ProofAt(engine, tau, sql, DataAt(d, refs)), CommitmentsOf(d, refs).value);
          } else {
            var i := CommitmentsStop(d, refs);
          }
        }
      }
    }
  }

  // ---- Which responses verify ----

  /** A commitment to check table `t` against: the directory's, or with no directory the response's own. */
  predicate Given(directory: Option<Disk>, response: Response, t: TableRef)
    requires t in response.tables
  {
    if directory.Some? then CommitmentOf(directory.value, t).Ok? else response.tables[t].commitment.CommitmentBlob?
  }

  function GivenFor(directory: Option<Disk>, response: Response, t: TableRef): TableCommitment
    requires t in response.tables && Given(directory, response, t)
  {
    if directory.Some? then CommitmentOf(directory.value, t).value else response.tables[t].commitment.commitment
  }

  predicate AllGiven(directory: Option<Disk>, response: Response) {
    forall t :: t in response.tables ==> Given(directory, response, t)
  }

  function Givens(directory: Option<Disk>, response: Response): map<TableRef, TableCommitment>
    requires AllGiven(directory, response)
  {
    map t | t in response.tables :: GivenFor(directory, response, t)
  }

  function GivenSchemas(directory: Option<Disk>, response: Response): map<TableRef, Schema>
    requires AllGiven(directory, response)
  {
    map t | t in response.tables :: GivenFor(directory, response, t).schema
  }

  /** `proof` is for what `sql` plans to under the schemas given, and for the very commitments given to
      the tables it refers to. */
  predicate ProvesSql(engine: Engine, sql: string, commitments: map<TableRef, TableCommitment>, proof: Proof) {
    && engine.refs(sql).Some?
    && engine.plan(sql, map t | t in commitments :: commitments[t].schema) == Some(proof.plan)
    && forall t :: t in engine.refs(sql).value ==>
         t in commitments && t in proof.commitments && proof.commitments[t] == commitments[t]
  }

  lemma MissedIff(refs: seq<TableRef>, commitments: map<TableRef, TableCommitment>, t: TableRef)
    ensures FirstMissing(refs, commitments) == Some(t) <==> exists i :: FirstNotGiven(refs, commitments, i) && refs[i] == t
  {
    MissingIsFirst(refs, commitments, t);
    if FirstMissing(refs, commitments) == Some(t) {
      var i :| 0 <= i < |refs| && refs[i] == t && t !in commitments && forall j :: 0 <= j < i ==> refs[j] in commitments;
      assert FirstNotGiven(refs, commitments, i);
    }
  }

  /** Any proof, any commitments: what verifying gives. */
  lemma ProofVerdict(engine: Engine, sql: string, commitments: map<TableRef, TableCommitment>, proof: Proof)
    ensures var verdict := VerifyProof(engine, sql, commitments, proof);
      && (verdict.Ok? <==> ProvesSql(engine, sql, commitments, proof))
      && (verdict.Ok? ==> verdict.value == proof.result)
  {
    if engine.refs(sql).Some? {
      NoneMissing(engine.refs(sql).value, commitments);
      assert SchemasOfCommitments(commitments) == map t | t in commitments :: commitments[t].schema;
    }
  }

  /** Why a proof does not verify, in the order the reasons are met. */
  lemma UnprovedBecause(engine: Engine, sql: string, commitments: map<TableRef, TableCommitment>, proof: Proof, refs: seq<TableRef>)
    requires VerifyProof(engine, sql, commitments, proof).Err?
    ensures engine.refs(sql).None? ==> VerifyProof(engine, sql, commitments, proof).error == Parse
    ensures engine.refs(sql) == Some(refs) ==>
      var error := VerifyProof(engine, sql, commitments, proof).error;
      if exists t :: t in refs && t !in commitments then
        exists i :: FirstNotGiven(refs, commitments, i) && error == UnknownTable(refs[i])
      else if engine.plan(sql, map t | t in commitments :: commitments[t].schema).None? then error == Planning
      else error == BadProof
  {
    if engine.refs(sql) == Some(refs) {
      NoneMissing(refs, commitments);
      assert SchemasOfCommitments(commitments) == map t | t in commitments :: commitments[t].schema;
      if FirstMissing(refs, commitments).Some? {
        MissedIff(refs, commitments, FirstMissing(refs, commitments).value);
      }
    }
  }

  lemma GivensCollected(directory: Option<Disk>, response: Response, order: seq<TableRef>)
    requires Walks(order, response.tables)
    ensures var collected := if directory.Some? then Pin(directory.value, order) else SelfReported(response.tables, order);
      && (collected.Ok? <==> AllGiven(directory, response))
      && (collected.Ok? ==> collected.value == Givens(directory, response))
      && (collected.Err? && directory.None? ==> collected.error == CliError.Decode)
  {
    if directory.Some? {
      PinContents(directory.value, order);
    } else {
      SelfReportedContents(response.tables, order);
      SelfReportedStops(response.tables, order);
    }
  }

  /** Which responses verify, of any origin, with a directory or without: those whose every commitment is
      given and whose proof is of this SQL under the commitments given. What verifies is the proof's own
      result. */
  lemma VerdictIff(engine: Engine, directory: Option<Disk>, sql: string, response: Response, order: seq<TableRef>)
    requires Walks(order, response.tables)
    ensures var verdict := VerifyCommand(engine, directory, sql, response, order);
      && (verdict.Ok? <==>
            && AllGiven(directory, response) && response.proof.ProofBlob?
            && engine.refs(sql).Some?
            && engine.plan(sql, GivenSchemas(directory, response)) == Some(response.proof.proof.plan)
            && forall t :: t in engine.refs(sql).value ==>
                 && t in response.tables && t in response.proof.proof.commitments
                 && response.proof.proof.commitments[t] == GivenFor(directory, response, t))
      && (verdict.Ok? ==> verdict.value == response.proof.proof.result)
  {
    GivensCollected(directory, response, order);
    if AllGiven(directory, response) && response.proof.ProofBlob? {
      var givens := Givens(directory, response);
      ProofVerdict(engine, sql, givens, response.proof.proof);
      assert GivenSchemas(directory, response) == map t | t in givens :: givens[t].schema;
    }
  }

  /** Why a response is refused, in the order the reasons are met. */
  lemma RefusedBecause(engine: Engine, directory: Option<Disk>, sql: string, response: Response, order: seq<TableRef>)
    requires Walks(order, response.tables)
    ensures var verdict := VerifyCommand(engine, directory, sql, response, order);
      && (!AllGiven(directory, response) && directory.None? ==> verdict == Err(CliError.Decode))
      && (!AllGiven(directory, response) && directory.Some? ==>
            exists i :: FirstUncommitted(directory.value, order, i) && verdict == Err(PinError(CommitmentOf(directory.value, order[i]).error)))
      && (AllGiven(directory, response) && !response.proof.ProofBlob? ==> verdict == Err(CliError.Decode))
      && (AllGiven(directory, response) && response.proof.ProofBlob? ==>
            var proved := VerifyProof(engine, sql, Givens(directory, response), response.proof.proof);
            proved.Err? ==> verdict == Err(CliError.Verify(proved.error)))
  {
    GivensCollected(directory, response, order);
    if !AllGiven(directory, response) && directory.Some? {
      var i := PinStops(directory.value, order);
    }
  }

  lemma GivenByDirectory(later: Disk, response: Response, refs: seq<TableRef>)
    requires forall t :: t in response.tables <==> t in refs
    ensures AllGiven(Some(later), response) <==> AllCommitted(later, refs)
    ensures AllGiven(Some(later), response) ==>
              GivenSchemas(Some(later), response) == map t | t in refs :: CommitmentOf(later, t).value.schema
  {
    if AllCommitted(later, refs) {
      forall t | t in response.tables ensures Given(Some(later), response, t) {}
    }
    if AllGiven(Some(later), response) {
      forall t | t in refs ensures CommitmentOf(later, t).Ok? { assert Given(Some(later), response, t); }
    }
  }

  /** A response answered for one SQL and checked under another verifies exactly when all its tables are
      pinned, those the other refers to are among them and pinned as they were proved, and the other
      plans, under what is pinned, as the first did under the data. */
  lemma OtherSqlVerifiesIff(engine: Engine, tau: Ceremony, d: Disk, asked: string, refs: seq<TableRef>, response: Response,
                            checked: string, order: seq<TableRef>, later: Disk)
    requires engine.refs(asked) == Some(refs) && Answer(engine, tau, d, asked) == Ok(response) && Walks(order, response.tables)
    ensures AllReadable(d, refs)
    ensures VerifyCommand(engine, Some(later), checked, response, order).Ok? <==>
      && engine.refs(checked).Some? && AllCommitted(later, refs)
      && (forall t :: t in engine.refs(checked).value ==>
            t in refs && CommitmentOf(later, t) == Ok(CommitmentTo(tau, TableData(d, t).value)))
      && engine.plan(checked, map t | t in refs :: CommitmentOf(later, t).value.schema) == engine.plan(asked, SchemasIn(DataAt(d, refs)))
  {
    AnsweredOver(engine, tau, d, asked, refs);
    GivenByDirectory(later, response, refs);
    VerdictIff(engine, Some(later), checked, response, order);
  }
}
