/** Proving queries and checking saved responses, over an idealised proof: a record of the plan,
    of the commitments to the very data it was computed over, and of the result. */
module Queries {
  import opened Coerce
  import opened Columns
  import opened Commitments
  import opened Consistency
  import opened History
  import opened Invariants
  import opened Layout
  import opened Names
  import opened Results
  import opened Store

  /** A query plan, with the declared types of its result columns. */
  datatype Plan = Plan(text: string, fields: seq<ColumnType>)

  /** SQL parsing, planning and evaluation. `refs` is None unless the SQL is exactly one statement. */
  datatype Engine = Engine(
    refs: string -> Option<seq<TableRef>>,
    plan: (string, map<TableRef, Schema>) -> Option<Plan>,
    evaluate: (Plan, map<TableRef, RecordBatch>) -> Option<OwnedTable>)

  datatype Proof = Proof(plan: Plan, commitments: map<TableRef, TableCommitment>, result: OwnedTable)

  /** Encoded text in a response: something that decodes, or nothing that does. */
  datatype Blob = Garbled | ProofBlob(proof: Proof) | CommitmentBlob(commitment: TableCommitment)

  datatype QueriedTable = QueriedTable(commitment: Blob, numRows: nat)

  datatype Response = Response(rows: OwnedTable, proof: Blob, tables: map<TableRef, QueriedTable>)

  datatype QueryError = BadSql | Snapshot(error: DbError) | UnprovableColumn | NoPlan | CannotProve | Overflow

  // ---- Answering ----

  function Data(d: Disk, refs: seq<TableRef>): Result<map<TableRef, RecordBatch>, DbError> {
    if refs == [] then Ok(map[])
    else
      var before :- Data(d, refs[..|refs| - 1]);
      var last :- TableData(d, refs[|refs| - 1]);
      Ok(before[refs[|refs| - 1] := last])
  }

  function CommitmentsOf(d: Disk, refs: seq<TableRef>): Result<map<TableRef, TableCommitment>, DbError> {
    if refs == [] then Ok(map[])
    else
      var before :- CommitmentsOf(d, refs[..|refs| - 1]);
      var last :- CommitmentOf(d, refs[|refs| - 1]);
      Ok(before[refs[|refs| - 1] := last])
  }

  function SchemasOfData(tables: map<TableRef, RecordBatch>): map<TableRef, Schema> {
    map t | t in tables :: tables[t].schema
  }

  function SchemasOfCommitments(commitments: map<TableRef, TableCommitment>): map<TableRef, Schema> {
    map t | t in commitments :: commitments[t].schema
  }

  /** Proves `sql` over data already read; an unprovable column type is a panic in the program. */
  function ProveOver(engine: Engine, tau: Ceremony, sql: string, tables: map<TableRef, RecordBatch>): Result<Proof, QueryError> {
    if exists t :: t in tables && !AllProvable(tables[t].schema) then Err(UnprovableColumn)
    else
      var plan := engine.plan(sql, SchemasOfData(tables));
      if plan.None? then Err(NoPlan)
      else
        var result := engine.evaluate(plan.value, tables);
        if result.None? then Err(CannotProve)
        else Ok(Proof(plan.value, map t | t in tables :: CommitmentTo(tau, tables[t]), result.value))
  }

  function BuildResponse(proof: Proof, commitments: map<TableRef, TableCommitment>): Result<Response, QueryError> {
    var rows := CoerceScalars(proof.result, proof.plan.fields);
    if rows.Err? then Err(Overflow)
    else
      Ok(Response(rows.value, ProofBlob(proof),
                  map t | t in commitments :: QueriedTable(CommitmentBlob(commitments[t]), commitments[t].rows)))
  }

  /** The whole of a query against one disk state. */
  function Answer(engine: Engine, tau: Ceremony, d: Disk, sql: string): Result<Response, QueryError> {
    var refs := engine.refs(sql);
    if refs.None? then Err(BadSql)
    else
      var tables := Data(d, refs.value);
      if tables.Err? then Err(Snapshot(tables.error))
      else
        var proof :- ProveOver(engine, tau, sql, tables.value);
        var commitments := CommitmentsOf(d, refs.value);
        if commitments.Err? then Err(Snapshot(commitments.error))
        else BuildResponse(proof, commitments.value)
  }

  // ---- Verifying ----

  datatype VerifyError = Parse | UnknownTable(t: TableRef) | Planning | BadProof

  datatype CliError = Io | Decode | Verify(error: VerifyError)

  function FirstMissing(refs: seq<TableRef>, commitments: map<TableRef, TableCommitment>): Option<TableRef> {
    if refs == [] then None
    else if refs[0] !in commitments then Some(refs[0])
    else FirstMissing(refs[1..], commitments)
  }

  /** The ideal proof holds for a plan and commitments exactly when it was made with them. */
  predicate ProofHolds(proof: Proof, plan: Plan, refs: seq<TableRef>, commitments: map<TableRef, TableCommitment>) {
    && proof.plan == plan
    && forall t :: t in refs ==> t in commitments && t in proof.commitments && commitments[t] == proof.commitments[t]
  }

  function VerifyProof(engine: Engine, sql: string, commitments: map<TableRef, TableCommitment>, proof: Proof): Result<OwnedTable, VerifyError> {
    var refs := engine.refs(sql);
    if refs.None? then Err(Parse)
    else
      var missing := FirstMissing(refs.value, commitments);
      if missing.Some? then Err(UnknownTable(missing.value))
      else
        var plan := engine.plan(sql, SchemasOfCommitments(commitments));
        if plan.None? then Err(Planning)
        else if ProofHolds(proof, plan.value, refs.value, commitments) then Ok(proof.result)
        else Err(BadProof)
  }

  function PinnedCommitment(d: Disk, t: TableRef): Result<TableCommitment, CliError> {
    if t !in d || COMMIT_NAME !in d[t] then Err(CliError.Io)
    else if d[t][COMMIT_NAME].CommitFile? then Ok(d[t][COMMIT_NAME].commitment)
    else Err(CliError.Decode)
  }

  /** Pins each of `order`'s tables, stopping at the first that cannot be. */
  function Pin(d: Disk, order: seq<TableRef>): Result<map<TableRef, TableCommitment>, CliError> {
    if order == [] then Ok(map[])
    else
      var before :- Pin(d, order[..|order| - 1]);
      var last :- PinnedCommitment(d, order[|order| - 1]);
      Ok(before[order[|order| - 1] := last])
  }

  function SelfReported(tables: map<TableRef, QueriedTable>, order: seq<TableRef>): Result<map<TableRef, TableCommitment>, CliError>
    requires forall t :: t in order ==> t in tables
  {
    if order == [] then Ok(map[])
    else
      var t := order[|order| - 1];
      var before :- SelfReported(tables, order[..|order| - 1]);
      if tables[t].commitment.CommitmentBlob? then Ok(before[t := tables[t].commitment.commitment])
      else Err(CliError.Decode)
  }

  /** `order` walks a hash map's keys, in whatever order it holds them. */
  ghost predicate Walks(order: seq<TableRef>, tables: map<TableRef, QueriedTable>) {
    forall t :: t in order <==> t in tables
  }

  /** `verify`: against the commitments pinned under a directory, or against the response's own
      when there is no such directory. */
  function VerifyCommand(engine: Engine, directory: Option<Disk>, sql: string, response: Response, order: seq<TableRef>)
    : Result<OwnedTable, CliError>
    requires Walks(order, response.tables)
  {
    var commitments :- if directory.Some? then Pin(directory.value, order) else SelfReported(response.tables, order);
    if !response.proof.ProofBlob? then Err(CliError.Decode)
    else
      var verified := VerifyProof(engine, sql, commitments, response.proof.proof);
      if verified.Err? then Err(CliError.Verify(verified.error)) else Ok(verified.value)
  }

  // ---- What collecting over keys gives ----

  lemma {:induction false} DataContents(d: Disk, refs: seq<TableRef>)
    ensures Data(d, refs).Ok? <==> forall t :: t in refs ==> TableData(d, t).Ok?
    ensures Data(d, refs).Ok? ==> Data(d, refs).value == map t | t in refs :: TableData(d, t).value
  {
    if refs != [] {
      DataContents(d, refs[..|refs| - 1]);
      assert forall t :: t in refs <==> t in refs[..|refs| - 1] || t == refs[|refs| - 1];
    }
  }

  lemma {:induction false} CommitmentsContents(d: Disk, refs: seq<TableRef>)
    ensures CommitmentsOf(d, refs).Ok? <==> forall t :: t in refs ==> CommitmentOf(d, t).Ok?
    ensures CommitmentsOf(d, refs).Ok? ==> CommitmentsOf(d, refs).value == map t | t in refs :: CommitmentOf(d, t).value
  {
    if refs != [] {
      CommitmentsContents(d, refs[..|refs| - 1]);
      assert forall t :: t in refs <==> t in refs[..|refs| - 1] || t == refs[|refs| - 1];
    }
  }

  lemma PinnedIsCommitment(d: Disk, t: TableRef)
    ensures PinnedCommitment(d, t).Ok? <==> CommitmentOf(d, t).Ok?
    ensures PinnedCommitment(d, t).Ok? ==> PinnedCommitment(d, t).value == CommitmentOf(d, t).value
  {
  }

  lemma {:induction false} PinContents(d: Disk, order: seq<TableRef>)
    ensures Pin(d, order).Ok? <==> forall t :: t in order ==> CommitmentOf(d, t).Ok?
    ensures Pin(d, order).Ok? ==> Pin(d, order).value == map t | t in order :: CommitmentOf(d, t).value
  {
    if order != [] {
      PinContents(d, order[..|order| - 1]);
      PinnedIsCommitment(d, order[|order| - 1]);
      assert forall t :: t in order <==> t in order[..|order| - 1] || t == order[|order| - 1];
    }
  }

  lemma {:induction false} SelfReportedContents(tables: map<TableRef, QueriedTable>, order: seq<TableRef>)
    requires forall t :: t in order ==> t in tables
    ensures SelfReported(tables, order).Ok? <==> forall t :: t in order ==> tables[t].commitment.CommitmentBlob?
    ensures SelfReported(tables, order).Ok? ==>
              SelfReported(tables, order).value == map t | t in order :: tables[t].commitment.commitment
  {
    if order != [] {
      SelfReportedContents(tables, order[..|order| - 1]);
      assert forall t :: t in order <==> t in order[..|order| - 1] || t == order[|order| - 1];
    }
  }

  lemma {:induction false} NoneMissing(refs: seq<TableRef>, commitments: map<TableRef, TableCommitment>)
    ensures FirstMissing(refs, commitments).None? <==> forall t :: t in refs ==> t in commitments
  {
    if refs != [] {
      NoneMissing(refs[1..], commitments);
      assert forall t :: t in refs <==> t == refs[0] || t in refs[1..];
    }
  }

  lemma {:induction false} MissingIsFirst(refs: seq<TableRef>, commitments: map<TableRef, TableCommitment>, t: TableRef)
    ensures FirstMissing(refs, commitments) == Some(t) <==>
            exists i :: 0 <= i < |refs| && refs[i] == t && t !in commitments && forall j :: 0 <= j < i ==> refs[j] in commitments
  {
    if refs != [] {
      MissingIsFirst(refs[1..], commitments, t);
      assert forall i :: 0 < i < |refs| ==> refs[i] == refs[1..][i - 1];
      if refs[0] in commitments && FirstMissing(refs[1..], commitments) == Some(t) {
        var i :| 0 <= i < |refs[1..]| && refs[1..][i] == t && t !in commitments && forall j :: 0 <= j < i ==> refs[1..][j] in commitments;
        assert refs[i + 1] == t;
      }
    }
  }

  // ---- Pinned verification ----

  /** With pinned commitments, only the proof and the table keys of a response matter, not its rows nor
      the commitments and counts it reports. The order its tables are walked in decides no more than
      which of several tables that cannot be pinned is reported. */
  lemma PinnedVerdict(engine: Engine, d: Disk, sql: string,
                      a: Response, orderA: seq<TableRef>, b: Response, orderB: seq<TableRef>)
    requires Walks(orderA, a.tables) && Walks(orderB, b.tables)
    requires a.proof == b.proof && a.tables.Keys == b.tables.Keys
    ensures var verdictA, verdictB := VerifyCommand(engine, Some(d), sql, a, orderA), VerifyCommand(engine, Some(d), sql, b, orderB);
      && (orderA == orderB || (forall t :: t in a.tables ==> PinnedCommitment(d, t).Ok?) ==> verdictA == verdictB)
      && ((exists t :: t in a.tables && PinnedCommitment(d, t).Err?) ==> verdictA.Err? && verdictB.Err?)
  {
    PinContents(d, orderA);
    PinContents(d, orderB);
    assert forall t :: t in orderA <==> t in orderB by {
      forall t ensures t in orderA <==> t in orderB {
        assert t in orderA <==> t in a.tables.Keys;
        assert t in orderB <==> t in b.tables.Keys;
      }
    }
    forall t | t in a.tables ensures PinnedCommitment(d, t).Ok? <==> CommitmentOf(d, t).Ok? { PinnedIsCommitment(d, t); }
    if Pin(d, orderA).Ok? {
      assert Pin(d, orderA).value == Pin(d, orderB).value;
    }
  }

  /** The proof inside an answer is over the data of the tables the SQL refers to, and the response lists just those. */
  lemma AnswerParts(engine: Engine, tau: Ceremony, d: Disk, sql: string)
    requires Answer(engine, tau, d, sql).Ok?
    ensures engine.refs(sql).Some?
    ensures Data(d, engine.refs(sql).value).Ok? && CommitmentsOf(d, engine.refs(sql).value).Ok?
    ensures var tables := Data(d, engine.refs(sql).value).value;
      && ProveOver(engine, tau, sql, tables).Ok?
      && Answer(engine, tau, d, sql).value.proof == ProofBlob(ProveOver(engine, tau, sql, tables).value)
    ensures Answer(engine, tau, d, sql).value.tables.Keys == CommitmentsOf(d, engine.refs(sql).value).value.Keys
  {
  }

  /** A proof over some tables verifies against commitments to those tables exactly when the commitments are theirs. */
  lemma VerifyProofIff(engine: Engine, tau: Ceremony, sql: string, tables: map<TableRef, RecordBatch>,
                       commitments: map<TableRef, TableCommitment>)
    requires engine.refs(sql).Some? && ProveOver(engine, tau, sql, tables).Ok?
    requires commitments.Keys == tables.Keys
    requires forall t :: t in engine.refs(sql).value <==> t in tables
    ensures VerifyProof(engine, sql, commitments, ProveOver(engine, tau, sql, tables).value).Ok? <==>
            forall t :: t in engine.refs(sql).value ==> commitments[t] == CommitmentTo(tau, tables[t])
  {
    NoneMissing(engine.refs(sql).value, commitments);
    if forall t :: t in engine.refs(sql).value ==> commitments[t] == CommitmentTo(tau, tables[t]) {
      assert SchemasOfCommitments(commitments) == SchemasOfData(tables);
    }
  }

  /** An untouched response verifies against a directory exactly when each table it reads from is
      pinned there to the commitment of the data it was proved over. */
  lemma VerifiesIffPinned(engine: Engine, tau: Ceremony, d: Disk, sql: string, order: seq<TableRef>, later: Disk)
    requires Answer(engine, tau, d, sql).Ok?
    requires Walks(order, Answer(engine, tau, d, sql).value.tables)
    ensures engine.refs(sql).Some?
    ensures forall t :: t in engine.refs(sql).value ==> TableData(d, t).Ok?
    ensures VerifyCommand(engine, Some(later), sql, Answer(engine, tau, d, sql).value, order).Ok? <==>
            forall t :: t in engine.refs(sql).value ==>
              CommitmentOf(later, t) == Ok(CommitmentTo(tau, TableData(d, t).value))
  {
    AnswerParts(engine, tau, d, sql);
    var refs := engine.refs(sql).value;
    var tables := Data(d, refs).value;
    DataContents(d, refs);
    CommitmentsContents(d, refs);
    PinContents(later, order);
    SameTables(d, refs, order, Answer(engine, tau, d, sql).value);
    if Pin(later, order).Ok? {
      var commitments := Pin(later, order).value;
      assert commitments.Keys == tables.Keys;
      VerifyProofIff(engine, tau, sql, tables, commitments);
    }
  }

  lemma SameTables(d: Disk, refs: seq<TableRef>, order: seq<TableRef>, response: Response)
    requires Walks(order, response.tables)
    requires CommitmentsOf(d, refs).Ok? && response.tables.Keys == CommitmentsOf(d, refs).value.Keys
    ensures forall t :: t in order <==> t in refs
  {
    CommitmentsContents(d, refs);
    forall t ensures t in order <==> t in refs {
      assert t in order <==> t in response.tables.Keys;
    }
  }

  /** A response verifies against the state it was proved in exactly when, for every table it reads,
      as many rows are committed as are stored. */
  lemma VerifiesWhereProved(engine: Engine, tau: Ceremony, d: Disk, sql: string, order: seq<TableRef>)
    requires Good(tau, d) && Answer(engine, tau, d, sql).Ok?
    requires Walks(order, Answer(engine, tau, d, sql).value.tables)
    requires engine.refs(sql).Some? ==> forall t :: t in engine.refs(sql).value && t in d ==> |ParquetPaths(d[t])| <= LIMIT
    ensures engine.refs(sql).Some?
    ensures forall t :: t in engine.refs(sql).value ==> TableData(d, t).Ok? && CommitmentOf(d, t).Ok?
    ensures VerifyCommand(engine, Some(d), sql, Answer(engine, tau, d, sql).value, order).Ok? <==>
            forall t :: t in engine.refs(sql).value ==> CommitmentOf(d, t).value.rows == |TableData(d, t).value.rows|
  {
    var refs := engine.refs(sql).value;
    DataContents(d, refs);
    CommitmentsContents(d, refs);
    VerifiesIffPinned(engine, tau, d, sql, order, d);
    forall t | t in refs
      ensures CommitmentOf(d, t) == Ok(CommitmentTo(tau, TableData(d, t).value)) <==>
              CommitmentOf(d, t).value.rows == |TableData(d, t).value.rows|
    {
      CountsDecide(tau, d, t);
    }
  }

  lemma CountsDecide(tau: Ceremony, d: Disk, t: TableRef)
    requires Good(tau, d) && t in d && |ParquetPaths(d[t])| <= LIMIT
    requires TableData(d, t).Ok? && CommitmentOf(d, t).Ok?
    ensures Matches(tau, d, t) <==> CommitmentOf(d, t).value.rows == |TableData(d, t).value.rows|
  {
    TableFacts(tau, d, t);
    MatchesIsWhole(tau, d, t);
    WholeByCounting(tau, ViewOf(d[t]));
    DataReadable(tau, d, t);
    CommitmentView(d, t);
  }

  // ---- Saved responses and later states ----

  /** `e` leaves table `t`'s stored commitment as it is. */
  predicate Quiet(tau: Ceremony, d: Disk, e: Event, t: TableRef) {
    var k := Steps(tau, d, e);
    e.op.t != t || e.op.Create? || (k != 3 && (k == 4 ==> e.op.batch.rows == []))
  }

  predicate AllQuiet(tau: Ceremony, d: Disk, events: seq<Event>, t: TableRef) {
    events == [] ||
    (var last := |events| - 1;
     AllQuiet(tau, d, events[..last], t) && Quiet(tau, Run(tau, d, events[..last]), events[last], t))
  }

  lemma AppendNothing(tau: Ceremony, view: View, batch: RecordBatch, capacity: nat)
    requires Sound(tau, view) && AcceptsInsert(view, batch) && batch.rows == []
    ensures Extended(view, batch, Powers(tau, capacity)) == view.commit.value.commitment
  {
    var c := view.commit.value.commitment;
    if Appendable(c, batch, Powers(tau, capacity)) {
      var kept :| Selects(view.files, kept) && c == CommitmentTo(tau, Kept(batch.schema, view.files, kept));
      var before := Kept(batch.schema, view.files, kept);
      AppendUnderAnySetup(tau, before, batch, capacity);
      assert Concat(before, batch) == before by { assert before.rows + [] == before.rows; }
    }
  }

  /** What an event does to the commitment of a table that is there: keeps it, adds rows to it, or tears it. */
  lemma EventCommitment(tau: Ceremony, d: Disk, e: Event, t: TableRef)
    requires Good(tau, d) && t in d
    ensures t in After(tau, d, e)
    ensures var before, after := ViewOf(d[t]), ViewOf(After(tau, d, e)[t]);
      && (Quiet(tau, d, e, t) ==> after.commit == before.commit)
      && (!Quiet(tau, d, e, t) ==> HasCommitment(before))
      && (!Quiet(tau, d, e, t) && HasCommitment(after) ==>
            after.commit.value.commitment.rows > before.commit.value.commitment.rows)
  {
    EventViews(tau, d, e, t);
    var k := Steps(tau, d, e);
    if e.op.t == t && k > 2 {
      TableFacts(tau, d, t);
      if k == 4 && e.op.batch.rows == [] {
        AppendNothing(tau, ViewOf(d[t]), e.op.batch, e.capacity);
      }
    }
  }

  /** Over a whole history, a readable commitment is still the same exactly when every event was
      quiet; otherwise it has more rows, or cannot be read. */
  lemma {:induction false} CommitmentKeptIff(tau: Ceremony, d: Disk, events: seq<Event>, t: TableRef)
    requires Good(tau, d) && t in d && HasCommitment(ViewOf(d[t]))
    ensures t in Run(tau, d, events)
    ensures var before, after := ViewOf(d[t]), ViewOf(Run(tau, d, events)[t]);
      && (AllQuiet(tau, d, events, t) ==> after.commit == before.commit)
      && (!AllQuiet(tau, d, events, t) && HasCommitment(after) ==>
            after.commit.value.commitment.rows > before.commit.value.commitment.rows)
      && (!HasCommitment(after) ==> !AllQuiet(tau, d, events, t))
  {
    if events != [] {
      var last := |events| - 1;
      CommitmentKeptIff(tau, d, events[..last], t);
      GoodRun(tau, d, events[..last]);
      EventCommitment(tau, Run(tau, d, events[..last]), events[last], t);
    }
  }

  /** A saved response, proved where its tables' commitments matched their data, verifies against the
      directory as any later history leaves it exactly when no event in between committed a row to, or
      tore the commitment of, a table it reads. Empty inserts, unfinished batch writes and other tables
      do not matter. */
  lemma {:induction false} SavedResponseVerifiesIff(engine: Engine, tau: Ceremony, d: Disk, sql: string, order: seq<TableRef>, events: seq<Event>)
    requires Good(tau, d) && Answer(engine, tau, d, sql).Ok?
    requires Walks(order, Answer(engine, tau, d, sql).value.tables)
    requires engine.refs(sql).Some? ==> forall t :: t in engine.refs(sql).value ==> Matches(tau, d, t)
    ensures engine.refs(sql).Some?
    ensures VerifyCommand(engine, Some(Run(tau, d, events)), sql, Answer(engine, tau, d, sql).value, order).Ok? <==>
            forall t :: t in engine.refs(sql).value ==> AllQuiet(tau, d, events, t)
  {
    var later := Run(tau, d, events);
    VerifiesIffPinned(engine, tau, d, sql, order, later);
    forall t | t in engine.refs(sql).value
      ensures CommitmentOf(later, t) == Ok(CommitmentTo(tau, TableData(d, t).value)) <==> AllQuiet(tau, d, events, t)
    {
      StillPinnedIff(tau, d, events, t);
    }
  }

  lemma {:induction false} StillPinnedIff(tau: Ceremony, d: Disk, events: seq<Event>, t: TableRef)
    requires Good(tau, d) && Matches(tau, d, t)
    ensures CommitmentOf(Run(tau, d, events), t) == CommitmentOf(d, t) <==> AllQuiet(tau, d, events, t)
  {
    TableFacts(tau, d, t);
    CommitmentView(d, t);
    CommitmentKeptIff(tau, d, events, t);
    GoodRun(tau, d, events);
    TableFacts(tau, Run(tau, d, events), t);
    CommitmentView(Run(tau, d, events), t);
  }

  /** Appending a batch stored without its commitment catches up with the table as it then was. */
  lemma RetriedCommitment(tau: Ceremony, view: View, batch: RecordBatch, capacity: nat)
    requires Whole(tau, view) && AcceptsInsert(view, batch)
    requires Appendable(view.commit.value.commitment, batch, Powers(tau, capacity))
    ensures var written := View(view.files + [ParquetFile(batch)], view.commit);
            Readable(written) && Extended(written, batch, Powers(tau, capacity)) == CommitmentTo(tau, WholeTable(written))
  {
    var written := View(view.files + [ParquetFile(batch)], view.commit);
    ReadableExtend(view, ParquetFile(batch), view.commit);
    AllRowsExtend(view.files, ParquetFile(batch));
    AppendUnderAnySetup(tau, WholeTable(view), batch, capacity);
    assert WholeTable(written) == Concat(WholeTable(view), batch);
  }

  /** An insert that stored its batch and no commitment, and the same insert carried through after it. */
  predicate Retried(tau: Ceremony, d: Disk, e: Event, again: Event) {
    && e.op.Insert? && again.op == e.op && e.op.t in d && e.op.batch.rows != []
    && Steps(tau, d, e) == 2 && Steps(tau, After(tau, d, e), again) == 4
  }

  lemma RetriedViews(tau: Ceremony, d: Disk, e: Event, again: Event)
    requires Good(tau, d) && Retried(tau, d, e, again) && Whole(tau, ViewOf(d[e.op.t]))
    ensures var t, view := e.op.t, ViewOf(d[e.op.t]);
            var parted, mended := After(tau, d, e), After(tau, After(tau, d, e), again);
      && Good(tau, parted) && t in parted && t in mended && Numbered(mended[t])
      && ViewOf(parted[t]) == View(view.files + [ParquetFile(e.op.batch)], view.commit) && Readable(ViewOf(parted[t]))
      && ViewOf(mended[t]).commit == Some(CommitFile(CommitmentTo(tau, WholeTable(ViewOf(parted[t])))))
  {
    var t, parted := e.op.t, After(tau, d, e);
    EventViews(tau, d, e, t);
    GoodAfter(tau, d, e);
    EventViews(tau, parted, again, t);
    RetriedCommitment(tau, ViewOf(d[t]), e.op.batch, again.capacity);
  }

  /** Where commitment and data had parted, quiet events are not what decides: a response proved after
      an insert that stored its batch but no commitment does not verify at first, and does once the
      same insert is carried through. */
  lemma RetriedInsertVerifies(tau: Ceremony, d: Disk, e: Event, again: Event)
    requires Good(tau, d) && Retried(tau, d, e, again) && Whole(tau, ViewOf(d[e.op.t]))
    requires |ParquetPaths(d[e.op.t])| < LIMIT
    ensures var parted := After(tau, d, e);
      && TableData(parted, e.op.t).Ok?
      && CommitmentOf(parted, e.op.t) != Ok(CommitmentTo(tau, TableData(parted, e.op.t).value))
      && CommitmentOf(After(tau, parted, again), e.op.t) == Ok(CommitmentTo(tau, TableData(parted, e.op.t).value))
      && !Quiet(tau, parted, again, e.op.t)
  {
    var t, parted := e.op.t, After(tau, d, e);
    RetriedViews(tau, d, e, again);
    TableFacts(tau, d, t);
    TableFacts(tau, parted, t);
    PathsAreNumbered(ViewOf(d[t]));
    PathsAreNumbered(ViewOf(parted[t]));
    DataReadable(tau, parted, t);
    EventKeepsWhole(tau, d, e, t);
    MatchesIsWhole(tau, parted, t);
    CommitmentView(After(tau, parted, again), t);
  }

  /** Without pinned commitments, a response over any tables at all verifies. */
  lemma SelfReportedProvesNothing(engine: Engine, tau: Ceremony, sql: string, order: seq<TableRef>, tables: map<TableRef, RecordBatch>)
    requires engine.refs(sql).Some? && (forall t :: t in engine.refs(sql).value <==> t in tables)
    requires forall t :: t in order <==> t in tables
    requires ProveOver(engine, tau, sql, tables).Ok?
    requires var proof := ProveOver(engine, tau, sql, tables).value; BuildResponse(proof, proof.commitments).Ok?
    ensures var proof := ProveOver(engine, tau, sql, tables).value;
            var response := BuildResponse(proof, proof.commitments).value;
            Walks(order, response.tables) && VerifyCommand(engine, None, sql, response, order) == Ok(proof.result)
  {
    var proof := ProveOver(engine, tau, sql, tables).value;
    var response := BuildResponse(proof, proof.commitments).value;
    SelfReportedContents(response.tables, order);
    var commitments := SelfReported(response.tables, order).value;
    assert commitments == proof.commitments;
    NoneMissing(engine.refs(sql).value, commitments);
    assert SchemasOfCommitments(commitments) == SchemasOfData(tables);
  }
}
