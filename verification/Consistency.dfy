/** When a table's commitment is the commitment to its data, and what every operation leaves alone. */
module Consistency {
  import opened Columns
  import opened Commitments
  import opened History
  import opened Invariants
  import opened Layout
  import opened Names
  import opened Results
  import opened Store

  /** Every file readable, and the commitment that of all rows in insertion order. */
  predicate Whole(tau: Ceremony, view: View) {
    Readable(view) && view.commit == Some(CommitFile(CommitmentTo(tau, WholeTable(view))))
  }

  lemma {:induction false} KeptOrAll(files: seq<File>, kept: seq<bool>)
    requires Selects(files, kept)
    ensures |KeptRows(files, kept)| <= |AllRows(files)|
    ensures |KeptRows(files, kept)| == |AllRows(files)| ==> KeptRows(files, kept) == AllRows(files)
  {
    if files != [] {
      KeptOrAll(files[..|files| - 1], kept[..|files| - 1]);
    }
  }

  predicate HasCommitment(view: View) {
    view.commit.Some? && view.commit.value.CommitFile?
  }

  lemma CommittedRows(tau: Ceremony, view: View)
    requires Sound(tau, view) && HasCommitment(view)
    ensures view.commit.value.commitment.rows <= |AllRows(view.files)|
  {
    var schema, c := view.files[0].batch.schema, view.commit.value.commitment;
    var kept :| Selects(view.files, kept) && c == CommitmentTo(tau, Kept(schema, view.files, kept));
    KeptOrAll(view.files, kept);
  }

  /** Counting rows decides it: a commitment to as many rows as the table holds is the
      commitment to the table. */
  lemma WholeByCounting(tau: Ceremony, view: View)
    requires Sound(tau, view)
    ensures Whole(tau, view) <==>
            Readable(view) && HasCommitment(view) && view.commit.value.commitment.rows == |AllRows(view.files)|
  {
    if Readable(view) && HasCommitment(view) {
      var schema, c := view.files[0].batch.schema, view.commit.value.commitment;
      var kept :| Selects(view.files, kept) && c == CommitmentTo(tau, Kept(schema, view.files, kept));
      KeptOrAll(view.files, kept);
      if c.rows == |AllRows(view.files)| {
        assert Kept(schema, view.files, kept) == WholeTable(view);
      }
    }
  }

  lemma AllRowsExtend(files: seq<File>, file: File)
    ensures AllRows(files + [file]) == AllRows(files) + if file.ParquetFile? then file.batch.rows else []
  {
    assert (files + [file])[..|files|] == files;
  }

  /** `e` keeps table `t`'s commitment in step with its data: it leaves `t` alone, finishes, or
      stores a whole batch of no rows without getting to the commitment. */
  predicate Clean(tau: Ceremony, d: Disk, e: Event, t: TableRef) {
    var k := Steps(tau, d, e);
    || e.op.t != t || k == 0
    || (e.op.Create? && k == 5)
    || (e.op.Insert? && (k == 4 || (k == 2 && e.op.batch.rows == [])))
  }

  lemma ReadableExtend(view: View, file: File, commit: Option<File>)
    requires view.files != [] && view.files[0].ParquetFile?
    ensures Readable(View(view.files + [file], commit)) <==>
            Readable(view) && file.ParquetFile? && file.batch.schema == view.files[0].batch.schema
  {
    var files := view.files + [file];
    if Readable(View(files, commit)) {
      assert files[|view.files|] == file;
      forall i | 0 <= i < |view.files| ensures view.files[i] == files[i] {}
    }
  }

  /** An insert stopped after `k` actions leaves its table whole exactly when it was whole and
      `k` is none, all, or the batch file of an empty batch. */
  lemma InsertKeepsWhole(tau: Ceremony, view: View, batch: RecordBatch, capacity: nat, k: nat)
    requires Sound(tau, view) && AcceptsInsert(view, batch) && 0 < k <= 4
    requires k > 2 ==> Appendable(view.commit.value.commitment, batch, Powers(tau, capacity))
    ensures Whole(tau, InsertStage(view, batch, Extended(view, batch, Powers(tau, capacity)), k)) <==>
            Whole(tau, view) && (k == 4 || (k == 2 && batch.rows == []))
  {
    var stage := InsertStage(view, batch, Extended(view, batch, Powers(tau, capacity)), k);
    InsertStageSound(tau, view, batch, capacity, k);
    WholeByCounting(tau, view);
    WholeByCounting(tau, stage);
    CommittedRows(tau, view);
    AllRowsExtend(view.files, ParquetFile(batch));
    ReadableExtend(view, if k == 1 then Torn else ParquetFile(batch), stage.commit);
  }

  lemma CreateMakesWhole(tau: Ceremony, schema: Schema, capacity: nat, k: nat)
    requires 0 < k <= 5
    ensures Whole(tau, CreateStage(Batch(schema, []), FirstCommitment(schema, Powers(tau, capacity)), k)) <==> k == 5
  {
    var empty: RecordBatch := Batch(schema, []);
    var stage := CreateStage(empty, FirstCommitment(schema, Powers(tau, capacity)), k);
    CommitUnderAnySetup(tau, empty, capacity);
    if k == 5 {
      assert stage.files[..0] == [];
      assert AllRows(stage.files) == [];
      assert WholeTable(stage) == empty;
    }
  }

  /** One event: the table is whole afterwards exactly when it was (or was not there) and the event was clean. */
  lemma EventKeepsWhole(tau: Ceremony, d: Disk, e: Event, t: TableRef)
    requires Good(tau, d) && t in After(tau, d, e)
    ensures Whole(tau, ViewOf(After(tau, d, e)[t])) <==>
            (t in d ==> Whole(tau, ViewOf(d[t]))) && Clean(tau, d, e, t)
  {
    var k := Steps(tau, d, e);
    EventViews(tau, d, e, t);
    if t == e.op.t && k > 0 {
      if e.op.Create? {
        CreateMakesWhole(tau, e.op.schema, e.capacity, k);
      } else {
        TableFacts(tau, d, t);
        InsertKeepsWhole(tau, ViewOf(d[t]), e.op.batch, e.capacity, k);
      }
    }
  }

  /** Every event of a history was clean for `t`, in the state it met. */
  predicate AllClean(tau: Ceremony, d: Disk, events: seq<Event>, t: TableRef) {
    events == [] ||
    (var last := |events| - 1;
     AllClean(tau, d, events[..last], t) && Clean(tau, Run(tau, d, events[..last]), events[last], t))
  }

  /** Whole histories: a table is whole at the end exactly when no event along the way parted its
      commitment from its data. Once parted, nothing brings them together again. */
  lemma {:induction false} WholeIffClean(tau: Ceremony, d: Disk, events: seq<Event>, t: TableRef)
    requires Good(tau, d) && t in Run(tau, d, events)
    ensures Whole(tau, ViewOf(Run(tau, d, events)[t])) <==>
            (t in d ==> Whole(tau, ViewOf(d[t]))) && AllClean(tau, d, events, t)
  {
    if events != [] {
      var last := |events| - 1;
      var before := Run(tau, d, events[..last]);
      GoodRun(tau, d, events[..last]);
      EventKeepsWhole(tau, before, events[last], t);
      if t in before {
        WholeIffClean(tau, d, events[..last], t);
      } else {
        AbsentIsClean(tau, d, events[..last], t);
      }
    }
  }

  lemma AbsentStep(tau: Ceremony, d: Disk, e: Event, t: TableRef)
    requires Good(tau, d) && t !in After(tau, d, e)
    ensures t !in d && Clean(tau, d, e, t)
  {
    EventViews(tau, d, e, t);
  }

  /** A table not there yet has had nothing done to it. */
  lemma {:induction false} AbsentIsClean(tau: Ceremony, d: Disk, events: seq<Event>, t: TableRef)
    requires Good(tau, d) && t !in Run(tau, d, events)
    ensures t !in d && AllClean(tau, d, events, t)
  {
    if events != [] {
      var last := |events| - 1;
      GoodRun(tau, d, events[..last]);
      AbsentStep(tau, Run(tau, d, events[..last]), events[last], t);
      AbsentIsClean(tau, d, events[..last], t);
    }
  }

  // ---- In terms of what readers see ----

  /** The stored commitment is the commitment to the data a reader gets back. */
  predicate Matches(tau: Ceremony, d: Disk, t: TableRef) {
    && TableData(d, t).Ok?
    && CommitmentOf(d, t) == Ok(CommitmentTo(tau, TableData(d, t).value))
  }

  /** Data reads back exactly when every file of the table is readable, and up to a million files it
      is every row in insertion order. */
  lemma DataReadable(tau: Ceremony, d: Disk, t: TableRef)
    requires Good(tau, d) && t in d
    ensures TableData(d, t).Ok? <==> Readable(ViewOf(d[t]))
    ensures Readable(ViewOf(d[t])) && |ParquetPaths(d[t])| <= LIMIT ==> TableData(d, t) == Ok(WholeTable(ViewOf(d[t])))
  {
    var view := ViewOf(d[t]);
    TableFacts(tau, d, t);
    PathsAreNumbered(view);
    SchemaIsBatchZero(d, t, view);
    if view.files != [] {
      ReadsBackIff(d, t, view);
    }
    if Readable(view) && |view.files| <= LIMIT {
      ReadsBackInOrder(d, t, view);
    }
  }

  lemma CommitmentView(d: Disk, t: TableRef)
    requires t in d && Numbered(d[t])
    ensures CommitmentOf(d, t).Ok? <==> HasCommitment(ViewOf(d[t]))
    ensures CommitmentOf(d, t).Ok? ==> CommitmentOf(d, t).value == ViewOf(d[t]).commit.value.commitment
  {
    LaidOutContents(ViewOf(d[t]));
  }

  lemma MatchesIsWhole(tau: Ceremony, d: Disk, t: TableRef)
    requires Good(tau, d) && t in d && |ParquetPaths(d[t])| <= LIMIT
    ensures Matches(tau, d, t) <==> Whole(tau, ViewOf(d[t]))
  {
    TableFacts(tau, d, t);
    DataReadable(tau, d, t);
    CommitmentView(d, t);
  }

  /** From an empty database, for tables of up to a million files: the commitment built by repeated
      appends, under setups of whatever sizes, is the one computed from scratch over the rows read
      back, exactly when every event was clean. */
  lemma {:induction false} CommitmentMatchesData(tau: Ceremony, events: seq<Event>, t: TableRef)
    requires t in Run(tau, map[], events) && |ParquetPaths(Run(tau, map[], events)[t])| <= LIMIT
    ensures Matches(tau, Run(tau, map[], events), t) <==> AllClean(tau, map[], events, t)
  {
    GoodRun(tau, map[], events);
    WholeIffClean(tau, map[], events, t);
    MatchesIsWhole(tau, Run(tau, map[], events), t);
  }

  /** Every event carried out to its end, and none giving up half way for want of setup or of a provable type. */
  predicate Uninterrupted(tau: Ceremony, d: Disk, e: Event) {
    && Steps(tau, d, e) == Length(tau, d, e)
    && (Passes(d, e) ==> Commits(tau, d, e))
  }

  lemma UninterruptedIsClean(tau: Ceremony, d: Disk, e: Event, t: TableRef)
    requires Uninterrupted(tau, d, e)
    ensures Clean(tau, d, e, t)
  {
  }

  /** The result an operation reports tells whether it committed: given its full run, an operation
      reports success exactly when it stored a commitment, and any failure but the two late ones
      means it did nothing at all. */
  lemma ReportsTruthfully(tau: Ceremony, d: Disk, e: Event)
    requires AllNumbered(d)
    ensures var r := EventScript(tau, d, e).result;
      && (r.Ok? <==> Passes(d, e) && Commits(tau, d, e))
      && (r == Err(DbError.Append) <==> Passes(d, e) && e.op.Insert? && !Commits(tau, d, e))
      && (r.Err? && r.error != DbError.Append && r.error != DbError.Commit ==> EventScript(tau, d, e).actions == [])
  {
    var setup := Powers(tau, e.capacity);
    if e.op.Create? && e.op.t !in d {
      CreateActions(d, e.op.t, e.op.schema, setup);
    } else if e.op.Insert? && e.op.t in d {
      InsertActions(d, e.op.t, e.op.batch, setup);
    }
  }

  /** A commitment to stored batches always has the columns of the batch it is extended by: an insert
      that passes its checks can only lack room. */
  lemma RoomDecides(tau: Ceremony, view: View, batch: RecordBatch, capacity: nat)
    requires Sound(tau, view) && AcceptsInsert(view, batch)
    ensures Appendable(view.commit.value.commitment, batch, Powers(tau, capacity)) <==>
            view.commit.value.commitment.rows + |batch.rows| <= capacity
  {
    var schema, c := view.files[0].batch.schema, view.commit.value.commitment;
    var kept :| Selects(view.files, kept) && c == CommitmentTo(tau, Kept(schema, view.files, kept));
  }

  /** An insert gives up half way exactly when the rows committed and the rows it brings exceed the
      setup's capacity. */
  lemma AppendFailsIff(tau: Ceremony, d: Disk, t: TableRef, batch: RecordBatch, capacity: nat)
    requires Good(tau, d)
    ensures InsertScript(d, t, batch, Powers(tau, capacity)).result == Err(DbError.Append) <==>
            Refusal(d, t, batch).None? && CommitmentOf(d, t).Ok? && CommitmentOf(d, t).value.rows + |batch.rows| > capacity
  {
    if t in d {
      TableFacts(tau, d, t);
      InsertActions(d, t, batch, Powers(tau, capacity));
      CommitmentView(d, t);
      if AcceptsInsert(ViewOf(d[t]), batch) {
        RoomDecides(tau, ViewOf(d[t]), batch, capacity);
      }
    }
  }

  /** So a table whose commitment matches its data keeps it through an insert carried to its end unless
      the insert is accepted, brings rows, and has no room for them. */
  lemma FullInsertKeepsMatchIff(tau: Ceremony, d: Disk, e: Event)
    requires Good(tau, d) && e.op.Insert? && e.stop >= 4 && Matches(tau, d, e.op.t)
    requires e.op.t in After(tau, d, e) && |ParquetPaths(After(tau, d, e)[e.op.t])| <= LIMIT
    ensures Matches(tau, After(tau, d, e), e.op.t) <==>
            Refusal(d, e.op.t, e.op.batch).Some? || e.op.batch.rows == [] ||
            |TableData(d, e.op.t).value.rows| + |e.op.batch.rows| <= e.capacity
  {
    var t := e.op.t;
    TableFacts(tau, d, t);
    EventAppendOnly(tau, d, e, t);
    GoodAfter(tau, d, e);
    TableFacts(tau, After(tau, d, e), t);
    PathsAreNumbered(ViewOf(d[t]));
    PathsAreNumbered(ViewOf(After(tau, d, e)[t]));
    MatchesIsWhole(tau, d, t);
    MatchesIsWhole(tau, After(tau, d, e), t);
    EventKeepsWhole(tau, d, e, t);
    CommitmentView(d, t);
    if AcceptsInsert(ViewOf(d[t]), e.op.batch) {
      RoomDecides(tau, ViewOf(d[t]), e.op.batch, e.capacity);
    }
  }

  /** Why an insert is refused, in the order the reasons are looked for; refused, it touches nothing. */
  function Refusal(d: Disk, t: TableRef, batch: RecordBatch): Option<DbError> {
    if t !in d then Some(NotFound(t))
    else
      var view := ViewOf(d[t]);
      if view.files == [] then Some(Empty)
      else if !view.files[0].ParquetFile? then Some(NotParquet)
      else if batch.schema != view.files[0].batch.schema then Some(SchemaMismatch)
      else if view.commit.None? then Some(DbError.Io)
      else if !view.commit.value.CommitFile? then Some(Decode)
      else None
  }

  lemma RefusedInsert(d: Disk, t: TableRef, batch: RecordBatch, setup: Setup)
    requires AllNumbered(d)
    ensures Refusal(d, t, batch).Some? ==> InsertScript(d, t, batch, setup) == Script([], Err(Refusal(d, t, batch).value))
    ensures Refusal(d, t, batch).None? ==> |InsertScript(d, t, batch, setup).actions| >= 2
  {
    if t in d {
      var view := ViewOf(d[t]);
      InsertActions(d, t, batch, setup);
      SchemaIsBatchZero(d, t, view);
      LaidOutContents(view);
    }
  }

  /** No insert ever reuses a stored batch's name, past a million files too. */
  lemma {:induction false} FreshIndex(tau: Ceremony, events: seq<Event>, t: TableRef)
    requires t in Run(tau, map[], events)
    ensures var dir := Run(tau, map[], events)[t];
      && BatchName(|ParquetPaths(dir)|) !in dir
      && forall i: nat :: BatchName(i) in dir <==> i < |ParquetPaths(dir)|
  {
    var d := Run(tau, map[], events);
    GoodRun(tau, map[], events);
    TableFacts(tau, d, t);
    LaidOutContents(ViewOf(d[t]));
    PathsAreNumbered(ViewOf(d[t]));
  }

  lemma EventAppendOnly(tau: Ceremony, d: Disk, e: Event, t: TableRef)
    requires Good(tau, d) && t in d
    ensures t in After(tau, d, e)
    ensures ViewOf(d[t]).files <= ViewOf(After(tau, d, e)[t]).files
  {
    EventViews(tau, d, e, t);
  }

  /** Stored batches are never lost, changed or reordered by any history. */
  lemma {:induction false} AppendOnly(tau: Ceremony, d: Disk, events: seq<Event>, t: TableRef)
    requires Good(tau, d) && t in d
    ensures t in Run(tau, d, events)
    ensures ViewOf(d[t]).files <= ViewOf(Run(tau, d, events)[t]).files
  {
    if events != [] {
      var last := |events| - 1;
      AppendOnly(tau, d, events[..last], t);
      GoodRun(tau, d, events[..last]);
      EventAppendOnly(tau, Run(tau, d, events[..last]), events[last], t);
    }
  }

  /** An event on one table leaves every other table's directory, data and commitment as they were. */
  lemma OthersUntouched(tau: Ceremony, d: Disk, e: Event, t: TableRef)
    requires Good(tau, d) && t != e.op.t
    ensures t in After(tau, d, e) <==> t in d
    ensures t in d ==> After(tau, d, e)[t] == d[t]
    ensures TableData(After(tau, d, e), t) == TableData(d, t)
    ensures CommitmentOf(After(tau, d, e), t) == CommitmentOf(d, t)
  {
    EventViews(tau, d, e, t);
    SameReads(After(tau, d, e), d, t);
  }

  lemma SameReads(d: Disk, d': Disk, t: TableRef)
    requires t in d <==> t in d'
    requires t in d ==> d[t] == d'[t]
    ensures TableData(d, t) == TableData(d', t) && CommitmentOf(d, t) == CommitmentOf(d', t)
  {
  }

  /** Every state an operation of the class Db passes the disk through is one an event stopped there
      leaves, so all that holds of interrupted histories holds of its trail. */
  lemma PausesAreEvents(tau: Ceremony, d: Disk, op: Op, capacity: nat, k: nat)
    requires Good(tau, d)
    requires k < |ScriptOf(d, op, Powers(tau, capacity)).actions|
    ensures |Trail(d, ScriptOf(d, op, Powers(tau, capacity)).actions)| == |ScriptOf(d, op, Powers(tau, capacity)).actions|
    ensures Trail(d, ScriptOf(d, op, Powers(tau, capacity)).actions)[k] == After(tau, d, Event(op, capacity, k + 1))
    ensures Good(tau, Trail(d, ScriptOf(d, op, Powers(tau, capacity)).actions)[k])
  {
    var actions := ScriptOf(d, op, Powers(tau, capacity)).actions;
    TrailAt(d, actions, k);
    assert k + 1 == |actions| ==> actions[..k + 1] == actions;
    GoodAfter(tau, d, Event(op, capacity, k + 1));
  }
}
