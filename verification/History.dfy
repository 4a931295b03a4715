/** Whole histories of a database whose operations may stop between any two disk actions. */
module History {
  import opened Columns
  import opened Commitments
  import opened Layout
  import opened Names
  import opened Results
  import opened Store

  datatype Op = Create(t: TableRef, schema: Schema) | Insert(t: TableRef, batch: RecordBatch)

  /** An operation under a setup of `capacity` powers, carried out for at most `stop` disk
      actions: a crash, a kill or a failed write ends it there. */
  datatype Event = Event(op: Op, capacity: nat, stop: nat)

  function ScriptOf(d: Disk, op: Op, setup: Setup): Script {
    match op
    case Create(t, schema) => CreateScript(d, t, schema, setup)
    case Insert(t, batch) => InsertScript(d, t, batch, setup)
  }

  function EventScript(tau: Ceremony, d: Disk, e: Event): Script {
    ScriptOf(d, e.op, Powers(tau, e.capacity))
  }

  /** The actions of `e` that reached the disk. */
  function Done(tau: Ceremony, d: Disk, e: Event): seq<Action> {
    var actions := EventScript(tau, d, e).actions;
    if e.stop < |actions| then actions[..e.stop] else actions
  }

  function After(tau: Ceremony, d: Disk, e: Event): Disk {
    ApplyAll(d, Done(tau, d, e))
  }

  function Run(tau: Ceremony, d: Disk, events: seq<Event>): Disk {
    if events == [] then d
    else After(tau, Run(tau, d, events[..|events| - 1]), events[|events| - 1])
  }

  // ---- What one event does to its table ----

  predicate AcceptsInsert(view: View, batch: RecordBatch) {
    && view.files != [] && view.files[0].ParquetFile? && batch.schema == view.files[0].batch.schema
    && view.commit.Some? && view.commit.value.CommitFile?
  }

  /** The table after the first `k` of an insert's four actions. */
  function InsertStage(view: View, batch: RecordBatch, extended: TableCommitment, k: nat): View {
    var torn := View(view.files + [Torn], view.commit);
    var written := View(view.files + [ParquetFile(batch)], view.commit);
    if k == 0 then view
    else if k == 1 then torn
    else if k == 2 then written
    else if k == 3 then written.(commit := Some(Torn))
    else written.(commit := Some(CommitFile(extended)))
  }

  /** The table after the first `k` of a creation's five actions, the first of which makes its directory. */
  function CreateStage(empty: RecordBatch, commitment: TableCommitment, k: nat): View {
    if k <= 1 then View([], None)
    else if k == 2 then View([Torn], None)
    else if k == 3 then View([ParquetFile(empty)], None)
    else if k == 4 then View([ParquetFile(empty)], Some(Torn))
    else View([ParquetFile(empty)], Some(CommitFile(commitment)))
  }

  function WriteActions(t: TableRef, n: nat, batch: RecordBatch, commitment: TableCommitment): seq<Action> {
    WriteFile(t, BatchName(n), ParquetFile(batch)) + WriteFile(t, COMMIT_NAME, CommitFile(commitment))
  }

  lemma ApplyAt(d: Disk, t: TableRef, dir: Dir, name: string, file: File)
    ensures Apply(d[t := dir], Fill(t, name, file)) == d[t := dir[name := file]]
    ensures file == Torn ==> Apply(d[t := dir], Truncate(t, name)) == d[t := dir[name := file]]
  {
  }

  lemma WriteStep(d: Disk, t: TableRef, view: View, batch: RecordBatch, extended: TableCommitment, k: nat)
    requires k < 4
    ensures Apply(d[t := LaidOut(InsertStage(view, batch, extended, k))], WriteActions(t, |view.files|, batch, extended)[k])
         == d[t := LaidOut(InsertStage(view, batch, extended, k + 1))]
  {
    var n := |view.files|;
    var stage := InsertStage(view, batch, extended, k);
    var name := if k <= 1 then BatchName(n) else COMMIT_NAME;
    var file := if k == 1 then ParquetFile(batch) else if k == 3 then CommitFile(extended) else Torn;
    ApplyAt(d, t, LaidOut(stage), name, file);
    if k <= 1 {
      WriteBatchFile(stage, n, file);
      assert k == 1 ==> (view.files + [Torn])[n := file] == view.files + [file];
      assert SetFile(stage, n, file) == InsertStage(view, batch, extended, k + 1);
    } else {
      WriteCommitFile(stage, file);
    }
  }

  /** Writing one batch file and then one commitment file, stopped after `k` actions. */
  lemma {:induction false} WritePair(d: Disk, t: TableRef, view: View, batch: RecordBatch, extended: TableCommitment, k: nat)
    requires t in d && d[t] == LaidOut(view) && k <= 4
    ensures ApplyAll(d, WriteActions(t, |view.files|, batch, extended)[..k])
         == d[t := LaidOut(InsertStage(view, batch, extended, k))]
  {
    if k == 0 {
      assert d == d[t := d[t]];
    } else {
      var actions := WriteActions(t, |view.files|, batch, extended);
      WritePair(d, t, view, batch, extended, k - 1);
      assert actions[..k][..k - 1] == actions[..k - 1];
      WriteStep(d, t, view, batch, extended, k - 1);
    }
  }

  /** The commitment an insert would store. */
  function Extended(view: View, batch: RecordBatch, setup: Setup): TableCommitment
    requires AcceptsInsert(view, batch)
  {
    var c := view.commit.value.commitment;
    if Appendable(c, batch, setup) then Commitments.Append(c, batch, setup) else c
  }

  /** Which actions an insert asks for: none, a batch file alone, or a batch file and a commitment. */
  lemma InsertActions(d: Disk, t: TableRef, batch: RecordBatch, setup: Setup)
    requires t in d && Numbered(d[t])
    ensures var script, view := InsertScript(d, t, batch, setup), ViewOf(d[t]);
      if !AcceptsInsert(view, batch) then script.actions == [] && script.result.Err? && script.result.error != DbError.Append
      else if Appendable(view.commit.value.commitment, batch, setup) then
        script == Script(WriteActions(t, |view.files|, batch, Extended(view, batch, setup)), Ok(()))
      else
        script == Script(WriteActions(t, |view.files|, batch, Extended(view, batch, setup))[..2], Err(DbError.Append))
  {
    var view := ViewOf(d[t]);
    SchemaIsBatchZero(d, t, view);
    PathsAreNumbered(view);
    var write := WriteFile(t, BatchName(|view.files|), ParquetFile(batch));
    if AcceptsInsert(view, batch) {
      assert WriteActions(t, |view.files|, batch, Extended(view, batch, setup))[..2] == write;
    }
  }

  /** An insert either touches nothing, or walks its table through the stages. */
  lemma InsertEffect(d: Disk, t: TableRef, batch: RecordBatch, setup: Setup, k: nat)
    requires t in d && Numbered(d[t])
    requires AcceptsInsert(ViewOf(d[t]), batch)
    requires k <= |InsertScript(d, t, batch, setup).actions|
    ensures ApplyAll(d, InsertScript(d, t, batch, setup).actions[..k])
         == d[t := LaidOut(InsertStage(ViewOf(d[t]), batch, Extended(ViewOf(d[t]), batch, setup), k))]
  {
    var view := ViewOf(d[t]);
    var actions := WriteActions(t, |view.files|, batch, Extended(view, batch, setup));
    InsertActions(d, t, batch, setup);
    WritePair(d, t, view, batch, Extended(view, batch, setup), k);
    assert InsertScript(d, t, batch, setup).actions[..k] == actions[..k];
  }

  lemma CreateActions(d: Disk, t: TableRef, schema: Schema, setup: Setup)
    requires t !in d
    ensures var script, empty := CreateScript(d, t, schema, setup), Batch(schema, []);
            var all := [MakeDir(t)] + WriteActions(t, 0, empty, Commitments.Commit(empty, setup));
            script == if AllProvable(schema) then Script(all, Ok(())) else Script(all[..3], Err(DbError.Commit))
  {
    var empty := Batch(schema, []);
    var start := [MakeDir(t)] + WriteFile(t, BatchName(0), ParquetFile(empty));
    var all := [MakeDir(t)] + WriteActions(t, 0, empty, Commitments.Commit(empty, setup));
    assert all == start + WriteFile(t, COMMIT_NAME, CommitFile(Commitments.Commit(empty, setup)));
    assert all[..3] == start;
  }

  lemma MakeDirFirst(d: Disk, t: TableRef, writes: seq<Action>)
    requires t !in d
    ensures ApplyAll(d, [MakeDir(t)] + writes) == ApplyAll(d[t := map[]], writes)
  {
    assert [MakeDir(t)][..0] == [];
    assert ApplyAll(d, [MakeDir(t)]) == Apply(d, MakeDir(t));
    ApplyAllSplits(d, [MakeDir(t)], writes);
  }

  function FirstCommitment(schema: Schema, setup: Setup): TableCommitment {
    Commitments.Commit(Batch(schema, []), setup)
  }

  lemma CreatePrefix(d: Disk, t: TableRef, schema: Schema, setup: Setup, k: nat)
    requires t !in d
    requires 0 < k <= |CreateScript(d, t, schema, setup).actions|
    ensures k <= 5
    ensures CreateScript(d, t, schema, setup).actions[..k]
         == [MakeDir(t)] + WriteActions(t, 0, Batch(schema, []), FirstCommitment(schema, setup))[..k - 1]
  {
    CreateActions(d, t, schema, setup);
  }

  lemma CreateEffect(d: Disk, t: TableRef, schema: Schema, setup: Setup, k: nat)
    requires t !in d
    requires 0 < k <= |CreateScript(d, t, schema, setup).actions|
    ensures ApplyAll(d, CreateScript(d, t, schema, setup).actions[..k])
         == d[t := LaidOut(CreateStage(Batch(schema, []), FirstCommitment(schema, setup), k))]
  {
    var empty, c := Batch(schema, []), FirstCommitment(schema, setup);
    CreatePrefix(d, t, schema, setup, k);
    MakeDirFirst(d, t, WriteActions(t, 0, empty, c)[..k - 1]);
    CreateStages(d, t, empty, c, k);
  }

  lemma CreateStages(d: Disk, t: TableRef, empty: RecordBatch, c: TableCommitment, k: nat)
    requires 0 < k <= 5
    ensures ApplyAll(d[t := map[]], WriteActions(t, 0, empty, c)[..k - 1]) == d[t := LaidOut(CreateStage(empty, c, k))]
  {
    var made, bare := d[t := map[]], View([], None);
    WritePair(made, t, bare, empty, c, k - 1);
    CreateIsInsertIntoNothing(empty, c, k);
    Overwrite(d, t, map[], LaidOut(CreateStage(empty, c, k)));
  }

  lemma Overwrite(d: Disk, t: TableRef, first: Dir, second: Dir)
    ensures d[t := first][t := second] == d[t := second]
  {
  }

  lemma CreateIsInsertIntoNothing(empty: RecordBatch, c: TableCommitment, k: nat)
    requires 0 < k
    ensures InsertStage(View([], None), empty, c, k - 1) == CreateStage(empty, c, k)
  {
    assert [] + [Torn] == [Torn] && [] + [ParquetFile(empty)] == [ParquetFile(empty)];
  }
}
