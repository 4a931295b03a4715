/** The database on disk: one directory per table, holding numbered batch files and one
    commitment file. Nothing is kept in memory, so the disk is the whole state.

    Each operation is a script of disk actions, fixed by what it reads first. The class Db
    carries the scripts out action by action, and the disk after any prefix of a script is what
    an interrupted operation leaves behind. */
module Store {
  import opened Columns
  import opened Commitments
  import opened Names
  import opened Results

  /** A table's reference, as the name of its directory. */
  type TableRef = string

  datatype DbError =
    | Io | NotParquet | Arrow | Decode | Commit | Append
    | AlreadyExists(tableRef: TableRef) | NotFound(tableRef: TableRef) | Empty | SchemaMismatch

  /** A file created or truncated but not written to the end is `Torn`: it is there, and
      nothing can be decoded from it. */
  datatype File = Torn | ParquetFile(batch: RecordBatch) | CommitFile(commitment: TableCommitment)

  type Dir = map<string, File>

  type Disk = map<TableRef, Dir>

  // ---- Reading ----

  /** A table's batch files, as readers meet them. */
  function ParquetPaths(dir: Dir): (paths: seq<string>)
    ensures forall path :: path in paths ==> path in dir
  {
    Listing(set name | name in dir && HasParquetExtension(name))
  }

  function ReadSchema(file: File): Result<Schema, DbError> {
    if file.ParquetFile? then Ok(file.batch.schema) else Err(NotParquet)
  }

  const CHUNK: nat := 1024

  /** The row groups a parquet reader yields; none at all for a file of no rows. */
  function Chunks(batch: RecordBatch): (chunks: seq<RecordBatch>)
    ensures forall i :: 0 <= i < |chunks| ==> chunks[i].schema == batch.schema
    decreases |batch.rows|
  {
    if batch.rows == [] then []
    else if |batch.rows| <= CHUNK then [batch]
    else [Batch(batch.schema, batch.rows[..CHUNK])] + Chunks(Batch(batch.schema, batch.rows[CHUNK..]))
  }

  predicate SameTypes(a: Schema, b: Schema) {
    |a| == |b| && forall i :: 0 <= i < |a| ==> a[i].dataType == b[i].dataType
  }

  /** All rows of `batches` in order, under `schema`; fails if some batch has other column types. */
  function ConcatBatches(schema: Schema, batches: seq<RecordBatch>): Result<RecordBatch, DbError> {
    if batches == [] then Ok(Batch(schema, []))
    else
      var before :- ConcatBatches(schema, batches[..|batches| - 1]);
      var last := batches[|batches| - 1];
      if before.schema == schema && SameTypes(schema, last.schema)
      then Ok(Batch(schema, before.rows + last.rows))
      else Err(Arrow)
  }

  function ReadBatch(file: File): Result<RecordBatch, DbError> {
    if file.ParquetFile? then ConcatBatches(file.batch.schema, Chunks(file.batch)) else Err(NotParquet)
  }

  function ReadBatches(dir: Dir, paths: seq<string>): (r: Result<seq<RecordBatch>, DbError>)
    requires forall path :: path in paths ==> path in dir
    ensures r.Ok? ==> |r.value| == |paths|
  {
    if paths == [] then Ok([])
    else
      var before :- ReadBatches(dir, paths[..|paths| - 1]);
      var last :- ReadBatch(dir[paths[|paths| - 1]]);
      Ok(before + [last])
  }

  function ReadCommitment(dir: Dir): Result<TableCommitment, DbError> {
    if COMMIT_NAME !in dir then Err(Io)
    else if dir[COMMIT_NAME].CommitFile? then Ok(dir[COMMIT_NAME].commitment)
    else Err(Decode)
  }

  function SchemaOf(d: Disk, t: TableRef): Result<Schema, DbError> {
    if t !in d then Err(NotFound(t))
    else if ParquetPaths(d[t]) == [] then Err(Empty)
    else ReadSchema(d[t][ParquetPaths(d[t])[0]])
  }

  function TableData(d: Disk, t: TableRef): Result<RecordBatch, DbError> {
    var schema :- SchemaOf(d, t);
    var batches :- ReadBatches(d[t], ParquetPaths(d[t]));
    ConcatBatches(schema, batches)
  }

  function CommitmentOf(d: Disk, t: TableRef): Result<TableCommitment, DbError> {
    if t !in d then Err(NotFound(t)) else ReadCommitment(d[t])
  }

  function Tables(d: Disk): seq<TableRef> {
    Listing(d.Keys)
  }

  // ---- Disk actions ----

  datatype Action =
    | MakeDir(t: TableRef)
    | Truncate(t: TableRef, name: string)
    | Fill(t: TableRef, name: string, file: File)

  function Apply(d: Disk, action: Action): Disk {
    match action
    case MakeDir(t) => if t in d then d else d[t := map[]]
    case Truncate(t, name) => if t in d then d[t := d[t][name := Torn]] else d
    case Fill(t, name, file) => if t in d then d[t := d[t][name := file]] else d
  }

  function ApplyAll(d: Disk, actions: seq<Action>): Disk {
    if actions == [] then d
    else Apply(ApplyAll(d, actions[..|actions| - 1]), actions[|actions| - 1])
  }

  /** Every disk state passed through while `actions` are carried out. */
  ghost function Trail(d: Disk, actions: seq<Action>): seq<Disk> {
    if actions == [] then [] else Trail(d, actions[..|actions| - 1]) + [ApplyAll(d, actions)]
  }

  lemma {:induction false} TrailAt(d: Disk, actions: seq<Action>, k: nat)
    requires k < |actions|
    ensures |Trail(d, actions)| == |actions| && Trail(d, actions)[k] == ApplyAll(d, actions[..k + 1])
  {
    var last := |actions| - 1;
    if k < last {
      TrailAt(d, actions[..last], k);
      assert actions[..last][..k + 1] == actions[..k + 1];
    } else {
      assert actions[..k + 1] == actions;
      if last > 0 { TrailAt(d, actions[..last], 0); }
    }
  }

  lemma {:induction false} ApplyAllSplits(d: Disk, a: seq<Action>, b: seq<Action>)
    ensures ApplyAll(d, a + b) == ApplyAll(ApplyAll(d, a), b)
  {
    if b == [] {
      assert a + b == a;
    } else {
      assert (a + b)[..|a + b| - 1] == a + b[..|b| - 1];
      ApplyAllSplits(d, a, b[..|b| - 1]);
    }
  }

  lemma {:induction false} TrailSplits(d: Disk, a: seq<Action>, b: seq<Action>)
    ensures Trail(d, a + b) == Trail(d, a) + Trail(ApplyAll(d, a), b)
  {
    if b == [] {
      assert a + b == a;
    } else {
      assert (a + b)[..|a + b| - 1] == a + b[..|b| - 1];
      TrailSplits(d, a, b[..|b| - 1]);
      ApplyAllSplits(d, a, b);
    }
  }

  /** Carrying out one list of actions and then another. */
  lemma OneAfterAnother(d: Disk, a: seq<Action>, b: seq<Action>)
    ensures ApplyAll(d, a + b) == ApplyAll(ApplyAll(d, a), b)
    ensures Trail(d, a + b) == Trail(d, a) + Trail(ApplyAll(d, a), b)
  {
    ApplyAllSplits(d, a, b);
    TrailSplits(d, a, b);
  }

  lemma OneAction(d: Disk, action: Action)
    ensures ApplyAll(d, [action]) == Apply(d, action) && Trail(d, [action]) == [Apply(d, action)]
  {
    assert [action][..0] == [];
  }

  // ---- Scripts ----

  /** What an operation does to the disk when nothing interrupts it, and what it returns. */
  datatype Script = Script(actions: seq<Action>, result: Result<(), DbError>)

  function WriteFile(t: TableRef, name: string, file: File): seq<Action> {
    [Truncate(t, name), Fill(t, name, file)]
  }

  function CreateScript(d: Disk, t: TableRef, schema: Schema, setup: Setup): Script {
    if t in d then Script([], Err(AlreadyExists(t)))
    else
      var empty := Batch(schema, []);
      var start := [MakeDir(t)] + WriteFile(t, BatchName(0), ParquetFile(empty));
      if !AllProvable(schema) then Script(start, Err(DbError.Commit))
      else
        Script(start + WriteFile(t, COMMIT_NAME, CommitFile(Commitments.Commit(empty, setup))), Ok(()))
  }

  function InsertScript(d: Disk, t: TableRef, batch: RecordBatch, setup: Setup): Script {
    if t !in d then Script([], Err(NotFound(t)))
    else
      var paths := ParquetPaths(d[t]);
      if paths == [] then Script([], Err(Empty))
      else
        var schema := ReadSchema(d[t][paths[0]]);
        if schema.Err? then Script([], Err(schema.error))
        else if batch.schema != schema.value then Script([], Err(SchemaMismatch))
        else
          var commitment := ReadCommitment(d[t]);
          if commitment.Err? then Script([], Err(commitment.error))
          else
            var write := WriteFile(t, BatchName(|paths|), ParquetFile(batch));
            if !Appendable(commitment.value, batch, setup) then Script(write, Err(DbError.Append))
            else
              var extended := Commitments.Append(commitment.value, batch, setup);
              Script(write + WriteFile(t, COMMIT_NAME, CommitFile(extended)), Ok(()))
  }

  // ---- The database ----

  class Db {
    var disk: Disk

    /** Every state the disk has been in since the database was opened. */
    ghost var trail: seq<Disk>

    constructor Open(found: Disk)
      ensures disk == found && trail == []
    {
      disk := found;
      trail := [];
    }

    method Perform(action: Action)
      modifies this
      ensures disk == Apply(old(disk), action)
      ensures trail == old(trail) + [disk]
    {
      disk := Apply(disk, action);
      trail := trail + [disk];
    }

    method Write(t: TableRef, name: string, file: File)
      modifies this
      ensures disk == ApplyAll(old(disk), WriteFile(t, name, file))
      ensures trail == old(trail) + Trail(old(disk), WriteFile(t, name, file))
    {
      Perform(Truncate(t, name));
      Perform(Fill(t, name, file));
      OneAction(old(disk), Truncate(t, name));
      OneAction(Apply(old(disk), Truncate(t, name)), Fill(t, name, file));
      OneAfterAnother(old(disk), [Truncate(t, name)], [Fill(t, name, file)]);
      assert [Truncate(t, name)] + [Fill(t, name, file)] == WriteFile(t, name, file);
    }

    /** Makes a table of no rows, unless it is there already. */
    method CreateTable(t: TableRef, schema: Schema, setup: Setup) returns (r: Result<(), DbError>)
      modifies this
      ensures r == CreateScript(old(disk), t, schema, setup).result
      ensures disk == ApplyAll(old(disk), CreateScript(old(disk), t, schema, setup).actions)
      ensures trail == old(trail) + Trail(old(disk), CreateScript(old(disk), t, schema, setup).actions)
    {
      if t in disk {
        return Err(AlreadyExists(t));
      }
      Perform(MakeDir(t));
      OneAction(old(disk), MakeDir(t));
      var empty := Batch(schema, []);
      Write(t, BatchName(0), ParquetFile(empty));
      ghost var start := [MakeDir(t)] + WriteFile(t, BatchName(0), ParquetFile(empty));
      OneAfterAnother(old(disk), [MakeDir(t)], WriteFile(t, BatchName(0), ParquetFile(empty)));
      if !AllProvable(schema) {
        return Err(DbError.Commit);
      }
      var file := CommitFile(Commitments.Commit(empty, setup));
      Write(t, COMMIT_NAME, file);
      OneAfterAnother(old(disk), start, WriteFile(t, COMMIT_NAME, file));
      return Ok(());
    }

    /** Appends `batch` to a table: the batch file first, then the extended commitment. */
    method Insert(t: TableRef, batch: RecordBatch, setup: Setup) returns (r: Result<(), DbError>)
      modifies this
      ensures r == InsertScript(old(disk), t, batch, setup).result
      ensures disk == ApplyAll(old(disk), InsertScript(old(disk), t, batch, setup).actions)
      ensures trail == old(trail) + Trail(old(disk), InsertScript(old(disk), t, batch, setup).actions)
    {
      if t !in disk {
        return Err(NotFound(t));
      }
      var paths := ParquetPaths(disk[t]);
      if paths == [] {
        return Err(Empty);
      }
      var schema :- ReadSchema(disk[t][paths[0]]);
      if batch.schema != schema {
        return Err(SchemaMismatch);
      }
      var commitment :- ReadCommitment(disk[t]);
      Write(t, BatchName(|paths|), ParquetFile(batch));
      if !Appendable(commitment, batch, setup) {
        return Err(DbError.Append);
      }
      commitment := Commitments.Append(commitment, batch, setup);
      Write(t, COMMIT_NAME, CommitFile(commitment));
      ghost var start := WriteFile(t, BatchName(|paths|), ParquetFile(batch));
      OneAfterAnother(old(disk), start, WriteFile(t, COMMIT_NAME, CommitFile(commitment)));
      return Ok(());
    }
  }
}
