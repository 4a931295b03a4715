/** A table's directory as an ordered list: the numbered files in insertion order and the
    commitment file. Directories with names, sorting and name counting behave as these lists do. */
module Layout {
  import opened Columns
  import opened Commitments
  import opened Names
  import opened Results
  import opened Store

  datatype View = View(files: seq<File>, commit: Option<File>)

  function LaidOut(view: View): Dir
    decreases |view.files|
  {
    if view.files == [] then
      if view.commit.Some? then map[COMMIT_NAME := view.commit.value] else map[]
    else
      var n := |view.files| - 1;
      LaidOut(View(view.files[..n], view.commit))[BatchName(n) := view.files[n]]
  }

  lemma {:induction false} LaidOutContents(view: View)
    ensures COMMIT_NAME in LaidOut(view) <==> view.commit.Some?
    ensures COMMIT_NAME in LaidOut(view) ==> LaidOut(view)[COMMIT_NAME] == view.commit.value
    ensures forall i: nat :: BatchName(i) in LaidOut(view) <==> i < |view.files|
    ensures forall i: nat :: i < |view.files| ==> LaidOut(view)[BatchName(i)] == view.files[i]
    ensures forall name :: name in LaidOut(view) ==> name == COMMIT_NAME || name in NamesUpTo(|view.files|)
    decreases |view.files|
  {
    forall i: nat ensures BatchName(i) != COMMIT_NAME { BatchNameIsParquet(i); }
    if view.files != [] {
      var n := |view.files| - 1;
      forall i: nat | i != n ensures BatchName(i) != BatchName(n) {
        if BatchName(i) == BatchName(n) { BatchNameInjective(i, n); }
      }
      LaidOutContents(View(view.files[..n], view.commit));
      assert BatchName(n) in NamesUpTo(n + 1);
    }
  }

  /** The list a directory holds, read back from its names. */
  function ViewOf(dir: Dir): View {
    var n := |ParquetPaths(dir)|;
    View(seq(n, (i: nat) => if BatchName(i) in dir then dir[BatchName(i)] else Torn),
         if COMMIT_NAME in dir then Some(dir[COMMIT_NAME]) else None)
  }

  lemma ParquetIffNumbered(view: View, name: string)
    ensures name in LaidOut(view) && HasParquetExtension(name) <==> name in NamesUpTo(|view.files|)
  {
    LaidOutContents(view);
    BatchNameIsParquet(0);
    if name in NamesUpTo(|view.files|) {
      var i: nat :| i < |view.files| && name == BatchName(i);
      BatchNameIsParquet(i);
    }
  }

  /** A directory's parquet names are exactly the first so many batch names. */
  lemma PathsAreNumbered(view: View)
    ensures ParquetPaths(LaidOut(view)) == Listing(NamesUpTo(|view.files|))
    ensures |ParquetPaths(LaidOut(view))| == |view.files|
  {
    var dir := LaidOut(view);
    forall name ensures name in dir && HasParquetExtension(name) <==> name in NamesUpTo(|view.files|) {
      ParquetIffNumbered(view, name);
    }
    assert (set name | name in dir && HasParquetExtension(name)) == NamesUpTo(|view.files|);
    NamesUpToSize(|view.files|);
  }

  lemma ViewRoundTrips(view: View)
    ensures ViewOf(LaidOut(view)) == view
  {
    LaidOutContents(view);
    PathsAreNumbered(view);
    assert ViewOf(LaidOut(view)).files == view.files;
  }

  predicate Numbered(dir: Dir) {
    dir == LaidOut(ViewOf(dir))
  }

  /** Directories with the same names and the same contents are the same. */
  lemma LaidOutUnique(dir: Dir, view: View)
    requires COMMIT_NAME in dir <==> view.commit.Some?
    requires COMMIT_NAME in dir ==> dir[COMMIT_NAME] == view.commit.value
    requires forall i: nat :: i < |view.files| ==> BatchName(i) in dir && dir[BatchName(i)] == view.files[i]
    requires forall name :: name in dir ==> name == COMMIT_NAME || name in NamesUpTo(|view.files|)
    ensures dir == LaidOut(view)
  {
    LaidOutContents(view);
    var laid := LaidOut(view);
    forall name | name in dir || name in laid
      ensures name in dir && name in laid && dir[name] == laid[name]
    {
      if name != COMMIT_NAME {
        var i: nat :| i < |view.files| && name == BatchName(i);
      }
    }
    assert dir.Keys == laid.Keys;
  }

  function SetFile(view: View, i: nat, file: File): View
    requires i <= |view.files|
  {
    if i == |view.files| then view.(files := view.files + [file]) else view.(files := view.files[i := file])
  }

  lemma NamesUpToMonotonic(name: string, few: nat, many: nat)
    requires name in NamesUpTo(few) && few <= many
    ensures name in NamesUpTo(many)
  {
    var i: nat :| i < few && name == BatchName(i);
  }

  lemma WriteBatchContents(view: View, i: nat, file: File, j: nat)
    requires i <= |view.files|
    requires j < |SetFile(view, i, file).files|
    ensures BatchName(j) in LaidOut(view)[BatchName(i) := file]
    ensures LaidOut(view)[BatchName(i) := file][BatchName(j)] == SetFile(view, i, file).files[j]
  {
    LaidOutContents(view);
    if j != i {
      if BatchName(j) == BatchName(i) { BatchNameInjective(j, i); }
      assert BatchName(j) in LaidOut(view);
    }
  }

  lemma WriteBatchNames(view: View, i: nat, file: File, name: string)
    requires i <= |view.files|
    requires name in LaidOut(view)[BatchName(i) := file]
    ensures name == COMMIT_NAME || name in NamesUpTo(|SetFile(view, i, file).files|)
  {
    LaidOutContents(view);
    var after := SetFile(view, i, file);
    if name == BatchName(i) {
      assert BatchName(i) in NamesUpTo(|after.files|);
    } else if name != COMMIT_NAME {
      NamesUpToMonotonic(name, |view.files|, |after.files|);
    }
  }

  /** Writing the next batch name extends the list; writing an existing one replaces its entry. */
  lemma WriteBatchFile(view: View, i: nat, file: File)
    requires i <= |view.files|
    ensures LaidOut(view)[BatchName(i) := file] == LaidOut(SetFile(view, i, file))
  {
    LaidOutContents(view);
    var dir, after := LaidOut(view)[BatchName(i) := file], SetFile(view, i, file);
    BatchNameIsParquet(i);
    forall j: nat | j < |after.files|
      ensures BatchName(j) in dir && dir[BatchName(j)] == after.files[j]
    {
      WriteBatchContents(view, i, file, j);
    }
    forall name | name in dir
      ensures name == COMMIT_NAME || name in NamesUpTo(|after.files|)
    {
      WriteBatchNames(view, i, file, name);
    }
    LaidOutUnique(dir, after);
  }

  lemma WriteCommitFile(view: View, file: File)
    ensures LaidOut(view)[COMMIT_NAME := file] == LaidOut(view.(commit := Some(file)))
  {
    LaidOutContents(view);
    forall i: nat ensures BatchName(i) != COMMIT_NAME { BatchNameIsParquet(i); }
    LaidOutUnique(LaidOut(view)[COMMIT_NAME := file], view.(commit := Some(file)));
  }

  // ---- Reading a listed directory ----

  /** The schema is always that of batch 0, however many batches there are. */
  lemma SchemaIsBatchZero(d: Disk, t: TableRef, view: View)
    requires t in d && d[t] == LaidOut(view)
    ensures SchemaOf(d, t) == if view.files == [] then Err(Empty) else ReadSchema(view.files[0])
    ensures view.files != [] ==> ParquetPaths(d[t])[0] == BatchName(0)
  {
    LaidOutContents(view);
    PathsAreNumbered(view);
    if view.files != [] {
      FirstListed(|view.files|);
    }
  }

  predicate Readable(view: View) {
    view.files != [] && forall i :: 0 <= i < |view.files| ==>
      view.files[i].ParquetFile? && (view.files[0].ParquetFile? ==> view.files[i].batch.schema == view.files[0].batch.schema)
  }

  function AllRows(files: seq<File>): seq<Row> {
    if files == [] then []
    else
      var last := files[|files| - 1];
      AllRows(files[..|files| - 1]) + if last.ParquetFile? then last.batch.rows else []
  }

  /** Every row of a table, in the order it was inserted. */
  function WholeTable(view: View): (table: RecordBatch)
    requires Readable(view)
    ensures table.schema == view.files[0].batch.schema && table.rows == AllRows(view.files)
  {
    AllRowsWidth(view.files, |view.files[0].batch.schema|);
    Batch(view.files[0].batch.schema, AllRows(view.files))
  }

  lemma {:induction false} AllRowsWidth(files: seq<File>, width: nat)
    requires forall i :: 0 <= i < |files| && files[i].ParquetFile? ==> |files[i].batch.schema| == width
    ensures forall i :: 0 <= i < |AllRows(files)| ==> |AllRows(files)[i]| == width
  {
    if files != [] {
      AllRowsWidth(files[..|files| - 1], width);
    }
  }

  /** A batch comes back whole, whatever chunks the reader yields it in. */
  lemma {:induction false} ChunksRoundTrip(batch: RecordBatch)
    ensures ConcatBatches(batch.schema, Chunks(batch)) == Ok(batch)
    decreases |batch.rows|
  {
    if |batch.rows| > CHUNK {
      var head: RecordBatch := Batch(batch.schema, batch.rows[..CHUNK]);
      var rest: RecordBatch := Batch(batch.schema, batch.rows[CHUNK..]);
      ChunksRoundTrip(rest);
      ConcatPrepend(batch.schema, head, Chunks(rest));
      assert head.rows + rest.rows == batch.rows;
    } else if batch.rows != [] {
      ConcatPrepend(batch.schema, batch, []);
      assert [batch] + [] == [batch];
      assert batch.rows + [] == batch.rows;
    }
  }

  lemma {:induction false} ConcatPrepend(schema: Schema, head: RecordBatch, rest: seq<RecordBatch>)
    requires head.schema == schema
    requires forall i :: 0 <= i < |rest| ==> rest[i].schema == schema
    ensures ConcatBatches(schema, rest).Ok? && ConcatBatches(schema, rest).value.schema == schema
    ensures ConcatBatches(schema, [head] + rest)
         == Ok(Batch(schema, head.rows + ConcatBatches(schema, rest).value.rows))
  {
    if rest == [] {
      assert [head] + rest == [head] && [head][..0] == [];
      assert ConcatBatches(schema, []) == Ok(Batch(schema, []));
      assert [] + head.rows == head.rows + [] == head.rows;
    } else {
      var last := |rest| - 1;
      assert ([head] + rest)[..last + 1] == [head] + rest[..last];
      ConcatPrepend(schema, head, rest[..last]);
      assert head.rows + (ConcatBatches(schema, rest[..last]).value.rows + rest[last].rows)
          == head.rows + ConcatBatches(schema, rest[..last]).value.rows + rest[last].rows;
    }
  }

  function Batches(files: seq<File>): seq<RecordBatch>
    requires forall i :: 0 <= i < |files| ==> files[i].ParquetFile?
  {
    seq(|files|, (i: nat) requires i < |files| => files[i].batch)
  }

  lemma {:induction false} ReadFiles(dir: Dir, paths: seq<string>, files: seq<File>)
    requires |paths| == |files|
    requires forall path :: path in paths ==> path in dir
    requires forall i :: 0 <= i < |files| ==> files[i].ParquetFile? && dir[paths[i]] == files[i]
    ensures ReadBatches(dir, paths) == Ok(Batches(files))
  {
    if paths != [] {
      var last := |paths| - 1;
      ReadFiles(dir, paths[..last], files[..last]);
      ChunksRoundTrip(files[last].batch);
      assert Batches(files) == Batches(files[..last]) + [files[last].batch];
    }
  }

  lemma {:induction false} ConcatFiles(schema: Schema, files: seq<File>)
    requires forall i :: 0 <= i < |files| ==> files[i].ParquetFile? && files[i].batch.schema == schema
    ensures ConcatBatches(schema, Batches(files)).Ok?
    ensures ConcatBatches(schema, Batches(files)).value == Batch(schema, AllRows(files))
  {
    if files != [] {
      var last := |files| - 1;
      ConcatFiles(schema, files[..last]);
      assert Batches(files)[..last] == Batches(files[..last]);
    }
  }

  /** Readers meet the files in insertion order exactly up to a million of them. */
  lemma PathsInOrder(view: View)
    ensures ParquetPaths(LaidOut(view)) == InsertionOrder(|view.files|) <==> |view.files| <= LIMIT
  {
    PathsAreNumbered(view);
    SortedIsInsertionOrder(|view.files|);
  }

  lemma FilesInOrder(view: View, paths: seq<string>)
    requires paths == InsertionOrder(|view.files|)
    ensures forall path :: path in paths ==> path in LaidOut(view)
    ensures forall i :: 0 <= i < |paths| ==> paths[i] in LaidOut(view) && LaidOut(view)[paths[i]] == view.files[i]
  {
    LaidOutContents(view);
    forall i | 0 <= i < |paths|
      ensures paths[i] in LaidOut(view) && LaidOut(view)[paths[i]] == view.files[i]
    {
      assert paths[i] == BatchName(i);
    }
  }

  /** Up to a million files, a table reads back as its batches in the order they were inserted. */
  lemma ReadsBackInOrder(d: Disk, t: TableRef, view: View)
    requires t in d && d[t] == LaidOut(view) && Readable(view) && |view.files| <= LIMIT
    ensures TableData(d, t) == Ok(WholeTable(view))
  {
    SchemaIsBatchZero(d, t, view);
    var paths := ParquetPaths(d[t]);
    PathsInOrder(view);
    FilesInOrder(view, paths);
    ReadFiles(d[t], paths, view.files);
    ConcatFiles(view.files[0].batch.schema, view.files);
  }

  // ---- Reading in any order ----

  lemma {:induction false} ReadsOneSchema(dir: Dir, paths: seq<string>, schema: Schema)
    requires forall path :: path in paths ==> path in dir
    requires forall path :: path in paths && dir[path].ParquetFile? ==> dir[path].batch.schema == schema
    ensures ReadBatches(dir, paths).Err? ==> ReadBatches(dir, paths).error == NotParquet
    ensures ReadBatches(dir, paths).Ok? ==>
              forall i :: 0 <= i < |paths| ==> ReadBatches(dir, paths).value[i].schema == schema
  {
    if paths != [] {
      var last := |paths| - 1;
      ReadsOneSchema(dir, paths[..last], schema);
      var file := dir[paths[last]];
      if file.ParquetFile? {
        ChunksRoundTrip(file.batch);
      }
    }
  }

  lemma {:induction false} ConcatOneSchema(schema: Schema, batches: seq<RecordBatch>)
    requires forall i :: 0 <= i < |batches| ==> batches[i].schema == schema
    ensures ConcatBatches(schema, batches).Ok? && ConcatBatches(schema, batches).value.schema == schema
  {
    if batches != [] {
      ConcatOneSchema(schema, batches[..|batches| - 1]);
    }
  }

  function JoinedRows(batches: seq<RecordBatch>): seq<Row> {
    if batches == [] then [] else JoinedRows(batches[..|batches| - 1]) + batches[|batches| - 1].rows
  }

  /** Batches concatenate exactly when each has the schema's column types in order, whatever the names, and
      then to all their rows in order. */
  lemma {:induction false} ConcatIff(schema: Schema, batches: seq<RecordBatch>)
    ensures ConcatBatches(schema, batches).Ok? <==>
            forall i :: 0 <= i < |batches| ==>
              |batches[i].schema| == |schema| && forall c :: 0 <= c < |schema| ==> batches[i].schema[c].dataType == schema[c].dataType
    ensures ConcatBatches(schema, batches).Ok? ==>
              ConcatBatches(schema, batches).value.schema == schema && ConcatBatches(schema, batches).value.rows == JoinedRows(batches)
    ensures ConcatBatches(schema, batches).Err? ==> ConcatBatches(schema, batches).error == Arrow
  {
    if batches != [] {
      var last := |batches| - 1;
      ConcatIff(schema, batches[..last]);
      assert forall i :: 0 <= i < |batches| ==> batches[i] == if i < last then batches[..last][i] else batches[last];
    }
  }

  lemma FilesOfOneSchema(dir: Dir, view: View, schema: Schema)
    requires dir == LaidOut(view)
    requires forall i :: 0 <= i < |view.files| && view.files[i].ParquetFile? ==> view.files[i].batch.schema == schema
    ensures forall path :: path in ParquetPaths(dir) && dir[path].ParquetFile? ==> dir[path].batch.schema == schema
  {
    LaidOutContents(view);
    PathsAreNumbered(view);
    forall path | path in ParquetPaths(dir) && dir[path].ParquetFile?
      ensures dir[path].batch.schema == schema
    {
      assert path in NamesUpTo(|view.files|);
      var i: nat :| i < |view.files| && path == BatchName(i);
    }
  }

  lemma {:induction false} ReadableFiles(dir: Dir, paths: seq<string>)
    requires forall path :: path in paths ==> path in dir
    ensures ReadBatches(dir, paths).Ok? <==> forall path :: path in paths ==> dir[path].ParquetFile?
  {
    if paths != [] {
      var last := |paths| - 1;
      ReadableFiles(dir, paths[..last]);
      assert forall path :: path in paths <==> path in paths[..last] || path == paths[last];
      if dir[paths[last]].ParquetFile? {
        ChunksRoundTrip(dir[paths[last]].batch);
      }
    }
  }

  lemma AllFilesReadable(dir: Dir, view: View)
    requires dir == LaidOut(view)
    ensures ReadBatches(dir, ParquetPaths(dir)).Ok? <==> forall i :: 0 <= i < |view.files| ==> view.files[i].ParquetFile?
  {
    ReadableFiles(dir, ParquetPaths(dir));
    LaidOutContents(view);
    PathsAreNumbered(view);
    forall i | 0 <= i < |view.files|
      ensures BatchName(i) in ParquetPaths(dir) && dir[BatchName(i)] == view.files[i]
    {
      assert BatchName(i) in NamesUpTo(|view.files|);
    }
    forall path | path in ParquetPaths(dir)
      ensures exists i :: 0 <= i < |view.files| && path == BatchName(i)
    {
      assert path in NamesUpTo(|view.files|);
    }
  }

  /** A table of one schema reads back exactly when each of its files is whole, in whatever order
      and however many they are. */
  lemma ReadsBackIff(d: Disk, t: TableRef, view: View)
    requires t in d && d[t] == LaidOut(view) && view.files != []
    requires forall i :: 0 <= i < |view.files| && view.files[0].ParquetFile? && view.files[i].ParquetFile? ==>
               view.files[i].batch.schema == view.files[0].batch.schema
    ensures TableData(d, t).Ok? <==> Readable(view)
  {
    SchemaIsBatchZero(d, t, view);
    AllFilesReadable(d[t], view);
    if view.files[0].ParquetFile? && ReadBatches(d[t], ParquetPaths(d[t])).Ok? {
      var schema := view.files[0].batch.schema;
      FilesOfOneSchema(d[t], view, schema);
      ReadsOneSchema(d[t], ParquetPaths(d[t]), schema);
      ConcatOneSchema(schema, ReadBatches(d[t], ParquetPaths(d[t])).value);
    }
  }
}
