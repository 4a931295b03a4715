/** What holds of every table after every history, interrupted or not, and exactly which
    interruptions part a table's commitment from its data. */
module Invariants {
  import opened Columns
  import opened Commitments
  import opened History
  import opened Layout
  import opened Store

  // ---- One event, summarised ----

  predicate AllNumbered(d: Disk) {
    forall t {:trigger Numbered(d[t])} :: t in d ==> Numbered(d[t])
  }

  /** The table `e` is aimed at, once `k` of its actions are done. */
  function Target(tau: Ceremony, d: Disk, e: Event, k: nat): View
    requires e.op.Insert? ==> e.op.t in d && AcceptsInsert(ViewOf(d[e.op.t]), e.op.batch)
  {
    var setup := Powers(tau, e.capacity);
    match e.op
    case Create(t, schema) => CreateStage(Batch(schema, []), FirstCommitment(schema, setup), k)
    case Insert(t, batch) => InsertStage(ViewOf(d[t]), batch, Extended(ViewOf(d[t]), batch, setup), k)
  }

  /** When `e` gets past its checks, and so may act on the disk at all. */
  predicate Passes(d: Disk, e: Event) {
    if e.op.Create? then e.op.t !in d else e.op.t in d && AcceptsInsert(ViewOf(d[e.op.t]), e.op.batch)
  }

  predicate Commits(tau: Ceremony, d: Disk, e: Event)
    requires Passes(d, e)
  {
    if e.op.Create? then AllProvable(e.op.schema)
    else Appendable(ViewOf(d[e.op.t]).commit.value.commitment, e.op.batch, Powers(tau, e.capacity))
  }

  /** How many disk actions `e` asks for. */
  function Length(tau: Ceremony, d: Disk, e: Event): nat {
    if !Passes(d, e) then 0
    else if e.op.Create? then if Commits(tau, d, e) then 5 else 3
    else if Commits(tau, d, e) then 4 else 2
  }

  function Steps(tau: Ceremony, d: Disk, e: Event): nat {
    if e.stop < Length(tau, d, e) then e.stop else Length(tau, d, e)
  }

  lemma ScriptLength(tau: Ceremony, d: Disk, e: Event)
    requires AllNumbered(d)
    ensures |EventScript(tau, d, e).actions| == Length(tau, d, e)
  {
    var setup := Powers(tau, e.capacity);
    if e.op.Create? && e.op.t !in d {
      CreateActions(d, e.op.t, e.op.schema, setup);
    } else if e.op.Insert? && e.op.t in d {
      InsertActions(d, e.op.t, e.op.batch, setup);
    }
  }

  /** An event touches no table but its own, and that one only by moving it along its stages. */
  lemma EventEffect(tau: Ceremony, d: Disk, e: Event)
    requires AllNumbered(d)
    ensures |Done(tau, d, e)| == Steps(tau, d, e)
    ensures Steps(tau, d, e) == 0 ==> After(tau, d, e) == d
    ensures Steps(tau, d, e) > 0 ==>
              Passes(d, e) && After(tau, d, e) == d[e.op.t := LaidOut(Target(tau, d, e, Steps(tau, d, e)))]
  {
    var setup, k := Powers(tau, e.capacity), Steps(tau, d, e);
    var actions := EventScript(tau, d, e).actions;
    ScriptLength(tau, d, e);
    assert Done(tau, d, e) == actions[..k];
    if k > 0 {
      if e.op.Create? {
        CreateEffect(d, e.op.t, e.op.schema, setup, k);
      } else {
        InsertEffect(d, e.op.t, e.op.batch, setup, k);
      }
    }
  }

  lemma NumberedUpdate(d: Disk, t: TableRef, view: View)
    requires AllNumbered(d)
    ensures AllNumbered(d[t := LaidOut(view)])
    ensures ViewOf(d[t := LaidOut(view)][t]) == view
  {
    ViewRoundTrips(view);
    forall u | u in d && u != t
      ensures Numbered(d[t := LaidOut(view)][u])
    {
      assert d[t := LaidOut(view)][u] == d[u];
    }
  }

  lemma EventViews(tau: Ceremony, d: Disk, e: Event, t: TableRef)
    requires AllNumbered(d)
    ensures AllNumbered(After(tau, d, e))
    ensures t in After(tau, d, e) <==> t in d || (t == e.op.t && Steps(tau, d, e) > 0)
    ensures t in After(tau, d, e) && (t != e.op.t || Steps(tau, d, e) == 0) ==> After(tau, d, e)[t] == d[t]
    ensures Steps(tau, d, e) > 0 ==> Passes(d, e) && e.op.t in After(tau, d, e)
    ensures Steps(tau, d, e) > 0 ==> ViewOf(After(tau, d, e)[e.op.t]) == Target(tau, d, e, Steps(tau, d, e))
  {
    EventEffect(tau, d, e);
    if Steps(tau, d, e) > 0 {
      NumberedUpdate(d, e.op.t, Target(tau, d, e, Steps(tau, d, e)));
    }
  }

  // ---- The invariant ----

  predicate Selects(files: seq<File>, kept: seq<bool>) {
    |kept| == |files| && forall i :: 0 <= i < |files| && kept[i] ==> files[i].ParquetFile?
  }

  /** The rows of the chosen files, in file order. */
  function KeptRows(files: seq<File>, kept: seq<bool>): seq<Row>
    requires Selects(files, kept)
  {
    if files == [] then []
    else
      var last := |files| - 1;
      KeptRows(files[..last], kept[..last]) + if kept[last] then files[last].batch.rows else []
  }

  predicate OneSchema(files: seq<File>, schema: Schema) {
    forall i :: 0 <= i < |files| && files[i].ParquetFile? ==> files[i].batch.schema == schema
  }

  lemma {:induction false} KeptWidth(files: seq<File>, kept: seq<bool>, schema: Schema)
    requires Selects(files, kept) && OneSchema(files, schema)
    ensures forall i :: 0 <= i < |KeptRows(files, kept)| ==> |KeptRows(files, kept)[i]| == |schema|
  {
    if files != [] {
      KeptWidth(files[..|files| - 1], kept[..|files| - 1], schema);
    }
  }

  function Kept(schema: Schema, files: seq<File>, kept: seq<bool>): (table: RecordBatch)
    requires Selects(files, kept) && OneSchema(files, schema)
    ensures table.schema == schema && table.rows == KeptRows(files, kept)
  {
    KeptWidth(files, kept, schema);
    Batch(schema, KeptRows(files, kept))
  }

  /** `c` commits to some of the batches in `files`, in order and each at most once. */
  ghost predicate Covers(tau: Ceremony, schema: Schema, files: seq<File>, c: TableCommitment)
    requires OneSchema(files, schema)
  {
    exists kept :: Selects(files, kept) && c == CommitmentTo(tau, Kept(schema, files, kept))
  }

  ghost predicate Sound(tau: Ceremony, view: View) {
    && (forall i :: 0 <= i < |view.files| ==> !view.files[i].CommitFile?)
    && (view.files == [] || view.files[0].Torn? ==> |view.files| <= 1 && view.commit.None?)
    && (view.files != [] && view.files[0].ParquetFile? ==>
          && OneSchema(view.files, view.files[0].batch.schema)
          && (view.commit.None? ==> |view.files| == 1)
          && (view.commit.Some? ==> !view.commit.value.ParquetFile?)
          && (view.commit.Some? && view.commit.value.CommitFile? ==>
                Covers(tau, view.files[0].batch.schema, view.files, view.commit.value.commitment)))
  }

  lemma KeepOneMore(files: seq<File>, kept: seq<bool>, file: File, keep: bool)
    requires Selects(files, kept) && (keep ==> file.ParquetFile?)
    ensures Selects(files + [file], kept + [keep])
    ensures KeptRows(files + [file], kept + [keep]) == KeptRows(files, kept) + if keep then file.batch.rows else []
  {
    assert (files + [file])[..|files|] == files && (kept + [keep])[..|files|] == kept;
  }

  lemma CoversWithout(tau: Ceremony, schema: Schema, files: seq<File>, c: TableCommitment, file: File)
    requires OneSchema(files, schema) && OneSchema(files + [file], schema)
    requires Covers(tau, schema, files, c)
    ensures Covers(tau, schema, files + [file], c)
  {
    var kept :| Selects(files, kept) && c == CommitmentTo(tau, Kept(schema, files, kept));
    KeepOneMore(files, kept, file, false);
    assert Kept(schema, files + [file], kept + [false]) == Kept(schema, files, kept);
  }

  lemma CoversAppended(tau: Ceremony, files: seq<File>, c: TableCommitment, batch: RecordBatch, capacity: nat)
    requires OneSchema(files, batch.schema) && OneSchema(files + [ParquetFile(batch)], batch.schema)
    requires Covers(tau, batch.schema, files, c)
    requires Appendable(c, batch, Powers(tau, capacity))
    ensures Covers(tau, batch.schema, files + [ParquetFile(batch)], Commitments.Append(c, batch, Powers(tau, capacity)))
  {
    var kept :| Selects(files, kept) && c == CommitmentTo(tau, Kept(batch.schema, files, kept));
    var before := Kept(batch.schema, files, kept);
    KeepOneMore(files, kept, ParquetFile(batch), true);
    AppendUnderAnySetup(tau, before, batch, capacity);
    assert Kept(batch.schema, files + [ParquetFile(batch)], kept + [true]) == Concat(before, batch);
  }

  lemma CreateStageSound(tau: Ceremony, schema: Schema, capacity: nat, k: nat)
    ensures Sound(tau, CreateStage(Batch(schema, []), FirstCommitment(schema, Powers(tau, capacity)), k))
  {
    var empty: RecordBatch := Batch(schema, []);
    var files := [ParquetFile(empty)];
    CommitUnderAnySetup(tau, empty, capacity);
    assert [false][..0] == [] && files[..0] == [];
    assert Selects(files, [false]) && KeptRows(files, [false]) == [];
    assert Kept(schema, files, [false]) == empty;
    assert Covers(tau, schema, files, FirstCommitment(schema, Powers(tau, capacity)));
  }

  lemma InsertStageSound(tau: Ceremony, view: View, batch: RecordBatch, capacity: nat, k: nat)
    requires Sound(tau, view) && AcceptsInsert(view, batch)
    requires k > 2 ==> Appendable(view.commit.value.commitment, batch, Powers(tau, capacity))
    ensures Sound(tau, InsertStage(view, batch, Extended(view, batch, Powers(tau, capacity)), k))
  {
    var c := view.commit.value.commitment;
    var torn, written := view.files + [Torn], view.files + [ParquetFile(batch)];
    assert OneSchema(torn, batch.schema) && OneSchema(written, batch.schema);
    CoversWithout(tau, batch.schema, view.files, c, Torn);
    CoversWithout(tau, batch.schema, view.files, c, ParquetFile(batch));
    if k > 2 {
      CoversAppended(tau, view.files, c, batch, capacity);
    }
  }

  ghost predicate SoundTable(tau: Ceremony, d: Disk, t: TableRef) {
    t in d && Sound(tau, ViewOf(d[t]))
  }

  ghost predicate Good(tau: Ceremony, d: Disk) {
    AllNumbered(d) && forall t {:trigger SoundTable(tau, d, t)} :: t in d ==> SoundTable(tau, d, t)
  }

  lemma TableFacts(tau: Ceremony, d: Disk, t: TableRef)
    requires Good(tau, d) && t in d
    ensures Numbered(d[t]) && Sound(tau, ViewOf(d[t]))
  {
    assert SoundTable(tau, d, t);
  }

  /** The invariant survives an event stopped anywhere. */
  lemma GoodAfter(tau: Ceremony, d: Disk, e: Event)
    requires Good(tau, d)
    ensures Good(tau, After(tau, d, e))
  {
    EventViews(tau, d, e, e.op.t);
    forall t | t in After(tau, d, e)
      ensures SoundTable(tau, After(tau, d, e), t)
    {
      assert t in d ==> SoundTable(tau, d, t);
      EventViews(tau, d, e, t);
      if t == e.op.t && Steps(tau, d, e) > 0 {
        EventEffect(tau, d, e);
        if e.op.Create? {
          CreateStageSound(tau, e.op.schema, e.capacity, Steps(tau, d, e));
        } else {
          InsertStageSound(tau, ViewOf(d[t]), e.op.batch, e.capacity, Steps(tau, d, e));
        }
      }
    }
  }

  /** In every state any history reaches, files are numbered without gaps and a readable
      commitment covers a subsequence of the batches. */
  lemma {:induction false} GoodRun(tau: Ceremony, d: Disk, events: seq<Event>)
    requires Good(tau, d)
    ensures Good(tau, Run(tau, d, events))
  {
    if events != [] {
      GoodRun(tau, d, events[..|events| - 1]);
      GoodAfter(tau, Run(tau, d, events[..|events| - 1]), events[|events| - 1]);
    }
  }
}
