/** The million-file limit is real: one batch past it, a table kept without a single fault reads back
    in an order its commitment does not have. */
module PastLimit {
  import opened Columns
  import opened Commitments
  import opened Consistency
  import opened History
  import opened Invariants
  import opened Layout
  import opened Names
  import opened Results
  import opened Store

  const TABLE := "db.t"
  const SCHEMA: Schema := [Field("x", Int64)]
  const EARLY: nat := 100_001
  const LATE: nat := 1_000_000

  /** Two batches of one row each, every other batch empty. */
  function NthBatch(i: nat): RecordBatch {
    if i == EARLY then Batch(SCHEMA, [[1]]) else if i == LATE then Batch(SCHEMA, [[2]]) else Batch(SCHEMA, [])
  }

  function Files(n: nat): seq<File> {
    seq(n, (i: nat) => ParquetFile(NthBatch(i)))
  }

  function Events(n: nat): seq<Event>
    requires n > 0
  {
    if n == 1 then [Event(Create(TABLE, SCHEMA), 2, 5)]
    else Events(n - 1) + [Event(Insert(TABLE, NthBatch(n - 1)), 2, 4)]
  }

  function Rows(n: nat): seq<Row> {
    if n <= EARLY then [] else if n <= LATE then [[1]] else [[1], [2]]
  }

  lemma FilesStep(n: nat)
    ensures Files(n + 1) == Files(n) + [ParquetFile(NthBatch(n))]
  {
  }

  lemma RowsStep(n: nat)
    ensures Rows(n + 1) == Rows(n) + NthBatch(n).rows
  {
  }

  lemma FilesRowsStep(n: nat)
    requires AllRows(Files(n)) == Rows(n)
    ensures AllRows(Files(n + 1)) == Rows(n + 1)
  {
    FilesStep(n);
    RowsStep(n);
    AllRowsExtend(Files(n), ParquetFile(NthBatch(n)));
  }

  lemma {:induction false} FilesRows(n: nat)
    ensures AllRows(Files(n)) == Rows(n)
  {
    if n > 0 {
      FilesRows(n - 1);
      FilesRowsStep(n - 1);
    }
  }

  predicate Reaches(tau: Ceremony, d: Disk, n: nat) {
    TABLE in d && ViewOf(d[TABLE]).files == Files(n) && Whole(tau, ViewOf(d[TABLE]))
  }

  lemma OneEvent(tau: Ceremony, d: Disk, e: Event, t: TableRef)
    ensures Run(tau, d, [e]) == After(tau, d, e)
    ensures AllClean(tau, d, [e], t) <==> Clean(tau, d, e, t)
  {
    assert [e][..0] == [];
  }

  lemma CreationSteps(tau: Ceremony)
    ensures Passes(map[], Event(Create(TABLE, SCHEMA), 2, 5))
    ensures Steps(tau, map[], Event(Create(TABLE, SCHEMA), 2, 5)) == 5
  {
    assert AllProvable(SCHEMA);
  }

  lemma CreationReaches(tau: Ceremony)
    ensures Reaches(tau, Run(tau, map[], Events(1)), 1)
    ensures AllClean(tau, map[], Events(1), TABLE)
  {
    var e := Event(Create(TABLE, SCHEMA), 2, 5);
    OneEvent(tau, map[], e, TABLE);
    CreationSteps(tau);
    EventViews(tau, map[], e, TABLE);
    CreateMakesWhole(tau, SCHEMA, 2, 5);
    assert Files(1) == [ParquetFile(Batch(SCHEMA, []))];
  }

  lemma InsertCommits(tau: Ceremony, d: Disk, n: nat)
    requires n > 0 && Good(tau, d) && Reaches(tau, d, n)
    ensures var e := Event(Insert(TABLE, NthBatch(n)), 2, 4);
            AcceptsInsert(ViewOf(d[TABLE]), NthBatch(n)) && Commits(tau, d, e) && Steps(tau, d, e) == 4
  {
    var view := ViewOf(d[TABLE]);
    FilesRows(n);
    assert view.files[0] == Files(n)[0] == ParquetFile(Batch(SCHEMA, []));
    assert |WholeTable(view).rows| + |NthBatch(n).rows| <= 2;
  }

  lemma InsertReaches(tau: Ceremony, d: Disk, n: nat)
    requires n > 0 && Good(tau, d) && Reaches(tau, d, n)
    ensures var e := Event(Insert(TABLE, NthBatch(n)), 2, 4);
            Reaches(tau, After(tau, d, e), n + 1) && Clean(tau, d, e, TABLE)
  {
    var e := Event(Insert(TABLE, NthBatch(n)), 2, 4);
    InsertCommits(tau, d, n);
    EventViews(tau, d, e, TABLE);
    EventKeepsWhole(tau, d, e, TABLE);
    FilesStep(n);
  }

  /** An uninterrupted history of `n` files. */
  lemma {:induction false} HistoryReaches(tau: Ceremony, n: nat)
    requires n > 0
    ensures Reaches(tau, Run(tau, map[], Events(n)), n)
    ensures AllClean(tau, map[], Events(n), TABLE)
  {
    if n == 1 {
      CreationReaches(tau);
    } else {
      HistoryReaches(tau, n - 1);
      GoodRun(tau, map[], Events(n - 1));
      InsertReaches(tau, Run(tau, map[], Events(n - 1)), n - 1);
      assert Events(n)[..|Events(n)| - 1] == Events(n - 1);
    }
  }

  // ---- What a reader gets ----

  predicate EmptyFile(file: File) {
    file.ParquetFile? && file.batch.rows == []
  }

  lemma {:induction false} NoRows(files: seq<File>)
    requires forall i :: 0 <= i < |files| ==> EmptyFile(files[i])
    ensures AllRows(files) == []
  {
    if files != [] { NoRows(files[..|files| - 1]); }
  }

  lemma {:induction false} RowsOfOne(files: seq<File>, p: nat)
    requires p < |files| && files[p].ParquetFile?
    requires forall i :: 0 <= i < |files| && i != p ==> EmptyFile(files[i])
    ensures AllRows(files) == files[p].batch.rows
  {
    if p == |files| - 1 { NoRows(files[..p]); } else { RowsOfOne(files[..|files| - 1], p); }
  }

  lemma {:induction false} RowsOfTwo(files: seq<File>, p: nat, q: nat)
    requires p < q < |files| && files[p].ParquetFile? && files[q].ParquetFile?
    requires forall i :: 0 <= i < |files| && i != p && i != q ==> EmptyFile(files[i])
    ensures AllRows(files) == files[p].batch.rows + files[q].batch.rows
  {
    if q == |files| - 1 { RowsOfOne(files[..q], p); } else { RowsOfTwo(files[..|files| - 1], p, q); }
  }

  /** The file stored under each listed name. */
  function Listed(dir: Dir, paths: seq<string>): seq<File>
    requires forall path :: path in paths ==> path in dir
  {
    seq(|paths|, (i: nat) requires i < |paths| => dir[paths[i]])
  }

  /** Listing past the limit puts the later of the two rows first. */
  lemma Positions(n: nat) returns (p: nat, q: nat)
    requires n > LIMIT
    ensures p < q < |Listing(NamesUpTo(n))|
    ensures Listing(NamesUpTo(n))[p] == BatchName(LATE) && Listing(NamesUpTo(n))[q] == BatchName(EARLY)
  {
    var paths := Listing(NamesUpTo(n));
    assert BatchName(LATE) in NamesUpTo(n) && BatchName(EARLY) in NamesUpTo(n);
    p :| p < |paths| && paths[p] == BatchName(LATE);
    q :| q < |paths| && paths[q] == BatchName(EARLY);
    OutOfOrder();
    LexAsymmetric(BatchName(LATE), BatchName(EARLY));
    LexIrreflexive(BatchName(LATE));
  }

  /** Which batch is under the `i`-th listed name. */
  lemma ListedBatch(view: View, n: nat, i: nat) returns (j: nat)
    requires view.files == Files(n) && i < |Listing(NamesUpTo(n))|
    ensures j < n && Listing(NamesUpTo(n))[i] == BatchName(j)
    ensures BatchName(j) in LaidOut(view) && LaidOut(view)[BatchName(j)] == ParquetFile(NthBatch(j))
  {
    assert Listing(NamesUpTo(n))[i] in NamesUpTo(n);
    j :| j < n && Listing(NamesUpTo(n))[i] == BatchName(j);
    LaidOutContents(view);
    assert view.files[j] == ParquetFile(NthBatch(j));
  }

  lemma ListedOnce(n: nat, i: nat, k: nat)
    requires i < |Listing(NamesUpTo(n))| && k < |Listing(NamesUpTo(n))| && i != k
    ensures Listing(NamesUpTo(n))[i] != Listing(NamesUpTo(n))[k]
  {
    LexIrreflexive(Listing(NamesUpTo(n))[i]);
  }

  lemma ListedFile(view: View, n: nat, i: nat, p: nat, q: nat)
    requires view.files == Files(n)
    requires i < |Listing(NamesUpTo(n))| && p < |Listing(NamesUpTo(n))| && q < |Listing(NamesUpTo(n))|
    requires Listing(NamesUpTo(n))[p] == BatchName(LATE) && Listing(NamesUpTo(n))[q] == BatchName(EARLY)
    ensures var path := Listing(NamesUpTo(n))[i];
      && path in LaidOut(view) && LaidOut(view)[path].ParquetFile? && LaidOut(view)[path].batch.schema == SCHEMA
      && LaidOut(view)[path].batch.rows == if i == p then [[2]] else if i == q then [[1]] else []
  {
    var j := ListedBatch(view, n, i);
    if i != p { ListedOnce(n, i, p); } else if j != LATE { BatchNameInjective(j, LATE); }
    if i != q { ListedOnce(n, i, q); } else if j != EARLY { BatchNameInjective(j, EARLY); }
  }

  /** Two one-row files at `p` and `q`, and nothing in the others. */
  predicate TwoRows(files: seq<File>, p: nat, q: nat) {
    && p < q < |files|
    && forall i :: 0 <= i < |files| ==>
         && files[i].ParquetFile? && files[i].batch.schema == SCHEMA
         && files[i].batch.rows == if i == p then [[2]] else if i == q then [[1]] else []
  }

  lemma ListedFiles(view: View, n: nat, files: seq<File>) returns (p: nat, q: nat)
    requires n > LIMIT && view.files == Files(n)
    requires files == Listed(LaidOut(view), ParquetPaths(LaidOut(view)))
    ensures TwoRows(files, p, q)
  {
    PathsAreNumbered(view);
    p, q := Positions(n);
    forall i | 0 <= i < |files|
      ensures files[i].ParquetFile? && files[i].batch.schema == SCHEMA
      ensures files[i].batch.rows == if i == p then [[2]] else if i == q then [[1]] else []
    {
      ListedFile(view, n, i, p, q);
    }
  }

  lemma RowsAsListed(files: seq<File>, p: nat, q: nat)
    requires TwoRows(files, p, q)
    ensures AllRows(files) == [[2], [1]]
  {
    RowsOfTwo(files, p, q);
  }

  lemma ReadsOutOfOrder(d: Disk, view: View, n: nat)
    requires n > LIMIT && TABLE in d && d[TABLE] == LaidOut(view) && view.files == Files(n)
    ensures TableData(d, TABLE) == Ok(Batch(SCHEMA, [[2], [1]]))
  {
    var paths := ParquetPaths(d[TABLE]);
    SchemaIsBatchZero(d, TABLE, view);
    var p, q := ListedFiles(view, n, Listed(d[TABLE], paths));
    RowsAsListed(Listed(d[TABLE], paths), p, q);
    ReadFiles(d[TABLE], paths, Listed(d[TABLE], paths));
    ConcatFiles(SCHEMA, Listed(d[TABLE], paths));
    assert view.files[0] == ParquetFile(NthBatch(0));
  }

  lemma OrderMatters(tau: Ceremony)
    requires tau(0) != tau(1)
    ensures CommitmentTo(tau, Batch(SCHEMA, [[1], [2]])) != CommitmentTo(tau, Batch(SCHEMA, [[2], [1]]))
  {
    var setup := Powers(tau, 2);
    var a: seq<Row>, b: seq<Row> := [[1], [2]], [[2], [1]];
    TwoRowSum(1, 2, setup);
    TwoRowSum(2, 1, setup);
    SumsDiffer(tau(0), tau(1));
    assert CommitmentTo(tau, Batch(SCHEMA, a)).sums[0] == ColumnSum(a, 0, 0, setup);
    assert CommitmentTo(tau, Batch(SCHEMA, b)).sums[0] == ColumnSum(b, 0, 0, setup);
  }

  lemma TwoRowSum(x: int, y: int, setup: Setup)
    requires |setup| == 2
    ensures ColumnSum([[x], [y]], 0, 0, setup) == (x * setup[0] + y * setup[1]) % MODULUS
  {
    var rows: seq<Row> := [[x], [y]];
    assert rows[..1] == [[x]] && rows[..1][..0] == [];
    assert ColumnSum(rows[..1], 0, 0, setup) == Add(0, x * setup[0]);
    ModAbsorb(x * setup[0], y * setup[1]);
  }

  lemma SameResidue(u: int, v: int)
    requires u % MODULUS == v % MODULUS
    ensures u - v == (u / MODULUS - v / MODULUS) * MODULUS
  {
  }

  lemma SumsDiffer(x: Point, y: Point)
    requires x != y
    ensures (1 * x + 2 * y) % MODULUS != (2 * x + 1 * y) % MODULUS
  {
    if (1 * x + 2 * y) % MODULUS == (2 * x + 1 * y) % MODULUS {
      SameResidue(1 * x + 2 * y, 2 * x + 1 * y);
    }
  }

  /** For a table of `n` files, a clean history guarantees matching data exactly when `n` is at most a million. */
  lemma MatchesUpToLimitOnly(tau: Ceremony, n: nat)
    requires n > 0 && tau(0) != tau(1)
    ensures n <= LIMIT <==>
            forall events :: CleanHistory(tau, events, n) ==> Matches(tau, Run(tau, map[], events), TABLE)
  {
    if n <= LIMIT {
      forall events | CleanHistory(tau, events, n)
        ensures Matches(tau, Run(tau, map[], events), TABLE)
      {
        CommitmentMatchesData(tau, events, TABLE);
      }
    } else {
      var d := Run(tau, map[], Events(n));
      HistoryReaches(tau, n);
      GoodRun(tau, map[], Events(n));
      TableFacts(tau, d, TABLE);
      var view := ViewOf(d[TABLE]);
      PathsAreNumbered(view);
      ReadsOutOfOrder(d, view, n);
      CommitmentView(d, TABLE);
      FilesRows(n);
      OrderMatters(tau);
      assert CleanHistory(tau, Events(n), n);
    }
  }

  predicate CleanHistory(tau: Ceremony, events: seq<Event>, n: nat) {
    && TABLE in Run(tau, map[], events) && |ParquetPaths(Run(tau, map[], events)[TABLE])| == n
    && AllClean(tau, map[], events, TABLE)
  }
}
