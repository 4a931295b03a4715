/** Table commitments: one group element per column, the sum of every value times the setup
    point at that value's row.

    Setup points live in a cyclic group of prime order MODULUS; naming each by its discrete
    logarithm turns the group into the integers modulo MODULUS, so a point is a number here. */
module Commitments {
  import opened Columns

  const MODULUS: nat := 21888242871839275222246405745257275088548364400416034343698204186575808495617

  type Point = p: nat | p < MODULUS

  /** Powers of tau a prover commits against. */
  type Setup = seq<Point>

  /** A cell, as the field element it commits to. */
  type Row = seq<int>

  /** How many rows are committed to, under which columns, and one point per column. */
  datatype TableCommitment = TableCommitment(schema: Schema, rows: nat, sums: seq<nat>)

  /** An arrow record batch: every row is as wide as the schema. */
  datatype Batch = Batch(schema: Schema, rows: seq<Row>) {
    predicate Valid() {
      forall i :: 0 <= i < |rows| ==> |rows[i]| == |schema|
    }
  }

  type RecordBatch = b: Batch | b.Valid() witness Batch([], [])

  function Add(a: nat, b: int): nat {
    (a + b) % MODULUS
  }

  /** What `rows`, placed at row `offset`, contribute to column `c`. */
  function ColumnSum(rows: seq<Row>, c: nat, offset: nat, setup: Setup): nat
    requires forall i :: 0 <= i < |rows| ==> c < |rows[i]|
    requires offset + |rows| <= |setup|
  {
    if rows == [] then 0
    else Add(ColumnSum(rows[..|rows| - 1], c, offset, setup), rows[|rows| - 1][c] * setup[offset + |rows| - 1])
  }

  function Contribution(batch: RecordBatch, offset: nat, setup: Setup): (sums: seq<nat>)
    requires offset + |batch.rows| <= |setup|
    ensures |sums| == |batch.schema|
    ensures forall c :: 0 <= c < |sums| ==> sums[c] == ColumnSum(batch.rows, c, offset, setup)
  {
    seq(|batch.schema|, (c: nat) requires c < |batch.schema| => ColumnSum(batch.rows, c, offset, setup))
  }

  /** The commitment to `batch` computed from scratch. */
  function Commit(batch: RecordBatch, setup: Setup): TableCommitment
    requires |batch.rows| <= |setup|
  {
    TableCommitment(batch.schema, |batch.rows|, Contribution(batch, 0, setup))
  }

  predicate Appendable(c: TableCommitment, batch: RecordBatch, setup: Setup) {
    c.schema == batch.schema && |c.sums| == |c.schema| && c.rows + |batch.rows| <= |setup|
  }

  /** Extends `c` in place of recomputing it, reading only the new rows. */
  function Append(c: TableCommitment, batch: RecordBatch, setup: Setup): TableCommitment
    requires Appendable(c, batch, setup)
  {
    var more := Contribution(batch, c.rows, setup);
    TableCommitment(c.schema, c.rows + |batch.rows|,
                    seq(|c.sums|, (i: nat) requires i < |c.sums| => Add(c.sums[i], more[i])))
  }

  function Concat(a: RecordBatch, b: RecordBatch): (both: RecordBatch)
    requires a.schema == b.schema
    ensures both.rows == a.rows + b.rows
  {
    Batch(a.schema, a.rows + b.rows)
  }

  lemma AddAssociative(a: nat, b: nat, c: int)
    ensures Add(a, Add(b, c)) == Add(Add(a, b), c)
  {
    ModAbsorb(b + c, a);
    ModAbsorb(a + b, c);
  }

  lemma ModAbsorb(x: int, y: int)
    ensures (y + x % MODULUS) % MODULUS == (x + y) % MODULUS
  {
    var q, r := (x % MODULUS + y) / MODULUS, (x % MODULUS + y) % MODULUS;
    assert x + y == (x / MODULUS + q) * MODULUS + r;
  }

  lemma {:induction false} ColumnSumBounded(rows: seq<Row>, c: nat, offset: nat, setup: Setup)
    requires forall i :: 0 <= i < |rows| ==> c < |rows[i]|
    requires offset + |rows| <= |setup|
    ensures ColumnSum(rows, c, offset, setup) < MODULUS
  {
  }

  /** Summing a concatenation is summing its parts, the second from where the first ends. */
  lemma {:induction false} ColumnSumSplits(a: seq<Row>, b: seq<Row>, c: nat, offset: nat, setup: Setup)
    requires forall i :: 0 <= i < |a| ==> c < |a[i]|
    requires forall i :: 0 <= i < |b| ==> c < |b[i]|
    requires offset + |a| + |b| <= |setup|
    ensures ColumnSum(a + b, c, offset, setup)
         == Add(ColumnSum(a, c, offset, setup), ColumnSum(b, c, offset + |a|, setup))
  {
    if b == [] {
      assert a + b == a;
      ColumnSumBounded(a, c, offset, setup);
    } else {
      var last := |b| - 1;
      assert (a + b)[..|a + b| - 1] == a + b[..last];
      ColumnSumSplits(a, b[..last], c, offset, setup);
      AddAssociative(ColumnSum(a, c, offset, setup), ColumnSum(b[..last], c, offset + |a|, setup),
                     b[last][c] * setup[offset + |a| + last]);
    }
  }

  /** Appending equals recommitting to everything. */
  lemma AppendIsCommit(a: RecordBatch, b: RecordBatch, setup: Setup)
    requires a.schema == b.schema && |a.rows| + |b.rows| <= |setup|
    ensures Append(Commit(a, setup), b, setup) == Commit(Concat(a, b), setup)
  {
    var appended, whole := Append(Commit(a, setup), b, setup), Commit(Concat(a, b), setup);
    forall c | 0 <= c < |a.schema|
      ensures appended.sums[c] == whole.sums[c]
    {
      ColumnSumSplits(a.rows, b.rows, c, 0, setup);
    }
    assert appended.sums == whole.sums;
  }

  /** Only the setup points under the rows matter, not how many more there are. */
  lemma {:induction false} ColumnSumIgnoresSize(rows: seq<Row>, c: nat, offset: nat, small: Setup, large: Setup)
    requires forall i :: 0 <= i < |rows| ==> c < |rows[i]|
    requires small <= large && offset + |rows| <= |small|
    ensures ColumnSum(rows, c, offset, small) == ColumnSum(rows, c, offset, large)
  {
    if rows != [] {
      ColumnSumIgnoresSize(rows[..|rows| - 1], c, offset, small, large);
    }
  }

  lemma ContributionIgnoresSize(batch: RecordBatch, offset: nat, small: Setup, large: Setup)
    requires small <= large && offset + |batch.rows| <= |small|
    ensures Contribution(batch, offset, small) == Contribution(batch, offset, large)
  {
    forall c | 0 <= c < |batch.schema|
      ensures Contribution(batch, offset, small)[c] == Contribution(batch, offset, large)[c]
    {
      ColumnSumIgnoresSize(batch.rows, c, offset, small, large);
    }
  }

  // ---- One ceremony behind every setup ----

  /** The ceremony's powers of tau, of which every setup is a prefix. */
  type Ceremony = nat -> Point

  function Powers(tau: Ceremony, count: nat): Setup {
    seq(count, (i: nat) => tau(i))
  }

  /** The commitment to `batch`, whichever setup it is computed under. */
  function CommitmentTo(tau: Ceremony, batch: RecordBatch): TableCommitment {
    Commit(batch, Powers(tau, |batch.rows|))
  }

  lemma PowersPrefix(tau: Ceremony, few: nat, many: nat)
    requires few <= many
    ensures Powers(tau, few) <= Powers(tau, many)
  {
  }

  /** Extending under a setup of any sufficient size, after commitments made under setups of any
      other sizes, gives the one commitment to all rows. */
  lemma AppendUnderAnySetup(tau: Ceremony, a: RecordBatch, b: RecordBatch, capacity: nat)
    requires a.schema == b.schema && |a.rows| + |b.rows| <= capacity
    ensures Appendable(CommitmentTo(tau, a), b, Powers(tau, capacity))
    ensures Append(CommitmentTo(tau, a), b, Powers(tau, capacity)) == CommitmentTo(tau, Concat(a, b))
  {
    var setup := Powers(tau, capacity);
    CommitUnderAnySetup(tau, a, capacity);
    CommitUnderAnySetup(tau, Concat(a, b), capacity);
    AppendIsCommit(a, b, setup);
  }

  lemma CommitUnderAnySetup(tau: Ceremony, batch: RecordBatch, capacity: nat)
    requires |batch.rows| <= capacity
    ensures Commit(batch, Powers(tau, capacity)) == CommitmentTo(tau, batch)
  {
    PowersPrefix(tau, |batch.rows|, capacity);
    ContributionIgnoresSize(batch, 0, Powers(tau, |batch.rows|), Powers(tau, capacity));
  }

  // ---- Which cells a sum is over ----

  function Column(rows: seq<Row>, c: nat): (column: seq<int>)
    requires forall i :: 0 <= i < |rows| ==> c < |rows[i]|
    ensures |column| == |rows| && forall i :: 0 <= i < |rows| ==> column[i] == rows[i][c]
  {
    seq(|rows|, (i: nat) requires i < |rows| => rows[i][c])
  }

  /** The inner product of values and points, over the integers. */
  function Dot(values: seq<int>, points: seq<Point>): int
    requires |values| == |points|
  {
    if values == [] then 0
    else
      var last := |values| - 1;
      Dot(values[..last], points[..last]) + values[last] * points[last]
  }

  lemma {:induction false} ColumnSumIsDot(rows: seq<Row>, c: nat, offset: nat, setup: Setup)
    requires forall i :: 0 <= i < |rows| ==> c < |rows[i]|
    requires offset + |rows| <= |setup|
    ensures ColumnSum(rows, c, offset, setup) == Dot(Column(rows, c), setup[offset..offset + |rows|]) % MODULUS
  {
    if rows != [] {
      var last := |rows| - 1;
      var values, points := Column(rows, c), setup[offset..offset + |rows|];
      ColumnSumIsDot(rows[..last], c, offset, setup);
      assert values[..last] == Column(rows[..last], c);
      assert points[..last] == setup[offset..offset + last] && points[last] == setup[offset + last];
      AddDot(values, points, ColumnSum(rows[..last], c, offset, setup));
    }
  }

  lemma AddDot(values: seq<int>, points: seq<Point>, before: nat)
    requires |values| == |points| && values != []
    requires before == Dot(values[..|values| - 1], points[..|values| - 1]) % MODULUS
    ensures Add(before, values[|values| - 1] * points[|values| - 1]) == Dot(values, points) % MODULUS
  {
    ModAbsorb(Dot(values[..|values| - 1], points[..|values| - 1]), values[|values| - 1] * points[|values| - 1]);
  }

  /** What a batch placed at row `offset` contributes: per column, its own values against the points
      from that row on. */
  lemma ContributionIsDot(batch: RecordBatch, offset: nat, setup: Setup)
    requires offset + |batch.rows| <= |setup|
    ensures |Contribution(batch, offset, setup)| == |batch.schema|
    ensures forall c :: 0 <= c < |batch.schema| ==>
              Contribution(batch, offset, setup)[c] == Dot(Column(batch.rows, c), setup[offset..offset + |batch.rows|]) % MODULUS
  {
    forall c | 0 <= c < |batch.schema|
      ensures Contribution(batch, offset, setup)[c] == Dot(Column(batch.rows, c), setup[offset..offset + |batch.rows|]) % MODULUS
    {
      ColumnSumIsDot(batch.rows, c, offset, setup);
    }
  }

  /** One row: each column gets its own cell times the point at that row. */
  lemma OneRowContribution(batch: RecordBatch, offset: nat, setup: Setup)
    requires |batch.rows| == 1 && offset < |setup|
    ensures |Contribution(batch, offset, setup)| == |batch.schema|
    ensures forall c :: 0 <= c < |batch.schema| ==>
              Contribution(batch, offset, setup)[c] == (batch.rows[0][c] * setup[offset]) % MODULUS
  {
    ContributionIsDot(batch, offset, setup);
    forall c | 0 <= c < |batch.schema|
      ensures Dot(Column(batch.rows, c), setup[offset..offset + 1]) == batch.rows[0][c] * setup[offset]
    {
      assert Column(batch.rows, c)[..0] == [] && setup[offset..offset + 1][..0] == [];
    }
  }

  lemma {:induction false} DotChanges(values: seq<int>, points: seq<Point>, i: nat, v: int)
    requires |values| == |points| && i < |values|
    ensures Dot(values[i := v], points) == Dot(values, points) + (v - values[i]) * points[i]
  {
    var last := |values| - 1;
    if i < last {
      assert values[i := v][..last] == values[..last][i := v];
      DotChanges(values[..last], points[..last], i, v);
    } else {
      assert values[i := v][..last] == values[..last];
    }
  }

  /** `batch` with one cell changed. */
  function Changed(batch: RecordBatch, i: nat, c: nat, v: int): (changed: RecordBatch)
    requires i < |batch.rows| && c < |batch.schema|
    ensures changed.schema == batch.schema && |changed.rows| == |batch.rows|
  {
    Batch(batch.schema, batch.rows[i := batch.rows[i][c := v]])
  }

  /** The same residue comes back after adding exactly the multiples of the modulus. */
  lemma SameResidue(a: nat, x: int)
    requires a < MODULUS
    ensures (a + x) % MODULUS == a <==> x % MODULUS == 0
  {
    ModAbsorb(x, a);
  }

  lemma DotMoves(values: seq<int>, points: seq<Point>, i: nat, v: int, moved: int)
    requires |values| == |points| && i < |values| && moved == (v - values[i]) * points[i]
    ensures Dot(values[i := v], points) % MODULUS == (Dot(values, points) % MODULUS + moved) % MODULUS
  {
    DotChanges(values, points, i, v);
    ModAbsorb(Dot(values, points), moved);
  }

  lemma ChangedColumn(batch: RecordBatch, i: nat, c: nat, v: int, setup: Setup, moved: int)
    requires i < |batch.rows| && c < |batch.schema| && |batch.rows| <= |setup|
    requires moved == (v - batch.rows[i][c]) * setup[i]
    ensures ColumnSum(Changed(batch, i, c, v).rows, c, 0, setup) == (ColumnSum(batch.rows, c, 0, setup) + moved) % MODULUS
  {
    var changed, points := Changed(batch, i, c, v), setup[0..|batch.rows|];
    ColumnSumIsDot(batch.rows, c, 0, setup);
    ColumnSumIsDot(changed.rows, c, 0, setup);
    assert Column(changed.rows, c) == Column(batch.rows, c)[i := v];
    assert points[i] == setup[i];
    DotMoves(Column(batch.rows, c), points, i, v, moved);
  }

  lemma OtherColumns(batch: RecordBatch, i: nat, c: nat, v: int, setup: Setup, other: nat)
    requires i < |batch.rows| && c < |batch.schema| && |batch.rows| <= |setup|
    requires other < |batch.schema| && other != c
    ensures ColumnSum(Changed(batch, i, c, v).rows, other, 0, setup) == ColumnSum(batch.rows, other, 0, setup)
  {
    ColumnSumIsDot(batch.rows, other, 0, setup);
    ColumnSumIsDot(Changed(batch, i, c, v).rows, other, 0, setup);
    assert Column(Changed(batch, i, c, v).rows, other) == Column(batch.rows, other);
  }

  /** Changing one cell moves its own column's sum by the difference times the point at its row, and no
      other column's: the commitment stays the same only if that product vanishes. */
  lemma ChangedCellCommits(batch: RecordBatch, i: nat, c: nat, v: int, setup: Setup, moved: int)
    requires i < |batch.rows| && c < |batch.schema| && |batch.rows| <= |setup|
    requires moved == (v - batch.rows[i][c]) * setup[i]
    ensures var before, after := Commit(batch, setup), Commit(Changed(batch, i, c, v), setup);
      && after.schema == before.schema && after.rows == before.rows && |after.sums| == |before.sums| == |batch.schema|
      && after.sums[c] == (before.sums[c] + moved) % MODULUS
      && (forall other :: 0 <= other < |batch.schema| && other != c ==> after.sums[other] == before.sums[other])
      && (after == before <==> moved % MODULUS == 0)
  {
    var before, after := Commit(batch, setup), Commit(Changed(batch, i, c, v), setup);
    ChangedColumn(batch, i, c, v, setup, moved);
    forall other | 0 <= other < |batch.schema| && other != c
      ensures after.sums[other] == before.sums[other]
    {
      OtherColumns(batch, i, c, v, setup, other);
    }
    ColumnSumBounded(batch.rows, c, 0, setup);
    SameResidue(before.sums[c], moved);
    assert after.sums[c] == before.sums[c] ==> after.sums == before.sums;
  }

  /** The one commitment to a table: its columns, its row count, and per column the inner product of
      that column with the ceremony's powers. */
  lemma CommitmentToIsDot(tau: Ceremony, batch: RecordBatch)
    ensures var c := CommitmentTo(tau, batch);
      && c.schema == batch.schema && c.rows == |batch.rows| && |c.sums| == |batch.schema|
      && |Powers(tau, |batch.rows|)| == |batch.rows|
      && (forall i :: 0 <= i < |batch.rows| ==> Powers(tau, |batch.rows|)[i] == tau(i))
      && forall k :: 0 <= k < |batch.schema| ==> c.sums[k] == Dot(Column(batch.rows, k), Powers(tau, |batch.rows|)) % MODULUS
  {
    var setup := Powers(tau, |batch.rows|);
    ContributionIsDot(batch, 0, setup);
    assert setup[0..|batch.rows|] == setup;
  }
}
