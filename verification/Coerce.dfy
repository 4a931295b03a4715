/** Turning the field elements a query's sums come back as into machine integers. */
module Coerce {
  import opened Arithmetic
  import opened Commitments
  import opened Results

  /** An element of the scalar field. */
  type Scalar = x: nat | x < MODULUS

  datatype IntType = Uint8 | TinyInt | SmallInt | Int | BigInt | Int128

  datatype ColumnType = Integer(intType: IntType) | Decimal75(precision: nat, scale: int) | OtherType(name: string)

  datatype OwnedColumn =
    | Integers(intType: IntType, integers: seq<int>)
    | Decimals(precision: nat, scale: int, unscaled: seq<Scalar>)
    | Scalars(scalars: seq<Scalar>)
    | Others(name: string, cells: seq<string>)

  type NamedColumn = (string, OwnedColumn)

  type OwnedTable = seq<NamedColumn>

  datatype CoerceError = ScalarOverflow

  const TWO_7: int := 0x80
  const TWO_15: int := 0x8000
  const TWO_31: int := 0x8000_0000
  const TWO_63: int := 0x8000_0000_0000_0000
  const TWO_127: int := 0x8000_0000_0000_0000_0000_0000_0000_0000

  function Min(t: IntType): int {
    match t
    case Uint8 => 0
    case TinyInt => -TWO_7
    case SmallInt => -TWO_15
    case Int => -TWO_31
    case BigInt => -TWO_63
    case Int128 => -TWO_127
  }

  function Max(t: IntType): int {
    match t
    case Uint8 => 2 * TWO_7 - 1
    case TinyInt => TWO_7 - 1
    case SmallInt => TWO_15 - 1
    case Int => TWO_31 - 1
    case BigInt => TWO_63 - 1
    case Int128 => TWO_127 - 1
  }

  predicate Fits(v: int, t: IntType) {
    Min(t) <= v <= Max(t)
  }

  function Bits(t: IntType): nat {
    match t
    case Uint8 => 8
    case TinyInt => 8
    case SmallInt => 16
    case Int => 32
    case BigInt => 64
    case Int128 => 128
  }

  /** Each type's range is that of its width in two's complement, unsigned for Uint8 alone. */
  lemma RangesAreWidths(v: int, t: IntType)
    ensures Fits(v, t) <==>
      if t == Uint8 then 0 <= v < Pow2(Bits(t)) else -(Pow2(Bits(t) - 1) as int) <= v < Pow2(Bits(t) - 1)
  {
    Pow2Small();
    Pow2Sum(16, 15);
    Pow2Sum(32, 31);
    Pow2Sum(64, 63);
    Pow2Sum(32, 32);
  }

  const HALF: int := (MODULUS - 1) / 2

  /** The integer a field element stands for: elements above half the modulus are negative. */
  function Signed(x: Scalar): int {
    if x <= HALF then x else x - MODULUS
  }

  function TryInto(x: Scalar, t: IntType): Option<int> {
    if Fits(Signed(x), t) then Some(Signed(x)) else None
  }

  /** Converts every value, or none. */
  function Convert(values: seq<Scalar>, t: IntType): Result<seq<int>, CoerceError> {
    if values == [] then Ok([])
    else
      var first := TryInto(values[0], t);
      if first.None? then Err(ScalarOverflow)
      else
        var rest :- Convert(values[1..], t);
        Ok([first.value] + rest)
  }

  function CoerceScalarColumn(values: seq<Scalar>, toType: ColumnType): Result<OwnedColumn, CoerceError> {
    match toType
    case Integer(t) => var integers :- Convert(values, t); Ok(Integers(t, integers))
    case Decimal75(precision, scale) => Ok(Decimals(precision, scale, values))
    case OtherType(_) => Ok(Scalars(values))
  }

  /** Coerces each scalar column to the type its field declares. Columns and fields are paired in
      order; a column past the last field is dropped. */
  function CoerceScalars(table: OwnedTable, fields: seq<ColumnType>): Result<OwnedTable, CoerceError> {
    if table == [] || fields == [] then Ok([])
    else
      var column :- if table[0].1.Scalars? then CoerceScalarColumn(table[0].1.scalars, fields[0]) else Ok(table[0].1);
      var rest :- CoerceScalars(table[1..], fields[1..]);
      Ok([(table[0].0, column)] + rest)
  }

  // ---- All or nothing ----

  function Length(column: OwnedColumn): nat {
    match column
    case Integers(_, integers) => |integers|
    case Decimals(_, _, unscaled) => |unscaled|
    case Scalars(scalars) => |scalars|
    case Others(_, cells) => |cells|
  }

  predicate Overflows(column: OwnedColumn, field: ColumnType) {
    column.Scalars? && field.Integer? && exists i :: 0 <= i < |column.scalars| && !Fits(Signed(column.scalars[i]), field.intType)
  }

  /** `after` is `before` with its values read at the declared type, and nothing else changed. */
  predicate Coerced(before: OwnedColumn, field: ColumnType, after: OwnedColumn) {
    if !before.Scalars? then after == before
    else match field
      case Integer(t) =>
        && after.Integers? && after.intType == t && |after.integers| == |before.scalars|
        && forall i :: 0 <= i < |before.scalars| ==>
             after.integers[i] == Signed(before.scalars[i]) && Fits(after.integers[i], t)
      case Decimal75(precision, scale) => after == Decimals(precision, scale, before.scalars)
      case OtherType(_) => after == before
  }

  lemma {:induction false} ConvertAllOrNothing(values: seq<Scalar>, t: IntType)
    ensures Convert(values, t).Err? <==> exists i :: 0 <= i < |values| && !Fits(Signed(values[i]), t)
    ensures Convert(values, t).Ok? ==> |Convert(values, t).value| == |values|
    ensures Convert(values, t).Ok? ==>
              forall i :: 0 <= i < |values| ==> Convert(values, t).value[i] == Signed(values[i]) && Fits(Signed(values[i]), t)
  {
    if values != [] {
      var rest := values[1..];
      ConvertAllOrNothing(rest, t);
      assert forall i :: 0 < i < |values| ==> values[i] == rest[i - 1];
      if Convert(rest, t).Err? {
        var i :| 0 <= i < |rest| && !Fits(Signed(rest[i]), t);
        assert !Fits(Signed(values[i + 1]), t);
      }
    }
  }

  lemma ColumnAllOrNothing(column: OwnedColumn, field: ColumnType)
    requires column.Scalars?
    ensures CoerceScalarColumn(column.scalars, field).Err? <==> Overflows(column, field)
    ensures CoerceScalarColumn(column.scalars, field).Ok? ==>
              Coerced(column, field, CoerceScalarColumn(column.scalars, field).value)
  {
    if field.Integer? {
      ConvertAllOrNothing(column.scalars, field.intType);
    }
  }

  /** Coercion fails exactly when some scalar column under an integer field holds a value out of
      range. Otherwise names, order, lengths and every other column are kept. */
  lemma {:induction false} AllOrNothing(table: OwnedTable, fields: seq<ColumnType>)
    ensures CoerceScalars(table, fields).Err? <==>
              exists i :: 0 <= i < |table| && i < |fields| && Overflows(table[i].1, fields[i])
    ensures CoerceScalars(table, fields).Ok? ==>
              var after := CoerceScalars(table, fields).value;
              && |after| == (if |fields| < |table| then |fields| else |table|)
              && forall i :: 0 <= i < |after| ==> after[i].0 == table[i].0 && Coerced(table[i].1, fields[i], after[i].1)
  {
    if table != [] && fields != [] {
      var rest, types := table[1..], fields[1..];
      AllOrNothing(rest, types);
      assert forall i :: 0 < i < |table| ==> table[i] == rest[i - 1];
      assert forall i :: 0 < i < |fields| ==> fields[i] == types[i - 1];
      if table[0].1.Scalars? {
        ColumnAllOrNothing(table[0].1, fields[0]);
      }
      if CoerceScalars(rest, types).Err? {
        var i :| 0 <= i < |rest| && i < |types| && Overflows(rest[i].1, types[i]);
        assert Overflows(table[i + 1].1, fields[i + 1]);
      }
    }
  }

  /** All columns equally long, and no two of one name: what building a table requires. */
  predicate Rectangular(table: OwnedTable) {
    && (forall i, j :: 0 <= i < j < |table| ==> Length(table[i].1) == Length(table[j].1))
    && (forall i, j :: 0 <= i < j < |table| ==> table[i].0 != table[j].0)
  }

  /** Rebuilding the table after coercion cannot fail. */
  lemma RebuildNeverFails(table: OwnedTable, fields: seq<ColumnType>)
    requires Rectangular(table) && CoerceScalars(table, fields).Ok?
    ensures Rectangular(CoerceScalars(table, fields).value)
    ensures |CoerceScalars(table, fields).value| == |table| <==> |table| <= |fields|
  {
    AllOrNothing(table, fields);
    var after := CoerceScalars(table, fields).value;
    forall i | 0 <= i < |after| ensures Length(after[i].1) == Length(table[i].1) {}
  }

  /** What a query never does: given fewer fields than columns, coercion loses columns and reports success. */
  lemma ColumnsPastFieldsLost(column: NamedColumn)
    ensures Rectangular([column]) && CoerceScalars([column], []) == Ok([])
  {
  }

  // ---- Sums ----

  function Sum(values: seq<int>): int {
    if values == [] then 0 else Sum(values[..|values| - 1]) + values[|values| - 1]
  }

  /** The sum as the prover computes it, reducing at every addition. */
  function FieldSum(values: seq<int>): Scalar {
    if values == [] then 0 else Add(FieldSum(values[..|values| - 1]), values[|values| - 1])
  }

  lemma {:induction false} FieldSumIsSum(values: seq<int>)
    ensures FieldSum(values) == Sum(values) % MODULUS
  {
    if values != [] {
      FieldSumIsSum(values[..|values| - 1]);
      ModAbsorb(Sum(values[..|values| - 1]), values[|values| - 1]);
    }
  }

  predicate InWindow(v: int) {
    -HALF <= v <= HALF
  }

  /** What summing with unbounded integers and then narrowing would give. */
  function ExactSum(values: seq<int>, t: IntType): Option<int> {
    if Fits(Sum(values), t) then Some(Sum(values)) else None
  }

  function Shifted(v: int, k: int): int {
    v + k * MODULUS
  }

  lemma FitsInWindow(v: int, t: IntType)
    requires Fits(v, t)
    ensures InWindow(v)
  {
  }

  lemma WindowUnique(v: int, j: int, k: int)
    requires InWindow(Shifted(v, j)) && InWindow(Shifted(v, k))
    ensures j == k
  {
  }

  /** What a reduced value reads as: the one value a multiple of the modulus away that lies in the window. */
  lemma SignedIsShifted(v: int) returns (k: int)
    ensures Signed(v % MODULUS) == Shifted(v, k) && InWindow(Shifted(v, k))
  {
    k := if v % MODULUS <= HALF then -(v / MODULUS) else -(v / MODULUS) - 1;
  }

  /** Summing in the field and coercing back is exact, unless a value some nonzero multiple of the
      modulus away from the sum lies in the declared type. */
  lemma FieldSumExactIff(values: seq<int>, t: IntType)
    ensures TryInto(FieldSum(values), t) == ExactSum(values, t) <==>
            forall k: int :: k != 0 ==> !Fits(Shifted(Sum(values), k), t)
  {
    var v := Sum(values);
    FieldSumIsSum(values);
    var home := SignedIsShifted(v);
    assert v == Shifted(v, 0);
    forall k: int | Fits(Shifted(v, k), t) ensures k == home {
      FitsInWindow(Shifted(v, k), t);
      WindowUnique(v, home, k);
    }
  }

  lemma {:induction false} SumBounded(values: seq<int>, bound: int)
    requires forall i :: 0 <= i < |values| ==> -bound <= values[i] <= bound
    ensures -(|values| * bound) <= Sum(values) <= |values| * bound
  {
    if values != [] {
      SumBounded(values[..|values| - 1], bound);
      assert |values| * bound == (|values| - 1) * bound + bound;
    }
  }

  /** With row count times largest magnitude under half the modulus, never a wrapped value. */
  lemma BoundedSumExact(values: seq<int>, bound: int, t: IntType)
    requires forall i :: 0 <= i < |values| ==> -bound <= values[i] <= bound
    requires |values| * bound <= HALF
    ensures TryInto(FieldSum(values), t) == ExactSum(values, t)
  {
    SumBounded(values, bound);
    FieldSumExactIff(values, t);
    assert InWindow(Shifted(Sum(values), 0));
    forall k: int | Fits(Shifted(Sum(values), k), t) ensures k == 0 {
      FitsInWindow(Shifted(Sum(values), k), t);
      WindowUnique(Sum(values), 0, k);
    }
  }

  predicate AllFit(values: seq<int>, t: IntType) {
    forall i :: 0 <= i < |values| ==> Fits(values[i], t)
  }

  /** Any column of machine integers is short enough, up to 2^125 rows. */
  lemma MachineSumExact(values: seq<int>, from: IntType, to: IntType)
    requires AllFit(values, from) && |values| <= 0x2000_0000_0000_0000_0000_0000_0000_0000
    ensures TryInto(FieldSum(values), to) == ExactSum(values, to)
  {
    assert |values| * TWO_127 <= 0x2000_0000_0000_0000_0000_0000_0000_0000 * TWO_127 <= HALF;
    BoundedSumExact(values, TWO_127, to);
  }

  lemma {:induction false} SumBetween(values: seq<int>, t: IntType)
    requires AllFit(values, t)
    ensures |values| * Min(t) <= Sum(values) <= |values| * Max(t)
  {
    if values != [] {
      SumBetween(values[..|values| - 1], t);
      OneMore(|values| - 1, Min(t));
      OneMore(|values| - 1, Max(t));
    }
  }

  lemma OneMore(n: nat, x: int)
    ensures (n + 1) * x == n * x + x
  {
  }

  lemma Signs(n: nat, t: IntType)
    ensures n * Min(t) <= 0 <= n * Max(t)
  {
  }

  function Clamped(v: int, low: int, high: int): int {
    if v > high then high else if v < low then low else v
  }

  lemma ClampedLeaves(n: nat, target: int, low: int, high: int)
    requires n > 0 && low <= 0 <= high && n * low <= target <= n * high
    ensures (n - 1) * low <= target - Clamped(target, low, high) <= (n - 1) * high
  {
    OneMore(n - 1, low);
    OneMore(n - 1, high);
    assert (n - 1) * low <= 0 <= (n - 1) * high;
  }

  /** Between the extremes, `n` values of a type can sum to anything. */
  lemma {:induction false} SumsReach(n: nat, target: int, t: IntType) returns (values: seq<int>)
    requires n * Min(t) <= target <= n * Max(t)
    ensures |values| == n && AllFit(values, t) && Sum(values) == target
  {
    if n == 0 {
      values := [];
    } else {
      var last := Clamped(target, Min(t), Max(t));
      ClampedLeaves(n, target, Min(t), Max(t));
      var before := SumsReach(n - 1, target - last, t);
      values := before + [last];
      assert values[..|values| - 1] == before;
    }
  }

  ghost predicate AlwaysExact(n: nat, from: IntType, to: IntType) {
    forall values: seq<int> :: |values| == n && AllFit(values, from) ==> TryInto(FieldSum(values), to) == ExactSum(values, to)
  }

  /** How many rows are safe, exactly: columns of `n` machine integers always sum to the exact value or
      an overflow as long as no sum of theirs can come within the result type's range of the modulus. */
  lemma MachineSumExactIff(n: nat, from: IntType, to: IntType)
    ensures AlwaysExact(n, from, to) <==> n * Max(from) < MODULUS + Min(to) && n * Min(from) > Max(to) - MODULUS
  {
    Signs(n, from);
    if n * Max(from) >= MODULUS + Min(to) {
      var values := SumsReach(n, MODULUS + Min(to), from);
      FieldSumExactIff(values, to);
      assert Fits(Shifted(Sum(values), -1), to);
    } else if n * Min(from) <= Max(to) - MODULUS {
      var values := SumsReach(n, Max(to) - MODULUS, from);
      FieldSumExactIff(values, to);
      assert Fits(Shifted(Sum(values), 1), to);
    } else {
      forall values: seq<int> | |values| == n && AllFit(values, from)
        ensures TryInto(FieldSum(values), to) == ExactSum(values, to)
      {
        SumBetween(values, from);
        FieldSumExactIff(values, to);
      }
    }
  }
}
