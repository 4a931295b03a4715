/** File names in a table's directory: how batches are numbered, how names are ordered,
    and when the two agree. */
module Names {

  /** Byte-wise order of file names, the order `paths.sort()` puts a directory's entries in. */
  predicate LexLess(a: string, b: string)
    decreases |b|
  {
    |b| > 0 && (|a| == 0 || a[0] < b[0] || (a[0] == b[0] && LexLess(a[1..], b[1..])))
  }

  ghost predicate Ascending(s: seq<string>) {
    forall i, j :: 0 <= i < j < |s| ==> LexLess(s[i], s[j])
  }

  lemma {:induction false} LexIrreflexive(a: string)
    ensures !LexLess(a, a)
  {
    if |a| > 0 {
      LexIrreflexive(a[1..]);
    }
  }

  lemma {:induction false} LexTransitive(a: string, b: string, c: string)
    requires LexLess(a, b) && LexLess(b, c)
    ensures LexLess(a, c)
    decreases |b|
  {
    if |a| > 0 && a[0] == b[0] == c[0] {
      LexTransitive(a[1..], b[1..], c[1..]);
    }
  }

  lemma {:induction false} LexTotal(a: string, b: string)
    requires a != b
    ensures LexLess(a, b) || LexLess(b, a)
    decreases |a|
  {
    if |a| > 0 && |b| > 0 && a[0] == b[0] {
      assert a == [a[0]] + a[1..] && b == [b[0]] + b[1..];
      LexTotal(a[1..], b[1..]);
    }
  }

  lemma LexAsymmetric(a: string, b: string)
    requires LexLess(a, b)
    ensures !LexLess(b, a)
  {
    if LexLess(b, a) {
      LexTransitive(a, b, a);
      LexIrreflexive(a);
    }
  }

  /** `first` comes before every other name in `names`. */
  predicate IsFirst(first: string, names: set<string>) {
    first in names && forall name :: name in names && name != first ==> LexLess(first, name)
  }

  lemma {:induction false} FirstExists(names: set<string>)
    requires names != {}
    ensures exists first :: IsFirst(first, names)
  {
    var name :| name in names;
    if names == {name} {
      assert IsFirst(name, names);
    } else {
      var rest := names - {name};
      FirstExists(rest);
      var first :| IsFirst(first, rest);
      LexTotal(first, name);
      if LexLess(first, name) {
        assert IsFirst(first, names);
      } else {
        forall other | other in rest && other != first
          ensures LexLess(name, other)
        {
          LexTransitive(name, first, other);
        }
        assert IsFirst(name, names);
      }
    }
  }

  lemma FirstUnique(a: string, b: string, names: set<string>)
    requires IsFirst(a, names) && IsFirst(b, names)
    ensures a == b
  {
    if a != b {
      LexAsymmetric(a, b);
    }
  }

  /** A directory's names, sorted. */
  function Listing(names: set<string>): (listing: seq<string>)
    ensures Ascending(listing)
    ensures forall name :: name in listing <==> name in names
    ensures |listing| == |names|
  {
    if names == {} then [] else
      FirstExists(names);
      assert forall a, b :: IsFirst(a, names) && IsFirst(b, names) ==> a == b by {
        forall a, b | IsFirst(a, names) && IsFirst(b, names) ensures a == b { FirstUnique(a, b, names); }
      }
      var first :| IsFirst(first, names);
      [first] + Listing(names - {first})
  }

  /** A set of names has only one ascending arrangement. */
  lemma {:induction false} ArrangementUnique(a: seq<string>, b: seq<string>)
    requires Ascending(a) && Ascending(b)
    requires forall name :: name in a <==> name in b
    ensures a == b
  {
    assert |a| > 0 ==> a[0] in a;
    assert |b| > 0 ==> b[0] in b;
    if a != [] && b != [] {
      if a[0] != b[0] {
        LexAsymmetric(a[0], b[0]);
      } else {
        assert a == [a[0]] + a[1..] && b == [b[0]] + b[1..];
        LexIrreflexive(a[0]);
        assert a[0] !in a[1..] && b[0] !in b[1..];
        forall name
          ensures name in a[1..] <==> name in b[1..]
        {
          assert name in a[1..] <==> name in a && name != a[0];
          assert name in b[1..] <==> name in b && name != b[0];
        }
        ArrangementUnique(a[1..], b[1..]);
      }
    }
  }

  // ---- Batch numbering ----

  function Digit(d: nat): char
    requires d < 10
  {
    '0' + d as char
  }

  function Pow10(k: nat): nat {
    if k == 0 then 1 else 10 * Pow10(k - 1)
  }

  /** `index` in decimal, padded with zeros on the left to at least `width` characters. */
  function Padded(index: nat, width: nat): (text: string)
    ensures |text| > 0
    decreases index + width
  {
    if index < 10 && width <= 1 then [Digit(index)]
    else Padded(index / 10, if width == 0 then 0 else width - 1) + [Digit(index % 10)]
  }

  const EXTENSION := ".parquet"
  const COMMIT_NAME := "table.commit"
  const WIDTH: nat := 6

  /** The file batch number `index` is stored in. */
  function BatchName(index: nat): string {
    Padded(index, WIDTH) + EXTENSION
  }

  predicate HasParquetExtension(name: string) {
    |name| > |EXTENSION| && name[|name| - |EXTENSION|..] == EXTENSION
  }

  lemma BatchNameIsParquet(index: nat)
    ensures HasParquetExtension(BatchName(index))
    ensures BatchName(index) != COMMIT_NAME
    ensures !HasParquetExtension(COMMIT_NAME)
  {
    var name := BatchName(index);
    assert name[|name| - |EXTENSION|..] == EXTENSION;
    assert COMMIT_NAME[|COMMIT_NAME| - |EXTENSION|..] == "e.commit";
    assert "e.commit"[0] != EXTENSION[0];
  }

  lemma {:induction false} PaddedInjective(i: nat, j: nat, width: nat)
    requires Padded(i, width) == Padded(j, width)
    ensures i == j
    decreases i + width
  {
    var a, b := Padded(i, width), Padded(j, width);
    var less := if width == 0 then 0 else width - 1;
    assert a[|a| - 1] == Digit(i % 10) && b[|b| - 1] == Digit(j % 10);
    if !(i < 10 && width <= 1) {
      assert |a| > 1;
      assert !(j < 10 && width <= 1);
      assert a[..|a| - 1] == Padded(i / 10, less) && b[..|b| - 1] == Padded(j / 10, less);
      PaddedInjective(i / 10, j / 10, less);
    }
  }

  /** The number a string of decimal digits writes. */
  function Value(digits: string): nat
    requires forall i :: 0 <= i < |digits| ==> '0' <= digits[i] <= '9'
  {
    if digits == [] then 0
    else 10 * Value(digits[..|digits| - 1]) + (digits[|digits| - 1] - '0') as nat
  }

  lemma {:induction false} PaddedReads(index: nat, width: nat)
    ensures var text := Padded(index, width);
      && (forall i :: 0 <= i < |text| ==> '0' <= text[i] <= '9')
      && Value(text) == index && |text| >= width
      && (|text| > width && |text| > 1 ==> text[0] != '0')
    decreases index + width
  {
    var text := Padded(index, width);
    if index < 10 && width <= 1 {
      assert text[..0] == [];
    } else {
      var less := if width == 0 then 0 else width - 1;
      PaddedReads(index / 10, less);
      assert text[..|text| - 1] == Padded(index / 10, less);
    }
  }

  /** A batch file's name is its index in decimal, in six digits or as many more as it takes, and the extension. */
  lemma BatchNameReads(index: nat)
    ensures var name := BatchName(index);
            var length := |name| - |EXTENSION|;
      && length >= 6 && name[length..] == ".parquet"
      && (forall i :: 0 <= i < length ==> '0' <= name[i] <= '9')
      && Value(name[..length]) == index && (length > 6 ==> name[0] != '0')
  {
    PaddedReads(index, WIDTH);
    assert BatchName(index)[..|BatchName(index)| - |EXTENSION|] == Padded(index, WIDTH);
  }

  /** Numbering is injective at every index, beyond the padded range too. */
  lemma BatchNameInjective(i: nat, j: nat)
    requires BatchName(i) == BatchName(j)
    ensures i == j
  {
    var a, b := BatchName(i), BatchName(j);
    assert a[..|a| - |EXTENSION|] == Padded(i, WIDTH) && b[..|b| - |EXTENSION|] == Padded(j, WIDTH);
    PaddedInjective(i, j, WIDTH);
  }

  lemma {:induction false} LexPrefix(p: string, a: string, b: string)
    ensures LexLess(p + a, p + b) <==> LexLess(a, b)
  {
    if p == [] {
      assert p + a == a && p + b == b;
    } else {
      assert (p + a)[1..] == p[1..] + a && (p + b)[1..] == p[1..] + b;
      LexPrefix(p[1..], a, b);
    }
  }

  lemma {:induction false} LexExtend(a: string, b: string, x: string, y: string)
    requires LexLess(a, b) && |a| == |b|
    ensures LexLess(a + x, b + y)
    decreases |a|
  {
    if a[0] == b[0] {
      assert (a + x)[1..] == a[1..] + x && (b + y)[1..] == b[1..] + y;
      LexExtend(a[1..], b[1..], x, y);
    }
  }

  lemma {:induction false} PaddedLength(i: nat, width: nat)
    requires 0 < width && i < Pow10(width)
    ensures |Padded(i, width)| == width
    decreases width
  {
    if width == 1 {
      assert Pow10(1) == 10 * Pow10(0);
    } else {
      PaddedLength(i / 10, width - 1);
    }
  }

  /** Within the padded range, numeric order is name order. */
  lemma {:induction false} PaddedOrder(i: nat, j: nat, width: nat)
    requires 0 < width && i < j < Pow10(width)
    ensures LexLess(Padded(i, width), Padded(j, width))
    decreases width
  {
    if width == 1 {
      assert Pow10(1) == 10 * Pow10(0);
    } else {
      var a, b := Padded(i / 10, width - 1), Padded(j / 10, width - 1);
      var x, y := [Digit(i % 10)], [Digit(j % 10)];
      if i / 10 < j / 10 {
        PaddedOrder(i / 10, j / 10, width - 1);
        PaddedLength(i / 10, width - 1);
        PaddedLength(j / 10, width - 1);
        LexExtend(a, b, x, y);
      } else {
        LexPrefix(a, x, y);
      }
    }
  }

  lemma {:induction false} LeadingDigit(i: nat, width: nat)
    requires i >= Pow10(width)
    ensures Padded(i, width)[0] > '0'
    decreases i + width
  {
    if !(i < 10 && width <= 1) {
      LeadingDigit(i / 10, if width == 0 then 0 else width - 1);
    }
  }

  const LIMIT: nat := 1_000_000

  lemma LimitIsPow10()
    ensures Pow10(WIDTH) == LIMIT
  {
    assert Pow10(3) == 1000;
    assert Pow10(WIDTH) == 1000 * Pow10(3);
  }

  /** Batch 0 sorts before every other batch, however many there are. */
  lemma BatchZeroFirst(i: nat)
    requires i > 0
    ensures LexLess(BatchName(0), BatchName(i))
  {
    LimitIsPow10();
    if i < LIMIT {
      PaddedOrder(0, i, WIDTH);
      PaddedLength(0, WIDTH);
      PaddedLength(i, WIDTH);
      LexExtend(Padded(0, WIDTH), Padded(i, WIDTH), EXTENSION, EXTENSION);
    } else {
      LeadingDigit(i, WIDTH);
      assert Padded(0, 6) == "000000";
    }
  }

  function NamesUpTo(n: nat): set<string> {
    set i: nat | 0 <= i < n :: BatchName(i)
  }

  function InsertionOrder(n: nat): seq<string> {
    seq(n, (i: nat) => BatchName(i))
  }

  lemma {:induction false} NamesUpToSize(n: nat)
    ensures |NamesUpTo(n)| == n
  {
    if n > 0 {
      NamesUpToSize(n - 1);
      assert NamesUpTo(n) == NamesUpTo(n - 1) + {BatchName(n - 1)};
      forall i: nat | i < n - 1 ensures BatchName(i) != BatchName(n - 1) {
        if BatchName(i) == BatchName(n - 1) { BatchNameInjective(i, n - 1); }
      }
    }
  }

  /** The first file listed is batch 0 for every number of batches. */
  lemma FirstListed(n: nat)
    requires n > 0
    ensures |Listing(NamesUpTo(n))| == n
    ensures Listing(NamesUpTo(n))[0] == BatchName(0)
  {
    var listing := Listing(NamesUpTo(n));
    NamesUpToSize(n);
    assert BatchName(0) in NamesUpTo(n);
    assert listing[0] in NamesUpTo(n);
    var i: nat :| i < n && listing[0] == BatchName(i);
    if i != 0 {
      BatchZeroFirst(i);
      LexAsymmetric(BatchName(0), BatchName(i));
    }
  }

  /** Sorting the batch names reproduces insertion order up to a million batches, and never beyond. */
  lemma SortedIsInsertionOrder(n: nat)
    ensures Listing(NamesUpTo(n)) == InsertionOrder(n) <==> n <= LIMIT
  {
    var order := InsertionOrder(n);
    if n <= LIMIT {
      forall i, j | 0 <= i < j < n
        ensures LexLess(order[i], order[j])
      {
        LimitIsPow10();
        PaddedOrder(i, j, WIDTH);
        PaddedLength(i, WIDTH);
        PaddedLength(j, WIDTH);
        LexExtend(Padded(i, WIDTH), Padded(j, WIDTH), EXTENSION, EXTENSION);
      }
      forall name ensures name in Listing(NamesUpTo(n)) <==> name in order {
        if name in NamesUpTo(n) {
          var i: nat :| i < n && name == BatchName(i);
          assert order[i] == name;
        }
      }
      ArrangementUnique(Listing(NamesUpTo(n)), order);
    } else {
      OutOfOrder();
      LexAsymmetric(BatchName(1_000_000), BatchName(100_001));
      assert order[100_001] == BatchName(100_001) && order[1_000_000] == BatchName(1_000_000);
      assert !Ascending(order);
    }
  }

  lemma EarlierName()
    ensures BatchName(100_001) == "10000" + "1.parquet"
  {
    assert Padded(10, 2) == "10" && Padded(1000, 4) == "1000";
    assert Padded(100_001, 6) == "100001";
  }

  lemma LaterName()
    ensures BatchName(1_000_000) == "10000" + "00.parquet"
  {
    assert Padded(10, 1) == "10" && Padded(1000, 3) == "1000";
    assert Padded(1_000_000, 6) == "1000000";
  }

  /** The first pair that sorts the wrong way round. */
  lemma OutOfOrder()
    ensures LexLess(BatchName(1_000_000), BatchName(100_001))
  {
    EarlierName();
    LaterName();
    LexPrefix("10000", "00.parquet", "1.parquet");
  }
}
