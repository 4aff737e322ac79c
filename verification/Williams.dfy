/**
  * The Williams square of the benchmark suite: its construction, the counters used to judge it,
  * and its balance for positions and first carryover.
  */
module Williams {
  import opened Core

  datatype SuiteError = OddTreatmentCount | BlocksNotPositive | EmptySchedule | IncompleteRotation

  // ---------------------------------------------------------------- the Williams square

  /** Entry `index` of the square's first row: 0, 1, n-1, 2, n-2, ... */
  function BaseEntry(n: nat, index: nat): (entry: nat)
    requires index < n
    ensures entry < n
  {
    if index == 0 then 0
    else if index % 2 == 1 then (index + 1) / 2
    else n - index / 2
  }

  // Arithmetic modulo n on reduced operands.

  function Plus(a: nat, b: nat, n: nat): (c: nat)
    requires a < n && b < n
    ensures c < n
  {
    if a + b < n then a + b else a + b - n
  }

  function Minus(a: nat, b: nat, n: nat): (d: nat)
    requires a < n && b < n
    ensures d < n
  {
    if b <= a then a - b else a + n - b
  }

  lemma {:induction false} Wraps(x: nat, n: nat)
    requires 0 < n && x < 2 * n
    ensures x % n == if x < n then x else x - n
  {
    if x >= n {
      assert x == 1 * n + (x - n);
      assert x / n == 1;
    }
  }

  lemma {:induction false} PlusIsModular(a: nat, b: nat, n: nat)
    requires a < n && b < n
    ensures Plus(a, b, n) == (a + b) % n
  {
    Wraps(a + b, n);
  }

  function SquareRow<T(!new)>(items: seq<T>, shift: nat): (row: seq<T>)
    requires shift < |items|
    ensures |row| == |items|
  {
    seq(|items|, k requires 0 <= k < |items| => items[Plus(BaseEntry(|items|, k), shift, |items|)])
  }

  function Square<T(!new)>(items: seq<T>): (rows: seq<seq<T>>)
    ensures |rows| == |items|
  {
    seq(|items|, shift requires 0 <= shift < |items| => SquareRow(items, shift))
  }

  /** The item in row `s` and column `k`: the columns lead away from the row's own item, up and down in turn. */
  function SquareIndex(n: nat, s: nat, k: nat): (index: nat)
    requires k <= n && 0 < n
    ensures index < n
  {
    if k % 2 == 1 then (s + (k + 1) / 2) % n else (s + n - k / 2) % n
  }

  lemma {:induction false} SquareAt<T(!new)>(items: seq<T>, s: nat, k: nat)
    requires s < |items| && k < |items|
    ensures Square(items)[s][k] == items[SquareIndex(|items|, s, k)]
  {
    var n := |items|;
    PlusIsModular(BaseEntry(n, k), s, n);
    if k == 0 {
      Wraps(s + n, n);
    }
  }

  method WilliamsSequences<T(!new)>(items: seq<T>) returns (r: Result<seq<seq<T>>, SuiteError>)
    ensures r == if |items| < 2 || |items| % 2 == 1 then Err(OddTreatmentCount) else Ok(Square(items))
  {
    var count := |items|;
    if count < 2 || count % 2 != 0 {
      return Err(OddTreatmentCount);
    }
    var base: seq<nat> := [0];
    for index := 1 to count
      invariant |base| == index
      invariant forall k :: 0 <= k < index ==> base[k] == BaseEntry(count, k)
    {
      base := base + [if index % 2 != 0 then (index + 1) / 2 else count - index / 2];
    }
    var rows := seq(count, shift requires 0 <= shift < count =>
      seq(count, k requires 0 <= k < count => items[(base[k] + shift) % count]));
    forall shift | 0 <= shift < count ensures rows[shift] == SquareRow(items, shift) {
      forall k | 0 <= k < count ensures rows[shift][k] == SquareRow(items, shift)[k] {
        PlusIsModular(base[k], shift, count);
      }
    }
    assert rows == Square(items);
    r := Ok(rows);
  }

  /** Shifting by `s` takes `b` to `a` exactly when `s` is their difference. */
  lemma {:induction false} ShiftSolves(n: nat, a: nat, b: nat, s: nat)
    requires a < n && b < n && s < n
    ensures Plus(b, s, n) == a <==> s == Minus(a, b, n)
  {
  }

  /** The position at which the base row holds `v`. */
  function BasePosition(n: nat, v: nat): nat
    requires v < n
  {
    if v == 0 then 0 else if v <= n / 2 then 2 * v - 1 else 2 * (n - v)
  }

  lemma {:induction false} BaseIsPermutation(n: nat, v: nat, k: nat)
    requires v < n && k < n && n % 2 == 0
    ensures BaseEntry(n, k) == v <==> k == BasePosition(n, v)
  {
  }

  /** The position after which the base row steps by `d`: +1, -2, +3, ... modulo n. */
  function StepPosition(n: nat, d: nat): (k: int)
    requires 0 < d < n
  {
    if d % 2 == 1 then d - 1 else n - d - 1
  }

  /** The steps of the base row hit every non-zero residue exactly once. */
  lemma {:induction false} StepsArePermutation(n: nat, d: nat, k: nat)
    requires 0 < d < n && k + 1 < n && n % 2 == 0
    ensures BaseEntry(n, k) < n && BaseEntry(n, k + 1) < n
    ensures Minus(BaseEntry(n, k + 1), BaseEntry(n, k), n) == d <==> k == StepPosition(n, d)
    ensures 0 <= StepPosition(n, d) && StepPosition(n, d) + 1 < n
  {
  }

  /** A pair of residues fixes both the column and the shift at which it is adjacent. */
  lemma {:induction false} PairSolves(n: nat, u: nat, w: nat, k: nat, s: nat)
    requires u < n && w < n && u != w && k + 1 < n && s < n && n % 2 == 0
    ensures BaseEntry(n, k) < n
    ensures 0 < Minus(w, u, n)
    ensures Plus(BaseEntry(n, k), s, n) == u && Plus(BaseEntry(n, k + 1), s, n) == w
       <==> k == StepPosition(n, Minus(w, u, n)) && s == Minus(u, BaseEntry(n, k), n)
  {
    StepsArePermutation(n, Minus(w, u, n), k);
    ShiftSolves(n, u, BaseEntry(n, k), s);
    ShiftSolves(n, w, BaseEntry(n, k + 1), s);
  }

  // ---------------------------------------------------------------- counting

  /** How often a row puts a treatment at a position. */
  function Placed<T(==,!new)>(row: seq<T>, event: (T, nat)): nat {
    if event.1 < |row| && row[event.1] == event.0 then 1 else 0
  }

  /** How often two treatments are neighbours, in that order, in a row. */
  function Adjacent<T(==,!new)>(row: seq<T>, event: (T, T)): nat {
    if |row| < 2 then 0
    else Adjacent(row[..|row| - 1], event) + if (row[|row| - 2], row[|row| - 1]) == event then 1 else 0
  }

  /** The count of an event over all rows. */
  function Tally<R(!new), U(!new)>(weight: (R, U) -> nat, rows: seq<R>, x: U): nat {
    if rows == [] then 0 else Tally(weight, rows[..|rows| - 1], x) + weight(rows[|rows| - 1], x)
  }

  lemma {:induction false} TallyConcat<R(!new), U(!new)>(weight: (R, U) -> nat, a: seq<R>, b: seq<R>, x: U)
    ensures Tally(weight, a + b, x) == Tally(weight, a, x) + Tally(weight, b, x)
  {
    if b == [] {
      assert a + b == a;
    } else {
      assert (a + b)[..|a + b| - 1] == a + b[..|b| - 1];
      TallyConcat(weight, a, b[..|b| - 1], x);
    }
  }

  function Reversed<R(!new)>(rows: seq<R>): (r: seq<R>)
    ensures |r| == |rows|
  {
    if rows == [] then [] else [rows[|rows| - 1]] + Reversed(rows[..|rows| - 1])
  }

  lemma {:induction false} ReversedAt<R(!new)>(rows: seq<R>, i: nat)
    requires i < |rows|
    ensures Reversed(rows)[i] == rows[|rows| - 1 - i]
  {
    if i > 0 {
      ReversedAt(rows[..|rows| - 1], i - 1);
    }
  }

  lemma {:induction false} TallyReversed<R(!new), U(!new)>(weight: (R, U) -> nat, rows: seq<R>, x: U)
    ensures Tally(weight, Reversed(rows), x) == Tally(weight, rows, x)
  {
    if rows != [] {
      var last := rows[|rows| - 1];
      var front := rows[..|rows| - 1];
      TallyConcat(weight, [last], Reversed(front), x);
      TallyReversed(weight, front, x);
      assert [last][..0] == [];
    }
  }

  lemma {:induction false} TallyNever<R(!new), U(!new)>(weight: (R, U) -> nat, rows: seq<R>, x: U)
    requires forall i :: 0 <= i < |rows| ==> weight(rows[i], x) == 0
    ensures Tally(weight, rows, x) == 0
  {
    if rows != [] {
      TallyNever(weight, rows[..|rows| - 1], x);
    }
  }

  /** One row counts the event once, the others not at all. */
  lemma {:induction false} TallyOnce<R(!new), U(!new)>(weight: (R, U) -> nat, rows: seq<R>, s: nat, x: U)
    requires s < |rows| && weight(rows[s], x) == 1
    requires forall i :: 0 <= i < |rows| && i != s ==> weight(rows[i], x) == 0
    ensures Tally(weight, rows, x) == 1
  {
    var front := rows[..|rows| - 1];
    if s == |rows| - 1 {
      TallyNever(weight, front, x);
    } else {
      TallyOnce(weight, front, s, x);
    }
  }

  lemma {:induction false} TallyContains<R(!new), U(!new)>(weight: (R, U) -> nat, rows: seq<R>, s: nat, x: U)
    requires s < |rows|
    ensures weight(rows[s], x) <= Tally(weight, rows, x)
  {
    if s < |rows| - 1 {
      TallyContains(weight, rows[..|rows| - 1], s, x);
    }
  }

  // ---------------------------------------------------------------- balance of the square

  lemma {:induction false} AdjacentNever<T(!new)>(row: seq<T>, a: T, b: T)
    requires forall k :: 0 <= k < |row| - 1 ==> !(row[k] == a && row[k + 1] == b)
    ensures Adjacent(row, (a, b)) == 0
  {
    if |row| >= 2 {
      AdjacentNever(row[..|row| - 1], a, b);
    }
  }

  lemma {:induction false} AdjacentOnce<T(!new)>(row: seq<T>, k: nat, a: T, b: T)
    requires k + 1 < |row| && row[k] == a && row[k + 1] == b
    requires forall j :: 0 <= j < |row| - 1 && j != k ==> !(row[j] == a && row[j + 1] == b)
    ensures Adjacent(row, (a, b)) == 1
  {
    var front := row[..|row| - 1];
    if k == |row| - 2 {
      AdjacentNever(front, a, b);
    } else {
      AdjacentOnce(front, k, a, b);
    }
  }

  ghost predicate EvenDesign<T(!new)>(items: seq<T>) {
    |items| >= 2 && |items| % 2 == 0 && Distinct(items)
  }

  /** Every row holds every item, and each of them once when they are distinct. */
  lemma {:induction false} RowIsPermutation<T(!new)>(items: seq<T>, s: nat)
    requires |items| % 2 == 0 && s < |items|
    ensures Elements(SquareRow(items, s)) == Elements(items)
    ensures Distinct(items) ==> Distinct(SquareRow(items, s))
  {
    RowHasItems(items, s);
    SameElements(SquareRow(items, s), items);
    if Distinct(items) {
      RowIsDistinct(items, s);
    }
  }

  lemma {:induction false} RowHasItems<T(!new)>(items: seq<T>, s: nat)
    requires |items| % 2 == 0 && s < |items|
    ensures forall x :: x in items <==> x in SquareRow(items, s)
  {
    var n, row := |items|, SquareRow(items, s);
    forall v | 0 <= v < n ensures items[v] in row {
      var k := BasePosition(n, Minus(v, s, n));
      BaseIsPermutation(n, Minus(v, s, n), k);
      ShiftSolves(n, v, s, Minus(v, s, n));
      assert row[k] == items[v];
    }
    forall k | 0 <= k < n ensures row[k] in items {
      assert row[k] == items[Plus(BaseEntry(n, k), s, n)];
    }
  }

  lemma {:induction false} RowIsDistinct<T(!new)>(items: seq<T>, s: nat)
    requires |items| % 2 == 0 && s < |items| && Distinct(items)
    ensures Distinct(SquareRow(items, s))
  {
    var n, row := |items|, SquareRow(items, s);
    DistinctIndices(items);
    forall i, j | 0 <= i < j < n ensures row[i] != row[j] {
      var v := Plus(BaseEntry(n, i), s, n);
      ShiftSolves(n, v, s, BaseEntry(n, i));
      ShiftSolves(n, v, s, BaseEntry(n, j));
      BaseIsPermutation(n, BaseEntry(n, i), i);
      BaseIsPermutation(n, BaseEntry(n, i), j);
    }
    DistinctIndices(row);
  }

  /** The only row with an item at a position. */
  lemma {:induction false} OnlyRow<T(!new)>(items: seq<T>, t: T, k: nat) returns (s: nat)
    requires EvenDesign(items) && t in items && k < |items|
    ensures s < |items|
    ensures forall i :: 0 <= i < |items| ==> (Square(items)[i][k] == t <==> i == s)
  {
    var n := |items|;
    var v :| 0 <= v < n && items[v] == t;
    DistinctIndices(items);
    var b := BaseEntry(n, k);
    s := Minus(v, b, n);
    forall i | 0 <= i < n ensures Square(items)[i][k] == t <==> i == s {
      ShiftSolves(n, v, b, i);
      assert Square(items)[i][k] == items[Plus(b, i, n)];
    }
  }

  /** Every item takes every position in exactly one row. */
  lemma {:induction false} SquarePositionOnce<T(!new)>(items: seq<T>, t: T, k: nat)
    requires EvenDesign(items) && t in items && k < |items|
    ensures Tally(Placed, Square(items), (t, k)) == 1
  {
    var s := OnlyRow(items, t, k);
    TallyOnce(Placed, Square(items), s, (t, k));
  }

  /** Where one row holds a given pair of neighbours. */
  lemma {:induction false} NeighboursInRow<T(!new)>(items: seq<T>, u: nat, w: nat, i: nat, j: nat)
    requires EvenDesign(items) && u < |items| && w < |items| && u != w && i < |items| && j + 1 < |items|
    ensures 0 < Minus(w, u, |items|)
    ensures SquareRow(items, i)[j] == items[u] && SquareRow(items, i)[j + 1] == items[w]
       <==> j == StepPosition(|items|, Minus(w, u, |items|)) && i == Minus(u, BaseEntry(|items|, j), |items|)
  {
    var n := |items|;
    DistinctIndices(items);
    PairSolves(n, u, w, j, i);
    var x, y := Plus(BaseEntry(n, j), i, n), Plus(BaseEntry(n, j + 1), i, n);
    assert SquareRow(items, i)[j] == items[x];
    assert SquareRow(items, i)[j + 1] == items[y];
    assert items[x] == items[u] <==> x == u;
    assert items[y] == items[w] <==> y == w;
  }

  predicate Neighbours<T(==,!new)>(row: seq<T>, j: nat, a: T, b: T)
    requires j + 1 < |row|
  {
    row[j] == a && row[j + 1] == b
  }

  /** The two are neighbours, in that order, in row `s` from column `k` and nowhere else. */
  ghost predicate OnlyNeighbours<T(!new)>(rows: seq<seq<T>>, a: T, b: T, s: nat, k: nat) {
    && s < |rows| && k + 1 < |rows[s]|
    && forall i: nat, j: nat :: i < |rows| && j + 1 < |rows[i]| ==> (Neighbours(rows[i], j, a, b) <==> i == s && j == k)
  }

  /** The only place where two distinct items are neighbours, in that order. */
  lemma {:induction false} OnlyPlace<T(!new)>(items: seq<T>, a: T, b: T) returns (s: nat, k: nat)
    requires EvenDesign(items) && a in items && b in items && a != b
    ensures OnlyNeighbours(Square(items), a, b, s, k)
  {
    hide BaseEntry, Plus, Minus, StepPosition, SquareRow;
    var n := |items|;
    var u :| 0 <= u < n && items[u] == a;
    var w :| 0 <= w < n && items[w] == b;
    NeighboursInRow(items, u, w, 0, 0);
    StepsArePermutation(n, Minus(w, u, n), 0);
    k := StepPosition(n, Minus(w, u, n));
    s := Minus(u, BaseEntry(n, k), n);
    forall i: nat, j: nat | i < n && j + 1 < n ensures Neighbours(Square(items)[i], j, a, b) <==> i == s && j == k {
      NeighboursInRow(items, u, w, i, j);
      assert Square(items)[i] == SquareRow(items, i);
    }
  }

  lemma {:induction false} NeighboursCounted<T(!new)>(rows: seq<seq<T>>, a: T, b: T, s: nat, k: nat)
    requires OnlyNeighbours(rows, a, b, s, k)
    ensures Tally(Adjacent, rows, (a, b)) == 1
  {
    forall i: nat | i < |rows| ensures Adjacent(rows[i], (a, b)) == if i == s then 1 else 0 {
      forall j: nat | j + 1 < |rows[i]|
        ensures rows[i][j] == a && rows[i][j + 1] == b <==> i == s && j == k
      {
        assert Neighbours(rows[i], j, a, b) <==> i == s && j == k;
      }
      if i == s {
        assert Neighbours(rows[s], k, a, b);
        AdjacentOnce(rows[i], k, a, b);
      } else {
        AdjacentNever(rows[i], a, b);
      }
    }
    TallyOnce(Adjacent, rows, s, (a, b));
  }

  /** Every ordered pair of distinct items is adjacent in exactly one place. */
  lemma {:induction false} SquareCarryoverOnce<T(!new)>(items: seq<T>, a: T, b: T)
    requires EvenDesign(items) && a in items && b in items && a != b
    ensures Tally(Adjacent, Square(items), (a, b)) == 1
  {
    var s, k := OnlyPlace(items, a, b);
    NeighboursCounted(Square(items), a, b, s, k);
  }
}
