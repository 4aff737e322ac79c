/**
  * The one-sided exact sign test of the benchmark summary and the win/loss counts it is applied to.
  */
module SignTest {
  import opened Core

  // ---------------------------------------------------------------- binomial coefficients

  function Comb(n: nat, k: nat): nat {
    if k == 0 then 1 else if n == 0 then 0 else Comb(n - 1, k - 1) + Comb(n - 1, k)
  }

  function Factorial(n: nat): nat {
    if n == 0 then 1 else n * Factorial(n - 1)
  }

  function Pow2(n: nat): nat {
    if n == 0 then 1 else 2 * Pow2(n - 1)
  }

  lemma {:induction false} CombBeyond(n: nat, k: nat)
    requires k > n
    ensures Comb(n, k) == 0
  {
    if n > 0 {
      CombBeyond(n - 1, k - 1);
      CombBeyond(n - 1, k);
    }
  }

  lemma {:induction false} CombPositive(n: nat, k: nat)
    requires k <= n
    ensures Comb(n, k) > 0
  {
    if k > 0 {
      CombPositive(n - 1, k - 1);
    }
  }

  lemma {:induction false} CombFull(n: nat)
    ensures Comb(n, n) == 1
  {
    if n > 0 {
      CombFull(n - 1);
      CombBeyond(n - 1, n);
    }
  }

  lemma {:induction false} CombSymmetric(n: nat, k: nat)
    requires k <= n
    ensures Comb(n, k) == Comb(n, n - k)
  {
    if k == 0 || k == n {
      CombFull(n);
    } else {
      CombSymmetric(n - 1, k - 1);
      CombSymmetric(n - 1, k);
    }
  }

  /** One step of the factorial formula: k * (n-1)! and (n-k) * (n-1)! add up to n!. */
  lemma {:induction false} FactorialStep(a: nat, b: nat, k: nat, m: nat, fk: nat, fm: nat, f: nat)
    requires k > 0 && m > 0
    requires a * fk * (m * fm) == f && b * (k * fk) * fm == f
    ensures (a + b) * (k * fk) * (m * fm) == (k + m) * f
  {
    calc {
      (a + b) * (k * fk) * (m * fm);
      a * (k * fk) * (m * fm) + b * (k * fk) * (m * fm);
      { assert a * (k * fk) * (m * fm) == k * (a * fk * (m * fm)); }
      k * f + b * (k * fk) * (m * fm);
      { assert b * (k * fk) * (m * fm) == m * (b * (k * fk) * fm); }
      k * f + m * f;
      (k + m) * f;
    }
  }

  /** The coefficient is n! / (k! (n-k)!). */
  lemma {:induction false} CombFactorial(n: nat, k: nat)
    requires k <= n
    ensures Comb(n, k) * Factorial(k) * Factorial(n - k) == Factorial(n)
  {
    if k == 0 {
    } else if k == n {
      CombFull(n);
    } else {
      CombFactorial(n - 1, k - 1);
      CombFactorial(n - 1, k);
      FactorialStep(Comb(n - 1, k - 1), Comb(n - 1, k), k, n - k, Factorial(k - 1), Factorial(n - k - 1),
                    Factorial(n - 1));
    }
  }

  // ---------------------------------------------------------------- the tail

  /** The number of outcomes with `w` wins or more: the numerator of the test over 2^n. */
  function Tail(n: nat, w: nat): nat
    decreases n + 1 - w
  {
    if w > n then 0 else Comb(n, w) + Tail(n, w + 1)
  }

  /** The number of outcomes with fewer than `w` wins. */
  function Head(n: nat, w: nat): nat {
    if w == 0 then 0 else Head(n, w - 1) + Comb(n, w - 1)
  }

  datatype Fraction = Fraction(numerator: nat, denominator: nat)

  function ExactSignTestOneSided(wins: nat, losses: nat): Option<Fraction> {
    if wins + losses == 0 then None
    else Some(Fraction(Tail(wins + losses, wins), Pow2(wins + losses)))
  }

  lemma {:induction false} TailPascal(n: nat, w: nat)
    requires n > 0 && w > 0
    ensures Tail(n, w) == Tail(n - 1, w - 1) + Tail(n - 1, w)
    decreases n + 1 - w
  {
    if w <= n {
      TailPascal(n, w + 1);
      if w == n {
        CombBeyond(n - 1, n);
      }
    }
  }

  lemma {:induction false} TailWhole(n: nat)
    ensures Tail(n, 0) == Pow2(n)
  {
    if n > 0 {
      TailWhole(n - 1);
      TailPascal(n, 1);
      assert Tail(n - 1, 0) == Comb(n - 1, 0) + Tail(n - 1, 1);
    }
  }

  /** Fewer wins never make the evidence stronger: the tail strictly shrinks as wins grow. */
  lemma {:induction false} TailDecreases(n: nat, w: nat, more: nat)
    requires w < more <= n + 1
    ensures Tail(n, more) < Tail(n, w)
    decreases more - w
  {
    CombPositive(n, w);
    if w + 1 < more {
      TailDecreases(n, w + 1, more);
    }
  }

  lemma {:induction false} HeadAndTail(n: nat, w: nat)
    requires w <= n + 1
    ensures Head(n, w) + Tail(n, w) == Pow2(n)
  {
    if w == 0 {
      TailWhole(n);
    } else {
      HeadAndTail(n, w - 1);
    }
  }

  /** Counting losses instead of wins reverses the coefficients. */
  lemma {:induction false} TailIsHead(n: nat, w: nat)
    requires w <= n
    ensures Tail(n, n - w) == Head(n, w + 1)
  {
    CombSymmetric(n, w);
    if w > 0 {
      TailIsHead(n, w - 1);
    } else {
      assert Tail(n, n + 1) == 0;
    }
  }

  /** The two one-sided tails overlap in exactly the observed outcome. */
  lemma {:induction false} TailsOverlap(wins: nat, losses: nat)
    ensures var n := wins + losses;
            Tail(n, wins) + Tail(n, losses) == Pow2(n) + Comb(n, wins)
  {
    var n := wins + losses;
    TailIsHead(n, wins);
    HeadAndTail(n, wins);
  }

  // ---------------------------------------------------------------- what the tail counts

  /** A list of outcomes; an outcome tells of each untied rotation whether it was won. */
  datatype OutcomeList = Nil | Cons(first: seq<bool>, rest: OutcomeList)

  function Append(a: OutcomeList, b: OutcomeList): OutcomeList {
    match a
    case Nil => b
    case Cons(o, rest) => Cons(o, Append(rest, b))
  }

  function Prepend(won: bool, os: OutcomeList): OutcomeList {
    match os
    case Nil => Nil
    case Cons(o, rest) => Cons([won] + o, Prepend(won, rest))
  }

  /** The 2^n ways in which n untied rotations can be won or lost. */
  function Outcomes(n: nat): OutcomeList {
    if n == 0 then Cons([], Nil) else Append(Prepend(true, Outcomes(n - 1)), Prepend(false, Outcomes(n - 1)))
  }

  /** How often an outcome is listed. */
  function Occurrences(os: OutcomeList, o: seq<bool>): nat {
    match os
    case Nil => 0
    case Cons(first, rest) => (if first == o then 1 else 0) + Occurrences(rest, o)
  }

  function WinsIn(o: seq<bool>): nat {
    if o == [] then 0 else (if o[0] then 1 else 0) + WinsIn(o[1..])
  }

  /** How many of the outcomes have at least `w` wins. */
  function AtLeast(os: OutcomeList, w: int): nat {
    match os
    case Nil => 0
    case Cons(o, rest) => (if WinsIn(o) >= w then 1 else 0) + AtLeast(rest, w)
  }

  lemma {:induction false} AtLeastAppend(a: OutcomeList, b: OutcomeList, w: int)
    ensures AtLeast(Append(a, b), w) == AtLeast(a, w) + AtLeast(b, w)
  {
    if a.Cons? {
      AtLeastAppend(a.rest, b, w);
    }
  }

  lemma {:induction false} AtLeastPrepend(won: bool, os: OutcomeList, w: int)
    ensures AtLeast(Prepend(won, os), w) == AtLeast(os, if won then w - 1 else w)
  {
    if os.Cons? {
      AtLeastPrepend(won, os.rest, w);
      assert ([won] + os.first)[1..] == os.first;
    }
  }

  lemma {:induction false} OccurrencesAppend(a: OutcomeList, b: OutcomeList, o: seq<bool>)
    ensures Occurrences(Append(a, b), o) == Occurrences(a, o) + Occurrences(b, o)
  {
    if a.Cons? {
      OccurrencesAppend(a.rest, b, o);
    }
  }

  lemma {:induction false} OccurrencesPrepend(won: bool, os: OutcomeList, o: seq<bool>)
    ensures Occurrences(Prepend(won, os), o) == if o != [] && o[0] == won then Occurrences(os, o[1..]) else 0
  {
    if os.Cons? {
      OccurrencesPrepend(won, os.rest, o);
      var first := [won] + os.first;
      assert first[0] == won && first[1..] == os.first;
      if o != [] {
        assert o == [o[0]] + o[1..];
      }
    }
  }

  /** Every sequence of n wins and losses is listed exactly once, and nothing else is. */
  lemma {:induction false} OutcomesAreAll(n: nat, o: seq<bool>)
    ensures Occurrences(Outcomes(n), o) == if |o| == n then 1 else 0
  {
    if n > 0 {
      var shorter := Outcomes(n - 1);
      OccurrencesAppend(Prepend(true, shorter), Prepend(false, shorter), o);
      OccurrencesPrepend(true, shorter, o);
      OccurrencesPrepend(false, shorter, o);
      if o != [] {
        OutcomesAreAll(n - 1, o[1..]);
      }
    }
  }

  /** The outcomes split by the first rotation. */
  lemma {:induction false} AtLeastSplit(n: nat, w: int)
    requires n > 0
    ensures AtLeast(Outcomes(n), w) == AtLeast(Outcomes(n - 1), w - 1) + AtLeast(Outcomes(n - 1), w)
  {
    AtLeastAppend(Prepend(true, Outcomes(n - 1)), Prepend(false, Outcomes(n - 1)), w);
    AtLeastPrepend(true, Outcomes(n - 1), w);
    AtLeastPrepend(false, Outcomes(n - 1), w);
  }

  /** The tail, with every negative threshold counting all outcomes. */
  function TailFrom(n: nat, w: int): nat {
    Tail(n, if w > 0 then w else 0)
  }

  lemma {:induction false} TailFromSplit(n: nat, w: int)
    requires n > 0
    ensures TailFrom(n, w) == TailFrom(n - 1, w - 1) + TailFrom(n - 1, w)
  {
    if w > 0 {
      TailPascal(n, w);
    } else {
      TailWhole(n);
      TailWhole(n - 1);
    }
  }

  /** The numerator is the number of outcomes with at least as many wins as observed. */
  lemma {:induction false} TailCountsOutcomes(n: nat, w: int)
    ensures AtLeast(Outcomes(n), w) == TailFrom(n, w)
  {
    if n > 0 {
      AtLeastSplit(n, w);
      TailFromSplit(n, w);
      TailCountsOutcomes(n - 1, w - 1);
      TailCountsOutcomes(n - 1, w);
    }
  }

  function Size(os: OutcomeList): nat {
    match os
    case Nil => 0
    case Cons(_, rest) => 1 + Size(rest)
  }

  lemma {:induction false} AllAtLeast(os: OutcomeList)
    ensures AtLeast(os, 0) == Size(os)
  {
    if os.Cons? {
      AllAtLeast(os.rest);
    }
  }

  /**
    * What the p-value of so many wins and losses is: of all the ways in which as many rotations can go, the
    * share of those with at least these wins.
    */
  ghost predicate IsPValue(p: Option<Fraction>, wins: nat, losses: nat) {
    var n := wins + losses;
    if n == 0 then p == None else p == Some(Fraction(AtLeast(Outcomes(n), wins), Size(Outcomes(n))))
  }

  lemma {:induction false} PValueCounts(wins: nat, losses: nat)
    ensures IsPValue(ExactSignTestOneSided(wins, losses), wins, losses)
  {
    var n := wins + losses;
    TailCountsOutcomes(n, wins);
    TailCountsOutcomes(n, 0);
    AllAtLeast(Outcomes(n));
    TailWhole(n);
  }

  // ---------------------------------------------------------------- the median

  type Samples = map<int, real>

  predicate Least(i: int, keys: set<int>) {
    i in keys && forall j :: j in keys ==> i <= j
  }

  lemma {:induction false} HasLeast(keys: set<int>)
    requires keys != {}
    ensures exists i :: Least(i, keys)
    decreases |keys|
  {
    var k := SomeElement(keys);
    var rest := keys - {k};
    if rest == {} {
      assert keys == {k};
      assert Least(k, keys);
    } else {
      HasLeast(rest);
      var i :| Least(i, rest);
      var least := if k < i then k else i;
      forall j | j in keys ensures least <= j {
        assert j == k || j in rest;
      }
      assert Least(least, keys);
    }
  }

  function LeastOf(keys: set<int>): (i: int)
    requires keys != {}
    ensures Least(i, keys)
  {
    HasLeast(keys);
    var i :| Least(i, keys);
    i
  }

  /** The measurements, rotation by rotation. */
  function ValuesOf(samples: Samples): (values: seq<real>)
    ensures |values| == |samples|
    decreases |samples|
  {
    if samples == map[] then []
    else
      var i := LeastOf(samples.Keys);
      Without(samples, i);
      [samples[i]] + ValuesOf(samples - {i})
  }

  lemma {:induction false} Without(samples: Samples, i: int)
    requires i in samples
    ensures |samples - {i}| == |samples| - 1 && (samples - {i}).Keys == samples.Keys - {i}
  {
    assert (samples - {i}).Keys == samples.Keys - {i};
  }

  /** Puts a value into a sorted list. */
  function Insert(sorted: seq<real>, v: real): (longer: seq<real>)
    ensures |longer| == |sorted| + 1
  {
    if sorted == [] || v <= sorted[0] then [v] + sorted else [sorted[0]] + Insert(sorted[1..], v)
  }

  function Sorted(values: seq<real>): (sorted: seq<real>)
    ensures |sorted| == |values|
  {
    if values == [] then [] else Insert(Sorted(values[1..]), values[0])
  }

  /** The middle of a sorted list: the mean of its two middle values, which are one if their number is odd. */
  function Middle(sorted: seq<real>): real
    requires sorted != []
  {
    (sorted[(|sorted| - 1) / 2] + sorted[|sorted| / 2]) / 2.0
  }

  function Median(samples: Samples): real
    requires samples != map[]
  {
    Middle(Sorted(ValuesOf(samples)))
  }

  predicate Ascending(s: seq<real>) {
    forall i, j :: 0 <= i < j < |s| ==> s[i] <= s[j]
  }

  function CountBelow(s: seq<real>, x: real): nat {
    if s == [] then 0 else CountBelow(s[1..], x) + if s[0] < x then 1 else 0
  }

  function CountAbove(s: seq<real>, x: real): nat {
    if s == [] then 0 else CountAbove(s[1..], x) + if s[0] > x then 1 else 0
  }

  lemma {:induction false} InsertAscends(sorted: seq<real>, v: real)
    requires Ascending(sorted)
    ensures Ascending(Insert(sorted, v))
    ensures Insert(sorted, v)[0] == if sorted == [] || v <= sorted[0] then v else sorted[0]
  {
    if sorted != [] && v > sorted[0] {
      InsertAscends(sorted[1..], v);
    }
  }

  lemma {:induction false} InsertCounts(sorted: seq<real>, v: real, x: real)
    ensures CountBelow(Insert(sorted, v), x) == CountBelow(sorted, x) + if v < x then 1 else 0
    ensures CountAbove(Insert(sorted, v), x) == CountAbove(sorted, x) + if v > x then 1 else 0
  {
    if sorted == [] || v <= sorted[0] {
      assert ([v] + sorted)[1..] == sorted;
    } else {
      InsertCounts(sorted[1..], v, x);
      assert ([sorted[0]] + Insert(sorted[1..], v))[1..] == Insert(sorted[1..], v);
    }
  }

  /** Sorting puts the values in order and keeps how many are below and above any number. */
  lemma {:induction false} SortedValues(values: seq<real>, x: real)
    ensures Ascending(Sorted(values))
    ensures CountBelow(Sorted(values), x) == CountBelow(values, x)
    ensures CountAbove(Sorted(values), x) == CountAbove(values, x)
  {
    if values != [] {
      SortedValues(values[1..], x);
      InsertAscends(Sorted(values[1..]), values[0]);
      InsertCounts(Sorted(values[1..]), values[0], x);
    }
  }

  lemma {:induction false} InsertCommutes(sorted: seq<real>, v: real, w: real)
    ensures Insert(Insert(sorted, v), w) == Insert(Insert(sorted, w), v)
  {
    if sorted != [] && v > sorted[0] && w > sorted[0] {
      InsertCommutes(sorted[1..], v, w);
      assert ([sorted[0]] + Insert(sorted[1..], v))[1..] == Insert(sorted[1..], v);
      assert ([sorted[0]] + Insert(sorted[1..], w))[1..] == Insert(sorted[1..], w);
    } else if sorted == [] || (v <= sorted[0] && w <= sorted[0]) {
      assert ([v] + sorted)[1..] == sorted && ([w] + sorted)[1..] == sorted;
    } else if v <= sorted[0] {
      assert ([v] + sorted)[1..] == sorted;
      assert ([sorted[0]] + Insert(sorted[1..], w))[0] == sorted[0];
    } else {
      assert ([w] + sorted)[1..] == sorted;
      assert ([sorted[0]] + Insert(sorted[1..], v))[0] == sorted[0];
    }
  }

  /** The order of the rotations does not matter: any of them may come first. */
  lemma {:induction false} AnyOrder(samples: Samples, i: int)
    requires i in samples
    ensures Sorted(ValuesOf(samples)) == Insert(Sorted(ValuesOf(samples - {i})), samples[i])
    decreases |samples|
  {
    var k := LeastOf(samples.Keys);
    var rest := ValuesOf(samples - {k});
    assert ([samples[k]] + rest)[1..] == rest;
    if i != k {
      Without(samples, k);
      Without(samples, i);
      AnyOrder(samples - {k}, i);
      assert samples - {k} - {i} == samples - {i} - {k};
      assert LeastOf((samples - {i}).Keys) == k;
      var inner := ValuesOf(samples - {i} - {k});
      assert ([samples[k]] + inner)[1..] == inner;
      InsertCommutes(Sorted(inner), samples[i], samples[k]);
    }
  }

  lemma {:induction false} BelowAtMost(s: seq<real>, x: real, k: nat)
    requires k <= |s| && forall j :: k <= j < |s| ==> s[j] >= x
    ensures CountBelow(s, x) <= k
  {
    if s != [] {
      BelowAtMost(s[1..], x, if k > 0 then k - 1 else 0);
    }
  }

  lemma {:induction false} AboveAtMost(s: seq<real>, x: real, k: nat)
    requires k <= |s| && forall j :: 0 <= j < k ==> s[j] <= x
    ensures CountAbove(s, x) <= |s| - k
  {
    if s != [] {
      AboveAtMost(s[1..], x, if k > 0 then k - 1 else 0);
    }
  }

  /** No more than half of the measurements are below the median, and no more than half above it. */
  lemma {:induction false} MedianHalves(samples: Samples)
    requires samples != map[]
    ensures 2 * CountBelow(ValuesOf(samples), Median(samples)) <= |samples|
    ensures 2 * CountAbove(ValuesOf(samples), Median(samples)) <= |samples|
  {
    hide ValuesOf, Sorted, CountBelow, CountAbove;
    var values, x := ValuesOf(samples), Median(samples);
    var sorted, n := Sorted(values), |samples|;
    SortedValues(values, x);
    assert sorted[(n - 1) / 2] <= sorted[n / 2];
    BelowAtMost(sorted, x, n / 2);
    AboveAtMost(sorted, x, (n - 1) / 2 + 1);
  }

  /** The rotations measured below a number, and above it. */
  function BelowIn(samples: Samples, x: real): set<int> {
    set i | i in samples && samples[i] < x
  }

  function AboveIn(samples: Samples, x: real): set<int> {
    set i | i in samples && samples[i] > x
  }

  lemma {:induction false} CountsInSamples(samples: Samples, x: real)
    ensures CountBelow(ValuesOf(samples), x) == |BelowIn(samples, x)|
    ensures CountAbove(ValuesOf(samples), x) == |AboveIn(samples, x)|
    decreases |samples|
  {
    hide BelowIn, AboveIn;
    if samples == map[] {
      NothingIn(samples, x);
    } else {
      var i := LeastOf(samples.Keys);
      Without(samples, i);
      CountsInSamples(samples - {i}, x);
      OneMoreIn(samples, i, x);
      var rest := ValuesOf(samples - {i});
      assert ([samples[i]] + rest)[1..] == rest;
    }
  }

  lemma {:induction false} NothingIn(samples: Samples, x: real)
    requires samples == map[]
    ensures BelowIn(samples, x) == {} && AboveIn(samples, x) == {}
  {
  }

  lemma {:induction false} OneMoreIn(samples: Samples, i: int, x: real)
    requires i in samples
    ensures |BelowIn(samples, x)| == |BelowIn(samples - {i}, x)| + if samples[i] < x then 1 else 0
    ensures |AboveIn(samples, x)| == |AboveIn(samples - {i}, x)| + if samples[i] > x then 1 else 0
  {
    OneMoreElement(BelowIn(samples, x), BelowIn(samples - {i}, x), i);
    OneMoreElement(AboveIn(samples, x), AboveIn(samples - {i}, x), i);
  }

  lemma {:induction false} OneMoreElement<T(!new)>(all: set<T>, rest: set<T>, i: T)
    requires i !in rest && forall j :: j != i ==> (j in all <==> j in rest)
    ensures |all| == |rest| + if i in all then 1 else 0
  {
    if i in all {
      assert all == rest + {i};
    } else {
      assert all == rest;
    }
  }

  /** The value with `k` measurements before it when they are put in order. */
  ghost predicate Ranks(samples: Samples, v: real, k: nat) {
    |BelowIn(samples, v)| <= k && |AboveIn(samples, v)| + k < |samples|
  }

  lemma {:induction false} SortedRanks(samples: Samples, k: nat)
    requires k < |samples|
    ensures Ranks(samples, Sorted(ValuesOf(samples))[k], k)
  {
    hide ValuesOf, Sorted, CountBelow, CountAbove, BelowIn, AboveIn;
    var values := ValuesOf(samples);
    var sorted, x := Sorted(values), Sorted(values)[k];
    SortedValues(values, x);
    CountsInSamples(samples, x);
    BelowAtMost(sorted, x, k);
    AboveAtMost(sorted, x, k + 1);
  }

  /** The median is the mean of the two measurements in the middle, which are one if their number is odd. */
  lemma {:induction false} MedianIsMiddle(samples: Samples) returns (low: real, high: real)
    requires samples != map[]
    ensures Ranks(samples, low, (|samples| - 1) / 2) && Ranks(samples, high, |samples| / 2)
    ensures Median(samples) == (low + high) / 2.0
  {
    var sorted := Sorted(ValuesOf(samples));
    low, high := sorted[(|samples| - 1) / 2], sorted[|samples| / 2];
    SortedRanks(samples, (|samples| - 1) / 2);
    SortedRanks(samples, |samples| / 2);
  }

  // ---------------------------------------------------------------- the paired comparison

  datatype ComparisonError = NoCommonRotations | ZeroDivision

  datatype PairedCounts = PairedCounts(
    numeratorMedian: real,
    denominatorMedian: real,
    wins: nat,
    losses: nat,
    ties: nat,
    pValue: Option<Fraction>)

  function Common(numerator: Samples, denominator: Samples): set<int> {
    numerator.Keys * denominator.Keys
  }

  predicate Divisible(numerator: Samples, denominator: Samples) {
    forall i :: i in Common(numerator, denominator) ==> denominator[i] != 0.0
  }

  function RatiosOf(numerator: Samples, denominator: Samples): (ratios: Samples)
    requires Divisible(numerator, denominator)
    ensures ratios.Keys == Common(numerator, denominator)
  {
    map i | i in Common(numerator, denominator) :: numerator[i] / denominator[i]
  }

  function Above(ratios: Samples): set<int> {
    set i | i in ratios.Keys && ratios[i] > 1.0
  }

  function Below(ratios: Samples): set<int> {
    set i | i in ratios.Keys && ratios[i] < 1.0
  }

  /** The rotations won: above one where higher is better, below one otherwise. */
  function WinSet(ratios: Samples, higher: bool): set<int> {
    if higher then Above(ratios) else Below(ratios)
  }

  function LossSet(ratios: Samples, higher: bool): set<int> {
    if higher then Below(ratios) else Above(ratios)
  }

  method ComputeRatios(numerator: Samples, denominator: Samples) returns (r: Result<Samples, ComparisonError>)
    ensures Divisible(numerator, denominator) ==> r == Ok(RatiosOf(numerator, denominator))
    ensures !Divisible(numerator, denominator) ==> r == Err(ZeroDivision)
  {
    var rotations := Common(numerator, denominator);
    var rest := rotations;
    while rest != {}
      invariant rest <= rotations
      invariant forall i :: i in rotations && i !in rest ==> denominator[i] != 0.0
      decreases rest
    {
      var i := PickOne(rest);
      if denominator[i] == 0.0 {
        return Err(ZeroDivision);
      }
      rest := rest - {i};
    }
    r := Ok(RatiosOf(numerator, denominator));
  }

  lemma {:induction false} AboveAndBelow(ratios: Samples, wins: set<int>, losses: set<int>)
    requires wins <= ratios.Keys && losses <= ratios.Keys
    requires forall i :: i in ratios.Keys ==> (i in wins <==> ratios[i] > 1.0)
    requires forall i :: i in ratios.Keys ==> (i in losses <==> ratios[i] < 1.0)
    ensures wins == Above(ratios) && losses == Below(ratios)
  {
    forall i: int ensures i in wins <==> i in Above(ratios) {
    }
    forall i: int ensures i in losses <==> i in Below(ratios) {
    }
  }

  method CountAboveAndBelow(ratios: Samples) returns (above: nat, below: nat)
    ensures above == |Above(ratios)| && below == |Below(ratios)| && above + below <= |ratios.Keys|
  {
    above, below := 0, 0;
    var rest := ratios.Keys;
    ghost var wins: set<int>, losses: set<int> := {}, {};
    while rest != {}
      invariant rest <= ratios.Keys && wins <= ratios.Keys && losses <= ratios.Keys
      invariant forall i :: i in ratios.Keys ==> (i in wins <==> i !in rest && ratios[i] > 1.0)
      invariant forall i :: i in ratios.Keys ==> (i in losses <==> i !in rest && ratios[i] < 1.0)
      invariant above == |wins| && below == |losses|
      decreases rest
    {
      var i := PickOne(rest);
      if ratios[i] > 1.0 {
        above, wins := above + 1, wins + {i};
      } else if ratios[i] < 1.0 {
        below, losses := below + 1, losses + {i};
      }
      rest := rest - {i};
    }
    AboveAndBelow(ratios, wins, losses);
    assert |wins + losses| == |wins| + |losses|;
    SubsetCardinality(wins + losses, ratios.Keys);
  }

  lemma {:induction false} CountsFit(ratios: Samples, higher: bool)
    ensures |WinSet(ratios, higher)| + |LossSet(ratios, higher)| <= |ratios.Keys|
  {
    var above, below := Above(ratios), Below(ratios);
    assert |above + below| == |above| + |below|;
    SubsetCardinality(above + below, ratios.Keys);
  }

  /** The answer of a paired comparison. */
  function Compared(numerator: Samples, denominator: Samples, higher: bool): Result<PairedCounts, ComparisonError> {
    if Common(numerator, denominator) == {} then Err(NoCommonRotations)
    else if !Divisible(numerator, denominator) then Err(ZeroDivision)
    else if Median(denominator) == 0.0 then Err(ZeroDivision)
    else
      var ratios := RatiosOf(numerator, denominator);
      var wins, losses := |WinSet(ratios, higher)|, |LossSet(ratios, higher)|;
      CountsFit(ratios, higher);
      Ok(PairedCounts(Median(numerator), Median(denominator), wins, losses, |ratios.Keys| - wins - losses,
                      ExactSignTestOneSided(wins, losses)))
  }

  /** The first measurement is the better one: their ratio is on the good side of one. */
  predicate Beats(x: real, y: real, higher: bool) {
    if y > 0.0 then (if higher then x > y else x < y) else (if higher then x < y else x > y)
  }

  /** The rotations in which the first arm's measurement is the better one. */
  function Beating(numerator: Samples, denominator: Samples, higher: bool): set<int> {
    set i | i in numerator && i in denominator && Beats(numerator[i], denominator[i], higher)
  }

  function Tied(numerator: Samples, denominator: Samples): set<int> {
    set i | i in numerator && i in denominator && numerator[i] == denominator[i]
  }

  /** Something would be divided by zero. */
  ghost predicate DividesByZero(numerator: Samples, denominator: Samples) {
    || (exists i :: i in numerator && i in denominator && denominator[i] == 0.0)
    || (denominator != map[] && Median(denominator) == 0.0)
  }

  /** The answer by the measurements themselves. */
  ghost predicate Answers(
    numerator: Samples, denominator: Samples, higher: bool, r: Result<PairedCounts, ComparisonError>)
  {
    if forall i :: !(i in numerator && i in denominator) then r == Err(NoCommonRotations)
    else if DividesByZero(numerator, denominator) then r == Err(ZeroDivision)
    else
      && r.Ok? && numerator != map[] && denominator != map[]
      && r.value.numeratorMedian == Median(numerator) && r.value.denominatorMedian == Median(denominator)
      && r.value.wins == |Beating(numerator, denominator, higher)|
      && r.value.losses == |Beating(numerator, denominator, !higher)|
      && r.value.ties == |Tied(numerator, denominator)|
      && IsPValue(r.value.pValue, r.value.wins, r.value.losses)
  }

  lemma {:induction false} ComparedSets(numerator: Samples, denominator: Samples, higher: bool)
    requires Divisible(numerator, denominator)
    ensures var ratios := RatiosOf(numerator, denominator);
            && WinSet(ratios, higher) == Beating(numerator, denominator, higher)
            && LossSet(ratios, higher) == Beating(numerator, denominator, !higher)
            && |Tied(numerator, denominator)| == |ratios.Keys| - |WinSet(ratios, higher)| - |LossSet(ratios, higher)|
  {
    hide Beats, Beating, Tied, Above, Below;
    var ratios := RatiosOf(numerator, denominator);
    var above, below, tied := Above(ratios), Below(ratios), Tied(numerator, denominator);
    assert above == Beating(numerator, denominator, true) && below == Beating(numerator, denominator, false)
        && tied == ratios.Keys - above - below by {
      forall i
        ensures i in above <==> i in Beating(numerator, denominator, true)
        ensures i in below <==> i in Beating(numerator, denominator, false)
        ensures i in tied <==> i in ratios.Keys && i !in above && i !in below
      {
        ComparedRotation(numerator, denominator, i);
      }
    }
    AboveBelowApart(ratios);
    Parted(ratios.Keys, above, below);
  }

  lemma {:induction false} ComparedRotation(numerator: Samples, denominator: Samples, i: int)
    requires Divisible(numerator, denominator)
    ensures var ratios := RatiosOf(numerator, denominator);
            && (i in Above(ratios) <==> i in Beating(numerator, denominator, true))
            && (i in Below(ratios) <==> i in Beating(numerator, denominator, false))
            && (i in Tied(numerator, denominator) <==> i in ratios.Keys && i !in Above(ratios) && i !in Below(ratios))
  {
    if i in Common(numerator, denominator) {
      RatioToOne(numerator[i], denominator[i]);
    }
  }

  lemma {:induction false} AboveBelowApart(ratios: Samples)
    ensures Above(ratios) !! Below(ratios) && Above(ratios) <= ratios.Keys && Below(ratios) <= ratios.Keys
  {
  }

  lemma {:induction false} Parted(all: set<int>, a: set<int>, b: set<int>)
    requires a !! b && a <= all && b <= all
    ensures |all - a - b| == |all| - |a| - |b|
  {
    assert all == (all - a - b) + (a + b);
  }

  lemma {:induction false} ComparedAnswers(numerator: Samples, denominator: Samples, higher: bool)
    ensures Answers(numerator, denominator, higher, Compared(numerator, denominator, higher))
  {
    hide Median, IsPValue, ExactSignTestOneSided, WinSet, LossSet, Beating, Tied;
    if i :| i in numerator && i in denominator {
      assert i in Common(numerator, denominator);
      if Divisible(numerator, denominator) {
        var ratios := RatiosOf(numerator, denominator);
        ComparedSets(numerator, denominator, higher);
        PValueCounts(|WinSet(ratios, higher)|, |LossSet(ratios, higher)|);
      } else {
        var j :| j in Common(numerator, denominator) && denominator[j] == 0.0;
        assert j in numerator && j in denominator;
      }
    } else {
      assert forall j :: j !in Common(numerator, denominator);
    }
  }

  method ComparePaired(numerator: Samples, denominator: Samples, higher: bool)
    returns (r: Result<PairedCounts, ComparisonError>)
    ensures r == Compared(numerator, denominator, higher) && Answers(numerator, denominator, higher, r)
  {
    ComparedAnswers(numerator, denominator, higher);
    hide Median, ExactSignTestOneSided, Divisible;
    if Common(numerator, denominator) == {} {
      return Err(NoCommonRotations);
    }
    var ratios := ComputeRatios(numerator, denominator);
    if ratios.Err? {
      return Err(ratios.error);
    }
    var above, below := CountAboveAndBelow(ratios.value);
    var wins, losses := if higher then above else below, if higher then below else above;
    if Median(denominator) == 0.0 {
      return Err(ZeroDivision);
    }
    r := Ok(PairedCounts(Median(numerator), Median(denominator), wins, losses,
                         |ratios.value.Keys| - wins - losses, ExactSignTestOneSided(wins, losses)));
  }

  /** More wins among as many untied rotations are stronger evidence: the p-value is strictly smaller. */
  lemma {:induction false} MoreWinsStronger(
    numerator: Samples, denominator: Samples, higher: bool, numerator': Samples, denominator': Samples, higher': bool)
    requires Compared(numerator, denominator, higher).Ok? && Compared(numerator', denominator', higher').Ok?
    ensures var weak, strong :=
              Compared(numerator, denominator, higher).value, Compared(numerator', denominator', higher').value;
            weak.wins + weak.losses == strong.wins + strong.losses && weak.wins < strong.wins ==>
              && weak.pValue.Some? && strong.pValue.Some?
              && strong.pValue.value.numerator < weak.pValue.value.numerator
              && strong.pValue.value.denominator == weak.pValue.value.denominator
  {
    hide Median;
    var weak, strong :=
      Compared(numerator, denominator, higher).value, Compared(numerator', denominator', higher').value;
    if weak.wins + weak.losses == strong.wins + strong.losses && weak.wins < strong.wins {
      TailDecreases(weak.wins + weak.losses, weak.wins, strong.wins);
    }
  }

  lemma {:induction false} SubsetCardinality(a: set<int>, b: set<int>)
    requires a <= b
    ensures |a| <= |b|
  {
    assert b == a + (b - a);
  }

  /** No rotation pairs a positive with a negative measurement. */
  predicate SameSigns(numerator: Samples, denominator: Samples) {
    forall i :: i in Common(numerator, denominator) ==> numerator[i] * denominator[i] > 0.0
  }

  lemma {:induction false} RatioToOne(x: real, y: real)
    requires y != 0.0
    ensures x / y < 1.0 <==> if y > 0.0 then x < y else x > y
    ensures x / y > 1.0 <==> if y > 0.0 then x > y else x < y
  {
    var q := x / y;
    assert x == q * y;
    assert x - y == (q - 1.0) * y;
  }

  lemma {:induction false} Reciprocal(x: real, y: real)
    requires x != 0.0 && y != 0.0
    ensures x * y > 0.0 ==> (y / x > 1.0 <==> x / y < 1.0) && (y / x < 1.0 <==> x / y > 1.0)
    ensures x * y < 0.0 ==> y / x < 1.0 && x / y < 1.0
    ensures x * y != 0.0
  {
    RatioToOne(x, y);
    RatioToOne(y, x);
  }

  /** The rotations whose two measurements have opposite signs. */
  function OppositeSet(numerator: Samples, denominator: Samples): set<int> {
    set i | i in Common(numerator, denominator) && numerator[i] * denominator[i] < 0.0
  }

  /** What one rotation counts as in either direction. */
  lemma {:induction false} SwappedRotation(numerator: Samples, denominator: Samples, i: int)
    requires Divisible(numerator, denominator) && Divisible(denominator, numerator)
    requires i in Common(numerator, denominator)
    ensures var there, back := RatiosOf(numerator, denominator), RatiosOf(denominator, numerator);
            var opposite := OppositeSet(numerator, denominator);
            && i in back.Keys
            && (i in opposite <==> !(numerator[i] * denominator[i] > 0.0))
            && (i in Above(back) <==> i in Below(there) && i !in opposite)
            && (i in Below(back) <==> i in Above(there) || i in opposite)
            && (i in opposite ==> i in Below(there) && i !in Above(there))
  {
    assert i in Common(denominator, numerator);
    Reciprocal(numerator[i], denominator[i]);
  }

  /** Swapping the arms turns wins into losses, except where the signs differ: those stay below one. */
  lemma {:induction false} SwappedSets(numerator: Samples, denominator: Samples)
    requires Divisible(numerator, denominator) && Divisible(denominator, numerator)
    ensures var there, back := RatiosOf(numerator, denominator), RatiosOf(denominator, numerator);
            var opposite := OppositeSet(numerator, denominator);
            && opposite <= Below(there) && opposite !! Above(there)
            && Above(back) == Below(there) - opposite
            && Below(back) == Above(there) + opposite
            && (opposite == {} <==> SameSigns(numerator, denominator))
  {
    var there, back := RatiosOf(numerator, denominator), RatiosOf(denominator, numerator);
    var opposite := OppositeSet(numerator, denominator);
    assert there.Keys == back.Keys == Common(numerator, denominator);
    forall i | i in there.Keys
      ensures i in opposite <==> !(numerator[i] * denominator[i] > 0.0)
      ensures i in Above(back) <==> i in Below(there) && i !in opposite
      ensures i in Below(back) <==> i in Above(there) || i in opposite
      ensures i in opposite ==> i in Below(there) && i !in Above(there)
    {
      SwappedRotation(numerator, denominator, i);
    }
    assert Above(back) == Below(there) - opposite;
    assert Below(back) == Above(there) + opposite;
    if SameSigns(numerator, denominator) {
      assert forall i :: i in there.Keys ==> i !in opposite;
      assert opposite == {};
    } else {
      var i :| i in Common(numerator, denominator) && !(numerator[i] * denominator[i] > 0.0);
      assert i in opposite;
    }
  }

  /** Where both directions can be computed, the counts are exchanged exactly when no rotation mixes signs. */
  lemma {:induction false} SwapRatios(numerator: Samples, denominator: Samples, higher: bool)
    requires Divisible(numerator, denominator) && Divisible(denominator, numerator)
    ensures var there, back := RatiosOf(numerator, denominator), RatiosOf(denominator, numerator);
            (|WinSet(back, higher)| == |LossSet(there, higher)| && |LossSet(back, higher)| == |WinSet(there, higher)|
             <==> SameSigns(numerator, denominator))
  {
    var there, back := RatiosOf(numerator, denominator), RatiosOf(denominator, numerator);
    SwappedSets(numerator, denominator);
    SwappedCounts(Above(there), Below(there), OppositeSet(numerator, denominator));
  }

  lemma {:induction false} SameSignsDivide(numerator: Samples, denominator: Samples)
    requires SameSigns(numerator, denominator)
    ensures Divisible(numerator, denominator) && Divisible(denominator, numerator)
    ensures Common(numerator, denominator) == Common(denominator, numerator)
  {
    forall i | i in Common(numerator, denominator) ensures numerator[i] != 0.0 && denominator[i] != 0.0 {
      assert numerator[i] * denominator[i] > 0.0;
    }
  }

  /** One answer is the other with wins and losses exchanged. */
  predicate Exchanged(there: Result<PairedCounts, ComparisonError>, back: Result<PairedCounts, ComparisonError>) {
    && there.Ok? && back.Ok?
    && back.value.wins == there.value.losses
    && back.value.losses == there.value.wins
    && back.value.ties == there.value.ties
    && back.value.numeratorMedian == there.value.denominatorMedian
    && back.value.denominatorMedian == there.value.numeratorMedian
  }

  /** Both directions can be compared, and rotation by rotation one is the other's opposite. */
  predicate Comparable(numerator: Samples, denominator: Samples)
    requires numerator != map[] && denominator != map[]
  {
    SameSigns(numerator, denominator) && Median(numerator) != 0.0 && Median(denominator) != 0.0
  }

  /**
    * Swapping the arms of a comparison with common rotations gives an answer with wins and losses
    * exchanged if and only if the two values of each rotation have the same sign, zero having none, and
    * neither arm's median is zero.
    */
  lemma {:induction false} SwapArms(numerator: Samples, denominator: Samples, higher: bool)
    requires Common(numerator, denominator) != {}
    ensures Exchanged(Compared(numerator, denominator, higher), Compared(denominator, numerator, higher))
       <==> Comparable(numerator, denominator)
  {
    assert Common(denominator, numerator) == Common(numerator, denominator);
    if SameSigns(numerator, denominator) {
      SameSignsDivide(numerator, denominator);
    }
    if Divisible(numerator, denominator) && Divisible(denominator, numerator) {
      SwapRatios(numerator, denominator, higher);
    }
  }

  lemma {:induction false} SwappedCounts(above: set<int>, below: set<int>, opposite: set<int>)
    requires opposite <= below && opposite !! above
    ensures |above + opposite| == |above| + |opposite|
    ensures |below - opposite| == |below| - |opposite|
    ensures opposite == {} <==> |opposite| == 0
  {
    assert below == (below - opposite) + opposite;
  }

  /** The p-values of exchanged answers add up to one plus the probability of the observed split. */
  lemma {:induction false} SwappedPValues(numerator: Samples, denominator: Samples, higher: bool)
    requires Common(numerator, denominator) != {} && Comparable(numerator, denominator)
    ensures var there, back := Compared(numerator, denominator, higher), Compared(denominator, numerator, higher);
            && there.Ok? && back.Ok?
            && var n := there.value.wins + there.value.losses;
            var p, swapped := there.value.pValue, back.value.pValue;
            && (p.None? <==> n == 0) && (swapped.None? <==> n == 0)
            && (p.Some? ==>
                  && p.value.denominator == swapped.value.denominator == Pow2(n)
                  && p.value.numerator + swapped.value.numerator == Pow2(n) + Comb(n, there.value.wins))
  {
    var there := Compared(numerator, denominator, higher);
    SwapArms(numerator, denominator, higher);
    TailsOverlap(there.value.wins, there.value.losses);
  }

  /** A rotation measured with opposite signs counts as below one in both directions. */
  lemma {:induction false} SwapFailsOnMixedSigns()
    ensures var a: Samples, b: Samples := map[1 := 1.0], map[1 := -1.0];
            && Divisible(a, b) && Divisible(b, a) && !SameSigns(a, b)
            && LossSet(RatiosOf(a, b), true) == {1} == LossSet(RatiosOf(b, a), true)
  {
    var a: Samples, b: Samples := map[1 := 1.0], map[1 := -1.0];
    assert 1 in Common(a, b);
    assert RatiosOf(a, b) == map[1 := -1.0] == RatiosOf(b, a);
  }

  /** A zero can be compared in one direction only. */
  lemma {:induction false} SwapFailsOnZero()
    ensures var a: Samples, b: Samples := map[1 := 0.0], map[1 := 1.0];
            Compared(a, b, true).Ok? && Compared(b, a, true) == Err(ZeroDivision) && !SameSigns(a, b)
  {
    var a: Samples, b: Samples := map[1 := 0.0], map[1 := 1.0];
    assert 1 in Common(a, b) && 1 in Common(b, a);
    MedianOfOne(b, 1);
  }

  lemma {:induction false} MedianOfOne(samples: Samples, i: int)
    requires samples.Keys == {i}
    ensures Median(samples) == samples[i]
  {
    AnyOrder(samples, i);
    assert samples - {i} == map[];
  }

  lemma {:induction false} MedianOfTwo(samples: Samples, i: int, j: int)
    requires i != j && samples.Keys == {i, j}
    ensures Median(samples) == (samples[i] + samples[j]) / 2.0
  {
    var rest := samples - {i};
    assert rest.Keys == {j} && rest - {j} == map[];
    AnyOrder(samples, i);
    AnyOrder(rest, j);
    assert Insert([], samples[j]) == [samples[j]];
  }

  /** Two rotations of opposite values in both arms agree in sign, but their median is zero. */
  lemma {:induction false} SwapFailsOnZeroMedian()
    ensures var a: Samples := map[1 := 1.0, 2 := -1.0];
            1 in a && SameSigns(a, a) && Median(a) == 0.0 && Compared(a, a, true) == Err(ZeroDivision)
  {
    hide Median;
    var a: Samples := map[1 := 1.0, 2 := -1.0];
    MedianOfTwo(a, 1, 2);
    assert 1 in Common(a, a);
  }
}
