/**
  * The balanced crossover scheduler of the benchmark suite: the blocked schedule built from the
  * Williams square and the checker that counts its balance.
  */
module Schedule {
  import opened Core
  import opened Williams

  datatype Mode = On | Off

  /** An implementation identifier with the mode it is run in. */
  type Treatment = (string, Mode)

  datatype Placement = Placement(position: nat, implementation: string, mode: Mode)

  datatype Rotation = Rotation(rotation: nat, block: nat, blockRotation: nat, treatments: seq<Placement>)

  /** The checker's report; the replications are the sets whose sorted lists the suite prints. */
  datatype BalanceReport = BalanceReport(
    treatments: nat,
    rotations: nat,
    positionBalanced: bool,
    carryoverBalanced: bool,
    positionReplications: set<nat>,
    carryoverReplications: set<nat>)

  // ---------------------------------------------------------------- blocks

  /** The rows of one block: every second block runs the square backwards. */
  function BlockRows<R(!new)>(sq: seq<R>, block: nat): (rows: seq<R>)
    ensures |rows| == |sq|
  {
    if block % 2 == 1 then sq else Reversed(sq)
  }

  /** The rows of blocks 1 to `blocks`, in order. */
  function Rows<R(!new)>(sq: seq<R>, blocks: nat): seq<R> {
    if blocks == 0 then [] else Rows(sq, blocks - 1) + BlockRows(sq, blocks)
  }

  /** The number of rotations in `blocks` blocks of `n`. */
  function RowCount(n: nat, blocks: nat): nat {
    if blocks == 0 then 0 else RowCount(n, blocks - 1) + n
  }

  lemma {:induction false} RowCountIsProduct(n: nat, blocks: nat)
    ensures RowCount(n, blocks) == blocks * n
  {
    if blocks > 0 {
      RowCountIsProduct(n, blocks - 1);
      assert (blocks - 1) * n + n == blocks * n;
    }
  }

  lemma {:induction false} RowCountGrows(n: nat, blocks: nat, more: nat)
    requires blocks <= more
    ensures RowCount(n, blocks) <= RowCount(n, more)
  {
    if blocks < more {
      RowCountGrows(n, blocks, more - 1);
    }
  }

  lemma {:induction false} RowsLength<R(!new)>(sq: seq<R>, blocks: nat)
    ensures |Rows(sq, blocks)| == RowCount(|sq|, blocks)
  {
    if blocks > 0 {
      RowsLength(sq, blocks - 1);
    }
  }

  lemma {:induction false} RowsExtend<R(!new)>(sq: seq<R>, blocks: nat, more: nat)
    requires blocks <= more
    ensures Rows(sq, blocks) <= Rows(sq, more)
  {
    if blocks < more {
      RowsExtend(sq, blocks, more - 1);
    }
  }

  lemma {:induction false} TallyBlock<R(!new), U(!new)>(weight: (R, U) -> nat, sq: seq<R>, block: nat, x: U)
    ensures Tally(weight, BlockRows(sq, block), x) == Tally(weight, sq, x)
  {
    TallyReversed(weight, sq, x);
  }

  lemma {:induction false} TallyRows<R(!new), U(!new)>(weight: (R, U) -> nat, sq: seq<R>, blocks: nat, x: U)
    requires Tally(weight, sq, x) == 1
    ensures Tally(weight, Rows(sq, blocks), x) == blocks
  {
    hide BlockRows;
    if blocks > 0 {
      var done, block := Rows(sq, blocks - 1), BlockRows(sq, blocks);
      TallyRows(weight, sq, blocks - 1, x);
      TallyBlock(weight, sq, blocks, x);
      TallyConcat(weight, done, block, x);
    }
  }

  // ---------------------------------------------------------------- cutting the rows

  /** `q` whole blocks and the first `r` rows of the next one. */
  function CutRows<R(!new)>(sq: seq<R>, q: nat, r: nat): seq<R>
    requires r < |sq|
  {
    Rows(sq, q) + BlockRows(sq, q + 1)[..r]
  }

  lemma {:induction false} CutRowsLength<R(!new)>(sq: seq<R>, q: nat, r: nat)
    requires r < |sq|
    ensures |CutRows(sq, q, r)| == RowCount(|sq|, q) + r
    ensures CutRows(sq, q, r) == [] <==> q == 0 && r == 0
  {
    RowsLength(sq, q);
  }

  /** Cutting the rows anywhere leaves whole blocks and the start of the next one. */
  lemma {:induction false} RowsPrefix<R(!new)>(sq: seq<R>, blocks: nat, q: nat, r: nat)
    requires r < |sq| && |CutRows(sq, q, r)| <= |Rows(sq, blocks)|
    ensures Rows(sq, blocks)[..|CutRows(sq, q, r)|] == CutRows(sq, q, r)
  {
    RowsLength(sq, blocks);
    CutRowsLength(sq, q, r);
    if q < blocks {
      RowsExtend(sq, q + 1, blocks);
      CutSecond(Rows(sq, q), BlockRows(sq, q + 1), r);
      PrefixOfPrefix(CutRows(sq, q, r), Rows(sq, q + 1), Rows(sq, blocks));
    } else {
      RowCountGrows(|sq|, blocks, q);
      RowsExtend(sq, blocks, q);
    }
  }

  lemma {:induction false} BlockRowsComeFrom<R(!new)>(sq: seq<R>, block: nat, i: nat) returns (s: nat)
    requires i < |sq|
    ensures s < |sq| && sq[s] == BlockRows(sq, block)[i]
  {
    s := if block % 2 == 1 then i else |sq| - 1 - i;
    ReversedAt(sq, i);
  }

  lemma {:induction false} RowsComeFrom<R(!new)>(sq: seq<R>, blocks: nat, i: nat) returns (s: nat)
    requires i < |Rows(sq, blocks)|
    ensures s < |sq| && sq[s] == Rows(sq, blocks)[i]
  {
    if i < |Rows(sq, blocks - 1)| {
      s := RowsComeFrom(sq, blocks - 1, i);
    } else {
      s := BlockRowsComeFrom(sq, blocks, i - |Rows(sq, blocks - 1)|);
    }
  }

  lemma {:induction false} CutRowsComeFrom<R(!new)>(sq: seq<R>, q: nat, r: nat, i: nat) returns (s: nat)
    requires r < |sq| && i < |CutRows(sq, q, r)|
    ensures s < |sq| && sq[s] == CutRows(sq, q, r)[i]
  {
    if i < |Rows(sq, q)| {
      s := RowsComeFrom(sq, q, i);
    } else {
      s := BlockRowsComeFrom(sq, q + 1, i - |Rows(sq, q)|);
    }
  }

  /** The open block counts an event of the square at most once. */
  lemma {:induction false} OpenBlockAtMostOnce<R(!new), U(!new)>(weight: (R, U) -> nat, sq: seq<R>, block: nat, r: nat, x: U)
    requires r <= |sq| && Tally(weight, sq, x) == 1
    ensures Tally(weight, BlockRows(sq, block)[..r], x) <= 1
  {
    var rows := BlockRows(sq, block);
    assert rows == rows[..r] + rows[r..];
    TallyConcat(weight, rows[..r], rows[r..], x);
    TallyBlock(weight, sq, block, x);
  }

  /** What a cut schedule counts for one event: whole blocks, plus one if the open block has it already. */
  lemma {:induction false} CutCount<R(!new), U(!new)>(weight: (R, U) -> nat, sq: seq<R>, q: nat, r: nat, x: U)
    requires r < |sq| && Tally(weight, sq, x) == 1
    ensures Tally(weight, CutRows(sq, q, r), x) == q + Tally(weight, BlockRows(sq, q + 1)[..r], x)
    ensures Tally(weight, BlockRows(sq, q + 1)[..r], x) <= 1
  {
    TallyConcat(weight, Rows(sq, q), BlockRows(sq, q + 1)[..r], x);
    TallyRows(weight, sq, q, x);
    OpenBlockAtMostOnce(weight, sq, q + 1, r, x);
  }

  /** An event of a block's last row has not happened in a proper prefix of the block. */
  lemma {:induction false} MissingFromPrefix<R(!new), U(!new)>(weight: (R, U) -> nat, sq: seq<R>, block: nat, r: nat, y: U)
    requires r < |sq| && Tally(weight, sq, y) == 1
    requires weight(BlockRows(sq, block)[|sq| - 1], y) > 0
    ensures Tally(weight, BlockRows(sq, block)[..r], y) == 0
  {
    var rows := BlockRows(sq, block);
    assert rows == rows[..r] + rows[r..];
    TallyConcat(weight, rows[..r], rows[r..], y);
    TallyBlock(weight, sq, block, y);
    assert rows[r..][|sq| - 1 - r] == rows[|sq| - 1];
    TallyContains(weight, rows[r..], |sq| - 1 - r, y);
  }

  /** An event of a block's first row has happened in every non-empty prefix of the block. */
  lemma {:induction false} DoneInPrefix<R(!new), U(!new)>(weight: (R, U) -> nat, sq: seq<R>, block: nat, r: nat, z: U)
    requires 0 < r <= |sq| && weight(BlockRows(sq, block)[0], z) > 0
    ensures Tally(weight, BlockRows(sq, block)[..r], z) > 0
  {
    TallyContains(weight, BlockRows(sq, block)[..r], 0, z);
  }

  // ---------------------------------------------------------------- replications

  /** The set has exactly one element. */
  predicate OneValue(values: set<nat>) {
    values != {} && forall x, y :: x in values && y in values ==> x == y
  }

  /** The replication counts of a set of events. */
  function CountsOf<R(!new), U(!new)>(weight: (R, U) -> nat, rows: seq<R>, events: set<U>): set<nat> {
    set x | x in events :: Tally(weight, rows, x)
  }

  /** Every event happens exactly once in the square. */
  ghost predicate OnceEach<R(!new), U(!new)>(weight: (R, U) -> nat, sq: seq<R>, events: set<U>) {
    forall x :: x in events ==> Tally(weight, sq, x) == 1
  }

  /** The replications after `q` whole blocks and `r` rotations of the next one. */
  function Replications(q: nat, r: nat): (counts: set<nat>)
    ensures OneValue(counts) <==> r == 0
  {
    if r == 0 then {q} else assert q + 1 != q; {q, q + 1}
  }

  /**
    * A cut schedule counts all events equally exactly when the cut ends a block. The events
    * `early` and `late` belong to the first and the last row of the block that may be open.
    */
  lemma {:induction false} CutValues<R(!new), U(!new)>(
    weight: (R, U) -> nat, sq: seq<R>, q: nat, r: nat, events: set<U>, early: U, late: U)
    requires r < |sq| && OnceEach(weight, sq, events)
    requires early in events && weight(BlockRows(sq, q + 1)[0], early) > 0
    requires late in events && weight(BlockRows(sq, q + 1)[|sq| - 1], late) > 0
    ensures CountsOf(weight, CutRows(sq, q, r), events) == Replications(q, r)
  {
    var rows := CutRows(sq, q, r);
    assert OnlyReplications(weight, rows, events, q, r) by {
      forall x | x in events ensures Tally(weight, rows, x) in Replications(q, r) {
        CutCount(weight, sq, q, r, x);
        if r == 0 { assert BlockRows(sq, q + 1)[..r] == []; }
      }
    }
    assert Tally(weight, rows, late) == q by {
      MissingFromPrefix(weight, sq, q + 1, r, late);
      CutCount(weight, sq, q, r, late);
    }
    if r > 0 {
      assert Tally(weight, rows, early) == q + 1 by {
        DoneInPrefix(weight, sq, q + 1, r, early);
        CutCount(weight, sq, q, r, early);
      }
    }
    CountsAre(weight, rows, q, r, events, early, late);
  }

  ghost predicate OnlyReplications<R(!new), U(!new)>(
    weight: (R, U) -> nat, rows: seq<R>, events: set<U>, q: nat, r: nat)
  {
    forall x :: x in events ==> Tally(weight, rows, x) in Replications(q, r)
  }

  lemma {:induction false} CountsAre<R(!new), U(!new)>(
    weight: (R, U) -> nat, rows: seq<R>, q: nat, r: nat, events: set<U>, early: U, late: U)
    requires OnlyReplications(weight, rows, events, q, r)
    requires late in events && Tally(weight, rows, late) == q
    requires early in events && (r > 0 ==> Tally(weight, rows, early) == q + 1)
    ensures CountsOf(weight, rows, events) == Replications(q, r)
  {
    assert q in CountsOf(weight, rows, events);
    if r > 0 {
      assert q + 1 in CountsOf(weight, rows, events);
    }
  }

  // ---------------------------------------------------------------- the schedule

  function Treatments(ids: seq<string>): (ts: seq<Treatment>)
    ensures |ts| == 2 * |ids| && |ts| % 2 == 0
  {
    seq(2 * |ids|, i requires 0 <= i < 2 * |ids| => (ids[i / 2], if i % 2 == 0 then On else Off))
  }

  function Place(row: seq<Treatment>): seq<Placement> {
    seq(|row|, k requires 0 <= k < |row| => Placement(k + 1, row[k].0, row[k].1))
  }

  /** The rotations of one block; `done` is the number of rotations before it. */
  function BlockRotations(rows: seq<seq<Treatment>>, block: nat, done: nat): (rotations: seq<Rotation>)
    ensures |rotations| == |rows|
  {
    seq(|rows|, j requires 0 <= j < |rows| => Rotation(done + j + 1, block, j + 1, Place(rows[j])))
  }

  /** The rotations of blocks 1 to `blocks`, numbered through. */
  function Rotations(sq: seq<seq<Treatment>>, blocks: nat): (rotations: seq<Rotation>)
    ensures |rotations| == RowCount(|sq|, blocks)
  {
    if blocks == 0 then []
    else Rotations(sq, blocks - 1) + BlockRotations(BlockRows(sq, blocks), blocks, RowCount(|sq|, blocks - 1))
  }

  /** How many of `total` rotations the slice `rotations[:limit]` keeps. */
  function KeptRotations(total: nat, limit: Option<int>): (kept: nat)
    ensures kept <= total
  {
    match limit
    case None => total
    case Some(m) =>
      if m >= 0 then (if m < total then m else total)
      else if total + m > 0 then total + m else 0
  }

  /** The rotations of all blocks, cut by the limit. */
  function ScheduleOf(ids: seq<string>, blocks: nat, limit: Option<int>): seq<Rotation> {
    var rotations := Rotations(Square(Treatments(ids)), blocks);
    rotations[..KeptRotations(|rotations|, limit)]
  }

  // ---------------------------------------------------------------- the schedule by its numbers

  /** What runs in place `k` of the row that starts with treatment `s`: treatments are pairs of an identifier's modes. */
  function PlacementIn(ids: seq<string>, s: nat, k: nat): Placement
    requires k < 2 * |ids|
  {
    var t := SquareIndex(2 * |ids|, s, k);
    Placement(k + 1, ids[t / 2], if t % 2 == 0 then On else Off)
  }

  /** Rotation number `i`, counted from zero: odd blocks go through the rows upwards, even ones downwards. */
  ghost predicate IsRotation(ids: seq<string>, i: nat, rotation: Rotation)
    requires ids != []
  {
    var n := 2 * |ids|;
    var s := if i / n % 2 == 0 then i % n else n - 1 - i % n;
    && rotation.rotation == i + 1 && rotation.block == i / n + 1 && rotation.blockRotation == i % n + 1
    && |rotation.treatments| == n
    && forall k :: 0 <= k < n ==> rotation.treatments[k] == PlacementIn(ids, s, k)
  }

  /** So many rotations are left of `blocks` blocks: a negative limit counts from the end. */
  ghost predicate IsLimited(length: nat, total: nat, limit: Option<int>) {
    match limit
    case None => length == total
    case Some(m) =>
      if 0 <= m <= total then length == m
      else if m > total then length == total
      else if total + m < 0 then length == 0
      else length - m == total
  }

  lemma {:induction false} PlacedRow(ids: seq<string>, s: nat)
    requires s < 2 * |ids|
    ensures forall k :: 0 <= k < 2 * |ids| ==> Place(Square(Treatments(ids))[s])[k] == PlacementIn(ids, s, k)
  {
    forall k | 0 <= k < 2 * |ids| ensures Place(Square(Treatments(ids))[s])[k] == PlacementIn(ids, s, k) {
      SquareAt(Treatments(ids), s, k);
    }
  }

  lemma {:induction false} BlockRowsAt<R(!new)>(sq: seq<R>, block: nat, j: nat)
    requires j < |sq|
    ensures BlockRows(sq, block)[j] == sq[if block % 2 == 1 then j else |sq| - 1 - j]
  {
    ReversedAt(sq, j);
  }

  /** One rotation of one block. */
  lemma {:induction false} RotationInBlock(ids: seq<string>, blocks: nat, i: nat, j: nat)
    requires ids != [] && j < 2 * |ids| && i == blocks * (2 * |ids|) + j
    ensures var sq := Square(Treatments(ids));
            IsRotation(ids, i, Rotation(i + 1, blocks + 1, j + 1, Place(BlockRows(sq, blocks + 1)[j])))
  {
    hide Place, BlockRows, Square, Treatments, PlacementIn;
    var n := 2 * |ids|;
    Divides(i, n, blocks, j);
    var s := if blocks % 2 == 0 then j else n - 1 - j;
    BlockRowsAt(Square(Treatments(ids)), blocks + 1, j);
    PlacedRow(ids, s);
    PlaceLength(Square(Treatments(ids))[s]);
    SquareWidth(Treatments(ids), s);
  }

  lemma {:induction false} PlaceLength(row: seq<Treatment>)
    ensures |Place(row)| == |row|
  {
  }

  lemma {:induction false} SquareWidth<T(!new)>(items: seq<T>, s: nat)
    requires s < |items|
    ensures |Square(items)[s]| == |items|
  {
  }

  lemma {:induction false} RotationsAt(ids: seq<string>, blocks: nat, i: nat)
    requires ids != [] && i < RowCount(2 * |ids|, blocks)
    ensures IsRotation(ids, i, Rotations(Square(Treatments(ids)), blocks)[i])
  {
    hide IsRotation, Place, BlockRows, Square, Treatments;
    var n, before := 2 * |ids|, RowCount(2 * |ids|, blocks - 1);
    if i < before {
      RotationsAt(ids, blocks - 1, i);
    } else {
      RowCountIsProduct(n, blocks - 1);
      RotationInBlock(ids, blocks - 1, i, i - before);
    }
  }

  method AppendBlock(done: seq<Rotation>, rows: seq<seq<Treatment>>, block: nat)
    returns (rotations: seq<Rotation>)
    ensures rotations == done + BlockRotations(rows, block, |done|)
  {
    rotations := done;
    var number := |done|;
    for j := 0 to |rows|
      invariant number == |done| + j
      invariant rotations == done + BlockRotations(rows, block, |done|)[..j]
    {
      number := number + 1;
      rotations := rotations + [Rotation(number, block, j + 1, Place(rows[j]))];
    }
  }

  method BuildSchedule(ids: seq<string>, blocks: int, limit: Option<int>)
    returns (r: Result<seq<Rotation>, SuiteError>)
    ensures blocks < 1 ==> r == Err(BlocksNotPositive)
    ensures blocks >= 1 && ids == [] ==> r == Err(OddTreatmentCount)
    ensures blocks >= 1 && ids != [] ==>
      && r == Ok(ScheduleOf(ids, blocks, limit))
      && IsLimited(|r.value|, blocks * (2 * |ids|), limit)
      && forall i: nat :: i < |r.value| ==> IsRotation(ids, i, r.value[i])
  {
    if blocks < 1 {
      return Err(BlocksNotPositive);
    }
    var built := WilliamsSequences(Treatments(ids));
    if built.Err? {
      return Err(built.error);
    }
    var sequences := built.value;
    var rotations: seq<Rotation> := [];
    for block := 1 to blocks + 1
      invariant rotations == Rotations(sequences, block - 1)
    {
      var blockSequences := if block % 2 != 0 then sequences else Reversed(sequences);
      rotations := AppendBlock(rotations, blockSequences, block);
    }
    r := Ok(rotations[..KeptRotations(|rotations|, limit)]);
    RowCountIsProduct(2 * |ids|, blocks);
    forall i: nat | i < |rotations| ensures IsRotation(ids, i, rotations[i]) {
      RotationsAt(ids, blocks, i);
    }
  }

  // ---------------------------------------------------------------- the checker

  function SequenceOf(rotation: Rotation): seq<Treatment> {
    seq(|rotation.treatments|, k requires 0 <= k < |rotation.treatments| =>
      (rotation.treatments[k].implementation, rotation.treatments[k].mode))
  }

  function SequencesOf(schedule: seq<Rotation>): (rows: seq<seq<Treatment>>)
    ensures |rows| == |schedule|
  {
    seq(|schedule|, i requires 0 <= i < |schedule| => SequenceOf(schedule[i]))
  }

  predicate CompleteRotation<T(==,!new)>(row: seq<T>, treatmentSet: set<T>) {
    Elements(row) == treatmentSet && |row| == |treatmentSet|
  }

  predicate AllComplete<T(==,!new)>(rows: seq<seq<T>>, treatmentSet: set<T>) {
    rows == [] ||
    (AllComplete(rows[..|rows| - 1], treatmentSet) && CompleteRotation(rows[|rows| - 1], treatmentSet))
  }

  lemma {:induction false} AllCompleteAt<T(!new)>(rows: seq<seq<T>>, treatmentSet: set<T>, i: nat)
    requires AllComplete(rows, treatmentSet) && i < |rows|
    ensures CompleteRotation(rows[i], treatmentSet)
  {
    if i < |rows| - 1 {
      AllCompleteAt(rows[..|rows| - 1], treatmentSet, i);
    }
  }

  lemma {:induction false} AllCompleteIf<T(!new)>(rows: seq<seq<T>>, treatmentSet: set<T>)
    requires forall i :: 0 <= i < |rows| ==> CompleteRotation(rows[i], treatmentSet)
    ensures AllComplete(rows, treatmentSet)
  {
    if rows != [] {
      AllCompleteIf(rows[..|rows| - 1], treatmentSet);
    }
  }

  function PositionEvents<T(==,!new)>(treatmentSet: set<T>): set<(T, nat)> {
    set t, k | t in treatmentSet && 0 <= k < |treatmentSet| :: (t, k)
  }

  function CarryoverEvents<T(==,!new)>(treatmentSet: set<T>): set<(T, T)> {
    set a, b | a in treatmentSet && b in treatmentSet && a != b :: (a, b)
  }

  /** The report on complete rotations of the given treatments. */
  function ReportOf<T(==,!new)>(rows: seq<seq<T>>, treatmentSet: set<T>): BalanceReport {
    var positions := CountsOf(Placed, rows, PositionEvents(treatmentSet));
    var carryovers := CountsOf(Adjacent, rows, CarryoverEvents(treatmentSet));
    BalanceReport(|treatmentSet|, |rows|, OneValue(positions), OneValue(carryovers), positions, carryovers)
  }

  /** The checker's answer on a list of rotations. */
  ghost predicate Verdict<T(!new)>(rows: seq<seq<T>>, r: Result<BalanceReport, SuiteError>) {
    if rows == [] then r == Err(EmptySchedule)
    else if AllComplete(rows, Elements(rows[0])) then r.Ok? && r.value == ReportOf(rows, Elements(rows[0]))
    else r == Err(IncompleteRotation)
  }

  /** The row holds what the first row holds, each once. */
  ghost predicate Complete<T(!new)>(row: seq<T>, first: seq<T>) {
    Distinct(row) && forall x :: x in row <==> x in first
  }

  lemma {:induction false} CompleteMeans<T(!new)>(row: seq<T>, first: seq<T>)
    ensures CompleteRotation(row, Elements(first)) <==> Complete(row, first)
  {
    ElementsAre(row);
    ElementsAre(first);
    RepeatedCardinality(row);
    if Distinct(row) {
      DistinctCardinality(row);
    }
    if Complete(row, first) {
      SameElements(row, first);
    }
  }

  /** The values of a counter over all pairs of a treatment and something else that goes with it. */
  ghost predicate AreReplications<T(!new), U(!new)>(
    values: set<nat>, weight: (seq<T>, (T, U)) -> nat, rows: seq<seq<T>>, events: set<(T, U)>)
  {
    forall v :: v in values <==> exists x :: x in events && Tally(weight, rows, x) == v
  }

  /** The checker's answer by the rows themselves: what it refuses, and what it says of the rest. */
  lemma {:induction false} VerdictMeans<T(!new)>(rows: seq<seq<T>>, r: Result<BalanceReport, SuiteError>)
    requires Verdict(rows, r)
    ensures r == Err(EmptySchedule) <==> rows == []
    ensures r == Err(IncompleteRotation) <==> exists i :: 0 <= i < |rows| && !Complete(rows[i], rows[0])
    ensures r.Ok? ==>
      && rows != [] && r.value.treatments == |rows[0]| && r.value.rotations == |rows|
      && AreReplications(r.value.positionReplications, Placed, rows, PositionEvents(Elements(rows[0])))
      && AreReplications(r.value.carryoverReplications, Adjacent, rows, CarryoverEvents(Elements(rows[0])))
      && r.value.positionBalanced == (|r.value.positionReplications| == 1)
      && r.value.carryoverBalanced == (|r.value.carryoverReplications| == 1)
  {
    hide Complete, CompleteRotation, AllComplete;
    if rows != [] {
      var ts := Elements(rows[0]);
      forall i | 0 <= i < |rows| ensures CompleteRotation(rows[i], ts) <==> Complete(rows[i], rows[0]) {
        CompleteMeans(rows[i], rows[0]);
      }
      if AllComplete(rows, ts) {
        forall i | 0 <= i < |rows| ensures Complete(rows[i], rows[0]) {
          AllCompleteAt(rows, ts, i);
        }
        RowSize(rows[0]);
        OneValueIsOne(r.value.positionReplications);
        OneValueIsOne(r.value.carryoverReplications);
      } else if forall i :: 0 <= i < |rows| ==> Complete(rows[i], rows[0]) {
        AllCompleteIf(rows, ts);
      }
    }
  }

  lemma {:induction false} RowSize<T(!new)>(row: seq<T>)
    requires Complete(row, row)
    ensures |Elements(row)| == |row|
  {
    DistinctCardinality(row);
  }

  lemma {:induction false} OneValueIsOne(values: set<nat>)
    ensures OneValue(values) <==> |values| == 1
  {
    if values != {} {
      var x := SomeElement(values);
      assert |values - {x}| == |values| - 1;
      if OneValue(values) {
        assert values == {x};
      } else {
        var y, z :| y in values && z in values && y != z;
        assert y in values - {x} || z in values - {x};
      }
    }
  }

  /** The value a counter holds for a key; a key never counted has the value zero. */
  function CountIn<K>(counter: map<K, nat>, key: K): nat {
    if key in counter then counter[key] else 0
  }

  method AddPlacements<T(==,!new)>(row: seq<T>, before: map<(T, nat), nat>)
    returns (positions: map<(T, nat), nat>)
    ensures forall x :: CountIn(positions, x) == CountIn(before, x) + Placed(row, x)
  {
    positions := before;
    for k := 0 to |row|
      invariant forall x :: CountIn(positions, x) == CountIn(before, x) + Placed(row[..k], x)
    {
      positions := positions[(row[k], k) := CountIn(positions, (row[k], k)) + 1];
    }
    assert row[..|row|] == row;
  }

  method AddNeighbours<T(==,!new)>(row: seq<T>, before: map<(T, T), nat>)
    returns (carryover: map<(T, T), nat>)
    ensures forall x :: CountIn(carryover, x) == CountIn(before, x) + Adjacent(row, x)
  {
    carryover := before;
    if row == [] {
      return;
    }
    for k := 1 to |row|
      invariant forall x :: CountIn(carryover, x) == CountIn(before, x) + Adjacent(row[..k], x)
    {
      var pair := (row[k - 1], row[k]);
      carryover := carryover[pair := CountIn(carryover, pair) + 1];
      assert row[..k + 1][..k] == row[..k];
    }
    assert row[..|row|] == row;
  }

  method CountEvents<T(==,!new)>(rows: seq<seq<T>>)
    returns (positions: map<(T, nat), nat>, carryover: map<(T, T), nat>)
    ensures forall x :: CountIn(positions, x) == Tally(Placed, rows, x)
    ensures forall x :: CountIn(carryover, x) == Tally(Adjacent, rows, x)
  {
    positions, carryover := map[], map[];
    for i := 0 to |rows|
      invariant forall x :: CountIn(positions, x) == Tally(Placed, rows[..i], x)
      invariant forall x :: CountIn(carryover, x) == Tally(Adjacent, rows[..i], x)
    {
      positions := AddPlacements(rows[i], positions);
      carryover := AddNeighbours(rows[i], carryover);
      assert rows[..i + 1][..i] == rows[..i];
    }
    assert rows[..|rows|] == rows;
  }

  method ValidateCompleteSchedule(schedule: seq<Rotation>) returns (r: Result<BalanceReport, SuiteError>)
    ensures Verdict(SequencesOf(schedule), r)
  {
    if schedule == [] {
      return Err(EmptySchedule);
    }
    var sequences := SequencesOf(schedule);
    var treatmentSet := Elements(sequences[0]);
    for i := 0 to |sequences|
      invariant forall j :: 0 <= j < i ==> CompleteRotation(sequences[j], treatmentSet)
    {
      if Elements(sequences[i]) != treatmentSet || |sequences[i]| != |treatmentSet| {
        if AllComplete(sequences, treatmentSet) {
          AllCompleteAt(sequences, treatmentSet, i);
        }
        return Err(IncompleteRotation);
      }
    }
    AllCompleteIf(sequences, treatmentSet);
    var positions, carryover := CountEvents(sequences);
    var positionValues := set x | x in PositionEvents(treatmentSet) :: CountIn(positions, x);
    var pairValues := set x | x in CarryoverEvents(treatmentSet) :: CountIn(carryover, x);
    assert positionValues == CountsOf(Placed, sequences, PositionEvents(treatmentSet));
    assert pairValues == CountsOf(Adjacent, sequences, CarryoverEvents(treatmentSet));
    r := Ok(BalanceReport(|treatmentSet|, |sequences|, OneValue(positionValues), OneValue(pairValues),
                          positionValues, pairValues));
  }

  // ---------------------------------------------------------------- the construction satisfies the checker

  lemma {:induction false} TreatmentsDistinct(ids: seq<string>)
    ensures Distinct(Treatments(ids)) <==> Distinct(ids)
  {
    var ts := Treatments(ids);
    DistinctIndices(ids);
    DistinctIndices(ts);
    if Distinct(ids) {
      forall i, j | 0 <= i < j < |ts| ensures ts[i] != ts[j] {
        if i / 2 != j / 2 {
          assert ids[i / 2] != ids[j / 2];
        }
      }
    } else {
      var i, j :| 0 <= i < j < |ids| && ids[i] == ids[j];
      assert ts[2 * i] == ts[2 * j];
    }
  }

  lemma {:induction false} SequencesOfBlock(rows: seq<seq<Treatment>>, block: nat, done: nat)
    ensures SequencesOf(BlockRotations(rows, block, done)) == rows
  {
    var rotations := BlockRotations(rows, block, done);
    forall j | 0 <= j < |rows| ensures SequenceOf(rotations[j]) == rows[j] {
      assert rotations[j].treatments == Place(rows[j]);
    }
  }

  lemma {:induction false} SequencesOfRotations(sq: seq<seq<Treatment>>, blocks: nat)
    ensures SequencesOf(Rotations(sq, blocks)) == Rows(sq, blocks)
  {
    if blocks > 0 {
      SequencesOfRotations(sq, blocks - 1);
      var block := BlockRotations(BlockRows(sq, blocks), blocks, RowCount(|sq|, blocks - 1));
      SequencesOfBlock(BlockRows(sq, blocks), blocks, RowCount(|sq|, blocks - 1));
      assert SequencesOf(Rotations(sq, blocks)) == SequencesOf(Rotations(sq, blocks - 1)) + SequencesOf(block);
    }
  }

  /** The rows the checker sees of a schedule cut after `q` blocks and `r` rotations. */
  lemma {:induction false} ScheduleRows(ids: seq<string>, blocks: nat, limit: Option<int>, n: nat, q: nat, r: nat)
    requires n == |Treatments(ids)| && r < n
    requires KeptRotations(RowCount(n, blocks), limit) == RowCount(n, q) + r
    ensures SequencesOf(ScheduleOf(ids, blocks, limit)) == CutRows(Square(Treatments(ids)), q, r)
  {
    var sq := Square(Treatments(ids));
    var kept := RowCount(n, q) + r;
    SequencesOfRotations(sq, blocks);
    RowsLength(sq, blocks);
    CutRowsLength(sq, q, r);
    RowsPrefix(sq, blocks, q, r);
    assert SequencesOf(Rotations(sq, blocks)[..kept]) == SequencesOf(Rotations(sq, blocks))[..kept];
  }

  /** Every row of the square is complete, and each event happens once in it. */
  ghost predicate BalancedSquare<T(!new)>(sq: seq<seq<T>>, ts: set<T>) {
    && |sq| == |ts| >= 2
    && (forall i :: 0 <= i < |sq| ==> CompleteRotation(sq[i], ts))
    && OnceEach(Placed, sq, PositionEvents(ts))
    && OnceEach(Adjacent, sq, CarryoverEvents(ts))
  }

  /** The Williams square of distinct items is balanced. */
  lemma {:induction false} SquareIsBalanced<T(!new)>(items: seq<T>)
    requires EvenDesign(items)
    ensures BalancedSquare(Square(items), Elements(items))
  {
    DistinctCardinality(items);
    ElementsAre(items);
    forall i | 0 <= i < |items| ensures CompleteRotation(Square(items)[i], Elements(items)) {
      RowIsPermutation(items, i);
    }
    forall x | x in PositionEvents(Elements(items)) ensures Tally(Placed, Square(items), x) == 1 {
      SquarePositionOnce(items, x.0, x.1);
    }
    forall x | x in CarryoverEvents(Elements(items)) ensures Tally(Adjacent, Square(items), x) == 1 {
      SquareCarryoverOnce(items, x.0, x.1);
    }
  }

  /** A complete row's first placement and its first pair of neighbours. */
  lemma {:induction false} RowEvents<T(!new)>(row: seq<T>, ts: set<T>)
    requires CompleteRotation(row, ts) && |row| >= 2
    ensures (row[0], 0) in PositionEvents(ts) && Placed(row, (row[0], 0)) > 0
    ensures (row[0], row[1]) in CarryoverEvents(ts) && Adjacent(row, (row[0], row[1])) > 0
  {
    RepeatedCardinality(row);
    DistinctIndices(row);
    ElementsAre(row);
    AdjacentOnce(row, 0, row[0], row[1]);
  }

  lemma {:induction false} CutCounts<T(!new)>(sq: seq<seq<T>>, ts: set<T>, q: nat, r: nat)
    requires BalancedSquare(sq, ts) && r < |sq|
    ensures CountsOf(Placed, CutRows(sq, q, r), PositionEvents(ts)) == Replications(q, r)
    ensures CountsOf(Adjacent, CutRows(sq, q, r), CarryoverEvents(ts)) == Replications(q, r)
  {
    var f := BlockRowsComeFrom(sq, q + 1, 0);
    var l := BlockRowsComeFrom(sq, q + 1, |sq| - 1);
    RowEvents(sq[f], ts);
    RowEvents(sq[l], ts);
    CutValues(Placed, sq, q, r, PositionEvents(ts), (sq[f][0], 0), (sq[l][0], 0));
    CutValues(Adjacent, sq, q, r, CarryoverEvents(ts), (sq[f][0], sq[f][1]), (sq[l][0], sq[l][1]));
  }

  lemma {:induction false} CutRowsComplete<T(!new)>(sq: seq<seq<T>>, ts: set<T>, q: nat, r: nat)
    requires BalancedSquare(sq, ts) && r < |sq|
    ensures AllComplete(CutRows(sq, q, r), ts)
  {
    var rows := CutRows(sq, q, r);
    forall i | 0 <= i < |rows| ensures CompleteRotation(rows[i], ts) {
      var s := CutRowsComeFrom(sq, q, r, i);
    }
    AllCompleteIf(rows, ts);
  }

  /** The report on `q` whole blocks of `n` rotations and `r` rotations of the next block. */
  ghost predicate IsCutReport(report: BalanceReport, n: nat, q: nat, r: nat) {
    report == BalanceReport(n, RowCount(n, q) + r, r == 0, r == 0, Replications(q, r), Replications(q, r))
  }

  /** The checker's answer on a balanced square's rows, wherever they are cut. */
  lemma {:induction false} BalancedVerdict<T(!new)>(
    sq: seq<seq<T>>, ts: set<T>, q: nat, r: nat, answer: Result<BalanceReport, SuiteError>)
    requires BalancedSquare(sq, ts) && r < |sq| && (q > 0 || r > 0) && Verdict(CutRows(sq, q, r), answer)
    ensures answer.Ok? && IsCutReport(answer.value, |sq|, q, r)
  {
    var rows := CutRows(sq, q, r);
    CutRowsLength(sq, q, r);
    CutRowsComplete(sq, ts, q, r);
    AllCompleteAt(rows, ts, 0);
    CutCounts(sq, ts, q, r);
  }

  /** A square of rows with repeated items is refused. */
  lemma {:induction false} RepeatedVerdict<T(!new)>(
    sq: seq<seq<T>>, q: nat, r: nat, answer: Result<BalanceReport, SuiteError>)
    requires forall i :: 0 <= i < |sq| ==> |Elements(sq[i])| != |sq[i]|
    requires r < |sq| && (q > 0 || r > 0) && Verdict(CutRows(sq, q, r), answer)
    ensures answer == Err(IncompleteRotation)
  {
    var rows := CutRows(sq, q, r);
    CutRowsLength(sq, q, r);
    var s := CutRowsComeFrom(sq, q, r, 0);
    if AllComplete(rows, Elements(rows[0])) {
      AllCompleteAt(rows, Elements(rows[0]), 0);
    }
  }

  lemma {:induction false} SquareRowsRepeat<T(!new)>(items: seq<T>, i: nat)
    requires |items| % 2 == 0 && !Distinct(items) && i < |items|
    ensures |Elements(Square(items)[i])| != |Square(items)[i]|
  {
    RowIsPermutation(items, i);
    RepeatedCardinality(items);
  }

  /** The checker's answer on the Williams square's rows, whatever the items and wherever they are cut. */
  lemma {:induction false} WilliamsVerdict<T(!new)>(
    items: seq<T>, q: nat, r: nat, rows: seq<seq<T>>, answer: Result<BalanceReport, SuiteError>)
    requires |items| % 2 == 0 && r < |items| && (q > 0 || r > 0)
    requires rows == CutRows(Square(items), q, r) && Verdict(rows, answer)
    ensures if Distinct(items) then answer.Ok? && IsCutReport(answer.value, |items|, q, r)
            else answer == Err(IncompleteRotation)
  {
    var sq := Square(items);
    if Distinct(items) {
      SquareIsBalanced(items);
      BalancedVerdict(sq, Elements(items), q, r, answer);
    } else {
      forall i | 0 <= i < |sq| ensures |Elements(sq[i])| != |sq[i]| {
        SquareRowsRepeat(items, i);
      }
      RepeatedVerdict(sq, q, r, answer);
    }
  }

  /** The checker's answer on a built schedule. */
  lemma {:induction false} ScheduleVerdict(
    ids: seq<string>, blocks: nat, limit: Option<int>, q: nat, r: nat,
    rows: seq<seq<Treatment>>, answer: Result<BalanceReport, SuiteError>)
    requires r < |Treatments(ids)| && (q > 0 || r > 0)
    requires KeptRotations(RowCount(|Treatments(ids)|, blocks), limit) == RowCount(|Treatments(ids)|, q) + r
    requires rows == SequencesOf(ScheduleOf(ids, blocks, limit)) && Verdict(rows, answer)
    ensures if Distinct(Treatments(ids)) then answer.Ok? && IsCutReport(answer.value, |Treatments(ids)|, q, r)
            else answer == Err(IncompleteRotation)
  {
    var items := Treatments(ids);
    assert rows == CutRows(Square(items), q, r) by {
      ScheduleRows(ids, blocks, limit, |items|, q, r);
    }
    WilliamsVerdict(items, q, r, rows, answer);
  }

  lemma {:induction false} EmptyVerdict(
    ids: seq<string>, blocks: nat, limit: Option<int>, answer: Result<BalanceReport, SuiteError>)
    requires KeptRotations(RowCount(|Treatments(ids)|, blocks), limit) == 0
    requires Verdict(SequencesOf(ScheduleOf(ids, blocks, limit)), answer)
    ensures answer == Err(EmptySchedule)
  {
  }

  /** A truncation leaves whole blocks of `n` rotations and some rotations of the next one. */
  lemma {:induction false} KeptIsCut(n: nat, blocks: nat, kept: nat)
    requires n > 0 && kept <= RowCount(n, blocks)
    ensures kept % n < n && RowCount(n, kept / n) + kept % n == kept
  {
    RowCountIsProduct(n, kept / n);
  }

  /**
    * Building and checking a schedule, for any implementations, block count and truncation. The
    * report is balanced exactly when the identifiers are distinct and whole blocks are kept; the
    * replications are the number of blocks, or two neighbouring numbers when a block is left open.
    */
  method CheckedSchedule(ids: seq<string>, blocks: int, limit: Option<int>)
    returns (report: Result<BalanceReport, SuiteError>)
    ensures blocks < 1 ==> report == Err(BlocksNotPositive)
    ensures blocks >= 1 && ids == [] ==> report == Err(OddTreatmentCount)
    ensures blocks >= 1 && ids != [] ==>
      var n := 2 * |ids|;
      var kept := KeptRotations(RowCount(n, blocks), limit);
      if kept == 0 then report == Err(EmptySchedule)
      else if !Distinct(ids) then report == Err(IncompleteRotation)
      else report.Ok? && IsCutReport(report.value, n, kept / n, kept % n)
  {
    var schedule := BuildSchedule(ids, blocks, limit);
    if schedule.Err? {
      return Err(schedule.error);
    }
    report := ValidateCompleteSchedule(schedule.value);
    ghost var n := 2 * |ids|;
    ghost var kept := KeptRotations(RowCount(n, blocks), limit);
    KeptIsCut(n, blocks, kept);
    TreatmentsDistinct(ids);
    if kept > 0 {
      ScheduleVerdict(ids, blocks, limit, kept / n, kept % n, SequencesOf(schedule.value), report);
    } else {
      EmptyVerdict(ids, blocks, limit, report);
    }
  }

  /** Without truncation every position and every neighbour pair is replicated once a block. */
  method CheckedFullSchedule(ids: seq<string>, blocks: nat) returns (report: Result<BalanceReport, SuiteError>)
    requires blocks >= 1 && ids != [] && Distinct(ids)
    ensures report.Ok? && report.value
         == BalanceReport(2 * |ids|, blocks * (2 * |ids|), true, true, {blocks}, {blocks})
  {
    report := CheckedSchedule(ids, blocks, None);
    FullCut(2 * |ids|, blocks);
    RowCountIsProduct(2 * |ids|, blocks);
  }

  lemma {:induction false} FullCut(n: nat, blocks: nat)
    requires n > 0
    ensures RowCount(n, blocks) / n == blocks && RowCount(n, blocks) % n == 0
  {
    var kept := RowCount(n, blocks);
    KeptIsCut(n, blocks, kept);
    OneCut(n, blocks, kept / n, kept % n);
  }

  lemma {:induction false} OneCut(n: nat, blocks: nat, q: nat, r: nat)
    requires r < n && RowCount(n, blocks) == RowCount(n, q) + r
    ensures q == blocks && r == 0
  {
    if q < blocks {
      RowCountGrows(n, q + 1, blocks);
    } else if blocks < q {
      RowCountGrows(n, blocks + 1, q);
    }
  }
}
