/**
 * `process_batch` as a function of the store: the rows of one batch run in
 * order inside one transaction, numbered from `start + 1`; their outcomes are
 * tallied; a transaction that fails to commit is rolled back and reported as
 * one more error, without resetting the tallies.
 */
module Batches {
  import opened Wrappers
  import opened Text
  import opened CsvFiles
  import opened Models
  import opened Rows
  import opened Arith

  /** `(shipments_created, articles_created, errors)`. */
  datatype BatchResult = BatchResult(shipmentsCreated: nat, articlesCreated: nat, errors: seq<string>)

  /**
   * A batch either returns its triple, or the handler of a failed batch
   * itself raises (the batch number divides by the batch length).
   */
  datatype BatchOutcome = Completed(result: BatchResult) | Raised(detail: string)

  /** What processing one numbered row does to the store. */
  type RowProcessor = (StoreState, Row, nat) -> (RowOutcome, StoreState)

  /** `process_csv_row`, with the given reading of prices. */
  function ProcessRow(parsePrice: PriceParser): RowProcessor {
    (st: StoreState, row: Row, n: nat) => RowStep(st, CellsOf(row), n, parsePrice)
  }

  /** A failed row reports no creation and names its row number `n`. */
  predicate RowReport(n: nat, o: RowOutcome) {
    o.error.Some? ==> !o.shipmentCreated && !o.articleCreated && RowPrefix(n) <= o.error.value
  }

  /** A row only adds records, and keeps every article attached to a stored shipment. */
  ghost predicate RowGrowth(st: StoreState, st2: StoreState) {
    Extends(st, st2) && (Valid(st) ==> Valid(st2))
  }

  /** A row adds at most one shipment and at most one article, and reports what it adds. */
  predicate RowCounts(st: StoreState, res: (RowOutcome, StoreState)) {
    && |st.shipments| <= |res.1.shipments| <= |st.shipments| + 1
    && (res.0.shipmentCreated ==> |res.1.shipments| == |st.shipments| + 1)
    && |res.1.articles| == if res.0.articleCreated then |st.articles| + 1 else |st.articles|
  }

  /** Every failed row reports no creation and names its row number. */
  ghost predicate ReportsRows(process: RowProcessor) {
    forall st, row, n {:trigger RowReport(n, process(st, row, n).0)} :: RowReport(n, process(st, row, n).0)
  }

  /** What every `process_csv_row` call guarantees. */
  ghost predicate WellBehaved(process: RowProcessor) {
    && ReportsRows(process)
    && (forall st, row, n {:trigger RowGrowth(st, process(st, row, n).1)} :: RowGrowth(st, process(st, row, n).1))
    && (forall st, row, n {:trigger RowCounts(st, process(st, row, n))} :: RowCounts(st, process(st, row, n)))
  }

  /** `process_csv_row` has the effects every batch lemma relies on. */
  lemma ProcessRowWellBehaved(parsePrice: PriceParser)
    ensures WellBehaved(ProcessRow(parsePrice))
  {
    var process := ProcessRow(parsePrice);
    forall st, row, n
      ensures RowReport(n, process(st, row, n).0)
      ensures RowGrowth(st, process(st, row, n).1)
      ensures RowCounts(st, process(st, row, n))
    {
      RowStepEffects(st, CellsOf(row), n, parsePrice);
    }
  }

  /** The outcomes of `rows` processed in order from store `st`, the last row numbered `start + |rows|`. */
  function RunRows(process: RowProcessor, st: StoreState, rows: seq<Row>, start: nat): (res: (seq<RowOutcome>, StoreState))
    ensures |res.0| == |rows|
  {
    if rows == [] then ([], st)
    else
      var before := RunRows(process, st, rows[..|rows| - 1], start);
      var last := process(before.1, rows[|rows| - 1], start + |rows|);
      (before.0 + [last.0], last.1)
  }

  /** Python's truthiness of the error slot: `None` and `""` are no error. */
  predicate IsError(o: RowOutcome) {
    o.error.Some? && o.error.value != ""
  }

  /**
   * The loop body's bookkeeping over a sequence of outcomes: an error is
   * appended, otherwise the two creation flags are counted.
   */
  function Tally(outcomes: seq<RowOutcome>): (r: BatchResult)
    ensures r.shipmentsCreated + |r.errors| <= |outcomes|
    ensures r.articlesCreated + |r.errors| <= |outcomes|
  {
    if outcomes == [] then BatchResult(0, 0, [])
    else Count(Tally(outcomes[..|outcomes| - 1]), outcomes[|outcomes| - 1])
  }

  /** One turn of the loop body: an error is appended, otherwise the flags are counted. */
  function Count(r: BatchResult, o: RowOutcome): BatchResult {
    if IsError(o) then r.(errors := r.errors + [o.error.value])
    else
      BatchResult(
        r.shipmentsCreated + (if o.shipmentCreated then 1 else 0),
        r.articlesCreated + (if o.articleCreated then 1 else 0),
        r.errors)
  }

  /** The number the failure message gives a batch: `start // len(batch) + 1`. */
  function BatchFailureNumber(start: nat, size: nat): nat
    requires size > 0
  {
    FloorDiv(start, size) + 1
  }

  function BatchFailureMessage(start: nat, size: nat, detail: string): string
    requires size > 0
  {
    "Batch " + NatToString(BatchFailureNumber(start, size)) + " failed: " + detail
  }

  /**
   * `process_batch(rows, start)` on store `st`, where `fault` is the error the
   * transaction fails to commit with, if any. A failed transaction leaves the
   * store as it was; its rows' tallies and errors are still returned.
   */
  function BatchStep(process: RowProcessor, st: StoreState, rows: seq<Row>, start: nat, fault: Option<string>): (res: (BatchOutcome, StoreState))
    ensures |rows| > 0 ==> res.0.Completed?
    ensures fault.Some? ==> res.1 == st
    ensures res.0.Completed? ==>
      && res.0.result.shipmentsCreated <= |rows|
      && res.0.result.articlesCreated <= |rows|
      && |res.0.result.errors| <= |rows| + (if fault.Some? then 1 else 0)
  {
    var run := RunRows(process, st, rows, start);
    var r := Tally(run.0);
    match fault
    case None => (Completed(r), run.1)
    case Some(detail) =>
      if |rows| == 0 then (Raised("integer division or modulo by zero"), st)
      else (Completed(r.(errors := r.errors + [BatchFailureMessage(start, |rows|, detail)])), st)
  }

  /** A completed batch reports its rows' creation counts; without a fault it commits the store its rows left. */
  lemma BatchStepTally(process: RowProcessor, st: StoreState, rows: seq<Row>, start: nat, fault: Option<string>)
    ensures var res := BatchStep(process, st, rows, start, fault);
      var run := RunRows(process, st, rows, start);
      && (res.0.Completed? ==>
            res.0.result.shipmentsCreated == Tally(run.0).shipmentsCreated
            && res.0.result.articlesCreated == Tally(run.0).articlesCreated)
      && (fault.None? ==> res.1 == run.1)
  {
  }

  /** One more row of a run: the run of `rows[..idx + 1]` extends the run of `rows[..idx]` by row `idx`. */
  lemma RunRowsStep(process: RowProcessor, st: StoreState, rows: seq<Row>, start: nat, idx: nat,
                    outcomes: seq<RowOutcome>, st1: StoreState, o: RowOutcome, st2: StoreState)
    requires idx < |rows|
    requires RunRows(process, st, rows[..idx], start) == (outcomes, st1)
    requires process(st1, rows[idx], start + idx + 1) == (o, st2)
    ensures RunRows(process, st, rows[..idx + 1], start) == (outcomes + [o], st2)
  {
    assert rows[..idx + 1][..idx] == rows[..idx];
  }

  /** Running a prefix of the rows gives a prefix of the outcomes. */
  lemma {:induction false} RunRowsPrefix(process: RowProcessor, st: StoreState, rows: seq<Row>, start: nat, k: nat)
    requires k <= |rows|
    ensures RunRows(process, st, rows, start).0[..k] == RunRows(process, st, rows[..k], start).0
    decreases |rows|
  {
    if k < |rows| {
      var front := rows[..|rows| - 1];
      RunRowsPrefix(process, st, front, start, k);
      assert front[..k] == rows[..k];
    } else {
      assert rows[..k] == rows;
    }
  }

  /** The store a run of rows leaves after row `j`: row `j` run on the store the rows before it left. */
  lemma StoreAfterRow(process: RowProcessor, st: StoreState, rows: seq<Row>, start: nat, j: nat)
    requires j < |rows|
    ensures RunRows(process, st, rows[..j + 1], start).1 ==
      process(RunRows(process, st, rows[..j], start).1, rows[j], start + j + 1).1
  {
    var pre := rows[..j + 1];
    assert pre[..|pre| - 1] == rows[..j];
  }

  /**
   * Each row is processed exactly once, in order: outcome `j` is the row
   * processor on row `j`, numbered `start + j + 1`, against the store the rows
   * before it left.
   */
  lemma OutcomeOfRow(process: RowProcessor, st: StoreState, rows: seq<Row>, start: nat, j: nat)
    requires j < |rows|
    ensures RunRows(process, st, rows, start).0[j] ==
      process(RunRows(process, st, rows[..j], start).1, rows[j], start + j + 1).0
  {
    var pre := rows[..j + 1];
    RunRowsPrefix(process, st, rows, start, j + 1);
    assert pre[..|pre| - 1] == rows[..j];
    assert RunRows(process, st, rows, start).0[j] == RunRows(process, st, rows, start).0[..j + 1][j];
  }

  /** Running `a + b` is running `a`, then `b` from where `a` left the store, its rows numbered on. */
  lemma {:induction false} RunRowsAppend(process: RowProcessor, st: StoreState, a: seq<Row>, b: seq<Row>, start: nat)
    ensures var first := RunRows(process, st, a, start);
      var second := RunRows(process, first.1, b, start + |a|);
      RunRows(process, st, a + b, start) == (first.0 + second.0, second.1)
    decreases |b|
  {
    if b == [] {
      assert a + b == a;
      var first := RunRows(process, st, a, start);
      assert first.0 + [] == first.0;
    } else {
      var front := b[..|b| - 1];
      RunRowsAppend(process, st, a, front, start);
      assert (a + b)[..|a + b| - 1] == a + front;
      assert (a + b)[|a + b| - 1] == b[|b| - 1];
      var first := RunRows(process, st, a, start);
      var second := RunRows(process, first.1, front, start + |a|);
      var last := process(second.1, b[|b| - 1], start + |a| + |b|);
      assert RunRows(process, first.1, b, start + |a|) == (second.0 + [last.0], last.1);
      assert RunRows(process, st, a + b, start) == (first.0 + second.0 + [last.0], last.1);
      assert first.0 + second.0 + [last.0] == first.0 + (second.0 + [last.0]);
    }
  }

  /** Adding up two tallies. */
  function Combine(x: BatchResult, y: BatchResult): BatchResult {
    BatchResult(x.shipmentsCreated + y.shipmentsCreated, x.articlesCreated + y.articlesCreated, x.errors + y.errors)
  }

  /** The tally of consecutive outcomes is the sum of their tallies. */
  lemma {:induction false} TallyAppend(x: seq<RowOutcome>, y: seq<RowOutcome>)
    ensures Tally(x + y) == Combine(Tally(x), Tally(y))
    decreases |y|
  {
    if y == [] {
      assert x + y == x;
    } else {
      var front := y[..|y| - 1];
      TallyAppend(x, front);
      TallySnoc(x, front, y[|y| - 1]);
      assert front + [y[|y| - 1]] == y;
    }
  }

  /** The step of `TallyAppend`: one more outcome at the end of the second part. */
  lemma TallySnoc(x: seq<RowOutcome>, front: seq<RowOutcome>, o: RowOutcome)
    requires Tally(x + front) == Combine(Tally(x), Tally(front))
    ensures Tally(x + (front + [o])) == Combine(Tally(x), Tally(front + [o]))
  {
    var y := front + [o];
    assert (x + y)[..|x + y| - 1] == x + front;
    assert (x + y)[|x + y| - 1] == o;
    assert y[..|y| - 1] == front;
    assert Tally(x + y) == Count(Tally(x + front), o);
    assert Tally(y) == Count(Tally(front), o);
    CombineCount(Tally(x), Tally(front), o);
  }

  /** Counting one more outcome commutes with adding a tally in front. */
  lemma CombineCount(x: BatchResult, y: BatchResult, o: RowOutcome)
    ensures Combine(x, Count(y, o)) == Count(Combine(x, y), o)
  {
    if IsError(o) {
      assert x.errors + (y.errors + [o.error.value]) == (x.errors + y.errors) + [o.error.value];
    }
  }

  /** Processing rows only adds records, and keeps every article attached to a stored shipment. */
  lemma {:induction false} RunRowsExtends(process: RowProcessor, st: StoreState, rows: seq<Row>, start: nat)
    requires WellBehaved(process)
    ensures Extends(st, RunRows(process, st, rows, start).1)
    ensures Valid(st) ==> Valid(RunRows(process, st, rows, start).1)
    decreases |rows|
  {
    if rows != [] {
      var before := RunRows(process, st, rows[..|rows| - 1], start);
      RunRowsExtends(process, st, rows[..|rows| - 1], start);
      assert RowGrowth(before.1, process(before.1, rows[|rows| - 1], start + |rows|).1);
    }
  }

  /**
   * The article count is exactly how much the article table grew; the shipment
   * count may be less than the shipment table's growth, since a row with
   * invalid numbers creates its shipment without counting it.
   */
  lemma {:induction false} CountsMatchStore(process: RowProcessor, st: StoreState, rows: seq<Row>, start: nat)
    requires WellBehaved(process)
    ensures |RunRows(process, st, rows, start).1.articles| == |st.articles| + Tally(RunRows(process, st, rows, start).0).articlesCreated
    ensures |st.shipments| + Tally(RunRows(process, st, rows, start).0).shipmentsCreated <= |RunRows(process, st, rows, start).1.shipments|
    ensures |RunRows(process, st, rows, start).1.shipments| <= |st.shipments| + |rows|
    decreases |rows|
  {
    if rows != [] {
      var before := RunRows(process, st, rows[..|rows| - 1], start);
      CountsMatchStore(process, st, rows[..|rows| - 1], start);
      var last := process(before.1, rows[|rows| - 1], start + |rows|);
      assert RowCounts(before.1, last) && RowReport(start + |rows|, last.0);
      var outcomes := before.0 + [last.0];
      assert RunRows(process, st, rows, start) == (outcomes, last.1);
      assert outcomes[..|outcomes| - 1] == before.0;
    }
  }

  /** The positions of the outcomes that are errors, in increasing order. */
  function ErrorRows(outcomes: seq<RowOutcome>): (idx: seq<nat>)
    ensures |idx| == |Tally(outcomes).errors|
  {
    if outcomes == [] then []
    else
      var front := ErrorRows(outcomes[..|outcomes| - 1]);
      if IsError(outcomes[|outcomes| - 1]) then front + [|outcomes| - 1] else front
  }

  /**
   * The batch's errors are the errors of its rows, one per failing row, in
   * row order.
   */
  lemma {:induction false} ErrorsInRowOrder(outcomes: seq<RowOutcome>)
    ensures var idx := ErrorRows(outcomes);
      && (forall m :: 0 <= m < |idx| ==> idx[m] < |outcomes| && outcomes[idx[m]].error == Some(Tally(outcomes).errors[m]))
      && (forall m, m' :: 0 <= m < m' < |idx| ==> idx[m] < idx[m'])
      && (forall j :: 0 <= j < |outcomes| && IsError(outcomes[j]) ==> j in idx)
    decreases |outcomes|
  {
    if outcomes != [] {
      var front := outcomes[..|outcomes| - 1];
      ErrorsInRowOrder(front);
      assert forall j :: 0 <= j < |front| ==> outcomes[j] == front[j];
    }
  }

  /** The `m`-th error of a batch is the error of its `m`-th failing row. */
  lemma ErrorRowOf(outcomes: seq<RowOutcome>, m: nat)
    requires m < |Tally(outcomes).errors|
    ensures ErrorRows(outcomes)[m] < |outcomes|
    ensures outcomes[ErrorRows(outcomes)[m]].error == Some(Tally(outcomes).errors[m])
  {
    ErrorsInRowOrder(outcomes);
  }

  /** A failed row's error starts by naming the row. */
  lemma ReportedError(n: nat, o: RowOutcome, e: string)
    requires RowReport(n, o) && o.error == Some(e)
    ensures RowPrefix(n) <= e
  {
  }

  /** The `m`-th error of a batch's rows is `Row <start + j + 1>: ...`, for the `m`-th failing row `j`. */
  lemma RowErrorsNumbered(process: RowProcessor, st: StoreState, rows: seq<Row>, start: nat, m: nat)
    requires ReportsRows(process)
    requires m < |Tally(RunRows(process, st, rows, start).0).errors|
    ensures var outcomes := RunRows(process, st, rows, start).0;
      var j := ErrorRows(outcomes)[m];
      j < |rows| && RowPrefix(start + j + 1) <= Tally(outcomes).errors[m]
  {
    var outcomes := RunRows(process, st, rows, start).0;
    ErrorRowOf(outcomes, m);
    var j := ErrorRows(outcomes)[m];
    OutcomeOfRow(process, st, rows, start, j);
    var res := process(RunRows(process, st, rows[..j], start).1, rows[j], start + j + 1);
    assert RowReport(start + j + 1, res.0);
    ReportedError(start + j + 1, res.0, Tally(outcomes).errors[m]);
  }

  /**
   * `settled(st, row)` says processing `row` on `st` would change nothing:
   * processing a row settles it, growth of the store keeps it settled, and a
   * settled row creates nothing and leaves the store as it is.
   */
  ghost predicate Settles(process: RowProcessor, settled: (StoreState, Row) -> bool) {
    && (forall st, row, n :: settled(process(st, row, n).1, row))
    && (forall st, st2, row :: settled(st, row) && Extends(st, st2) ==> settled(st2, row))
    && (forall st, row, n :: settled(st, row) ==>
          var res := process(st, row, n);
          res.1 == st && !res.0.shipmentCreated && !res.0.articleCreated)
  }

  /** `process_csv_row` settles its rows in the sense of `Rows.Settled`. */
  lemma ProcessRowSettles(parsePrice: PriceParser)
    ensures Settles(ProcessRow(parsePrice), (st: StoreState, row: Row) => Settled(st, CellsOf(row), parsePrice))
  {
    var process := ProcessRow(parsePrice);
    forall st, row, n ensures Settled(process(st, row, n).1, CellsOf(row), parsePrice) {
      SettledAfterStep(st, CellsOf(row), n, parsePrice);
    }
    forall st, st2, row | Settled(st, CellsOf(row), parsePrice) && Extends(st, st2)
      ensures Settled(st2, CellsOf(row), parsePrice)
    {
      SettledStable(st, st2, CellsOf(row), parsePrice);
    }
    forall st, row, n | Settled(st, CellsOf(row), parsePrice)
      ensures process(st, row, n).1 == st && !process(st, row, n).0.shipmentCreated && !process(st, row, n).0.articleCreated
    {
      SettledStepChangesNothing(st, CellsOf(row), n, parsePrice);
    }
  }

  /** Once a batch has run, every one of its rows is settled in the store it left. */
  lemma {:induction false} AllSettled(process: RowProcessor, settled: (StoreState, Row) -> bool, st: StoreState, rows: seq<Row>, start: nat)
    requires WellBehaved(process) && Settles(process, settled)
    ensures forall j :: 0 <= j < |rows| ==> settled(RunRows(process, st, rows, start).1, rows[j])
    decreases |rows|
  {
    if rows != [] {
      var front := rows[..|rows| - 1];
      var st1 := RunRows(process, st, front, start).1;
      var st2 := RunRows(process, st, rows, start).1;
      AllSettled(process, settled, st, front, start);
      assert st2 == process(st1, rows[|rows| - 1], start + |rows|).1;
      assert RowGrowth(st1, process(st1, rows[|rows| - 1], start + |rows|).1);
      forall j | 0 <= j < |rows| ensures settled(st2, rows[j]) {
        if j < |rows| - 1 {
          assert front[j] == rows[j];
          assert settled(st1, rows[j]);
        }
      }
    }
  }

  /** Rows that are all settled create nothing and leave the store as it is. */
  lemma {:induction false} SettledRowsChangeNothing(process: RowProcessor, settled: (StoreState, Row) -> bool, st: StoreState, rows: seq<Row>, start: nat)
    requires Settles(process, settled)
    requires forall j :: 0 <= j < |rows| ==> settled(st, rows[j])
    ensures var run := RunRows(process, st, rows, start);
      run.1 == st && Tally(run.0).shipmentsCreated == 0 && Tally(run.0).articlesCreated == 0
    decreases |rows|
  {
    if rows != [] {
      var front := rows[..|rows| - 1];
      assert forall j :: 0 <= j < |front| ==> front[j] == rows[j];
      SettledRowsChangeNothing(process, settled, st, front, start);
      assert settled(st, rows[|rows| - 1]);
    }
  }

  /** Running the same rows again, with any numbering, creates nothing and changes nothing. */
  lemma Rerun(process: RowProcessor, settled: (StoreState, Row) -> bool, st: StoreState, rows: seq<Row>, start: nat, start2: nat)
    requires WellBehaved(process) && Settles(process, settled)
    ensures var st1 := RunRows(process, st, rows, start).1;
      var run := RunRows(process, st1, rows, start2);
      run.1 == st1 && Tally(run.0).shipmentsCreated == 0 && Tally(run.0).articlesCreated == 0
  {
    AllSettled(process, settled, st, rows, start);
    SettledRowsChangeNothing(process, settled, RunRows(process, st, rows, start).1, rows, start2);
  }

  /** An empty batch reports `(0, 0, [])` and changes nothing. */
  lemma EmptyBatch(process: RowProcessor, st: StoreState, start: nat)
    ensures BatchStep(process, st, [], start, None) == (Completed(BatchResult(0, 0, [])), st)
  {
  }

  /**
   * A batch whose transaction fails is rolled back, keeps its row tallies and
   * errors, and ends with `Batch <k> failed: <detail>`.
   */
  lemma FailedBatch(process: RowProcessor, st: StoreState, rows: seq<Row>, start: nat, detail: string)
    requires |rows| > 0
    ensures var res := BatchStep(process, st, rows, start, Some(detail));
      var r := Tally(RunRows(process, st, rows, start).0);
      && res.1 == st
      && res.0.Completed?
      && res.0.result.shipmentsCreated == r.shipmentsCreated
      && res.0.result.articlesCreated == r.articlesCreated
      && res.0.result.errors == r.errors + ["Batch " + NatToString(start / |rows| + 1) + " failed: " + detail]
  {
    FloorDivIsDiv(start, |rows|);
  }

  /** A batch without failure commits the store its rows left, which only adds records. */
  lemma CommittedBatch(process: RowProcessor, st: StoreState, rows: seq<Row>, start: nat)
    requires WellBehaved(process)
    ensures var res := BatchStep(process, st, rows, start, None);
      var run := RunRows(process, st, rows, start);
      res.0 == Completed(Tally(run.0)) && res.1 == run.1 && Extends(st, res.1)
  {
    RunRowsExtends(process, st, rows, start);
  }

  /** For a full batch starting at `k * size`, the failure message numbers it `k + 1`. */
  lemma FullBatchNumber(k: nat, size: nat)
    requires size > 0
    ensures BatchFailureNumber(k * size, size) == k + 1
  {
    FloorDivIsDiv(k * size, size);
    OffsetDiv(k, size);
  }

  /**
   * A batch of `len <= size` rows at offset `k * size` is numbered by its own
   * length: never below `k + 1`, and exactly `k + 1` only when
   * `k * size < (k + 1) * len`. Of 5 rows in batches of 2, the last batch (row
   * 5 alone, at offset 4) fails as batch 5, not 3.
   */
  lemma ShortBatchNumber(k: nat, size: nat, len: nat)
    requires 0 < len <= size
    ensures BatchFailureNumber(k * size, len) >= k + 1
    ensures BatchFailureNumber(k * size, len) == k + 1 <==> k * size < (k + 1) * len
  {
    FloorDivIsDiv(k * size, len);
    MulMonotone(len, size, k);
    assert k * len == len * k && k * size == size * k;
    DivLower(k * size, len, k);
    if k * size < (k + 1) * len {
      DivUpper(k * size, len, k);
    } else {
      DivLower(k * size, len, k + 1);
    }
  }
}
