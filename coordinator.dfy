/**
 * `load_seed_data_task` as a function: validate the file, read its rows,
 * cut them into consecutive batches of `batchSize`, run each batch, add up the
 * results and record one progress report per batch, then build the final
 * report.
 */
module Coordinator {
  import opened Wrappers
  import opened Text
  import opened CsvFiles
  import opened Models
  import opened Rows
  import opened Batches
  import opened Arith

  /** The `PROGRESS` meta of `update_state`: `current`, `total`, `batch`. */
  datatype Progress = Progress(current: nat, total: nat, batch: nat)

  /** The task's return value: `success` is the constructor. */
  datatype Report =
    | Failed(message: string)
    | Succeeded(message: string, totalRows: nat, shipmentsCreated: nat, articlesCreated: nat, errors: nat)

  /** The commit error of batch `k` (numbered from 1), if that batch's transaction fails. */
  type Faults = nat -> Option<string>

  /** The batch loop's running state. */
  datatype Totals = Totals(store: StoreState, shipments: nat, articles: nat, errors: seq<string>, progress: seq<Progress>)

  function Min(a: nat, b: nat): nat {
    if a <= b then a else b
  }

  /** The rows not yet reached at offset `i`. */
  function Remaining(n: nat, i: nat): nat {
    if i < n then n - i else 0
  }

  /** The number of the batch at offset `i`, counted from 1: `i // batch_size + 1`. */
  function BatchNumber(i: nat, size: nat): nat
    requires size > 0
  {
    i / size + 1
  }

  /**
   * One turn of the batch loop at offset `i`: batch `rows[i..min(i + size, |rows|)]`,
   * numbered `i / size + 1`, added to the running totals, then one progress record.
   */
  function Advance(process: RowProcessor, rows: seq<Row>, size: nat, faults: Faults, i: nat, acc: Totals): (t: Totals)
    requires size > 0 && i < |rows|
  {
    var stop := Min(i + size, |rows|);
    var k := BatchNumber(i, size);
    var res := BatchStep(process, acc.store, rows[i..stop], i, faults(k));
    var r := res.0.result;
    Totals(res.1, acc.shipments + r.shipmentsCreated, acc.articles + r.articlesCreated,
           acc.errors + r.errors, acc.progress + [Progress(stop, |rows|, k)])
  }

  /** The batch loop from offset `i` on, for offsets `i, i + size, i + 2 * size, ...` below `|rows|`. */
  function RunBatchesFrom(process: RowProcessor, rows: seq<Row>, size: nat, faults: Faults, i: nat, acc: Totals): (t: Totals)
    requires size > 0
    decreases |rows| - i
  {
    if i >= |rows| then acc
    else RunBatchesFrom(process, rows, size, faults, i + size, Advance(process, rows, size, faults, i, acc))
  }

  /** A turn in terms of the outcome `res` of its batch. */
  lemma AdvanceBy(process: RowProcessor, rows: seq<Row>, size: nat, faults: Faults, i: nat, acc: Totals,
                  res: (BatchOutcome, StoreState))
    requires size > 0 && i < |rows|
    requires res == BatchStep(process, acc.store, rows[i..Min(i + size, |rows|)], i, faults(BatchNumber(i, size)))
    ensures res.0.Completed?
    ensures Advance(process, rows, size, faults, i, acc) ==
      Totals(res.1, acc.shipments + res.0.result.shipmentsCreated, acc.articles + res.0.result.articlesCreated,
             acc.errors + res.0.result.errors, acc.progress + [Progress(Min(i + size, |rows|), |rows|, BatchNumber(i, size))])
  {
  }

  /** The loop from offset `i` is one turn followed by the loop from `j`, the next offset. */
  lemma NextTurn(process: RowProcessor, rows: seq<Row>, size: nat, faults: Faults, i: nat, j: nat,
                 acc: Totals, next: Totals, final: Totals)
    requires size > 0 && i < |rows| && j == i + size
    requires final == RunBatchesFrom(process, rows, size, faults, i, acc)
    requires next == Advance(process, rows, size, faults, i, acc)
    ensures final == RunBatchesFrom(process, rows, size, faults, j, next)
  {
  }

  /** A turn appends its progress record: rows done so far, the total, the batch number. */
  lemma AdvanceProgress(process: RowProcessor, rows: seq<Row>, size: nat, faults: Faults, i: nat, acc: Totals)
    requires size > 0 && i < |rows|
    ensures Advance(process, rows, size, faults, i, acc).progress ==
      acc.progress + [Progress(Min(i + size, |rows|), |rows|, BatchNumber(i, size))]
  {
  }

  /** A batch adds at most one shipment and one article per row. */
  lemma AdvanceBounds(process: RowProcessor, rows: seq<Row>, size: nat, faults: Faults, i: nat, acc: Totals)
    requires size > 0 && i < |rows|
    ensures var t := Advance(process, rows, size, faults, i, acc);
      && acc.shipments <= t.shipments <= acc.shipments + (Min(i + size, |rows|) - i)
      && acc.articles <= t.articles <= acc.articles + (Min(i + size, |rows|) - i)
  {
    var stop := Min(i + size, |rows|);
    var res := BatchStep(process, acc.store, rows[i..stop], i, faults(BatchNumber(i, size)));
    assert res.0.Completed?;
  }

  /** The loop adds at most one shipment and one article per remaining row. */
  lemma {:induction false} RunBatchesBounds(process: RowProcessor, rows: seq<Row>, size: nat, faults: Faults, i: nat, acc: Totals)
    requires size > 0
    ensures var t := RunBatchesFrom(process, rows, size, faults, i, acc);
      && acc.shipments <= t.shipments <= acc.shipments + Remaining(|rows|, i)
      && acc.articles <= t.articles <= acc.articles + Remaining(|rows|, i)
    decreases |rows| - i
  {
    if i < |rows| {
      AdvanceBounds(process, rows, size, faults, i, acc);
      RunBatchesBounds(process, rows, size, faults, i + size, Advance(process, rows, size, faults, i, acc));
    }
  }

  /** The loop's state before the first batch. */
  function Start(st: StoreState): Totals {
    Totals(st, 0, 0, [], [])
  }

  /** The success message, with its error suffix only when there were errors. */
  function SuccessMessage(rows: nat, shipments: nat, articles: nat, errors: nat): string {
    var base := "Seed data loaded successfully! Processed: " + NatToString(rows) + " rows, Created: " +
      NatToString(shipments) + " shipments, " + NatToString(articles) + " articles";
    if errors > 0 then base + ErrorSuffix(errors) else base
  }

  function ErrorSuffix(errors: nat): string {
    " (with " + NatToString(errors) + " errors)"
  }

  /**
   * `load_seed_data_task(csv_path, batch_size)` on store `st`: the report, the
   * final store and the progress records, in order. A zero batch size is the
   * `ValueError` of `range()`; a negative one gives no batches.
   */
  function SeedRun(process: RowProcessor, st: StoreState, file: CsvFile, batchSize: int, faults: Faults): (r: (Report, StoreState, seq<Progress>))
    ensures !ValidateCsvFile(file).isValid ==> r == (Failed(ValidateCsvFile(file).errorMessage.value), st, [])
    ensures r.0.Failed? ==> r.1 == st && r.2 == []
    ensures r.0.Succeeded? ==>
      && file.body.Read?
      && r.0.totalRows == |file.body.value|
      && r.0.shipmentsCreated <= r.0.totalRows
      && r.0.articlesCreated <= r.0.totalRows
      && r.0.message == SuccessMessage(r.0.totalRows, r.0.shipmentsCreated, r.0.articlesCreated, r.0.errors)
  {
    var v := ValidateCsvFile(file);
    if !v.isValid then (Failed(v.errorMessage.value), st, [])
    else
      match file.body
      case ReadError(detail) => (Failed("Task failed: " + detail), st, [])
      case Read(rows) =>
        if batchSize == 0 then (Failed("Task failed: range() arg 3 must not be zero"), st, [])
        else if batchSize < 0 then Finish(rows, Start(st))
        else
          RunBatchesBounds(process, rows, batchSize, faults, 0, Start(st));
          Finish(rows, RunBatchesFrom(process, rows, batchSize, faults, 0, Start(st)))
  }

  /** The success report over `rows` from the loop's final state. */
  function Finish(rows: seq<Row>, t: Totals): (Report, StoreState, seq<Progress>) {
    var e := |t.errors|;
    (Succeeded(SuccessMessage(|rows|, t.shipments, t.articles, e), |rows|, t.shipments, t.articles, e), t.store, t.progress)
  }

  /** `m < ceil(n / size)` exactly when batch `m` starts before the end. */
  lemma BatchCount(n: nat, size: nat, m: nat)
    requires size > 0
    ensures m * size < n <==> m < (n + size - 1) / size
  {
    var c := (n + size - 1) / size;
    if m * size < n {
      assert (m + 1) * size <= n + size - 1;
      DivLower(n + size - 1, size, m + 1);
    } else {
      assert n + size - 1 < (m + 1) * size;
      DivUpper(n + size - 1, size, m);
    }
  }

  /** Progress record `j` of a run over `n` rows in batches of `size`. */
  function Record(n: nat, size: nat, j: nat): Progress {
    Progress(Min((j + 1) * size, n), n, j + 1)
  }

  /** From batch `m` on, the loop adds records `m, m + 1, ...` up to `ceil(n / size)` of them. */
  lemma {:induction false} ProgressFrom(process: RowProcessor, rows: seq<Row>, size: nat, faults: Faults, m: nat, acc: Totals)
    requires size > 0
    requires m <= (|rows| + size - 1) / size && |acc.progress| == m
    requires forall j :: 0 <= j < m ==> acc.progress[j] == Record(|rows|, size, j)
    ensures var p := RunBatchesFrom(process, rows, size, faults, m * size, acc).progress;
      && |p| == (|rows| + size - 1) / size
      && forall j :: 0 <= j < |p| ==> p[j] == Record(|rows|, size, j)
    decreases |rows| - m * size
  {
    var n := |rows|;
    var i := m * size;
    BatchCount(n, size, m);
    if i < n {
      OffsetDiv(m, size);
      assert i + size == (m + 1) * size;
      var acc2 := Advance(process, rows, size, faults, i, acc);
      AdvanceProgress(process, rows, size, faults, i, acc);
      assert acc2.progress == acc.progress + [Record(n, size, m)];
      ProgressFrom(process, rows, size, faults, m + 1, acc2);
    }
  }

  /**
   * The progress records: one per batch, `ceil(n / size)` of them; record `j`
   * reports batch `j + 1`, `total` is `n` and `current` is
   * `min((j + 1) * size, n)`.
   */
  lemma ProgressRecords(process: RowProcessor, rows: seq<Row>, size: nat, faults: Faults, st: StoreState)
    requires size > 0
    ensures var p := RunBatchesFrom(process, rows, size, faults, 0, Start(st)).progress;
      && |p| == (|rows| + size - 1) / size
      && forall j :: 0 <= j < |p| ==> p[j] == Record(|rows|, size, j)
  {
    assert 0 * size == 0;
    ProgressFrom(process, rows, size, faults, 0, Start(st));
  }

  /** `current` strictly increases from record to record and the last record reaches `n`. */
  lemma ProgressMonotone(n: nat, size: nat, j: nat, j': nat)
    requires size > 0 && j < j' < (n + size - 1) / size
    ensures Record(n, size, j).current < Record(n, size, j').current
  {
    BatchCount(n, size, j');
    MulMonotone(j + 1, j', size);
  }

  lemma ProgressEnds(n: nat, size: nat)
    requires size > 0 && n > 0
    ensures (n + size - 1) / size > 0
    ensures Record(n, size, (n + size - 1) / size - 1).current == n
  {
    var c := (n + size - 1) / size;
    BatchCount(n, size, 0);
    BatchCount(n, size, c);
    assert (c - 1 + 1) * size == c * size;
  }

  /** The loop's state after the rows before offset `i`, had they run without batches. */
  predicate Sequential(process: RowProcessor, st: StoreState, rows: seq<Row>, i: nat, acc: Totals)
    requires i <= |rows|
  {
    var run := RunRows(process, st, rows[..i], 0);
    var r := Tally(run.0);
    acc.store == run.1 && acc.shipments == r.shipmentsCreated && acc.articles == r.articlesCreated && acc.errors == r.errors
  }

  /** Without failing transactions, the batch loop from offset `i` goes on as one sequential run. */
  lemma {:induction false} UnfailingFrom(process: RowProcessor, st: StoreState, rows: seq<Row>, size: nat, faults: Faults, i: nat, acc: Totals)
    requires size > 0 && i <= |rows|
    requires forall k :: faults(k).None?
    requires Sequential(process, st, rows, i, acc)
    ensures Sequential(process, st, rows, |rows|, RunBatchesFrom(process, rows, size, faults, i, acc))
    decreases |rows| - i
  {
    if i < |rows| {
      var acc2 := Advance(process, rows, size, faults, i, acc);
      var stop := Min(i + size, |rows|);
      assert faults(BatchNumber(i, size)).None?;
      AdvanceSequential(process, st, rows, size, faults, i, acc);
      if i + size < |rows| {
        UnfailingFrom(process, st, rows, size, faults, i + size, acc2);
      } else {
        assert stop == |rows|;
      }
    }
  }

  /** One unfailing batch extends the sequential run by the batch's rows. */
  lemma AdvanceSequential(process: RowProcessor, st: StoreState, rows: seq<Row>, size: nat, faults: Faults, i: nat, acc: Totals)
    requires size > 0 && i < |rows|
    requires faults(BatchNumber(i, size)).None?
    requires Sequential(process, st, rows, i, acc)
    ensures Sequential(process, st, rows, Min(i + size, |rows|), Advance(process, rows, size, faults, i, acc))
  {
    var stop := Min(i + size, |rows|);
    var first := RunRows(process, st, rows[..i], 0);
    SplitRun(process, st, rows, i, stop);
    AdvanceUnfailing(process, rows, size, faults, i, acc);
    assert acc.store == first.1 && acc.shipments == Tally(first.0).shipmentsCreated;
    assert acc.articles == Tally(first.0).articlesCreated && acc.errors == Tally(first.0).errors;
    var second := RunRows(process, first.1, rows[i..stop], i);
    CombineTotals(Tally(first.0), Tally(second.0), Tally(RunRows(process, st, rows[..stop], 0).0),
                  acc, Advance(process, rows, size, faults, i, acc));
  }

  /** The rows before `stop` run as the rows before `i` followed by `rows[i..stop]`. */
  lemma SplitRun(process: RowProcessor, st: StoreState, rows: seq<Row>, i: nat, stop: nat)
    requires i <= stop <= |rows|
    ensures var first := RunRows(process, st, rows[..i], 0);
      var second := RunRows(process, first.1, rows[i..stop], i);
      var whole := RunRows(process, st, rows[..stop], 0);
      whole.1 == second.1 && Tally(whole.0) == Combine(Tally(first.0), Tally(second.0))
  {
    var first := RunRows(process, st, rows[..i], 0);
    var second := RunRows(process, first.1, rows[i..stop], i);
    assert |rows[..i]| == i;
    RunRowsAppend(process, st, rows[..i], rows[i..stop], 0);
    assert rows[..stop] == rows[..i] + rows[i..stop];
    TallyAppend(first.0, second.0);
  }

  /** A turn whose transaction commits adds the tally of its rows run from the current store. */
  lemma AdvanceUnfailing(process: RowProcessor, rows: seq<Row>, size: nat, faults: Faults, i: nat, acc: Totals)
    requires size > 0 && i < |rows|
    requires faults(BatchNumber(i, size)).None?
    ensures var run := RunRows(process, acc.store, rows[i..Min(i + size, |rows|)], i);
      var r := Tally(run.0);
      var t := Advance(process, rows, size, faults, i, acc);
      && t.store == run.1
      && t.shipments == acc.shipments + r.shipmentsCreated
      && t.articles == acc.articles + r.articlesCreated
      && t.errors == acc.errors + r.errors
  {
  }

  /**
   * A turn whose transaction fails adds its rows' tally run from the current
   * store, then one `Batch <k> failed: <detail>` error, and leaves the store
   * as it was.
   */
  lemma AdvanceFailing(process: RowProcessor, rows: seq<Row>, size: nat, faults: Faults, i: nat, acc: Totals)
    requires size > 0 && i < |rows|
    requires faults(BatchNumber(i, size)).Some?
    ensures var batch := rows[i..Min(i + size, |rows|)];
      var r := Tally(RunRows(process, acc.store, batch, i).0);
      var t := Advance(process, rows, size, faults, i, acc);
      && t.store == acc.store
      && t.shipments == acc.shipments + r.shipmentsCreated
      && t.articles == acc.articles + r.articlesCreated
      && t.errors == acc.errors + r.errors + [BatchFailureMessage(i, |batch|, faults(BatchNumber(i, size)).value)]
  {
  }

  /** The number of batches at offsets `i, i + size, ...` below `n` whose transaction fails. */
  function FailedBatches(n: nat, size: nat, faults: Faults, i: nat): nat
    requires size > 0
    decreases n - i
  {
    if i >= n then 0
    else (if faults(BatchNumber(i, size)).Some? then 1 else 0) + FailedBatches(n, size, faults, i + size)
  }

  /**
   * Whatever transactions fail, the loop only adds records to the store, and
   * reports one error per failed batch plus at most one per remaining row.
   */
  lemma {:induction false} FaultyFrom(process: RowProcessor, rows: seq<Row>, size: nat, faults: Faults, i: nat, acc: Totals)
    requires size > 0 && WellBehaved(process)
    ensures var t := RunBatchesFrom(process, rows, size, faults, i, acc);
      var f := FailedBatches(|rows|, size, faults, i);
      && Extends(acc.store, t.store)
      && |acc.errors| + f <= |t.errors| <= |acc.errors| + Remaining(|rows|, i) + f
    decreases |rows| - i
  {
    if i < |rows| {
      var k := BatchNumber(i, size);
      var batch := rows[i..Min(i + size, |rows|)];
      var acc2 := Advance(process, rows, size, faults, i, acc);
      var r := Tally(RunRows(process, acc.store, batch, i).0);
      if faults(k).Some? {
        AdvanceFailing(process, rows, size, faults, i, acc);
        assert |acc2.errors| == |acc.errors| + |r.errors| + 1;
      } else {
        AdvanceUnfailing(process, rows, size, faults, i, acc);
        RunRowsExtends(process, acc.store, batch, i);
        assert |acc2.errors| == |acc.errors| + |r.errors|;
      }
      FaultyFrom(process, rows, size, faults, i + size, acc2);
    }
  }

  /** When every transaction fails, the loop leaves the store exactly as it was. */
  lemma {:induction false} AllFailing(process: RowProcessor, rows: seq<Row>, size: nat, faults: Faults, i: nat, acc: Totals)
    requires size > 0
    requires forall k :: faults(k).Some?
    ensures RunBatchesFrom(process, rows, size, faults, i, acc).store == acc.store
    decreases |rows| - i
  {
    if i < |rows| {
      AdvanceFailing(process, rows, size, faults, i, acc);
      AllFailing(process, rows, size, faults, i + size, Advance(process, rows, size, faults, i, acc));
    }
  }

  /** Adding a batch's tally to totals that match a first tally gives the combined tally. */
  lemma CombineTotals(x: BatchResult, y: BatchResult, xy: BatchResult, acc: Totals, t: Totals)
    requires xy == Combine(x, y)
    requires acc.shipments == x.shipmentsCreated && acc.articles == x.articlesCreated && acc.errors == x.errors
    requires t.shipments == acc.shipments + y.shipmentsCreated && t.articles == acc.articles + y.articlesCreated
    requires t.errors == acc.errors + y.errors
    ensures t.shipments == xy.shipmentsCreated && t.articles == xy.articlesCreated && t.errors == xy.errors
  {
  }

  /**
   * Without failing transactions, batching is invisible: the loop ends in the
   * store, counts and errors of one sequential run over all rows.
   */
  lemma Unfailing(process: RowProcessor, st: StoreState, rows: seq<Row>, size: nat, faults: Faults)
    requires size > 0
    requires forall k :: faults(k).None?
    ensures var t := RunBatchesFrom(process, rows, size, faults, 0, Start(st));
      var run := RunRows(process, st, rows, 0);
      && t.store == run.1
      && t.shipments == Tally(run.0).shipmentsCreated
      && t.articles == Tally(run.0).articlesCreated
      && t.errors == Tally(run.0).errors
  {
    assert rows[..0] == [];
    UnfailingFrom(process, st, rows, size, faults, 0, Start(st));
    assert rows[..|rows|] == rows;
  }

  /** When every row is settled in the store, the batch loop creates nothing and leaves the store as it is. */
  lemma {:induction false} SettledFrom(process: RowProcessor, settled: (StoreState, Row) -> bool, rows: seq<Row>, size: nat, faults: Faults, i: nat, acc: Totals)
    requires size > 0
    requires Settles(process, settled)
    requires forall j :: 0 <= j < |rows| ==> settled(acc.store, rows[j])
    ensures var t := RunBatchesFrom(process, rows, size, faults, i, acc);
      t.store == acc.store && t.shipments == acc.shipments && t.articles == acc.articles
    decreases |rows| - i
  {
    if i < |rows| {
      var acc2 := Advance(process, rows, size, faults, i, acc);
      AdvanceSettled(process, settled, rows, size, faults, i, acc);
      SettledFrom(process, settled, rows, size, faults, i + size, acc2);
    }
  }

  /** A batch of settled rows leaves the store and the counts as they are. */
  lemma AdvanceSettled(process: RowProcessor, settled: (StoreState, Row) -> bool, rows: seq<Row>, size: nat, faults: Faults, i: nat, acc: Totals)
    requires size > 0 && i < |rows|
    requires Settles(process, settled)
    requires forall j :: 0 <= j < |rows| ==> settled(acc.store, rows[j])
    ensures var t := Advance(process, rows, size, faults, i, acc);
      t.store == acc.store && t.shipments == acc.shipments && t.articles == acc.articles
  {
    var batch := rows[i..Min(i + size, |rows|)];
    var fault := faults(BatchNumber(i, size));
    assert forall j :: 0 <= j < |batch| ==> batch[j] == rows[i + j];
    SettledRowsChangeNothing(process, settled, acc.store, batch, i);
    BatchStepTally(process, acc.store, batch, i, fault);
    AdvanceBy(process, rows, size, faults, i, acc, BatchStep(process, acc.store, batch, i, fault));
  }

  /**
   * Loading the same file twice: after a run without failing transactions, a
   * second run (whatever its batches do) creates no shipment and no article and
   * leaves the store as the first run left it.
   */
  lemma LoadTwice(process: RowProcessor, settled: (StoreState, Row) -> bool, st: StoreState, file: CsvFile,
                  batchSize: nat, faults: Faults, faults2: Faults)
    requires WellBehaved(process) && Settles(process, settled)
    requires batchSize > 0 && forall k :: faults(k).None?
    ensures var first := SeedRun(process, st, file, batchSize, faults);
      var second := SeedRun(process, first.1, file, batchSize, faults2);
      && (first.0.Succeeded? ==> second.0.Succeeded?)
      && (second.0.Succeeded? ==>
            second.0.shipmentsCreated == 0 && second.0.articlesCreated == 0 && second.1 == first.1)
  {
    var first := SeedRun(process, st, file, batchSize, faults);
    if ValidateCsvFile(file).isValid && file.body.Read? {
      var rows := file.body.value;
      Unfailing(process, st, rows, batchSize, faults);
      AllSettled(process, settled, st, rows, 0);
      SettledFrom(process, settled, rows, batchSize, faults2, 0, Start(first.1));
    }
  }

  /** An error suffix is there exactly when there were errors. */
  lemma ErrorSuffixExactlyWithErrors(rows: nat, shipments: nat, articles: nat, errors: nat)
    ensures EndsWith(SuccessMessage(rows, shipments, articles, errors), ErrorSuffix(errors)) <==> errors > 0
  {
    var message := SuccessMessage(rows, shipments, articles, errors);
    var suffix := ErrorSuffix(errors);
    if errors > 0 {
      assert message[|message| - |suffix|..] == suffix;
    } else {
      assert message[|message| - 1] == 's';
      assert suffix[|suffix| - 1] == ')';
    }
  }

  /**
   * Without failing transactions and with a positive batch size, a valid and
   * readable file is reported as one sequential run over its rows: its
   * counts, the number of failing rows, and the store that run leaves.
   */
  lemma UnfailingReport(process: RowProcessor, st: StoreState, file: CsvFile, batchSize: nat, faults: Faults)
    requires batchSize > 0 && forall k :: faults(k).None?
    requires ValidateCsvFile(file).isValid && file.body.Read?
    ensures var r := SeedRun(process, st, file, batchSize, faults);
      var run := RunRows(process, st, file.body.value, 0);
      && r.0.Succeeded?
      && r.0.totalRows == |file.body.value|
      && r.0.shipmentsCreated == Tally(run.0).shipmentsCreated
      && r.0.articlesCreated == Tally(run.0).articlesCreated
      && r.0.errors == |ErrorRows(run.0)|
      && r.1 == run.1
  {
    Unfailing(process, st, file.body.value, batchSize, faults);
  }

  /**
   * Whatever transactions fail, a valid and readable file run in batches of a
   * positive size is reported with one error per failed batch plus at most one
   * per row, and leaves a store holding every record it held before; when every
   * transaction fails, the store is left exactly as it was.
   */
  lemma FaultyReport(process: RowProcessor, st: StoreState, file: CsvFile, batchSize: nat, faults: Faults)
    requires WellBehaved(process)
    requires batchSize > 0
    requires ValidateCsvFile(file).isValid && file.body.Read?
    ensures var r := SeedRun(process, st, file, batchSize, faults);
      var n := |file.body.value|;
      var f := FailedBatches(n, batchSize, faults, 0);
      && r.0.Succeeded?
      && f <= r.0.errors <= n + f
      && Extends(st, r.1)
      && ((forall k :: faults(k).Some?) ==> r.1 == st)
  {
    var rows := file.body.value;
    FaultyFrom(process, rows, batchSize, faults, 0, Start(st));
    if forall k :: faults(k).Some? {
      AllFailing(process, rows, batchSize, faults, 0, Start(st));
    }
  }
}
