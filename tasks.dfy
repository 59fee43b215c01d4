/**
 * The task module itself, written the way it runs: `process_csv_row` and
 * `process_batch` update a `Database` in place, and the Celery task object
 * keeps the list of progress states it has reported. Each method is proved
 * to compute exactly what the functions of `Rows`, `Batches` and
 * `Coordinator` describe, so every lemma about those functions holds of it.
 */
module Tasks {
  import opened Wrappers
  import opened Text
  import opened CsvFiles
  import opened Models
  import opened Rows
  import opened Batches
  import opened Coordinator

  /** `process_csv_row(row, row_num)`: the creation flags and the error message of one row. */
  method ProcessCsvRow(db: Database, row: Row, rowNum: nat, parsePrice: PriceParser)
      returns (shipmentCreated: bool, articleCreated: bool, error: Option<string>)
    modifies db
    ensures (RowOutcome(shipmentCreated, articleCreated, error), db.State()) ==
      RowStep(old(db.State()), CellsOf(row), rowNum, parsePrice)
  {
    var c := CellsOf(row);
    if "tracking_number" !in row {
      return false, false, Some(RowPrefix(rowNum) + Quoted("tracking_number"));
    }
    var trackingNumber := Strip(row["tracking_number"]);
    assert c.trackingNumber == Some(row["tracking_number"]);
    if trackingNumber == "" {
      return false, false, Some(RowPrefix(rowNum) + "Empty tracking number");
    }
    shipmentCreated := db.GetOrCreateShipment(trackingNumber, ShipmentDefaults(c));
    ghost var afterShipment := db.State();
    assert (afterShipment, shipmentCreated) == ShipmentStep(old(db.State()), trackingNumber, ShipmentDefaults(c));
    var quantity := ParseQuantity(c);
    if quantity.ParseError? {
      InvalidStep(old(db.State()), c, rowNum, parsePrice);
      return false, false, Some(RowPrefix(rowNum) + ("Invalid data - " + quantity.detail));
    }
    var price := ParsePrice(c, parsePrice);
    if price.ParseError? {
      InvalidStep(old(db.State()), c, rowNum, parsePrice);
      return false, false, Some(RowPrefix(rowNum) + ("Invalid data - " + price.detail));
    }
    articleCreated := db.GetOrCreateArticle(ArticleKey(trackingNumber, Strip(c.sku)),
                                            ArticleFields(Strip(c.articleName), quantity.value, price.value));
    error := None;
    assert (db.State(), articleCreated) == ArticleStep(afterShipment, ArticleKeyOf(c), ArticleFieldsOf(c, parsePrice));
  }

  /** The unfolded `Invalid data` case of a row. */
  lemma InvalidStep(st: StoreState, c: Cells, n: nat, parsePrice: PriceParser)
    requires HasTrackingNumber(c) && !NumbersParse(c, parsePrice)
    ensures RowStep(st, c, n, parsePrice) ==
      (Failure(n, "Invalid data - " + InvalidDetail(c, parsePrice)), ShipmentStep(st, TrackingNumber(c), ShipmentDefaults(c)).0)
  {
  }

  /**
   * `process_batch(batch_rows, batch_start_index)` inside one transaction;
   * `fault` is the error the commit raises, if it fails. The rows' counts and
   * errors are kept when the transaction is rolled back.
   */
  method ProcessBatch(db: Database, batchRows: seq<Row>, batchStartIndex: nat, parsePrice: PriceParser, fault: Option<string>)
      returns (outcome: BatchOutcome)
    modifies db
    ensures (outcome, db.State()) == BatchStep(ProcessRow(parsePrice), old(db.State()), batchRows, batchStartIndex, fault)
  {
    var savepoint := db.State();
    var shipmentsCreated, articlesCreated, errors := ProcessRows(db, batchRows, batchStartIndex, parsePrice);
    match fault {
      case None =>
        outcome := Completed(BatchResult(shipmentsCreated, articlesCreated, errors));
      case Some(detail) =>
        db.Rollback(savepoint);
        if |batchRows| == 0 {
          outcome := Raised("integer division or modulo by zero");
        } else {
          outcome := Completed(BatchResult(shipmentsCreated, articlesCreated,
                                           errors + [BatchFailureMessage(batchStartIndex, |batchRows|, detail)]));
        }
    }
  }

  /**
   * The loop of `process_batch`: each row in turn, numbered from
   * `batch_start_index + 1`; an error is collected, otherwise the creation
   * flags are counted.
   */
  method ProcessRows(db: Database, batchRows: seq<Row>, batchStartIndex: nat, parsePrice: PriceParser)
      returns (shipmentsCreated: nat, articlesCreated: nat, errors: seq<string>)
    modifies db
    ensures var run := RunRows(ProcessRow(parsePrice), old(db.State()), batchRows, batchStartIndex);
      db.State() == run.1 && BatchResult(shipmentsCreated, articlesCreated, errors) == Tally(run.0)
  {
    ghost var st0 := db.State();
    shipmentsCreated, articlesCreated, errors := 0, 0, [];
    ghost var outcomes: seq<RowOutcome> := [];
    for idx := 0 to |batchRows|
      invariant RunRows(ProcessRow(parsePrice), st0, batchRows[..idx], batchStartIndex) == (outcomes, db.State())
      invariant Tally(outcomes) == BatchResult(shipmentsCreated, articlesCreated, errors)
    {
      var rowNum := batchStartIndex + idx + 1;
      ghost var before := db.State();
      var shipmentCreated, articleCreated, error := ProcessCsvRow(db, batchRows[idx], rowNum, parsePrice);
      var o := RowOutcome(shipmentCreated, articleCreated, error);
      assert ProcessRow(parsePrice)(before, batchRows[idx], rowNum) == (o, db.State());
      RunRowsStep(ProcessRow(parsePrice), st0, batchRows, batchStartIndex, idx, outcomes, before, o, db.State());
      assert (outcomes + [o])[..|outcomes|] == outcomes;
      outcomes := outcomes + [o];
      if error.Some? && error.value != "" {
        errors := errors + [error.value];
      } else {
        if shipmentCreated {
          shipmentsCreated := shipmentsCreated + 1;
        }
        if articleCreated {
          articlesCreated := articlesCreated + 1;
        }
      }
    }
    assert batchRows[..|batchRows|] == batchRows;
  }

  /** The bound Celery task: the progress states it has reported, oldest first. */
  class SeedDataTask {
    var progress: seq<Progress>

    constructor()
      ensures progress == []
    {
      progress := [];
    }

    /** `self.update_state(state="PROGRESS", meta=...)`. */
    method UpdateState(p: Progress)
      modifies this
      ensures progress == old(progress) + [p]
    {
      progress := progress + [p];
    }

    /**
     * `load_seed_data_task(csv_path, batch_size)` against `db`; `faults(k)` is
     * the commit error of batch `k`, if any.
     */
    method LoadSeedData(db: Database, file: CsvFile, batchSize: int, parsePrice: PriceParser, faults: Faults)
        returns (report: Report)
      modifies this, db
      ensures var r := SeedRun(ProcessRow(parsePrice), old(db.State()), file, batchSize, faults);
        report == r.0 && db.State() == r.1 && progress == old(progress) + r.2
    {
      var v := ValidateCsvFile(file);
      if !v.isValid {
        return Failed(v.errorMessage.value);
      }
      match file.body {
        case ReadError(detail) =>
          return Failed("Task failed: " + detail);
        case Read(rows) =>
          var totalRows := |rows|;
          if batchSize == 0 {
            return Failed("Task failed: range() arg 3 must not be zero");
          }
          var totalShipmentsCreated: nat, totalArticlesCreated: nat, allErrors: seq<string> := 0, 0, [];
          if batchSize > 0 {
            ghost var st0 := db.State();
            totalShipmentsCreated, totalArticlesCreated, allErrors := ProcessBatches(db, rows, batchSize, parsePrice, faults);
            RunBatchesBounds(ProcessRow(parsePrice), rows, batchSize, faults, 0, Start(st0));
          }
          var message := SuccessMessage(totalRows, totalShipmentsCreated, totalArticlesCreated, |allErrors|);
          report := Succeeded(message, totalRows, totalShipmentsCreated, totalArticlesCreated, |allErrors|);
      }
    }

    /**
     * The task's batch loop: `process_batch` on `rows[i:i + batch_size]` for
     * `i` in `range(0, len(rows), batch_size)`, adding up its results and
     * reporting progress after each batch.
     */
    method ProcessBatches(db: Database, rows: seq<Row>, batchSize: nat, parsePrice: PriceParser, faults: Faults)
        returns (totalShipmentsCreated: nat, totalArticlesCreated: nat, allErrors: seq<string>)
      requires batchSize > 0
      modifies this, db
      ensures var t := RunBatchesFrom(ProcessRow(parsePrice), rows, batchSize, faults, 0, Start(old(db.State())));
        && totalShipmentsCreated == t.shipments && totalArticlesCreated == t.articles && allErrors == t.errors
        && db.State() == t.store && progress == old(progress) + t.progress
    {
      ghost var process := ProcessRow(parsePrice);
      ghost var st0 := db.State();
      ghost var log0 := progress;
      ghost var log: seq<Progress> := [];
      ghost var final := RunBatchesFrom(process, rows, batchSize, faults, 0, Start(st0));
      totalShipmentsCreated, totalArticlesCreated, allErrors := 0, 0, [];
      var i: nat := 0;
      assert Start(st0) == Totals(db.State(), totalShipmentsCreated, totalArticlesCreated, allErrors, log);
      while i < |rows|
        invariant progress == log0 + log
        invariant final == RunBatchesFrom(process, rows, batchSize, faults, i,
                         Totals(db.State(), totalShipmentsCreated, totalArticlesCreated, allErrors, log))
        decreases |rows| - i
      {
        ghost var acc := Totals(db.State(), totalShipmentsCreated, totalArticlesCreated, allErrors, log);
        totalShipmentsCreated, totalArticlesCreated, allErrors :=
          ProcessBatchAt(db, rows, batchSize, parsePrice, faults, i, totalShipmentsCreated, totalArticlesCreated, allErrors, log);
        log := log + [Progress(Min(i + batchSize, |rows|), |rows|, BatchNumber(i, batchSize))];
        ghost var next := Totals(db.State(), totalShipmentsCreated, totalArticlesCreated, allErrors, log);
        ghost var previous := i;
        i := i + batchSize;
        NextTurn(process, rows, batchSize, faults, previous, i, acc, next, final);
      }
    }

    /**
     * One turn of the batch loop at offset `i`: `process_batch` on the batch,
     * its results added to the running totals, then the progress update.
     */
    method ProcessBatchAt(db: Database, rows: seq<Row>, batchSize: nat, parsePrice: PriceParser, faults: Faults, i: nat,
                          shipments: nat, articles: nat, errors: seq<string>, ghost log: seq<Progress>)
        returns (shipments': nat, articles': nat, errors': seq<string>)
      requires batchSize > 0 && i < |rows|
      modifies this, db
      ensures var p := Progress(Min(i + batchSize, |rows|), |rows|, BatchNumber(i, batchSize));
        && progress == old(progress) + [p]
        && Totals(db.State(), shipments', articles', errors', log + [p]) ==
             Advance(ProcessRow(parsePrice), rows, batchSize, faults, i, Totals(old(db.State()), shipments, articles, errors, log))
    {
      ghost var acc := Totals(db.State(), shipments, articles, errors, log);
      var stop := Min(i + batchSize, |rows|);
      var batch := rows[i..stop];
      var batchNum := BatchNumber(i, batchSize);
      var outcome := ProcessBatch(db, batch, i, parsePrice, faults(batchNum));
      AdvanceBy(ProcessRow(parsePrice), rows, batchSize, faults, i, acc, (outcome, db.State()));
      var r := outcome.result;
      shipments' := shipments + r.shipmentsCreated;
      articles' := articles + r.articlesCreated;
      errors' := errors + r.errors;
      UpdateState(Progress(stop, |rows|, batchNum));
    }
  }

  /**
   * Loading the same file twice with `process_csv_row`: once a run has
   * committed every batch, a second run creates nothing and changes nothing.
   */
  lemma SeedTwice(parsePrice: PriceParser, st: StoreState, file: CsvFile, batchSize: nat, faults: Faults, faults2: Faults)
    requires batchSize > 0 && forall k :: faults(k).None?
    ensures var first := SeedRun(ProcessRow(parsePrice), st, file, batchSize, faults);
      var second := SeedRun(ProcessRow(parsePrice), first.1, file, batchSize, faults2);
      && (first.0.Succeeded? ==> second.0.Succeeded?)
      && (second.0.Succeeded? ==>
            second.0.shipmentsCreated == 0 && second.0.articlesCreated == 0 && second.1 == first.1)
  {
    ProcessRowWellBehaved(parsePrice);
    ProcessRowSettles(parsePrice);
    LoadTwice(ProcessRow(parsePrice), (st: StoreState, row: Row) => Settled(st, CellsOf(row), parsePrice),
              st, file, batchSize, faults, faults2);
  }
}
