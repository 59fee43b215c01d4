# Parcel seed-data ingestion, modelled in Dafny

This project models the batched CSV ingestion of the Parcel shipment tracker
(`shipments/tasks.py`). The Celery task `load_seed_data_task` validates a CSV
file's header with `validate_csv_file` and reads its rows. It cuts the rows
into batches of `batch_size` and runs each batch through `process_batch`
inside one database transaction. There, every row is turned by
`process_csv_row` into a shipment `get_or_create` keyed by tracking number and
an article `get_or_create` keyed by (shipment, SKU). The task adds up the
counts and errors, reports progress after each batch, and ends with a success
or failure report.

The model has two layers:

- Functions describe each operation on a value of the store
  (`Rows.RowStep`, `Batches.BatchStep`, `Coordinator.SeedRun`), and lemmas
  state what the code promises about them.
- Imperative methods in `Tasks` mirror the code: a `Database` object updated
  in place, a `for` loop over a batch's rows, a `while` loop over the batch
  offsets, and a task object that collects its progress states. Each method
  is proved to compute exactly what its function describes, so every lemma
  about the functions holds of the methods.

Modules, in dependency order:

- `Arith`: floor division and the facts the batch arithmetic needs.
- `Wrappers`: `Option`.
- `Text`: `str.strip()`, `int()` on a string, `str()` of a natural number,
  and `", ".join`.
- `CsvFiles`: the file as input, and `validate_csv_file`.
- `Models`: shipments, articles, the store, `get_or_create`, and the
  `Database` class.
- `Rows`: `process_csv_row`.
- `Batches`: `process_batch`.
- `Coordinator`: `load_seed_data_task`.
- `Tasks`: the imperative methods.

Inputs that come from outside the program are parameters:

- the file: whether it exists, its header, and its rows, each read possibly
  failing with an error text;
- Python's `float()` on the price cell, as a `PriceParser`;
- the commit outcome of each transaction, as `faults(k)` for batch `k`.

Points where `shipments/tasks.py` behaves in ways worth stating outright:

- A batch whose transaction fails keeps the counts and row errors its rows
  produced, and then gets one more error, `Batch <k> failed: <detail>`
  (tasks.py:92-98). The counts are not reset and the row errors are not
  dropped. The store is rolled back (`Batches.FailedBatch`).
- The failure message numbers a batch `batch_start_index // len(batch_rows) + 1`
  (tasks.py:93). For a short final batch this can differ from the task's own
  `i // batch_size + 1` (`Batches.ShortBatchNumber`). For an empty batch it
  raises `ZeroDivisionError` inside the handler.
- The shipment is get-or-created before the quantity and price are converted
  (tasks.py:28 and 44-45). So a row reported as `Invalid data` can still leave
  a new shipment behind (`Rows.InvalidData`).
- A row without a `tracking_number` column raises `KeyError` at tasks.py:23.
  The generic handler reports it as `Row <n>: 'tracking_number'`.
- A batch size of zero makes `range()` raise, which becomes
  `Task failed: range() arg 3 must not be zero`. A negative batch size gives
  no batches and a success report.

## Model

| member | source | states |
|---|---|---|
| Text.TrimStart | shipments/tasks.py:23 | the result is a suffix of the input that does not start with a character of the chosen whitespace (that of `str.strip()` or that of `int()`) |
| Text.TrimEnd | shipments/tasks.py:23 | the result is a prefix of the input that does not end with a character of the chosen whitespace |
| Text.Strip | shipments/tasks.py:23-43 | `str.strip()`, applied to every text cell (the quantity and price cells reach `int()` and `float()` unstripped): `Trim` with the `str.isspace()` whitespace, never longer than its input; its properties are stated by `Text.TrimTrimmed`, `Text.TrimBlank` and `Text.TrimKeeps` |
| Text.TrimTrimmed | shipments/tasks.py:23 | a trim leaves no whitespace at either end and leaves an already trimmed string as it is |
| Text.TrimBlank | shipments/tasks.py:23-24 | a string trims to `""` exactly when every character of it is whitespace |
| Text.TrimKeeps | shipments/tasks.py:23 | every non-whitespace character survives the trim |
| Text.ParseInt | shipments/tasks.py:44 | `int()` on a string: only the whitespace `int()` skips is trimmed, then an optional sign and a decimal literal with single underscores; its properties are stated by `Text.ParseIntOfDigits`, `Text.ParseIntOfNatToString`, `Text.ParseIntRejects` and `Text.SeparatorsFailInt` |
| Text.ParseIntOfDigits | shipments/tasks.py:44 | `int()` reads a non-empty run of ASCII digits as its decimal value |
| Text.ParseIntOfNatToString | shipments/tasks.py:44 | `int(str(n)) == n` for every natural `n` |
| Text.ParseIntRejects | shipments/tasks.py:44 | `int()` fails on any string that contains a character other than the whitespace it skips, a digit, a sign or `_` |
| Text.SeparatorsFailInt | shipments/tasks.py:44 | a cell starting with one of U+001C..U+001F strips as if that character were absent, yet `int()` rejects it |
| Text.NatToString | shipments/tasks.py:25 | `str(n)` of a row number or count is never empty; its digits and value are stated by `Text.NatToStringDigits` and `Text.DigitsValueOfNatToString` |
| Text.DigitsValueOfNatToString | shipments/tasks.py:25 | `str(n)` is a string of digits whose decimal value is `n` |
| Text.NatToStringDigits | shipments/tasks.py:25 | `str(n)` is made of decimal digits and has no leading zero |
| Text.Join | shipments/tasks.py:134 | `", ".join(missing_columns)`; that it names every part is stated by `Text.JoinContains` |
| Text.JoinContains | shipments/tasks.py:134 | every part occurs in `sep.join(parts)` |
| CsvFiles.MissingColumns | shipments/tasks.py:127-129 | the listed columns are exactly the required ones the header lacks |
| CsvFiles.ValidateCsvFile | shipments/tasks.py:101-141 | the file is valid exactly when it exists, its header reads, and the header names all nine required columns; the message is None exactly when the file is valid; a missing file and an unreadable header get their own messages; the required column list is always returned |
| CsvFiles.MissingColumnsReported | shipments/tasks.py:127-136 | a readable header that lacks a required column is rejected, with a message that lists the missing columns and names that column |
| Models.GetOrCreate | shipments/tasks.py:28-47 | the flag is set exactly when the key was absent; every stored record is kept; a new key gets the defaults; the size grows by one exactly when the flag is set |
| Models.Database.GetOrCreateShipment | shipments/tasks.py:28-36 | the shipment table and the flag are `GetOrCreate` of the old table; the articles are unchanged |
| Models.Database.GetOrCreateArticle | shipments/tasks.py:39-47 | the article table and the flag are `GetOrCreate` of the old table; the shipments are unchanged |
| Models.Database.Rollback | shipments/tasks.py:70-71 | a rolled-back transaction restores the store to its savepoint |
| Rows.CellsOf | shipments/tasks.py:22-45 | the cells `process_csv_row` reads: `row["tracking_number"]` and the two numeric cells only when present, every other column as `row.get(column, "")` |
| Rows.ParseQuantity | shipments/tasks.py:44 | `int(row.get("article_quantity", 0))`: 0 when the column is absent, otherwise `int()` of the cell or its `ValueError` text |
| Rows.ParsePrice | shipments/tasks.py:45 | `float(row.get("article_price", 0.0))`: 0.0 when the column is absent, otherwise the price parser on the cell or its `ValueError` text |
| Rows.ReprCut | shipments/tasks.py:44 | the cell's repr as `int()`'s error writes it: a prefix of the quoted cell of at most 200 characters, all of it for a cell of at most 198 characters, and exactly 200 characters for a longer one |
| Rows.RowStep | shipments/tasks.py:13-54 | `process_csv_row` on a store: the outcome and the new store; its properties are stated by `Rows.RowStepEffects`, `Rows.MissingTrackingNumber`, `Rows.BlankTrackingNumber`, `Rows.FirstWriteWins`, `Rows.InvalidData`, `Rows.InvalidQuantity` and `Rows.RowIdempotent` |
| Rows.FailureNamesRow | shipments/tasks.py:51-54 | a failed row reports no creation, and its error starts with `Row <n>: ` |
| Rows.ShipmentStepEffects | shipments/tasks.py:28-36 | the shipment step keeps the articles and every stored shipment, and adds the one shipment it reports and nothing else |
| Rows.ArticleStepEffects | shipments/tasks.py:39-47 | the article step keeps the shipments and every stored article, and adds the one article it reports and nothing else |
| Rows.RowStepEffects | shipments/tasks.py:13-54 | a row's error names the row and comes with no creation; a row only adds records and keeps articles attached to stored shipments; it adds at most one shipment, reports a shipment only when it adds one, and adds an article exactly when it reports one |
| Rows.MissingTrackingNumber | shipments/tasks.py:22-54 | a row without a `tracking_number` column gives `Row <n>: 'tracking_number'` and changes nothing |
| Rows.BlankTrackingNumber | shipments/tasks.py:23-25 | a whitespace-only tracking number gives `Row <n>: Empty tracking number`, creates nothing and changes nothing |
| Rows.FirstWriteWins | shipments/tasks.py:28-47 | a stored shipment is neither changed nor reported as created; a row with a new SKU under it still creates exactly that article |
| Rows.InvalidData | shipments/tasks.py:28-52 | when the quantity or price does not parse, the row fails with `Row <n>: Invalid data - <detail>` and adds no article, but the shipment get-or-create stays |
| Rows.InvalidQuantity | shipments/tasks.py:44-52 | a quantity `int()` rejects is reported as `Row <n>: Invalid data - invalid literal for int() with base 10: ` followed by the cell's repr cut to 200 characters |
| Rows.SettledAfterStep | shipments/tasks.py:28-47 | after a row has been processed, every key it touches is stored |
| Rows.SettledStable | shipments/tasks.py:28-47 | a settled row stays settled while the store only grows |
| Rows.SettledStepChangesNothing | shipments/tasks.py:28-49 | a settled row creates nothing and leaves the store as it is |
| Rows.RowIdempotent | shipments/tasks.py:13-54 | processing a successful row again, with any row number, returns `(False, False, None)` and changes nothing |
| Batches.ProcessRowWellBehaved | shipments/tasks.py:13-54 | every `process_csv_row` call names its row in its error and only adds records; it adds at most one shipment and reports one only when it adds it, and adds an article exactly when it reports one |
| Batches.RunRows | shipments/tasks.py:72-77 | there is one outcome per row |
| Batches.Tally | shipments/tasks.py:79-86 | created shipments plus errors, and created articles plus errors, are each at most the number of rows |
| Batches.Count | shipments/tasks.py:79-86 | one turn of the row loop's bookkeeping: an error is appended, otherwise each creation flag adds one; its sums are stated by `Batches.Tally` and `Batches.TallyAppend` |
| Batches.BatchFailureNumber | shipments/tasks.py:93 | `batch_start_index // len(batch_rows) + 1`; its value is stated by `Batches.FullBatchNumber` and `Batches.ShortBatchNumber` |
| Batches.BatchFailureMessage | shipments/tasks.py:93-94 | `Batch <k> failed: <detail>`, written out by `Batches.FailedBatch` |
| Batches.BatchStep | shipments/tasks.py:57-98 | a non-empty batch always returns its triple; a failed transaction leaves the store as it was; each count is at most the batch length; the errors are at most one per row, plus one for a failed transaction |
| Batches.BatchStepTally | shipments/tasks.py:70-98 | a completed batch reports its rows' creation counts; without a fault it commits the store its rows left |
| Batches.RunRowsStep | shipments/tasks.py:72-77 | one more turn of the row loop appends that row's outcome, with the row numbered `start + idx + 1` |
| Batches.RunRowsPrefix | shipments/tasks.py:72-77 | the outcomes of the first `k` rows do not depend on the rows after them |
| Batches.StoreAfterRow | shipments/tasks.py:72-77 | row `j` runs on the store its predecessors left, numbered `start + j + 1` |
| Batches.OutcomeOfRow | shipments/tasks.py:72-77 | the `j`-th outcome is the outcome of row `j` on the store its predecessors left |
| Batches.RunRowsAppend | shipments/tasks.py:72-77 | running `a + b` is running `a`, then `b` from where `a` left the store, with `b` numbered on |
| Batches.TallyAppend | shipments/tasks.py:79-86 | the tally of concatenated outcomes is the sum of their tallies, errors concatenated in order |
| Batches.RunRowsExtends | shipments/tasks.py:70-77 | a batch's rows only add records and keep articles attached to stored shipments |
| Batches.CountsMatchStore | shipments/tasks.py:72-86 | the article count equals the growth of the article table; the shipment count is at most the growth of the shipment table, which is at most one per row |
| Batches.ErrorRows | shipments/tasks.py:79-80 | there is one failing-row index per collected error |
| Batches.ErrorsInRowOrder | shipments/tasks.py:72-81 | the errors are those of the failing rows, one per failing row, in row order, and no failing row is missed |
| Batches.RowErrorsNumbered | shipments/tasks.py:72-81 | the `m`-th error starts with `Row <start + j + 1>: `, where `j` is the `m`-th failing row |
| Batches.ProcessRowSettles | shipments/tasks.py:28-47 | processing a row settles it; settled rows stay settled as the store grows; a settled row changes nothing |
| Batches.AllSettled | shipments/tasks.py:72-77 | after a batch has run, every one of its rows is settled |
| Batches.SettledRowsChangeNothing | shipments/tasks.py:72-86 | a batch of settled rows creates nothing and leaves the store as it is |
| Batches.Rerun | shipments/tasks.py:57-98 | running a batch's rows again, with any numbering, creates nothing and changes nothing |
| Batches.EmptyBatch | shipments/tasks.py:66-98 | an empty batch without a fault returns `(0, 0, [])` and changes nothing |
| Batches.FailedBatch | shipments/tasks.py:92-98 | a failed non-empty batch is rolled back, keeps its rows' counts and errors, and ends with `Batch <start // len + 1> failed: <detail>` |
| Batches.CommittedBatch | shipments/tasks.py:70-91 | a batch without a fault returns its rows' tally and commits the store they left, which only adds records |
| Batches.FullBatchNumber | shipments/tasks.py:93 | a full batch starting at `k * size` fails as batch `k + 1` |
| Batches.ShortBatchNumber | shipments/tasks.py:93 | a batch of `len <= size` rows at offset `k * size` is numbered at least `k + 1`, and exactly `k + 1` only when `k * size < (k + 1) * len`; so a short final batch is numbered by its own length, not by the task's batch size |
| Arith.FloorDivIsDiv | shipments/tasks.py:93 | the model's floor division by repeated subtraction is integer division |
| Arith.OffsetDiv | shipments/tasks.py:181 | the offset of batch `m` divided by the batch size is `m` |
| Coordinator.Advance | shipments/tasks.py:180-199 | one turn of the batch loop; what it adds is stated by `Coordinator.AdvanceProgress`, `Coordinator.AdvanceBounds` and `Coordinator.AdvanceUnfailing` |
| Coordinator.RunBatchesFrom | shipments/tasks.py:179-199 | the batch loop from an offset; stated by `Coordinator.RunBatchesBounds`, `Coordinator.ProgressRecords`, `Coordinator.Unfailing` and `Coordinator.SettledFrom` |
| Coordinator.Finish | shipments/tasks.py:201-221 | the success report: row count, the two totals, the number of errors and the message built from them; stated through `Coordinator.SeedRun` and `Coordinator.UnfailingReport` |
| Coordinator.SuccessMessage | shipments/tasks.py:202-209 | the success message; its error suffix is stated by `Coordinator.ErrorSuffixExactlyWithErrors` |
| Coordinator.ErrorSuffix | shipments/tasks.py:208-209 | ` (with E errors)` |
| Coordinator.SeedRun | shipments/tasks.py:144-226 | an invalid file gives the validator's message and nothing else; a failed run changes nothing and reports no progress; a success reads the rows and reports their number, counts bounded by that number and the success message built from the counts |
| Coordinator.AdvanceProgress | shipments/tasks.py:192-199 | each batch appends one progress record: `min(i + size, n)`, `n` and `i // size + 1` |
| Coordinator.AdvanceBounds | shipments/tasks.py:183-189 | one batch adds at most one shipment and one article per row in it |
| Coordinator.RunBatchesBounds | shipments/tasks.py:179-189 | the batch loop adds at most one shipment and one article per remaining row |
| Coordinator.BatchCount | shipments/tasks.py:179 | batch `m` starts before the end exactly when `m < ceil(n / size)` |
| Coordinator.ProgressFrom | shipments/tasks.py:179-199 | from batch `m` on, the loop appends records `m, m + 1, ...` until there are `ceil(n / size)` of them |
| Coordinator.ProgressRecords | shipments/tasks.py:179-199 | there are `ceil(n / size)` progress records; record `j` reports batch `j + 1`, total `n` and current `min((j + 1) * size, n)` |
| Coordinator.ProgressMonotone | shipments/tasks.py:195 | `current` strictly increases from record to record |
| Coordinator.ProgressEnds | shipments/tasks.py:195 | a non-empty file has at least one record, and the last one reaches `n` |
| Coordinator.SplitRun | shipments/tasks.py:179-189 | running rows `0..i` and then `i..stop` leaves the same store and the same tally as running `0..stop` at once |
| Coordinator.AdvanceUnfailing | shipments/tasks.py:180-189 | a batch whose transaction commits adds its rows' tally to the totals and leaves the store its rows left |
| Coordinator.UnfailingFrom | shipments/tasks.py:179-189 | without failing transactions, the loop from any offset keeps its totals equal to one sequential run over the rows reached so far |
| Coordinator.Unfailing | shipments/tasks.py:179-189 | without failing transactions, the loop ends with the store, counts and errors of one sequential run over all rows |
| Coordinator.SettledFrom | shipments/tasks.py:179-189 | when every row is already settled, the batch loop creates nothing and leaves the store as it is |
| Coordinator.LoadTwice | shipments/tasks.py:144-226 | after a successful run without failing transactions, loading the same file again succeeds; whichever of its transactions fail, it creates nothing and leaves the store as it was |
| Coordinator.ErrorSuffixExactlyWithErrors | shipments/tasks.py:202-209 | the message ends in ` (with E errors)` exactly when `E > 0` |
| Coordinator.UnfailingReport | shipments/tasks.py:164-221 | without failing transactions, a valid file is reported with its row count, the sequential run's counts and one error per failing row, and the store that run leaves |
| Coordinator.AdvanceFailing | shipments/tasks.py:180-199 | a batch whose transaction fails adds its rows' counts and errors, then `Batch <k> failed: <detail>`, and leaves the store as it was |
| Coordinator.FailedBatches | shipments/tasks.py:179-189 | the number of batches whose transaction fails; stated by `Coordinator.FaultyFrom` and `Coordinator.FaultyReport` |
| Coordinator.FaultyFrom | shipments/tasks.py:179-189 | whatever transactions fail, the loop only adds records, and adds one error per failed batch plus at most one per remaining row |
| Coordinator.AllFailing | shipments/tasks.py:179-189 | when every transaction fails, the loop leaves the store exactly as it was |
| Coordinator.FaultyReport | shipments/tasks.py:164-221 | whatever transactions fail, a valid file is reported as a success with between `f` and `n + f` errors for `f` failed batches and `n` rows, and the store only gains records; when every transaction fails, it is unchanged |
| Tasks.ProcessCsvRow | shipments/tasks.py:13-54 | the flags, the error and the new database state are those of `RowStep` on the row's cells |
| Tasks.ProcessBatch | shipments/tasks.py:57-98 | the outcome and the new database state are those of `BatchStep` |
| Tasks.ProcessRows | shipments/tasks.py:66-86 | the loop leaves the store the rows leave, and its counts and errors are the tally of their outcomes |
| Tasks.SeedDataTask.constructor | shipments/tasks.py:144-145 | a new task has reported no progress |
| Tasks.SeedDataTask.UpdateState | shipments/tasks.py:192-199 | a progress update appends one state to those already reported |
| Tasks.SeedDataTask.LoadSeedData | shipments/tasks.py:144-226 | the report, the database state and the appended progress states are those of `SeedRun` |
| Tasks.SeedDataTask.ProcessBatches | shipments/tasks.py:178-199 | the batch loop's totals, store and progress states are those of the loop from offset 0 |
| Tasks.SeedDataTask.ProcessBatchAt | shipments/tasks.py:180-199 | one turn of the batch loop: one `process_batch`, the running sums, then one progress state |
| Tasks.SeedTwice | shipments/tasks.py:144-226 | `LoadTwice` for `process_csv_row` itself |

## Left out

- File I/O and CSV tokenising: existence, header and rows are inputs. So is an error while reading either.
- A cell that `csv.DictReader` fills with `None` (a short row) is not modelled; cells are always strings. In the code, the first `None` cell the row reaches decides the error. A text cell gives `None.strip()`, an `AttributeError` reported as `Row <n>: <text>` (tasks.py:52-53). The quantity or price cell gives `int(None)` or `float(None)`, a `TypeError` reported as `Row <n>: Invalid data - int() argument must be a string, a bytes-like object or a real number, not 'NoneType'` or the matching `float()` text (tasks.py:44-45, 50-51).
- The store holds at most one shipment per tracking number and one article per (shipment, SKU): `StoreState` is two maps keyed that way. The database does not enforce this. `shipments/models.py` declares no unique constraint on `tracking_number` or on (shipment, SKU), and other code may write duplicates. On a database with duplicates, the `get()` inside `get_or_create` (tasks.py:28, 39) raises `MultipleObjectsReturned`. The generic handler reports the row as `Row <n>: get() returned more than one Shipment -- it returned <k>!` (or `Article`), with no creation counted; when the article lookup fails, the shipment step has already run. `Models.GetOrCreate`, `Rows.FirstWriteWins`, `Rows.RowIdempotent`, `Coordinator.LoadTwice` and every lemma built on the store hold only for such keyed stores.
- Python's `float()` is an abstract `PriceParser`. Its `ValueError` text is modelled as `could not convert string to float: '<cell>'`.
- Column values are not bounded. The database's integer and decimal column limits, and Decimal rounding of the price, are not modelled.
- `int()` is modelled on ASCII digits only; the Unicode decimal digits Python also accepts are left out.
- Text.ParseInt: no limit on the number of digits. Python 3.11 and later reject a literal of more than 4300 digits by default (the limit is configurable), so there `Text.ParseIntOfNatToString` holds only up to that length.
- Rows.InvalidQuantity: a quantity cell of more than 4300 digits is parsed by the model, while Python 3.11 and later fail the row with the `Exceeds the limit (4300 digits) for integer string conversion` text.
- `repr()` is modelled as the text in single quotes, without Python's escaping of quotes and control characters.
- A database fault is modelled only as a commit failure of a whole batch. A fault inside one `get_or_create` (for example a tracking number longer than the 50-character column) is caught by the row's generic handler and reported as `Row <n>: <text>` (tasks.py:52-53). Django runs the create in its own savepoint, so whether the rest of the batch can still run depends on where the fault happens and on the database. This is not modelled.
- The order of the missing columns in the message comes from a Python set and is not specified. The model lists them in the order of the required columns.
- Logging, the Celery transport, `update_state`'s `state="PROGRESS"` tag, and concurrent tasks over the same database are not modelled.
- An exception escaping the loop other than a failed read or a zero batch size is not modelled. In the loop, `process_batch` never raises, because no batch is empty.
- Coordinator.SeedRun: its own contract only bounds the counts. When no transaction fails, the exact counts, errors and store are stated by `Coordinator.UnfailingReport`. When some fail, only bounds are stated for the whole run: `Coordinator.FaultyReport` bounds the error count and says the store only grows, or stays as it was when every transaction fails; `Coordinator.AdvanceFailing` gives each failed batch's exact effect. The progress records are stated by `Coordinator.ProgressRecords` in both cases.
- The default `batch_size=1000` of `load_seed_data_task` (tasks.py:145) is not modelled; the batch size is always an explicit argument.
- Other files of the repository (the weather service, views, serializers, the management command) are not part of this model.
