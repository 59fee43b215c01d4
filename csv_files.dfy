/**
 * The CSV file as the pipeline sees it, and the header validator
 * `validate_csv_file`. Opening and tokenising the file are I/O: the file's
 * existence, its header (the field names `csv.DictReader` reports, `[]` for an
 * empty file) and its data rows are inputs, each read possibly failing with an
 * error text.
 */
module CsvFiles {
  import opened Wrappers
  import opened Text

  /** One data row, as `csv.DictReader` yields it: column name to cell text. */
  type Row = map<string, string>

  datatype ReadResult<T> = Read(value: T) | ReadError(detail: string)

  datatype CsvFile = CsvFile(
    path: string,
    present: bool,
    header: ReadResult<seq<string>>,
    body: ReadResult<seq<Row>>)

  /** The nine columns every input file must have. */
  const RequiredColumns: seq<string> := [
    "tracking_number", "carrier", "sender_address", "receiver_address", "status",
    "article_name", "article_quantity", "article_price", "SKU"]

  /** `set(required) - set(header)`, listed in the order of `required`. */
  function MissingColumns(required: seq<string>, header: seq<string>): (missing: seq<string>)
    ensures forall c :: c in missing <==> c in required && c !in header
    ensures |missing| <= |required|
  {
    if required == [] then []
    else (if required[0] in header then [] else [required[0]]) + MissingColumns(required[1..], header)
  }

  /** The triple `(is_valid, error_message, required_columns)`. */
  datatype Validation = Validation(isValid: bool, errorMessage: Option<string>, requiredColumns: seq<string>)

  /** `validate_csv_file`: the file must exist, be readable and name all nine columns. */
  function ValidateCsvFile(file: CsvFile): (v: Validation)
    ensures v.requiredColumns == RequiredColumns && |v.requiredColumns| == 9
    ensures v.isValid <==> v.errorMessage.None?
    ensures v.isValid <==>
      file.present && file.header.Read? && forall c :: c in RequiredColumns ==> c in file.header.value
    ensures !file.present ==> v.errorMessage == Some("CSV file not found: " + file.path)
    ensures file.present && file.header.ReadError? ==>
      v.errorMessage == Some("Error reading CSV file: " + file.header.detail)
  {
    if !file.present then
      Validation(false, Some("CSV file not found: " + file.path), RequiredColumns)
    else
      match file.header
      case ReadError(detail) =>
        Validation(false, Some("Error reading CSV file: " + detail), RequiredColumns)
      case Read(fields) =>
        var missing := MissingColumns(RequiredColumns, fields);
        if |missing| > 0 then
          assert missing[0] in missing;
          Validation(false, Some("Missing required columns: " + Join(missing, ", ")), RequiredColumns)
        else
          Validation(true, None, RequiredColumns)
  }

  /**
   * A readable header lacking some required column is rejected with a message
   * that lists exactly the missing columns and so names each one of them.
   */
  lemma MissingColumnsReported(file: CsvFile, column: string)
    requires file.present && file.header.Read?
    requires column in RequiredColumns && column !in file.header.value
    ensures var v := ValidateCsvFile(file);
      && !v.isValid
      && v.errorMessage == Some("Missing required columns: " +
                                Join(MissingColumns(RequiredColumns, file.header.value), ", "))
      && Contains(v.errorMessage.value, column)
  {
    var missing := MissingColumns(RequiredColumns, file.header.value);
    assert column in missing;
    var k :| 0 <= k < |missing| && missing[k] == column;
    JoinContains(missing, ", ", k);
    var prefix := "Missing required columns: ";
    var joined := Join(missing, ", ");
    var i :| 0 <= i <= |joined| && column <= joined[i..];
    assert (prefix + joined)[|prefix| + i..] == joined[i..];
  }
}
