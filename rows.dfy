/**
 * `process_csv_row` as a function of the store: one row becomes a shipment
 * get-or-create keyed by the stripped tracking number, then an article
 * get-or-create keyed by (that tracking number, stripped SKU).
 */
module Rows {
  import opened Wrappers
  import opened Text
  import opened CsvFiles
  import opened Models

  /** The abstract stand-in for Python's `float()` on the price cell. */
  type PriceParser = string -> Option<real>

  /** `(shipment_created, article_created, error)`. */
  datatype RowOutcome = RowOutcome(shipmentCreated: bool, articleCreated: bool, error: Option<string>)

  datatype Parsed<T> = Parsed(value: T) | ParseError(detail: string)

  /** `row.get(column, "")`. */
  function Get(row: Row, column: string): string {
    if column in row then row[column] else ""
  }

  /** `column in row`, with the cell when it is. */
  function Lookup(row: Row, column: string): Option<string> {
    if column in row then Some(row[column]) else None
  }

  /** The cells of a CSV row that `process_csv_row` reads, before stripping. */
  datatype Cells = Cells(
    trackingNumber: Option<string>,
    carrier: string, senderAddress: string, receiverAddress: string, status: string,
    sku: string, articleName: string,
    quantity: Option<string>, price: Option<string>)

  function CellsOf(row: Row): Cells {
    Cells(
      Lookup(row, "tracking_number"),
      Get(row, "carrier"), Get(row, "sender_address"), Get(row, "receiver_address"), Get(row, "status"),
      Get(row, "SKU"), Get(row, "article_name"),
      Lookup(row, "article_quantity"), Lookup(row, "article_price"))
  }

  /** How every row error starts: `Row <n>: `. */
  function RowPrefix(n: nat): string {
    "Row " + NatToString(n) + ": "
  }

  /** Python's `repr()` of a string, without its character escaping. */
  function Quoted(s: string): string {
    "'" + s + "'"
  }

  /**
   * `%.200R` of a string, as `int()` writes it into its error: the repr, cut
   * to its first 200 characters, so a long cell loses its closing quote.
   */
  function ReprCut(s: string): (r: string)
    ensures r <= Quoted(s) && |r| <= 200
    ensures |s| <= 198 ==> r == Quoted(s)
    ensures |s| > 198 ==> |r| == 200
  {
    var q := Quoted(s);
    if |q| <= 200 then q else q[..200]
  }

  /** The stripped cells a new shipment is created with. */
  function ShipmentDefaults(c: Cells): ShipmentFields {
    ShipmentFields(Strip(c.carrier), Strip(c.senderAddress), Strip(c.receiverAddress), Strip(c.status))
  }

  function ArticleKeyOf(c: Cells): ArticleKey
    requires c.trackingNumber.Some?
  {
    ArticleKey(Strip(c.trackingNumber.value), Strip(c.sku))
  }

  /** `int(cell)`: the value, or the text of the `ValueError`. */
  function ParseQuantityCell(cell: string): Parsed<int> {
    match ParseInt(cell)
    case Some(q) => Parsed(q)
    case None => ParseError("invalid literal for int() with base 10: " + ReprCut(cell))
  }

  /** `int(row.get("article_quantity", 0))`. */
  function ParseQuantity(c: Cells): Parsed<int> {
    match c.quantity
    case None => Parsed(0)
    case Some(cell) => ParseQuantityCell(cell)
  }

  /** `float(cell)`, with the abstract parser. */
  function ParsePriceCell(cell: string, parsePrice: PriceParser): Parsed<real> {
    match parsePrice(cell)
    case Some(p) => Parsed(p)
    case None => ParseError("could not convert string to float: " + Quoted(cell))
  }

  /** `float(row.get("article_price", 0.0))`. */
  function ParsePrice(c: Cells, parsePrice: PriceParser): Parsed<real> {
    match c.price
    case None => Parsed(0.0)
    case Some(cell) => ParsePriceCell(cell, parsePrice)
  }

  /** The fields a new article is created with. */
  function ArticleFieldsOf(c: Cells, parsePrice: PriceParser): ArticleFields
    requires NumbersParse(c, parsePrice)
  {
    ArticleFields(Strip(c.articleName), ParseQuantity(c).value, ParsePrice(c, parsePrice).value)
  }

  /** Both numeric cells parse. */
  predicate NumbersParse(c: Cells, parsePrice: PriceParser) {
    ParseQuantity(c).Parsed? && ParsePrice(c, parsePrice).Parsed?
  }

  /** The `ValueError` text: the quantity is converted first, so its error wins. */
  function InvalidDetail(c: Cells, parsePrice: PriceParser): string
    requires !NumbersParse(c, parsePrice)
  {
    if ParseQuantity(c).ParseError? then ParseQuantity(c).detail
    else ParsePrice(c, parsePrice).detail
  }

  /** A failed row: no creation is reported and the error names the row. */
  function Failure(n: nat, detail: string): RowOutcome {
    RowOutcome(false, false, Some(RowPrefix(n) + detail))
  }

  /** A failed row reports no creation, and its error starts with the row's prefix. */
  lemma FailureNamesRow(n: nat, detail: string)
    ensures var o := Failure(n, detail);
      !o.shipmentCreated && !o.articleCreated && o.error.Some? && RowPrefix(n) <= o.error.value
  {
    assert (RowPrefix(n) + detail)[..|RowPrefix(n)|] == RowPrefix(n);
  }

  /** The shipment half of a row, with its tracking number stripped and non-empty. */
  function ShipmentStep(st: StoreState, trackingNumber: string, defaults: ShipmentFields): (StoreState, bool) {
    var r := GetOrCreate(st.shipments, trackingNumber, defaults);
    (st.(shipments := r.0), r.1)
  }

  /** The shipment half keeps the articles and every stored shipment, and adds at most the one it reports. */
  lemma ShipmentStepEffects(st: StoreState, trackingNumber: string, defaults: ShipmentFields)
    ensures var res := ShipmentStep(st, trackingNumber, defaults);
      && res.0.articles == st.articles
      && res.0.shipments.Keys == st.shipments.Keys + {trackingNumber}
      && (forall t :: t in st.shipments ==> res.0.shipments[t] == st.shipments[t])
      && |res.0.shipments| == if res.1 then |st.shipments| + 1 else |st.shipments|
  {
  }

  /** The article half of a row, once both numbers have parsed. */
  function ArticleStep(st: StoreState, key: ArticleKey, fields: ArticleFields): (StoreState, bool) {
    var r := GetOrCreate(st.articles, key, fields);
    (st.(articles := r.0), r.1)
  }

  /** The article half keeps the shipments and every stored article, and adds at most the one it reports. */
  lemma ArticleStepEffects(st: StoreState, key: ArticleKey, fields: ArticleFields)
    ensures var res := ArticleStep(st, key, fields);
      && res.0.shipments == st.shipments
      && res.0.articles.Keys == st.articles.Keys + {key}
      && (forall k :: k in st.articles ==> res.0.articles[k] == st.articles[k])
      && |res.0.articles| == if res.1 then |st.articles| + 1 else |st.articles|
  {
  }

  /**
   * `process_csv_row(row, n)` on store `st`, with `c` the cells of `row`: the
   * outcome and the new store. A missing `tracking_number` column is the
   * `KeyError` that the generic handler reports as `Row n: 'tracking_number'`.
   * The shipment is get-or-created before the numbers are parsed, so an
   * `Invalid data` row may leave a new shipment behind.
   */
  function RowStep(st: StoreState, c: Cells, n: nat, parsePrice: PriceParser): (res: (RowOutcome, StoreState))
  {
    match c.trackingNumber
    case None => (Failure(n, Quoted("tracking_number")), st)
    case Some(cell) =>
      var trackingNumber := Strip(cell);
      if trackingNumber == "" then
        (Failure(n, "Empty tracking number"), st)
      else
        var (st1, shipmentCreated) := ShipmentStep(st, trackingNumber, ShipmentDefaults(c));
        if !NumbersParse(c, parsePrice) then
          (Failure(n, "Invalid data - " + InvalidDetail(c, parsePrice)), st1)
        else
          var (st2, articleCreated) := ArticleStep(st1, ArticleKeyOf(c), ArticleFieldsOf(c, parsePrice));
          (RowOutcome(shipmentCreated, articleCreated, None), st2)
  }

  /**
   * A row's error names it; a row adds at most one shipment and at most one
   * article, reports exactly the article it adds, and reports a shipment only
   * when it adds one; it keeps every article attached to a stored shipment.
   */
  lemma RowStepEffects(st: StoreState, c: Cells, n: nat, parsePrice: PriceParser)
    ensures var res := RowStep(st, c, n, parsePrice);
      && (res.0.error.Some? ==> !res.0.shipmentCreated && !res.0.articleCreated && RowPrefix(n) <= res.0.error.value)
      && Extends(st, res.1)
      && (Valid(st) ==> Valid(res.1))
      && |st.shipments| <= |res.1.shipments| <= |st.shipments| + 1
      && (res.0.shipmentCreated ==> |res.1.shipments| == |st.shipments| + 1)
      && |res.1.articles| == if res.0.articleCreated then |st.articles| + 1 else |st.articles|
  {
    if HasTrackingNumber(c) {
      var t := TrackingNumber(c);
      var shipped := ShipmentStep(st, t, ShipmentDefaults(c));
      if NumbersParse(c, parsePrice) {
        var stored := ArticleStep(shipped.0, ArticleKeyOf(c), ArticleFieldsOf(c, parsePrice));
        assert RowStep(st, c, n, parsePrice) == (RowOutcome(shipped.1, stored.1, None), stored.0);
        assert t in stored.0.shipments;
      } else {
        assert RowStep(st, c, n, parsePrice).1 == shipped.0;
      }
    }
  }

  /** A row without a `tracking_number` column fails with the `KeyError` text and changes nothing. */
  lemma MissingTrackingNumber(st: StoreState, row: Row, n: nat, parsePrice: PriceParser)
    requires "tracking_number" !in row
    ensures RowStep(st, CellsOf(row), n, parsePrice) ==
      (RowOutcome(false, false, Some(RowPrefix(n) + "'tracking_number'")), st)
  {
    QuotedTrackingNumber();
  }

  lemma QuotedTrackingNumber()
    ensures Quoted("tracking_number") == "'tracking_number'"
  {
  }

  /** A tracking number of whitespace only is rejected before the store is touched. */
  lemma BlankTrackingNumber(st: StoreState, row: Row, n: nat, parsePrice: PriceParser)
    requires "tracking_number" in row
    requires forall i :: 0 <= i < |row["tracking_number"]| ==> IsSpace(row["tracking_number"][i])
    ensures RowStep(st, CellsOf(row), n, parsePrice) ==
      (RowOutcome(false, false, Some("Row " + NatToString(n) + ": Empty tracking number")), st)
  {
    TrimBlank(row["tracking_number"], StrBlanks);
    assert RowPrefix(n) + "Empty tracking number" == "Row " + NatToString(n) + ": Empty tracking number";
  }

  /** The stripped tracking number of a row that has a non-blank one. */
  predicate HasTrackingNumber(c: Cells) {
    c.trackingNumber.Some? && Strip(c.trackingNumber.value) != ""
  }

  function TrackingNumber(c: Cells): string
    requires c.trackingNumber.Some?
  {
    Strip(c.trackingNumber.value)
  }

  /**
   * First write wins: a stored shipment is left as it is and not reported as
   * created, while an article with a new SKU is still created under it.
   */
  lemma FirstWriteWins(st: StoreState, c: Cells, n: nat, parsePrice: PriceParser)
    requires HasTrackingNumber(c) && TrackingNumber(c) in st.shipments
    ensures var (outcome, st2) := RowStep(st, c, n, parsePrice);
      && st2.shipments == st.shipments
      && !outcome.shipmentCreated
      && (NumbersParse(c, parsePrice) && ArticleKeyOf(c) !in st.articles ==>
            && outcome == RowOutcome(false, true, None)
            && st2.articles == st.articles[ArticleKeyOf(c) := ArticleFieldsOf(c, parsePrice)])
  {
    var shipped := ShipmentStep(st, TrackingNumber(c), ShipmentDefaults(c));
    assert shipped == (st, false);
    if NumbersParse(c, parsePrice) {
      var stored := ArticleStep(st, ArticleKeyOf(c), ArticleFieldsOf(c, parsePrice));
      assert RowStep(st, c, n, parsePrice) == (RowOutcome(false, stored.1, None), stored.0);
    } else {
      assert RowStep(st, c, n, parsePrice).1 == st;
    }
  }

  /**
   * A quantity or price that does not parse fails the row with `Invalid data`
   * and adds no article, but the shipment get-or-create that ran first stays.
   */
  lemma InvalidData(st: StoreState, c: Cells, n: nat, parsePrice: PriceParser)
    requires HasTrackingNumber(c) && !NumbersParse(c, parsePrice)
    ensures var (outcome, st2) := RowStep(st, c, n, parsePrice);
      var t := TrackingNumber(c);
      && outcome == RowOutcome(false, false,
           Some("Row " + NatToString(n) + ": Invalid data - " + InvalidDetail(c, parsePrice)))
      && st2.articles == st.articles
      && st2.shipments == GetOrCreate(st.shipments, t, ShipmentDefaults(c)).0
      && (t !in st.shipments ==> t in st2.shipments && |st2.shipments| == |st.shipments| + 1)
  {
    var t := TrackingNumber(c);
    var shipped := ShipmentStep(st, t, ShipmentDefaults(c));
    var detail := InvalidDetail(c, parsePrice);
    assert RowStep(st, c, n, parsePrice) == (Failure(n, "Invalid data - " + detail), shipped.0);
    InvalidDataMessage(n, detail);
  }

  /** The message of an `Invalid data` row, written out. */
  lemma InvalidDataMessage(n: nat, detail: string)
    ensures Failure(n, "Invalid data - " + detail).error == Some("Row " + NatToString(n) + ": Invalid data - " + detail)
  {
    var p := "Row " + NatToString(n);
    assert ": " + "Invalid data - " == ": Invalid data - ";
    assert (p + ": ") + ("Invalid data - " + detail) == (p + (": " + "Invalid data - ")) + detail;
  }

  /** A quantity cell `int()` rejects is reported with Python's `ValueError` text. */
  lemma InvalidQuantity(st: StoreState, c: Cells, n: nat, parsePrice: PriceParser)
    requires HasTrackingNumber(c) && c.quantity.Some? && ParseInt(c.quantity.value).None?
    ensures RowStep(st, c, n, parsePrice).0.error == Some("Row " + NatToString(n) + ": Invalid data - " +
      "invalid literal for int() with base 10: " + ReprCut(c.quantity.value))
  {
    InvalidData(st, c, n, parsePrice);
    var a := "Row " + NatToString(n) + ": Invalid data - ";
    var b := "invalid literal for int() with base 10: ";
    assert a + (b + ReprCut(c.quantity.value)) == a + b + ReprCut(c.quantity.value);
  }

  /** Processing cells `c` against `st` would change nothing: every key they touch is stored. */
  predicate Settled(st: StoreState, c: Cells, parsePrice: PriceParser) {
    || !HasTrackingNumber(c)
    || (&& TrackingNumber(c) in st.shipments
        && (!NumbersParse(c, parsePrice) || ArticleKeyOf(c) in st.articles))
  }

  /** After a row has been processed once, it is settled. */
  lemma SettledAfterStep(st: StoreState, c: Cells, n: nat, parsePrice: PriceParser)
    ensures Settled(RowStep(st, c, n, parsePrice).1, c, parsePrice)
  {
  }

  /** A settled row stays settled while the store only grows. */
  lemma SettledStable(st: StoreState, st2: StoreState, c: Cells, parsePrice: PriceParser)
    requires Settled(st, c, parsePrice) && Extends(st, st2)
    ensures Settled(st2, c, parsePrice)
  {
  }

  /** A settled row creates nothing and leaves the store unchanged. */
  lemma SettledStepChangesNothing(st: StoreState, c: Cells, n: nat, parsePrice: PriceParser)
    requires Settled(st, c, parsePrice)
    ensures var (outcome, st2) := RowStep(st, c, n, parsePrice);
      st2 == st && !outcome.shipmentCreated && !outcome.articleCreated
  {
  }

  /** Processing a row that succeeded a second time reports `(False, False, None)` and changes nothing. */
  lemma {:induction false} RowIdempotent(st: StoreState, c: Cells, n: nat, m: nat, parsePrice: PriceParser)
    requires RowStep(st, c, n, parsePrice).0.error.None?
    ensures var st1 := RowStep(st, c, n, parsePrice).1;
      RowStep(st1, c, m, parsePrice) == (RowOutcome(false, false, None), st1)
  {
    var st1 := RowStep(st, c, n, parsePrice).1;
    SettledAfterStep(st, c, n, parsePrice);
    SettledStepChangesNothing(st1, c, m, parsePrice);
  }
}
