/**
 * The bulk loader of the Elasticsearch writer (Writer::loadFile and its error
 * helpers) stated as values: what one load sends, in which batches, what it
 * logs, and what it returns. The imperative loader in module
 * ElasticsearchWriter is proved to produce exactly `Load` below.
 */
module BulkSpec {

  import opened Wrappers
  import opened Format
  import opened Arithmetic

  /** Target index, document type and rows per bulk request of one load. */
  datatype LoadOptions = LoadOptions(index: string, docType: string, bulkSize: int)

  /** One element of a bulk request body: an `index` action line, or the document after it. */
  datatype Entry =
    | Directive(index: string, docType: string, id: Option<string>)
    | Doc(fields: map<string, string>)

  /**
   * The `error` field of one item of a bulk response: absent (or null), a
   * plain string, or an object of which only `type` and `reason` are read;
   * `otherKeys` records whether the object holds any further key (or a
   * `type`/`reason` key whose value is null), which makes it non-empty.
   */
  datatype ItemError =
    | NoError
    | ErrorString(text: string)
    | ErrorObject(errorType: Option<string>, reason: Option<string>, otherKeys: bool)

  /** The body of one item of a bulk response (the value under its operation key). */
  datatype Item = Item(id: string, status: int, error: ItemError)

  /**
   * A bulk response. `errors` is true when the response's `errors` value is
   * anything other than the boolean false (the loader tests `!== false`).
   */
  datatype BulkResponse = BulkResponse(took: int, errors: bool, items: seq<Item>)

  datatype Level = Info | Error

  /**
   * A log line, held as the arguments of the `sprintf` that formats it;
   * `Text` gives the formatted line.
   */
  datatype Message =
    | BatchStart(docType: string, batch: int, index: string)
    | BatchTook(docType: string, batch: int, index: string, took: int)
    | MissingIdColumn(column: string, line: int)
    | ItemFailure(id: string, error: ItemError)

  datatype Record = Record(level: Level, message: Message)

  /** What one load returns, the batches it sent, and the log records it wrote. */
  datatype Outcome = Outcome(ok: bool, sent: seq<seq<Entry>>, log: seq<Record>)

  // ---------------------------------------------------------------------
  // Rows and documents
  // ---------------------------------------------------------------------

  /** The header row of the file, as the CSV reader reports it. */
  function Header(file: seq<seq<string>>): seq<string> {
    if file == [] then [] else file[0]
  }

  /** The rows after the header: row j here is line j + 2 of the file. */
  function DataRows(file: seq<seq<string>>): seq<seq<string>> {
    if file == [] then [] else file[1..]
  }

  /** Every data row is as long as the header (what array_combine needs). */
  predicate Rectangular(header: seq<string>, rows: seq<seq<string>>) {
    forall i | 0 <= i < |rows| :: |rows[i]| == |header|
  }

  /**
   * array_combine: header names become keys, row values their values; when a
   * name repeats, the value in its last column wins. array_combine refuses a
   * row whose length differs from the header's, and a load requires every
   * row to have the header's length (Rectangular); on other rows this pairs
   * the columns both have.
   */
  function Combine(header: seq<string>, row: seq<string>): (fields: map<string, string>)
    ensures |row| == |header| ==> forall key :: key in fields <==> key in header
  {
    var n := if |row| < |header| then |row| else |header|;
    assert |row| == |header| ==> header[..n] == header;
    CombineFirstKeysAll(header, row, n);
    CombineFirst(header, row, n)
  }

  /** The first n header names paired with the first n row values. */
  function CombineFirst(header: seq<string>, row: seq<string>, n: nat): map<string, string>
    requires n <= |header| && n <= |row|
  {
    if n == 0 then map[] else CombineFirst(header, row, n - 1)[header[n - 1] := row[n - 1]]
  }

  /** The keys of the first n pairs are the first n header names. */
  lemma CombineFirstKeysAll(header: seq<string>, row: seq<string>, n: nat)
    requires n <= |header| && n <= |row|
    ensures forall key :: key in CombineFirst(header, row, n) <==> key in header[..n]
  {
    forall key
      ensures key in CombineFirst(header, row, n) <==> key in header[..n]
    {
      CombineFirstKeys(header, row, n, key);
    }
  }

  /** Whether one name is among the keys of the first n pairs: it is among the first n header names. */
  lemma {:induction false} CombineFirstKeys(header: seq<string>, row: seq<string>, n: nat, key: string)
    requires n <= |header| && n <= |row|
    ensures key in CombineFirst(header, row, n) <==> key in header[..n]
  {
    if n > 0 {
      CombineFirstKeys(header, row, n - 1, key);
      assert header[..n] == header[..n - 1] + [header[n - 1]];
    }
  }

  /**
   * The id column the loader uses: `if ($primaryIndex)` is PHP truthiness,
   * so null, "" and "0" all mean "no id column".
   */
  function IdColumn(primaryIndex: Option<string>): Option<string> {
    if primaryIndex.Some? && primaryIndex.value != "" && primaryIndex.value != "0" then primaryIndex
    else None
  }

  /** The id column, when one is used, is a column of the header. */
  predicate IdResolvable(header: seq<string>, idColumn: Option<string>) {
    idColumn.Some? ==> idColumn.value in header
  }

  /**
   * The two body entries of one row: its index directive, then its field
   * map. The directive's `_id` is the row's value in the id column; a load
   * checks that the column exists before it builds any entry.
   */
  function RowEntries(header: seq<string>, row: seq<string>, options: LoadOptions, idColumn: Option<string>): seq<Entry>
  {
    var doc := Combine(header, row);
    var id := if idColumn.Some? && idColumn.value in doc then Some(doc[idColumn.value]) else None;
    [Directive(options.index, options.docType, id), Doc(doc)]
  }

  /** The body entries of data rows lo .. hi - 1, in row order. */
  function EntriesBetween(header: seq<string>, rows: seq<seq<string>>, options: LoadOptions, idColumn: Option<string>,
                          lo: nat, hi: nat): (es: seq<Entry>)
    requires lo <= hi <= |rows|
    ensures |es| == 2 * (hi - lo)
    decreases hi - lo
  {
    if lo == hi then []
    else EntriesBetween(header, rows, options, idColumn, lo, hi - 1) + RowEntries(header, rows[hi - 1], options, idColumn)
  }

  /** The body entries of all data rows, in row order. */
  function Entries(header: seq<string>, rows: seq<seq<string>>, options: LoadOptions, idColumn: Option<string>): seq<Entry> {
    EntriesBetween(header, rows, options, idColumn, 0, |rows|)
  }

  /**
   * The bodies of the bulk requests: the rows cut into runs of `bulkSize`
   * (the last run may be shorter), each run turned into its entries. There
   * are ceil(N / B) of them for N rows and bulk size B.
   */
  function Batches(header: seq<string>, rows: seq<seq<string>>, options: LoadOptions, idColumn: Option<string>)
    : (bs: seq<seq<Entry>>)
    requires options.bulkSize > 0
    ensures |bs| == CeilDiv(|rows|, options.bulkSize) == (|rows| + options.bulkSize - 1) / options.bulkSize
  {
    CeilDivIsQuotient(|rows|, options.bulkSize);
    var count := CeilDiv(|rows|, options.bulkSize);
    seq(count, k requires 0 <= k < count =>
      CeilStarts(k, |rows|, options.bulkSize);
      Batch(header, rows, options, idColumn, k))
  }

  /** Batch k: the entries of data rows k·B .. (k+1)·B, cut short by the end of the rows. */
  function Batch(header: seq<string>, rows: seq<seq<string>>, options: LoadOptions, idColumn: Option<string>,
                 k: nat): seq<Entry>
    requires options.bulkSize > 0 && Offset(k, options.bulkSize) < |rows|
  {
    var hi := Offset(k + 1, options.bulkSize);
    EntriesBetween(header, rows, options, idColumn, Offset(k, options.bulkSize), if hi < |rows| then hi else |rows|)
  }

  /** All batch bodies one after the other. */
  function Flatten(bs: seq<seq<Entry>>): seq<Entry> {
    if bs == [] then [] else bs[0] + Flatten(bs[1..])
  }

  // ---------------------------------------------------------------------
  // Log messages
  // ---------------------------------------------------------------------

  /** implode: the pieces joined with `glue` between neighbours. */
  function Implode(glue: string, pieces: seq<string>): string
    decreases |pieces|
  {
    if pieces == [] then ""
    else if |pieces| == 1 then pieces[0]
    else pieces[0] + glue + Implode(glue, pieces[1..])
  }

  function Present(field: Option<string>): seq<string> {
    if field.Some? then [field.value] else []
  }

  /**
   * getErrorMessageFromErrorField: the `type` and `reason` fields that are
   * set, in that order, joined by "; ".
   */
  function ErrorFieldMessage(errorType: Option<string>, reason: Option<string>): (m: string)
    ensures errorType.None? && reason.None? ==> m == ""
    ensures errorType.Some? && reason.None? ==> m == errorType.value
    ensures errorType.None? && reason.Some? ==> m == reason.value
    ensures errorType.Some? && reason.Some? ==> m == errorType.value + "; " + reason.value
  {
    var pieces := Present(errorType) + Present(reason);
    assert |pieces| == 2 ==> pieces[1..] == [reason.value] && Implode("; ", pieces[1..]) == reason.value;
    Implode("; ", pieces)
  }

  /** PHP's empty() on the error field: null, "", "0" and an array without keys. */
  predicate IsEmpty(e: ItemError) {
    match e
    case NoError => true
    case ErrorString(text) => text == "" || text == "0"
    case ErrorObject(errorType, reason, otherKeys) => errorType.None? && reason.None? && !otherKeys
  }

  /** The detail part of an item's error line: the raw string, or type and reason. */
  function ErrorDetail(e: ItemError): string {
    match e
    case NoError => ""
    case ErrorString(text) => text
    case ErrorObject(errorType, reason, _) => ErrorFieldMessage(errorType, reason)
  }

  /** The text `sprintf` produces for each log line. */
  function Text(m: Message): string {
    match m
    case BatchStart(docType, batch, index) =>
      "Write " + docType + " batch " + IntToDecimal(batch) + " to " + index + " start"
    case BatchTook(docType, batch, index, took) =>
      "Write " + docType + " batch " + IntToDecimal(batch) + " to " + index + " took " + IntToDecimal(took) + " ms"
    case MissingIdColumn(column, line) =>
      "CSV error: Missing id column " + column + " on line " + IntToDecimal(line)
    case ItemFailure(id, error) =>
      "ES error(document ID '" + id + "'): " + ErrorDetail(error)
  }

  /** An item is reported when its status is an error status and its error field is not empty. */
  predicate Reported(item: Item) {
    item.status >= 400 && !IsEmpty(item.error)
  }

  /** The error records written for the items of a response whose `errors` flag is set. */
  function ItemErrorRecords(items: seq<Item>): seq<Record>
    decreases |items|
  {
    if items == [] then []
    else
      var n := |items| - 1;
      var last := items[n];
      ItemErrorRecords(items[..n])
      + if Reported(last) then [Record(Error, ItemFailure(last.id, last.error))] else []
  }

  /** The records around bulk request number `batch`, and its item errors when it failed. */
  function BatchRecords(options: LoadOptions, batch: int, response: BulkResponse): seq<Record> {
    [Record(Info, BatchStart(options.docType, batch, options.index)),
     Record(Info, BatchTook(options.docType, batch, options.index, response.took))]
    + if response.errors then ItemErrorRecords(response.items) else []
  }

  // ---------------------------------------------------------------------
  // The load
  // ---------------------------------------------------------------------

  /** `first` (which succeeded) followed by `rest`. */
  function Then(first: Outcome, rest: Outcome): Outcome {
    Outcome(rest.ok, first.sent + rest.sent, first.log + rest.log)
  }

  /** One bulk request with body `body`, numbered `batch`, answered by `response`. */
  function Request(options: LoadOptions, body: seq<Entry>, batch: int, response: BulkResponse): Outcome {
    Outcome(!response.errors, [body], BatchRecords(options, batch, response))
  }

  /**
   * Sends the batches in order, numbering them from `batch`; the k-th request
   * receives `replies[k]`. The first reply whose `errors` flag is set ends the
   * load with false; the batches after it are not sent.
   */
  function Send(options: LoadOptions, batches: seq<seq<Entry>>, replies: seq<BulkResponse>, batch: int): Outcome
    requires |batches| <= |replies|
    decreases |batches|
  {
    if batches == [] then Outcome(true, [], [])
    else
      var here := Request(options, batches[0], batch, replies[0]);
      if replies[0].errors then here
      else Then(here, Send(options, batches[1..], replies[1..], batch + 1))
  }

  /**
   * One load of `file` (its first row the header), with the bulk client
   * answering the k-th request of this load with `replies[k]`.
   */
  function Load(file: seq<seq<string>>, options: LoadOptions, primaryIndex: Option<string>,
                replies: seq<BulkResponse>): Outcome
    requires options.bulkSize > 0 && Rectangular(Header(file), DataRows(file))
    requires CeilDiv(|DataRows(file)|, options.bulkSize) <= |replies|
  {
    var header, rows, idColumn := Header(file), DataRows(file), IdColumn(primaryIndex);
    if rows == [] then Outcome(true, [], [])
    else if !IdResolvable(header, idColumn) then
      // the first data row is line 2 of the file
      Outcome(false, [], [Record(Error, MissingIdColumn(idColumn.value, 2))])
    else
      Send(options, Batches(header, rows, options, idColumn), replies, 1)
  }
}
