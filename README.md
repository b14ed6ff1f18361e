# Elasticsearch writer bulk loader, in Dafny

This project models the bulk loader of the Keboola Elasticsearch writer:
`Writer::loadFile` and the two helpers it uses to report rejected
documents, `logItemError` and `getErrorMessageFromErrorField`.

`loadFile` reads a CSV file line by line and skips line 0, the header.
For each data row it does three things:

- It zips the row with the header into a field map (`array_combine`).
- If an id column is named, it checks that the row has it. A row without
  it ends the load with `false` and one error log line.
- It appends an `index` directive and the field map to the request body.

Whenever the data row number is a multiple of the bulk size, the body goes
out as one bulk request, between a "start" and a "took" info line. The
rest goes out once more after the last row. The first response whose
`errors` value is not `false` has its failed items logged, and the load
returns `false` at once. Later batches are never sent.

The project has five modules:

- `Wrappers` (wrappers.dfy): `Option`, which stands for PHP `null` or a
  missing key.
- `Arithmetic` (arith.dfy): the flush test `i % bulkSize == 0` and the
  request count ceil(N / B). Both are written so that the proofs stay
  linear, and each is tied to `%` and `/` by a lemma.
- `Format` (format.dfy): the decimal text that `sprintf("%d")` produces for
  the batch number and the `took` time.
- `BulkSpec` (bulk_spec.dfy): what one load does, stated as values.
  - The data types: rows, body entries, bulk responses, items and log
    records.
  - `Batches`: the rows cut into runs of `bulkSize`.
  - The log messages, and `Send`/`Load`, which give the load's outcome:
    the verdict, the bodies sent and the log written.
- `BulkLemmas` (bulk_lemmas.dfy): the properties of `Load`.
- `ElasticsearchWriter` (writer.dfy): the imperative loader.
  - The class `Writer` holds `LoadFile`, its loop over the file and the
    body buffer.
  - `Client` is the Elasticsearch client, an oracle: the k-th bulk call
    receives the k-th of a list of responses fixed in advance, and the
    client records every body it is sent.
  - `Logger` keeps every record it is given.
  - `LoadFile` is proved to leave the client and the logger exactly as
    `BulkSpec.Load` says, and to return its verdict.

The body of the source's `foreach` loop is split over three methods:

- `Writer.LoadLine` handles one line.
- `Writer.FlushLine` handles a line that completes a batch.
- `Writer.Finish` is the code after the loop.

The early `return false` inside the loop becomes a `stop` result that
`LoadFile` turns into its return. The flush test is the predicate
`IsMultiple(i, bulkSize)`, and `Arithmetic.MultipleIsMod` proves that it
agrees with `i % bulkSize == 0`.

A load stops at the first rejected response: the code returns `false` at
the first bulk response whose `errors` flag is set, and later batches are
never sent. An error object with neither `type` nor `reason` but with other
keys is not empty, so it is logged, with an empty detail (`ErrorObject`
with `otherKeys`).

Log records are compared by their `Message`, that is, by the arguments of
each `sprintf`. `BulkSpec.Text` gives the printed line, and
`Format.IntToDecimalRoundTrip` shows that its `%d` numbers read back, but no
property of the loader is stated over the printed text.

## Model

| member | source | states |
|---|---|---|
| ElasticsearchWriter.Writer.LoadFile | src/Keboola/ElasticsearchWriter/Writer.php:56-168 | The returned verdict, the bodies sent to the client and the records written to the logger are exactly the outcome of `Load` on the file, given the client's next responses. |
| ElasticsearchWriter.Writer.LoadLine | src/Keboola/ElasticsearchWriter/Writer.php:63-130 | Line 0 changes nothing. A data row without the id column stops the load with `Load`'s outcome. Any other row adds its directive and document to the body, flushes at a multiple of the bulk size, and keeps the loop's state as the row-by-row `Progress` gives it. |
| ElasticsearchWriter.Writer.MissingIdColumnStops | src/Keboola/ElasticsearchWriter/Writer.php:71-75 | A row without the id column stops the load before any request. The one error record for that row completes `Load`'s outcome. |
| ElasticsearchWriter.Writer.LoadingRow | src/Keboola/ElasticsearchWriter/Writer.php:77-93 | A row that does not complete a batch appends its two entries to the body and keeps the batch number. |
| ElasticsearchWriter.Writer.FlushLine | src/Keboola/ElasticsearchWriter/Writer.php:95-130 | The completed body is batch `iBulk` of the load and is sent. On rejection the load stops with `Load`'s outcome. Otherwise the body is empty again and `iBulk` moves on by one. |
| ElasticsearchWriter.Writer.Finish | src/Keboola/ElasticsearchWriter/Writer.php:133-167 | After the last line, a non-empty body is the last batch and is sent. The verdict, what was sent and the log are `Load`'s. |
| ElasticsearchWriter.Writer.Flush | src/Keboola/ElasticsearchWriter/Writer.php:96-126 | Sending batch `iBulk` after the batches before it were accepted gives what `Send` gives for the first `iBulk` batches, and the verdict is that of its response. |
| ElasticsearchWriter.Writer.SendBatch | src/Keboola/ElasticsearchWriter/Writer.php:96-125 | One request: a start record, the body sent, a took record with the response's time, and the item error records when the `errors` flag is set. Returns that flag. |
| ElasticsearchWriter.Writer.LogItemErrors | src/Keboola/ElasticsearchWriter/Writer.php:115-123 | The items of a failed response add exactly `ItemErrorRecords(items)` to the log, in item order. |
| ElasticsearchWriter.Writer.LogItemError | src/Keboola/ElasticsearchWriter/Writer.php:223-240 | An item with a non-empty error field adds exactly one error record with its id and error. An empty one (null, "", "0", no keys) adds nothing. |
| ElasticsearchWriter.Client.Bulk | src/Keboola/ElasticsearchWriter/Writer.php:102-102 | A bulk call records its body and answers with the next response. |
| Arithmetic.MultipleIsMod | src/Keboola/ElasticsearchWriter/Writer.php:95-95 | `IsMultiple(i, k)` holds exactly when `i % k == 0`, the source's flush test. |
| Arithmetic.CeilDivIsQuotient | src/Keboola/ElasticsearchWriter/Writer.php:95-133 | The request count for N rows and bulk size k is (N + k - 1) / k, that is ceil(N / k). |
| Arithmetic.FlushPoint | src/Keboola/ElasticsearchWriter/Writer.php:95-95 | Inside batch m + 1, the flush test succeeds exactly at the row that completes the batch. |
| Arithmetic.CeilStarts | src/Keboola/ElasticsearchWriter/Writer.php:95-133 | Batch m of n rows exists exactly when the m batches before it leave a row over. |
| Format.IntToDecimalRoundTrip | src/Keboola/ElasticsearchWriter/Writer.php:96-110 | The decimal text of a batch number or a time parses back to that number. |
| BulkSpec.Combine | src/Keboola/ElasticsearchWriter/Writer.php:69-69 | `array_combine(header, row)`: for a row as long as the header, a name is a key of the field map exactly when it is a header name (the value is given by `BulkLemmas.CombineValue`). |
| BulkSpec.EntriesBetween | src/Keboola/ElasticsearchWriter/Writer.php:77-93 | Rows lo .. hi - 1 make exactly two body entries each. |
| BulkSpec.Batches | src/Keboola/ElasticsearchWriter/Writer.php:95-140 | A load of N rows with bulk size B has (N + B - 1) / B batches, the integer quotient the source's flushes add up to. |
| BulkSpec.ErrorFieldMessage | src/Keboola/ElasticsearchWriter/Writer.php:175-184 | The detail of an error object is "", its `type`, its `reason`, or `type; reason`, depending on which of the two are set. |
| BulkSpec.IdColumn | src/Keboola/ElasticsearchWriter/Writer.php:71-71 | The id column is used only when it is set and not PHP-falsy ("" or "0"); its properties are stated by `BulkLemmas.FalsyIdColumn`. |
| BulkSpec.RowEntries | src/Keboola/ElasticsearchWriter/Writer.php:77-93 | A row's two body entries: the `index` directive (index, type, and `_id` when an id column is used) and the field map; stated by `BulkLemmas.EntriesAt` and `BulkLemmas.DirectiveCarriesId`. |
| BulkSpec.IsEmpty | src/Keboola/ElasticsearchWriter/Writer.php:225-225 | PHP `empty()` on the error field: null, "", "0" and an object without keys; used by `BulkLemmas.ItemErrorRecordsMatch`. |
| BulkSpec.ItemErrorRecords | src/Keboola/ElasticsearchWriter/Writer.php:114-123 | The error records of a failed response's items, one per reported item in item order; stated by `BulkLemmas.ItemErrorRecordsMatch` and `BulkLemmas.ItemErrorRecordsAreErrors`. |
| BulkSpec.BatchRecords | src/Keboola/ElasticsearchWriter/Writer.php:96-123 | A request's records: start, took, then the item errors when the `errors` flag is set; stated by `BulkLemmas.AcceptedRequestLog` and `BulkLemmas.RejectedLogErrors`. |
| BulkSpec.Text | src/Keboola/ElasticsearchWriter/Writer.php:96-110 | The `sprintf` text of each log line; its numbers read back by `Format.IntToDecimalRoundTrip`. |
| BulkSpec.Send | src/Keboola/ElasticsearchWriter/Writer.php:95-165 | Batches sent in order until the first rejected response; its properties are `BulkLemmas.SendShape`, `SendAccepted`, `SendRejected`, `SendAppend` and `SendStops`. |
| BulkSpec.Load | src/Keboola/ElasticsearchWriter/Writer.php:56-168 | One load: no data rows, a missing id column on line 2, or the batches sent; its properties are `BulkLemmas.LoadShape`, `LoadVerdict` and the `Load…` lemmas. |
| Format.IntToDecimal | src/Keboola/ElasticsearchWriter/Writer.php:96-110 | The `%d` text of an integer: a minus sign for negatives, then the digits of the magnitude; `Format.IntToDecimalRoundTrip` reads it back. |
| Arithmetic.IsMultiple | src/Keboola/ElasticsearchWriter/Writer.php:95-95 | The flush test, written without `%`; `Arithmetic.MultipleIsMod` ties it to `i % k == 0`. |
| BulkLemmas.SendShape | src/Keboola/ElasticsearchWriter/Writer.php:95-130 | What is sent is a prefix of the batches: all of them on success, and up to the batch whose response has the `errors` flag on failure. There is a request when there is a batch, and each logs at least two records. |
| BulkLemmas.LoadShape | src/Keboola/ElasticsearchWriter/Writer.php:56-168 | A load makes at most ceil(N / B) requests, and it logs nothing exactly when the file has no data rows. |
| BulkLemmas.Progress | src/Keboola/ElasticsearchWriter/Writer.php:60-130 | The body and batch number after `done` rows in closed form; `BulkLemmas.ProgressPending` and `BulkLemmas.ProgressFlush` prove that the row-by-row loop keeps them. |
| BulkLemmas.CombineValue | src/Keboola/ElasticsearchWriter/Writer.php:69-69 | A field's value is the row's value in the last column with that name. |
| BulkLemmas.EntriesSplit | src/Keboola/ElasticsearchWriter/Writer.php:77-93 | The entries of a run of rows are the entries of its two halves, one after the other. |
| BulkLemmas.EntriesBetweenAt | src/Keboola/ElasticsearchWriter/Writer.php:77-93 | Within a run of rows, row j makes entries 2(j - lo) and 2(j - lo) + 1: its directive (index, type and optional id from the options and the row), then its field map. |
| BulkLemmas.EntriesAt | src/Keboola/ElasticsearchWriter/Writer.php:63-93 | Data row j makes body entries 2j and 2j + 1, the directive and then the document. The directive has an id only when an id column is used. |
| BulkLemmas.DirectiveCarriesId | src/Keboola/ElasticsearchWriter/Writer.php:71-83 | With an id column, row j's directive carries the row's value in that column (its last occurrence in the header) as `_id`. |
| BulkLemmas.BatchAt | src/Keboola/ElasticsearchWriter/Writer.php:95-112 | Batch k holds the entries of rows kB .. (k+1)B - 1, cut short at the last row, and is never empty. |
| BulkLemmas.FullBatch | src/Keboola/ElasticsearchWriter/Writer.php:95-112 | A batch that the rows fill holds exactly its B rows. |
| BulkLemmas.LastBatch | src/Keboola/ElasticsearchWriter/Writer.php:133-140 | When the rows end inside batch m + 1, it is the last batch and holds the rest of the rows. |
| BulkLemmas.BatchesFlattenFrom | src/Keboola/ElasticsearchWriter/Writer.php:93-140 | The batches from batch m on, one after the other, are the entries of the rows from row mB on. |
| BulkLemmas.BatchesFlatten | src/Keboola/ElasticsearchWriter/Writer.php:93-140 | All batches, one after the other, are the entries of all data rows in order. |
| BulkLemmas.BatchesWhenDivisible | src/Keboola/ElasticsearchWriter/Writer.php:95-133 | When B divides N, there are N / B batches of exactly 2B entries each. |
| BulkLemmas.SendAppend | src/Keboola/ElasticsearchWriter/Writer.php:95-130 | Sending two lists of batches, the second after the first was accepted, is sending them one after the other. |
| BulkLemmas.SendStops | src/Keboola/ElasticsearchWriter/Writer.php:114-126 | Once a list of batches fails, the batches after it are not sent and the outcome stays the same. |
| BulkLemmas.SendAccepted | src/Keboola/ElasticsearchWriter/Writer.php:95-128 | Sending succeeds exactly when no response has its `errors` flag set. Then every batch is sent, and each logs a start and a took record. |
| BulkLemmas.SendRejected | src/Keboola/ElasticsearchWriter/Writer.php:114-126 | At the first rejected response j, sending stops with false after batch j. The log is the accepted records, then that batch's records. |
| BulkLemmas.ItemErrorRecordsMatch | src/Keboola/ElasticsearchWriter/Writer.php:115-123 | A failed response logs exactly one error record per item with status 400 or more and a non-empty error, in item order, with that item's id and error. |
| BulkLemmas.ItemErrorRecordsAreErrors | src/Keboola/ElasticsearchWriter/Writer.php:223-240 | Every item error record is at error level. |
| BulkLemmas.AcceptedRecordsHaveNoErrors | src/Keboola/ElasticsearchWriter/Writer.php:96-110 | Accepted requests log nothing at error level. |
| BulkLemmas.FalsyIdColumn | src/Keboola/ElasticsearchWriter/Writer.php:71-71 | An id column of "" or "0" loads exactly as no id column does. |
| BulkLemmas.LoadMissingIdColumn | src/Keboola/ElasticsearchWriter/Writer.php:71-75 | An id column missing from the header fails the load on line 2. There is one error record naming the column and the line, and no request. |
| BulkLemmas.NoDataRows | src/Keboola/ElasticsearchWriter/Writer.php:133-167 | A file without data rows loads with true, no request and no log record. |
| BulkLemmas.LoadVerdict | src/Keboola/ElasticsearchWriter/Writer.php:56-168 | A load succeeds exactly when it has no data rows, or when its id column resolves and none of its ceil(N / B) responses has the `errors` flag set. |
| BulkLemmas.LoadAllAccepted | src/Keboola/ElasticsearchWriter/Writer.php:95-167 | When every response is accepted, the load returns true after ceil(N / B) requests. The bodies, one after the other, are the entries of rows 1..N in order, and each request logs a start and a took record. |
| BulkLemmas.LoadSendsPrefixOfBatches | src/Keboola/ElasticsearchWriter/Writer.php:95-130 | What a load sends is a prefix of its batches. It sends something only when there are data rows and the id column resolves. |
| BulkLemmas.LoadSendsPrefixOfEntries | src/Keboola/ElasticsearchWriter/Writer.php:63-67 | What was sent, one body after the other, is a prefix of the data rows' entries. The header row is never sent. |
| BulkLemmas.LoadDivisibleHasNoTrailingBatch | src/Keboola/ElasticsearchWriter/Writer.php:133-133 | When B divides N, every request holds exactly 2B entries, so there is no short trailing request. |
| BulkLemmas.LoadBatchContents | src/Keboola/ElasticsearchWriter/Writer.php:63-112 | Request k + 1 of a load carries exactly data rows kB + 1 .. (k+1)B, cut short at the last row, whatever the outcome. |
| BulkLemmas.LoadStopsAtFirstRejected | src/Keboola/ElasticsearchWriter/Writer.php:114-126 | At the first rejected response j the load returns false after j + 1 requests. Its log is the accepted records and then that request's records, and its error records number exactly the reported items of response j. |
| BulkLemmas.RejectedLogErrors | src/Keboola/ElasticsearchWriter/Writer.php:150-162 | The error records of such a log are exactly those of the rejected response's reported items. |
| BulkLemmas.SendPrefixNext | src/Keboola/ElasticsearchWriter/Writer.php:96-128 | After m accepted batches, batch m + 1 adds its body to what was sent and its records to the log, and decides whether sending goes on. |
| BulkLemmas.ProgressPending | src/Keboola/ElasticsearchWriter/Writer.php:60-130 | The body and the batch number kept row by row are the closed-form ones: after `done` rows the body holds the rows since the current batch began, and the batches before it are full. |
| BulkLemmas.ProgressFlush | src/Keboola/ElasticsearchWriter/Writer.php:95-112 | A row whose number is a multiple of B completes the body into batch `iBulk`, then leaves an empty body and batch `iBulk` + 1 next. |
| BulkLemmas.PendingEnd | src/Keboola/ElasticsearchWriter/Writer.php:133-165 | After the last row, a non-empty body is the last batch, `iBulk`. An empty body means the batches before `iBulk` were all of them. |

## Left out

- The constructor, `ClientBuilder` host setup, `getClient` and
  `enableLogger` (Writer.php lines 28-48) are not modelled. They are
  connection and logger plumbing. The model's `Writer` is built from a
  `Client` and a `Logger` directly.
- `listIndices` and `listIndiceMappings` (Writer.php lines 190-221) are not
  modelled. They only copy the keys of a client response into records.
- The network bulk call and its timing are not modelled. `Client` answers
  from a fixed list of responses, and `took` is just a number echoed into
  a log line.
- A bulk call that fails at the transport level is not modelled. The
  source does not catch it, so it ends the load with an exception.
- CSV parsing is not modelled: the file is a sequence of rows of strings.
  `array_combine` on a row whose length differs from the header's depends
  on the PHP version (a warning and `false`, or an exception). A load
  therefore requires every row to be as long as the header
  (`Rectangular`).
- A bulk size of 0 or less is not modelled. The source uses it as a
  modulus, so a load requires `bulkSize > 0`.
- ElasticsearchWriter.Writer.LoadFile: requires the client to hold at least
  ceil(N / B) more responses, one for each request the load could make.
  The oracle needs this; the source does not.
- The order of the fields in a document is not modelled: a document is a
  `map`, while a PHP array also keeps insertion order.
- The operation key of each response item (`key($itemResult)`) is not
  modelled. An item is the value under that key.
- The PHP value types inside a response are not modelled. `status` and
  `took` are integers, `errors` is a boolean that stands for "not
  `false`", and an error field is absent, a string, or an object of which
  only `type` and `reason` are read. Other scalar error values (numbers,
  booleans) and how `sprintf("%s")` prints them are not modelled.
- Log records hold the arguments of each `sprintf`. `BulkSpec.Text` gives
  the formatted line. The `%d` conversion is modelled only for integers.
- ElasticsearchWriter.Writer.SendBatch: the client and the logger keep
  separate lists, so no contract states the order of the start and took
  records relative to the bulk call itself (start before it, took after
  it, Writer.php lines 96-110). Only the order among the log records is
  stated.
