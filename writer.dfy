/**
 * The writer itself: Writer::loadFile walks the CSV file line by line,
 * builds the bulk body in a buffer, flushes it every `bulkSize` data rows
 * and once more at the end, and logs as it goes. The Elasticsearch client
 * and the PSR logger are modelled as objects that record what they are
 * given; LoadFile is proved to leave them exactly as `BulkSpec.Load` says.
 */
module ElasticsearchWriter {

  import opened Wrappers
  import opened Arithmetic
  import opened BulkSpec
  import opened BulkLemmas

  /**
   * The bulk endpoint of the Elasticsearch client. The cluster's answers are
   * fixed in advance: the k-th bulk request ever made gets `replies[k]`.
   * `sent` holds the bodies of the requests made so far.
   */
  class Client {
    const replies: seq<BulkResponse>
    var sent: seq<seq<Entry>>

    constructor(replies: seq<BulkResponse>)
      ensures this.replies == replies && sent == []
    {
      this.replies := replies;
      sent := [];
    }

    method Bulk(body: seq<Entry>) returns (response: BulkResponse)
      requires |sent| < |replies|
      modifies this
      ensures sent == old(sent) + [body]
      ensures response == replies[|old(sent)|]
    {
      response := replies[|sent|];
      sent := sent + [body];
    }
  }

  /** A logger that keeps every record it is given, in order. */
  class Logger {
    var records: seq<Record>

    constructor()
      ensures records == []
    {
      records := [];
    }

    method Info(message: Message)
      modifies this
      ensures records == old(records) + [Record(Level.Info, message)]
    {
      records := records + [Record(Level.Info, message)];
    }

    method Error(message: Message)
      modifies this
      ensures records == old(records) + [Record(Level.Error, message)]
    {
      records := records + [Record(Level.Error, message)];
    }
  }

  class Writer {
    const client: Client
    const logger: Logger

    constructor(client: Client, logger: Logger)
      ensures this.client == client && this.logger == logger
    {
      this.client := client;
      this.logger := logger;
    }

    /**
     * Loads the rows of `file` (its first row the header) into the index
     * and type of `options`, in bulk requests of `options.bulkSize` rows.
     * Returns false, and stops, at the first request whose response has
     * its `errors` flag set, or at a row without the id column.
     */
    method LoadFile(file: seq<seq<string>>, options: LoadOptions, primaryIndex: Option<string>) returns (ok: bool)
      requires options.bulkSize > 0 && Rectangular(Header(file), DataRows(file))
      requires |client.sent| + CeilDiv(|DataRows(file)|, options.bulkSize) <= |client.replies|
      modifies client, logger
      ensures var o := Load(file, options, primaryIndex, client.replies[|old(client.sent)|..]);
        && ok == o.ok
        && client.sent == old(client.sent) + o.sent
        && logger.records == old(logger.records) + o.log
    {
      ghost var sent0, log0 := client.sent, logger.records;
      var body: seq<Entry> := [];
      var iBulk := 1;
      var i := 0;
      LoadingStart(file, options, primaryIndex, sent0, log0);
      while i < |file|
        invariant Loading(file, options, primaryIndex, i, body, iBulk, sent0, log0)
      {
        var stop;
        body, iBulk, stop := LoadLine(file, options, primaryIndex, i, body, iBulk, sent0, log0);
        if stop {
          return false;
        }
        i := i + 1;
      }
      ok := Finish(file, options, primaryIndex, body, iBulk, sent0, log0);
    }

    /**
     * The state of a load before line i of the file (line 0 the header):
     * the body and the batch number are those the data rows before line i
     * leave (`Progress`), the id column resolves once a row was handled, and
     * every batch before batch `iBulk` was sent and accepted.
     */
    ghost predicate Loading(file: seq<seq<string>>, options: LoadOptions, primaryIndex: Option<string>, i: nat,
                            body: seq<Entry>, iBulk: nat, sent0: seq<seq<Entry>>, log0: seq<Record>)
      reads client, logger
    {
      && i <= |file| && options.bulkSize > 0 && Rectangular(Header(file), DataRows(file))
      && (i > 1 ==> IdResolvable(Header(file), IdColumn(primaryIndex)))
      && (body, iBulk) == Progress(Header(file), DataRows(file), options, IdColumn(primaryIndex), if i == 0 then 0 else i - 1)
      && |sent0| + CeilDiv(|DataRows(file)|, options.bulkSize) <= |client.replies|
      && Accepted(options, Batches(Header(file), DataRows(file), options, IdColumn(primaryIndex)), iBulk - 1, sent0, log0)
    }

    /**
     * Line i of the file. Line 0, the header, is skipped. A data row's index
     * directive and document join the body, and when i is a multiple of the
     * bulk size the body goes out. Stops, with the outcome of the whole load,
     * at a row without the id column or at a rejected request.
     */
    method LoadLine(file: seq<seq<string>>, options: LoadOptions, primaryIndex: Option<string>, i: nat,
                    body: seq<Entry>, iBulk: nat, ghost sent0: seq<seq<Entry>>, ghost log0: seq<Record>)
      returns (next: seq<Entry>, nextBulk: nat, stop: bool)
      requires i < |file| && Loading(file, options, primaryIndex, i, body, iBulk, sent0, log0)
      modifies client, logger
      ensures !stop ==> Loading(file, options, primaryIndex, i + 1, next, nextBulk, sent0, log0)
      ensures stop ==> var o := Load(file, options, primaryIndex, client.replies[|sent0|..]);
        && !o.ok
        && client.sent == sent0 + o.sent
        && logger.records == log0 + o.log
    {
      if i == 0 {
        return body, iBulk, false;
      }
      var header, idColumn := Header(file), IdColumn(primaryIndex);
      ghost var rows := DataRows(file);
      RowColumns(file, i);

      var lineData := Combine(header, file[i]);
      var id := None;
      if idColumn.Some? {
        if idColumn.value !in lineData {
          MissingIdColumnStops(file, options, primaryIndex, i, body, iBulk, sent0, log0);
          logger.Error(MissingIdColumn(idColumn.value, i + 1));
          return body, iBulk, true;
        }
        id := Some(lineData[idColumn.value]);
      }
      next := body + [Directive(options.index, options.docType, id)];
      next := next + [Doc(lineData)];
      assert next == body + RowEntries(header, rows[i - 1], options, idColumn);

      // the flush test `i % bulkSize == 0` (see Arithmetic.MultipleIsMod)
      if IsMultiple(i, options.bulkSize) {
        next, nextBulk, stop := FlushLine(file, options, primaryIndex, i, body, next, iBulk, sent0, log0);
      } else {
        LoadingRow(file, options, primaryIndex, i, body, iBulk, sent0, log0);
        nextBulk, stop := iBulk, false;
      }
    }

    /**
     * A row without the id column: nothing was sent yet, and the load's
     * outcome is that row's error record.
     */
    lemma MissingIdColumnStops(file: seq<seq<string>>, options: LoadOptions, primaryIndex: Option<string>, i: nat,
                               body: seq<Entry>, iBulk: nat, sent0: seq<seq<Entry>>, log0: seq<Record>)
      requires 1 <= i < |file| && Loading(file, options, primaryIndex, i, body, iBulk, sent0, log0)
      requires !IdResolvable(Header(file), IdColumn(primaryIndex))
      ensures var o := Load(file, options, primaryIndex, client.replies[|sent0|..]);
        && !o.ok
        && client.sent == sent0 + o.sent
        && logger.records + [Record(Error, MissingIdColumn(IdColumn(primaryIndex).value, i + 1))] == log0 + o.log
    {
      LoadMissingIdColumn(file, options, IdColumn(primaryIndex).value, client.replies[|sent0|..]);
      assert Batches(Header(file), DataRows(file), options, IdColumn(primaryIndex))[..0] == [];
    }

    /** A row that does not complete a batch only joins the body. */
    lemma LoadingRow(file: seq<seq<string>>, options: LoadOptions, primaryIndex: Option<string>, i: nat,
                     body: seq<Entry>, iBulk: nat, sent0: seq<seq<Entry>>, log0: seq<Record>)
      requires 1 <= i < |file| && Loading(file, options, primaryIndex, i, body, iBulk, sent0, log0)
      requires IdResolvable(Header(file), IdColumn(primaryIndex)) && !IsMultiple(i, options.bulkSize)
      ensures Loading(file, options, primaryIndex, i + 1,
                      body + RowEntries(Header(file), DataRows(file)[i - 1], options, IdColumn(primaryIndex)), iBulk, sent0, log0)
    {
      var header, rows, idColumn := Header(file), DataRows(file), IdColumn(primaryIndex);
      assert Progress(header, rows, options, idColumn, i) == (body + RowEntries(header, rows[i - 1], options, idColumn), iBulk);
    }

    /**
     * Line i completes batch `iBulk`: the body `next` goes out, and the load
     * stops if the request is rejected.
     */
    method FlushLine(file: seq<seq<string>>, options: LoadOptions, primaryIndex: Option<string>, i: nat,
                     body: seq<Entry>, next: seq<Entry>, iBulk: nat, ghost sent0: seq<seq<Entry>>, ghost log0: seq<Record>)
      returns (rest: seq<Entry>, nextBulk: nat, stop: bool)
      requires 1 <= i < |file| && Loading(file, options, primaryIndex, i, body, iBulk, sent0, log0)
      requires IdResolvable(Header(file), IdColumn(primaryIndex)) && IsMultiple(i, options.bulkSize)
      requires next == body + RowEntries(Header(file), DataRows(file)[i - 1], options, IdColumn(primaryIndex))
      modifies client, logger
      ensures !stop ==> Loading(file, options, primaryIndex, i + 1, rest, nextBulk, sent0, log0)
      ensures stop ==> var o := Load(file, options, primaryIndex, client.replies[|sent0|..]);
        && !o.ok
        && client.sent == sent0 + o.sent
        && logger.records == log0 + o.log
    {
      var header, idColumn := Header(file), IdColumn(primaryIndex);
      ghost var rows, replies := DataRows(file), client.replies[|sent0|..];
      ghost var batches := Batches(header, rows, options, idColumn);
      ProgressFlush(header, rows, options, idColumn, i - 1, body, iBulk);
      var failed := Flush(next, options, iBulk, batches, sent0, log0);
      rest := [];
      if failed {
        SendPrefixStops(options, batches, replies, iBulk);
        LoadIsSend(file, options, primaryIndex, replies);
        return rest, iBulk, true;
      }
      nextBulk, stop := iBulk + 1, false;
    }

    /**
     * After the last line: the rows still in the body go out as the last
     * batch, and the load's verdict is returned.
     */
    method Finish(file: seq<seq<string>>, options: LoadOptions, primaryIndex: Option<string>,
                  body: seq<Entry>, iBulk: nat, ghost sent0: seq<seq<Entry>>, ghost log0: seq<Record>)
      returns (ok: bool)
      requires Loading(file, options, primaryIndex, |file|, body, iBulk, sent0, log0)
      modifies client, logger
      ensures var o := Load(file, options, primaryIndex, client.replies[|sent0|..]);
        && ok == o.ok
        && client.sent == sent0 + o.sent
        && logger.records == log0 + o.log
    {
      var header, idColumn := Header(file), IdColumn(primaryIndex);
      ghost var replies := client.replies[|sent0|..];
      ghost var batches := Batches(header, DataRows(file), options, idColumn);
      ProgressPending(header, DataRows(file), options, idColumn, |DataRows(file)|);
      PendingEnd(header, DataRows(file), options, idColumn, body, iBulk);
      if body != [] {
        var failed := Flush(body, options, iBulk, batches, sent0, log0);
        assert batches[..iBulk] == batches;
        LoadIsSend(file, options, primaryIndex, replies);
        if failed {
          return false;
        }
      } else if DataRows(file) != [] {
        assert batches[..iBulk - 1] == batches;
        LoadIsSend(file, options, primaryIndex, replies);
      }
      return true;
    }

    /**
     * The client and the logger hold what sending the first m batches of a
     * load adds to what they held before it (`sent0`, `log0`), and each of
     * those m batches was accepted.
     */
    ghost predicate Accepted(options: LoadOptions, batches: seq<seq<Entry>>, m: nat,
                             sent0: seq<seq<Entry>>, log0: seq<Record>)
      reads client, logger
    {
      && m <= |batches| && |sent0| + |batches| <= |client.replies| && |client.sent| == |sent0| + m
      && (var o := Send(options, batches[..m], client.replies[|sent0|..], 1);
          o.ok && client.sent == sent0 + o.sent && logger.records == log0 + o.log)
    }

    /** Before the first line nothing is pending, nothing is sent and nothing is logged. */
    lemma LoadingStart(file: seq<seq<string>>, options: LoadOptions, primaryIndex: Option<string>,
                       sent0: seq<seq<Entry>>, log0: seq<Record>)
      requires options.bulkSize > 0 && Rectangular(Header(file), DataRows(file))
      requires client.sent == sent0 && logger.records == log0
      requires |sent0| + CeilDiv(|DataRows(file)|, options.bulkSize) <= |client.replies|
      ensures Loading(file, options, primaryIndex, 0, [], 1, sent0, log0)
    {
      var batches := Batches(Header(file), DataRows(file), options, IdColumn(primaryIndex));
      assert batches[..0] == [];
      assert sent0 + [] == sent0 && log0 + [] == log0;
    }

    /**
     * A flush: batch iBulk of the load goes out as one bulk request, after
     * the batches before it were all accepted. Returns whether it failed.
     */
    method Flush(body: seq<Entry>, options: LoadOptions, iBulk: nat, ghost batches: seq<seq<Entry>>,
                 ghost sent0: seq<seq<Entry>>, ghost log0: seq<Record>) returns (failed: bool)
      requires 1 <= iBulk <= |batches| && body == batches[iBulk - 1]
      requires Accepted(options, batches, iBulk - 1, sent0, log0)
      modifies client, logger
      ensures var o := Send(options, batches[..iBulk], client.replies[|sent0|..], 1);
        failed == !o.ok && client.sent == sent0 + o.sent && logger.records == log0 + o.log
      ensures !failed ==> Accepted(options, batches, iBulk, sent0, log0)
    {
      SendPrefixNext(options, batches, client.replies[|sent0|..], iBulk - 1, sent0, log0);
      failed := SendBatch(body, options, iBulk);
      assert |client.sent| == |sent0| + iBulk;
    }

    /**
     * One bulk request: a start record, the request, a took record, and,
     * when the response's `errors` flag is set, the item error records.
     * Returns whether that flag was set.
     */
    method SendBatch(body: seq<Entry>, options: LoadOptions, iBulk: int) returns (failed: bool)
      requires |client.sent| < |client.replies|
      modifies client, logger
      ensures var response := client.replies[|old(client.sent)|];
        && failed == response.errors
        && client.sent == old(client.sent) + [body]
        && logger.records == old(logger.records) + BatchRecords(options, iBulk, response)
    {
      logger.Info(BatchStart(options.docType, iBulk, options.index));
      var response := client.Bulk(body);
      logger.Info(BatchTook(options.docType, iBulk, options.index, response.took));
      failed := response.errors;
      if failed {
        LogItemErrors(response.items);
      }
    }

    /** Every item with an error status goes through LogItemError, in order. */
    method LogItemErrors(items: seq<Item>)
      modifies logger
      ensures logger.records == old(logger.records) + ItemErrorRecords(items)
    {
      var k := 0;
      while k < |items|
        invariant 0 <= k <= |items|
        invariant logger.records == old(logger.records) + ItemErrorRecords(items[..k])
      {
        var item := items[k];
        assert items[..k + 1][..k] == items[..k];
        if item.status >= 400 {
          LogItemError(item);
        }
        k := k + 1;
      }
      assert items[..|items|] == items;
    }

    /** logItemError: an error record for the item, unless its error field is empty. */
    method LogItemError(item: Item)
      modifies logger
      ensures !IsEmpty(item.error) ==> logger.records == old(logger.records) + [Record(Level.Error, ItemFailure(item.id, item.error))]
      ensures IsEmpty(item.error) ==> logger.records == old(logger.records)
    {
      if !IsEmpty(item.error) {
        logger.Error(ItemFailure(item.id, item.error));
      }
    }
  }
}
