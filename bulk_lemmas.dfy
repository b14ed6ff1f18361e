/**
 * What the bulk loader promises, proved about the reference definition in
 * module BulkSpec: which rows land in which request, how many requests are
 * made, where a load stops, and what it logs.
 */
module BulkLemmas {

  import opened Wrappers
  import opened Arithmetic
  import opened BulkSpec

  // ---------------------------------------------------------------------
  // Sequences
  // ---------------------------------------------------------------------

  /** The first n + 1 elements of s are its head and the first n of its tail. */
  lemma TakeCons<T>(s: seq<T>, n: nat)
    requires n < |s|
    ensures s[..n + 1] == [s[0]] + s[1..][..n]
  {
  }

  /** Flattening from item m on is item m followed by the flattening from item m + 1 on. */
  lemma FlattenAt(bs: seq<seq<Entry>>, m: nat)
    requires m < |bs|
    ensures Flatten(bs[m..]) == bs[m] + Flatten(bs[m + 1..])
  {
    assert bs[m..][1..] == bs[m + 1..];
  }

  lemma AppendEmpty<T>(a: seq<T>)
    ensures a + [] == a
  {
  }

  lemma AppendAssociative<T>(a: seq<T>, b: seq<T>, c: seq<T>)
    ensures a + (b + c) == (a + b) + c
  {
  }

  // ---------------------------------------------------------------------
  // Documents
  // ---------------------------------------------------------------------

  lemma {:induction false} CombineFirstValue(header: seq<string>, row: seq<string>, n: nat, j: nat)
    requires n <= |header| && n <= |row| && j < n && header[j] !in header[j + 1..n]
    ensures header[j] in CombineFirst(header, row, n) && CombineFirst(header, row, n)[header[j]] == row[j]
    decreases n
  {
    if j < n - 1 {
      assert header[n - 1] in header[j + 1..n];
      assert header[j] !in header[j + 1..n - 1] by {
        forall k | j + 1 <= k < n - 1 ensures header[k] != header[j] {
          assert header[k] == header[j + 1..n][k - j - 1];
        }
      }
      CombineFirstValue(header, row, n - 1, j);
    }
  }

  /** A field's value is the row's value in the last column with that name. */
  lemma CombineValue(header: seq<string>, row: seq<string>, j: nat)
    requires |header| == |row| && j < |header| && header[j] !in header[j + 1..]
    ensures header[j] in Combine(header, row) && Combine(header, row)[header[j]] == row[j]
  {
    assert header[j + 1..|header|] == header[j + 1..];
    CombineFirstValue(header, row, |header|, j);
  }

  /** The entries of rows lo .. mid - 1 followed by those of mid .. hi - 1 are those of lo .. hi - 1. */
  lemma {:induction false} EntriesSplit(header: seq<string>, rows: seq<seq<string>>, options: LoadOptions,
                                        idColumn: Option<string>, lo: nat, mid: nat, hi: nat)
    requires lo <= mid <= hi <= |rows|
    ensures EntriesBetween(header, rows, options, idColumn, lo, hi)
            == EntriesBetween(header, rows, options, idColumn, lo, mid) + EntriesBetween(header, rows, options, idColumn, mid, hi)
    decreases hi - mid
  {
    if mid < hi {
      EntriesSplit(header, rows, options, idColumn, lo, mid, hi - 1);
    }
  }

  /**
   * Among the entries of rows lo .. hi - 1, data row j contributes entries
   * 2(j - lo) and 2(j - lo) + 1: its index directive (carrying the id
   * column's value when there is one) and its field map.
   */
  lemma {:induction false} EntriesBetweenAt(header: seq<string>, rows: seq<seq<string>>, options: LoadOptions,
                                            idColumn: Option<string>, lo: nat, hi: nat, j: nat)
    requires lo <= j < hi <= |rows|
    ensures var es, doc := EntriesBetween(header, rows, options, idColumn, lo, hi), Combine(header, rows[j]);
      && es[2 * (j - lo)]
         == Directive(options.index, options.docType,
                      if idColumn.Some? && idColumn.value in doc then Some(doc[idColumn.value]) else None)
      && es[2 * (j - lo) + 1] == Doc(doc)
    decreases hi
  {
    if j < hi - 1 {
      EntriesBetweenAt(header, rows, options, idColumn, lo, hi - 1, j);
    }
  }

  /** Data row j contributes body entries 2j and 2j + 1. */
  lemma EntriesAt(header: seq<string>, rows: seq<seq<string>>, options: LoadOptions, idColumn: Option<string>, j: nat)
    requires j < |rows|
    ensures var doc := Combine(header, rows[j]);
      && Entries(header, rows, options, idColumn)[2 * j]
         == Directive(options.index, options.docType,
                      if idColumn.Some? && idColumn.value in doc then Some(doc[idColumn.value]) else None)
      && Entries(header, rows, options, idColumn)[2 * j + 1] == Doc(doc)
  {
    EntriesBetweenAt(header, rows, options, idColumn, 0, |rows|, j);
  }

  /**
   * With an id column whose last occurrence in the header is column p, the
   * directive of data row j carries that row's value in column p as `_id`.
   */
  lemma DirectiveCarriesId(header: seq<string>, rows: seq<seq<string>>, options: LoadOptions,
                           column: string, p: nat, j: nat)
    requires Rectangular(header, rows) && j < |rows|
    requires p < |header| && header[p] == column && column !in header[p + 1..]
    ensures Entries(header, rows, options, Some(column))[2 * j]
            == Directive(options.index, options.docType, Some(rows[j][p]))
  {
    EntriesAt(header, rows, options, Some(column), j);
    CombineValue(header, rows[j], p);
  }

  // ---------------------------------------------------------------------
  // Batches
  // ---------------------------------------------------------------------

  /**
   * Batch k holds the entries of data rows k·B .. (k+1)·B (fewer in the last
   * batch), B being the bulk size.
   */
  lemma BatchAt(header: seq<string>, rows: seq<seq<string>>, options: LoadOptions, idColumn: Option<string>, k: nat)
    requires options.bulkSize > 0 && k < |Batches(header, rows, options, idColumn)|
    ensures var size := options.bulkSize;
      var lo, hi := Offset(k, size), if Offset(k + 1, size) < |rows| then Offset(k + 1, size) else |rows|;
      && lo < hi <= |rows|
      && Batches(header, rows, options, idColumn)[k] == EntriesBetween(header, rows, options, idColumn, lo, hi)
  {
    CeilStarts(k, |rows|, options.bulkSize);
  }

  /** Batch m + 1, when the rows reach its end, holds rows Offset(m, B) .. Offset(m + 1, B). */
  lemma FullBatch(header: seq<string>, rows: seq<seq<string>>, options: LoadOptions, idColumn: Option<string>, m: nat)
    requires options.bulkSize > 0 && Offset(m + 1, options.bulkSize) <= |rows|
    ensures var batches, size := Batches(header, rows, options, idColumn), options.bulkSize;
      && m < |batches|
      && batches[m] == EntriesBetween(header, rows, options, idColumn, Offset(m, size), Offset(m + 1, size))
  {
    CeilStarts(m, |rows|, options.bulkSize);
  }

  /** When the rows end inside batch m + 1, it is the last batch and holds the rest of the rows. */
  lemma LastBatch(header: seq<string>, rows: seq<seq<string>>, options: LoadOptions, idColumn: Option<string>, m: nat)
    requires options.bulkSize > 0 && Offset(m, options.bulkSize) < |rows| <= Offset(m + 1, options.bulkSize)
    ensures var batches, size := Batches(header, rows, options, idColumn), options.bulkSize;
      && |batches| == m + 1
      && batches[m] == EntriesBetween(header, rows, options, idColumn, Offset(m, size), |rows|)
  {
    CeilStarts(m, |rows|, options.bulkSize);
    CeilStarts(m + 1, |rows|, options.bulkSize);
  }

  /** The batches from batch m on, one after the other, are the entries of the rows from Offset(m, B) on. */
  lemma {:induction false} BatchesFlattenFrom(header: seq<string>, rows: seq<seq<string>>, options: LoadOptions,
                                              idColumn: Option<string>, m: nat)
    requires options.bulkSize > 0 && m <= |Batches(header, rows, options, idColumn)|
    ensures var lo := Offset(m, options.bulkSize);
      Flatten(Batches(header, rows, options, idColumn)[m..])
      == EntriesBetween(header, rows, options, idColumn, if lo < |rows| then lo else |rows|, |rows|)
    decreases |Batches(header, rows, options, idColumn)| - m
  {
    var batches := Batches(header, rows, options, idColumn);
    if m < |batches| {
      BatchesFlattenFrom(header, rows, options, idColumn, m + 1);
      BatchesFlattenStep(header, rows, options, idColumn, m);
    } else {
      CeilStarts(m, |rows|, options.bulkSize);
      assert batches[m..] == [];
    }
  }

  /** The step of BatchesFlattenFrom: batch m followed by the rows from Offset(m + 1, B) on. */
  lemma BatchesFlattenStep(header: seq<string>, rows: seq<seq<string>>, options: LoadOptions,
                           idColumn: Option<string>, m: nat)
    requires options.bulkSize > 0 && m < |Batches(header, rows, options, idColumn)|
    requires var hi := Offset(m + 1, options.bulkSize);
      Flatten(Batches(header, rows, options, idColumn)[m + 1..])
      == EntriesBetween(header, rows, options, idColumn, if hi < |rows| then hi else |rows|, |rows|)
    ensures Offset(m, options.bulkSize) < |rows|
    ensures Flatten(Batches(header, rows, options, idColumn)[m..])
            == EntriesBetween(header, rows, options, idColumn, Offset(m, options.bulkSize), |rows|)
  {
    var batches, size := Batches(header, rows, options, idColumn), options.bulkSize;
    var hi := Offset(m + 1, size);
    FlattenAt(batches, m);
    BatchAt(header, rows, options, idColumn, m);
    if hi < |rows| {
      EntriesSplit(header, rows, options, idColumn, Offset(m, size), hi, |rows|);
    } else {
      AppendEmpty(batches[m]);
    }
  }

  /** All batches, one after the other, are the entries of all data rows. */
  lemma BatchesFlatten(header: seq<string>, rows: seq<seq<string>>, options: LoadOptions, idColumn: Option<string>)
    requires options.bulkSize > 0
    ensures Flatten(Batches(header, rows, options, idColumn)) == Entries(header, rows, options, idColumn)
  {
    var batches := Batches(header, rows, options, idColumn);
    BatchesFlattenFrom(header, rows, options, idColumn, 0);
    assert batches[0..] == batches;
  }

  /** When B divides N, there are N / B batches of exactly 2·B entries each. */
  lemma BatchesWhenDivisible(header: seq<string>, rows: seq<seq<string>>, options: LoadOptions,
                             idColumn: Option<string>, m: nat)
    requires options.bulkSize > 0 && |rows| == Offset(m, options.bulkSize)
    ensures |Batches(header, rows, options, idColumn)| == m
    ensures forall k | 0 <= k < m :: |Batches(header, rows, options, idColumn)[k]| == 2 * options.bulkSize
  {
    CeilOfOffset(m, options.bulkSize);
    forall k | 0 <= k < m
      ensures |Batches(header, rows, options, idColumn)[k]| == 2 * options.bulkSize
    {
      OffsetMono(k + 1, m, options.bulkSize);
      FullBatch(header, rows, options, idColumn, k);
    }
  }

  // ---------------------------------------------------------------------
  // Sending
  // ---------------------------------------------------------------------

  /** The log of `count` accepted requests numbered from `batch`: a start and a took record each. */
  function AcceptedRecords(options: LoadOptions, replies: seq<BulkResponse>, batch: int, count: nat): seq<Record>
    requires count <= |replies|
    decreases count
  {
    if count == 0 then []
    else
      [Record(Info, BatchStart(options.docType, batch, options.index)),
       Record(Info, BatchTook(options.docType, batch, options.index, replies[0].took))]
      + AcceptedRecords(options, replies[1..], batch + 1, count - 1)
  }

  /** The index of the first reply, among the first n, whose `errors` flag is set. */
  lemma {:induction false} FirstRejected(replies: seq<BulkResponse>, n: nat) returns (j: nat)
    requires n <= |replies| && exists i | 0 <= i < n :: replies[i].errors
    ensures j < n && replies[j].errors && forall i | 0 <= i < j :: !replies[i].errors
    decreases n
  {
    if replies[0].errors {
      j := 0;
    } else {
      var i :| 0 <= i < n && replies[i].errors;
      assert replies[1..][i - 1] == replies[i];
      var j' := FirstRejected(replies[1..], n - 1);
      j := j' + 1;
      assert forall i | 1 <= i < j :: replies[i] == replies[1..][i - 1];
    }
  }

  lemma ThenAssociative(a: Outcome, b: Outcome, c: Outcome)
    ensures Then(a, Then(b, c)) == Then(Then(a, b), c)
  {
    assert a.sent + (b.sent + c.sent) == (a.sent + b.sent) + c.sent;
    assert a.log + (b.log + c.log) == (a.log + b.log) + c.log;
  }

  /** A request after an outcome `before` adds its body to what was sent and its records to the log. */
  lemma ThenRequest(before: Outcome, options: LoadOptions, body: seq<Entry>, batch: int, response: BulkResponse,
                    sent0: seq<seq<Entry>>, log0: seq<Record>)
    ensures var after := Then(before, Request(options, body, batch, response));
      && after.ok == !response.errors
      && sent0 + after.sent == (sent0 + before.sent) + [body]
      && log0 + after.log == (log0 + before.log) + BatchRecords(options, batch, response)
  {
  }

  /** Sending one batch is one request. */
  lemma SendOne(options: LoadOptions, body: seq<Entry>, replies: seq<BulkResponse>, batch: int)
    requires 1 <= |replies|
    ensures Send(options, [body], replies, batch) == Request(options, body, batch, replies[0])
  {
    var here := Request(options, body, batch, replies[0]);
    if !replies[0].errors {
      assert Send(options, [body], replies, batch) == Then(here, Send(options, [], replies[1..], batch + 1));
      assert here.sent + [] == here.sent && here.log + [] == here.log;
    }
  }

  /** One more batch is one more request, unless sending has already failed. */
  lemma SendSnoc(options: LoadOptions, bs: seq<seq<Entry>>, body: seq<Entry>, replies: seq<BulkResponse>, batch: int)
    requires |bs| < |replies|
    ensures var before := Send(options, bs, replies, batch);
      Send(options, bs + [body], replies, batch)
      == if before.ok then Then(before, Request(options, body, batch + |bs|, replies[|bs|])) else before
  {
    if Send(options, bs, replies, batch).ok {
      SendAppend(options, bs, [body], replies, batch);
      SendOne(options, body, replies[|bs|..], batch + |bs|);
    } else {
      SendStops(options, bs, [body], replies, batch);
    }
  }

  /** After m accepted batches, batch m + 1 is request m + 1 and gets replies[m]. */
  lemma SendNext(options: LoadOptions, bs: seq<seq<Entry>>, body: seq<Entry>, replies: seq<BulkResponse>, m: nat)
    requires |bs| == m < |replies| && Send(options, bs, replies, 1).ok
    ensures Send(options, bs + [body], replies, 1)
            == Then(Send(options, bs, replies, 1), Request(options, body, 1 + m, replies[m]))
  {
    SendSnoc(options, bs, body, replies, 1);
  }

  /** Sending two runs of batches, when the first run succeeds, is sending one after the other. */
  lemma {:induction false} SendAppend(options: LoadOptions, bs: seq<seq<Entry>>, cs: seq<seq<Entry>>,
                                      replies: seq<BulkResponse>, batch: int)
    requires |bs| + |cs| <= |replies| && Send(options, bs, replies, batch).ok
    ensures Send(options, bs + cs, replies, batch)
            == Then(Send(options, bs, replies, batch), Send(options, cs, replies[|bs|..], batch + |bs|))
    decreases |bs|
  {
    if bs == [] {
      assert bs + cs == cs;
    } else {
      var here := Request(options, bs[0], batch, replies[0]);
      var rest := Send(options, bs[1..], replies[1..], batch + 1);
      var after := Send(options, cs, replies[|bs|..], batch + |bs|);
      assert (bs + cs)[0] == bs[0] && (bs + cs)[1..] == bs[1..] + cs;
      assert replies[1..][|bs| - 1..] == replies[|bs|..];
      SendAppend(options, bs[1..], cs, replies[1..], batch + 1);
      assert Send(options, bs + cs, replies, batch) == Then(here, Then(rest, after));
      ThenAssociative(here, rest, after);
    }
  }

  /** Once sending has failed, batches after it change nothing: they are never sent. */
  lemma {:induction false} SendStops(options: LoadOptions, bs: seq<seq<Entry>>, cs: seq<seq<Entry>>,
                                     replies: seq<BulkResponse>, batch: int)
    requires |bs| + |cs| <= |replies| && !Send(options, bs, replies, batch).ok
    ensures Send(options, bs + cs, replies, batch) == Send(options, bs, replies, batch)
    decreases |bs|
  {
    assert (bs + cs)[0] == bs[0];
    if !replies[0].errors {
      assert (bs + cs)[1..] == bs[1..] + cs;
      SendStops(options, bs[1..], cs, replies[1..], batch + 1);
    }
  }

  /** Sending succeeds exactly when no reply for the batches has its `errors` flag set. */
  lemma {:induction false} SendAccepted(options: LoadOptions, bs: seq<seq<Entry>>, replies: seq<BulkResponse>, batch: int)
    requires |bs| <= |replies|
    ensures Send(options, bs, replies, batch).ok <==> forall j | 0 <= j < |bs| :: !replies[j].errors
    ensures Send(options, bs, replies, batch).ok ==>
      Send(options, bs, replies, batch) == Outcome(true, bs, AcceptedRecords(options, replies, batch, |bs|))
    decreases |bs|
  {
    if bs != [] {
      SendAccepted(options, bs[1..], replies[1..], batch + 1);
      assert forall j | 1 <= j < |bs| :: replies[1..][j - 1] == replies[j];
      if !replies[0].errors {
        AcceptedRequestLog(options, bs[0], batch, replies[0]);
        assert bs == [bs[0]] + bs[1..];
      }
    }
  }

  /** An accepted request logs its start and took records and nothing else. */
  lemma AcceptedRequestLog(options: LoadOptions, body: seq<Entry>, batch: int, response: BulkResponse)
    requires !response.errors
    ensures Request(options, body, batch, response).log
            == [Record(Info, BatchStart(options.docType, batch, options.index)),
                Record(Info, BatchTook(options.docType, batch, options.index, response.took))]
  {
    assert BatchRecords(options, batch, response) == BatchRecords(options, batch, response)[..2];
  }

  /**
   * At the first reply with its `errors` flag set (request j + 1), sending
   * stops: the batches up to and including that one were sent, and the log
   * ends with that request's records and its item errors.
   */
  lemma {:induction false} SendRejected(options: LoadOptions, bs: seq<seq<Entry>>, replies: seq<BulkResponse>,
                                        batch: int, j: nat)
    requires |bs| <= |replies| && j < |bs| && replies[j].errors
    requires forall i | 0 <= i < j :: !replies[i].errors
    ensures Send(options, bs, replies, batch)
            == Outcome(false, bs[..j + 1],
                       AcceptedRecords(options, replies, batch, j) + BatchRecords(options, batch + j, replies[j]))
    decreases j
  {
    if j == 0 {
      TakeCons(bs, 0);
    } else {
      var here := Request(options, bs[0], batch, replies[0]);
      var rest := Send(options, bs[1..], replies[1..], batch + 1);
      assert !replies[0].errors;
      assert Send(options, bs, replies, batch) == Then(here, rest);
      assert forall i | 0 <= i < j - 1 :: replies[1..][i] == replies[i + 1];
      SendRejected(options, bs[1..], replies[1..], batch + 1, j - 1);
      assert replies[1..][j - 1] == replies[j] && batch + 1 + (j - 1) == batch + j;
      var accepted := AcceptedRecords(options, replies[1..], batch + 1, j - 1);
      assert rest.log == accepted + BatchRecords(options, batch + j, replies[j]);
      AcceptedRequestLog(options, bs[0], batch, replies[0]);
      assert AcceptedRecords(options, replies, batch, j) == here.log + accepted;
      AppendAssociative(here.log, accepted, BatchRecords(options, batch + j, replies[j]));
      TakeCons(bs, j);
    }
  }

  /**
   * What sending sends is a prefix of the batches: all of them when it
   * succeeds, and up to the batch whose reply has its `errors` flag set when
   * it fails. At least one request is made when there is a batch, and each
   * request logs at least its start and took records.
   */
  lemma {:induction false} SendShape(options: LoadOptions, bs: seq<seq<Entry>>, replies: seq<BulkResponse>, batch: int)
    requires |bs| <= |replies|
    ensures var o := Send(options, bs, replies, batch);
      && o.sent <= bs
      && (o.ok ==> o.sent == bs)
      && (bs != [] ==> o.sent != [])
      && (!o.ok ==> o.sent != [] && replies[|o.sent| - 1].errors)
      && |o.log| >= 2 * |o.sent|
    decreases |bs|
  {
    if bs != [] && !replies[0].errors {
      var here := Request(options, bs[0], batch, replies[0]);
      var rest := Send(options, bs[1..], replies[1..], batch + 1);
      SendShape(options, bs[1..], replies[1..], batch + 1);
      assert Send(options, bs, replies, batch) == Then(here, rest);
      assert bs == [bs[0]] + bs[1..];
      if !rest.ok {
        assert replies[1..][|rest.sent| - 1] == replies[|rest.sent|];
      }
    }
  }

  // ---------------------------------------------------------------------
  // Item errors
  // ---------------------------------------------------------------------

  /** The items that get an error line: status at least 400 and a non-empty error. */
  function ReportedItems(items: seq<Item>): seq<Item>
    decreases |items|
  {
    if items == [] then []
    else
      var n := |items| - 1;
      ReportedItems(items[..n]) + if Reported(items[n]) then [items[n]] else []
  }

  /** Exactly one error record per reported item, in item order, with that item's message. */
  lemma {:induction false} ItemErrorRecordsMatch(items: seq<Item>)
    ensures var reported := ReportedItems(items);
      && |ItemErrorRecords(items)| == |reported|
      && forall k | 0 <= k < |reported| :: ItemErrorRecords(items)[k] == Record(Error, ItemFailure(reported[k].id, reported[k].error))
    decreases |items|
  {
    if items != [] {
      ItemErrorRecordsMatch(items[..|items| - 1]);
    }
  }

  /** How many records of a log are at error level. */
  function ErrorCount(log: seq<Record>): nat
    decreases |log|
  {
    if log == [] then 0
    else ErrorCount(log[..|log| - 1]) + if log[|log| - 1].level == Error then 1 else 0
  }

  lemma {:induction false} ErrorCountAppend(a: seq<Record>, b: seq<Record>)
    ensures ErrorCount(a + b) == ErrorCount(a) + ErrorCount(b)
    decreases |b|
  {
    if b == [] {
      assert a + b == a;
    } else {
      assert (a + b)[..|a + b| - 1] == a + b[..|b| - 1];
      ErrorCountAppend(a, b[..|b| - 1]);
    }
  }

  lemma InfoPairHasNoErrors(first: Message, second: Message)
    ensures ErrorCount([Record(Info, first), Record(Info, second)]) == 0
  {
    var pair := [Record(Info, first), Record(Info, second)];
    assert pair[..1] == [pair[0]];
    assert ErrorCount([pair[0]]) == 0 by {
      assert [pair[0]][..0] == [];
    }
  }

  /** Accepted requests log nothing at error level. */
  lemma {:induction false} AcceptedRecordsHaveNoErrors(options: LoadOptions, replies: seq<BulkResponse>, batch: int, count: nat)
    requires count <= |replies|
    ensures ErrorCount(AcceptedRecords(options, replies, batch, count)) == 0
    decreases count
  {
    if count > 0 {
      var head := [Record(Info, BatchStart(options.docType, batch, options.index)),
                   Record(Info, BatchTook(options.docType, batch, options.index, replies[0].took))];
      AcceptedRecordsHaveNoErrors(options, replies[1..], batch + 1, count - 1);
      ErrorCountAppend(head, AcceptedRecords(options, replies[1..], batch + 1, count - 1));
      InfoPairHasNoErrors(head[0].message, head[1].message);
    }
  }

  /** Every item error record is at error level. */
  lemma {:induction false} ItemErrorRecordsAreErrors(items: seq<Item>)
    ensures ErrorCount(ItemErrorRecords(items)) == |ItemErrorRecords(items)|
    decreases |items|
  {
    if items != [] {
      var n := |items| - 1;
      var tail := if Reported(items[n]) then [Record(Error, ItemFailure(items[n].id, items[n].error))] else [];
      ItemErrorRecordsAreErrors(items[..n]);
      ErrorCountAppend(ItemErrorRecords(items[..n]), tail);
      assert tail != [] ==> tail[..0] == [];
    }
  }

  // ---------------------------------------------------------------------
  // The load
  // ---------------------------------------------------------------------

  /** Null, "" and "0" as id column all load without `_id`. */
  lemma FalsyIdColumn(file: seq<seq<string>>, options: LoadOptions, replies: seq<BulkResponse>)
    requires options.bulkSize > 0 && Rectangular(Header(file), DataRows(file))
    requires CeilDiv(|DataRows(file)|, options.bulkSize) <= |replies|
    ensures Load(file, options, Some(""), replies) == Load(file, options, None, replies)
    ensures Load(file, options, Some("0"), replies) == Load(file, options, None, replies)
  {
  }

  /**
   * An id column missing from the header fails the load on the first data
   * row: one error record naming the column and line 2, and no request.
   */
  lemma LoadMissingIdColumn(file: seq<seq<string>>, options: LoadOptions, column: string, replies: seq<BulkResponse>)
    requires options.bulkSize > 0 && Rectangular(Header(file), DataRows(file))
    requires CeilDiv(|DataRows(file)|, options.bulkSize) <= |replies|
    requires column != "" && column != "0" && column !in Header(file) && |file| >= 2
    ensures Load(file, options, Some(column), replies)
            == Outcome(false, [], [Record(Error, MissingIdColumn(column, 2))])
  {
  }

  /** A file without data rows loads successfully without any request or log record. */
  lemma NoDataRows(file: seq<seq<string>>, options: LoadOptions, primaryIndex: Option<string>, replies: seq<BulkResponse>)
    requires options.bulkSize > 0 && |file| <= 1
    ensures Load(file, options, primaryIndex, replies) == Outcome(true, [], [])
  {
  }

  /**
   * The verdict: a load with data rows succeeds exactly when its id column
   * (if any) is in the header and none of its ceil(N / B) replies has the
   * `errors` flag set.
   */
  lemma LoadVerdict(file: seq<seq<string>>, options: LoadOptions, primaryIndex: Option<string>, replies: seq<BulkResponse>)
    requires options.bulkSize > 0 && Rectangular(Header(file), DataRows(file))
    requires CeilDiv(|DataRows(file)|, options.bulkSize) <= |replies|
    ensures Load(file, options, primaryIndex, replies).ok
            <==> DataRows(file) == []
                 || (IdResolvable(Header(file), IdColumn(primaryIndex))
                     && forall j | 0 <= j < CeilDiv(|DataRows(file)|, options.bulkSize) :: !replies[j].errors)
  {
    var header, rows, idColumn := Header(file), DataRows(file), IdColumn(primaryIndex);
    if rows != [] && IdResolvable(header, idColumn) {
        SendAccepted(options, Batches(header, rows, options, idColumn), replies, 1);
    }
  }

  /**
   * When every reply is accepted: the load returns true after ceil(N / B)
   * requests whose bodies, one after the other, are the entries of data
   * rows 1..N in order, and the log holds a start and a took record for
   * each request, numbered from 1.
   */
  lemma LoadAllAccepted(file: seq<seq<string>>, options: LoadOptions, primaryIndex: Option<string>, replies: seq<BulkResponse>)
    requires options.bulkSize > 0 && Rectangular(Header(file), DataRows(file))
    requires CeilDiv(|DataRows(file)|, options.bulkSize) <= |replies|
    requires DataRows(file) != [] ==> IdResolvable(Header(file), IdColumn(primaryIndex))
    requires forall j | 0 <= j < CeilDiv(|DataRows(file)|, options.bulkSize) :: !replies[j].errors
    ensures var o := Load(file, options, primaryIndex, replies);
      && o.ok
      && |o.sent| == CeilDiv(|DataRows(file)|, options.bulkSize)
      && Flatten(o.sent) == Entries(Header(file), DataRows(file), options, IdColumn(primaryIndex))
      && o.log == AcceptedRecords(options, replies, 1, |o.sent|)
  {
    var header, rows, idColumn := Header(file), DataRows(file), IdColumn(primaryIndex);
    if rows != [] {
      SendAccepted(options, Batches(header, rows, options, idColumn), replies, 1);
      BatchesFlatten(header, rows, options, idColumn);
    }
  }

  /**
   * What a load sends is a prefix of its batches; it sends something only
   * when there are data rows and the id column (if any) is in the header.
   */
  lemma LoadSendsPrefixOfBatches(file: seq<seq<string>>, options: LoadOptions, primaryIndex: Option<string>,
                                 replies: seq<BulkResponse>)
    requires options.bulkSize > 0 && Rectangular(Header(file), DataRows(file))
    requires CeilDiv(|DataRows(file)|, options.bulkSize) <= |replies|
    ensures var o := Load(file, options, primaryIndex, replies);
      o.sent != [] ==>
        && DataRows(file) != [] && IdResolvable(Header(file), IdColumn(primaryIndex))
        && o.sent <= Batches(Header(file), DataRows(file), options, IdColumn(primaryIndex))
  {
    var header, rows, idColumn := Header(file), DataRows(file), IdColumn(primaryIndex);
    if rows != [] && IdResolvable(header, idColumn) {
      var bs := Batches(header, rows, options, idColumn);
      SendAccepted(options, bs, replies, 1);
      if !Load(file, options, primaryIndex, replies).ok {
        var j := FirstRejected(replies, |bs|);
        SendRejected(options, bs, replies, 1, j);
      }
    }
  }

  /**
   * A load makes at most ceil(N / B) requests, and it logs nothing exactly
   * when the file has no data rows.
   */
  lemma LoadShape(file: seq<seq<string>>, options: LoadOptions, primaryIndex: Option<string>, replies: seq<BulkResponse>)
    requires options.bulkSize > 0 && Rectangular(Header(file), DataRows(file))
    requires CeilDiv(|DataRows(file)|, options.bulkSize) <= |replies|
    ensures var o := Load(file, options, primaryIndex, replies);
      && |o.sent| <= CeilDiv(|DataRows(file)|, options.bulkSize)
      && (o.log == [] <==> DataRows(file) == [])
  {
    var header, rows, idColumn := Header(file), DataRows(file), IdColumn(primaryIndex);
    if rows != [] && IdResolvable(header, idColumn) {
      var bs := Batches(header, rows, options, idColumn);
      CeilStarts(0, |rows|, options.bulkSize);
      SendShape(options, bs, replies, 1);
    }
  }

  /** When B divides N, no request is shorter than 2·B entries: there is no trailing request. */
  lemma LoadDivisibleHasNoTrailingBatch(file: seq<seq<string>>, options: LoadOptions, primaryIndex: Option<string>,
                                        replies: seq<BulkResponse>, m: nat)
    requires options.bulkSize > 0 && Rectangular(Header(file), DataRows(file))
    requires CeilDiv(|DataRows(file)|, options.bulkSize) <= |replies|
    requires |DataRows(file)| == m * options.bulkSize
    ensures var o := Load(file, options, primaryIndex, replies);
      forall k | 0 <= k < |o.sent| :: |o.sent[k]| == 2 * options.bulkSize
  {
    var header, rows, idColumn := Header(file), DataRows(file), IdColumn(primaryIndex);
    LoadSendsPrefixOfBatches(file, options, primaryIndex, replies);
    OffsetIsProduct(m, options.bulkSize);
    BatchesWhenDivisible(header, rows, options, idColumn, m);
  }

  /**
   * Request k + 1 of a load carries exactly data rows k·B+1 .. (k+1)·B
   * (counting rows from 1), whatever the load's outcome.
   */
  lemma LoadBatchContents(file: seq<seq<string>>, options: LoadOptions, primaryIndex: Option<string>,
                          replies: seq<BulkResponse>, k: nat)
    requires options.bulkSize > 0 && Rectangular(Header(file), DataRows(file))
    requires CeilDiv(|DataRows(file)|, options.bulkSize) <= |replies|
    requires k < |Load(file, options, primaryIndex, replies).sent|
    ensures var rows, size := DataRows(file), options.bulkSize;
      var lo, hi := k * size, if (k + 1) * size < |rows| then (k + 1) * size else |rows|;
      && IdResolvable(Header(file), IdColumn(primaryIndex))
      && 0 <= lo < hi <= |rows|
      && Load(file, options, primaryIndex, replies).sent[k]
         == EntriesBetween(Header(file), rows, options, IdColumn(primaryIndex), lo, hi)
  {
    var header, rows, idColumn := Header(file), DataRows(file), IdColumn(primaryIndex);
    LoadSendsPrefixOfBatches(file, options, primaryIndex, replies);
    BatchAt(header, rows, options, idColumn, k);
    OffsetIsProduct(k, options.bulkSize);
    OffsetIsProduct(k + 1, options.bulkSize);
  }

  /**
   * The first rejected reply ends the load: request j + 1 is the last one
   * sent, the result is false, and the only error records are one per
   * reported item of that reply.
   */
  lemma LoadStopsAtFirstRejected(file: seq<seq<string>>, options: LoadOptions, primaryIndex: Option<string>,
                                 replies: seq<BulkResponse>, j: nat)
    requires options.bulkSize > 0 && Rectangular(Header(file), DataRows(file))
    requires CeilDiv(|DataRows(file)|, options.bulkSize) <= |replies|
    requires IdResolvable(Header(file), IdColumn(primaryIndex))
    requires j < CeilDiv(|DataRows(file)|, options.bulkSize) && replies[j].errors
    requires forall i | 0 <= i < j :: !replies[i].errors
    ensures var o := Load(file, options, primaryIndex, replies);
      && !o.ok
      && |o.sent| == j + 1
      && o.log == AcceptedRecords(options, replies, 1, j) + BatchRecords(options, j + 1, replies[j])
      && ErrorCount(o.log) == |ReportedItems(replies[j].items)|
  {
    var header, rows, idColumn := Header(file), DataRows(file), IdColumn(primaryIndex);
    SendRejected(options, Batches(header, rows, options, idColumn), replies, 1, j);
    RejectedLogErrors(options, replies, j);
  }

  /** In the log of j accepted requests and a rejected one, the errors are those of the rejected reply's items. */
  lemma RejectedLogErrors(options: LoadOptions, replies: seq<BulkResponse>, j: nat)
    requires j < |replies| && replies[j].errors
    ensures ErrorCount(AcceptedRecords(options, replies, 1, j) + BatchRecords(options, j + 1, replies[j]))
            == |ReportedItems(replies[j].items)|
  {
    var accepted := AcceptedRecords(options, replies, 1, j);
    var head := [Record(Info, BatchStart(options.docType, j + 1, options.index)),
                 Record(Info, BatchTook(options.docType, j + 1, options.index, replies[j].took))];
    var errors := ItemErrorRecords(replies[j].items);
    assert BatchRecords(options, j + 1, replies[j]) == head + errors;
    ErrorCountAppend(accepted, head + errors);
    ErrorCountAppend(head, errors);
    InfoPairHasNoErrors(head[0].message, head[1].message);
    AcceptedRecordsHaveNoErrors(options, replies, 1, j);
    ItemErrorRecordsAreErrors(replies[j].items);
    ItemErrorRecordsMatch(replies[j].items);
  }

  lemma {:induction false} FlattenAppend(a: seq<seq<Entry>>, b: seq<seq<Entry>>)
    ensures Flatten(a + b) == Flatten(a) + Flatten(b)
    decreases |a|
  {
    if a == [] {
      assert a + b == b;
    } else {
      assert (a + b)[1..] == a[1..] + b;
      FlattenAppend(a[1..], b);
    }
  }

  /** Whatever the outcome, what was sent is a prefix of the data rows' entries: the header row is never sent. */
  lemma LoadSendsPrefixOfEntries(file: seq<seq<string>>, options: LoadOptions, primaryIndex: Option<string>,
                                 replies: seq<BulkResponse>)
    requires options.bulkSize > 0 && Rectangular(Header(file), DataRows(file))
    requires CeilDiv(|DataRows(file)|, options.bulkSize) <= |replies|
    ensures Flatten(Load(file, options, primaryIndex, replies).sent)
            <= Entries(Header(file), DataRows(file), options, IdColumn(primaryIndex))
  {
    var header, rows, idColumn := Header(file), DataRows(file), IdColumn(primaryIndex);
    var sent := Load(file, options, primaryIndex, replies).sent;
    LoadSendsPrefixOfBatches(file, options, primaryIndex, replies);
    if sent != [] {
      var bs := Batches(header, rows, options, idColumn);
      BatchesFlatten(header, rows, options, idColumn);
      assert bs == sent + bs[|sent|..];
      FlattenAppend(sent, bs[|sent|..]);
    }
  }

  // ---------------------------------------------------------------------
  // Steps of the imperative loader
  // ---------------------------------------------------------------------

  /**
   * After the first m batches were accepted, batch m + 1 adds its body to
   * what was sent and its records to the log, and decides whether sending
   * goes on.
   */
  lemma SendPrefixNext(options: LoadOptions, bs: seq<seq<Entry>>, replies: seq<BulkResponse>, m: nat,
                       sent0: seq<seq<Entry>>, log0: seq<Record>)
    requires m < |bs| <= |replies| && Send(options, bs[..m], replies, 1).ok
    ensures var before, after := Send(options, bs[..m], replies, 1), Send(options, bs[..m + 1], replies, 1);
      && after.ok == !replies[m].errors
      && sent0 + after.sent == (sent0 + before.sent) + [bs[m]]
      && log0 + after.log == (log0 + before.log) + BatchRecords(options, m + 1, replies[m])
  {
    assert bs[..m + 1] == bs[..m] + [bs[m]];
    SendNext(options, bs[..m], bs[m], replies, m);
    ThenRequest(Send(options, bs[..m], replies, 1), options, bs[m], 1 + m, replies[m], sent0, log0);
  }

  /** Once the first m batches failed, sending all of them is sending those m. */
  lemma SendPrefixStops(options: LoadOptions, bs: seq<seq<Entry>>, replies: seq<BulkResponse>, m: nat)
    requires m <= |bs| <= |replies| && !Send(options, bs[..m], replies, 1).ok
    ensures Send(options, bs, replies, 1) == Send(options, bs[..m], replies, 1)
  {
    assert bs == bs[..m] + bs[m..];
    SendStops(options, bs[..m], bs[m..], replies, 1);
  }

  /** A load of data rows whose id column resolves is the sending of its batches, in order. */
  lemma LoadIsSend(file: seq<seq<string>>, options: LoadOptions, primaryIndex: Option<string>,
                   replies: seq<BulkResponse>)
    requires options.bulkSize > 0 && Rectangular(Header(file), DataRows(file))
    requires CeilDiv(|DataRows(file)|, options.bulkSize) <= |replies|
    requires DataRows(file) != [] && IdResolvable(Header(file), IdColumn(primaryIndex))
    ensures var batches := Batches(Header(file), DataRows(file), options, IdColumn(primaryIndex));
      |batches| <= |replies| && Load(file, options, primaryIndex, replies) == Send(options, batches, replies, 1)
  {
  }

  /**
   * Where the loader stands once `done` data rows are handled: the batches
   * before batch `iBulk` are full and gone, and the rows since then are in
   * `body`.
   */
  ghost predicate Pending(header: seq<string>, rows: seq<seq<string>>, options: LoadOptions, idColumn: Option<string>,
                          done: nat, body: seq<Entry>, iBulk: nat)
  {
    && options.bulkSize > 0 && done <= |rows| && 1 <= iBulk
    && Offset(iBulk - 1, options.bulkSize) <= done < Offset(iBulk - 1, options.bulkSize) + options.bulkSize
    && body == EntriesBetween(header, rows, options, idColumn, Offset(iBulk - 1, options.bulkSize), done)
  }

  /** Before the first data row nothing is pending and batch 1 is next. */
  lemma PendingStart(header: seq<string>, rows: seq<seq<string>>, options: LoadOptions, idColumn: Option<string>)
    requires options.bulkSize > 0
    ensures Pending(header, rows, options, idColumn, 0, [], 1)
  {
  }

  /** Line i of the file (i >= 1) is data row i - 1, as long as the header. */
  lemma RowColumns(file: seq<seq<string>>, i: nat)
    requires Rectangular(Header(file), DataRows(file)) && 1 <= i < |file|
    ensures DataRows(file)[i - 1] == file[i] && |file[i]| == |Header(file)|
  {
  }

  /** Row `hi` adds its two entries after those of rows lo .. hi - 1. */
  lemma EntriesNext(header: seq<string>, rows: seq<seq<string>>, options: LoadOptions, idColumn: Option<string>,
                    lo: nat, hi: nat)
    requires lo <= hi < |rows|
    ensures EntriesBetween(header, rows, options, idColumn, lo, hi + 1)
            == EntriesBetween(header, rows, options, idColumn, lo, hi) + RowEntries(header, rows[hi], options, idColumn)
  {
  }

  /** A data row that does not complete a batch (row count not a multiple of B) joins the body. */
  lemma PendingRow(header: seq<string>, rows: seq<seq<string>>, options: LoadOptions, idColumn: Option<string>,
                   done: nat, body: seq<Entry>, iBulk: nat)
    requires options.bulkSize > 0 && Pending(header, rows, options, idColumn, done, body, iBulk) && done < |rows|
    requires !IsMultiple(done + 1, options.bulkSize)
    ensures Pending(header, rows, options, idColumn, done + 1,
                    body + RowEntries(header, rows[done], options, idColumn), iBulk)
  {
    FlushPoint(iBulk - 1, done + 1, options.bulkSize);
    EntriesNext(header, rows, options, idColumn, Offset(iBulk - 1, options.bulkSize), done);
  }

  /**
   * A data row that completes batch `iBulk` (row count a multiple of B)
   * completes the body into that batch.
   */
  lemma FlushedBatch(header: seq<string>, rows: seq<seq<string>>, options: LoadOptions, idColumn: Option<string>,
                     done: nat, body: seq<Entry>, iBulk: nat)
    requires options.bulkSize > 0 && 1 <= iBulk && done < |rows|
    requires Offset(iBulk - 1, options.bulkSize) <= done && done + 1 == Offset(iBulk, options.bulkSize)
    requires body == EntriesBetween(header, rows, options, idColumn, Offset(iBulk - 1, options.bulkSize), done)
    ensures var batches := Batches(header, rows, options, idColumn);
      && iBulk <= |batches|
      && body + RowEntries(header, rows[done], options, idColumn) == batches[iBulk - 1]
  {
    FullBatch(header, rows, options, idColumn, iBulk - 1);
  }

  /** After a flush, nothing is pending and batch `iBulk` + 1 is next. */
  lemma PendingFlush(header: seq<string>, rows: seq<seq<string>>, options: LoadOptions, idColumn: Option<string>,
                     done: nat, body: seq<Entry>, iBulk: nat)
    requires options.bulkSize > 0 && Pending(header, rows, options, idColumn, done, body, iBulk) && done < |rows|
    requires IsMultiple(done + 1, options.bulkSize)
    ensures Pending(header, rows, options, idColumn, done + 1, [], iBulk + 1)
  {
    FlushPoint(iBulk - 1, done + 1, options.bulkSize);
  }

  /**
   * The body and the batch number after `done` data rows, row by row as the
   * writer's loop keeps them: a row's entries join the body, and a row whose
   * count is a multiple of B sends the body and moves on to the next batch.
   */
  ghost function Progress(header: seq<string>, rows: seq<seq<string>>, options: LoadOptions, idColumn: Option<string>,
                          done: nat): (p: (seq<Entry>, nat))
    requires options.bulkSize > 0 && done <= |rows|
    ensures p.1 >= 1
  {
    if done == 0 then ([], 1)
    else
      var before := Progress(header, rows, options, idColumn, done - 1);
      if IsMultiple(done, options.bulkSize) then ([], before.1 + 1)
      else (before.0 + RowEntries(header, rows[done - 1], options, idColumn), before.1)
  }

  /**
   * The row-by-row state is the closed-form one: after `done` rows the body
   * holds the rows since batch `iBulk` began, the batches before it full.
   */
  lemma {:induction false} ProgressPending(header: seq<string>, rows: seq<seq<string>>, options: LoadOptions,
                                           idColumn: Option<string>, done: nat)
    requires options.bulkSize > 0 && done <= |rows|
    ensures var p := Progress(header, rows, options, idColumn, done);
      Pending(header, rows, options, idColumn, done, p.0, p.1)
  {
    if done == 0 {
      PendingStart(header, rows, options, idColumn);
    } else {
      ProgressPending(header, rows, options, idColumn, done - 1);
      var before := Progress(header, rows, options, idColumn, done - 1);
      if IsMultiple(done, options.bulkSize) {
        PendingFlush(header, rows, options, idColumn, done - 1, before.0, before.1);
      } else {
        PendingRow(header, rows, options, idColumn, done - 1, before.0, before.1);
      }
    }
  }

  /**
   * A data row whose count is a multiple of B completes the body into batch
   * `iBulk`, and leaves nothing pending with batch `iBulk` + 1 next.
   */
  lemma ProgressFlush(header: seq<string>, rows: seq<seq<string>>, options: LoadOptions, idColumn: Option<string>,
                      done: nat, body: seq<Entry>, iBulk: nat)
    requires options.bulkSize > 0 && done < |rows|
    requires (body, iBulk) == Progress(header, rows, options, idColumn, done)
    requires IsMultiple(done + 1, options.bulkSize)
    ensures var batches := Batches(header, rows, options, idColumn);
      && iBulk <= |batches|
      && body + RowEntries(header, rows[done], options, idColumn) == batches[iBulk - 1]
    ensures Progress(header, rows, options, idColumn, done + 1) == ([], iBulk + 1)
  {
    assert Progress(header, rows, options, idColumn, done + 1) == ([], iBulk + 1);
    ProgressPending(header, rows, options, idColumn, done);
    FlushPoint(iBulk - 1, done + 1, options.bulkSize);
    FlushedBatch(header, rows, options, idColumn, done, body, iBulk);
  }

  /**
   * After the last data row, a non-empty body is the last batch, `iBulk`;
   * an empty one means the batches before `iBulk` were all of them.
   */
  lemma PendingEnd(header: seq<string>, rows: seq<seq<string>>, options: LoadOptions, idColumn: Option<string>,
                   body: seq<Entry>, iBulk: nat)
    requires options.bulkSize > 0 && Pending(header, rows, options, idColumn, |rows|, body, iBulk)
    ensures var batches := Batches(header, rows, options, idColumn);
      && (body != [] ==> |batches| == iBulk && body == batches[iBulk - 1])
      && (body == [] ==> |batches| == iBulk - 1)
  {
    if body != [] {
      LastBatch(header, rows, options, idColumn, iBulk - 1);
    } else {
      CeilOfOffset(iBulk - 1, options.bulkSize);
    }
  }
}
