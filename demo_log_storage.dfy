/**
 * The es-log-demo `LogStorageService`: log entries are queued in a bounded
 * queue and a scheduled flush drains one batch, turns each entry into a
 * document and hands the batch to `SimpleEsWriter.bulkWrite`. The writer is
 * a `BulkWriteSink` object recording the calls it receives; the outcome of
 * each call is a parameter.
 */
module DemoLogStorage {
  import opened Wrappers
  import opened Time
  import opened BlockingQueue
  import opened LogEntries

  const DefaultIndexName: string := "log"
  const DefaultBatchSize: int := 200
  const DefaultQueueCapacity: int := 10000
  const MaxBatchSize: int := 5000
  const AppName: string := "es-log-demo"

  /** `normalizeBatchSize`: the batch size actually used, always in 1..5000. */
  function NormalizeBatchSize(batchSize: int): (n: int)
    ensures 1 <= n <= MaxBatchSize
    ensures batchSize <= 0 ==> n == DefaultBatchSize
    ensures 0 < batchSize <= MaxBatchSize ==> n == batchSize
    ensures MaxBatchSize < batchSize ==> n == MaxBatchSize
  {
    if batchSize <= 0 then DefaultBatchSize
    else if batchSize < MaxBatchSize then batchSize else MaxBatchSize
  }

  /** `normalizeQueueCapacity`: the queue bound actually used, always positive. */
  function NormalizeQueueCapacity(queueCapacity: int): (n: int)
    ensures n > 0
    ensures queueCapacity <= 0 ==> n == DefaultQueueCapacity
    ensures queueCapacity > 0 ==> n == queueCapacity
  {
    if queueCapacity <= 0 then DefaultQueueCapacity else queueCapacity
  }

  /**
   * A document value: a string or null. The timestamp is always a string;
   * `level` and `message` are the entry's, null included.
   */
  type Document = map<string, Option<string>>

  /**
   * `formatTimestamp`: the entry's date-time as an ISO-8601 instant, or the
   * current instant when it has none. The conversion through the system
   * time zone is `atZone`, and `now` is the formatted current instant.
   */
  function FormatTimestamp(entry: LogEntry, now: string, atZone: LocalDateTime -> string): string
  {
    match entry.timestamp
    case None => now
    case Some(t) => atZone(t)
  }

  /** `toEsDocument`: exactly the four fields, with the entry's level and message. */
  function ToEsDocument(entry: LogEntry, now: string, atZone: LocalDateTime -> string): (d: Document)
    ensures d.Keys == {"@timestamp", "level", "message", "app_name"}
    ensures d["app_name"] == Some(AppName)
    ensures d["level"] == entry.level && d["message"] == entry.message
    ensures d["@timestamp"].Some?
    ensures entry.timestamp.None? ==> d["@timestamp"] == Some(now)
    ensures entry.timestamp.Some? ==> d["@timestamp"] == Some(atZone(entry.timestamp.value))
  {
    map["@timestamp" := Some(FormatTimestamp(entry, now, atZone)),
        "level" := entry.level,
        "message" := entry.message,
        "app_name" := Some(AppName)]
  }

  /**
   * The `stream().map(this::toEsDocument)` of a batch. Each entry without
   * a timestamp reads the clock on its own: `clock(k)` is the formatted
   * instant read while the `k`-th entry is converted.
   */
  function ToEsDocuments(batch: seq<LogEntry>, clock: nat -> string, atZone: LocalDateTime -> string): (docs: seq<Document>)
    ensures |docs| == |batch|
    ensures forall k :: 0 <= k < |batch| ==> docs[k] == ToEsDocument(batch[k], clock(k), atZone)
  {
    seq(|batch|, k requires 0 <= k < |batch| => ToEsDocument(batch[k], clock(k), atZone))
  }

  /** `SimpleEsWriter`, as the `bulkWrite` calls it is handed. */
  class BulkWriteSink {
    var calls: seq<(string, seq<Document>)>

    constructor()
      ensures calls == []
    {
      calls := [];
    }

    /** `bulkWrite(indexName, docs)`; `outcome` is what the cluster's answer makes it return. */
    method BulkWrite(indexName: string, docs: seq<Document>, outcome: bool) returns (ok: bool)
      modifies this
      ensures calls == old(calls) + [(indexName, docs)]
      ensures ok == outcome
    {
      calls := calls + [(indexName, docs)];
      ok := outcome;
    }
  }

  class LogStorageService {
    const esWriter: BulkWriteSink
    const indexName: string
    const batchSize: int
    const capacity: nat
    /** The `LinkedBlockingQueue`, head first. */
    var queue: seq<LogEntry>
    /** Every entry the queue accepted, in order. */
    ghost var accepted: seq<LogEntry>
    /** Every entry a flush drained, in order. */
    ghost var drained: seq<LogEntry>

    /**
     * The batch size is in range, the queue within its bound, and the queue
     * is what was accepted and not yet drained: drained entries never come
     * back, whatever `bulkWrite` answered.
     */
    ghost predicate Valid()
      reads this
    {
      && 1 <= batchSize <= MaxBatchSize
      && 0 < capacity
      && |queue| <= capacity
      && drained + queue == accepted
    }

    /** The constructor: both sizes normalised, the queue empty. */
    constructor(esWriter: BulkWriteSink, indexName: string, batchSize: int, queueCapacity: int)
      ensures Valid()
      ensures this.esWriter == esWriter && this.indexName == indexName
      ensures this.batchSize == NormalizeBatchSize(batchSize)
      ensures capacity as int == NormalizeQueueCapacity(queueCapacity)
      ensures queue == [] && accepted == [] && drained == []
    {
      this.esWriter := esWriter;
      this.indexName := indexName;
      this.batchSize := NormalizeBatchSize(batchSize);
      capacity := NormalizeQueueCapacity(queueCapacity) as nat;
      queue := [];
      accepted := [];
      drained := [];
    }

    /**
     * `addLogToQueue`: a null entry is ignored; otherwise it is offered,
     * which never blocks and drops the entry when the queue is full.
     */
    method AddLogToQueue(entry: Option<LogEntry>)
      requires Valid()
      modifies this
      ensures Valid()
      ensures drained == old(drained)
      ensures entry.None? ==> queue == old(queue)
      ensures entry.Some? ==> queue == Offer(old(queue), capacity, entry.value)
    {
      if entry.None? {
        return;
      }
      if |queue| < capacity {
        queue := queue + [entry.value];
        accepted := accepted + [entry.value];
      }
    }

    /**
     * `flushQueueToElasticsearch`: drain up to `batchSize` entries from the
     * head; when there are any, send their documents, in order, to the
     * configured index. A failed write is only logged: the drained entries
     * are gone either way. `clock` gives the instant each entry's
     * conversion reads, and `atZone` stands for the time zone.
     */
    method FlushQueueToElasticsearch(clock: nat -> string, atZone: LocalDateTime -> string, outcome: bool)
      requires Valid()
      modifies this, esWriter
      ensures Valid()
      ensures accepted == old(accepted)
      ensures var n := DrainCount(|old(queue)|, batchSize);
        && queue == old(queue)[n..]
        && drained == old(drained) + old(queue)[..n]
        && (n == 0 ==> esWriter.calls == old(esWriter.calls))
        && (n > 0 ==>
              esWriter.calls == old(esWriter.calls) + [(indexName, ToEsDocuments(old(queue)[..n], clock, atZone))])
    {
      var count := DrainCount(|queue|, batchSize);
      var batch := queue[..count];
      DrainKeepsOrder(drained, queue, count);
      drained := drained + batch;
      queue := queue[count..];
      if batch == [] {
        return;
      }
      var docs := ToEsDocuments(batch, clock, atZone);
      var ok := esWriter.BulkWrite(indexName, docs, outcome);
    }
  }
}
