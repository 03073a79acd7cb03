/**
 * The logging starter's `client.ElasticsearchLogClient`: a bounded queue of
 * log documents, drained in batches into a reusable buffer and shipped as
 * bulk requests. The Elasticsearch client is a `Transport` object that
 * records every request it is handed. The clock reading used to resolve
 * the index name is passed in, as the stamps `IndexPatternResolver`
 * formats from it (`StampsAt`).
 */
module StarterLogClient {
  import opened Wrappers
  import opened IndexPatternResolver
  import opened BlockingQueue

  /** The properties the client reads (`autoconfigure.ElasticsearchLoggingProperties`). */
  datatype Properties = Properties(
    index: Option<string>,
    async: bool,
    queueSize: int,
    bulkEnabled: bool,
    bulkSize: int,
    timeout: int,
    refreshAfterWrite: bool)

  /** The defaults of the properties class. */
  const DefaultProperties: Properties := Properties(Some("app-logs"), true, 10000, true, 1000, 60000, false)

  /** `Refresh.WaitFor` or `Refresh.False`. */
  datatype Refresh = WaitFor | NoRefresh

  /**
   * How a `client.index` call ends: the document is indexed, the call
   * throws an `IOException`, or it throws a runtime exception such as the
   * client's `ElasticsearchException` for an error response.
   */
  datatype IndexOutcome = Indexed | IoFailure | RuntimeFailure

  datatype IndexOperation<Doc> = IndexOperation(index: string, document: Doc)

  /** A bulk request: its operations, its timeout (`timeout + "ms"`) and its refresh policy. */
  datatype BulkRequest<Doc> = BulkRequest(operations: seq<IndexOperation<Doc>>, timeoutMillis: int, refresh: Refresh)

  /** The operations `sendBulk` builds: one index operation per document, in order. */
  function IndexOperations<Doc>(index: string, docs: seq<Doc>): seq<IndexOperation<Doc>>
    decreases |docs|
  {
    if docs == [] then []
    else IndexOperations(index, docs[..|docs| - 1]) + [IndexOperation(index, docs[|docs| - 1])]
  }

  /** Every document becomes exactly one operation, at its own position, addressed to `index`. */
  lemma {:induction false} IndexOperationsShape<Doc>(index: string, docs: seq<Doc>)
    ensures |IndexOperations(index, docs)| == |docs|
    ensures forall k :: 0 <= k < |docs| ==> IndexOperations(index, docs)[k] == IndexOperation(index, docs[k])
    decreases |docs|
  {
    if docs != [] {
      IndexOperationsShape(index, docs[..|docs| - 1]);
    }
  }

  /** The documents the operations carry, in order. */
  function OperationDocuments<Doc>(ops: seq<IndexOperation<Doc>>): seq<Doc>
  {
    seq(|ops|, k requires 0 <= k < |ops| => ops[k].document)
  }

  /** Reading the documents back from the operations gives the batch that was sent. */
  lemma OperationDocumentsOfBatch<Doc>(index: string, docs: seq<Doc>)
    ensures OperationDocuments(IndexOperations(index, docs)) == docs
  {
    IndexOperationsShape(index, docs);
  }

  /** The Elasticsearch client, as the requests it has been handed. */
  class Transport<Doc> {
    /** `client.index(IndexRequest)` calls: the index and the document. */
    var indexRequests: seq<(string, Doc)>
    /** `client.bulk(BulkRequest)` calls. */
    var bulkRequests: seq<BulkRequest<Doc>>

    constructor()
      ensures indexRequests == [] && bulkRequests == []
    {
      indexRequests := [];
      bulkRequests := [];
    }

    /** `client.index`: the request is recorded; `outcome` is how the call ends. */
    method Index(index: string, doc: Doc, outcome: IndexOutcome) returns (r: IndexOutcome)
      modifies this
      ensures indexRequests == old(indexRequests) + [(index, doc)]
      ensures bulkRequests == old(bulkRequests)
      ensures r == outcome
    {
      indexRequests := indexRequests + [(index, doc)];
      r := outcome;
    }

    /**
     * `client.bulk`. Per-item failures in the response are only logged by
     * the caller, and an exception is caught and logged, so the outcome is
     * not modelled.
     */
    method Bulk(request: BulkRequest<Doc>)
      modifies this
      ensures bulkRequests == old(bulkRequests) + [request]
      ensures indexRequests == old(indexRequests)
    {
      bulkRequests := bulkRequests + [request];
    }
  }

  class ElasticsearchLogClient<Doc> {
    const properties: Properties
    const client: Transport<Doc>
    /** The `LinkedBlockingQueue` bound (`queueSize`). */
    const capacity: nat
    /** The queue, head first. */
    var queue: seq<Doc>
    /** The reusable list `consumeBatch` drains into. */
    var batchBuffer: seq<Doc>
    /** Whether `startBulkProcessor` scheduled the periodic `consumeBatch`. */
    var consumerScheduled: bool
    /** Whether `close` shut the scheduler down. */
    var shutDown: bool
    /** Every document the queue ever accepted, in order. */
    ghost var accepted: seq<Doc>
    /** Every document ever drained out of the queue, in order. */
    ghost var drained: seq<Doc>

    /**
     * The queue stays within its bound, the buffer is empty between calls,
     * and the queue is exactly what was accepted and not yet drained: a
     * drained document is never put back, and documents leave in the order
     * they arrived.
     */
    ghost predicate Valid()
      reads this
    {
      && capacity as int == properties.queueSize
      && 0 < capacity
      && |queue| <= capacity
      && batchBuffer == []
      && drained + queue == accepted
    }

    /**
     * The constructor. `new LinkedBlockingQueue<>(queueSize)` needs a
     * positive bound and `new ArrayList<>(bulkSize)` a non-negative
     * capacity; the periodic consumer is scheduled only when bulk
     * sending is enabled.
     */
    constructor(properties: Properties, client: Transport<Doc>)
      requires properties.queueSize > 0 && properties.bulkSize >= 0
      ensures Valid()
      ensures this.properties == properties && this.client == client
      ensures queue == [] && accepted == [] && drained == []
      ensures consumerScheduled == properties.bulkEnabled && !shutDown
    {
      this.properties := properties;
      this.client := client;
      capacity := properties.queueSize as nat;
      queue := [];
      batchBuffer := [];
      accepted := [];
      drained := [];
      consumerScheduled := properties.bulkEnabled;
      shutDown := false;
    }

    /** `resolveIndexName`: the configured index pattern resolved with the clock reading `clock`. */
    method ResolveIndexName(clock: DateStamps) returns (index: string)
      ensures index == Resolved(properties.index, clock)
    {
      index := ResolveAt(properties.index, clock);
    }

    /**
     * `sendSync`: one index request for the document, to the resolved
     * index. An `IOException` is caught and only logged; a runtime
     * exception from the client is not caught and leaves the method.
     */
    method SendSync(doc: Doc, clock: DateStamps, outcome: IndexOutcome) returns (r: Result<(), IndexOutcome>)
      modifies client
      ensures client.indexRequests == old(client.indexRequests)
        + [(Resolved(properties.index, clock), doc)]
      ensures client.bulkRequests == old(client.bulkRequests)
      ensures r.Err? <==> outcome == RuntimeFailure
      ensures r.Err? ==> r.error == RuntimeFailure
    {
      var index := ResolveIndexName(clock);
      var ended := client.Index(index, doc, outcome);
      if ended == RuntimeFailure {
        return Err(RuntimeFailure);
      }
      r := Ok(());
    }

    /**
     * `sendAsync`. With `async` off the document is sent at once by
     * `sendSync`, whose escaping runtime exception escapes here too, and
     * the queue is left alone. Otherwise it is offered to the queue:
     * appended at the tail when there is room, discarded when the queue is
     * full, and nothing is thrown.
     */
    method SendAsync(doc: Doc, clock: DateStamps, outcome: IndexOutcome) returns (r: Result<(), IndexOutcome>)
      requires Valid()
      modifies this, client
      ensures Valid()
      ensures drained == old(drained)
      ensures !properties.async ==>
        && queue == old(queue)
        && client.indexRequests == old(client.indexRequests)
             + [(Resolved(properties.index, clock), doc)]
      ensures properties.async ==> client.indexRequests == old(client.indexRequests) && r.Ok?
      ensures !properties.async ==> (r.Err? <==> outcome == RuntimeFailure)
      ensures r.Err? ==> r.error == RuntimeFailure
      ensures properties.async && |old(queue)| < capacity ==> queue == old(queue) + [doc]
      ensures properties.async && |old(queue)| >= capacity ==> queue == old(queue)
      ensures client.bulkRequests == old(client.bulkRequests)
      ensures consumerScheduled == old(consumerScheduled) && shutDown == old(shutDown)
    {
      if !properties.async {
        r := SendSync(doc, clock, outcome);
        return;
      }
      if |queue| < capacity {
        queue := queue + [doc];
        accepted := accepted + [doc];
      }
      r := Ok(());
    }

    /**
     * `sendBulk`. A null or empty list sends nothing. Otherwise the index
     * is resolved once and one bulk request carries one index operation per
     * document, in order; the request's outcome only reaches the log.
     */
    method SendBulk(documents: Option<seq<Doc>>, clock: DateStamps)
      modifies client
      ensures client.indexRequests == old(client.indexRequests)
      ensures documents.None? || documents.value == [] ==> client.bulkRequests == old(client.bulkRequests)
      ensures documents.Some? && documents.value != [] ==>
        client.bulkRequests == old(client.bulkRequests) + [BulkRequest(
          IndexOperations(Resolved(properties.index, clock), documents.value),
          properties.timeout,
          if properties.refreshAfterWrite then WaitFor else NoRefresh)]
    {
      if documents.None? || documents.value == [] {
        return;
      }
      var docs := documents.value;
      var index := ResolveIndexName(clock);
      var operations: seq<IndexOperation<Doc>> := [];
      var i := 0;
      while i < |docs|
        invariant 0 <= i <= |docs|
        invariant operations == IndexOperations(index, docs[..i])
      {
        assert docs[..i + 1][..i] == docs[..i];
        operations := operations + [IndexOperation(index, docs[i])];
        i := i + 1;
      }
      assert docs[..i] == docs;
      var refresh := if properties.refreshAfterWrite then WaitFor else NoRefresh;
      client.Bulk(BulkRequest(operations, properties.timeout, refresh));
    }

    /** `getQueueSize`. */
    method GetQueueSize() returns (n: int)
      requires Valid()
      ensures n == |queue| && 0 <= n <= capacity
    {
      n := |queue|;
    }

    /**
     * `consumeBatch`: drain up to `bulkSize` documents from the head of the
     * queue into the buffer; when any were drained, send them as one bulk
     * request and clear the buffer. `sendBulk` catches every exception, so
     * the buffer is always cleared.
     */
    method ConsumeBatch(clock: DateStamps)
      requires Valid()
      modifies this, client
      ensures Valid()
      ensures accepted == old(accepted)
      ensures var n := DrainCount(|old(queue)|, properties.bulkSize);
        && queue == old(queue)[n..]
        && drained == old(drained) + old(queue)[..n]
        && (n == 0 ==> client.bulkRequests == old(client.bulkRequests))
        && (n > 0 ==> client.bulkRequests == old(client.bulkRequests) + [BulkRequest(
              IndexOperations(Resolved(properties.index, clock), old(queue)[..n]),
              properties.timeout,
              if properties.refreshAfterWrite then WaitFor else NoRefresh)])
      ensures client.indexRequests == old(client.indexRequests)
      ensures consumerScheduled == old(consumerScheduled) && shutDown == old(shutDown)
    {
      var batch := DrainTo(properties.bulkSize);
      batchBuffer := batchBuffer + batch;
      assert batchBuffer == batch;
      if |batch| > 0 {
        SendBulk(Some(batchBuffer), clock);
        batchBuffer := [];
      }
    }

    /**
     * `queue.drainTo(list, maxElements)`: moves the first
     * `DrainCount(|queue|, maxElements)` documents out of the queue, in
     * order, and returns them.
     */
    method DrainTo(maxElements: int) returns (batch: seq<Doc>)
      requires Valid()
      modifies this
      ensures Valid()
      ensures batch == old(queue)[..DrainCount(|old(queue)|, maxElements)]
      ensures queue == old(queue)[|batch|..]
      ensures accepted == old(accepted) && drained == old(drained) + batch
      ensures consumerScheduled == old(consumerScheduled) && shutDown == old(shutDown)
    {
      var count := DrainCount(|queue|, maxElements);
      batch := queue[..count];
      DrainKeepsOrder(drained, queue, count);
      drained := drained + batch;
      queue := queue[count..];
    }

    /**
     * `flushRemainingLogs`: drain the whole queue and, when that took
     * anything, send it as one bulk request.
     */
    method FlushRemainingLogs(clock: DateStamps)
      requires Valid()
      modifies this, client
      ensures Valid()
      ensures queue == [] && accepted == old(accepted) && drained == old(drained) + old(queue)
      ensures old(queue) == [] ==> client.bulkRequests == old(client.bulkRequests)
      ensures old(queue) != [] ==> client.bulkRequests == old(client.bulkRequests) + [BulkRequest(
          IndexOperations(Resolved(properties.index, clock), old(queue)),
          properties.timeout,
          if properties.refreshAfterWrite then WaitFor else NoRefresh)]
      ensures client.indexRequests == old(client.indexRequests)
      ensures consumerScheduled == old(consumerScheduled) && shutDown == old(shutDown)
    {
      var remaining := queue;
      drained := drained + queue;
      queue := [];
      if remaining != [] {
        SendBulk(Some(remaining), clock);
      }
    }

    /** `close`: shuts the scheduler down and changes nothing else. */
    method Close()
      requires Valid()
      modifies this
      ensures Valid() && shutDown
      ensures queue == old(queue) && accepted == old(accepted) && drained == old(drained)
      ensures consumerScheduled == old(consumerScheduled)
    {
      shutDown := true;
    }
  }
}
