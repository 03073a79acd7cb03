/**
 * The es-log-demo `SimpleEsWriter`: bulk writing of log documents, the
 * shard counters of its index statistics, the offset of a paginated search
 * and `close`. The `RestHighLevelClient` is an `EsClient` object recording
 * the calls it receives; what a call answers is a parameter. Documents are
 * maps from field names to values of any type `V`.
 */
module SimpleEsWriter {
  import opened Wrappers
  import opened JavaText

  type Document<V> = map<string, V>

  /** `new IndexRequest(indexName).source(doc)`. */
  datatype IndexRequest<V> = IndexRequest(index: string, source: Document<V>)

  /** What `client.bulk` does: answer, with or without item failures, or throw. */
  datatype BulkOutcome = Responded(hasFailures: bool) | Threw

  /** The query of a search: the caller's, or `matchAllQuery()` when it passed null. */
  datatype Query = Given(json: string) | MatchAll

  /** The `SearchSourceBuilder`: query, `from`, `size`, sorted by `@timestamp` descending. */
  datatype SearchSource = SearchSource(query: Query, from: int, size: int, sortField: string, descending: bool)

  datatype SearchRequest = SearchRequest(index: string, source: SearchSource)

  /** The `RestHighLevelClient`, as the calls it has received. */
  class EsClient<V> {
    var bulkCalls: seq<seq<IndexRequest<V>>>
    var searchCalls: seq<SearchRequest>
    var closeCalls: nat

    constructor()
      ensures bulkCalls == [] && searchCalls == [] && closeCalls == 0
    {
      bulkCalls := [];
      searchCalls := [];
      closeCalls := 0;
    }

    method Bulk(request: seq<IndexRequest<V>>, outcome: BulkOutcome) returns (r: BulkOutcome)
      modifies this
      ensures bulkCalls == old(bulkCalls) + [request] && r == outcome
      ensures searchCalls == old(searchCalls) && closeCalls == old(closeCalls)
    {
      bulkCalls := bulkCalls + [request];
      r := outcome;
    }

    method Search(request: SearchRequest)
      modifies this
      ensures searchCalls == old(searchCalls) + [request]
      ensures bulkCalls == old(bulkCalls) && closeCalls == old(closeCalls)
    {
      searchCalls := searchCalls + [request];
    }

    method Close()
      modifies this
      ensures closeCalls == old(closeCalls) + 1
      ensures bulkCalls == old(bulkCalls) && searchCalls == old(searchCalls)
    {
      closeCalls := closeCalls + 1;
    }
  }

  // ---------------------------------------------------------------------
  // bulkWrite

  /** The documents `bulkWrite` keeps, in order: neither null nor empty. */
  function Kept<V>(docs: seq<Option<Document<V>>>): seq<Document<V>>
    decreases |docs|
  {
    if docs == [] then []
    else
      var last := docs[|docs| - 1];
      Kept(docs[..|docs| - 1]) + (if Dropped(last) then [] else [last.value])
  }

  /** Keeping distributes over concatenation: the filter keeps the input order. */
  lemma {:induction false} KeptConcat<V>(a: seq<Option<Document<V>>>, b: seq<Option<Document<V>>>)
    ensures Kept(a + b) == Kept(a) + Kept(b)
    decreases |b|
  {
    if b == [] {
      assert a + b == a;
    } else {
      var b' := b[..|b| - 1];
      assert (a + b)[..|a + b| - 1] == a + b';
      assert (a + b)[|a + b| - 1] == b[|b| - 1];
      KeptConcat(a, b');
    }
  }

  /** Every kept document is a non-empty document of the input, and nothing non-empty is dropped. */
  lemma {:induction false} KeptExactly<V>(docs: seq<Option<Document<V>>>)
    ensures forall d :: d in Kept(docs) <==> d != map[] && Some(d) in docs
    ensures |Kept(docs)| <= |docs|
    decreases |docs|
  {
    if docs != [] {
      var init := docs[..|docs| - 1];
      KeptExactly(init);
      assert docs == init + [docs[|docs| - 1]];
      forall d ensures Some(d) in docs <==> Some(d) in init || Some(d) == docs[|docs| - 1] {
      }
    }
  }

  /** Nothing is kept iff every document is null or empty. */
  lemma {:induction false} KeptEmpty<V>(docs: seq<Option<Document<V>>>)
    ensures Kept(docs) == [] <==> forall i :: 0 <= i < |docs| ==> Dropped(docs[i])
    decreases |docs|
  {
    if docs != [] {
      var init := docs[..|docs| - 1];
      KeptEmpty(init);
      assert forall i :: 0 <= i < |init| ==> init[i] == docs[i];
    }
  }

  /** A document `bulkWrite` skips. */
  predicate Dropped<V>(doc: Option<Document<V>>)
  {
    doc.None? || doc.value == map[]
  }

  /** One index request per kept document, in order, all to `indexName`. */
  function Requests<V>(indexName: string, docs: seq<Document<V>>): (r: seq<IndexRequest<V>>)
    ensures |r| == |docs|
    ensures forall k :: 0 <= k < |docs| ==> r[k] == IndexRequest(indexName, docs[k])
  {
    seq(|docs|, k requires 0 <= k < |docs| => IndexRequest(indexName, docs[k]))
  }

  /** What `bulkWrite` answers once a request was sent. */
  function BulkResult(outcome: BulkOutcome): bool
  {
    match outcome
    case Responded(hasFailures) => !hasFailures
    case Threw => false
  }

  class SimpleEsWriter<V> {
    /** Null until `restHighLevelClient()` builds it. */
    var client: EsClient?<V>

    constructor()
      ensures client == null
    {
      client := null;
    }

    /**
     * `restHighLevelClient()`: builds the client and keeps it. Its host,
     * port, timeouts, pool sizes and credentials are not modelled.
     */
    method RestHighLevelClient() returns (c: EsClient<V>)
      modifies this
      ensures client == c && fresh(c)
      ensures c.bulkCalls == [] && c.searchCalls == [] && c.closeCalls == 0
    {
      c := new EsClient();
      client := c;
    }

    /**
     * `bulkWrite`. A null or empty list, or one whose documents are all
     * null or empty, succeeds without a request. Otherwise one bulk request
     * carries the kept documents, in order, and the result is true iff the
     * response reports no failure. Any exception, including the one a
     * missing client raises, makes it false.
     */
    method BulkWrite(indexName: string, logDataList: Option<seq<Option<Document<V>>>>, outcome: BulkOutcome)
      returns (ok: bool)
      modifies client
      ensures client == old(client)
      ensures var kept := if logDataList.None? then [] else Kept(logDataList.value);
        && (kept == [] ==> ok && (client != null ==> unchanged(client)))
        && (kept != [] && client == null ==> !ok)
        && (kept != [] && client != null ==>
              && client.bulkCalls == old(client.bulkCalls) + [Requests(indexName, kept)]
              && client.searchCalls == old(client.searchCalls)
              && client.closeCalls == old(client.closeCalls)
              && ok == BulkResult(outcome))
    {
      if logDataList.None? || logDataList.value == [] {
        return true;
      }
      var docs := logDataList.value;
      var bulkRequest: seq<IndexRequest<V>> := [];
      var i := 0;
      while i < |docs|
        invariant 0 <= i <= |docs|
        invariant bulkRequest == Requests(indexName, Kept(docs[..i]))
      {
        assert docs[..i + 1][..i] == docs[..i];
        if !Dropped(docs[i]) {
          bulkRequest := bulkRequest + [IndexRequest(indexName, docs[i].value)];
        }
        i := i + 1;
      }
      assert docs[..i] == docs;
      if |bulkRequest| == 0 {
        return true;
      }
      if client == null {
        return false;
      }
      var response := client.Bulk(bulkRequest, outcome);
      ok := BulkResult(response);
    }

    /**
     * `searchWithPagination`: the search asks for `size` documents from
     * offset `(page - 1) * size`, computed in 32-bit arithmetic, sorted by
     * `@timestamp` descending; a null query searches everything. The
     * source builder refuses a negative offset or size before anything is
     * sent. That refusal, a missing client, or an exception from the search
     * becomes an error.
     */
    method SearchWithPagination(indexName: string, query: Option<string>, page: int, size: int, fails: bool)
      returns (r: Result<SearchRequest, string>)
      requires IsInt32(page) && IsInt32(size)
      modifies client
      ensures client == old(client)
      ensures client == null || fails ==> r == Err("分页查询失败")
      ensures PageOffset(page, size) < 0 || size < 0 ==> r == Err("分页查询失败")
      ensures client != null ==> client.bulkCalls == old(client.bulkCalls) && client.closeCalls == old(client.closeCalls)
      ensures client != null && (PageOffset(page, size) < 0 || size < 0) ==> client.searchCalls == old(client.searchCalls)
      ensures client != null && PageOffset(page, size) >= 0 && size >= 0 ==>
        client.searchCalls == old(client.searchCalls) + [SearchRequest(indexName, SearchSource(
          if query.None? then MatchAll else Given(query.value), PageOffset(page, size), size, "@timestamp", true))]
      ensures client != null && !fails && PageOffset(page, size) >= 0 && size >= 0 ==>
        var request := SearchRequest(indexName, SearchSource(
          if query.None? then MatchAll else Given(query.value), PageOffset(page, size), size, "@timestamp", true));
        r == Ok(request)
    {
      var from := PageOffset(page, size);
      if from < 0 || size < 0 {
        return Err("分页查询失败");
      }
      var source := SearchSource(if query.None? then MatchAll else Given(query.value), from, size, "@timestamp", true);
      var request := SearchRequest(indexName, source);
      if client == null {
        return Err("分页查询失败");
      }
      client.Search(request);
      if fails {
        return Err("分页查询失败");
      }
      r := Ok(request);
    }

    /** `close`: closes the client when there is one, and touches nothing otherwise. */
    method Close()
      modifies client
      ensures client == old(client)
      ensures client != null ==>
        && client.closeCalls == old(client.closeCalls) + 1
        && client.bulkCalls == old(client.bulkCalls) && client.searchCalls == old(client.searchCalls)
    {
      if client != null {
        client.Close();
      }
    }

    // -------------------------------------------------------------------
    // Shard counters, over the `shards` node of `GET /<index>/_shards`

    /** `getShardCount`: the copies of every shard whose entry is an array. */
    method GetShardCount(shards: Option<ShardsNode>) returns (total: int)
      ensures total == ShardTotal(shards)
    {
      if shards.None? || !shards.value.ObjectNode? {
        return 0;
      }
      var fields := shards.value.fields;
      total := 0;
      var i := 0;
      while i < |fields|
        invariant 0 <= i <= |fields|
        invariant total == FieldsCopies(fields[..i])
      {
        assert fields[..i + 1][..i] == fields[..i];
        var copies := fields[i].1;
        if copies.ArrayNode? {
          total := total + |copies.states|;
        }
        i := i + 1;
      }
      assert fields[..i] == fields;
    }

    /** `getSuccessfulShards`: the copies whose state is `STARTED`. */
    method GetSuccessfulShards(shards: Option<ShardsNode>) returns (successful: int)
      ensures successful == ShardSuccessful(shards)
    {
      if shards.None? || !shards.value.ObjectNode? {
        return 0;
      }
      var fields := shards.value.fields;
      successful := 0;
      var i := 0;
      while i < |fields|
        invariant 0 <= i <= |fields|
        invariant successful == FieldsStarted(fields[..i])
      {
        assert fields[..i + 1][..i] == fields[..i];
        var copies := fields[i].1;
        if copies.ArrayNode? {
          var states := copies.states;
          var j := 0;
          while j < |states|
            invariant 0 <= j <= |states|
            invariant successful == FieldsStarted(fields[..i]) + Started(states[..j])
          {
            assert states[..j + 1][..j] == states[..j];
            if states[j] == "STARTED" {
              successful := successful + 1;
            }
            j := j + 1;
          }
          assert states[..j] == states;
        }
        i := i + 1;
      }
      assert fields[..i] == fields;
    }

    /** `getFailedShards`: the copies in any other state. */
    method GetFailedShards(shards: Option<ShardsNode>) returns (failed: int)
      ensures failed == ShardFailed(shards)
    {
      if shards.None? || !shards.value.ObjectNode? {
        return 0;
      }
      var fields := shards.value.fields;
      failed := 0;
      var i := 0;
      while i < |fields|
        invariant 0 <= i <= |fields|
        invariant failed == FieldsNotStarted(fields[..i])
      {
        assert fields[..i + 1][..i] == fields[..i];
        var copies := fields[i].1;
        if copies.ArrayNode? {
          var states := copies.states;
          var j := 0;
          while j < |states|
            invariant 0 <= j <= |states|
            invariant failed == FieldsNotStarted(fields[..i]) + NotStarted(states[..j])
          {
            assert states[..j + 1][..j] == states[..j];
            if states[j] != "STARTED" {
              failed := failed + 1;
            }
            j := j + 1;
          }
          assert states[..j] == states;
        }
        i := i + 1;
      }
      assert fields[..i] == fields;
    }
  }

  // ---------------------------------------------------------------------
  // Pagination

  /** The `from` of a page: `(page - 1) * size` in Java `int` arithmetic, wrapping on overflow. */
  function PageOffset(page: int, size: int): (from: int)
    requires IsInt32(page) && IsInt32(size)
    ensures IsInt32(from)
    ensures IsInt32((page - 1) * size) ==> from == (page - 1) * size
  {
    Wrap32(Wrap32(page - 1) * size)
  }

  /** Page 1 starts at offset 0, and consecutive pages are `size` apart while nothing wraps. */
  lemma PageOffsetSteps(page: int, size: int)
    requires 1 <= page && IsInt32(page + 1) && IsInt32(size)
    requires IsInt32(page * size)
    requires 0 <= size
    ensures PageOffset(1, size) == 0
    ensures PageOffset(page, size) >= 0
    ensures PageOffset(page + 1, size) == PageOffset(page, size) + size
  {
    assert 0 <= (page - 1) * size <= page * size;
  }

  // ---------------------------------------------------------------------
  // The shards node

  /** A shard's entry: an array of copies, each given by its `state` text, or anything else. */
  datatype CopiesNode = ArrayNode(states: seq<string>) | OtherNode

  /**
   * The `shards` node: missing, not an object, or an object from shard id
   * to copies, in field order. `None` stands for the request or the
   * parsing throwing.
   */
  datatype ShardsNode = MissingNode | ValueNode | ObjectNode(fields: seq<(string, CopiesNode)>)

  function Started(states: seq<string>): nat
    decreases |states|
  {
    if states == [] then 0
    else Started(states[..|states| - 1]) + (if states[|states| - 1] == "STARTED" then 1 else 0)
  }

  function NotStarted(states: seq<string>): nat
    decreases |states|
  {
    if states == [] then 0
    else NotStarted(states[..|states| - 1]) + (if states[|states| - 1] != "STARTED" then 1 else 0)
  }

  function FieldsCopies(fields: seq<(string, CopiesNode)>): nat
    decreases |fields|
  {
    if fields == [] then 0
    else
      var copies := fields[|fields| - 1].1;
      FieldsCopies(fields[..|fields| - 1]) + (if copies.ArrayNode? then |copies.states| else 0)
  }

  function FieldsStarted(fields: seq<(string, CopiesNode)>): nat
    decreases |fields|
  {
    if fields == [] then 0
    else
      var copies := fields[|fields| - 1].1;
      FieldsStarted(fields[..|fields| - 1]) + (if copies.ArrayNode? then Started(copies.states) else 0)
  }

  function FieldsNotStarted(fields: seq<(string, CopiesNode)>): nat
    decreases |fields|
  {
    if fields == [] then 0
    else
      var copies := fields[|fields| - 1].1;
      FieldsNotStarted(fields[..|fields| - 1]) + (if copies.ArrayNode? then NotStarted(copies.states) else 0)
  }

  function ShardTotal(shards: Option<ShardsNode>): nat
  {
    if shards.Some? && shards.value.ObjectNode? then FieldsCopies(shards.value.fields) else 0
  }

  function ShardSuccessful(shards: Option<ShardsNode>): nat
  {
    if shards.Some? && shards.value.ObjectNode? then FieldsStarted(shards.value.fields) else 0
  }

  function ShardFailed(shards: Option<ShardsNode>): nat
  {
    if shards.Some? && shards.value.ObjectNode? then FieldsNotStarted(shards.value.fields) else 0
  }

  /** Every copy is either started or not. */
  lemma {:induction false} StartedSplit(states: seq<string>)
    ensures Started(states) + NotStarted(states) == |states|
    decreases |states|
  {
    if states != [] {
      StartedSplit(states[..|states| - 1]);
    }
  }

  lemma {:induction false} FieldsSplit(fields: seq<(string, CopiesNode)>)
    ensures FieldsStarted(fields) + FieldsNotStarted(fields) == FieldsCopies(fields)
    decreases |fields|
  {
    if fields != [] {
      FieldsSplit(fields[..|fields| - 1]);
      var copies := fields[|fields| - 1].1;
      if copies.ArrayNode? {
        StartedSplit(copies.states);
      }
    }
  }

  /** The successful and failed counters always add up to the shard total, which bounds both. */
  lemma ShardsBalance(shards: Option<ShardsNode>)
    ensures ShardSuccessful(shards) + ShardFailed(shards) == ShardTotal(shards)
    ensures ShardSuccessful(shards) <= ShardTotal(shards) && ShardFailed(shards) <= ShardTotal(shards)
  {
    if shards.Some? && shards.value.ObjectNode? {
      FieldsSplit(shards.value.fields);
    }
  }
}
