/**
 * The demo's `EsIndexManagementUtil`: raw requests on the low-level
 * client, deletion of `.deprecation` indices, batches of raw requests,
 * and opening and closing an index. The client records the requests it
 * is given; what the cluster answers comes in as parameters.
 */
module EsIndexManagementUtil {
  import opened Wrappers
  import opened JavaText

  /** A low-level `Request`: method, endpoint and JSON entity, each possibly null. */
  datatype Request = Request(httpMethod: Option<string>, endpoint: Option<string>, jsonEntity: Option<string>)

  datatype Failure = IOException | ClassCastException | NullPointerException

  /**
   * `new Request(method, endpoint)` refuses a null method or endpoint with
   * a `NullPointerException` before anything is sent.
   */
  predicate Sendable(httpMethod: Option<string>, endpoint: Option<string>)
  {
    httpMethod.Some? && endpoint.Some?
  }

  /** A value of a decoded JSON response map; only booleans are read. */
  datatype Value = Null | Bool(b: bool) | OtherValue

  type ResponseMap = map<string, Value>

  const ListDeprecationIndices: string := "/_cat/indices/.deprecation*?format=json"
  const Completed: string := "completed"

  /** `executeRequest`'s request: the body is attached only when it is non-null and not blank. */
  function WithBody(httpMethod: Option<string>, endpoint: Option<string>, requestBody: Option<string>): (r: Request)
    ensures r.httpMethod == httpMethod && r.endpoint == endpoint
    ensures r.jsonEntity.Some? <==> requestBody.Some? && !AllTrimmable(requestBody.value)
    ensures r.jsonEntity.Some? ==> r.jsonEntity == requestBody
  {
    var entity := if requestBody.Some? && !IsBlankText(requestBody.value) then requestBody else None;
    Request(httpMethod, endpoint, entity)
  }

  /**
   * `result.get("acknowledged") != null && (Boolean) result.get("acknowledged")`:
   * true only for a boolean true; absent or null is false; any other
   * value fails the cast.
   */
  function Acknowledged(result: ResponseMap): (r: Result<bool, Failure>)
    ensures r == Ok(true) <==> "acknowledged" in result && result["acknowledged"] == Bool(true)
    ensures r.Err? <==> "acknowledged" in result && result["acknowledged"] == OtherValue
    ensures r.Err? ==> r.error == ClassCastException
  {
    if "acknowledged" !in result then Ok(false)
    else
      match result["acknowledged"]
      case Null => Ok(false)
      case Bool(b) => Ok(b)
      case OtherValue => Err(ClassCastException)
  }

  /**
   * The `StringBuilder` of `deleteDeprecationIndices`: each name is
   * appended, preceded by `,` only when something has already been
   * written.
   */
  function JoinNames(names: seq<string>): (r: string)
    ensures names != [] && names[|names| - 1] != [] ==> r != []
    ensures r == [] <==> forall k :: 0 <= k < |names| ==> names[k] == []
    decreases |names|
  {
    if names == [] then []
    else
      var written := JoinNames(names[..|names| - 1]);
      var last := names[|names| - 1];
      if |written| > 0 then written + "," + last else last
  }

  lemma {:induction false} JoinAppend(parts: seq<string>, x: string, c: char)
    requires parts != []
    ensures Join(parts + [x], c) == Join(parts, c) + [c] + x
    decreases |parts|
  {
    if |parts| > 1 {
      JoinAppend(parts[1..], x, c);
      assert (parts + [x])[1..] == parts[1..] + [x];
    } else {
      assert (parts + [x])[1..] == [x];
    }
  }

  /** With no empty name, the builder writes exactly the names joined by commas. */
  lemma {:induction false} JoinNamesIsJoin(names: seq<string>)
    requires forall k :: 0 <= k < |names| ==> names[k] != []
    ensures JoinNames(names) == Join(names, ',')
    decreases |names|
  {
    if |names| > 1 {
      var init := names[..|names| - 1];
      JoinNamesIsJoin(init);
      JoinAppend(init, names[|names| - 1], ',');
      assert init + [names[|names| - 1]] == names;
    }
  }

  /** Splitting the joined names on `,` gives back the list: one name per index, in order. */
  lemma JoinNamesSplit(names: seq<string>)
    requires names != []
    requires forall k :: 0 <= k < |names| ==> names[k] != [] && ',' !in names[k]
    ensures Split(JoinNames(names), ',') == names
  {
    JoinNamesIsJoin(names);
    SplitJoin(names, ',');
  }

  /** An empty name at the front leaves no separator behind, unlike `String.join`. */
  lemma LeadingEmptyNameAddsNoSeparator(name: string)
    requires name != []
    ensures JoinNames(["", name]) == name
    ensures Join(["", name], ',') == "," + name
  {
    assert ["", name][..1] == [""];
    assert [""][..0] == [];
  }

  /** A request body of a batch operation: a string, or an object to serialise. */
  datatype Body<T> = Text(text: string) | Structured(value: T)

  /** One entry of the `operations` list: its `method`, `endpoint` and `body` values. */
  datatype Operation<T> = Operation(httpMethod: Option<string>, endpoint: Option<string>, body: Option<Body<T>>)

  /** One entry of the returned list. */
  datatype Summary = Summary(httpMethod: Option<string>, endpoint: Option<string>, status: string)

  /** The JSON body sent for an operation: null stays null, a string is sent verbatim, anything else is serialised. */
  function JsonBody<T>(body: Option<Body<T>>, serialize: T -> Option<string>): (r: Result<Option<string>, Failure>)
    ensures body.None? ==> r == Ok(None)
    ensures body.Some? && body.value.Text? ==> r == Ok(Some(body.value.text))
    ensures body.Some? && body.value.Structured? && serialize(body.value.value).Some? ==> r == Ok(serialize(body.value.value))
    ensures r.Err? <==> body.Some? && body.value.Structured? && serialize(body.value.value).None?
  {
    match body
    case None => Ok(None)
    case Some(Text(s)) => Ok(Some(s))
    case Some(Structured(v)) =>
      match serialize(v)
      case None => Err(IOException)
      case Some(json) => Ok(Some(json))
  }

  /**
   * Operation `k` fails when its body cannot be serialised, when its
   * method or endpoint is null, or when its request is the one that throws.
   */
  predicate OperationFails<T>(ops: seq<Operation<T>>, k: nat, serialize: T -> Option<string>, failAt: Option<nat>)
    requires k < |ops|
  {
    JsonBody(ops[k].body, serialize).Err? || !Sendable(ops[k].httpMethod, ops[k].endpoint) || failAt == Some(k)
  }

  /**
   * The exception a failing operation raises: the serialiser's, then the
   * request constructor's null check, then the call's own.
   */
  function OperationFailure<T>(op: Operation<T>, serialize: T -> Option<string>): Failure
  {
    if JsonBody(op.body, serialize).Ok? && !Sendable(op.httpMethod, op.endpoint) then NullPointerException else IOException
  }

  /** The request of an operation whose body serialised. */
  function OperationRequest<T>(op: Operation<T>, serialize: T -> Option<string>): Request
    requires JsonBody(op.body, serialize).Ok?
  {
    WithBody(op.httpMethod, op.endpoint, JsonBody(op.body, serialize).value)
  }

  /** The requests of the first `n` operations, none of which failed. */
  function BatchRequests<T>(ops: seq<Operation<T>>, n: nat, serialize: T -> Option<string>, failAt: Option<nat>): (r: seq<Request>)
    requires n <= |ops|
    requires forall k :: 0 <= k < n ==> !OperationFails(ops, k, serialize, failAt)
    ensures |r| == n
    ensures forall k :: 0 <= k < n ==> !OperationFails(ops, k, serialize, failAt) && r[k] == OperationRequest(ops[k], serialize)
  {
    seq(n, k requires 0 <= k < n && !OperationFails(ops, k, serialize, failAt) => OperationRequest(ops[k], serialize))
  }

  /** The result list: method and endpoint of every operation, in order, with status `completed`. */
  function Summaries<T>(ops: seq<Operation<T>>): (r: seq<Summary>)
    ensures |r| == |ops|
    ensures forall k :: 0 <= k < |ops| ==> r[k].httpMethod == ops[k].httpMethod && r[k].endpoint == ops[k].endpoint
    ensures forall k :: 0 <= k < |ops| ==> r[k].status == Completed
  {
    seq(|ops|, k requires 0 <= k < |ops| => Summary(ops[k].httpMethod, ops[k].endpoint, Completed))
  }

  /** The utility's view of the low-level client: every request it was given, in order. */
  class EsIndexManagementUtil {
    var performed: seq<Request>
    var deleted: seq<string>

    constructor()
      ensures performed == [] && deleted == []
    {
      performed := [];
      deleted := [];
    }

    /**
     * `executeRequest`: a null method or endpoint throws before anything is
     * sent; otherwise one request goes out, the body attached as `WithBody`
     * says, and `response` is the decoded answer, `None` when it throws.
     */
    method ExecuteRequest(httpMethod: Option<string>, endpoint: Option<string>, requestBody: Option<string>, response: Option<ResponseMap>)
      returns (r: Result<ResponseMap, Failure>)
      modifies this
      ensures !Sendable(httpMethod, endpoint) ==> r == Err(NullPointerException) && performed == old(performed)
      ensures Sendable(httpMethod, endpoint) ==> performed == old(performed) + [WithBody(httpMethod, endpoint, requestBody)]
      ensures deleted == old(deleted)
      ensures Sendable(httpMethod, endpoint) && response.None? ==> r == Err(IOException)
      ensures Sendable(httpMethod, endpoint) && response.Some? ==> r == Ok(response.value)
    {
      if !Sendable(httpMethod, endpoint) {
        return Err(NullPointerException);
      }
      performed := performed + [WithBody(httpMethod, endpoint, requestBody)];
      if response.None? {
        return Err(IOException);
      }
      r := Ok(response.value);
    }

    /**
     * `deleteDeprecationIndices`: lists the `.deprecation` indices
     * (`listing`, `None` when that throws); with none it answers true and
     * deletes nothing; otherwise it hands one delete request, naming them
     * as `JoinNames` writes them, to the index client and answers the
     * acknowledgement. `deleted` records the delete requests handed over,
     * not deletions that reached the cluster: the source passes null
     * `RequestOptions` to that call, whose effect belongs to the client
     * library and is not modelled.
     */
    method DeleteDeprecationIndices(listing: Option<seq<string>>, acknowledged: Option<bool>) returns (r: Result<bool, Failure>)
      modifies this
      ensures performed == old(performed) + [Request(Some("GET"), Some(ListDeprecationIndices), None)]
      ensures listing.None? ==> r == Err(IOException) && deleted == old(deleted)
      ensures listing == Some([]) ==> r == Ok(true) && deleted == old(deleted)
      ensures listing.Some? && listing.value != [] ==> deleted == old(deleted) + [JoinNames(listing.value)]
      ensures listing.Some? && listing.value != [] ==> r == if acknowledged.Some? then Ok(acknowledged.value) else Err(IOException)
    {
      performed := performed + [Request(Some("GET"), Some(ListDeprecationIndices), None)];
      if listing.None? {
        return Err(IOException);
      }
      var indices := listing.value;
      if |indices| == 0 {
        return Ok(true);
      }
      var indexNames := "";
      for i := 0 to |indices|
        invariant indexNames == JoinNames(indices[..i])
      {
        assert indices[..i + 1][..i] == indices[..i];
        if |indexNames| > 0 {
          indexNames := indexNames + ",";
        }
        indexNames := indexNames + indices[i];
      }
      assert indices[..|indices|] == indices;
      deleted := deleted + [indexNames];
      if acknowledged.None? {
        return Err(IOException);
      }
      r := Ok(acknowledged.value);
    }

    /**
     * `executeBatchOperations`: null or empty gives an empty list and no
     * request. Otherwise the operations are sent in order until one fails
     * (its body does not serialise, its method or endpoint is null, or its
     * request, number `failAt`, throws), and that failure is the result;
     * only a request that was built is sent. When none fails the result is
     * one `completed` summary per operation.
     */
    method ExecuteBatchOperations<T>(operations: Option<seq<Operation<T>>>, serialize: T -> Option<string>, failAt: Option<nat>)
      returns (r: Result<seq<Summary>, Failure>)
      modifies this
      ensures deleted == old(deleted)
      ensures operations.None? || operations.value == [] ==> r == Ok([]) && performed == old(performed)
      ensures operations.Some? ==> (r.Ok? <==> forall k :: 0 <= k < |operations.value| ==> !OperationFails(operations.value, k, serialize, failAt))
      ensures operations.Some? && r.Ok? ==>
        && r.value == Summaries(operations.value)
        && performed == old(performed) + BatchRequests(operations.value, |operations.value|, serialize, failAt)
      ensures operations.Some? && r.Err? ==>
        exists n ::
          && 0 <= n < |operations.value|
          && OperationFails(operations.value, n, serialize, failAt)
          && (forall k :: 0 <= k < n ==> !OperationFails(operations.value, k, serialize, failAt))
          && r.error == OperationFailure(operations.value[n], serialize)
          && performed == old(performed) + BatchRequests(operations.value, n, serialize, failAt)
            + (if JsonBody(operations.value[n].body, serialize).Ok? && Sendable(operations.value[n].httpMethod, operations.value[n].endpoint)
               then [OperationRequest(operations.value[n], serialize)] else [])
    {
      if operations.None? || |operations.value| == 0 {
        return Ok([]);
      }
      var ops := operations.value;
      for i := 0 to |ops|
        invariant forall k :: 0 <= k < i ==> !OperationFails(ops, k, serialize, failAt)
        invariant performed == old(performed) + BatchRequests(ops, i, serialize, failAt)
        invariant deleted == old(deleted)
      {
        var jsonBody := JsonBody(ops[i].body, serialize);
        if jsonBody.Err? {
          assert OperationFails(ops, i, serialize, failAt);
          assert performed == old(performed) + BatchRequests(ops, i, serialize, failAt) + [];
          return Err(IOException);
        }
        if !Sendable(ops[i].httpMethod, ops[i].endpoint) {
          assert OperationFails(ops, i, serialize, failAt);
          assert performed == old(performed) + BatchRequests(ops, i, serialize, failAt) + [];
          return Err(NullPointerException);
        }
        var request := WithBody(ops[i].httpMethod, ops[i].endpoint, jsonBody.value);
        performed := performed + [request];
        if failAt == Some(i) {
          assert OperationFails(ops, i, serialize, failAt);
          assert request == OperationRequest(ops[i], serialize);
          return Err(IOException);
        }
        assert BatchRequests(ops, i + 1, serialize, failAt) == BatchRequests(ops, i, serialize, failAt) + [request];
      }
      r := Ok(Summaries(ops));
    }

    /** `indexExists`: true when the listing for the name has a row; any exception (`rows == None`) gives false. */
    method IndexExists(indexName: Option<string>, rows: Option<nat>) returns (b: bool)
      modifies this
      ensures performed == old(performed) + [Request(Some("GET"), Some("/_cat/indices/" + ValueOf(indexName) + "?format=json"), None)]
      ensures deleted == old(deleted)
      ensures b <==> rows.Some? && rows.value > 0
    {
      performed := performed + [Request(Some("GET"), Some("/_cat/indices/" + ValueOf(indexName) + "?format=json"), None)];
      b := rows.Some? && rows.value > 0;
    }

    /** `openIndex` and `closeIndex`: the existence check, then a POST on `/<name>` followed by the action path, whose answer must acknowledge. */
    method AcknowledgedAction(indexName: Option<string>, action: string, rows: Option<nat>, response: Option<ResponseMap>)
      returns (r: Result<bool, Failure>)
      modifies this
      ensures deleted == old(deleted)
      ensures |performed| > |old(performed)|
      ensures performed[..|old(performed)| + 1] == old(performed) + [Request(Some("GET"), Some("/_cat/indices/" + ValueOf(indexName) + "?format=json"), None)]
      ensures !(rows.Some? && rows.value > 0) ==> r == Ok(false) && |performed| == |old(performed)| + 1
      ensures rows.Some? && rows.value > 0 ==>
        performed == old(performed) + [
          Request(Some("GET"), Some("/_cat/indices/" + ValueOf(indexName) + "?format=json"), None),
          Request(Some("POST"), Some("/" + ValueOf(indexName) + action), None)]
      ensures rows.Some? && rows.value > 0 && response.None? ==> r == Err(IOException)
      ensures rows.Some? && rows.value > 0 && response.Some? ==> r == Acknowledged(response.value)
    {
      var present := IndexExists(indexName, rows);
      if !present {
        return Ok(false);
      }
      var result := ExecuteRequest(Some("POST"), Some("/" + ValueOf(indexName) + action), None, response);
      if result.Err? {
        return Err(result.error);
      }
      r := Acknowledged(result.value);
    }

    /** `openIndex`: true only when the index exists and the `_open` request is acknowledged. */
    method OpenIndex(indexName: Option<string>, rows: Option<nat>, response: Option<ResponseMap>) returns (r: Result<bool, Failure>)
      modifies this
      ensures deleted == old(deleted)
      ensures r == Ok(true) ==>
        && rows.Some? && rows.value > 0 && response.Some?
        && "acknowledged" in response.value && response.value["acknowledged"] == Bool(true)
      ensures !(rows.Some? && rows.value > 0) ==>
        r == Ok(false) && performed == old(performed) + [Request(Some("GET"), Some("/_cat/indices/" + ValueOf(indexName) + "?format=json"), None)]
      ensures rows.Some? && rows.value > 0 ==>
        performed == old(performed) + [
          Request(Some("GET"), Some("/_cat/indices/" + ValueOf(indexName) + "?format=json"), None),
          Request(Some("POST"), Some("/" + ValueOf(indexName) + "/_open"), None)]
      ensures rows.Some? && rows.value > 0 && response.None? ==> r == Err(IOException)
      ensures rows.Some? && rows.value > 0 && response.Some? ==> r == Acknowledged(response.value)
    {
      r := AcknowledgedAction(indexName, "/_open", rows, response);
    }

    /** `closeIndex`: true only when the index exists and the `_close` request is acknowledged. */
    method CloseIndex(indexName: Option<string>, rows: Option<nat>, response: Option<ResponseMap>) returns (r: Result<bool, Failure>)
      modifies this
      ensures deleted == old(deleted)
      ensures r == Ok(true) ==>
        && rows.Some? && rows.value > 0 && response.Some?
        && "acknowledged" in response.value && response.value["acknowledged"] == Bool(true)
      ensures !(rows.Some? && rows.value > 0) ==>
        r == Ok(false) && performed == old(performed) + [Request(Some("GET"), Some("/_cat/indices/" + ValueOf(indexName) + "?format=json"), None)]
      ensures rows.Some? && rows.value > 0 ==>
        performed == old(performed) + [
          Request(Some("GET"), Some("/_cat/indices/" + ValueOf(indexName) + "?format=json"), None),
          Request(Some("POST"), Some("/" + ValueOf(indexName) + "/_close"), None)]
      ensures rows.Some? && rows.value > 0 && response.None? ==> r == Err(IOException)
      ensures rows.Some? && rows.value > 0 && response.Some? ==> r == Acknowledged(response.value)
    {
      r := AcknowledgedAction(indexName, "/_close", rows, response);
    }
  }
}
