/**
 * The demo's `EsCustomCommandService`: builds one raw REST request per
 * operation and hands it to `SimpleEsWriter.executeRequest`, or answers at
 * once when the index name is missing. What Elasticsearch answers is not
 * part of this model; each operation yields the request it sends.
 */
module EsCustomCommandService {
  import opened Wrappers
  import opened JavaText
  import opened Utils

  /** A raw request: HTTP method, endpoint, and JSON body (null for none). */
  datatype Request = Request(httpMethod: string, endpoint: string, body: Option<string>)

  /** What an operation does: sends one request, or returns a message without sending anything. */
  datatype Action = Send(request: Request) | Answer(text: string)

  const BlankNameError: string := "Error: Index name cannot be empty"
  const SerializeErrorPrefix: string := "Error: Failed to serialize data - "
  const MatchAllQuery: string := "{\"query\": {\"match_all\": {}}}"
  const CatIndices: string := "/_cat/indices"

  /** `executeRequest`: the three arguments, passed on unchanged. */
  function ExecuteRequest(httpMethod: string, endpoint: string, jsonBody: Option<string>): Action
  {
    Send(Request(httpMethod, endpoint, jsonBody))
  }

  /** `listIndices`: a GET on `/_cat/indices` with the options as query string, `v` when there are none. */
  function ListIndices(options: Option<string>): (a: Action)
    ensures a.Send? && a.request.httpMethod == "GET" && a.request.body.None?
    ensures options.Some? && options.value != [] ==> a.request.endpoint == CatIndices + "?" + options.value
    ensures options.None? || options.value == [] ==> a.request.endpoint == CatIndices + "?v"
  {
    var endpoint := if options.Some? && options.value != [] then CatIndices + "?" + options.value else CatIndices + "?v";
    ExecuteRequest("GET", endpoint, None)
  }

  /** The query string of a `listIndices` request gives back the options, or `v`. */
  lemma ListIndicesQueryString(options: Option<string>)
    ensures var e := ListIndices(options).request.endpoint;
      && |e| > |CatIndices| && e[..|CatIndices| + 1] == CatIndices + "?"
      && e[|CatIndices| + 1..] == if options.Some? && options.value != [] then options.value else "v"
  {
  }

  /** `createIndex`: a PUT on `/<name>`, unless the name is null or blank. */
  function CreateIndex(indexName: Option<string>): (a: Action)
    ensures a.Answer? <==> IsBlank(indexName)
    ensures a.Answer? ==> a.text == BlankNameError
    ensures a.Send? ==> a.request == Request("PUT", "/" + indexName.value, None)
  {
    if IsBlank(indexName) then Answer(BlankNameError)
    else ExecuteRequest("PUT", "/" + indexName.value, None)
  }

  /**
   * `writeData`: a POST on `/<name>/_doc` with the serialised data; a
   * blank name is refused before anything is serialised, and a failed
   * serialisation is reported with the exception's message.
   */
  function WriteData<T>(indexName: Option<string>, data: T, serialize: T -> Result<string, Option<string>>): (a: Action)
    ensures IsBlank(indexName) ==> a == Answer(BlankNameError)
    ensures !IsBlank(indexName) && serialize(data).Err? ==> a == Answer(SerializeErrorPrefix + ValueOf(serialize(data).error))
    ensures a.Send? <==> !IsBlank(indexName) && serialize(data).Ok?
    ensures a.Send? ==> a.request == Request("POST", "/" + indexName.value + "/_doc", Some(serialize(data).value))
  {
    if IsBlank(indexName) then Answer(BlankNameError)
    else
      match serialize(data)
      case Err(message) => Answer(SerializeErrorPrefix + ValueOf(message))
      case Ok(json) => ExecuteRequest("POST", "/" + indexName.value + "/_doc", Some(json))
  }

  /** `searchData`: a GET on `/<name>/_search` with the query, or a match_all query when it is null or blank. */
  function SearchData(indexName: Option<string>, queryJson: Option<string>): (a: Action)
    ensures a.Answer? <==> IsBlank(indexName)
    ensures a.Answer? ==> a.text == BlankNameError
    ensures a.Send? ==> a.request.httpMethod == "GET" && a.request.endpoint == "/" + indexName.value + "/_search"
    ensures a.Send? && IsBlank(queryJson) ==> a.request.body == Some(MatchAllQuery)
    ensures a.Send? && !IsBlank(queryJson) ==> a.request.body == queryJson
  {
    if IsBlank(indexName) then Answer(BlankNameError)
    else
      var query := if IsBlank(queryJson) then MatchAllQuery else queryJson.value;
      ExecuteRequest("GET", "/" + indexName.value + "/_search", Some(query))
  }

  /** A search never goes out with a missing or blank body. */
  lemma SearchBodyNeverBlank(indexName: Option<string>, queryJson: Option<string>)
    requires SearchData(indexName, queryJson).Send?
    ensures !IsBlank(SearchData(indexName, queryJson).request.body)
  {
    if IsBlank(queryJson) {
      assert !IsTrimmable(MatchAllQuery[0]);
    }
  }

  /** `getIndexDetails`: a GET on `/<name>`, unless the name is null or blank. */
  function GetIndexDetails(indexName: Option<string>): (a: Action)
    ensures a.Answer? <==> IsBlank(indexName)
    ensures a.Answer? ==> a.text == BlankNameError
    ensures a.Send? ==> a.request == Request("GET", "/" + indexName.value, None)
  {
    if IsBlank(indexName) then Answer(BlankNameError)
    else ExecuteRequest("GET", "/" + indexName.value, None)
  }

  /** `deleteIndex`: a DELETE on `/<name>`, unless the name is null or blank. */
  function DeleteIndex(indexName: Option<string>): (a: Action)
    ensures a.Answer? <==> IsBlank(indexName)
    ensures a.Answer? ==> a.text == BlankNameError
    ensures a.Send? ==> a.request == Request("DELETE", "/" + indexName.value, None)
  {
    if IsBlank(indexName) then Answer(BlankNameError)
    else ExecuteRequest("DELETE", "/" + indexName.value, None)
  }

  /**
   * For one usable name the five index operations send five different
   * requests, each naming that index as the first path segment.
   */
  lemma IndexOperationsDistinct<T>(name: string, data: T, serialize: T -> Result<string, Option<string>>, queryJson: Option<string>)
    requires !IsBlank(Some(name)) && serialize(data).Ok?
    ensures var requests := [CreateIndex(Some(name)).request, WriteData(Some(name), data, serialize).request,
        SearchData(Some(name), queryJson).request, GetIndexDetails(Some(name)).request, DeleteIndex(Some(name)).request];
      && (forall i, j :: 0 <= i < j < 5 ==> requests[i] != requests[j])
      && (forall i :: 0 <= i < 5 ==> requests[i].endpoint[..|name| + 1] == "/" + name)
  {
    var path := "/" + name;
    var doc := path + "/_doc";
    var search := path + "/_search";
    var requests := [CreateIndex(Some(name)).request, WriteData(Some(name), data, serialize).request,
      SearchData(Some(name), queryJson).request, GetIndexDetails(Some(name)).request, DeleteIndex(Some(name)).request];
    assert requests[0] == Request("PUT", path, None);
    assert requests[1] == Request("POST", doc, Some(serialize(data).value));
    assert requests[2].httpMethod == "GET" && requests[2].endpoint == search;
    assert requests[3] == Request("GET", path, None);
    assert requests[4] == Request("DELETE", path, None);
    assert doc[..|name| + 1] == path && search[..|name| + 1] == path;
    assert |search| != |path|;
  }
}
