/**
 * The starter's `client.RestClientFactory`: one low-level `RestClient`
 * with a connection pool, and one `ElasticsearchClient` over it, built on
 * first use. Unlike the core factory it passes blank host entries on to
 * `HttpHost` unfiltered (whose rejection of an empty host name is not
 * part of this model).
 */
module ClientRestClientFactory {
  import opened Wrappers
  import opened JavaText
  import opened HttpHosts
  import Core = CoreRestClientFactory

  /** The connection settings of `autoconfigure.ElasticsearchLoggingProperties`. */
  datatype Properties = Properties(
    hosts: string,
    scheme: string,
    username: Option<string>,
    password: Option<string>,
    connectTimeout: int,
    socketTimeout: int,
    connectionRequestTimeout: int,
    maxConnTotal: int,
    maxConnPerRoute: int)

  const DefaultProperties: Properties := Properties("localhost:9200", "http", None, None, 5000, 30000, 1000, 30, 10)

  /** The pooled client built: its hosts and the settings given to its builder. */
  datatype RestClient = RestClient(
    hosts: seq<HttpHost>,
    credentials: Option<(string, string)>,
    maxConnTotal: int,
    maxConnPerRoute: int,
    connectTimeout: int,
    socketTimeout: int,
    connectionRequestTimeout: int,
    compression: bool)

  /** The typed client over a Jackson-mapped transport of that `RestClient`. */
  datatype ElasticsearchClient = ElasticsearchClient(transport: RestClient)

  /** What the host loop computes: one host per comma-separated part, trimmed, blanks included. */
  function PoolHosts(hosts: string, scheme: string): Result<seq<HttpHost>, HostError>
  {
    ParseAll(Trimmed(Split(hosts, ',')), scheme)
  }

  /** A blank entry is not skipped: it becomes a host with an empty name on port 9200. */
  lemma BlankEntryKept(hosts: string, scheme: string, k: nat)
    requires k < |Split(hosts, ',')| && Trim(Split(hosts, ',')[k]) == []
    requires PoolHosts(hosts, scheme).Ok?
    ensures |PoolHosts(hosts, scheme).value| == |Split(hosts, ',')|
    ensures PoolHosts(hosts, scheme).value[k] == HttpHost("", DefaultPort, scheme)
  {
    EmptyEntryHost(Trimmed(Split(hosts, ',')), scheme, k);
  }

  lemma EmptyEntryHost(entries: seq<string>, scheme: string, k: nat)
    requires k < |entries| && entries[k] == []
    requires ParseAll(entries, scheme).Ok?
    ensures |ParseAll(entries, scheme).value| == |entries|
    ensures ParseAll(entries, scheme).value[k] == HttpHost("", DefaultPort, scheme)
  {
    var results := seq(|entries|, i requires 0 <= i < |entries| => ParseHost(entries[i], scheme));
    assert results[k] == ParseHost([], scheme);
  }

  /** When no entry is blank, both factories derive the same hosts from the same setting. */
  lemma AgreesWithCore(hosts: string, scheme: string)
    requires forall k :: 0 <= k < |Split(hosts, ',')| ==> Trim(Split(hosts, ',')[k]) != []
    ensures PoolHosts(hosts, scheme) == Core.ParseHosts(hosts, scheme)
  {
    Core.NonEmptyKeepsAll(Trimmed(Split(hosts, ',')));
  }

  /**
   * The loop of `createRestClientWithPool`: the array is filled entry by
   * entry, each part trimmed and parsed, and the first part that throws
   * ends it; the result is what `ParseAll` gives for the trimmed parts.
   */
  method ParseHostArray(hostArray: seq<string>, scheme: string) returns (r: Result<seq<HttpHost>, HostError>)
    ensures r == ParseAll(Trimmed(hostArray), scheme)
  {
    var httpHosts := new HttpHost[|hostArray|];
    ghost var entries := Trimmed(hostArray);
    ghost var results := seq(|entries|, k requires 0 <= k < |entries| => ParseHost(entries[k], scheme));
    ghost var hosts: seq<HttpHost> := [];
    for i := 0 to |hostArray|
      invariant httpHosts[..i] == hosts
      invariant forall k :: 0 <= k < i ==> results[k] == Ok(hosts[k])
    {
      var parsed := ParseHost(Trim(hostArray[i]), scheme);
      assert results[i] == parsed;
      if parsed.Err? {
        CollectFirstError(results, i);
        return Err(parsed.error);
      }
      httpHosts[i] := parsed.value;
      hosts := hosts + [parsed.value];
      assert httpHosts[..i + 1] == httpHosts[..i] + [parsed.value];
    }
    assert httpHosts[..] == httpHosts[..|hostArray|];
    CollectAllOk(results, hosts);
    r := Ok(httpHosts[..]);
  }

  /** The factory's static state. */
  class RestClientFactory {
    var restClient: Option<RestClient>
    var elasticsearchClient: Option<ElasticsearchClient>

    constructor()
      ensures Valid() && restClient == None && elasticsearchClient == None
    {
      restClient := None;
      elasticsearchClient := None;
    }

    /** Both stored clients belong together: the typed client wraps the stored `RestClient`. */
    predicate Valid()
      reads this
    {
      elasticsearchClient.Some? ==> restClient == Some(elasticsearchClient.value.transport)
    }

    /**
     * `createRestClientWithPool`: on success the client has every host of
     * `PoolHosts`, credentials only when both the user name and the
     * password are set, the pool and timeout settings, and compression on;
     * it is stored as the current `RestClient`.
     */
    method CreateRestClientWithPool(properties: Properties) returns (r: Result<RestClient, HostError>)
      modifies this
      ensures r.Ok? <==> PoolHosts(properties.hosts, properties.scheme).Ok?
      ensures r.Ok? ==> r.value.hosts == PoolHosts(properties.hosts, properties.scheme).value
      ensures r.Err? ==> r.error == PoolHosts(properties.hosts, properties.scheme).error
      ensures r.Ok? ==> r.value.credentials == Credentials(properties.username, properties.password)
      ensures r.Ok? ==> r.value.compression
      ensures r.Ok? ==> restClient == Some(r.value)
      ensures r.Err? ==> restClient == old(restClient)
      ensures elasticsearchClient == old(elasticsearchClient)
    {
      var hostArray := Split(properties.hosts, ',');
      var parsed := ParseHostArray(hostArray, properties.scheme);
      if parsed.Err? {
        return Err(parsed.error);
      }
      var client := RestClient(parsed.value, Credentials(properties.username, properties.password),
        properties.maxConnTotal, properties.maxConnPerRoute,
        properties.connectTimeout, properties.socketTimeout, properties.connectionRequestTimeout, true);
      restClient := Some(client);
      r := Ok(client);
    }

    /**
     * `createElasticsearchClient`: the first call that succeeds builds both
     * clients; every later call returns the same `ElasticsearchClient`. A
     * build that throws leaves the stored clients as they were.
     */
    method CreateElasticsearchClient(properties: Properties) returns (r: Result<ElasticsearchClient, HostError>)
      modifies this
      requires Valid()
      ensures Valid()
      ensures old(elasticsearchClient).Some? ==> r == Ok(old(elasticsearchClient).value) && elasticsearchClient == old(elasticsearchClient) && restClient == old(restClient)
      ensures old(elasticsearchClient).None? ==> (r.Ok? <==> PoolHosts(properties.hosts, properties.scheme).Ok?)
      ensures old(elasticsearchClient).None? && r.Ok? ==> r.value.transport.hosts == PoolHosts(properties.hosts, properties.scheme).value
      ensures r.Ok? ==> elasticsearchClient == Some(r.value) && restClient == Some(r.value.transport)
      ensures r.Err? ==> elasticsearchClient == None && restClient == old(restClient)
    {
      if elasticsearchClient.None? {
        var built := CreateRestClientWithPool(properties);
        if built.Err? {
          return Err(built.error);
        }
        restClient := Some(built.value);
        elasticsearchClient := Some(ElasticsearchClient(built.value));
      }
      r := Ok(elasticsearchClient.value);
    }
  }
}
