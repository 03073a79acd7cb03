/**
 * The starter's `core.client.RestClientFactory`: one `RestHighLevelClient`
 * per process, built on first use from the configured host list, in which
 * blank entries are skipped.
 */
module CoreRestClientFactory {
  import opened Wrappers
  import opened JavaText
  import opened HttpHosts

  /** The connection settings of `config.ElasticsearchLoggingProperties`. */
  datatype Properties = Properties(
    hosts: string,
    scheme: string,
    username: Option<string>,
    password: Option<string>,
    connectTimeout: int,
    socketTimeout: int,
    maxConnTotal: int,
    maxConnPerRoute: int)

  const DefaultProperties: Properties := Properties("localhost:9200", "http", None, None, 5000, 30000, 30, 10)

  /** The client built: its hosts and the settings of its HTTP client. */
  datatype RestHighLevelClient = RestHighLevelClient(
    hosts: seq<HttpHost>,
    credentials: Option<(string, string)>,
    maxConnTotal: int,
    maxConnPerRoute: int,
    connectTimeout: int,
    socketTimeout: int)

  /** `.filter(s -> !s.isEmpty())`. */
  function NonEmpty(entries: seq<string>): (r: seq<string>)
    ensures |r| <= |entries|
    ensures forall k :: 0 <= k < |r| ==> r[k] != []
    decreases |entries|
  {
    if entries == [] then []
    else
      var last := entries[|entries| - 1];
      NonEmpty(entries[..|entries| - 1]) + (if last == [] then [] else [last])
  }

  /** The filter keeps exactly the non-empty entries. */
  lemma {:induction false} NonEmptyExactly(entries: seq<string>)
    ensures forall e :: e in NonEmpty(entries) <==> e != [] && e in entries
    decreases |entries|
  {
    if entries != [] {
      var init := entries[..|entries| - 1];
      NonEmptyExactly(init);
      assert entries == init + [entries[|entries| - 1]];
    }
  }

  /** With no empty entry, the filter changes nothing. */
  lemma {:induction false} NonEmptyKeepsAll(entries: seq<string>)
    requires forall k :: 0 <= k < |entries| ==> entries[k] != []
    ensures NonEmpty(entries) == entries
    decreases |entries|
  {
    if entries != [] {
      var init := entries[..|entries| - 1];
      NonEmptyKeepsAll(init);
      assert init + [entries[|entries| - 1]] == entries;
    }
  }

  /** The entries `parseHosts` turns into hosts: the comma-separated parts, trimmed, blanks dropped. */
  function HostEntriesOf(hosts: string): seq<string>
  {
    NonEmpty(Trimmed(Split(hosts, ',')))
  }

  /**
   * `parseHosts`: one host per non-blank entry, in order, all with the
   * given scheme; the first entry that throws decides the error.
   */
  function ParseHosts(hosts: string, scheme: string): (r: Result<seq<HttpHost>, HostError>)
    ensures r.Ok? ==> |r.value| == |HostEntriesOf(hosts)|
    ensures r.Ok? ==> forall k :: 0 <= k < |r.value| ==> r.value[k].scheme == scheme
  {
    ParseAll(HostEntriesOf(hosts), scheme)
  }

  /** A list written as `name:port` entries joined by commas parses back to the same hosts. */
  lemma ParseHostsRoundTrip(hs: seq<HttpHost>, scheme: string)
    requires hs != []
    requires forall k :: 0 <= k < |hs| ==> Writable(hs[k]) && hs[k].scheme == scheme
    ensures ParseHosts(Join(HostEntries(hs), ','), scheme) == Ok(hs)
  {
    var entries := HostEntries(hs);
    forall k | 0 <= k < |hs| ensures entries[k] != [] && ',' !in entries[k] && Trim(entries[k]) == entries[k] {
      ParseHostEntry(hs[k]);
    }
    SplitJoin(entries, ',');
    assert Trimmed(entries) == entries;
    NonEmptyKeepsAll(entries);
    ParseAllEntries(hs, scheme);
  }

  /** `buildClient`: the parsed hosts, credentials only when both are given, and the pool and timeout settings. */
  function BuildClient(properties: Properties): (r: Result<RestHighLevelClient, HostError>)
    ensures r.Ok? <==> ParseHosts(properties.hosts, properties.scheme).Ok?
    ensures r.Ok? ==> r.value.hosts == ParseHosts(properties.hosts, properties.scheme).value
    ensures r.Ok? ==> (r.value.credentials.Some? <==> properties.username.Some? && properties.password.Some?)
  {
    match ParseHosts(properties.hosts, properties.scheme)
    case Err(e) => Err(e)
    case Ok(hosts) =>
      Ok(RestHighLevelClient(hosts, Credentials(properties.username, properties.password),
        properties.maxConnTotal, properties.maxConnPerRoute, properties.connectTimeout, properties.socketTimeout))
  }

  /** The factory's static state: the client, once built. */
  class RestClientFactory {
    var client: Option<RestHighLevelClient>

    constructor()
      ensures client == None
    {
      client := None;
    }

    /**
     * `createElasticsearchClient`: builds the client on the first call
     * that succeeds; every later call returns that same client, whatever
     * properties it passes. A build that throws leaves no client behind.
     */
    method CreateElasticsearchClient(properties: Properties) returns (r: Result<RestHighLevelClient, HostError>)
      modifies this
      ensures old(client).Some? ==> r == Ok(old(client).value) && client == old(client)
      ensures old(client).None? ==> r == BuildClient(properties)
      ensures r.Ok? ==> client == Some(r.value)
      ensures r.Err? ==> client == None
    {
      if client.None? {
        var built := BuildClient(properties);
        if built.Err? {
          return Err(built.error);
        }
        client := Some(built.value);
      }
      r := Ok(client.value);
    }
  }
}
