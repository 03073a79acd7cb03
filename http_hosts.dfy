/**
 * Host-list parsing shared by both `RestClientFactory` classes: a
 * comma-separated list of `host[:port]` entries becomes `HttpHost` values,
 * with the port defaulting to 9200 and one scheme for every host.
 */
module HttpHosts {
  import opened Wrappers
  import opened JavaText

  const DefaultPort: int := 9200

  /** `new HttpHost(hostName, port, scheme)`. */
  datatype HttpHost = HttpHost(hostName: string, port: int, scheme: string)

  /**
   * What parsing an entry can throw: `NumberFormatException` for a port
   * that is not an `int`, `ArrayIndexOutOfBoundsException` when `split`
   * leaves no part at all.
   */
  datatype HostError = NumberFormat(input: string) | IndexOutOfBounds

  /** `split` leaves no part exactly when the string is nothing but separators. */
  lemma SplitEmptyIff(s: string, c: char)
    ensures Split(s, c) == [] <==> s != [] && forall i :: 0 <= i < |s| ==> s[i] == c
  {
    if c in s {
      var raw := SplitRaw(s, c);
      assert Split(s, c) == DropTrailingEmpty(raw);
      SplitRawAllEmpty(s, c);
      var allEmpty := forall i :: 0 <= i < |raw| ==> raw[i] == [];
      var allSep := forall i :: 0 <= i < |s| ==> s[i] == c;
      assert allEmpty <==> allSep;
      if DropTrailingEmpty(raw) != [] {
        DropTrailingEmptyLast(raw);
        assert !allSep;
      } else {
        assert allEmpty;
        assert allSep;
      }
    } else if s != [] {
      assert s[0] in s;
    }
  }

  /** When something is left after dropping trailing empties, the raw parts were not all empty. */
  lemma DropTrailingEmptyLast(raw: seq<string>)
    requires DropTrailingEmpty(raw) != []
    ensures !(forall i :: 0 <= i < |raw| ==> raw[i] == [])
  {
    var r := DropTrailingEmpty(raw);
    assert r[|r| - 1] == raw[|r| - 1];
  }

  lemma {:induction false} SplitRawAllEmpty(s: string, c: char)
    ensures (forall i :: 0 <= i < |SplitRaw(s, c)| ==> SplitRaw(s, c)[i] == []) <==> (forall i :: 0 <= i < |s| ==> s[i] == c)
    decreases |s|
  {
    if s != [] {
      SplitRawAllEmpty(s[1..], c);
      var rest := SplitRaw(s[1..], c);
      if s[0] == c {
        var raw := SplitRaw(s, c);
        assert raw == [[]] + rest;
        assert forall i :: 0 <= i < |rest| ==> rest[i] == raw[i + 1];
        assert forall i :: 1 <= i < |s| ==> s[i] == s[1..][i - 1];
      } else {
        assert SplitRaw(s, c)[0] != [];
      }
    }
  }

  /** The first part of a split is the text before the first separator. */
  lemma SplitFirst(s: string, c: char)
    requires Split(s, c) != []
    ensures var first := Split(s, c)[0];
      first <= s && (|first| < |s| ==> s[|first|] == c)
  {
    if c in s {
      SplitRawFirst(s, c);
    }
  }

  lemma {:induction false} SplitRawFirst(s: string, c: char)
    ensures var first := SplitRaw(s, c)[0];
      first <= s && (|first| < |s| ==> s[|first|] == c)
    decreases |s|
  {
    if s != [] && s[0] != c {
      SplitRawFirst(s[1..], c);
    }
  }

  /**
   * One trimmed entry: `split(":")`, the host is part 0 and the port is
   * part 1 parsed as an `int`, or 9200 when there is no part 1. Further
   * parts are ignored.
   */
  function ParseHost(entry: string, scheme: string): (r: Result<HttpHost, HostError>)
    ensures ':' !in entry ==> r == Ok(HttpHost(entry, DefaultPort, scheme))
    ensures r.Ok? ==> r.value.scheme == scheme && IsInt32(r.value.port)
  {
    var parts := Split(entry, ':');
    if parts == [] then Err(IndexOutOfBounds)
    else if |parts| > 1 then
      match ParseInt(parts[1])
      case Ok(port) => Ok(HttpHost(parts[0], port, scheme))
      case Err(e) => Err(NumberFormat(e.input))
    else Ok(HttpHost(parts[0], DefaultPort, scheme))
  }

  /**
   * The host name is the text before the first `:`, and the entry throws
   * `ArrayIndexOutOfBoundsException` exactly when it is nothing but colons.
   */
  lemma ParseHostShape(entry: string, scheme: string)
    ensures var r := ParseHost(entry, scheme);
      && (r.Ok? ==>
            && ':' !in r.value.hostName && r.value.hostName <= entry
            && (|r.value.hostName| < |entry| ==> entry[|r.value.hostName|] == ':'))
      && (r == Err(IndexOutOfBounds) <==> entry != [] && forall i :: 0 <= i < |entry| ==> entry[i] == ':')
  {
    SplitEmptyIff(entry, ':');
    if Split(entry, ':') != [] {
      SplitFirst(entry, ':');
    }
  }

  /**
   * The results gathered in order, stopping at the first error, as a
   * stream or a loop does when the first exception escapes.
   */
  function Collect<T, E>(results: seq<Result<T, E>>): (r: Result<seq<T>, E>)
    ensures r.Ok? <==> forall k :: 0 <= k < |results| ==> results[k].Ok?
    ensures r.Ok? ==> |r.value| == |results| && forall k :: 0 <= k < |results| ==> r.value[k] == results[k].value
    ensures r.Err? ==> exists k :: 0 <= k < |results| && FirstError(results, k) && r.error == results[k].error
    decreases |results|
  {
    if results == [] then Ok([])
    else
      var init := results[..|results| - 1];
      assert forall k :: 0 <= k < |init| ==> init[k] == results[k];
      match Collect(init)
      case Err(e) => Err(e)
      case Ok(values) =>
        match results[|results| - 1]
        case Err(e) =>
          assert FirstError(results, |results| - 1);
          Err(e)
        case Ok(v) => Ok(values + [v])
  }

  /** Result `k` is the first error. */
  predicate FirstError<T, E>(results: seq<Result<T, E>>, k: nat)
    requires k < |results|
  {
    results[k].Err? && forall j :: 0 <= j < k ==> results[j].Ok?
  }

  /** There is only one first error. */
  lemma FirstErrorUnique<T, E>(results: seq<Result<T, E>>, i: nat, j: nat)
    requires i < |results| && j < |results|
    requires FirstError(results, i) && FirstError(results, j)
    ensures i == j
  {
  }

  /** All results `Ok`: their values, in order. */
  lemma CollectAllOk<T, E>(results: seq<Result<T, E>>, values: seq<T>)
    requires |values| == |results|
    requires forall k :: 0 <= k < |results| ==> results[k] == Ok(values[k])
    ensures Collect(results) == Ok(values)
  {
    assert Collect(results).value == values;
  }

  /** Otherwise the first error. */
  lemma CollectFirstError<T, E>(results: seq<Result<T, E>>, i: nat)
    requires i < |results| && FirstError(results, i)
    ensures Collect(results) == Err(results[i].error)
  {
    var j :| 0 <= j < |results| && FirstError(results, j) && Collect(results).error == results[j].error;
    FirstErrorUnique(results, i, j);
  }

  /** Every entry parsed, in order; the first entry that throws decides the error. */
  function ParseAll(entries: seq<string>, scheme: string): (r: Result<seq<HttpHost>, HostError>)
    ensures r.Ok? ==> |r.value| == |entries|
    ensures r.Ok? ==> forall k :: 0 <= k < |r.value| ==> r.value[k].scheme == scheme
    ensures (forall k :: 0 <= k < |entries| ==> ':' !in entries[k])
      ==> r.Ok? && forall k :: 0 <= k < |r.value| ==> r.value[k] == HttpHost(entries[k], DefaultPort, scheme)
  {
    Collect(seq(|entries|, k requires 0 <= k < |entries| => ParseHost(entries[k], scheme)))
  }

  /** `.map(String::trim)` over the comma-separated parts. */
  function Trimmed(parts: seq<string>): (r: seq<string>)
    ensures |r| == |parts| && forall k :: 0 <= k < |parts| ==> r[k] == Trim(parts[k])
  {
    seq(|parts|, k requires 0 <= k < |parts| => Trim(parts[k]))
  }

  /** `BasicCredentialsProvider` is set up only when both the user name and the password are non-null. */
  function Credentials(username: Option<string>, password: Option<string>): (c: Option<(string, string)>)
    ensures c.Some? <==> username.Some? && password.Some?
    ensures c.Some? ==> c.value == (username.value, password.value)
  {
    if username.Some? && password.Some? then Some((username.value, password.value)) else None
  }

  // ---------------------------------------------------------------------
  // Writing a host list back

  /** `name:port`. */
  function HostEntry(h: HttpHost): string
    requires 0 <= h.port
  {
    h.hostName + ":" + DecimalString(h.port)
  }

  /** A host that can be written as an entry and read back. */
  predicate Writable(h: HttpHost)
  {
    && h.hostName != []
    && ',' !in h.hostName && ':' !in h.hostName
    && !IsTrimmable(h.hostName[0]) && !IsTrimmable(h.hostName[|h.hostName| - 1])
    && 0 <= h.port <= MaxInt
  }

  /** The entries of a host list. */
  function HostEntries(hosts: seq<HttpHost>): (r: seq<string>)
    requires forall k :: 0 <= k < |hosts| ==> Writable(hosts[k])
    ensures |r| == |hosts| && forall k :: 0 <= k < |hosts| ==> Writable(hosts[k]) && r[k] == HostEntry(hosts[k])
  {
    seq(|hosts|, k requires 0 <= k < |hosts| && Writable(hosts[k]) => HostEntry(hosts[k]))
  }

  /** `name:port` reads back as the host it came from. */
  lemma ParseHostEntry(h: HttpHost)
    requires Writable(h)
    ensures ParseHost(HostEntry(h), h.scheme) == Ok(h)
    ensures ',' !in HostEntry(h) && Trim(HostEntry(h)) == HostEntry(h) && HostEntry(h) != []
  {
    var digits := DecimalString(h.port);
    var e := HostEntry(h);
    assert Join([h.hostName, digits], ':') == e;
    assert ':' !in digits && ',' !in digits by {
      forall i | 0 <= i < |digits| ensures IsAsciiDigit(digits[i]) { }
    }
    SplitJoin([h.hostName, digits], ':');
    ParseIntDecimal(h.port);
    assert e[0] == h.hostName[0];
    assert e[|e| - 1] == digits[|digits| - 1];
    assert IsAsciiDigit(digits[|digits| - 1]);
    assert forall i :: 0 <= i < |e| ==> e[i] != ',' by {
      forall i | 0 <= i < |e| ensures e[i] != ',' {
        if i < |h.hostName| {
          assert e[i] == h.hostName[i];
        } else if i > |h.hostName| {
          assert e[i] == digits[i - |h.hostName| - 1];
        }
      }
    }
  }

  /** Parsing the written entries of writable hosts gives the hosts back. */
  lemma ParseAllEntries(hosts: seq<HttpHost>, scheme: string)
    requires forall k :: 0 <= k < |hosts| ==> Writable(hosts[k]) && hosts[k].scheme == scheme
    ensures ParseAll(HostEntries(hosts), scheme) == Ok(hosts)
  {
    var entries := HostEntries(hosts);
    var results := seq(|entries|, k requires 0 <= k < |entries| => ParseHost(entries[k], scheme));
    forall k | 0 <= k < |hosts| ensures results[k] == Ok(hosts[k]) {
      ParseHostEntry(hosts[k]);
    }
    var r := Collect(results);
    assert r.Ok?;
    assert r.value == hosts;
  }
}
