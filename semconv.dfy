/**
 * Attributes of the OpenTelemetry HTTP semantic conventions (version 1.21.0)
 * for an outbound request and its response, and the host/port splitter they
 * rest on.
 */
module SemConv {
  import opened Wrappers
  import GoStd
  import Http

  /** Unit (UCUM) of the request-duration histogram. */
  const HistogramMeasureUnitSeconds: string := "s"
  /** Instrument name of the request-duration histogram. */
  const ClientRequestDuration: string := "http.client.duration"

  const HttpRequestMethodKey: string := "http.request.method"
  const HttpResponseStatusCodeKey: string := "http.response.status_code"
  const ServerAddressKey: string := "server.address"

  /** An attribute value: the extractor only makes strings and integers. */
  datatype Value = StringValue(text: string) | IntValue(number: int)

  datatype KeyValue = KeyValue(key: string, value: Value)

  /** The keys the extractor files its attributes under. */
  datatype HttpConv = HttpConv(
    httpRequestMethodKey: string,
    httpResponseStatusCodeKey: string,
    serverAddressKey: string)

  const Conv: HttpConv := HttpConv(HttpRequestMethodKey, HttpResponseStatusCodeKey, ServerAddressKey)

  /** No two attributes share a key. */
  ghost predicate KeysDistinct(attrs: seq<KeyValue>) {
    forall i, j :: 0 <= i < j < |attrs| ==> attrs[i].key != attrs[j].key
  }

  // ---------------------------------------------------------------------
  // Host and port

  /** A split authority; `port` is NoPort when absent or unparsable. */
  datatype HostPort = HostPort(host: string, port: int)

  const NoPort: int := -1

  /**
   * Splits `host`, `host%zone`, `[host]`, `[host%zone]`, `host:port`,
   * `[host%zone]:port` or `:port`. Two cheap cases are answered directly: a
   * bracketed authority with no colon after its last `]`, and an unbracketed
   * one with no colon at all. The rest goes through SplitFull.
   */
  function SplitHostPort(hostport: string): (r: HostPort)
    ensures r.port == NoPort || 0 <= r.port <= GoStd.MaxUint16
    ensures r.port != NoPort ==>
      exists p :: GoStd.ParseUint16(p) == Some(r.port) &&
        (hostport == r.host + ":" + p || hostport == "[" + r.host + "]:" + p)
  {
    // strings.HasPrefix(hostport, "[")
    if |hostport| > 0 && hostport[0] == '[' then
      var addrEnd := GoStd.LastIndex(hostport, ']');
      if addrEnd < 0 then HostPort("", NoPort)
      else if GoStd.LastIndex(hostport[addrEnd..], ':') < 0 then HostPort(hostport[1..addrEnd], NoPort)
      else SplitFull(hostport)
    else if GoStd.LastIndex(hostport, ':') < 0 then HostPort(hostport, NoPort)
    else SplitFull(hostport)
  }

  /**
   * net.SplitHostPort, then the port text parsed as a 16-bit unsigned
   * decimal. A refused address loses its host; a refused port keeps it.
   */
  function SplitFull(hostport: string): (r: HostPort)
    ensures r.port == NoPort || 0 <= r.port <= GoStd.MaxUint16
    ensures GoStd.SplitHostPort(hostport).Failure? ==> r == HostPort("", NoPort)
    ensures GoStd.SplitHostPort(hostport).Success? ==>
      && r.host == GoStd.SplitHostPort(hostport).value.host
      && (r.port == NoPort <==> GoStd.ParseUint16(GoStd.SplitHostPort(hostport).value.port).None?)
    ensures r.port != NoPort ==>
      exists p :: GoStd.ParseUint16(p) == Some(r.port) &&
        (hostport == r.host + ":" + p || hostport == "[" + r.host + "]:" + p)
  {
    match GoStd.SplitHostPort(hostport)
    case Failure(_) => HostPort("", NoPort)
    case Success(t) =>
      match GoStd.ParseUint16(t.port)
      case None => HostPort(t.host, NoPort)
      case Some(p) => HostPort(t.host, p)
  }

  // ---------------------------------------------------------------------
  // Attribute builders

  /**
   * Response attributes: the status code when it is positive. It is filed
   * under the request-method key, not under HttpResponseStatusCodeKey.
   */
  function ClientResponse(res: Http.Response): (attrs: seq<KeyValue>)
    ensures |attrs| <= 1
    ensures |attrs| == 1 <==> res.statusCode > 0
    ensures |attrs| == 1 ==> attrs[0] == KeyValue(HttpRequestMethodKey, IntValue(res.statusCode))
  {
    if res.statusCode > 0 then [KeyValue(Conv.httpRequestMethodKey, IntValue(res.statusCode))] else []
  }

  /**
   * Request attributes: the method, then the server address when the host
   * survives two rounds of splitting (one here, one in PeerName).
   */
  function ClientRequest(req: Http.Request): (attrs: seq<KeyValue>)
    ensures 1 <= |attrs| <= 2
    ensures attrs[0] == KeyValue(HttpRequestMethodKey, StringValue(req.verb))
    ensures |attrs| == 2 <==>
      var peer := SplitHostPort(req.host).host;
      peer != "" && SplitHostPort(peer).host != ""
    ensures |attrs| == 2 ==>
      attrs[1] == KeyValue(ServerAddressKey, StringValue(SplitHostPort(SplitHostPort(req.host).host).host))
    ensures forall k :: 0 <= k < |attrs| && attrs[k].key == ServerAddressKey ==> attrs[k].value != StringValue("")
    ensures KeysDistinct(attrs)
  {
    var attrs := [KeyValue(Conv.httpRequestMethodKey, StringValue(req.verb))];
    var peer := SplitHostPort(req.host).host;
    if peer != "" then
      var named := PeerName(Conv, peer);
      assert named == [] || named == [KeyValue(ServerAddressKey, StringValue(SplitHostPort(peer).host))];
      attrs + named
    else attrs
  }

  /**
   * The server-address attribute of `address`, split once more: nothing when
   * the host is empty, the host alone whatever the port.
   */
  function PeerName(c: HttpConv, address: string): (attrs: seq<KeyValue>)
    ensures attrs == [] <==> SplitHostPort(address).host == ""
    ensures attrs != [] ==> attrs == [KeyValue(c.serverAddressKey, StringValue(SplitHostPort(address).host))]
  {
    var hp := SplitHostPort(address);
    var n := if hp.host != "" then (if hp.port > 0 then 2 else 1) else 0;
    if n == 0 then [] else [KeyValue(c.serverAddressKey, StringValue(hp.host))]
  }

  // ---------------------------------------------------------------------
  // Properties of the splitter

  /** An unbracketed authority without a colon is all host. */
  lemma SplitHostPortBare(hostport: string)
    requires ':' !in hostport && (hostport == [] || hostport[0] != '[')
    ensures SplitHostPort(hostport) == HostPort(hostport, NoPort)
  {
  }

  /** A leading `[` that is never closed leaves neither host nor port. */
  lemma SplitHostPortUnclosed(hostport: string)
    requires |hostport| > 0 && hostport[0] == '[' && ']' !in hostport
    ensures SplitHostPort(hostport) == HostPort("", NoPort)
  {
  }

  /**
   * A bracketed authority whose tail after the last `]` holds no colon is
   * answered without net.SplitHostPort: the host is everything between the
   * leading `[` and that `]` (zone, colons and earlier brackets included),
   * the tail is dropped, and there is no port.
   */
  lemma SplitHostPortBracketed(host: string, tail: string)
    requires ':' !in tail && ']' !in tail
    ensures SplitHostPort("[" + host + "]" + tail) == HostPort(host, NoPort)
  {
    var s := "[" + host + "]" + tail;
    var addrEnd := |host| + 1;
    assert s[addrEnd] == ']';
    assert forall k :: addrEnd < k < |s| ==> s[k] == tail[k - addrEnd - 1];
    assert GoStd.LastIndex(s, ']') == addrEnd;
    assert s[addrEnd..] == "]" + tail;
    assert ':' !in s[addrEnd..];
    assert s[1..addrEnd] == host;
  }

  /**
   * An unbracketed authority with two colons is refused by net.SplitHostPort
   * (too many colons), so it loses its host as well as its port.
   */
  lemma SplitHostPortTooManyColons(hostport: string, i: nat, j: nat)
    requires hostport == [] || hostport[0] != '['
    requires i < j < |hostport| && hostport[i] == ':' && hostport[j] == ':'
    ensures SplitHostPort(hostport) == HostPort("", NoPort)
  {
    var last := GoStd.LastIndex(hostport, ':');
    assert last >= j;
    assert hostport[..last][i] == ':';
    assert GoStd.SplitHostPort(hostport) == Failure(GoStd.TooManyColons);
  }

  /**
   * A joined host and port text takes the full path: the early exits only
   * answer authorities with no colon after their last bracket.
   */
  lemma JoinTakesFullPath(host: string, port: string)
    requires '[' !in host && ']' !in host
    requires ':' !in port && '[' !in port && ']' !in port
    ensures SplitHostPort(GoStd.JoinHostPort(host, port)) == SplitFull(GoStd.JoinHostPort(host, port))
  {
    var s := GoStd.JoinHostPort(host, port);
    if ':' in host {
      GoStd.BracketedShape(host, port);
      var addrEnd := |host| + 1;
      assert s[addrEnd..] == "]:" + port;
      assert forall k :: addrEnd < k < |s| ==> s[k] in s[|host| + 2..];
      assert GoStd.LastIndex(s, ']') == addrEnd;
      assert s[addrEnd..][1] == ':';
    } else {
      assert s[|host|] == ':';
      assert host != [] ==> s[0] == host[0];
    }
  }

  /**
   * Joining a bracket-free host with a 16-bit port and splitting again gives
   * back both; a colon in the host is what puts it in brackets.
   */
  lemma SplitHostPortJoinRoundTrip(host: string, port: nat)
    requires '[' !in host && ']' !in host
    requires port <= GoStd.MaxUint16
    ensures SplitHostPort(GoStd.JoinHostPort(host, GoStd.FormatUint(port))) == HostPort(host, port)
  {
    var text := GoStd.FormatUint(port);
    GoStd.DigitsHaveNoDelimiters(text);
    JoinTakesFullPath(host, text);
    GoStd.SplitJoinRoundTrip(host, text);
    GoStd.ParseFormatRoundTrip(port);
  }

  /**
   * Every authority net.SplitHostPort accepts takes the full path: accepted
   * text always has a colon after its last bracket.
   */
  lemma AcceptedTakesFullPath(s: string)
    requires GoStd.SplitHostPort(s).Success?
    ensures SplitHostPort(s) == SplitFull(s)
  {
    var t := GoStd.SplitHostPort(s).value;
    if |s| > 0 && s[0] == '[' {
      assert s == "[" + t.host + "]:" + t.port;
      GoStd.BracketedShape(t.host, t.port);
      var addrEnd := |t.host| + 1;
      assert forall k :: addrEnd < k < |s| ==> s[k] in s[|t.host| + 2..];
      assert GoStd.LastIndex(s, ']') == addrEnd;
      assert s[addrEnd..][1] == ':';
    } else {
      assert s == t.host + ":" + t.port;
      assert s[|t.host|] == ':';
    }
  }

  /**
   * Every address net.SplitHostPort accepts with a port strconv parses gives
   * Go's host and the port's decimal value (leading zeros allowed).
   */
  lemma SplitHostPortAccepted(s: string)
    requires GoStd.SplitHostPort(s).Success?
    requires GoStd.ParseUint16(GoStd.SplitHostPort(s).value.port).Some?
    ensures SplitHostPort(s) ==
      HostPort(GoStd.SplitHostPort(s).value.host, GoStd.DecimalValue(GoStd.SplitHostPort(s).value.port))
  {
    AcceptedTakesFullPath(s);
  }

  /** `[host]:port` with a parsable port gives the host and the port's value. */
  lemma SplitHostPortBracketedPort(host: string, port: string)
    requires '[' !in host && ']' !in host
    requires ':' !in port && '[' !in port && ']' !in port
    requires GoStd.ParseUint16(port).Some?
    ensures SplitHostPort("[" + host + "]:" + port) == HostPort(host, GoStd.DecimalValue(port))
  {
    GoStd.SplitBracketed(host, port);
    SplitHostPortAccepted("[" + host + "]:" + port);
  }

  /** `host:port` with a colon-free host and a parsable port: likewise. */
  lemma SplitHostPortBarePort(host: string, port: string)
    requires ':' !in host && '[' !in host && ']' !in host
    requires ':' !in port && '[' !in port && ']' !in port
    requires GoStd.ParseUint16(port).Some?
    ensures SplitHostPort(host + ":" + port) == HostPort(host, GoStd.DecimalValue(port))
  {
    GoStd.SplitBare(host, port);
    SplitHostPortAccepted(host + ":" + port);
  }

  /**
   * Every address that reaches net.SplitHostPort (a colon after the last
   * `]` of a bracketed one, a colon somewhere in a bare one) and is refused
   * by it loses both host and port.
   */
  lemma SplitHostPortRefused(s: string)
    requires GoStd.SplitHostPort(s).Failure?
    requires |s| > 0 && s[0] == '[' ==> ']' in s && ':' in s[GoStd.LastIndex(s, ']')..]
    requires !(|s| > 0 && s[0] == '[') ==> ':' in s
    ensures SplitHostPort(s) == HostPort("", NoPort)
  {
  }

  /**
   * A port text that strconv refuses (empty, not all digits, above 65535)
   * costs the port but keeps the host, for every address net.SplitHostPort
   * accepts (`host:port` and `[host]:port` alike).
   */
  lemma SplitHostPortBadPortKeepsHost(s: string)
    requires GoStd.SplitHostPort(s).Success?
    requires GoStd.ParseUint16(GoStd.SplitHostPort(s).value.port).None?
    ensures SplitHostPort(s) == HostPort(GoStd.SplitHostPort(s).value.host, NoPort)
  {
    AcceptedTakesFullPath(s);
  }

  /** The same for an authority built by net.JoinHostPort. */
  lemma SplitHostPortJoinedBadPort(host: string, port: string)
    requires '[' !in host && ']' !in host
    requires ':' !in port && '[' !in port && ']' !in port
    requires GoStd.ParseUint16(port).None?
    ensures SplitHostPort(GoStd.JoinHostPort(host, port)) == HostPort(host, NoPort)
  {
    GoStd.SplitJoinRoundTrip(host, port);
    SplitHostPortBadPortKeepsHost(GoStd.JoinHostPort(host, port));
  }

  /** A port number above 65535 keeps the host and is reported as absent. */
  lemma SplitHostPortOutOfRange(host: string, port: nat)
    requires '[' !in host && ']' !in host
    requires port > GoStd.MaxUint16
    ensures SplitHostPort(GoStd.JoinHostPort(host, GoStd.FormatUint(port))) == HostPort(host, NoPort)
  {
    GoStd.DigitsHaveNoDelimiters(GoStd.FormatUint(port));
    SplitHostPortJoinedBadPort(host, GoStd.FormatUint(port));
  }

  /**
   * A bracketed host followed by more than one colon is refused by
   * net.SplitHostPort (too many colons) and loses its host.
   */
  lemma SplitHostPortBracketedTooManyColons(host: string, port: string)
    requires ']' !in host && ':' in port && ']' !in port
    ensures SplitHostPort("[" + host + "]:" + port) == HostPort("", NoPort)
  {
    var s := "[" + host + "]:" + port;
    var end := |host| + 1;
    assert s[end] == ']';
    assert forall k :: end + 1 < k < |s| ==> s[k] == port[k - end - 2];
    assert GoStd.LastIndex(s, ']') == end;
    assert s[end..][1] == ':';
    assert forall k :: 0 < k < end ==> s[k] == host[k - 1];
    assert GoStd.Index(s, ']') == end;
    var c :| 0 <= c < |port| && port[c] == ':';
    assert s[end + 2 + c] == ':';
    assert GoStd.SplitHostPort(s) == Failure(GoStd.TooManyColons);
  }

  // ---------------------------------------------------------------------
  // Properties of the request attributes

  /**
   * A DNS name or an IPv4 address, with or without a port, is reported as
   * the server address.
   */
  lemma ClientRequestNamesHost(req: Http.Request, host: string, port: nat)
    requires host != [] && ':' !in host && '[' !in host && ']' !in host
    requires port <= GoStd.MaxUint16
    requires req.host == host || req.host == GoStd.JoinHostPort(host, GoStd.FormatUint(port))
    ensures ClientRequest(req) ==
      [KeyValue(HttpRequestMethodKey, StringValue(req.verb)), KeyValue(ServerAddressKey, StringValue(host))]
  {
    assert host[0] != '[';
    SplitHostPortBare(host);
    if req.host != host {
      SplitHostPortJoinRoundTrip(host, port);
    }
  }

  /**
   * An IPv6 literal (two colons or more), with or without a port, yields no
   * server address: the first split unwraps it, the second refuses it.
   */
  lemma ClientRequestDropsIPv6(req: Http.Request, host: string, i: nat, j: nat, port: nat)
    requires '[' !in host && ']' !in host
    requires i < j < |host| && host[i] == ':' && host[j] == ':'
    requires port <= GoStd.MaxUint16
    requires req.host == "[" + host + "]" || req.host == GoStd.JoinHostPort(host, GoStd.FormatUint(port))
    ensures ClientRequest(req) == [KeyValue(HttpRequestMethodKey, StringValue(req.verb))]
  {
    if req.host == "[" + host + "]" {
      assert req.host == "[" + host + "]" + "";
      SplitHostPortBracketed(host, "");
    } else {
      SplitHostPortJoinRoundTrip(host, port);
    }
    assert host[0] != '[';
    SplitHostPortTooManyColons(host, i, j);
  }
}
