/** Worked examples of the host/port splitter and the request attributes. */
module SemConvExamples {
  import GoStd
  import Http
  import opened SemConv

  lemma SplitEmpty()
    ensures SplitHostPort("") == HostPort("", NoPort)
  {
    SplitHostPortBare("");
  }

  lemma SplitName()
    ensures SplitHostPort("example.com") == HostPort("example.com", NoPort)
  {
    SplitHostPortBare("example.com");
  }

  lemma SplitNamePort()
    ensures SplitHostPort("example.com:8080") == HostPort("example.com", 8080)
  {
    assert "example.com" + ":" + "8080" == "example.com:8080";
    assert GoStd.DecimalValue("8080") == 8080 by {
      assert "8080"[..3] == "808";
      assert "808"[..2] == "80";
      assert "80"[..1] == "8";
      assert "8"[..0] == "";
    }
    SplitHostPortBarePort("example.com", "8080");
  }

  lemma SplitPortOnly()
    ensures SplitHostPort(":9090") == HostPort("", 9090)
  {
    assert "" + ":" + "9090" == ":9090";
    assert GoStd.DecimalValue("9090") == 9090 by {
      assert "9090"[..3] == "909";
      assert "909"[..2] == "90";
      assert "90"[..1] == "9";
      assert "9"[..0] == "";
    }
    SplitHostPortBarePort("", "9090");
  }

  lemma SplitBracketedLoopback()
    ensures SplitHostPort("[::1]") == HostPort("::1", NoPort)
  {
    assert "[" + "::1" + "]" + "" == "[::1]";
    SplitHostPortBracketed("::1", "");
  }

  lemma SplitBracketedZone()
    ensures SplitHostPort("[fe80::1%25en0]") == HostPort("fe80::1%25en0", NoPort)
  {
    assert "[" + "fe80::1%25en0" + "]" + "" == "[fe80::1%25en0]";
    SplitHostPortBracketed("fe80::1%25en0", "");
  }

  lemma SplitEmptyBrackets()
    ensures SplitHostPort("[]") == HostPort("", NoPort)
  {
    assert "[" + "" + "]" + "" == "[]";
    SplitHostPortBracketed("", "");
  }

  /** Text after the closing bracket that holds no colon is dropped. */
  lemma SplitBracketedTrailing()
    ensures SplitHostPort("[::1]x") == HostPort("::1", NoPort)
  {
    assert "[" + "::1" + "]" + "x" == "[::1]x";
    SplitHostPortBracketed("::1", "x");
  }

  lemma SplitBracketedPort()
    ensures SplitHostPort("[::1]:443") == HostPort("::1", 443)
  {
    assert "[" + "::1" + "]:" + "443" == "[::1]:443";
    assert GoStd.DecimalValue("443") == 443 by {
      assert "443"[..2] == "44";
      assert "44"[..1] == "4";
      assert "4"[..0] == "";
    }
    SplitHostPortBracketedPort("::1", "443");
  }

  lemma SplitBracketedZonePort()
    ensures SplitHostPort("[::1%eth0]:443") == HostPort("::1%eth0", 443)
  {
    assert "[" + "::1%eth0" + "]:" + "443" == "[::1%eth0]:443";
    assert GoStd.DecimalValue("443") == 443 by {
      assert "443"[..2] == "44";
      assert "44"[..1] == "4";
      assert "4"[..0] == "";
    }
    SplitHostPortBracketedPort("::1%eth0", "443");
  }

  lemma SplitUnterminated()
    ensures SplitHostPort("[unterminated") == HostPort("", NoPort)
  {
    SplitHostPortUnclosed("[unterminated");
  }

  lemma SplitTwoColons()
    ensures SplitHostPort("a:b:c") == HostPort("", NoPort)
  {
    SplitHostPortTooManyColons("a:b:c", 1, 3);
  }

  lemma SplitBracketedTooManyColons()
    ensures SplitHostPort("[fe80::1]::") == HostPort("", NoPort)
  {
    assert "[" + "fe80::1" + "]:" + ":" == "[fe80::1]::";
    SplitHostPortBracketedTooManyColons("fe80::1", ":");
  }

  lemma SplitEmptyPort()
    ensures SplitHostPort("127.0.0.1:") == HostPort("127.0.0.1", NoPort)
  {
    assert GoStd.JoinHostPort("127.0.0.1", "") == "127.0.0.1:";
    SplitHostPortJoinedBadPort("127.0.0.1", "");
  }

  lemma SplitNamedPort()
    ensures SplitHostPort("127.0.0.1:port") == HostPort("127.0.0.1", NoPort)
  {
    assert !GoStd.IsDigit("port"[0]);
    assert GoStd.JoinHostPort("127.0.0.1", "port") == "127.0.0.1:port";
    SplitHostPortJoinedBadPort("127.0.0.1", "port");
  }

  lemma SplitNotAPort()
    ensures SplitHostPort("host:notaport") == HostPort("host", NoPort)
  {
    assert !GoStd.IsDigit("notaport"[0]);
    assert GoStd.JoinHostPort("host", "notaport") == "host:notaport";
    SplitHostPortJoinedBadPort("host", "notaport");
  }

  /** A bracketed host without a colon also keeps its host when the port is bad. */
  lemma SplitBracketedNamedPort()
    ensures SplitHostPort("[a]:port") == HostPort("a", NoPort)
  {
    assert "[" + "a" + "]:" + "port" == "[a]:port";
    GoStd.SplitBracketed("a", "port");
    assert !GoStd.IsDigit("port"[0]);
    SplitHostPortBadPortKeepsHost("[a]:port");
  }

  /** A bracketed host without a colon keeps its parsed port. */
  lemma SplitBracketedNamePort()
    ensures SplitHostPort("[a]:80") == HostPort("a", 80)
  {
    assert "[" + "a" + "]:" + "80" == "[a]:80";
    assert GoStd.DecimalValue("80") == 80 by {
      assert "80"[..1] == "8";
      assert "8"[..0] == "";
    }
    SplitHostPortBracketedPort("a", "80");
  }

  /** Leading zeros in the port are accepted, as strconv accepts them. */
  lemma SplitLeadingZeros()
    ensures SplitHostPort("h:0080") == HostPort("h", 80)
  {
    assert "h" + ":" + "0080" == "h:0080";

    assert GoStd.DecimalValue("0080") == 80 by {
      assert "0080"[..3] == "008";
      assert "008"[..2] == "00";
      assert "00"[..1] == "0";
      assert "0"[..0] == "";
    }
    SplitHostPortBarePort("h", "0080");
  }

  /** A stray `]` in an unbracketed address: refused, nothing kept. */
  lemma SplitStrayCloseBracket()
    ensures SplitHostPort("a]:80") == HostPort("", NoPort)
  {
    var s := "a]:80";
    assert GoStd.LastIndex(s, ':') == 2;
    assert s[..2] == "a]";
    assert GoStd.SplitHostPort(s).Failure? && GoStd.SplitHostPort(s).error == GoStd.UnexpectedCloseBracket;
    SplitHostPortRefused(s);
  }

  /** Text between `]` and the port's colon: refused, nothing kept. */
  lemma SplitTextAfterBracket()
    ensures SplitHostPort("[a]b:80") == HostPort("", NoPort)
  {
    var s := "[a]b:80";
    assert GoStd.LastIndex(s, ':') == 4;
    assert GoStd.Index(s, ']') == 2;
    assert GoStd.LastIndex(s, ']') == 2;
    assert s[2..][2] == ':';
    assert GoStd.SplitHostPort(s).Failure? && GoStd.SplitHostPort(s).error == GoStd.MissingPort;
    SplitHostPortRefused(s);
  }

  lemma ClientRequestNamePort(verb: string)
    ensures ClientRequest(Http.Request(verb, "/", "example.com:8080", map[])) ==
      [KeyValue(HttpRequestMethodKey, StringValue(verb)), KeyValue(ServerAddressKey, StringValue("example.com"))]
  {
    assert GoStd.FormatUint(8080) == "8080";
    ClientRequestNamesHost(Http.Request(verb, "/", "example.com:8080", map[]), "example.com", 8080);
  }

  lemma ClientRequestLoopbackPort(verb: string)
    ensures ClientRequest(Http.Request(verb, "/", "[::1]:443", map[])) ==
      [KeyValue(HttpRequestMethodKey, StringValue(verb))]
  {
    assert GoStd.FormatUint(443) == "443";
    ClientRequestDropsIPv6(Http.Request(verb, "/", "[::1]:443", map[]), "::1", 0, 1, 443);
  }
}
