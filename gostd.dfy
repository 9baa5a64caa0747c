/**
 * The pieces of Go's standard library that the attribute extractor relies on:
 * strings.LastIndex and strings.IndexByte for one-character needles,
 * net.SplitHostPort with its inverse net.JoinHostPort, and
 * strconv.ParseUint in base 10 with a 16-bit size, with its inverse
 * strconv.FormatUint. Go strings are byte strings and Go counts positions in
 * bytes; here they count characters. Every delimiter these functions look for
 * is ASCII and nothing else is a delimiter, so a string is cut at the same
 * places and into the same pieces either way.
 */
module GoStd {
  import opened Wrappers

  // ---------------------------------------------------------------------
  // strings

  /** Position of the last `c` in `s`, or -1 when `s` holds no `c`. */
  function LastIndex(s: string, c: char): (r: int)
    ensures -1 <= r < |s|
    ensures r < 0 <==> c !in s
    ensures r >= 0 ==> s[r] == c && forall k :: r < k < |s| ==> s[k] != c
  {
    if |s| == 0 then -1
    else if s[|s| - 1] == c then |s| - 1
    else
      assert s == s[..|s| - 1] + [s[|s| - 1]];
      LastIndex(s[..|s| - 1], c)
  }

  /** Position of the first `c` in `s`, or -1 when `s` holds no `c`. */
  function Index(s: string, c: char): (r: int)
    ensures -1 <= r < |s|
    ensures r < 0 <==> c !in s
    ensures r >= 0 ==> s[r] == c && forall k :: 0 <= k < r ==> s[k] != c
  {
    if |s| == 0 then -1
    else if s[0] == c then 0
    else
      assert s == [s[0]] + s[1..];
      var r := Index(s[1..], c);
      if r < 0 then -1 else r + 1
  }

  // ---------------------------------------------------------------------
  // strconv

  /** The largest value of a 16-bit unsigned integer. */
  const MaxUint16: nat := 65535

  predicate IsDigit(c: char) {
    '0' <= c <= '9'
  }

  predicate AllDigits(s: string) {
    forall k :: 0 <= k < |s| ==> IsDigit(s[k])
  }

  /** Value of a run of decimal digits, most significant first. */
  function DecimalValue(s: string): nat
    requires AllDigits(s)
  {
    if |s| == 0 then 0
    else DecimalValue(s[..|s| - 1]) * 10 + (s[|s| - 1] as int - '0' as int)
  }

  /**
   * strconv.ParseUint(s, 10, 16): the text must be non-empty, hold only the
   * digits 0-9 (no sign, no prefix, no underscores in base 10) and denote a
   * value that fits in 16 bits. Go tells a syntax error from a range error;
   * the caller here discards the error, so both are None.
   */
  function ParseUint16(s: string): (r: Option<nat>)
    ensures r.Some? ==> |s| > 0 && r.value <= MaxUint16
    ensures r.Some? ==> AllDigits(s) && r.value == DecimalValue(s)
    ensures r.None? <==> |s| == 0 || !AllDigits(s) || DecimalValue(s) > MaxUint16
  {
    if |s| == 0 || !AllDigits(s) then None
    else if DecimalValue(s) > MaxUint16 then None
    else Some(DecimalValue(s))
  }

  /** strconv.FormatUint(n, 10): the shortest decimal text of `n`. */
  function FormatUint(n: nat): (s: string)
    ensures |s| > 0 && AllDigits(s)
    ensures DecimalValue(s) == n
    ensures |s| > 1 ==> s[0] != '0'
  {
    var d := ['0' + (n % 10) as char];
    if n < 10 then d
    else
      var s := FormatUint(n / 10) + d;
      assert s[..|s| - 1] == FormatUint(n / 10);
      s
  }

  /** Digits are neither colons nor brackets. */
  lemma DigitsHaveNoDelimiters(s: string)
    requires AllDigits(s)
    ensures ':' !in s && '[' !in s && ']' !in s
  {
  }

  /** Formatting then parsing gives back every 16-bit value. */
  lemma {:induction false} ParseFormatRoundTrip(n: nat)
    requires n <= MaxUint16
    ensures ParseUint16(FormatUint(n)) == Some(n)
  {
  }

  // ---------------------------------------------------------------------
  // net

  /** The two texts net.SplitHostPort separates. */
  datatype HostPortText = HostPortText(host: string, port: string)

  /** The reasons net.SplitHostPort gives for refusing an address. */
  datatype AddrError =
    | MissingPort
    | TooManyColons
    | MissingBracket
    | UnexpectedOpenBracket
    | UnexpectedCloseBracket

  /**
   * net.SplitHostPort: the port is what follows the last colon. A leading
   * `[` asks for the first `]` right before that colon; otherwise the host
   * may hold no colon. Brackets anywhere else are refused.
   */
  function SplitHostPort(hostport: string): (r: Result<HostPortText, AddrError>)
    ensures r.Success? ==>
      var h, p := r.value.host, r.value.port;
      && ':' !in p && '[' !in p && ']' !in p
      && '[' !in h && ']' !in h
      && ((':' !in h && hostport == h + ":" + p) || hostport == "[" + h + "]:" + p)
  {
    var i := LastIndex(hostport, ':');
    if i < 0 then Failure(MissingPort)
    else if hostport[0] == '[' then
      var end := Index(hostport, ']');
      if end < 0 then Failure(MissingBracket)
      else if end + 1 == |hostport| then Failure(MissingPort)
      else if end + 1 != i then
        if hostport[end + 1] == ':' then Failure(TooManyColons) else Failure(MissingPort)
      else if '[' in hostport[1..] then Failure(UnexpectedOpenBracket)
      else if ']' in hostport[end + 1..] then Failure(UnexpectedCloseBracket)
      else
        assert hostport == "[" + hostport[1..end] + "]:" + hostport[i + 1..];
        Success(HostPortText(hostport[1..end], hostport[i + 1..]))
    else
      var host := hostport[..i];
      if ':' in host then Failure(TooManyColons)
      else if '[' in hostport then Failure(UnexpectedOpenBracket)
      else if ']' in hostport then Failure(UnexpectedCloseBracket)
      else
        assert hostport == host + ":" + hostport[i + 1..];
        Success(HostPortText(host, hostport[i + 1..]))
  }

  /** net.JoinHostPort: a host holding a colon is put in brackets. */
  function JoinHostPort(host: string, port: string): string
  {
    if ':' in host then "[" + host + "]:" + port else host + ":" + port
  }

  /**
   * Joining then splitting gives back the host and the port whenever neither
   * holds a bracket and the port holds no colon.
   */
  lemma SplitJoinRoundTrip(host: string, port: string)
    requires '[' !in host && ']' !in host
    requires ':' !in port && '[' !in port && ']' !in port
    ensures SplitHostPort(JoinHostPort(host, port)) == Success(HostPortText(host, port))
  {
    if ':' in host {
      SplitBracketed(host, port);
    } else {
      SplitBare(host, port);
    }
  }

  lemma SplitBracketed(host: string, port: string)
    requires '[' !in host && ']' !in host
    requires ':' !in port && '[' !in port && ']' !in port
    ensures SplitHostPort("[" + host + "]:" + port) == Success(HostPortText(host, port))
  {
    var hp := "[" + host + "]:" + port;
    BracketedShape(host, port);
    assert LastIndex(hp, ':') == |host| + 2;
    assert Index(hp, ']') == |host| + 1;
  }

  /** Where the delimiters of `[host]:port` sit. */
  lemma BracketedShape(host: string, port: string)
    requires '[' !in host && ']' !in host
    requires ':' !in port && '[' !in port && ']' !in port
    ensures var hp := "[" + host + "]:" + port;
      && hp[0] == '[' && hp[|host| + 1] == ']' && hp[|host| + 2] == ':'
      && (forall k :: |host| + 2 < k < |hp| ==> hp[k] != ':')
      && (forall k :: 0 <= k < |host| + 1 ==> hp[k] != ']')
      && hp[1..|host| + 1] == host && hp[|host| + 3..] == port
      && '[' !in hp[1..] && ']' !in hp[|host| + 2..]
  {
    var hp := "[" + host + "]:" + port;
    assert hp[1..] == host + "]:" + port;
    assert hp[|host| + 2..] == ":" + port;
    assert forall k :: |host| + 2 < k < |hp| ==> hp[k] == port[k - |host| - 3];
    assert forall k :: 0 < k < |host| + 1 ==> hp[k] == host[k - 1];
  }

  lemma SplitBare(host: string, port: string)
    requires ':' !in host && '[' !in host && ']' !in host
    requires ':' !in port && '[' !in port && ']' !in port
    ensures SplitHostPort(host + ":" + port) == Success(HostPortText(host, port))
  {
    var hp := host + ":" + port;
    var i := |host|;
    assert hp[i + 1..] == port;
    assert hp[i] == ':';
    assert forall k :: i < k < |hp| ==> hp[k] == port[k - i - 1] && hp[k] != ':';
    assert LastIndex(hp, ':') == i;
    assert hp[..i] == host;
  }
}
