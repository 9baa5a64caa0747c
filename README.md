# otelhttpclient: measuring HTTP transport, modelled in Dafny

The Go package `otelhttpclient/httpclient` wraps an `http.RoundTripper` so
that every outbound request that gets an answer is timed and recorded in the
OpenTelemetry histogram `http.client.duration`. Each measurement carries
attributes of the HTTP semantic conventions, version 1.21.0, derived from the
request and the response by the package `semconv`. At the heart of that
derivation is `splitHostPort`, a total parser for network authorities
(`host`, `host%zone`, `[host]`, `[host%zone]`, `host:port`,
`[host%zone]:port`, `:port`).

This project models:

- `wrappers.dfy`: module `Wrappers`. It holds the `Option` and `Result` values.
- `gostd.dfy`: module `GoStd`. It models the Go standard-library functions the
  code calls without showing them:
  - `strings.LastIndex` and `strings.IndexByte` with one-character needles;
  - `net.SplitHostPort`, branch by branch, with its five refusal reasons;
  - `strconv.ParseUint(s, 10, 16)`.
  
  It also gives their inverses, `net.JoinHostPort` and `strconv.FormatUint`,
  so that round trips can be stated.
- `http.dfy`: module `Http`. It holds the request and response values.
  The base `RoundTripper` is a class. Its answer is a fixed function of the
  request, and it keeps a ghost log of the requests it was handed.
- `metric.dfy`: module `Metric`. It models `metric.WithAttributes`, which
  turns an attribute list into an attribute set (one value per key, the last
  one given). It also models the float64 histogram as a class whose ghost
  `records` sequence holds every `(value, attribute set)` pair recorded.
- `semconv.dfy`: module `SemConv`. It models the attribute keys, `splitHostPort`,
  `ClientRequest`, `peerName` and `ClientResponse` as pure functions, with
  their properties.
- `transport.dfy`: module `HttpClient`. It models the `Transport` class:
  - `NewTransport` is the constructor;
  - `RoundTrip` is a method that changes the base's log and the histogram.
- `semconv_examples.dfy` and `transport_examples.dfy` hold worked examples,
  proved from the contracts.

Three behaviours of the code are reproduced as written. The first differs
from what the code's own comment says; the other two are simply what the code
does:

- `ClientResponse` files the status code under `http.request.method`
  (semconv.go:44). Its comment (semconv.go:38-40) promises
  `http.response.status_code`, and the key declared for that at
  semconv.go:34 is never used. With a positive status code, the attribute
  list built at transport.go:68 therefore holds the method key twice
  (`HttpClient.MethodKeyRepeated`). `metric.WithAttributes` (transport.go:70)
  keeps only the last value of a key. The recorded set thus holds the integer
  status under `http.request.method`, and the method string is lost
  (`HttpClient.RecordedAttributeSet`).
- `splitHostPort` treats the host and the port separately. When
  `net.SplitHostPort` accepts the address but the port text is empty, not
  decimal or above 65535, the host is kept and only the port is dropped
  (semconv.go:112-115). This holds for `host:port` and `[host]:port` alike
  (`SemConv.SplitHostPortBadPortKeepsHost`). For example, `"127.0.0.1:port"`
  gives `("127.0.0.1", -1)` and `"[a]:port"` gives `("a", -1)`. When
  an address reaches `net.SplitHostPort` and is refused, both the host and the
  port are lost.
- `ClientRequest` splits `req.Host` and then `peerName` splits the resulting
  host again (semconv.go:56, 65). An IPv6 literal with two or more colons
  survives the first split but is refused by the second, so `"[::1]:443"`
  gets no `server.address` (`SemConv.ClientRequestDropsIPv6`).

Go strings are byte strings and are modelled here as `seq<char>`. Positions
in the model count characters, whereas Go counts bytes; the two differ once a
string holds non-ASCII text. The split still happens at the same places. The
delimiters the parser looks for (`[`, `]`, `:`) are ASCII, and no other byte
and no other character is a delimiter. So the pieces between the delimiters
are the same texts, whichever way they are counted.

## Model

| member | source | states |
|---|---|---|
| `GoStd.LastIndex` | otelhttpclient/httpclient/semconv/semconv.go:91-101 | the result is -1 exactly when the character is absent; otherwise the character sits at the result and nowhere after it |
| `GoStd.SplitHostPort` | otelhttpclient/httpclient/semconv/semconv.go:107-110 | on success the port holds no colon and no bracket, the host holds no bracket, and the input is exactly `host:port` with a colon-free host or `[host]:port` |
| `GoStd.SplitJoinRoundTrip` | otelhttpclient/httpclient/semconv/semconv.go:107-110 | net.SplitHostPort accepts every joined bracket-free host and colon-free port and gives both back unchanged |
| `GoStd.ParseUint16` | otelhttpclient/httpclient/semconv/semconv.go:112-115 | a parse succeeds exactly for non-empty all-digit text whose decimal value is at most 65535, and then returns that decimal value (leading zeros allowed) |
| `GoStd.ParseFormatRoundTrip` | otelhttpclient/httpclient/semconv/semconv.go:112-116 | every value from 0 to 65535, written in decimal, parses back to itself |
| `SemConv.SplitHostPort` | otelhttpclient/httpclient/semconv/semconv.go:87-117 | the port is -1 or lies in 0..65535; a port other than -1 means the input is `host:p` or `[host]:p` with `p` parsing to that port |
| `SemConv.SplitFull` | otelhttpclient/httpclient/semconv/semconv.go:107-116 | an address net.SplitHostPort refuses gives `("", -1)`; an accepted one keeps Go's host, and its port is -1 exactly when strconv refuses the port text; a port other than -1 lies in 0..65535 with the `host:p`/`[host]:p` witness |
| `SemConv.SplitHostPortBare` | otelhttpclient/httpclient/semconv/semconv.go:100-104 | input with no leading `[` and no colon is all host, with port -1 (the empty string gives `("", -1)`) |
| `SemConv.SplitHostPortUnclosed` | otelhttpclient/httpclient/semconv/semconv.go:90-95 | a leading `[` with no `]` anywhere gives `("", -1)` |
| `SemConv.SplitHostPortBracketed` | otelhttpclient/httpclient/semconv/semconv.go:90-99 | `[h]t`, where the tail `t` after the last `]` holds no colon, gives `h` verbatim (zone, colons and brackets included) with port -1, and `t` is dropped |
| `SemConv.SplitHostPortTooManyColons` | otelhttpclient/httpclient/semconv/semconv.go:100-110 | unbracketed input with two colons is refused by net.SplitHostPort and gives `("", -1)` |
| `SemConv.SplitHostPortBracketedTooManyColons` | otelhttpclient/httpclient/semconv/semconv.go:107-110 | `[h]:` followed by text holding another colon, with no `]` in `h` or in the text after the colon, is refused by net.SplitHostPort and gives `("", -1)` |
| `SemConv.JoinTakesFullPath` | otelhttpclient/httpclient/semconv/semconv.go:90-107 | a joined authority never takes an early exit: its result is the one from the full parse |
| `SemConv.SplitHostPortJoinRoundTrip` | otelhttpclient/httpclient/semconv/semconv.go:87-117 | joining a bracket-free host with any port from 0 to 65535 and splitting again gives back that host and that port |
| `SemConv.AcceptedTakesFullPath` | otelhttpclient/httpclient/semconv/semconv.go:90-107 | every address net.SplitHostPort accepts skips both early exits: its result is the one from the full parse |
| `SemConv.SplitHostPortAccepted` | otelhttpclient/httpclient/semconv/semconv.go:107-116 | every address net.SplitHostPort accepts whose port text strconv parses gives Go's host and the decimal value of the port text |
| `SemConv.SplitHostPortBracketedPort` | otelhttpclient/httpclient/semconv/semconv.go:107-116 | `[h]:p` with a bracket-free `h` and a parsable `p` gives `h` and the value of `p`, whether or not `h` holds a colon |
| `SemConv.SplitHostPortBarePort` | otelhttpclient/httpclient/semconv/semconv.go:107-116 | `h:p` with a colon- and bracket-free `h` and a parsable `p` gives `h` and the value of `p` |
| `SemConv.SplitHostPortRefused` | otelhttpclient/httpclient/semconv/semconv.go:90-110 | every address that gets past both early exits (a colon after the last `]` of a bracketed one, a colon in a bare one) and is refused by net.SplitHostPort, for any of its five reasons, gives `("", -1)` |
| `SemConv.SplitHostPortBadPortKeepsHost` | otelhttpclient/httpclient/semconv/semconv.go:107-115 | for every address net.SplitHostPort accepts, bracketed or not, a port text that strconv refuses keeps the host net.SplitHostPort gave and yields port -1 |
| `SemConv.SplitHostPortJoinedBadPort` | otelhttpclient/httpclient/semconv/semconv.go:107-115 | the same for an authority built by net.JoinHostPort from a bracket-free host and a delimiter-free port: the host comes back and the port is -1 |
| `SemConv.SplitHostPortOutOfRange` | otelhttpclient/httpclient/semconv/semconv.go:112-115 | a port number above 65535 keeps the host and gives port -1 |
| `SemConv.ClientResponse` | otelhttpclient/httpclient/semconv/semconv.go:41-48 | exactly one attribute when the status code is positive, none otherwise; that attribute is the integer status code under the key `http.request.method` |
| `SemConv.ClientRequest` | otelhttpclient/httpclient/semconv/semconv.go:52-62 | one or two attributes; the first is the method as a string; a second, `server.address`, is present exactly when the host survives both splits, and it holds the twice-split host; no empty address and no repeated key |
| `SemConv.PeerName` | otelhttpclient/httpclient/semconv/semconv.go:64-78 | empty exactly when the split host is empty; otherwise exactly one `server.address` attribute holding that host, whatever the port |
| `SemConv.ClientRequestNamesHost` | otelhttpclient/httpclient/semconv/semconv.go:52-78 | a non-empty host with no colon or bracket, with or without a port, is reported as the server address |
| `SemConv.ClientRequestDropsIPv6` | otelhttpclient/httpclient/semconv/semconv.go:56-78 | an IPv6 literal with two or more colons, in `[h]` or `[h]:port` form, yields only the method attribute |
| `SemConvExamples.SplitEmpty` | otelhttpclient/httpclient/semconv/semconv.go:100-104 | `""` gives `("", -1)` |
| `SemConvExamples.SplitName` | otelhttpclient/httpclient/semconv/semconv.go:100-104 | `"example.com"` gives `("example.com", -1)` |
| `SemConvExamples.SplitNamePort` | otelhttpclient/httpclient/semconv/semconv.go:107-116 | `"example.com:8080"` gives `("example.com", 8080)` |
| `SemConvExamples.SplitPortOnly` | otelhttpclient/httpclient/semconv/semconv.go:107-116 | `":9090"` gives `("", 9090)` |
| `SemConvExamples.SplitBracketedLoopback` | otelhttpclient/httpclient/semconv/semconv.go:90-99 | `"[::1]"` gives `("::1", -1)` |
| `SemConvExamples.SplitBracketedZone` | otelhttpclient/httpclient/semconv/semconv.go:90-99 | `"[fe80::1%25en0]"` gives `("fe80::1%25en0", -1)`, the zone text undecoded |
| `SemConvExamples.SplitEmptyBrackets` | otelhttpclient/httpclient/semconv/semconv.go:90-99 | `"[]"` gives `("", -1)` |
| `SemConvExamples.SplitBracketedTrailing` | otelhttpclient/httpclient/semconv/semconv.go:90-99 | `"[::1]x"` gives `("::1", -1)`: the tail after the bracket is dropped |
| `SemConvExamples.SplitBracketedPort` | otelhttpclient/httpclient/semconv/semconv.go:107-116 | `"[::1]:443"` gives `("::1", 443)` |
| `SemConvExamples.SplitBracketedZonePort` | otelhttpclient/httpclient/semconv/semconv.go:107-116 | `"[::1%eth0]:443"` gives `("::1%eth0", 443)` |
| `SemConvExamples.SplitUnterminated` | otelhttpclient/httpclient/semconv/semconv.go:90-95 | `"[unterminated"` gives `("", -1)` |
| `SemConvExamples.SplitTwoColons` | otelhttpclient/httpclient/semconv/semconv.go:107-110 | `"a:b:c"` gives `("", -1)` |
| `SemConvExamples.SplitBracketedTooManyColons` | otelhttpclient/httpclient/semconv/semconv.go:107-110 | `"[fe80::1]::"` gives `("", -1)` |
| `SemConvExamples.SplitEmptyPort` | otelhttpclient/httpclient/semconv/semconv.go:112-115 | `"127.0.0.1:"` gives `("127.0.0.1", -1)` |
| `SemConvExamples.SplitNamedPort` | otelhttpclient/httpclient/semconv/semconv.go:112-115 | `"127.0.0.1:port"` gives `("127.0.0.1", -1)` |
| `SemConvExamples.SplitNotAPort` | otelhttpclient/httpclient/semconv/semconv.go:112-115 | `"host:notaport"` gives `("host", -1)` |
| `SemConvExamples.SplitBracketedNamedPort` | otelhttpclient/httpclient/semconv/semconv.go:107-115 | `"[a]:port"`, a bracketed host without a colon, gives `("a", -1)` |
| `SemConvExamples.SplitBracketedNamePort` | otelhttpclient/httpclient/semconv/semconv.go:107-116 | `"[a]:80"`, a bracketed host without a colon, gives `("a", 80)` |
| `SemConvExamples.SplitLeadingZeros` | otelhttpclient/httpclient/semconv/semconv.go:107-116 | `"h:0080"` gives `("h", 80)`: leading zeros are accepted |
| `SemConvExamples.SplitStrayCloseBracket` | otelhttpclient/httpclient/semconv/semconv.go:107-110 | `"a]:80"` is refused (unexpected `]`) and gives `("", -1)` |
| `SemConvExamples.SplitTextAfterBracket` | otelhttpclient/httpclient/semconv/semconv.go:107-110 | `"[a]b:80"` is refused (missing port) and gives `("", -1)` |
| `SemConvExamples.ClientRequestNamePort` | otelhttpclient/httpclient/semconv/semconv.go:52-78 | host `"example.com:8080"` yields the method and `server.address = "example.com"` |
| `SemConvExamples.ClientRequestLoopbackPort` | otelhttpclient/httpclient/semconv/semconv.go:52-78 | host `"[::1]:443"` yields the method attribute alone |
| `HttpClient.MeasurementAttributes` | otelhttpclient/httpclient/transport.go:68 | the attribute list is exactly the request attributes, followed by the integer status under the method key when the status code is positive; it holds one to three entries and starts with the method string |
| `HttpClient.MethodKeyRepeated` | otelhttpclient/httpclient/transport.go:68 | with a positive status code, the attribute list built for a measurement holds the method key at the first position (as a string) and at the last (as the integer status), and nowhere else |
| `HttpClient.MeasurementKeysDistinct` | otelhttpclient/httpclient/transport.go:68 | the attribute list built for a measurement has distinct keys exactly when the status code is not positive |
| `HttpClient.RecordedAttributeSet` | otelhttpclient/httpclient/transport.go:68-70 | the recorded attribute set has the key `http.request.method`, plus `server.address` exactly when the request attributes name a server; the method key holds the integer status when it is positive (the method string is lost) and the method string otherwise; `server.address` holds the request's address |
| `HttpClient.Transport.constructor` | otelhttpclient/httpclient/transport.go:36-56 | a nil base is replaced by the default transport and any other base is kept; the histogram is new, has no records, and is named `http.client.duration` with unit `s` in this package's instrumentation scope |
| `HttpClient.Transport.RoundTrip` | otelhttpclient/httpclient/transport.go:61-76 | the base is handed the caller's request itself, and its outcome is returned unchanged; a failure records nothing; a delivered response appends exactly one measurement, whose attribute set is made by `metric.WithAttributes` from the request attributes followed by the response attributes |
| `HttpClientExamples.NilBaseScenario` | otelhttpclient/httpclient/transport.go:36-76 | with a nil base, a refused request and then a delivered one (status 200): the default base received both, and the histogram holds exactly one measurement, of the second elapsed time, whose method key holds the integer 200 |
| `Http.RoundTripper.RoundTrip` | otelhttpclient/httpclient/transport.go:63 | the base logs the request it was handed and answers with its response function |
| `Metric.Histogram.constructor` | otelhttpclient/httpclient/transport.go:45-48 | a histogram has the given scope, name and unit, and starts with no records |
| `Metric.WithAttributes` | otelhttpclient/httpclient/transport.go:70 | the set's keys are exactly the keys the list names, and the last entry's value is kept for its key |
| `Metric.WithAttributesKeepsLast` | otelhttpclient/httpclient/transport.go:70 | an entry whose key does not come again later in the list gives the set's value for that key |
| `Metric.Histogram.Record` | otelhttpclient/httpclient/transport.go:73 | recording appends exactly one `(value, attribute set)` measurement |

## Left out

- Timing: `time.Now`, `time.Since` and the float64 millisecond division
  (transport.go:62, 72) are not modelled. The elapsed time is a `real`
  parameter of `RoundTrip`.
- The global `otel.Meter` registry and the `panic` when the histogram cannot be
  created (transport.go:45-51) are not modelled, because they are foreign
  library state. Creation always succeeds in the model.
- Aggregation and export of measurements, and the request context passed to
  `Record`, are not modelled.
- Concurrency: the model is sequential. The safety of the transport and the
  histogram under parallel callers is not captured.
- Requests and responses are immutable values, so "the transport does not
  modify the caller's request" holds by construction. Aliasing through Go
  pointers, headers and body streams is not modelled. A body is only an
  identity with read and write capabilities, passed through unchanged.
- The base RoundTripper answers each request with a fixed function. It is its
  own class, so a `Transport` cannot itself serve as the base of another
  `Transport` (Go's interface-based nesting is not modelled).
- A base that returns a nil response together with a nil error cannot be
  expressed: `Http.Outcome` pairs a delivered response with no error. The
  http.RoundTripper contract rules that case out. On it, the code would
  dereference the nil response (semconv.go:43, reached from transport.go:68).
- Go strings that are not valid UTF-8 are not modelled: a `seq<char>` holds
  characters, not arbitrary bytes.
- `attribute.NewSet` also sorts the set by key. A map has no order, so the
  order is not modelled.
- `GoStd.ParseUint16` does not tell a syntax error from a range error, because
  `splitHostPort` discards the error.
- Go's nil slice (from `peerName`) and empty slice (from `ClientResponse`) are
  both the empty sequence.
- The demo client (otelhttpclient/client/main.go) is I/O and process plumbing,
  so it is not modelled. The formatter test in
  otelhttpclient/httpclient/transport_test.go:19-85 checks an expression that
  exists nowhere in the package.
- Unit `"s"` versus millisecond values, and the "creates a Span" comment on
  `RoundTrip`: these are documentation mismatches with no behaviour to verify.
