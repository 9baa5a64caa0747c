/**
 * The measuring RoundTripper: it hands each request to a base RoundTripper
 * and, when the base answers, records the elapsed time in a histogram under
 * the request and response attributes.
 */
module HttpClient {
  import Http
  import Metric
  import SemConv

  /** Instrumentation scope of the meter the histogram comes from. */
  const InstrumentationName: string := "github.com/wilsouza/otel-labs/otelhttpclient/httpclient"

  /**
   * The attribute list a delivered round trip builds: the request attributes
   * first, unchanged, then the status code as an integer under the method
   * key when it is positive.
   */
  function MeasurementAttributes(r: Http.Request, res: Http.Response): (attrs: seq<SemConv.KeyValue>)
    ensures 1 <= |attrs| <= 3
    ensures |SemConv.ClientRequest(r)| <= |attrs|
    ensures attrs[..|SemConv.ClientRequest(r)|] == SemConv.ClientRequest(r)
    ensures attrs[0] == SemConv.KeyValue(SemConv.HttpRequestMethodKey, SemConv.StringValue(r.verb))
    ensures res.statusCode > 0 <==>
      attrs[|attrs| - 1] == SemConv.KeyValue(SemConv.HttpRequestMethodKey, SemConv.IntValue(res.statusCode))
    ensures res.statusCode <= 0 ==> attrs == SemConv.ClientRequest(r)
    ensures res.statusCode > 0 ==>
      attrs == SemConv.ClientRequest(r) + [SemConv.KeyValue(SemConv.HttpRequestMethodKey, SemConv.IntValue(res.statusCode))]
  {
    var req, resp := SemConv.ClientRequest(r), SemConv.ClientResponse(res);
    assert (req + resp)[..|req|] == req;
    assert req[|req| - 1].value.StringValue? by {
      assert req[|req| - 1] == req[0] || req[|req| - 1].key == SemConv.ServerAddressKey;
    }
    req + resp
  }

  /**
   * With a positive status code the method key is filed twice: first with
   * the method as a string, last with the status code as an integer, and at
   * no position in between.
   */
  lemma MethodKeyRepeated(r: Http.Request, res: Http.Response)
    requires res.statusCode > 0
    ensures var attrs := MeasurementAttributes(r, res);
      && 2 <= |attrs| <= 3
      && attrs[0] == SemConv.KeyValue(SemConv.HttpRequestMethodKey, SemConv.StringValue(r.verb))
      && attrs[|attrs| - 1] == SemConv.KeyValue(SemConv.HttpRequestMethodKey, SemConv.IntValue(res.statusCode))
      && forall k :: 0 <= k < |attrs| ==>
           (attrs[k].key == SemConv.HttpRequestMethodKey <==> k == 0 || k == |attrs| - 1)
  {
    var req, resp := SemConv.ClientRequest(r), SemConv.ClientResponse(res);
    var attrs := MeasurementAttributes(r, res);
    assert attrs == req + resp;
    assert attrs[|attrs| - 1] == resp[0];
    forall k | 0 < k < |attrs| - 1
      ensures attrs[k].key != SemConv.HttpRequestMethodKey
    {
      assert k == 1 && attrs[k] == req[1];
    }
  }

  /** The recorded attributes have distinct keys exactly when no status code is filed. */
  lemma MeasurementKeysDistinct(r: Http.Request, res: Http.Response)
    ensures SemConv.KeysDistinct(MeasurementAttributes(r, res)) <==> res.statusCode <= 0
  {
    var attrs := MeasurementAttributes(r, res);
    if res.statusCode > 0 {
      MethodKeyRepeated(r, res);
      assert attrs[0].key == attrs[|attrs| - 1].key;
    } else {
      assert attrs == SemConv.ClientRequest(r);
    }
  }

  /**
   * What the histogram receives once metric.WithAttributes has made the
   * list a set: the method key holds the integer status code when it is
   * positive (the method string is lost) and the method string otherwise;
   * `server.address` is kept when the request named a server.
   */
  lemma RecordedAttributeSet(r: Http.Request, res: Http.Response)
    ensures var recorded := Metric.WithAttributes(MeasurementAttributes(r, res));
      var req := SemConv.ClientRequest(r);
      && recorded.Keys == {SemConv.HttpRequestMethodKey} + (if |req| == 2 then {SemConv.ServerAddressKey} else {})
      && recorded[SemConv.HttpRequestMethodKey] ==
           (if res.statusCode > 0 then SemConv.IntValue(res.statusCode) else SemConv.StringValue(r.verb))
      && (|req| == 2 ==> recorded[SemConv.ServerAddressKey] == req[1].value)
  {
    var attrs := MeasurementAttributes(r, res);
    var req := SemConv.ClientRequest(r);
    var methodKey := SemConv.HttpRequestMethodKey;
    assert attrs[..|req|] == req;
    assert Metric.KeysOf(attrs) == {methodKey} + (if |req| == 2 then {SemConv.ServerAddressKey} else {}) by {
      assert attrs[0].key == methodKey;
      assert |req| == 2 ==> attrs[1] == req[1];
      assert |attrs| > |req| ==> attrs[|attrs| - 1].key == methodKey;
    }
    if |req| == 2 {
      assert attrs[1] == req[1];
      Metric.WithAttributesKeepsLast(attrs, 1);
    }
    if res.statusCode <= 0 {
      assert attrs == req;
      Metric.WithAttributesKeepsLast(attrs, 0);
    }
  }

  /**
   * Wraps a base RoundTripper (`rt`) and measures each round trip into the
   * request-duration histogram (`httpLatency`).
   */
  class Transport {
    const rt: Http.RoundTripper
    const httpLatency: Metric.Histogram

    /**
     * NewTransport: a nil base stands for `defaultTransport`
     * (http.DefaultTransport); the histogram starts with no records.
     */
    constructor (base: Http.RoundTripper?, defaultTransport: Http.RoundTripper)
      ensures rt == (if base == null then defaultTransport else base)
      ensures fresh(httpLatency) && httpLatency.records == []
      ensures httpLatency.scope == InstrumentationName
      ensures httpLatency.name == SemConv.ClientRequestDuration
      ensures httpLatency.unit == SemConv.HistogramMeasureUnitSeconds
    {
      rt := if base == null then defaultTransport else base;
      httpLatency := new Metric.Histogram(
        InstrumentationName, SemConv.ClientRequestDuration, SemConv.HistogramMeasureUnitSeconds);
    }

    /**
     * Hands `r` itself to the base and returns the base's outcome as it is.
     * A failure records nothing; a delivered response records exactly one
     * measurement, `elapsedMillis` under the attribute set made from
     * MeasurementAttributes.
     */
    method RoundTrip(r: Http.Request, elapsedMillis: real) returns (o: Http.Outcome)
      modifies rt, httpLatency
      ensures o == rt.respond(r)
      ensures rt.received == old(rt.received) + [r]
      ensures o.Failed? ==> httpLatency.records == old(httpLatency.records)
      ensures o.Delivered? ==>
        httpLatency.records == old(httpLatency.records) + [Metric.Measurement(elapsedMillis, Metric.WithAttributes(MeasurementAttributes(r, o.res)))]
    {
      o := rt.RoundTrip(r);
      if o.Failed? {
        return;
      }
      var attrs := SemConv.ClientRequest(r) + SemConv.ClientResponse(o.res);
      var measureOptions := Metric.WithAttributes(attrs);
      httpLatency.Record(elapsedMillis, measureOptions);
    }
  }
}
