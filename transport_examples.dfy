/** A caller's view of the measuring transport, from its contracts alone. */
module HttpClientExamples {
  import opened Wrappers
  import Http
  import SemConv
  import HttpClient

  /**
   * A nil base falls back to the default transport; a refused request leaves
   * the histogram empty, a delivered one adds one measurement whose
   * method key holds the status code, not the method.
   */
  method NilBaseScenario(ok: Http.Request, refused: Http.Request, res: Http.Response, err: Http.Error)
    returns (t: HttpClient.Transport)
    requires ok != refused && res.statusCode == 200
    ensures t.rt.received == [refused, ok]
    ensures |t.httpLatency.records| == 1 && t.httpLatency.records[0].value == 12.25
    ensures SemConv.HttpRequestMethodKey in t.httpLatency.records[0].attrs
    ensures t.httpLatency.records[0].attrs[SemConv.HttpRequestMethodKey] == SemConv.IntValue(200)
  {
    var default := new Http.RoundTripper(
      (r: Http.Request) => if r == refused then Http.Failed(None, err) else Http.Delivered(res));
    t := new HttpClient.Transport(null, default);
    assert t.rt == default;

    var o1 := t.RoundTrip(refused, 3.5);
    assert o1 == Http.Failed(None, err);
    assert t.httpLatency.records == [];

    var o2 := t.RoundTrip(ok, 12.25);
    assert o2 == Http.Delivered(res);
    assert t.rt.received == [refused, ok];
    assert |t.httpLatency.records| == 1;
    var m := t.httpLatency.records[0];
    assert m.value == 12.25;
    HttpClient.RecordedAttributeSet(ok, res);
    assert m.attrs[SemConv.HttpRequestMethodKey] == SemConv.IntValue(200);
  }
}
