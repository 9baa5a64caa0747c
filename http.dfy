/**
 * The parts of Go's net/http that the instrumentation touches: the request
 * and response values it reads, and the RoundTripper it wraps.
 */
module Http {
  import opened Wrappers

  /**
   * An outbound request. `host` is the authority the request is sent to
   * (Request.Host): `host`, `host:port`, `[ipv6]` or `[ipv6%zone]:port`.
   */
  datatype Request = Request(
    verb: string,  // Request.Method
    url: string,
    host: string,
    header: map<string, seq<string>>)

  /** A response body stream, seen only through its identity and capabilities. */
  datatype Body = Body(id: nat, readable: bool, writable: bool)

  datatype Response = Response(
    statusCode: int,
    header: map<string, seq<string>>,
    body: Body)

  /** A transport, network or protocol failure. */
  datatype Error = Error(message: string)

  /**
   * What a RoundTripper hands back. A nil error comes with a response; an
   * error may come with a response or with nil.
   */
  datatype Outcome =
    | Delivered(res: Response)
    | Failed(partial: Option<Response>, err: Error)

  /**
   * A base RoundTripper. Its answer to a request is the fixed function
   * `respond`; `received` is the ghost log of the requests it was handed.
   */
  class RoundTripper {
    const respond: Request -> Outcome
    ghost var received: seq<Request>

    constructor (respond: Request -> Outcome)
      ensures this.respond == respond && received == []
    {
      this.respond := respond;
      received := [];
    }

    method RoundTrip(r: Request) returns (o: Outcome)
      modifies this
      ensures o == respond(r)
      ensures received == old(received) + [r]
    {
      received := received + [r];
      o := respond(r);
    }
  }
}
