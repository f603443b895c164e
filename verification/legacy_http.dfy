/** The older client of http_client.go: the same endpoint table and request
    building as the retrying client, but one request per call and no retry,
    so a 429 is rejected like any other status from 400 up. */
module LegacyHttp {
  import opened GoTypes
  import opened Http
  import HttpClient

  /** `httpClient` of http_client.go:19-21 with the package table `endpoints` (line 11). */
  class Client {
    const token: Bytes
    const endpoints: EndpointTable

    /** `newHttpClient` (http_client.go:35-40). */
    constructor NewHttpClient(token: Bytes, endpoints: EndpointTable)
      modifies endpoints
      ensures this.token == token && this.endpoints == endpoints
      ensures endpoints.table == InstallEndpoints(old(endpoints.table))
    {
      this.token := token;
      this.endpoints := endpoints;
      endpoints.table := endpoints.table["rules" := RulesUrl];
      endpoints.table := endpoints.table["stream" := StreamUrl];
      endpoints.table := endpoints.table["token" := TokenUrl];
    }

    /** `newHttpRequest` (http_client.go:42-88): a construction error is
        returned with nothing sent; otherwise one request goes out and the
        reply decides the result. */
    method NewHttpRequest(spec: RequestSpec, check: RequestCheck, reply: Reply)
      returns (res: Result<Response>, ghost sent: seq<Request>)
      ensures res == Send(spec, check, reply)
      ensures check(spec.httpMethod, spec.url).Some? ==> sent == []
      ensures check(spec.httpMethod, spec.url).None? ==> sent == [BuildRequest(spec, token)]
    {
      var failure := check(spec.httpMethod, spec.url);
      if failure.Some? {
        res, sent := Err(failure.value), [];
        return;
      }
      var headers := AssembleHeaders(spec.headers, token);
      var req := Request(spec.httpMethod, spec.url, RequestBody(spec), headers);
      sent := [req];
      match reply
      case TransportError(e) =>
        res := Err(e);
      case Answered(status, body) =>
        if status >= 400 {
          res := Err(FailureWithBody(body));
        } else {
          res := Ok(Response(status, Some(body)));
        }
    }
  }

  /** The result of one `newHttpRequest`: the construction error, or what
      the single reply decides. Only a status below 400 succeeds. */
  function Send(spec: RequestSpec, check: RequestCheck, reply: Reply): (r: Result<Response>)
    ensures check(spec.httpMethod, spec.url).Some? ==> r == Err(check(spec.httpMethod, spec.url).value)
    ensures r.Ok? <==> check(spec.httpMethod, spec.url).None? && reply.Answered? && reply.status < 400
    ensures r.Ok? ==> r.value == Response(reply.status, Some(reply.body))
  {
    match check(spec.httpMethod, spec.url)
    case Some(e) => Err(e)
    case None => Finish(reply)
  }

  /** Without retry, a 429 is an ordinary rejection carrying the body text. */
  lemma RateLimitIsRejected(b: Body)
    ensures Finish(Answered(429, b)) == Err(FailurePrefix + b.data)
  {
  }

  /** The two clients agree on every reply except a 429: given the same
      first reply, the retrying client returns what the older one does. */
  lemma AgreesExceptOnRateLimit(spec: RequestSpec, token: Bytes, check: RequestCheck, r0: Uint8, reply: Reply, later: seq<Reply>)
    requires check(spec.httpMethod, spec.url).None?
    requires !HttpClient.IsRateLimit(reply)
    ensures HttpClient.Settles([reply] + later)
    ensures HttpClient.Execute(spec, token, check, r0, [reply] + later).result == Finish(reply)
  {
    HttpClient.ExecuteCharacterised(spec, token, check, r0, [reply] + later);
  }
}
