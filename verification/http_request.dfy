/** What both HTTP clients share: request options, the request they build
    (method, URL, body and headers, httpclient/httpclient.go:117-145 and
    http_client.go:42-70), the scripted network they talk to and the table
    of endpoint URLs. */
module Http {
  import opened GoTypes

  datatype Header = Header(key: Bytes, value: Bytes)

  /** The fields of `RequestOpts` other than the retry counter. */
  datatype RequestSpec = RequestSpec(httpMethod: Bytes, url: Bytes, body: Bytes, headers: seq<Header>)

  /** The `*http.Request` a client builds; `body` is `None` for a nil body. */
  datatype Request = Request(httpMethod: Bytes, url: Bytes, body: Option<Bytes>, headers: map<Bytes, Bytes>)

  /** An `*http.Response`; a nil `Body` is `None`. */
  datatype Response = Response(status: int, body: Option<Body>)

  /** What the network does with one request: fail in transport, or answer
      with a status and a body (responses from `http.Client.Do` always have one). */
  datatype Reply = TransportError(reason: Bytes) | Answered(status: int, body: Body)

  /** The error `http.NewRequest` reports for a method and URL, if any. */
  type RequestCheck = (Bytes, Bytes) -> Option<Bytes>

  const ContentType: Bytes := "Content-Type"
  const ApplicationJson: Bytes := "application/json"
  const Authorization: Bytes := "Authorization"
  const BearerPrefix: Bytes := "Bearer "
  const Get: Bytes := "GET"
  const Post: Bytes := "POST"

  /** `req.Header.Set` for each caller header in turn: a later header replaces
      an earlier one with the same key. */
  function SetAll(m: map<Bytes, Bytes>, hs: seq<Header>): map<Bytes, Bytes>
    decreases |hs|
  {
    if hs == [] then m else SetAll(m[hs[0].key := hs[0].value], hs[1..])
  }

  /** The headers of a request: Content-Type application/json, then the
      caller's headers in order, then a Bearer token when there is one. */
  function HeaderMap(hs: seq<Header>, token: Bytes): map<Bytes, Bytes> {
    var m := SetAll(map[ContentType := ApplicationJson], hs);
    if |token| > 0 then m[Authorization := BearerPrefix + token] else m
  }

  /** The value of the last caller header with key `k`, read from the end:
      an independent statement of "the last one wins". */
  function LastValue(hs: seq<Header>, k: Bytes): Option<Bytes>
    decreases |hs|
  {
    if hs == [] then None
    else if hs[|hs| - 1].key == k then Some(hs[|hs| - 1].value)
    else LastValue(hs[..|hs| - 1], k)
  }

  lemma {:induction false} LastValueOfAppend(hs: seq<Header>, h: Header, k: Bytes)
    ensures LastValue(hs + [h], k) == if h.key == k then Some(h.value) else LastValue(hs, k)
  {
    assert (hs + [h])[..|hs|] == hs;
  }

  /** Setting the caller headers one by one leaves, for each key, the value
      of its last caller header, or the initial value when there is none. */
  lemma {:induction false} SetAllLastWins(m: map<Bytes, Bytes>, hs: seq<Header>, k: Bytes)
    ensures LastValue(hs, k).Some? ==> k in SetAll(m, hs) && SetAll(m, hs)[k] == LastValue(hs, k).value
    ensures LastValue(hs, k).None? ==> (k in SetAll(m, hs) <==> k in m)
    ensures LastValue(hs, k).None? && k in m ==> SetAll(m, hs)[k] == m[k]
    decreases |hs|
  {
    if hs != [] {
      var init := hs[..|hs| - 1];
      var h := hs[|hs| - 1];
      assert hs == init + [h];
      SetAllSnoc(m, init, h);
      SetAllLastWins(m, init, k);
    }
  }

  lemma {:induction false} SetAllSnoc(m: map<Bytes, Bytes>, hs: seq<Header>, h: Header)
    ensures SetAll(m, hs + [h]) == SetAll(m, hs)[h.key := h.value]
    decreases |hs|
  {
    if hs == [] {
      assert [] + [h] == [h];
      assert [h][1..] == [];
    } else {
      assert (hs + [h])[1..] == hs[1..] + [h];
      SetAllSnoc(m[hs[0].key := hs[0].value], hs[1..], h);
    }
  }

  /** What each header of a built request holds (httpclient/httpclient.go:134-145):
      a non-empty token overrides any caller Authorization; otherwise the last
      caller header with the key wins; Content-Type defaults to application/json;
      no other key is present. */
  lemma HeaderMapSpec(hs: seq<Header>, token: Bytes, k: Bytes)
    ensures var h := HeaderMap(hs, token);
            if |token| > 0 && k == Authorization then k in h && h[k] == BearerPrefix + token
            else if LastValue(hs, k).Some? then k in h && h[k] == LastValue(hs, k).value
            else if k == ContentType then k in h && h[k] == ApplicationJson
            else k !in h
  {
    SetAllLastWins(map[ContentType := ApplicationJson], hs, k);
  }

  /** The header loop of `NewHttpRequest` (httpclient/httpclient.go:134-145). */
  method AssembleHeaders(hs: seq<Header>, token: Bytes) returns (h: map<Bytes, Bytes>)
    ensures h == HeaderMap(hs, token)
  {
    h := map[ContentType := ApplicationJson];
    var i := 0;
    while i < |hs|
      invariant 0 <= i <= |hs|
      invariant SetAll(h, hs[i..]) == SetAll(map[ContentType := ApplicationJson], hs)
      decreases |hs| - i
    {
      assert hs[i..][1..] == hs[i + 1..];
      h := h[hs[i].key := hs[i].value];
      i := i + 1;
    }
    assert hs[i..] == [];
    if |token| > 0 {
      h := h[Authorization := BearerPrefix + token];
    }
  }

  /** The body a request carries: none for GET, the options' body otherwise
      (httpclient/httpclient.go:122-127). */
  function RequestBody(spec: RequestSpec): (b: Option<Bytes>)
    ensures b.None? <==> spec.httpMethod == Get
    ensures b.Some? ==> b.value == spec.body
  {
    if spec.httpMethod == Get then None else Some(spec.body)
  }

  function BuildRequest(spec: RequestSpec, token: Bytes): (r: Request)
    ensures r.httpMethod == spec.httpMethod && r.url == spec.url
    ensures r.body == RequestBody(spec) && r.headers == HeaderMap(spec.headers, token)
  {
    Request(spec.httpMethod, spec.url, RequestBody(spec), HeaderMap(spec.headers, token))
  }

  /** How a client treats a status: retry on 429, reject from 400 up, accept the rest. */
  datatype Verdict = RateLimited | Rejected | Accepted

  function Classify(status: int): (v: Verdict)
    ensures v == RateLimited <==> status == 429
    ensures v == Rejected <==> status >= 400 && status != 429
    ensures v == Accepted <==> status < 400
  {
    if status == 429 then RateLimited else if status >= 400 then Rejected else Accepted
  }

  const FailurePrefix: Bytes := "Network request failed: "

  /** The error for a rejected response whose body was read with
      `ioutil.ReadAll`, its read error dropped: the prefix and the body text. */
  function FailureWithBody(body: Body): (msg: Bytes)
    ensures HasPrefix(msg, FailurePrefix) && msg[|FailurePrefix|..] == body.data
  {
    FailurePrefix + body.data
  }

  /** What a client returns for a reply it does not retry on: the transport
      error, a rejection carrying the body text from status 400 up, or the
      response itself (httpclient/httpclient.go:148-174, http_client.go:73-87). */
  function Finish(reply: Reply): (r: Result<Response>)
    ensures reply.TransportError? ==> r == Err(reply.reason)
    ensures r.Ok? <==> reply.Answered? && Classify(reply.status) == Accepted
    ensures r.Ok? ==> r.value.status == reply.status && r.value.body == Some(reply.body)
    ensures reply.Answered? && reply.status >= 400 ==> r == Err(FailureWithBody(reply.body))
  {
    match reply
    case TransportError(e) => Err(e)
    case Answered(status, body) =>
      if status >= 400 then Err(FailureWithBody(body)) else Ok(Response(status, Some(body)))
  }

  const ApiPrefix: Bytes := "https://api.twitter.com"
  const StreamUrl: Bytes := ApiPrefix + "/2/tweets/search/stream"
  const RulesUrl: Bytes := StreamUrl + "/rules"
  const TokenUrl: Bytes := ApiPrefix + "/oauth2/token"

  /** The three entries a client constructor writes into its package's table. */
  function DefaultEndpoints(): (m: map<Bytes, Bytes>)
    ensures m.Keys == {"rules", "stream", "token"}
    ensures forall k :: k in m ==> HasPrefix(m[k], ApiPrefix)
  {
    map["rules" := RulesUrl, "stream" := StreamUrl, "token" := TokenUrl]
  }

  /** Writing the three entries keeps every other entry and overwrites those three. */
  function InstallEndpoints(m: map<Bytes, Bytes>): (m': map<Bytes, Bytes>)
    ensures m'.Keys == m.Keys + {"rules", "stream", "token"}
    ensures m'["rules"] == RulesUrl && m'["stream"] == StreamUrl && m'["token"] == TokenUrl
    ensures forall k :: k in m && k !in DefaultEndpoints() ==> m'[k] == m[k]
  {
    m + DefaultEndpoints()
  }

  /** Constructing a second client writes the same table again. */
  lemma InstallIdempotent(m: map<Bytes, Bytes>)
    ensures InstallEndpoints(InstallEndpoints(m)) == InstallEndpoints(m)
  {
  }

  /** A package-level endpoint table (`Endpoints` in httpclient/httpclient.go,
      `endpoints` in http_client.go): shared, and written by every client constructor. */
  class EndpointTable {
    var table: map<Bytes, Bytes>

    constructor ()
      ensures table == map[]
    {
      table := map[];
    }

    /** A Go map read: the zero value "" for a missing key. */
    function Lookup(name: Bytes): (url: Bytes)
      reads this
      ensures name in table ==> url == table[name]
      ensures name !in table ==> url == []
    {
      if name in table then table[name] else []
    }
  }
}
