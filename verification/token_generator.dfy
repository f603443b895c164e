/** The token generator of token_generator.go: it holds an API key and
    secret and asks the token endpoint, through the older client of
    http_client.go, for a bearer token. */
module TokenGenerator {
  import opened GoTypes
  import opened Http
  import opened TokenRequest
  import LegacyHttp

  /** `tokenGenerator` (token_generator.go:14-18). */
  class TokenGenerator {
    const httpClient: LegacyHttp.Client
    var apiKey: Bytes
    var apiSecret: Bytes

    /** `newTokenGenerator` (token_generator.go:25-27): no key, no secret. */
    constructor NewTokenGenerator(httpClient: LegacyHttp.Client)
      ensures this.httpClient == httpClient && apiKey == [] && apiSecret == []
    {
      this.httpClient := httpClient;
      apiKey, apiSecret := [], [];
    }

    /** `SetApiKeyAndSecret` (token_generator.go:30-34): stores both and
        returns the receiver itself. */
    method SetApiKeyAndSecret(apiKey: Bytes, apiSecret: Bytes) returns (self: TokenGenerator)
      modifies this
      ensures this.apiKey == apiKey && this.apiSecret == apiSecret && self == this
    {
      this.apiKey, this.apiSecret := apiKey, apiSecret;
      self := this;
    }

    /** `base64EncodeKeys` (token_generator.go:63-65). */
    function Base64EncodeKeys(): (c: Bytes)
      reads this
      ensures c == Credentials(apiKey, apiSecret)
    {
      Credentials(apiKey, apiSecret)
    }

    /** The options `RequestBearerToken` hands the client (token_generator.go:39-50). */
    function BearerTokenSpec(): (spec: RequestSpec)
      reads this, httpClient.endpoints
      ensures spec.httpMethod == Post && spec.url == httpClient.endpoints.Lookup("token")
      ensures spec.body == ClientCredentials
      ensures spec.headers == [Header(ContentType, FormContentType), Header(Authorization, BasicPrefix + Base64EncodeKeys())]
    {
      RequestSpec(Post, httpClient.endpoints.Lookup("token"), ClientCredentials,
                  [Header(ContentType, FormContentType), Header(Authorization, BasicPrefix + Base64EncodeKeys())])
    }

    /** `RequestBearerToken` (token_generator.go:37-61): `sent` is what
        goes out through the client. */
    method RequestBearerToken(check: RequestCheck, reply: Reply, decode: JsonDecoder)
      returns (res: Result<BearerTokenResponse>, ghost sent: seq<Request>)
      ensures res == Answer(BearerTokenSpec(), check, reply, decode)
      ensures check(Post, httpClient.endpoints.Lookup("token")).Some? ==> sent == []
      ensures check(Post, httpClient.endpoints.Lookup("token")).None? ==>
                sent == [BuildRequest(BearerTokenSpec(), httpClient.token)]
    {
      var resp;
      resp, sent := httpClient.NewHttpRequest(BearerTokenSpec(), check, reply);
      if resp.Err? {
        res := Err(resp.error);
        return;
      }
      var data := DecodeOrZero(decode, resp.value.body.value);
      res := Ok(data);
    }
  }

  /** What `RequestBearerToken` returns for the request it builds: the
      client's error when the request cannot be built, fails in transit or
      draws a status from 400 up; otherwise the decoded body, empty when the
      body does not decode. */
  function Answer(spec: RequestSpec, check: RequestCheck, reply: Reply, decode: JsonDecoder)
    : (res: Result<BearerTokenResponse>)
    ensures check(spec.httpMethod, spec.url).Some? ==> res == Err(check(spec.httpMethod, spec.url).value)
    ensures res.Ok? <==> check(spec.httpMethod, spec.url).None? && reply.Answered? && reply.status < 400
    ensures res.Ok? ==> res.value == DecodeOrZero(decode, reply.body)
    ensures check(spec.httpMethod, spec.url).None? && reply.TransportError? ==> res == Err(reply.reason)
  {
    match LegacyHttp.Send(spec, check, reply)
    case Err(e) => Err(e)
    case Ok(resp) => Ok(DecodeOrZero(decode, resp.body.value))
  }

  /** The headers the token request goes out with, from a client without a
      bearer token of its own: the form Content-Type replaces the default
      one, and Authorization is the Basic credential, from which key and
      secret can be read back. */
  lemma BearerTokenHeaders(g: TokenGenerator)
    requires g.httpClient.token == []
    ensures var h := BuildRequest(g.BearerTokenSpec(), g.httpClient.token).headers;
            && ContentType in h && h[ContentType] == FormContentType
            && Authorization in h && h[Authorization] == BasicPrefix + Credentials(g.apiKey, g.apiSecret)
            && Base64.Decode(h[Authorization][|BasicPrefix|..]) == Some(g.apiKey + ":" + g.apiSecret)
  {
    var hs := g.BearerTokenSpec().headers;
    assert hs[..1] == [Header(ContentType, FormContentType)];
    assert LastValue(hs, ContentType) == Some(FormContentType);
    assert LastValue(hs, Authorization) == Some(BasicPrefix + Credentials(g.apiKey, g.apiSecret));
    HeaderMapSpec(hs, [], ContentType);
    HeaderMapSpec(hs, [], Authorization);
    var h := BuildRequest(g.BearerTokenSpec(), g.httpClient.token).headers;
    assert h[Authorization][|BasicPrefix|..] == Credentials(g.apiKey, g.apiSecret);
  }

  /** A client with a bearer token of its own overwrites the Basic credential. */
  lemma ClientTokenOverridesBasic(g: TokenGenerator)
    requires |g.httpClient.token| > 0
    ensures var h := BuildRequest(g.BearerTokenSpec(), g.httpClient.token).headers;
            Authorization in h && h[Authorization] == BearerPrefix + g.httpClient.token
  {
    HeaderMapSpec(g.BearerTokenSpec().headers, g.httpClient.token, Authorization);
  }
}
