/** The token generator of twitstream/token_generator.go: the same Basic
    credential as the root package, but it builds and sends the request
    itself, ends the process on an error, and never looks at the status. */
module TwitstreamToken {
  import opened GoTypes
  import opened Http
  import opened TokenRequest
  import Root = TokenGenerator

  const ConstructFailed: Bytes := "Failed to construct request" + " for bearer token: "
  const PerformFailed: Bytes := "Failed to perform request" + " for bearer token: "

  /** How a call ends: `log.Fatalf` with its line (the process exits), or
      the decoded answer. */
  datatype Ending = Exited(logLine: Bytes) | Returned(data: BearerTokenResponse)

  /** The request it sends: POST of the client-credentials grant to the
      literal token URL, with the form Content-Type and the Basic credential
      added to an otherwise empty header (twitstream/token_generator.go:38-47). */
  function TokenRequestFor(apiKey: Bytes, apiSecret: Bytes): (r: Request)
    ensures r.httpMethod == Post && r.url == TokenUrl && r.body == Some(ClientCredentials)
    ensures r.headers.Keys == {ContentType, Authorization}
    ensures r.headers[ContentType] == FormContentType
    ensures r.headers[Authorization] == BasicPrefix + Credentials(apiKey, apiSecret)
  {
    Request(Post, TokenUrl, Some(ClientCredentials),
            map[ContentType := FormContentType, Authorization := BasicPrefix + Credentials(apiKey, apiSecret)])
  }

  /** What `RequestBearerToken` does with a reply: a construction or
      transport error ends the process with its log line; any answer, 2xx
      or not, is decoded. */
  function Outcome(check: RequestCheck, reply: Reply, decode: JsonDecoder): (e: Ending)
    ensures check(Post, TokenUrl).Some? ==> e == Exited(ConstructFailed + check(Post, TokenUrl).value)
    ensures check(Post, TokenUrl).None? && reply.TransportError? ==> e == Exited(PerformFailed + reply.reason)
    ensures e.Returned? <==> check(Post, TokenUrl).None? && reply.Answered?
    ensures e.Returned? ==> e.data == DecodeOrZero(decode, reply.body)
  {
    match check(Post, TokenUrl)
    case Some(err) => Exited(ConstructFailed + err)
    case None =>
      match reply
      case TransportError(err) => Exited(PerformFailed + err)
      case Answered(_, body) => Returned(DecodeOrZero(decode, body))
  }

  /** `tokenGenerator` (twitstream/token_generator.go:16-19). */
  class TokenGenerator {
    var apiKey: Bytes
    var apiSecret: Bytes

    /** `newTokenGenerator` (twitstream/token_generator.go:26-28). */
    constructor NewTokenGenerator()
      ensures apiKey == [] && apiSecret == []
    {
      apiKey, apiSecret := [], [];
    }

    /** `SetApiKeyAndSecret` (twitstream/token_generator.go:30-34). */
    method SetApiKeyAndSecret(apiKey: Bytes, apiSecret: Bytes) returns (self: TokenGenerator)
      modifies this
      ensures this.apiKey == apiKey && this.apiSecret == apiSecret && self == this
    {
      this.apiKey, this.apiSecret := apiKey, apiSecret;
      self := this;
    }

    /** `base64EncodeKeys` (twitstream/token_generator.go:63-65). */
    function Base64EncodeKeys(): (c: Bytes)
      reads this
      ensures c == Credentials(apiKey, apiSecret)
    {
      Credentials(apiKey, apiSecret)
    }

    /** `RequestBearerToken` (twitstream/token_generator.go:36-61): `sent`
        is the request that went out, if one did. */
    method RequestBearerToken(check: RequestCheck, reply: Reply, decode: JsonDecoder)
      returns (e: Ending, ghost sent: seq<Request>)
      ensures e == Outcome(check, reply, decode)
      ensures check(Post, TokenUrl).Some? ==> sent == []
      ensures check(Post, TokenUrl).None? ==> sent == [TokenRequestFor(apiKey, apiSecret)]
    {
      var failure := check(Post, TokenUrl);
      if failure.Some? {
        return Exited(ConstructFailed + failure.value), [];
      }
      var headers := map[];
      headers := headers[ContentType := FormContentType];
      headers := headers[Authorization := BasicPrefix + Base64EncodeKeys()];
      var req := Request(Post, TokenUrl, Some(ClientCredentials), headers);
      sent := [req];
      match reply
      case TransportError(err) =>
        e := Exited(PerformFailed + err);
      case Answered(_, body) =>
        e := Returned(DecodeOrZero(decode, body));
    }
  }

  /** The request is the one the root package's generator sends through a
      client without a bearer token whose table holds the token URL. */
  lemma SameRequestAsRoot(g: Root.TokenGenerator)
    requires g.httpClient.token == [] && g.httpClient.endpoints.Lookup("token") == TokenUrl
    ensures BuildRequest(g.BearerTokenSpec(), g.httpClient.token) == TokenRequestFor(g.apiKey, g.apiSecret)
  {
    var h := BuildRequest(g.BearerTokenSpec(), g.httpClient.token).headers;
    var t := TokenRequestFor(g.apiKey, g.apiSecret).headers;
    Root.BearerTokenHeaders(g);
    forall k
      ensures k in h <==> k in t
    {
      var hs := g.BearerTokenSpec().headers;
      if k != ContentType && k != Authorization {
        assert LastValue(hs[..1], k) == None;
        assert hs[..1] == hs[..|hs| - 1];
        HeaderMapSpec(hs, [], k);
      }
    }
    assert h == t;
  }

  /** The two generators differ on statuses from 400 up: the root one
      returns the client's rejection, this one decodes the error body as if
      it held a token. Below 400 both return the same decoded answer. */
  lemma StatusIgnored(g: Root.TokenGenerator, check: RequestCheck, status: int, body: Body, decode: JsonDecoder)
    requires g.httpClient.endpoints.Lookup("token") == TokenUrl && check(Post, TokenUrl).None?
    ensures Outcome(check, Answered(status, body), decode) == Returned(DecodeOrZero(decode, body))
    ensures status < 400 ==> Root.Answer(g.BearerTokenSpec(), check, Answered(status, body), decode)
                             == Ok(DecodeOrZero(decode, body))
    ensures status >= 400 ==> Root.Answer(g.BearerTokenSpec(), check, Answered(status, body), decode).Err?
  {
  }
}
