/** What both token generators share: the fixed parts of the bearer-token
    request, the Basic credential of section 2 of RFC 7617, and the decoded
    answer. */
module TokenRequest {
  import opened GoTypes
  import Base64

  const FormContentType: Bytes := "application/x-www-form-urlencoded" + ";charset=UTF-8"
  const BasicPrefix: Bytes := "Basic "
  const ClientCredentials: Bytes := "grant_type=client_credentials"

  /** `requestBearerTokenResponse`. */
  datatype BearerTokenResponse = BearerTokenResponse(tokenType: Bytes, accessToken: Bytes)

  /** The JSON decoder, which is not part of this model: the fields it finds
      in a body, or `None` when the body does not decode. */
  type JsonDecoder = Bytes -> Option<BearerTokenResponse>

  /** `json.NewDecoder(resp.Body).Decode(data)` into a fresh struct whose
      error is ignored: the decoder sees the bytes the body delivers, and a
      body that does not decode leaves both fields empty. */
  function DecodeOrZero(decode: JsonDecoder, body: Body): (t: BearerTokenResponse)
    ensures decode(body.data).None? ==> t == BearerTokenResponse([], [])
    ensures decode(body.data).Some? ==> t == decode(body.data).value
  {
    match decode(body.data)
    case Some(t) => t
    case None => BearerTokenResponse([], [])
  }

  /** `base64EncodeKeys`: the key, a colon and the secret in Base64. The
      key and secret can be read back, the length is four symbols for every
      three bytes begun, and only the alphabet and final padding appear. */
  function Credentials(apiKey: Bytes, apiSecret: Bytes): (c: Bytes)
    ensures Base64.Decode(c) == Some(apiKey + ":" + apiSecret)
    ensures |c| == 4 * ((|apiKey| + |apiSecret| + 3) / 3)
    ensures Base64.Canonical(c)
  {
    Base64.RoundTrip(apiKey + ":" + apiSecret);
    Base64.EncodeAlphabet(apiKey + ":" + apiSecret);
    Base64.Encode(apiKey + ":" + apiSecret)
  }

  /** An empty key and secret give "Og=="; "foo" and "bar" give "Zm9vOmJhcg==". */
  lemma CredentialExamples()
    ensures Credentials("", "") == "Og=="
    ensures Credentials("foo", "bar") == "Zm9vOmJhcg=="
  {
    assert "" + ":" + "" == ":";
    assert "foo" + ":" + "bar" == "foo:bar";
    Base64.Examples();
  }
}
