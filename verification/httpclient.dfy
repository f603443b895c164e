/** The retrying client of httpclient/httpclient.go: the endpoint table its
    constructor fills, URL generation with its prefix check, and
    `NewHttpRequest`, which re-issues a request after every 429 answer.
    The network is a script of replies, one per request sent; the sleeps the
    source performs are returned as a log of requested delays. */
module HttpClient {
  import opened GoTypes
  import opened Http
  import opened Backoff

  /** `RequestOpts`: what to send, and the retry counter the client bumps. */
  class RequestOpts {
    var retries: Uint8
    const spec: RequestSpec

    constructor (spec: RequestSpec)
      ensures this.spec == spec && retries == 0
    {
      this.spec := spec;
      retries := 0;
    }
  }

  /** A reply that makes the client back off and try again. */
  predicate IsRateLimit(reply: Reply) {
    reply.Answered? && Classify(reply.status) == RateLimited
  }

  /** The script holds a reply that is not a 429: a server answering 429
      forever makes the source recurse without end. */
  predicate Settles(replies: seq<Reply>)
    decreases |replies|
  {
    |replies| > 0 && (!IsRateLimit(replies[0]) || Settles(replies[1..]))
  }

  /** The index of the first reply that is not a 429. */
  function FirstSettled(replies: seq<Reply>): (k: nat)
    requires Settles(replies)
    ensures k < |replies| && !IsRateLimit(replies[k])
    ensures forall j :: 0 <= j < k ==> IsRateLimit(replies[j])
    decreases |replies|
  {
    if !IsRateLimit(replies[0]) then 0 else 1 + FirstSettled(replies[1..])
  }

  /** What one call of `NewHttpRequest` produces: its result, the final retry
      counter, every request it sent and every delay it slept for. */
  datatype Outcome = Outcome(result: Result<Response>, retries: Uint8, sent: seq<Request>, sleeps: seq<nat>)

  /** `NewHttpRequest` (httpclient/httpclient.go:117-175), one recursive
      call per reply consumed. */
  function Execute(spec: RequestSpec, token: Bytes, check: RequestCheck, retries: Uint8, replies: seq<Reply>): (o: Outcome)
    requires Settles(replies)
    ensures check(spec.httpMethod, spec.url).Some? ==>
              o.result == Err(check(spec.httpMethod, spec.url).value) && o.retries == retries && o.sent == []
    ensures check(spec.httpMethod, spec.url).None? ==> |o.sent| == |o.sleeps| + 1
    ensures o.result.Ok? ==> Classify(o.result.value.status) == Accepted
    decreases |replies|
  {
    match check(spec.httpMethod, spec.url)
    case Some(e) => Outcome(Err(e), retries, [], [])
    case None =>
      var req := BuildRequest(spec, token);
      if IsRateLimit(replies[0]) then
        var rest := Execute(spec, token, check, Inc(retries), replies[1..]);
        Outcome(rest.result, rest.retries, [req] + rest.sent, [BackOffSeconds(retries)] + rest.sleeps)
      else
        Outcome(Finish(replies[0]), retries, [req], [])
  }

  lemma WrapAdd(r: Uint8, k: nat)
    ensures (Inc(r) + k) % 256 == (r + 1 + k) % 256
  {
  }

  /** The counter `i` retries after `r0`, seen from the first retry on. */
  lemma CounterAt(r0: Uint8, i: nat)
    ensures i == 0 ==> (r0 + i) % 256 == r0
    ensures i > 0 ==> (Inc(r0) + (i - 1)) % 256 == (r0 + i) % 256
  {
    if i > 0 {
      WrapAdd(r0, i - 1);
    }
  }

  /** The call ends with the first reply that is not a 429, and the counter
      has gone up by one (mod 256) for each 429 before it. */
  lemma {:induction false} ExecuteEnds(spec: RequestSpec, token: Bytes, check: RequestCheck, r0: Uint8, replies: seq<Reply>)
    requires Settles(replies)
    requires check(spec.httpMethod, spec.url).None?
    ensures var o := Execute(spec, token, check, r0, replies);
            var k := FirstSettled(replies);
            o.result == Finish(replies[k]) && o.retries == (r0 + k) % 256
    decreases |replies|
  {
    if IsRateLimit(replies[0]) {
      var k := FirstSettled(replies[1..]);
      ExecuteEnds(spec, token, check, Inc(r0), replies[1..]);
      CounterAt(r0, k + 1);
      assert replies[1..][k] == replies[k + 1];
    }
  }

  /** Before each retry the call sleeps for the backoff of the counter's
      value at that moment. */
  lemma {:induction false} ExecuteSleeps(spec: RequestSpec, token: Bytes, check: RequestCheck, r0: Uint8, replies: seq<Reply>)
    requires Settles(replies)
    requires check(spec.httpMethod, spec.url).None?
    ensures var o := Execute(spec, token, check, r0, replies);
            var k := FirstSettled(replies);
            |o.sleeps| == k && forall i :: 0 <= i < k ==> o.sleeps[i] == BackOffSeconds((r0 + i) % 256)
    decreases |replies|
  {
    if IsRateLimit(replies[0]) {
      var o := Execute(spec, token, check, r0, replies);
      var rest := Execute(spec, token, check, Inc(r0), replies[1..]);
      var k := FirstSettled(replies[1..]);
      ExecuteSleeps(spec, token, check, Inc(r0), replies[1..]);
      forall i | 0 <= i < k + 1
        ensures o.sleeps[i] == BackOffSeconds((r0 + i) % 256)
      {
        CounterAt(r0, i);
        if i > 0 {
          assert o.sleeps[i] == rest.sleeps[i - 1];
        }
      }
    }
  }

  /** The same request goes out once per reply used. */
  lemma {:induction false} ExecuteSends(spec: RequestSpec, token: Bytes, check: RequestCheck, r0: Uint8, replies: seq<Reply>)
    requires Settles(replies)
    requires check(spec.httpMethod, spec.url).None?
    ensures var o := Execute(spec, token, check, r0, replies);
            var k := FirstSettled(replies);
            |o.sent| == k + 1 && forall i :: 0 <= i <= k ==> o.sent[i] == BuildRequest(spec, token)
    decreases |replies|
  {
    if IsRateLimit(replies[0]) {
      var o := Execute(spec, token, check, r0, replies);
      var rest := Execute(spec, token, check, Inc(r0), replies[1..]);
      var k := FirstSettled(replies[1..]);
      ExecuteSends(spec, token, check, Inc(r0), replies[1..]);
      forall i | 0 <= i <= k + 1
        ensures o.sent[i] == BuildRequest(spec, token)
      {
        if i > 0 {
          assert o.sent[i] == rest.sent[i - 1];
        }
      }
    }
  }

  /** The whole run in one statement: the call ends at the first reply that
      is not a 429, with that reply's result; every 429 before it added one
      to the counter (mod 256) and slept for the backoff of the counter's
      value at that moment; the same request was sent once per reply used. */
  lemma ExecuteCharacterised(spec: RequestSpec, token: Bytes, check: RequestCheck, r0: Uint8, replies: seq<Reply>)
    requires Settles(replies)
    requires check(spec.httpMethod, spec.url).None?
    ensures var o := Execute(spec, token, check, r0, replies);
            var k := FirstSettled(replies);
            && o.result == Finish(replies[k])
            && o.retries == (r0 + k) % 256
            && |o.sleeps| == k
            && (forall i :: 0 <= i < k ==> o.sleeps[i] == BackOffSeconds((r0 + i) % 256))
            && |o.sent| == k + 1
            && (forall i :: 0 <= i <= k ==> o.sent[i] == BuildRequest(spec, token))
  {
    ExecuteEnds(spec, token, check, r0, replies);
    ExecuteSleeps(spec, token, check, r0, replies);
    ExecuteSends(spec, token, check, r0, replies);
  }

  /** A transport error ends the call at once: one request sent, no sleep,
      the counter untouched. */
  lemma TransportErrorStops(spec: RequestSpec, token: Bytes, check: RequestCheck, r0: Uint8, e: Bytes, later: seq<Reply>)
    requires check(spec.httpMethod, spec.url).None?
    ensures Settles([TransportError(e)] + later)
    ensures var o := Execute(spec, token, check, r0, [TransportError(e)] + later);
            o.result == Err(e) && o.retries == r0 && |o.sent| == 1 && o.sleeps == []
  {
    ExecuteCharacterised(spec, token, check, r0, [TransportError(e)] + later);
  }

  /** A 429 and then a 200: one retry, a first sleep of 0 s, the 200 returned. */
  lemma RetryOnceThenOk(spec: RequestSpec, token: Bytes, check: RequestCheck, b1: Body, b2: Body)
    requires check(spec.httpMethod, spec.url).None?
    ensures Settles([Answered(429, b1), Answered(200, b2)])
    ensures var o := Execute(spec, token, check, 0, [Answered(429, b1), Answered(200, b2)]);
            o.result == Ok(Response(200, Some(b2))) && o.retries == 1 && o.sleeps == [0]
  {
    var replies := [Answered(429, b1), Answered(200, b2)];
    assert replies[1..] == [Answered(200, b2)];
    ExecuteCharacterised(spec, token, check, 0, replies);
    assert FirstSettled(replies) == 1;
    BackOffTable();
  }

  /** `GenerateUrl`'s two results: the URL it built, and its error. */
  datatype UrlResult = UrlResult(url: Bytes, err: Option<Bytes>)

  const NoEndpoint: Bytes := "Could not find endpoint with name "

  /** The client of httpclient/httpclient.go:29-31 with the package table
      `Endpoints` (line 17) it reads. */
  class Client {
    const token: Bytes
    const endpoints: EndpointTable

    /** `NewHttpClient` (httpclient/httpclient.go:45-50). */
    constructor NewHttpClient(token: Bytes, endpoints: EndpointTable)
      modifies endpoints
      ensures this.token == token && this.endpoints == endpoints
      ensures endpoints.table == InstallEndpoints(old(endpoints.table))
    {
      this.token := token;
      this.endpoints := endpoints;
      endpoints.table := endpoints.table["rules" := RulesUrl];
      endpoints.table := endpoints.table["stream" := StreamUrl];
      endpoints.table := endpoints.table["token" := TokenUrl];
    }

    /** `GenerateUrl` (httpclient/httpclient.go:102-115). */
    function GenerateUrl(name: Bytes, queryParams: Bytes): (u: UrlResult)
      reads endpoints
      ensures u.url == endpoints.Lookup(name) + queryParams
      ensures u.err.Some? <==> |u.url| == 0 || !HasPrefix(u.url, ApiPrefix)
      ensures u.err.Some? ==> u.err.value == NoEndpoint + name
    {
      var url := if |queryParams| > 0 then endpoints.Lookup(name) + queryParams else endpoints.Lookup(name);
      if |url| == 0 || !HasPrefix(url, ApiPrefix) then UrlResult(url, Some(NoEndpoint + name))
      else UrlResult(url, None)
    }

    /** `NewHttpRequest` (httpclient/httpclient.go:117-175) with the tail
        recursion of line 163 as a loop over the script of replies. */
    method NewHttpRequest(opts: RequestOpts, check: RequestCheck, replies: seq<Reply>)
      returns (res: Result<Response>, ghost sent: seq<Request>, ghost sleeps: seq<nat>)
      requires Settles(replies)
      modifies opts
      ensures var o := Execute(opts.spec, token, check, old(opts.retries), replies);
              res == o.result && opts.retries == o.retries && sent == o.sent && sleeps == o.sleeps
    {
      ghost var r0 := opts.retries;
      var i := 0;
      sent, sleeps := [], [];
      while true
        invariant 0 <= i < |replies| && Settles(replies[i..])
        invariant var o := Execute(opts.spec, token, check, r0, replies);
                  var c := Execute(opts.spec, token, check, opts.retries, replies[i..]);
                  o.result == c.result && o.retries == c.retries && o.sent == sent + c.sent && o.sleeps == sleeps + c.sleeps
        decreases |replies| - i
      {
        var failure := check(opts.spec.httpMethod, opts.spec.url);
        if failure.Some? {
          res := Err(failure.value);
          return;
        }
        var headers := AssembleHeaders(opts.spec.headers, token);
        var req := Request(opts.spec.httpMethod, opts.spec.url, RequestBody(opts.spec), headers);
        sent := sent + [req];
        var reply := replies[i];
        if reply.TransportError? {
          res := Err(reply.reason);
          return;
        }
        if reply.status == 429 {
          var delay := BackOffSeconds(opts.retries);
          sleeps := sleeps + [delay];
          opts.retries := Inc(opts.retries);
          assert replies[i..][1..] == replies[i + 1..];
          i := i + 1;
        } else if reply.status >= 400 {
          res := Err(FailureWithBody(reply.body));
          return;
        } else {
          res := Ok(Response(reply.status, Some(reply.body)));
          return;
        }
      }
    }

    /** `GetRules` (httpclient/httpclient.go:52-60): a GET of the table's
        "rules" URL, used without any check. */
    method GetRules(check: RequestCheck, replies: seq<Reply>) returns (res: Result<Response>, ghost sent: seq<Request>)
      requires Settles(replies)
      ensures res == Execute(RequestSpec(Get, endpoints.Lookup("rules"), [], []), token, check, 0, replies).result
      ensures sent == Execute(RequestSpec(Get, endpoints.Lookup("rules"), [], []), token, check, 0, replies).sent
    {
      var opts := new RequestOpts(RequestSpec(Get, endpoints.Lookup("rules"), [], []));
      ghost var sleeps;
      res, sent, sleeps := NewHttpRequest(opts, check, replies);
    }

    /** `AddRules` (httpclient/httpclient.go:62-80): a POST of `body` to the
        generated "rules" URL, or the URL error with nothing sent. */
    method AddRules(queryParams: Bytes, body: Bytes, check: RequestCheck, replies: seq<Reply>)
      returns (res: Result<Response>, ghost sent: seq<Request>)
      requires Settles(replies)
      ensures var u := GenerateUrl("rules", queryParams);
              u.err.Some? ==> res == Err(u.err.value)
      ensures var u := GenerateUrl("rules", queryParams);
              u.err.None? ==> res == Execute(RequestSpec(Post, u.url, body, []), token, check, 0, replies).result
      ensures var u := GenerateUrl("rules", queryParams);
              u.err.Some? ==> sent == []
      ensures var u := GenerateUrl("rules", queryParams);
              u.err.None? ==> sent == Execute(RequestSpec(Post, u.url, body, []), token, check, 0, replies).sent
    {
      var u := GenerateUrl("rules", queryParams);
      if u.err.Some? {
        res, sent := Err(u.err.value), [];
        return;
      }
      var opts := new RequestOpts(RequestSpec(Post, u.url, body, []));
      ghost var sleeps;
      res, sent, sleeps := NewHttpRequest(opts, check, replies);
    }

    /** `GetSearchStream` (httpclient/httpclient.go:82-100): a GET of the
        generated "stream" URL, or the URL error with nothing sent. */
    method GetSearchStream(queryParams: Bytes, check: RequestCheck, replies: seq<Reply>)
      returns (res: Result<Response>, ghost sent: seq<Request>)
      requires Settles(replies)
      ensures var u := GenerateUrl("stream", queryParams);
              u.err.Some? ==> res == Err(u.err.value)
      ensures var u := GenerateUrl("stream", queryParams);
              u.err.None? ==> res == Execute(RequestSpec(Get, u.url, [], []), token, check, 0, replies).result
      ensures var u := GenerateUrl("stream", queryParams);
              u.err.Some? ==> sent == []
      ensures var u := GenerateUrl("stream", queryParams);
              u.err.None? ==> sent == Execute(RequestSpec(Get, u.url, [], []), token, check, 0, replies).sent
    {
      var u := GenerateUrl("stream", queryParams);
      if u.err.Some? {
        res, sent := Err(u.err.value), [];
        return;
      }
      var opts := new RequestOpts(RequestSpec(Get, u.url, [], []));
      ghost var sleeps;
      res, sent, sleeps := NewHttpRequest(opts, check, replies);
    }
  }

  /** A name missing from the table contributes "", so the URL is the query
      alone and is accepted exactly when the query starts with the API prefix. */
  lemma UnknownNameNeedsPrefixedQuery(c: Client, name: Bytes, queryParams: Bytes)
    requires name !in c.endpoints.table
    ensures c.GenerateUrl(name, queryParams).url == queryParams
    ensures c.GenerateUrl(name, queryParams).err.None? <==> HasPrefix(queryParams, ApiPrefix)
  {
    assert [] + queryParams == queryParams;
  }

  /** Once a constructor has filled the table, every query extends a valid
      URL for the three names, so generation never fails for them. */
  lemma KnownNamesAlwaysGenerate(c: Client, name: Bytes, queryParams: Bytes)
    requires c.endpoints.table == InstallEndpoints(c.endpoints.table)
    requires name in DefaultEndpoints()
    ensures c.GenerateUrl(name, queryParams).err.None?
  {
    var base := c.endpoints.table[name];
    assert HasPrefix(base, ApiPrefix);
    assert (base + queryParams)[..|ApiPrefix|] == base[..|ApiPrefix|];
  }
}
