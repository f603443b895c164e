/** `httpResponseParser.handleResponse` (httpclient/http_response_parser.go:16-46):
    back off and delegate on 429, reject from 400 up, pass everything else
    through. The delegate `fn` is a function of the retry counter it is
    handed. */
module ResponseParser {
  import opened GoTypes
  import opened Http
  import opened Backoff
  import opened HttpClient

  const StatusPrefix: Bytes := "Network request failed with status"

  /** The error for a rejected response: the body text when there is a body,
      the status number otherwise (lines 34-40; note that no space separates
      the words from the number). */
  function Rejection(resp: Response): (msg: Bytes)
    ensures resp.body.Some? ==> msg == FailureWithBody(resp.body.value)
    ensures resp.body.None? ==> HasPrefix(msg, StatusPrefix)
  {
    if resp.body.Some? then FailureWithBody(resp.body.value)
    else StatusPrefix + Decimal(resp.status)
  }

  /** Without a body the status can be read back out of the message. */
  lemma RejectionCarriesStatus(resp: Response)
    requires resp.body.None? && resp.status >= 400
    ensures var tail := Rejection(resp)[|StatusPrefix|..];
            (forall i :: 0 <= i < |tail| ==> '0' <= tail[i] <= '9') && DigitsValue(tail) == resp.status
  {
    assert Rejection(resp)[|StatusPrefix|..] == DecimalDigits(resp.status);
    DecimalDigitsRoundTrip(resp.status);
  }

  /** What one call does: its result, the retry counter afterwards, and the
      sleep it requested, if any. */
  datatype Handled = Handled(result: Result<Response>, retries: Uint8, delay: Option<nat>)

  function Handle(resp: Response, retries: Uint8, fn: Uint8 -> Result<Response>): (h: Handled)
    ensures h.delay.Some? <==> resp.status == 429
    ensures h.retries != retries <==> resp.status == 429
  {
    match Classify(resp.status)
    case RateLimited => Handled(fn(Inc(retries)), Inc(retries), Some(BackOffSeconds(retries)))
    case Rejected => Handled(Err(Rejection(resp)), retries, None)
    case Accepted => Handled(Ok(resp), retries, None)
  }

  /** On 429: one sleep of the backoff for the counter before the increment,
      the counter up by one, and the delegate's result returned unchanged. */
  lemma RateLimitDelegates(resp: Response, retries: Uint8, fn: Uint8 -> Result<Response>)
    requires resp.status == 429
    ensures var h := Handle(resp, retries, fn);
            h.retries == (retries + 1) % 256 && h.delay == Some(BackOffSeconds(retries)) && h.result == fn(h.retries)
  {
  }

  /** The only errors this function makes itself are rejections of statuses
      from 400 up other than 429; a 429 never becomes an error here. */
  lemma OwnErrorsAreRejections(resp: Response, retries: Uint8, fn: Uint8 -> Result<Response>)
    requires resp.status != 429
    ensures var h := Handle(resp, retries, fn);
            h.result.Err? <==> resp.status >= 400
    ensures var h := Handle(resp, retries, fn);
            h.result.Err? ==> h.result.error == Rejection(resp) && h.retries == retries
    ensures var h := Handle(resp, retries, fn);
            h.result.Ok? ==> h.result.value == resp && h.retries == retries
  {
  }

  /** A single 429 answered by a delegate that returns 200 leaves the
      counter at 1 and returns the 200. */
  lemma RetryThenSuccess(fn: Uint8 -> Result<Response>, ok: Response)
    requires ok.status == 200 && fn(1) == Ok(ok)
    ensures var h := Handle(Response(429, None), 0, fn);
            h.retries == 1 && h.result == Ok(ok) && h.delay == Some(0)
  {
    BackOffTable();
  }

  /** A 401 without a body is an error and leaves the counter alone. */
  lemma RejectsUnauthorized(fn: Uint8 -> Result<Response>)
    ensures var h := Handle(Response(401, None), 0, fn);
            h.result.Err? && h.retries == 0 && h.delay == None
  {
  }

  /** `handleResponse` itself: it updates the options' counter in place and
      reports the delay it slept for. */
  method HandleResponse(resp: Response, opts: RequestOpts, fn: Uint8 -> Result<Response>)
    returns (res: Result<Response>, ghost delay: Option<nat>)
    modifies opts
    ensures var h := Handle(resp, old(opts.retries), fn);
            res == h.result && opts.retries == h.retries && delay == h.delay
  {
    if resp.status == 429 {
      delay := Some(BackOffSeconds(opts.retries));
      opts.retries := Inc(opts.retries);
      res := fn(opts.retries);
      return;
    }
    delay := None;
    if resp.status >= 400 {
      var msg: Bytes;
      if resp.body.Some? {
        msg := FailureWithBody(resp.body.value);
      } else {
        msg := StatusPrefix + Decimal(resp.status);
      }
      res := Err(msg);
      return;
    }
    res := Ok(resp);
  }
}
