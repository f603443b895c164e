# twitter-stream, modelled in Dafny

A model of the core of twitter-stream, a Go client for Twitter's v2
filtered-stream API, with proofs of what that core promises:

- the CRLF frame reader that cuts the stream body into messages
  (`readNext`), with its keep-alive, EOF and read-error cases and the
  round trip from encoded messages back to messages;
- the retrying HTTP client of `httpclient/`: the endpoint table, URL
  generation with its prefix check, header assembly, the body rule, the
  429 backoff-and-retry loop with its `uint8` retry counter, and the
  response parser `handleResponse`;
- the older client of `http_client.go`, which sends once and rejects every
  status from 400 up, 429 included;
- the stream of `stream.go` and `twitstream/stream.go`: start, stop, and the
  loop that reads frames, skips keep-alives and sends the rest in order;
- the two bearer-token generators and the Basic credential they send
  (Base64 of `key:secret`, section 4 of RFC 4648, used as in section 2 of
  RFC 7617);
- the fluent rule builder and the stream query-parameter builder.

Modelling conventions:

- A Go `string` or `[]byte` is `Bytes`, a sequence of characters below 256.
  A response body is its bytes plus the way reading ends: EOF, or a
  read error that persists.
- The network is a script. The retrying client gets the sequence of
  replies the server would give, one per attempt. The older client gets one
  reply. A reply is either a transport error or a status with a body.
- `http.NewRequest`'s validation of method and URL is a function
  parameter (`RequestCheck`), and so is the JSON decoder (`JsonDecoder`).
- Sleeps are not taken. The delays the client asks for are recorded in a
  ghost log, and so are the requests it sends.
- The stream loop runs in the caller's thread. The moment at which the
  consumer's `StopStream` lands is a parameter, `stopAfter`: the number of
  loop turns before `done` is seen closed, or none.
- The retry counter is a `uint8`. Its increment is written out as
  `(r + 1) % 256`.
- `log.Fatalf` in `twitstream/token_generator.go` is an `Exited` ending
  that carries the log line.

## Model

| member | source | states |
|---|---|---|
| GoTypes.Inc | httpclient/httpclient.go:162 | `Retries += 1` on a `uint8` wraps 255 to 0 |
| GoTypes.DecimalDigits | httpclient/http_response_parser.go:39 | the decimal text of a status: at least one character, all digits |
| GoTypes.DecimalDigitsRoundTrip | httpclient/http_response_parser.go:39 | the decimal text reads back as the number it was made from |
| FrameReader.FindLF | twitstream/stream_utils.go:79 | a position at or after the start that holds '\n', or the end of the data |
| FrameReader.FindLFIsFirst | twitstream/stream_utils.go:79 | no '\n' lies between the start and the position found, so it is the first one |
| FrameReader.ReadLine | twitstream/stream_utils.go:79 | `ReadBytes('\n')`: the bytes read from the position on; no error exactly when they end in '\n'; with an error, the rest of the body and the body's final error |
| FrameReader.ReadLineStopsAtFirstLF | twitstream/stream_utils.go:79 | a line holds no '\n' before its last byte, and none at all when it ends in an error |
| FrameReader.ReadBytesLF | twitstream/stream_utils.go:79 | the scan for the next '\n' returns exactly `ReadLine` |
| FrameReader.TrimRightCRLF | twitstream/stream_utils.go:101 | `TrimRight(line, "\r\n")` keeps a prefix of the line that does not end in '\r' or '\n' |
| FrameReader.TrimRemovesOnlyCRLF | twitstream/stream_utils.go:101 | every byte removed is a '\r' or a '\n', so the whole final run and only it goes |
| FrameReader.Scan | twitstream/stream_utils.go:72-107 | the loop of `readNext`: a message comes back only after some byte was read or buffered, and the buffer holds it |
| FrameReader.NextFrame | twitstream/stream_utils.go:68-113 | one call starts from an empty buffer; every message it returns moves the reader forward |
| FrameReader.RoundTrip | twitstream/stream_utils.go:73-103 | messages without "\r\n" and not ending in '\r', each followed by "\r\n", are read back one by one, then the body's end |
| FrameReader.DrainEncoded | twitstream/stream_utils.go:73-103 | the same round trip from any position where an encoded run starts |
| FrameReader.CrlfLineEndsMessage | twitstream/stream_utils.go:97-103 | a line ending in "\r\n" ends the message: the buffered lines plus the trimmed line |
| FrameReader.BareLineContinues | twitstream/stream_utils.go:104-106 | a line ending in a bare '\n' is buffered whole, '\n' included, and reading goes on |
| FrameReader.TrimsWholeRun | twitstream/stream_utils.go:97-103 | "x\r\r\n" yields "x" |
| FrameReader.EmbeddedNewlineKept | twitstream/stream_utils.go:104-106 | "line1\nline2\r\n" yields the one message "line1\nline2" |
| FrameReader.KeepAliveIsEmptyFrame | twitstream/stream_utils.go:98-112 | a bare "\r\n" yields an empty message and no error |
| FrameReader.EofWithNothingBuffered | twitstream/stream_utils.go:88-93 | at EOF with nothing buffered the call returns EOF |
| FrameReader.EofFlushesUnterminated | twitstream/stream_utils.go:88-95 | unterminated data before EOF is returned once as a message, then EOF |
| FrameReader.BrokenReadFails | twitstream/stream_utils.go:81-83 | a read error other than EOF is returned at once, whatever was buffered |
| FrameReader.StreamResponseBodyReader.constructor | twitstream/stream_utils.go:55-57 | a new reader has no body bound |
| FrameReader.StreamResponseBodyReader.SetStreamResponseBody | twitstream/stream_utils.go:61-63 | binds a body, read from its start |
| FrameReader.StreamResponseBodyReader.ReadNext | twitstream/stream_utils.go:68-113 | truncates the buffer, then loops over lines; the result, position and buffer are those of `NextFrame` |
| Backoff.BackOffSeconds | httpclient/http_response_parser.go:48-55 | the delay never exceeds 30 s |
| Backoff.BackOffTable | httpclient/http_response_parser.go:48-55 | delays 0, 0, 1, 3, 7, 15, 30 for retries 0 to 6 |
| Backoff.BackOffSaturates | httpclient/httpclient.go:177-184 | from 6 retries on the delay is the 30 s ceiling |
| Backoff.BackOffMonotone | httpclient/http_response_parser.go:49-53 | the delay never shrinks as the retry count grows |
| Http.HeaderMapSpec | httpclient/httpclient.go:134-145 | per key: a non-empty token's Bearer wins for Authorization; otherwise the last caller header; Content-Type defaults to application/json; no other key |
| Http.SetAllLastWins | httpclient/httpclient.go:138-141 | setting the caller headers in order leaves each key with its last value |
| Http.AssembleHeaders | http_client.go:60-70 | the header loop yields exactly `HeaderMap` of the caller headers and token |
| Http.RequestBody | httpclient/httpclient.go:122-127 | GET has no body; every other method sends the options' body |
| Http.BuildRequest | http_client.go:47-70 | the request carries the method, URL, body rule and assembled headers |
| Http.Classify | httpclient/http_response_parser.go:18-45 | 429 is retried, other statuses from 400 up are rejected, the rest accepted |
| Http.FailureWithBody | http_client.go:82-84 | the rejection text is "Network request failed: " followed by the body |
| Http.Finish | http_client.go:73-87 | a transport error is returned unchanged; every status from 400 up is the error `FailureWithBody` of its body, the prefix followed by exactly the body bytes; below 400 the response itself |
| Http.InstallEndpoints | httpclient/httpclient.go:45-50 | the constructor sets exactly the keys rules, stream and token to the fixed API URLs |
| Http.InstallIdempotent | httpclient/httpclient.go:45-50 | filling the table twice gives the table filled once |
| Http.DefaultEndpoints | httpclient/httpclient.go:46-48 | three entries, rules, stream and token, each a URL under the API prefix |
| Http.EndpointTable.constructor | httpclient/httpclient.go:17 | the package table starts empty |
| Http.EndpointTable.Lookup | httpclient/httpclient.go:105 | a missing name yields the empty string |
| HttpClient.RequestOpts.constructor | httpclient/httpclient.go:33-42 | new options start with zero retries |
| HttpClient.FirstSettled | httpclient/httpclient.go:155-164 | the first reply in the script that is not a 429 |
| HttpClient.Execute | httpclient/httpclient.go:117-175 | a construction error is returned with nothing sent; otherwise one request more than sleeps, and success only below 400 |
| HttpClient.ExecuteEnds | httpclient/httpclient.go:148-164 | the call ends with the result of the first reply that is not a 429, and `Retries` has grown by the 429s before it, mod 256 |
| HttpClient.ExecuteSleeps | httpclient/httpclient.go:155-184 | one sleep per 429, the i-th for the backoff of the counter value r0+i |
| HttpClient.ExecuteSends | httpclient/httpclient.go:117-164 | the same request goes out once per reply used |
| HttpClient.ExecuteCharacterised | httpclient/httpclient.go:148-184 | the call ends at the first non-429 reply with that reply's result; `Retries` grows by the 429s before it, mod 256; the i-th sleep is the backoff of r0+i; the same request goes out once per reply used |
| HttpClient.TransportErrorStops | httpclient/httpclient.go:148-153 | a transport error returns at once: one request, no sleep |
| HttpClient.RetryOnceThenOk | httpclient/httpclient.go:155-164 | a 429 then a 200: one retry, one sleep of 0 s, the 200 returned |
| HttpClient.Client.NewHttpClient | httpclient/httpclient.go:45-50 | stores the token and fills the endpoint table |
| HttpClient.Client.GenerateUrl | httpclient/httpclient.go:102-115 | the URL is the table entry followed by the query; the error, naming the endpoint, is there exactly when the URL is empty or lacks the API prefix |
| HttpClient.UnknownNameNeedsPrefixedQuery | httpclient/httpclient.go:105-110 | an unknown name contributes nothing, so only a query starting with the API prefix succeeds |
| HttpClient.KnownNamesAlwaysGenerate | httpclient/httpclient.go:102-115 | after the constructor, every known name generates without error |
| HttpClient.Client.NewHttpRequest | httpclient/httpclient.go:117-175 | the retry loop returns what `Execute` describes and leaves the counter where it says |
| HttpClient.Client.GetRules | httpclient/httpclient.go:52-60 | a GET of the table's rules URL, used without a check |
| HttpClient.Client.AddRules | httpclient/httpclient.go:62-80 | a URL error is returned with nothing sent; otherwise a POST of the body to the generated URL |
| HttpClient.Client.GetSearchStream | httpclient/httpclient.go:82-100 | a URL error is returned with nothing sent; otherwise a GET of the generated stream URL |
| ResponseParser.Rejection | httpclient/http_response_parser.go:31-43 | the rejection text: the body after the prefix, or the status prefix when there is no body |
| ResponseParser.RejectionCarriesStatus | httpclient/http_response_parser.go:38-42 | without a body, the status can be read back from the message |
| ResponseParser.Handle | httpclient/http_response_parser.go:16-46 | a delay is requested, and the counter changes, exactly on 429 |
| ResponseParser.RateLimitDelegates | httpclient/http_response_parser.go:18-28 | on 429: sleep for the pre-increment counter, counter up by one, the delegate's result unchanged |
| ResponseParser.OwnErrorsAreRejections | httpclient/http_response_parser.go:18-45 | apart from 429, an error exactly from 400 up, with the rejection text and the counter untouched; below 400 the response itself |
| ResponseParser.RetryThenSuccess | httpclient/http_response_parser_test.go:36-56 | a 429 whose delegate answers 200 ends with one retry and the 200 |
| ResponseParser.RejectsUnauthorized | httpclient/http_response_parser_test.go:58-70 | a 401 is an error and leaves the counter at 0 |
| ResponseParser.HandleResponse | httpclient/http_response_parser.go:16-46 | updates the options' counter in place as `Handle` says and returns its result |
| LegacyHttp.Client.NewHttpClient | http_client.go:35-40 | writes the same three endpoint URLs into the table |
| LegacyHttp.Client.NewHttpRequest | http_client.go:42-88 | a construction error is returned with nothing sent; otherwise exactly one request with the assembled headers, and `Send`'s result |
| LegacyHttp.Send | http_client.go:42-88 | success exactly when the request is built and answered below 400, with that response |
| LegacyHttp.RateLimitIsRejected | http_client.go:80-85 | a 429 is rejected with the body text, like any status from 400 up |
| LegacyHttp.AgreesExceptOnRateLimit | http_client.go:73-87 | on a first reply that is not a 429 the retrying client returns what the older one does |
| Stream.Session | stream.go:63-81 | the run of the loop: the reader only moves forward, and it stops early only when a stop was sent |
| Stream.SessionAfter | stream.go:67-79 | the rest of a turn once the reader has answered: the reader only moves forward, and the run stops early only when a stop was sent |
| Stream.Advance | stream.go:67-79 | one turn: check the flag, read, stop on error, skip an empty frame, send the rest |
| Stream.SessionSendsNonEmptyFrames | stream.go:67-80 | left to run, the loop sends exactly the non-empty frames of the reader, in order |
| Stream.NonEmpty | stream.go:72-75 | dropping the keep-alives never adds a message |
| Stream.NoKeepAliveSent | twitstream/stream.go:69-72 | no empty message is ever sent |
| Stream.StopCutsShort | twitstream/stream.go:64 | with a stop after n turns, at most n messages are sent, and they begin what an unstopped run sends |
| Stream.StreamRoundTrip | twitstream/stream.go:60-78 | non-empty framable messages on the wire are delivered exactly, in order |
| Stream.HelloIsDelivered | stream_test.go:37-85 | a body "hello\r\n" delivers the one message "hello" |
| Stream.StreamSpec | stream.go:48-51 | the stream request is a GET of the table's stream URL with no body |
| Stream.Stream.NewStream | stream.go:25-33 | a new stream has `done` open and nothing sent |
| Stream.Stream.Stopped | twitstream/stream_utils.go:16-23 | true exactly when `done` has been closed; it never blocks, and `StreamMessages` runs its loop only while it is false |
| Stream.Stream.StopStream | stream.go:41-43 | closes `done`; it may not be closed already; nothing is sent |
| Stream.Stream.StreamMessages | stream.go:63-81 | with `done` closed nothing happens; otherwise the sent messages and final reader state are those of `Session` |
| Stream.Stream.StartStream | stream.go:46-61 | a failed request panics with its error and changes nothing; otherwise the body is bound from its start and the loop runs on it |
| Base64.Value | token_generator.go:63-65 | the value of each symbol of the alphabet of section 4 of RFC 4648 |
| Base64.Encode | token_generator.go:63-65 | four symbols for every three bytes begun |
| Base64.RoundTrip | token_generator.go:63-65 | decoding the encoding gives the bytes back |
| Base64.EncodeAlphabet | token_generator.go:63-65 | the output uses only the alphabet, with '=' padding at the end only |
| Base64.Examples | twitstream/token_generator.go:63-65 | ":" encodes to "Og==" and "foo:bar" to "Zm9vOmJhcg==" |
| TokenRequest.DecodeOrZero | token_generator.go:56-60 | a body that does not decode leaves both fields empty |
| TokenRequest.Credentials | token_generator.go:63-65 | key and secret can be read back, the length is 4 per 3 bytes begun of `key:secret`, and only the Base64 alphabet appears |
| TokenRequest.CredentialExamples | twitstream/token_generator.go:63-65 | an empty key and secret give "Og=="; "foo" and "bar" give "Zm9vOmJhcg==" |
| TokenGenerator.TokenGenerator.NewTokenGenerator | token_generator.go:25-27 | no key, no secret, the given client |
| TokenGenerator.TokenGenerator.SetApiKeyAndSecret | token_generator.go:30-34 | stores both and returns the same receiver; the client stays |
| TokenGenerator.TokenGenerator.Base64EncodeKeys | token_generator.go:63-65 | the Basic credential of the key and secret |
| TokenGenerator.TokenGenerator.BearerTokenSpec | token_generator.go:39-50 | one POST to the table's token URL with the client-credentials body and, in order, the form Content-Type and the Basic Authorization |
| TokenGenerator.TokenGenerator.RequestBearerToken | token_generator.go:37-61 | returns `Answer` for the request it builds; nothing is sent when the request cannot be built, otherwise exactly the one request built from `BearerTokenSpec` with its body and two headers |
| TokenGenerator.Answer | token_generator.go:52-60 | the client's error is returned; a successful request always yields a decoded result, empty when the body does not decode |
| TokenGenerator.BearerTokenHeaders | token_generator.go:44-45 | through a client without a token, the request goes out with the form Content-Type and a Basic credential from which key and secret read back |
| TokenGenerator.ClientTokenOverridesBasic | http_client.go:68-70 | through a client with a token, the Bearer header replaces the Basic one |
| TwitstreamToken.TokenRequestFor | twitstream/token_generator.go:37-47 | a POST to the literal token URL with the client-credentials body and exactly two headers |
| TwitstreamToken.Outcome | twitstream/token_generator.go:41-60 | a construction or transport error ends the process with its log line; any answer, whatever its status, is decoded |
| TwitstreamToken.TokenGenerator.NewTokenGenerator | twitstream/token_generator.go:26-28 | an empty key and secret |
| TwitstreamToken.TokenGenerator.SetApiKeyAndSecret | twitstream/token_generator.go:30-34 | stores both and returns the same receiver |
| TwitstreamToken.TokenGenerator.Base64EncodeKeys | twitstream/token_generator.go:63-65 | the Basic credential of the key and secret |
| TwitstreamToken.TokenGenerator.RequestBearerToken | twitstream/token_generator.go:36-61 | returns `Outcome`; nothing is sent when the request cannot be built, otherwise exactly `TokenRequestFor` |
| TwitstreamToken.SameRequestAsRoot | twitstream/token_generator.go:39-47 | the request equals the root generator's, sent through a client without a token whose table holds the token URL |
| TwitstreamToken.StatusIgnored | twitstream/token_generator.go:49-60 | every status is decoded here, where the root generator returns an error from 400 up |
| RuleBuilder.Negate | rules/rule_builder.go:59-62 | a minus sign followed by the text unchanged |
| RuleBuilder.ReplayLists | rules/rule_builder.go:39-57 | after any chain of calls, each list holds its own calls' arguments in order, and `filterexactphrase` is empty |
| RuleBuilder.FilterExactPhraseNeverWritten | rules/rule_builder.go:54-57 | whatever a builder has seen, `filterexactphrase` is empty and the other lists hold their calls' arguments |
| RuleBuilder.FilterExactPhraseMisfiles | rules/rule_builder.go:54-57 | filtering "x" puts "-x" into `exactphrase` and leaves `filterexactphrase` empty |
| RuleBuilder.ReplayIntendedSeparatesFilters | rules/rule_builder.go:54-57 | filing filtered phrases under `filterexactphrase` keeps added and filtered phrases apart, each in order |
| RuleBuilder.ValueAndTag | rules/rule_builder.go:35-37 | the value, one space, the tag |
| RuleBuilder.ValueAndTagSplits | rules/rule_builder.go:35-37 | for a value without spaces, the value and tag are recovered at the first space |
| RuleBuilder.RuleBuilder.NewRuleBuilder | rules/rule_builder.go:22-29 | four empty lists |
| RuleBuilder.RuleBuilder.Build | rules/rule_builder.go:31-33 | "lol", whatever the lists hold |
| RuleBuilder.RuleBuilder.WithValueAndTag | rules/rule_builder.go:35-37 | the joined text; nothing is read or changed |
| RuleBuilder.RuleBuilder.AddKeyword | rules/rule_builder.go:39-42 | appends the keyword to `keywords` only and returns the receiver |
| RuleBuilder.RuleBuilder.FilterKeyword | rules/rule_builder.go:44-47 | appends the negated keyword to `filterkeywords` only |
| RuleBuilder.RuleBuilder.AddExactPhrase | rules/rule_builder.go:49-52 | appends the phrase to `exactphrase` only |
| RuleBuilder.RuleBuilder.FilterExactPhrase | rules/rule_builder.go:54-57 | appends the negated phrase to `exactphrase` only |
| ExpansionBuilder.ReplayKeepsOrder | stream/stream_expansion_builder.go:35-56 | after any chain of calls, each list holds the texts of its own calls, in order |
| ExpansionBuilder.OneEntryPerCall | stream/stream_expansion_builder.go:35-56 | each call adds exactly one entry |
| ExpansionBuilder.BuilderKeepsOrder | stream/stream_expansion_builder.go:35-56 | whatever a builder has seen, each list holds its own calls' texts in order |
| ExpansionBuilder.ChainExample | stream/stream_expansion_builder.go:35-56 | two expansions, two media fields and two place fields stay in their lists in call order |
| ExpansionBuilder.StreamQueryParamBuilder.NewStreamQueryParamsBuilder | stream/stream_expansion_builder.go:20-26 | three empty lists |
| ExpansionBuilder.StreamQueryParamBuilder.Build | stream/stream_expansion_builder.go:28-30 | "?expansions=lol", whatever the lists hold |
| ExpansionBuilder.StreamQueryParamBuilder.AddExpansion | stream/stream_expansion_builder.go:35-38 | appends one entry to `expansions` only and returns the receiver |
| ExpansionBuilder.StreamQueryParamBuilder.AddMediaField | stream/stream_expansion_builder.go:44-47 | appends one entry to `mediaFields` only |
| ExpansionBuilder.StreamQueryParamBuilder.AddPlaceField | stream/stream_expansion_builder.go:53-56 | appends one entry to `placeFields` only |

## Left out

- Network I/O, `http.Client.Do`, `ioutil.ReadAll` and closing bodies: the
  transport is a script of replies; a body's reading is its bytes and how it
  ends.
- `panic(err)` in `StartStream` (stream.go:53-55): the model returns the
  error and leaves the stream and reader unchanged; it does not capture the
  unwinding that, unrecovered, ends the program.
- Sleeping and logging: the delays asked for are recorded, not taken;
  `log.Printf` lines are not modelled, and `log.Fatalf` is the `Exited`
  ending.
- Goroutines, the wait group, channel blocking and the timer of
  `sleepOrDone` (twitstream/stream_utils.go:28-37): the stream loop runs
  sequentially; the message channel is the `messages` sequence and `done` a
  flag.
- `GetMessages` (stream.go:36-38): it only hands out the channel.
- Backoff.BackOffSeconds: uses the integer formula for every counter value;
  the Go code computes it in floating point, which agrees up to 63 retries
  and is platform-dependent from 64 on.
- HttpClient.Execute: requires a script holding a reply that is not a 429;
  a server that answers 429 forever makes the Go code recurse without end,
  which is not modelled.
- ResponseParser.Handle: the delegate `fn` is a function of the counter
  value it is called with; a delegate with effects of its own is not
  modelled.
- Header-name canonicalisation by `net/http`: header keys are taken as
  already canonical, and `Header.Add` on a fresh request is modelled as a
  plain map update.
- JSON encoding and decoding: the decoder is a parameter; `rules.go`,
  `rules/rules.go` and `twitstream/rules.go` wrap JSON and HTTP and are not
  part of this model.
- The HTTP client of the `twitstream` package is not part of this model;
  `twitstream/stream.go` is modelled by the same `Stream` class as
  `stream.go`, over the older client, since its loop has the same shape.
- The mocks, the examples, `twitterstream.go` and `twitstream/twitstream.go`
  (constructor wiring), and `httpclient/types.go`, which repeats
  `RequestOpts`.
- `readNext` returns the reader's own buffer (twitstream/stream_utils.go:112),
  which the next call overwrites; the model returns each frame by value and
  does not capture that aliasing. The one consumer copies the frame at once
  (stream.go:77).
- Calling `readNext` before a body is bound dereferences a nil reader and
  panics (twitstream/stream_utils.go:55-57,79); the model makes a bound body
  a precondition of `ReadNext` and `StreamMessages`, which `StartStream`
  always meets by binding the body first.
- The stream query-parameter builder stores pointers to copies of its
  arguments; the model stores the texts.

## Findings

| source | as written | input that shows it | evidently intended | confidence | as-written member | corrected member |
|---|---|---|---|---|---|---|
| rules/rule_builder.go:54-57 | `FilterExactPhrase` appends the negated phrase to `exactphrase`, so no method ever writes `filterexactphrase` | `FilterExactPhrase("x")` on a new builder: `exactphrase` is `["-x"]`, `filterexactphrase` is empty | the negated phrase goes to `filterexactphrase`, as `FilterKeyword` does for keywords | medium; not executed | RuleBuilder.FilterExactPhraseMisfiles | RuleBuilder.ReplayIntendedSeparatesFilters |
