/** The stream of stream.go (and its twin twitstream/stream.go): one GET of
    the stream endpoint, then a loop that reads frames from the response body
    and sends every non-empty one on the message channel until the reader
    fails or the stream is stopped.

    The loop runs in its own goroutine in the source and `StopStream` is
    called from another one. Here the two are sequentialised: the channel is
    the sequence of everything sent on it, and the moment the consumer's
    `StopStream` lands is a parameter, `stopAfter`: the number of frames the
    loop reads before the stop flag is set (`None`: the consumer never stops
    the stream). */
module Stream {
  import opened GoTypes
  import opened Http
  import opened FrameReader
  import LegacyHttp

  /** The run of the loop from a reader state: what it sent, where the reader
      ended, the reader's buffer afterwards and whether it ended by the stop flag. */
  datatype Run = Run(delivered: seq<Bytes>, pos: nat, buf: Bytes, stopped: bool)

  /** One read fewer before the consumer stops the stream. */
  function Countdown(stopAfter: Option<nat>): Option<nat>
    requires stopAfter != Some(0)
  {
    if stopAfter.Some? then Some(stopAfter.value - 1) else None
  }

  /** What the loop sends for one frame: nothing for a keep-alive. */
  function Sends(m: Bytes): seq<Bytes> {
    if |m| == 0 then [] else [m]
  }

  /** A run preceded by messages already sent. */
  function Prepend(sent: seq<Bytes>, run: Run): Run {
    Run(sent + run.delivered, run.pos, run.buf, run.stopped)
  }

  /** `streamMessages` (stream.go:63-81) from reader position `pos`: check
      the flag, read a frame, end silently on an error, skip an empty frame,
      send the rest in order. */
  function Session(body: Body, pos: nat, buf: Bytes, stopAfter: Option<nat>): (run: Run)
    requires pos <= |body.data|
    ensures pos <= run.pos <= |body.data|
    ensures run.stopped ==> stopAfter.Some?
    decreases |body.data| - pos, 1
  {
    if stopAfter == Some(0) then Run([], pos, buf, true)
    else SessionAfter(body, pos, NextFrame(body, pos), stopAfter)
  }

  /** The rest of `Session` once the flag was found unset and the reader
      returned `s`. */
  function SessionAfter(body: Body, pos: nat, s: Step, stopAfter: Option<nat>): (run: Run)
    requires pos <= |body.data| && stopAfter != Some(0)
    requires s == NextFrame(body, pos)
    ensures pos <= run.pos <= |body.data|
    ensures run.stopped ==> stopAfter.Some?
    decreases |body.data| - pos, 0
  {
    match s.outcome
    case Failed(_) => Run([], s.pos, s.buf, false)
    case Frame(m) =>
      var rest := Session(body, s.pos, s.buf, Countdown(stopAfter));
      Prepend(Sends(m), rest)
  }

  /** One turn of the loop, for a flag not yet set, after `sent` was sent:
      the reader returned `r` and moved to `next` with buffer `buf'`. */
  lemma Advance(body: Body, pos: nat, buf: Bytes, stopAfter: Option<nat>, sent: seq<Bytes>,
                r: ReadOutcome, next: nat, buf': Bytes)
    requires pos <= |body.data| && stopAfter != Some(0)
    requires NextFrame(body, pos) == Step(r, next, buf')
    ensures next <= |body.data|
    ensures r.Failed? ==> Prepend(sent, Session(body, pos, buf, stopAfter)) == Run(sent, next, buf', false)
    ensures r.Frame? && |r.data| == 0 ==>
              Prepend(sent, Session(body, pos, buf, stopAfter))
              == Prepend(sent, Session(body, next, buf', Countdown(stopAfter)))
    ensures r.Frame? && |r.data| > 0 ==>
              Prepend(sent, Session(body, pos, buf, stopAfter))
              == Prepend(sent + [r.data], Session(body, next, buf', Countdown(stopAfter)))
  {
    if r.Frame? {
      var rest := Session(body, next, buf', Countdown(stopAfter));
      assert Session(body, pos, buf, stopAfter) == Prepend(Sends(r.data), rest);
      if |r.data| == 0 {
        assert Sends(r.data) + rest.delivered == rest.delivered;
      } else {
        assert sent + (Sends(r.data) + rest.delivered) == sent + [r.data] + rest.delivered;
      }
    }
  }

  /** The frames that are not keep-alives, in order. */
  function NonEmpty(frames: seq<Bytes>): (ms: seq<Bytes>)
    ensures |ms| <= |frames|
    decreases |frames|
  {
    if frames == [] then []
    else (if |frames[0]| == 0 then [] else [frames[0]]) + NonEmpty(frames[1..])
  }

  /** Left to run until the reader fails, the loop sends exactly the
      non-empty frames the reader returns, in the order it returns them. */
  lemma {:induction false} SessionSendsNonEmptyFrames(body: Body, pos: nat, buf: Bytes)
    requires pos <= |body.data|
    ensures Session(body, pos, buf, None).delivered == NonEmpty(Drain(body, pos).frames)
    ensures !Session(body, pos, buf, None).stopped
    decreases |body.data| - pos
  {
    var s := NextFrame(body, pos);
    if s.outcome.Frame? {
      SessionSendsNonEmptyFrames(body, s.pos, s.buf);
      var fs := Drain(body, pos).frames;
      assert fs[0] == s.outcome.data && fs[1..] == Drain(body, s.pos).frames;
    }
  }

  lemma {:induction false} NonEmptyKeepsAll(ms: seq<Bytes>)
    requires NoKeepAlives(ms)
    ensures NonEmpty(ms) == ms
    decreases |ms|
  {
    if ms != [] {
      NonEmptyKeepsAll(ms[1..]);
    }
  }

  /** End to end: a body of non-empty messages that survive the wire, each
      followed by "\r\n", is delivered on the channel message for message. */
  lemma StreamRoundTrip(ms: seq<Bytes>, end: ReadError, buf: Bytes)
    requires forall i :: 0 <= i < |ms| ==> Framable(ms[i]) && |ms[i]| > 0
    ensures Session(Body(Encode(ms), end), 0, buf, None).delivered == ms
  {
    RoundTrip(ms, end);
    SessionSendsNonEmptyFrames(Body(Encode(ms), end), 0, buf);
    NonEmptyKeepsAll(ms);
  }

  /** No message in `ms` is a keep-alive. */
  predicate NoKeepAlives(ms: seq<Bytes>) {
    forall i :: 0 <= i < |ms| ==> |ms[i]| > 0
  }

  /** Keep-alives are never sent: every message on the channel is non-empty. */
  lemma {:induction false} NoKeepAliveSent(body: Body, pos: nat, buf: Bytes, stopAfter: Option<nat>)
    requires pos <= |body.data|
    ensures NoKeepAlives(Session(body, pos, buf, stopAfter).delivered)
    decreases |body.data| - pos
  {
    if stopAfter != Some(0) {
      var s := NextFrame(body, pos);
      if s.outcome.Frame? {
        var rest := Session(body, s.pos, s.buf, Countdown(stopAfter)).delivered;
        NoKeepAliveSent(body, s.pos, s.buf, Countdown(stopAfter));
        var head := Sends(s.outcome.data);
        assert Session(body, pos, buf, stopAfter).delivered == head + rest;
        assert NoKeepAlives(head);
      }
    }
  }

  predicate IsPrefix(a: seq<Bytes>, b: seq<Bytes>) {
    |a| <= |b| && a == b[..|a|]
  }

  lemma PrefixPrepend(h: seq<Bytes>, a: seq<Bytes>, b: seq<Bytes>)
    requires IsPrefix(a, b)
    ensures IsPrefix(h + a, h + b)
  {
    assert (h + b)[..|h + a|] == h + b[..|a|];
  }

  /** A stop sent earlier only cuts the run short: what the loop sends is a
      prefix of what it would send without the stop, and at most one message
      per frame read. */
  lemma {:induction false} StopCutsShort(body: Body, pos: nat, buf: Bytes, n: nat)
    requires pos <= |body.data|
    ensures |Session(body, pos, buf, Some(n)).delivered| <= n
    ensures IsPrefix(Session(body, pos, buf, Some(n)).delivered, Session(body, pos, buf, None).delivered)
    decreases |body.data| - pos
  {
    if n > 0 {
      var s := NextFrame(body, pos);
      if s.outcome.Frame? {
        StopCutsShort(body, s.pos, s.buf, n - 1);
        var head := Sends(s.outcome.data);
        var cut := Session(body, s.pos, s.buf, Some(n - 1));
        var full := Session(body, s.pos, s.buf, None);
        assert Countdown(Some(n)) == Some(n - 1);
        assert Session(body, pos, buf, Some(n)).delivered == head + cut.delivered;
        assert Session(body, pos, buf, None).delivered == head + full.delivered;
        PrefixPrepend(head, cut.delivered, full.delivered);
      }
    }
  }

  /** A body "hello\r\n" yields the message "hello" (stream_test.go:37-85). */
  lemma HelloIsDelivered(end: ReadError, buf: Bytes)
    ensures Session(Body("hello\r\n", end), 0, buf, None).delivered == ["hello"]
  {
    assert Encode(["hello"]) == "hello\r\n" by {
      assert Encode(["hello"][1..]) == [];
    }
    assert Framable("hello") by {
      forall j | 0 <= j < 4 ensures !CrlfAt("hello", j) { }
    }
    StreamRoundTrip(["hello"], end, buf);
  }

  /** The request a stream sends: a GET of the table's "stream" URL. */
  function StreamSpec(client: LegacyHttp.Client): (spec: RequestSpec)
    reads client.endpoints
    ensures spec.httpMethod == Get && spec.url == client.endpoints.Lookup("stream") && spec.body == []
  {
    RequestSpec(Get, client.endpoints.Lookup("stream"), [], [])
  }

  /** The `stream` of stream.go:16-22 without its wait group. */
  class Stream {
    /** Everything sent on the message channel, oldest first. */
    var messages: seq<Bytes>
    /** The `done` channel has been closed. */
    var done: bool
    const client: LegacyHttp.Client
    const reader: StreamResponseBodyReader

    /** `newStream` (stream.go:25-33). */
    constructor NewStream(client: LegacyHttp.Client, reader: StreamResponseBodyReader)
      ensures this.client == client && this.reader == reader
      ensures messages == [] && !done
    {
      this.client := client;
      this.reader := reader;
      messages := [];
      done := false;
    }

    /** `stopped(s.done)` (twitstream/stream_utils.go:16-23): a receive on
        `done` succeeds, without blocking, exactly when it has been closed. */
    predicate Stopped(): (closed: bool)
      reads this
      ensures closed <==> done
    {
      done
    }

    /** `StopStream` (stream.go:41-43): closes `done`; closing it a second
        time would panic. */
    method StopStream()
      requires !Stopped()
      modifies this
      ensures Stopped() && messages == old(messages)
    {
      done := true;
    }

    /** `streamMessages` (stream.go:63-81) on the body already bound to the reader. */
    method StreamMessages(stopAfter: Option<nat>)
      requires reader.Valid() && reader.body.Some?
      modifies this, reader
      ensures reader.Valid() && reader.body == old(reader.body)
      ensures old(Stopped()) ==> Stopped() && messages == old(messages) && reader.pos == old(reader.pos) && reader.buf == old(reader.buf)
      ensures !old(Stopped()) ==>
                var run := Session(old(reader.body).value, old(reader.pos), old(reader.buf), stopAfter);
                messages == old(messages) + run.delivered && Stopped() == run.stopped && reader.pos == run.pos && reader.buf == run.buf
    {
      if Stopped() {
        return;
      }
      var b := reader.body.value;
      ghost var want := Session(b, reader.pos, reader.buf, stopAfter);
      ghost var m0 := messages;
      ghost var sent: seq<Bytes> := [];
      var left := stopAfter;
      if left == Some(0) {
        // the consumer's StopStream lands before the first check
        done := true;
      }
      ghost var pos, buf := reader.pos, reader.buf;
      while !Stopped()
        invariant reader.Valid() && reader.body == Some(b)
        invariant pos == reader.pos && buf == reader.buf
        invariant messages == m0 + sent
        invariant !done ==> left != Some(0) && want == Prepend(sent, Session(b, pos, buf, left))
        invariant done ==> want == Run(sent, pos, buf, true)
        decreases |b.data| - pos
      {
        var r := reader.ReadNext();
        ghost var next, buf' := reader.pos, reader.buf;
        Advance(b, pos, buf, left, sent, r, next, buf');
        pos, buf := next, buf';
        if r.Failed? {
          return;
        }
        if |r.data| > 0 {
          messages := messages + [r.data];
          sent := sent + [r.data];
        }
        left := Countdown(left);
        if left == Some(0) {
          // the consumer's StopStream lands before the next check
          done := true;
        }
      }
    }

    /** `StartStream` (stream.go:46-61): request the stream; panic with the
        error if that fails; otherwise bind the body to the reader and run
        the loop on it. The panic is the returned error. */
    method StartStream(check: RequestCheck, reply: Reply, stopAfter: Option<nat>) returns (panic: Option<Bytes>)
      requires reader.Valid()
      modifies this, reader
      ensures var r := LegacyHttp.Send(StreamSpec(client), check, reply);
              r.Err? ==> panic == Some(r.error) && unchanged(this, reader)
      ensures var r := LegacyHttp.Send(StreamSpec(client), check, reply);
              r.Ok? ==> panic == None && r.value.body.Some? && reader.Valid() && reader.body == r.value.body
      ensures var r := LegacyHttp.Send(StreamSpec(client), check, reply);
              r.Ok? && old(done) ==> done && messages == old(messages) && reader.pos == 0 && reader.buf == old(reader.buf)
      ensures var r := LegacyHttp.Send(StreamSpec(client), check, reply);
              r.Ok? && !old(done) ==>
                var run := Session(r.value.body.value, 0, old(reader.buf), stopAfter);
                messages == old(messages) + run.delivered && done == run.stopped && reader.pos == run.pos && reader.buf == run.buf
    {
      var res;
      ghost var sent;
      res, sent := client.NewHttpRequest(StreamSpec(client), check, reply);
      if res.Err? {
        return Some(res.error);
      }
      reader.SetStreamResponseBody(res.value.body.value);
      StreamMessages(stopAfter);
      panic := None;
    }
  }
}
