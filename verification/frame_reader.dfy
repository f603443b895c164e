/** The incremental frame reader of twitstream/stream_utils.go: it reads a
    response body line by line (lines end in '\n') and ends a message at the
    first line that ends in "\r\n". */
module FrameReader {
  import opened GoTypes

  const CRLF: Bytes := "\r\n"

  /** What one call of the reader yields: a message, or the error `readNext` returns. */
  datatype ReadOutcome = Frame(data: Bytes) | Failed(err: ReadError)

  /** The index of the first '\n' at or after `from`, or `|s|` when there is none. */
  function FindLF(s: Bytes, from: nat): (i: nat)
    requires from <= |s|
    ensures from <= i <= |s|
    ensures i < |s| ==> s[i] == LF
    decreases |s| - from
  {
    if from == |s| then from
    else if s[from] == LF then from
    else FindLF(s, from + 1)
  }

  /** No '\n' comes before the one `FindLF` finds. */
  lemma {:induction false} FindLFIsFirst(s: Bytes, from: nat)
    requires from <= |s|
    ensures forall j :: from <= j < FindLF(s, from) ==> s[j] != LF
    decreases |s| - from
  {
    if from < |s| && s[from] != LF {
      FindLFIsFirst(s, from + 1);
    }
  }

  /** One `bufio.Reader.ReadBytes('\n')`: the bytes up to and including the
      next '\n' with no error, or everything left with the body's final error. */
  datatype Line = Line(bytes: Bytes, next: nat, err: Option<ReadError>)

  function ReadLine(body: Body, pos: nat): (l: Line)
    requires pos <= |body.data|
    ensures pos <= l.next <= |body.data|
    ensures l.bytes == body.data[pos..l.next]
    ensures l.err.None? <==> (|l.bytes| > 0 && l.bytes[|l.bytes| - 1] == LF)
    ensures l.err.Some? ==> l.next == |body.data| && l.err.value == body.end
  {
    FindLFIsFirst(body.data, pos);
    var i := FindLF(body.data, pos);
    if i < |body.data| then Line(body.data[pos..i + 1], i + 1, None)
    else Line(body.data[pos..], |body.data|, Some(body.end))
  }

  /** A line holds no '\n' but the one that ends it, if any. */
  lemma ReadLineStopsAtFirstLF(body: Body, pos: nat)
    requires pos <= |body.data|
    ensures var l := ReadLine(body, pos);
            && (l.err.None? ==> forall j :: 0 <= j < |l.bytes| - 1 ==> l.bytes[j] != LF)
            && (l.err.Some? ==> forall j :: 0 <= j < |l.bytes| ==> l.bytes[j] != LF)
  {
    FindLFIsFirst(body.data, pos);
  }

  /** `bytes.HasSuffix(line, "\r\n")`. */
  predicate EndsWithCRLF(line: Bytes) {
    |line| >= 2 && line[|line| - 2] == CR && line[|line| - 1] == LF
  }

  predicate IsCRorLF(c: Byte) {
    c == CR || c == LF
  }

  /** `bytes.TrimRight(s, "\r\n")`: removes the longest run of '\r' and '\n' at the end. */
  function TrimRightCRLF(s: Bytes): (r: Bytes)
    ensures |r| <= |s| && r == s[..|r|]
    ensures |r| > 0 ==> !IsCRorLF(r[|r| - 1])
    decreases |s|
  {
    if |s| > 0 && IsCRorLF(s[|s| - 1]) then TrimRightCRLF(s[..|s| - 1]) else s
  }

  /** Every byte the trim removes is a '\r' or a '\n'. */
  lemma {:induction false} TrimRemovesOnlyCRLF(s: Bytes)
    ensures forall j :: |TrimRightCRLF(s)| <= j < |s| ==> IsCRorLF(s[j])
    decreases |s|
  {
    if |s| > 0 && IsCRorLF(s[|s| - 1]) {
      TrimRemovesOnlyCRLF(s[..|s| - 1]);
    }
  }

  /** The state `readNext` leaves behind: what it returns, the position in
      the body and the contents of its buffer. */
  datatype Step = Step(outcome: ReadOutcome, pos: nat, buf: Bytes)

  /** The loop of `readNext` from body position `pos` with `buf` already
      accumulated (twitstream/stream_utils.go:72-107). */
  function Scan(body: Body, pos: nat, buf: Bytes): (s: Step)
    requires pos <= |body.data|
    ensures pos <= s.pos <= |body.data|
    ensures s.outcome.Frame? ==> s.pos > pos || |buf| > 0
    ensures s.outcome.Frame? ==> s.buf == s.outcome.data
    decreases |body.data| - pos
  {
    var l := ReadLine(body, pos);
    if l.err.Some? && l.err.value != EOF then
      Step(Failed(l.err.value), l.next, buf)
    else if l.err == Some(EOF) && |l.bytes| == 0 then
      if |buf| == 0 then Step(Failed(EOF), l.next, buf) else Step(Frame(buf), l.next, buf)
    else if EndsWithCRLF(l.bytes) then
      var b := buf + TrimRightCRLF(l.bytes);
      Step(Frame(b), l.next, b)
    else
      Scan(body, l.next, buf + l.bytes)
  }

  /** One call of `readNext`: the loop starts from an emptied buffer
      (twitstream/stream_utils.go:71). */
  function NextFrame(body: Body, pos: nat): (s: Step)
    requires pos <= |body.data|
    ensures pos <= s.pos <= |body.data|
    ensures s.outcome.Frame? ==> s.pos > pos
  {
    Scan(body, pos, [])
  }

  /** Calling `readNext` until it fails: the frames it returns and the error that ends them. */
  datatype Drained = Drained(frames: seq<Bytes>, err: ReadError)

  function Drain(body: Body, pos: nat): (d: Drained)
    requires pos <= |body.data|
    decreases |body.data| - pos
  {
    var s := NextFrame(body, pos);
    match s.outcome
    case Failed(e) => Drained([], e)
    case Frame(m) =>
      var rest := Drain(body, s.pos);
      Drained([m] + rest.frames, rest.err)
  }

  /** The wire form of a sequence of messages: each one followed by "\r\n". */
  function Encode(ms: seq<Bytes>): (data: Bytes)
    decreases |ms|
  {
    if ms == [] then [] else ms[0] + CRLF + Encode(ms[1..])
  }

  /** A message that survives the wire: it holds no "\r\n" and does not end in '\r'. */
  predicate Framable(m: Bytes) {
    && (forall j :: 0 <= j < |m| - 1 ==> !CrlfAt(m, j))
    && (|m| > 0 ==> m[|m| - 1] != CR)
  }

  /** `m` holds "\r\n" at index `j`. */
  predicate CrlfAt(m: Bytes, j: nat)
    requires j + 1 < |m|
  {
    m[j] == CR && m[j + 1] == LF
  }

  /** `FindLF` is determined by where the first '\n' is. */
  lemma {:induction false} FindLFAt(s: Bytes, from: nat, i: nat)
    requires from <= i <= |s|
    requires forall j :: from <= j < i ==> s[j] != LF
    requires i < |s| ==> s[i] == LF
    ensures FindLF(s, from) == i
    decreases i - from
  {
    if from < i {
      FindLFAt(s, from + 1, i);
    }
  }

  /** The bytes of `m` sit in the body from `start` on, followed by "\r\n". */
  predicate Placed(body: Body, start: nat, m: Bytes) {
    && start + |m| + 2 <= |body.data|
    && (forall j :: 0 <= j < |m| ==> body.data[start + j] == m[j])
    && body.data[start + |m|] == CR
    && body.data[start + |m| + 1] == LF
  }

  lemma PlacedSlice(body: Body, start: nat, m: Bytes)
    requires start + |m| + 2 <= |body.data|
    requires body.data[start..start + |m| + 2] == m + CRLF
    ensures Placed(body, start, m)
  {
    var d := body.data;
    forall j | 0 <= j < |m| ensures d[start + j] == m[j] {
      assert d[start..start + |m| + 2][j] == (m + CRLF)[j];
    }
    assert d[start..start + |m| + 2][|m|] == (m + CRLF)[|m|];
    assert d[start..start + |m| + 2][|m| + 1] == (m + CRLF)[|m| + 1];
  }

  /** Reading a line from `k` inside a placed message whose next '\n' is at `t`. */
  lemma LineInside(body: Body, start: nat, m: Bytes, k: nat, t: nat, n: nat)
    requires Placed(body, start, m)
    requires k <= t < |m| && m[t] == LF && n == t + 1
    requires forall j :: k <= j < t ==> m[j] != LF
    ensures ReadLine(body, start + k) == Line(m[k..n], start + n, None)
  {
    var d := body.data;
    forall j | start + k <= j < start + t ensures d[j] != LF {
      assert d[start + (j - start)] == m[j - start];
    }
    assert d[start + t] == LF;
    FindLFAt(d, start + k, start + t);
    var seg := m[k..n];
    forall i | 0 <= i < |seg| ensures d[start + k + i] == seg[i] {
      assert d[start + (k + i)] == m[k + i];
    }
    assert d[start + k..start + n] == m[k..n];
  }

  /** Reading a line from `k` inside a placed message with no '\n' left in it. */
  lemma LineLast(body: Body, start: nat, m: Bytes, k: nat)
    requires Placed(body, start, m)
    requires k <= |m|
    requires forall j :: k <= j < |m| ==> m[j] != LF
    ensures ReadLine(body, start + k) == Line(m[k..] + CRLF, start + |m| + 2, None)
  {
    var d := body.data;
    forall j | start + k <= j < start + |m| + 1 ensures d[j] != LF {
      if j < start + |m| {
        assert d[start + (j - start)] == m[j - start];
      }
    }
    FindLFAt(d, start + k, start + |m| + 1);
    forall i | 0 <= i < |m| + 2 - k ensures d[start + k + i] == (m[k..] + CRLF)[i] {
      if i < |m| - k {
        assert d[start + (k + i)] == m[k + i];
      }
    }
    assert d[start + k..start + |m| + 2] == m[k..] + CRLF;
  }

  /** A line of a placed message that ends in a bare '\n' is buffered whole. */
  lemma ScanInner(body: Body, start: nat, m: Bytes, k: nat, t: nat, n: nat)
    requires Framable(m) && Placed(body, start, m)
    requires k <= t < |m| && m[t] == LF && n == t + 1
    requires forall j :: k <= j < t ==> m[j] != LF
    ensures Scan(body, start + k, m[..k]) == Scan(body, start + n, m[..n])
  {
    LineInside(body, start, m, k, t, n);
    InnerLineIsBare(m, k, t);
    PrefixGrows(m, k, n);
    Continue(body, start + k, m[..k], m[k..n], start + n, m[..n]);
  }

  /** Appending the next slice of `m` to a prefix of `m` gives the longer prefix. */
  lemma PrefixGrows(m: Bytes, k: nat, n: nat)
    requires k <= n <= |m|
    ensures m[..k] + m[k..n] == m[..n]
  {
  }

  /** A line that ends at a '\n' inside a framable message is not "\r\n"-terminated. */
  lemma InnerLineIsBare(m: Bytes, k: nat, t: nat)
    requires Framable(m)
    requires k <= t < |m| && m[t] == LF
    ensures !EndsWithCRLF(m[k..t + 1])
  {
    var line := m[k..t + 1];
    if |line| >= 2 {
      assert !CrlfAt(m, t - 1);
      assert line[|line| - 2] == m[t - 1];
    }
  }

  /** One turn of the loop that appends a bare line and reads on. */
  lemma Continue(body: Body, pos: nat, buf: Bytes, line: Bytes, next: nat, buf': Bytes)
    requires pos <= |body.data|
    requires ReadLine(body, pos) == Line(line, next, None)
    requires !EndsWithCRLF(line) && buf' == buf + line
    ensures Scan(body, pos, buf) == Scan(body, next, buf')
  {
  }

  /** The last line of a placed message ends it, and the trim removes
      exactly the "\r\n". */
  lemma ScanLast(body: Body, start: nat, m: Bytes, k: nat)
    requires Framable(m) && Placed(body, start, m)
    requires k <= |m|
    requires forall j :: k <= j < |m| ==> m[j] != LF
    ensures Scan(body, start + k, m[..k]) == Step(Frame(m), start + |m| + 2, m)
  {
    LineLast(body, start, m, k);
    LastLineTrims(m, k);
    Finish(body, start + k, m[..k], m[k..] + CRLF, start + |m| + 2, m);
  }

  /** The last line of a message, "\r\n" included, ends the message and
      trims back to exactly the rest of the message. */
  lemma LastLineTrims(m: Bytes, k: nat)
    requires k <= |m|
    requires k < |m| ==> !IsCRorLF(m[|m| - 1])
    ensures EndsWithCRLF(m[k..] + CRLF)
    ensures m[..k] + TrimRightCRLF(m[k..] + CRLF) == m
  {
    var b := m[k..];
    if |b| > 0 {
      assert b[|b| - 1] == m[|m| - 1];
    }
    TrimKeepsBody(b);
    assert m[..k] + b == m;
  }

  /** One turn of the loop that meets a "\r\n"-terminated line and returns. */
  lemma Finish(body: Body, pos: nat, buf: Bytes, line: Bytes, next: nat, msg: Bytes)
    requires pos <= |body.data|
    requires ReadLine(body, pos) == Line(line, next, None)
    requires EndsWithCRLF(line) && msg == buf + TrimRightCRLF(line)
    ensures Scan(body, pos, buf) == Step(Frame(msg), next, msg)
  {
  }

  /** The scan of one placed message `m`, from any line start `k` inside it
      with `m[..k]` already buffered, ends with `m` as a frame just after its
      "\r\n". */
  lemma {:induction false} ScanMessage(body: Body, start: nat, m: Bytes, k: nat)
    requires Framable(m) && Placed(body, start, m)
    requires k <= |m|
    ensures Scan(body, start + k, m[..k]) == Step(Frame(m), start + |m| + 2, m)
    decreases |m| - k
  {
    var t, n := ScanLine(body, start, m, k);
    if t < |m| {
      ScanMessage(body, start, m, n);
    }
  }

  /** One line of a placed message read from its start `k`: either a bare
      line ending at `t`, after which the scan goes on, or the last line. */
  lemma ScanLine(body: Body, start: nat, m: Bytes, k: nat) returns (t: nat, n: nat)
    requires Framable(m) && Placed(body, start, m)
    requires k <= |m|
    ensures k <= t <= |m| && n == t + 1
    ensures t < |m| ==> Scan(body, start + k, m[..k]) == Scan(body, start + n, m[..n])
    ensures t == |m| ==> Scan(body, start + k, m[..k]) == Step(Frame(m), start + |m| + 2, m)
  {
    t := FindLF(m, k);
    n := t + 1;
    FindLFIsFirst(m, k);
    if t < |m| {
      ScanInner(body, start, m, k, t, n);
    } else {
      ScanLast(body, start, m, k);
    }
  }

  /** Trimming "\r\n" from a line whose body does not end in '\r' or '\n'
      gives back exactly that body. */
  lemma TrimKeepsBody(b: Bytes)
    requires |b| > 0 ==> !IsCRorLF(b[|b| - 1])
    ensures TrimRightCRLF(b + CRLF) == b
  {
    var s := b + CRLF;
    assert s[..|s| - 1] == b + [CR];
    assert (b + [CR])[..|b|] == b;
    assert TrimRightCRLF(b + [CR]) == TrimRightCRLF(b);
  }

  /** Round trip: a body holding the encoded messages, after any prefix that
      has already been read, yields exactly those messages and then the body's
      final error (twitstream/stream_utils.go:73-77,97-103). */
  lemma {:induction false} DrainEncoded(pre: Bytes, ms: seq<Bytes>, end: ReadError)
    requires forall i :: 0 <= i < |ms| ==> Framable(ms[i])
    ensures Drain(Body(pre + Encode(ms), end), |pre|) == Drained(ms, end)
    decreases |ms|
  {
    var body := Body(pre + Encode(ms), end);
    if ms == [] {
      assert body.data == pre;
      DrainAtEnd(body);
    } else {
      DrainEncoded(pre + (ms[0] + CRLF), ms[1..], end);
      DrainFirst(pre, ms, end);
    }
  }

  /** The first message of an encoded run is read back, and the rest of the
      run starts where it ends. */
  lemma DrainFirst(pre: Bytes, ms: seq<Bytes>, end: ReadError)
    requires |ms| > 0 && Framable(ms[0])
    requires Drain(Body(pre + (ms[0] + CRLF) + Encode(ms[1..]), end), |pre + (ms[0] + CRLF)|) == Drained(ms[1..], end)
    ensures Drain(Body(pre + Encode(ms), end), |pre|) == Drained(ms, end)
  {
    var body := Body(pre + Encode(ms), end);
    var m, rest := ms[0], ms[1..];
    var pre' := pre + (m + CRLF);
    SliceOfConcat(pre, m + CRLF, Encode(rest));
    assert body.data == pre' + Encode(rest);
    MessageFrame(body, |pre|, m, |pre'|);
    DrainFrame(body, |pre|, m, |pre'|);
    HeadTail(ms);
  }

  lemma HeadTail(ms: seq<Bytes>)
    requires |ms| > 0
    ensures [ms[0]] + ms[1..] == ms
  {
  }

  /** The middle part of a concatenation, cut out again. */
  lemma SliceOfConcat(pre: Bytes, mid: Bytes, post: Bytes)
    ensures (pre + (mid + post))[|pre|..|pre| + |mid|] == mid
    ensures pre + (mid + post) == (pre + mid) + post
  {
  }

  /** A placed message read from its start is returned whole, and reading
      resumes just after its "\r\n". */
  lemma MessageFrame(body: Body, start: nat, m: Bytes, next: nat)
    requires Framable(m) && next == start + |m| + 2 <= |body.data|
    requires body.data[start..next] == m + CRLF
    ensures NextFrame(body, start) == Step(Frame(m), next, m)
  {
    PlacedSlice(body, start, m);
    ScanMessage(body, start, m, 0);
    assert m[..0] == [];
  }

  /** A message returned by `readNext` heads the list of all messages. */
  lemma DrainFrame(body: Body, pos: nat, m: Bytes, next: nat)
    requires pos <= |body.data|
    requires NextFrame(body, pos) == Step(Frame(m), next, m)
    ensures next <= |body.data|
    ensures Drain(body, pos) == Drained([m] + Drain(body, next).frames, Drain(body, next).err)
  {
  }

  /** At the end of the body the scan reports the body's final error, unless
      EOF comes with buffered content, which is then the message. */
  lemma ScanAtEnd(body: Body, buf: Bytes)
    ensures Scan(body, |body.data|, buf) ==
            if body.end.Broken? || |buf| == 0 then Step(Failed(body.end), |body.data|, buf)
            else Step(Frame(buf), |body.data|, buf)
  {
    FindLFAt(body.data, |body.data|, |body.data|);
    assert ReadLine(body, |body.data|).bytes == [];
  }

  lemma DrainAtEnd(body: Body)
    ensures Drain(body, |body.data|) == Drained([], body.end)
  {
    ScanAtEnd(body, []);
  }

  /** One turn of the loop of `readNext`, spelled out. */
  lemma ScanUnfold(body: Body, pos: nat, buf: Bytes)
    requires pos <= |body.data|
    ensures var l := ReadLine(body, pos);
            Scan(body, pos, buf) ==
              if l.err.Some? && l.err.value != EOF then Step(Failed(l.err.value), l.next, buf)
              else if l.err == Some(EOF) && |l.bytes| == 0 then
                (if |buf| == 0 then Step(Failed(EOF), l.next, buf) else Step(Frame(buf), l.next, buf))
              else if EndsWithCRLF(l.bytes) then
                Step(Frame(buf + TrimRightCRLF(l.bytes)), l.next, buf + TrimRightCRLF(l.bytes))
              else Scan(body, l.next, buf + l.bytes)
  {
  }

  /** The round trip from the start of a body. */
  lemma RoundTrip(ms: seq<Bytes>, end: ReadError)
    requires forall i :: 0 <= i < |ms| ==> Framable(ms[i])
    ensures Drain(Body(Encode(ms), end), 0) == Drained(ms, end)
  {
    DrainEncoded([], ms, end);
    assert [] + Encode(ms) == Encode(ms);
  }

  /** A line ending in "\r\n" ends the message: the result is what was
      buffered plus that line with its trailing run of '\r'/'\n' removed
      (twitstream/stream_utils.go:97-103). */
  lemma CrlfLineEndsMessage(body: Body, pos: nat, buf: Bytes)
    requires pos <= |body.data|
    requires EndsWithCRLF(ReadLine(body, pos).bytes)
    ensures var l := ReadLine(body, pos);
            Scan(body, pos, buf) == Step(Frame(buf + TrimRightCRLF(l.bytes)), l.next, buf + TrimRightCRLF(l.bytes))
  {
  }

  /** A line ending in a bare '\n' is kept whole, '\n' included, and reading
      goes on (twitstream/stream_utils.go:104-106). */
  lemma BareLineContinues(body: Body, pos: nat, buf: Bytes)
    requires pos <= |body.data|
    requires ReadLine(body, pos).err.None? && !EndsWithCRLF(ReadLine(body, pos).bytes)
    ensures var l := ReadLine(body, pos);
            l.next > pos && Scan(body, pos, buf) == Scan(body, l.next, buf + l.bytes)
  {
  }

  /** "x\r\r\n" yields "x": the whole trailing run is trimmed. */
  lemma TrimsWholeRun(body: Body)
    requires body.data == "x\r\r\n"
    ensures NextFrame(body, 0).outcome == Frame("x")
  {
    assert FindLF(body.data, 0) == 3 by {
      assert body.data[3] == LF && body.data[0] != LF && body.data[1] != LF && body.data[2] != LF;
    }
    var l := ReadLine(body, 0);
    assert l.bytes == "x\r\r\n";
    assert TrimRightCRLF("x\r\r\n") == "x" by {
      assert "x\r\r\n"[..3] == "x\r\r";
      assert "x\r\r"[..2] == "x\r";
      assert "x\r"[..1] == "x";
    }
  }

  /** "line1\nline2\r\n" is one message: the bare '\n' stays inside it. */
  lemma EmbeddedNewlineKept(body: Body)
    requires body.data == "line1\nline2\r\n"
    ensures NextFrame(body, 0).outcome == Frame("line1\nline2")
  {
    var m: Bytes := "line1\nline2";
    assert Framable(m);
    assert body.data[0..13] == m + CRLF;
    MessageFrame(body, 0, m, 13);
  }

  /** A bare "\r\n" keep-alive is returned as an empty message with no error:
      the reader does not filter it (twitstream/stream_utils.go:98-103,112). */
  lemma KeepAliveIsEmptyFrame(body: Body, pos: nat)
    requires pos + 2 <= |body.data| && body.data[pos..pos + 2] == CRLF
    ensures NextFrame(body, pos) == Step(Frame([]), pos + 2, [])
  {
    var m: Bytes := [];
    assert Framable(m);
    assert body.data[pos..pos + 2] == m + CRLF;
    MessageFrame(body, pos, m, pos + 2);
  }

  /** At the end of the body with nothing buffered, `readNext` returns
      (nil, EOF) (twitstream/stream_utils.go:88-93). */
  lemma EofWithNothingBuffered(body: Body)
    requires body.end == EOF
    ensures NextFrame(body, |body.data|) == Step(Failed(EOF), |body.data|, [])
  {
    ScanAtEnd(body, []);
  }

  /** Unterminated content before EOF is returned once as a message, and
      the following call returns EOF (twitstream/stream_utils.go:88-95). */
  lemma EofFlushesUnterminated(body: Body, pos: nat)
    requires body.end == EOF && pos < |body.data|
    requires forall j :: pos <= j < |body.data| ==> body.data[j] != LF
    ensures NextFrame(body, pos) == Step(Frame(body.data[pos..]), |body.data|, body.data[pos..])
    ensures NextFrame(body, |body.data|).outcome == Failed(EOF)
  {
    var l := ReadLine(body, pos);
    assert l.bytes == body.data[pos..] && l.err == Some(EOF);
    assert !EndsWithCRLF(l.bytes);
    assert [] + l.bytes == body.data[pos..];
    assert NextFrame(body, pos) == Scan(body, |body.data|, body.data[pos..]);
    ScanAtEnd(body, body.data[pos..]);
    ScanAtEnd(body, []);
  }

  /** A read error other than EOF is returned at once, whatever was buffered
      (twitstream/stream_utils.go:81-83). */
  lemma BrokenReadFails(body: Body, pos: nat, buf: Bytes)
    requires pos <= |body.data| && body.end.Broken?
    requires forall j :: pos <= j < |body.data| ==> body.data[j] != LF
    ensures Scan(body, pos, buf).outcome == Failed(body.end)
  {
  }

  /** The reader of twitstream/stream_utils.go:47-50: a bound body with its
      read position (the `bufio.Reader`) and the reusable message buffer. */
  class StreamResponseBodyReader {
    var body: Option<Body>
    var pos: nat
    var buf: Bytes

    ghost predicate Valid()
      reads this
    {
      body.Some? ==> pos <= |body.value.data|
    }

    /** `newStreamResponseBodyReader`: no body bound yet. */
    constructor ()
      ensures Valid() && body == None && buf == []
    {
      body := None;
      pos := 0;
      buf := [];
    }

    /** Binds a new body and reads it from its start; the buffer is left as it was
        (twitstream/stream_utils.go:61-63). */
    method SetStreamResponseBody(b: Body)
      modifies this
      ensures Valid() && body == Some(b) && pos == 0 && buf == old(buf)
    {
      body := Some(b);
      pos := 0;
    }

    /** `readNext`: one message, or the error that stops the reader
        (twitstream/stream_utils.go:68-113). */
    method ReadNext() returns (r: ReadOutcome)
      requires Valid() && body.Some?
      modifies this
      ensures Valid() && body == old(body)
      ensures Step(r, pos, buf) == NextFrame(body.value, old(pos))
    {
      var b := body.value;
      var p := pos;
      buf := [];
      ghost var want := NextFrame(b, p);
      while true
        invariant body == Some(b) && p <= |b.data|
        invariant Scan(b, p, buf) == want
        decreases |b.data| - p
      {
        var l := ReadBytesLF(b, p);
        ScanUnfold(b, p, buf);
        p := l.next;
        if l.err.Some? && l.err.value != EOF {
          pos := p;
          return Failed(l.err.value);
        }
        if l.err == Some(EOF) && |l.bytes| == 0 {
          pos := p;
          if |buf| == 0 {
            return Failed(EOF);
          }
          return Frame(buf);
        }
        if EndsWithCRLF(l.bytes) {
          buf := buf + TrimRightCRLF(l.bytes);
          pos := p;
          return Frame(buf);
        }
        buf := buf + l.bytes;
      }
    }
  }

  /** `bufio.Reader.ReadBytes('\n')` as a scan of the body for the next '\n'. */
  method ReadBytesLF(b: Body, pos: nat) returns (l: Line)
    requires pos <= |b.data|
    ensures l == ReadLine(b, pos)
  {
    var i := pos;
    while i < |b.data| && b.data[i] != LF
      invariant pos <= i <= |b.data|
      invariant forall j :: pos <= j < i ==> b.data[j] != LF
      decreases |b.data| - i
    {
      i := i + 1;
    }
    FindLFAt(b.data, pos, i);
    if i < |b.data| {
      l := Line(b.data[pos..i + 1], i + 1, None);
    } else {
      l := Line(b.data[pos..], |b.data|, Some(b.end));
    }
  }
}
