/**
 * The CGI output adapter (CGIStdout): a stream that holds back everything written
 * until the first blank line ("\n\n"), reads CGI-style `Name: Value` header lines
 * out of that prefix into the request, sends the response headers once, and from
 * then on forwards every write to the client unchanged.
 *
 * `WriteSpec` gives one write's effect as a function of the adapter's state; the
 * class `CgiStdout` is the stateful adapter and is proved to follow it. The lemmas
 * relate several writes to one: how a payload is cut into writes does not matter.
 */
module CgiOutput {
  import opened PyString
  import opened Host

  /** Why a header block cannot be read: a line without ':' (the unpacking of
      `string.split(line, ":", 1)` fails), or a Status value whose first word is
      missing or is not an integer. */
  datatype HeaderError = MissingColon(line: string) | BadStatus(value: string)

  /** What one header line does to the request. */
  datatype Header =
    | StatusHeader(code: int)
    | ContentTypeHeader(value: string)
    | OtherHeader(name: string, value: string)

  datatype Parsed = Ok(header: Header) | Err(error: HeaderError)

  /** One header line: split at its first ':'; the name compared case-insensitively
      with "status" and "content-type"; values stripped, except that Status takes the
      integer value of the first word. */
  function ParseHeader(line: string): Parsed {
    match SplitOnce(line, ":")
    case None => Err(MissingColon(line))
    case Some((h, v)) =>
      if Lower(h) == "status" then
        var words := SplitWords(v);
        if |words| == 0 then Err(BadStatus(v))
        else match ParseInt(words[0])
          case None => Err(BadStatus(v))
          case Some(n) => Ok(StatusHeader(n))
      else if Lower(h) == "content-type" then Ok(ContentTypeHeader(Strip(v)))
      else Ok(OtherHeader(h, Strip(v)))
  }

  /** A header line fails to unpack exactly when it has no ':'. */
  lemma MissingColonIff(line: string)
    ensures var r := ParseHeader(line);
            && (r.Err? && r.error.MissingColon? <==> ':' !in line)
            && (r.Err? && r.error.MissingColon? ==> r.error.line == line)
  {
    SplitOnceFirst(line, ":");
    match SplitOnce(line, ":")
    case None =>
      forall j | 0 <= j < |line| ensures line[j] != ':' {
        assert !OccursAt(line, ":", j);
        assert line[j..j + 1] == [line[j]];
      }
    case Some((h, v)) =>
      assert line == h + ":" + v;
      assert line[|h|] == ':';
  }

  /** The combined effect of several header lines: the last Status and Content-Type
      seen, and the outgoing headers set. */
  datatype Patch = Patch(status: Option<int>, contentType: Option<string>, headers: map<string, string>)

  const NoPatch := Patch(None, None, map[])

  function Add(p: Patch, h: Header): Patch {
    match h
    case StatusHeader(c) => p.(status := Some(c))
    case ContentTypeHeader(t) => p.(contentType := Some(t))
    case OtherHeader(n, v) => p.(headers := p.headers[n := v])
  }

  /** The request after a patch has been applied to it. */
  function Merge(r: Reply, p: Patch): (r': Reply)
    ensures r'.headerSends == r.headerSends && r'.chunks == r.chunks
  {
    r.(status := if p.status.Some? then p.status.value else r.status,
       contentType := if p.contentType.Some? then p.contentType.value else r.contentType,
       headersOut := r.headersOut + p.headers)
  }

  /** The header lines applied in order, stopping at the first one that cannot be read;
      the lines before it have already taken effect. */
  function ParseHeaders(lines: seq<string>): (Patch, Option<HeaderError>)
    decreases |lines|
  {
    if |lines| == 0 then (NoPatch, None)
    else
      var prev := ParseHeaders(lines[..|lines| - 1]);
      if prev.1.Some? then prev
      else match ParseHeader(lines[|lines| - 1])
        case Err(e) => (prev.0, Some(e))
        case Ok(h) => (Add(prev.0, h), None)
  }

  /** The state of the output adapter together with the request it writes to. */
  datatype OutState = OutState(pos: nat, headersSent: bool, headers: string, reply: Reply)

  datatype WriteResult = WriteResult(state: OutState, error: Option<HeaderError>)

  /** A new adapter over a request in state `r`. */
  function Fresh(r: Reply): OutState {
    OutState(0, false, "", r)
  }

  /** The effect of `write(s)`. */
  function WriteSpec(st: OutState, s: string): WriteResult {
    if s == "" then WriteResult(st, None)
    else if st.headersSent then
      WriteResult(st.(pos := st.pos + |s|, reply := st.reply.(chunks := st.reply.chunks + [s])), None)
    else
      match SplitOnce(st.headers + s, "\n\n")
      case None => WriteResult(st.(pos := st.pos + |s|, headers := st.headers + s), None)
      case Some((head, body)) => Close(st, s, head, body)
  }

  /** The write `s` that completes the header block `head`: the header lines take effect
      in order; if one cannot be read the write fails, otherwise the headers are sent and
      `body`, the text after the blank line, is forwarded. */
  function Close(st: OutState, s: string, head: string, body: string): WriteResult {
    var parsed := ParseHeaders(SplitChar(head, '\n'));
    var r := Merge(st.reply, parsed.0);
    if parsed.1.Some? then WriteResult(st.(headers := st.headers + s, reply := r), parsed.1)
    else WriteResult(OutState(st.pos + |s|, true, st.headers + s,
                              r.(headerSends := r.headerSends + 1, chunks := r.chunks + [body])), None)
  }

  /** The effect of a sequence of writes; a write that fails leaves its state behind and
      the next write starts from it. */
  function WriteAll(st: OutState, ws: seq<string>): OutState
    decreases |ws|
  {
    if |ws| == 0 then st else WriteAll(WriteSpec(st, ws[0]).state, ws[1..])
  }

  /** What a client of the request can observe, apart from the position: the chunks only
      through their concatenation, and the held-back text only until headers are sent. */
  datatype View = View(
    headersSent: bool, pending: string,
    status: int, contentType: string, headersOut: map<string, string>,
    headerSends: nat, body: string)

  function Observe(st: OutState): View {
    View(st.headersSent, if st.headersSent then "" else st.headers,
         st.reply.status, st.reply.contentType, st.reply.headersOut,
         st.reply.headerSends, Join(st.reply.chunks))
  }

  // ---------------------------------------------------------------------------
  // Facts about the pieces

  lemma {:induction false} ParseHeadersStops(lines: seq<string>, i: nat)
    requires i < |lines|
    requires ParseHeaders(lines[..i + 1]).1.Some?
    ensures ParseHeaders(lines) == ParseHeaders(lines[..i + 1])
    decreases |lines|
  {
    if i + 1 < |lines| {
      var init := lines[..|lines| - 1];
      assert init[..i + 1] == lines[..i + 1];
      ParseHeadersStops(init, i);
    } else {
      assert lines[..i + 1] == lines;
    }
  }

  /** Applying a header block twice is applying it once: every line overwrites a field. */
  lemma MergeTwice(r: Reply, p: Patch)
    ensures Merge(Merge(r, p), p) == Merge(r, p)
  {
    assert (r.headersOut + p.headers) + p.headers == r.headersOut + p.headers;
  }

  lemma MergeAdd(r: Reply, p: Patch, h: Header)
    ensures Merge(r, Add(p, h)) == match h
      case StatusHeader(c) => Merge(r, p).(status := c)
      case ContentTypeHeader(t) => Merge(r, p).(contentType := t)
      case OtherHeader(n, v) => Merge(r, p).(headersOut := Merge(r, p).headersOut[n := v])
  {
    if h.OtherHeader? {
      assert r.headersOut + p.headers[h.name := h.value] == (r.headersOut + p.headers)[h.name := h.value];
    }
  }

  /** Once the first blank line is in `x`, extending `x` does not move it. */
  lemma {:induction false} FirstOccurrenceStays(x: string, y: string, sep: string)
    requires |sep| > 0
    requires IndexOf(x, sep) >= 0
    ensures IndexOf(x + y, sep) == IndexOf(x, sep)
  {
    IndexOfFirst(x, sep);
    IndexOfFirst(x + y, sep);
    var k := IndexOf(x, sep);
    assert (x + y)[k..k + |sep|] == x[k..k + |sep|];
    assert OccursAt(x + y, sep, k);
    var k' := IndexOf(x + y, sep);
    if k' != k {
      assert 0 <= k' < k;
      assert (x + y)[k'..k' + |sep|] == x[k'..k' + |sep|];
      assert OccursAt(x, sep, k');
      assert false;
    }
  }

  lemma SplitOnceIndex(s: string, sep: string)
    requires |sep| > 0
    ensures SplitOnce(s, sep).Some? <==> IndexOf(s, sep) >= 0
    ensures SplitOnce(s, sep).Some? ==>
      var k := IndexOf(s, sep); SplitOnce(s, sep).value == (s[..k], s[k + |sep|..])
  {
  }

  // ---------------------------------------------------------------------------
  // Properties of writing

  /** The write that is still collecting headers and does not complete them. */
  lemma PendingWrite(st: OutState, s: string)
    requires !st.headersSent && s != ""
    requires IndexOf(st.headers + s, "\n\n") == -1
    ensures WriteSpec(st, s) == WriteResult(st.(pos := st.pos + |s|, headers := st.headers + s), None)
  {
    SplitOnceIndex(st.headers + s, "\n\n");
  }

  /** The write that completes the header block. */
  lemma ClosingWrite(st: OutState, s: string)
    requires !st.headersSent && s != ""
    requires IndexOf(st.headers + s, "\n\n") >= 0
    ensures var hs := st.headers + s;
            var k := IndexOf(hs, "\n\n");
            WriteSpec(st, s) == Close(st, s, hs[..k], hs[k + 2..])
  {
    SplitOnceIndex(st.headers + s, "\n\n");
  }

  lemma SplitWhenSent(st: OutState, a: string, b: string)
    requires st.headersSent && a != "" && b != ""
    ensures var two := WriteSpec(WriteSpec(st, a).state, b);
            var one := WriteSpec(st, a + b);
            Observe(two.state) == Observe(one.state) && two.state.pos == one.state.pos
            && one.error.None? && two.error.None? && WriteSpec(st, a).error.None?
  {
    JoinAppend(st.reply.chunks, a);
    JoinAppend(st.reply.chunks + [a], b);
    JoinAppend(st.reply.chunks, a + b);
  }

  lemma SplitWhenPending(st: OutState, a: string, b: string)
    requires !st.headersSent && a != "" && b != ""
    requires IndexOf(st.headers + a, "\n\n") == -1
    ensures var first := WriteSpec(st, a);
            var two := WriteSpec(first.state, b);
            var one := WriteSpec(st, a + b);
            && first.error.None?
            && two == WriteResult(one.state.(pos := two.state.pos), one.error)
            && (one.error.None? ==> two.state.pos == one.state.pos)
  {
    PendingWrite(st, a);
    var st1 := WriteSpec(st, a).state;
    assert st1.headers + b == st.headers + (a + b);
    if IndexOf(st1.headers + b, "\n\n") == -1 {
      PendingWrite(st1, b);
      PendingWrite(st, a + b);
    } else {
      ClosingWrite(st1, b);
      ClosingWrite(st, a + b);
    }
  }

  /** The header block is complete after the first write; both ways find the same block. */
  lemma ClosingBoth(st: OutState, a: string, b: string)
    requires !st.headersSent && a != "" && b != ""
    requires IndexOf(st.headers + a, "\n\n") >= 0
    ensures var ha := st.headers + a;
            var k := IndexOf(ha, "\n\n");
            && WriteSpec(st, a) == Close(st, a, ha[..k], ha[k + 2..])
            && WriteSpec(st, a + b) == Close(st, a + b, ha[..k], ha[k + 2..] + b)
  {
    var ha := st.headers + a;
    var k := IndexOf(ha, "\n\n");
    ClosingWrite(st, a);
    FirstOccurrenceStays(ha, b, "\n\n");
    assert st.headers + (a + b) == ha + b;
    ClosingWrite(st, a + b);
    assert (ha + b)[..k] == ha[..k];
    assert (ha + b)[k + 2..] == ha[k + 2..] + b;
  }

  /** The header block ends in this write and one of its lines cannot be read. */
  lemma FailedClose(st: OutState, s: string)
    requires !st.headersSent && s != ""
    requires IndexOf(st.headers + s, "\n\n") >= 0
    requires var hs := st.headers + s;
             ParseHeaders(SplitChar(hs[..IndexOf(hs, "\n\n")], '\n')).1.Some?
    ensures var hs := st.headers + s;
            var parsed := ParseHeaders(SplitChar(hs[..IndexOf(hs, "\n\n")], '\n'));
            WriteSpec(st, s) == WriteResult(st.(headers := hs, reply := Merge(st.reply, parsed.0)), parsed.1)
  {
    ClosingWrite(st, s);
  }

  /** After a write fails on its header block, every further write fails the same way and
      only accumulates text: the header block it finds is the same one. */
  lemma FailureSticks(st: OutState, s: string, b: string)
    requires !st.headersSent && s != "" && b != ""
    requires IndexOf(st.headers + s, "\n\n") >= 0
    requires var hs := st.headers + s;
             ParseHeaders(SplitChar(hs[..IndexOf(hs, "\n\n")], '\n')).1.Some?
    ensures var first := WriteSpec(st, s);
            WriteSpec(first.state, b) == WriteResult(first.state.(headers := first.state.headers + b), first.error)
  {
    var hs := st.headers + s;
    var k := IndexOf(hs, "\n\n");
    var parsed := ParseHeaders(SplitChar(hs[..k], '\n'));
    FailedClose(st, s);
    var st1 := st.(headers := hs, reply := Merge(st.reply, parsed.0));
    FirstOccurrenceStays(hs, b, "\n\n");
    assert (hs + b)[..k] == hs[..k];
    FailedClose(st1, b);
    MergeTwice(st.reply, parsed.0);
  }

  /** Writing `s` completes a header block that cannot be read. */
  predicate Failing(st: OutState, s: string) {
    && !st.headersSent && s != ""
    && IndexOf(st.headers + s, "\n\n") >= 0
    && var hs := st.headers + s;
       ParseHeaders(SplitChar(hs[..IndexOf(hs, "\n\n")], '\n')).1.Some?
  }

  /** More text in the failing write finds the same bad block: only the kept text grows. */
  lemma FailedLonger(st: OutState, s: string, t: string)
    requires Failing(st, s)
    ensures Failing(st, s + t)
    ensures var first := WriteSpec(st, s);
            WriteSpec(st, s + t) == WriteResult(first.state.(headers := first.state.headers + t), first.error)
  {
    var hs := st.headers + s;
    var k := IndexOf(hs, "\n\n");
    FailedClose(st, s);
    FirstOccurrenceStays(hs, t, "\n\n");
    assert st.headers + (s + t) == hs + t;
    assert (hs + t)[..k] == hs[..k];
    FailedClose(st, s + t);
  }

  /** One more write after a failing write, whether empty or not. */
  lemma FailedStep(st: OutState, s: string, w: string)
    requires Failing(st, s)
    ensures Failing(st, s + w)
    ensures WriteSpec(WriteSpec(st, s).state, w).state == WriteSpec(st, s + w).state
  {
    FailedLonger(st, s, w);
    if w == "" {
      assert s + w == s;
    } else {
      FailureSticks(st, s, w);
    }
  }

  /** After a failing write, later writes leave the adapter as one write of all the text would. */
  lemma {:induction false} FailedWriteAll(st: OutState, s: string, ws: seq<string>)
    requires Failing(st, s)
    ensures WriteAll(WriteSpec(st, s).state, ws) == WriteSpec(st, s + Join(ws)).state
    decreases |ws|
  {
    if |ws| == 0 {
      assert s + Join(ws) == s;
    } else {
      FailedStep(st, s, ws[0]);
      FailedWriteAll(st, s + ws[0], ws[1..]);
      assert s + ws[0] + Join(ws[1..]) == s + Join(ws);
    }
  }

  /** After a write fails on its header block, any sequence of later writes only adds to
      the kept text, and every later non-empty write fails with the same error. */
  lemma FailureSticksAll(st: OutState, s: string, ws: seq<string>, b: string)
    requires Failing(st, s)
    ensures var first := WriteSpec(st, s);
            WriteAll(first.state, ws) == first.state.(headers := first.state.headers + Join(ws))
    ensures var first := WriteSpec(st, s);
            var later := WriteAll(first.state, ws);
            b != "" ==> WriteSpec(later, b) == WriteResult(later.(headers := later.headers + b), first.error)
  {
    FailedWriteAll(st, s, ws);
    FailedLonger(st, s, Join(ws));
    if b != "" {
      FailureSticks(st, s + Join(ws), b);
    }
  }

  lemma SplitWhenClosingFails(st: OutState, a: string, b: string)
    requires !st.headersSent && a != "" && b != ""
    requires IndexOf(st.headers + a, "\n\n") >= 0
    requires var ha := st.headers + a;
             ParseHeaders(SplitChar(ha[..IndexOf(ha, "\n\n")], '\n')).1.Some?
    ensures var two := WriteSpec(WriteSpec(st, a).state, b);
            var one := WriteSpec(st, a + b);
            two.state == one.state && two.error == one.error && one.error.Some?
  {
    var ha := st.headers + a;
    var k := IndexOf(ha, "\n\n");
    var parsed := ParseHeaders(SplitChar(ha[..k], '\n'));
    var fin := st.(headers := ha + b, reply := Merge(st.reply, parsed.0));
    assert WriteSpec(WriteSpec(st, a).state, b) == WriteResult(fin, parsed.1) by {
      FailedClose(st, a);
      FailureSticks(st, a, b);
    }
    assert WriteSpec(st, a + b) == WriteResult(fin, parsed.1) by {
      FirstOccurrenceStays(ha, b, "\n\n");
      assert (ha + b)[..k] == ha[..k];
      assert st.headers + (a + b) == ha + b;
      FailedClose(st, a + b);
    }
  }

  /** The header block ends in this write and every line of it can be read. */
  lemma SucceededClose(st: OutState, s: string)
    requires !st.headersSent && s != ""
    requires IndexOf(st.headers + s, "\n\n") >= 0
    requires var hs := st.headers + s;
             ParseHeaders(SplitChar(hs[..IndexOf(hs, "\n\n")], '\n')).1.None?
    ensures var hs := st.headers + s;
            var k := IndexOf(hs, "\n\n");
            var r := Merge(st.reply, ParseHeaders(SplitChar(hs[..k], '\n')).0);
            WriteSpec(st, s) == WriteResult(OutState(st.pos + |s|, true, hs,
              r.(headerSends := r.headerSends + 1, chunks := r.chunks + [hs[k + 2..]])), None)
  {
    ClosingWrite(st, s);
  }

  /** A longer write that completes the same header block forwards the longer body. */
  lemma SucceededLonger(st: OutState, a: string, b: string)
    requires !st.headersSent && a != ""
    requires IndexOf(st.headers + a, "\n\n") >= 0
    requires var ha := st.headers + a;
             ParseHeaders(SplitChar(ha[..IndexOf(ha, "\n\n")], '\n')).1.None?
    ensures var ha := st.headers + a;
            var k := IndexOf(ha, "\n\n");
            var r := Merge(st.reply, ParseHeaders(SplitChar(ha[..k], '\n')).0);
            WriteSpec(st, a + b) == WriteResult(OutState(st.pos + |a + b|, true, st.headers + (a + b),
              r.(headerSends := r.headerSends + 1, chunks := r.chunks + [ha[k + 2..] + b])), None)
  {
    HeadStays(st.headers, a, b);
    SucceededClose(st, a + b);
  }

  /** Text appended after a complete header block leaves the block alone and lengthens
      what follows it. */
  lemma HeadStays(h: string, a: string, b: string)
    requires IndexOf(h + a, "\n\n") >= 0
    ensures var k := IndexOf(h + a, "\n\n");
            var hab := h + (a + b);
            && IndexOf(hab, "\n\n") == k
            && hab[..k] == (h + a)[..k]
            && hab[k + 2..] == (h + a)[k + 2..] + b
  {
    var ha := h + a;
    var k := IndexOf(ha, "\n\n");
    FirstOccurrenceStays(ha, b, "\n\n");
    assert h + (a + b) == ha + b;
  }

  /** A write after the headers have been sent. */
  lemma SentWrite(st: OutState, s: string)
    requires st.headersSent && s != ""
    ensures WriteSpec(st, s)
         == WriteResult(st.(pos := st.pos + |s|, reply := st.reply.(chunks := st.reply.chunks + [s])), None)
  {
  }

  /** What is observed once a header block `ha[..k]` that reads without error has been
      sent and `rest` forwarded after it. */
  function SentView(st: OutState, ha: string, k: nat, rest: string): View
    requires k <= |ha|
  {
    var r := Merge(st.reply, ParseHeaders(SplitChar(ha[..k], '\n')).0);
    View(true, "", r.status, r.contentType, r.headersOut, r.headerSends + 1, Join(r.chunks) + rest)
  }

  /** The closing write followed by one more: the state after each, spelled out. */
  lemma TwoWritesState(st: OutState, a: string, b: string)
    requires !st.headersSent && a != "" && b != ""
    requires IndexOf(st.headers + a, "\n\n") >= 0
    requires var ha := st.headers + a;
             ParseHeaders(SplitChar(ha[..IndexOf(ha, "\n\n")], '\n')).1.None?
    ensures var ha := st.headers + a;
            var k := IndexOf(ha, "\n\n");
            var r := Merge(st.reply, ParseHeaders(SplitChar(ha[..k], '\n')).0);
            var st1 := OutState(st.pos + |a|, true, ha,
                                r.(headerSends := r.headerSends + 1, chunks := r.chunks + [ha[k + 2..]]));
            && WriteSpec(st, a) == WriteResult(st1, None)
            && WriteSpec(st1, b) == WriteResult(st1.(pos := st1.pos + |b|,
                                                     reply := st1.reply.(chunks := st1.reply.chunks + [b])), None)
  {
    SucceededClose(st, a);
  }

  /** The view after the closing write and one more. */
  lemma TwoWritesView(st: OutState, ha: string, k: nat, r: Reply, b: string)
    requires k + 2 <= |ha| && r == Merge(st.reply, ParseHeaders(SplitChar(ha[..k], '\n')).0)
    ensures var st1 := OutState(st.pos + |ha|, true, ha,
                                r.(headerSends := r.headerSends + 1, chunks := r.chunks + [ha[k + 2..]]));
            Observe(st1.(pos := st1.pos + |b|, reply := st1.reply.(chunks := st1.reply.chunks + [b])))
              == SentView(st, ha, k, ha[k + 2..] + b)
  {
    JoinAppend(r.chunks, ha[k + 2..]);
    JoinAppend(r.chunks + [ha[k + 2..]], b);
  }

  lemma OneWriteView(st: OutState, a: string, b: string)
    requires !st.headersSent && a != ""
    requires IndexOf(st.headers + a, "\n\n") >= 0
    requires var ha := st.headers + a;
             ParseHeaders(SplitChar(ha[..IndexOf(ha, "\n\n")], '\n')).1.None?
    ensures WriteSpec(st, a + b).error.None?
    ensures WriteSpec(st, a + b).state.pos == st.pos + |a| + |b|
    ensures var ha := st.headers + a;
            var k := IndexOf(ha, "\n\n");
            Observe(WriteSpec(st, a + b).state) == SentView(st, ha, k, ha[k + 2..] + b)
  {
    var ha := st.headers + a;
    var k := IndexOf(ha, "\n\n");
    var r := Merge(st.reply, ParseHeaders(SplitChar(ha[..k], '\n')).0);
    SucceededLonger(st, a, b);
    JoinAppend(r.chunks, ha[k + 2..] + b);
  }

  lemma SplitWhenClosingSucceeds(st: OutState, a: string, b: string)
    requires !st.headersSent && a != "" && b != ""
    requires IndexOf(st.headers + a, "\n\n") >= 0
    requires var ha := st.headers + a;
             ParseHeaders(SplitChar(ha[..IndexOf(ha, "\n\n")], '\n')).1.None?
    ensures Observe(WriteSpec(WriteSpec(st, a).state, b).state) == Observe(WriteSpec(st, a + b).state)
    ensures WriteSpec(st, a).error.None? && WriteSpec(WriteSpec(st, a).state, b).error.None?
    ensures WriteSpec(st, a + b).error.None?
    ensures WriteSpec(WriteSpec(st, a).state, b).state.pos == WriteSpec(st, a + b).state.pos
  {
    var ha := st.headers + a;
    var k := IndexOf(ha, "\n\n");
    var r := Merge(st.reply, ParseHeaders(SplitChar(ha[..k], '\n')).0);
    TwoWritesState(st, a, b);
    OneWriteView(st, a, b);
    TwoWritesView(st, ha, k, r, b);
  }

  lemma SplitWhenClosing(st: OutState, a: string, b: string)
    requires !st.headersSent && a != "" && b != ""
    requires IndexOf(st.headers + a, "\n\n") >= 0
    ensures var first := WriteSpec(st, a);
            var two := WriteSpec(first.state, b);
            var one := WriteSpec(st, a + b);
            && Observe(two.state) == Observe(one.state)
            && two.error == one.error
            && (one.error.None? ==> first.error.None? && two.state.pos == one.state.pos)
  {
    var ha := st.headers + a;
    if ParseHeaders(SplitChar(ha[..IndexOf(ha, "\n\n")], '\n')).1.Some? {
      SplitWhenClosingFails(st, a, b);
    } else {
      SplitWhenClosingSucceeds(st, a, b);
    }
  }

  /** Two writes have the effect of one write of their concatenation: the same header
      state, the same bytes forwarded, and the same header-sending; the position agrees
      whenever the single write succeeds, and so do the two writes then. */
  lemma WriteSplit(st: OutState, a: string, b: string)
    ensures var first := WriteSpec(st, a);
            var two := WriteSpec(first.state, b);
            var one := WriteSpec(st, a + b);
            && Observe(two.state) == Observe(one.state)
            && (one.error.Some? && b != "" ==> two.error == one.error)
            && (one.error.None? ==> first.error.None? && two.error.None? && two.state.pos == one.state.pos)
  {
    if a == "" {
      assert a + b == b;
    } else if b == "" {
      assert a + b == a;
    } else if st.headersSent {
      SplitWhenSent(st, a, b);
    } else if IndexOf(st.headers + a, "\n\n") == -1 {
      SplitWhenPending(st, a, b);
    } else {
      SplitWhenClosing(st, a, b);
    }
  }

  /** Any sequence of writes has the effect of one write of everything written. */
  lemma {:induction false} WriteAllIsOneWrite(st: OutState, ws: seq<string>)
    ensures Observe(WriteAll(st, ws)) == Observe(WriteSpec(st, Join(ws)).state)
    ensures WriteSpec(st, Join(ws)).error.None? ==>
      WriteAll(st, ws).pos == WriteSpec(st, Join(ws)).state.pos
    decreases |ws|
  {
    if |ws| == 0 {
    } else {
      var st1 := WriteSpec(st, ws[0]).state;
      WriteAllIsOneWrite(st1, ws[1..]);
      WriteSplit(st, ws[0], Join(ws[1..]));
    }
  }

  /** Writes into a fresh adapter: nothing is forwarded and no header is sent until the
      output holds a blank line; then the headers are sent exactly once and what is
      forwarded, in all, is everything after the first blank line. The position is the
      total length written. */
  lemma ForwardedBody(r0: Reply, ws: seq<string>)
    requires WriteSpec(Fresh(r0), Join(ws)).error.None?
    ensures var st := WriteAll(Fresh(r0), ws);
            var all := Join(ws);
            var k := IndexOf(all, "\n\n");
            && st.pos == |all|
            && (st.headersSent <==> k >= 0)
            && st.reply.headerSends == r0.headerSends + (if k >= 0 then 1 else 0)
            && Join(st.reply.chunks) == Join(r0.chunks) + (if k >= 0 then all[k + 2..] else "")
  {
    WriteAllIsOneWrite(Fresh(r0), ws);
    FreshWrite(r0, Join(ws));
  }

  /** One successful write into a fresh adapter. */
  lemma FreshWrite(r0: Reply, all: string)
    requires WriteSpec(Fresh(r0), all).error.None?
    ensures var st := WriteSpec(Fresh(r0), all).state;
            var k := IndexOf(all, "\n\n");
            && st.pos == |all|
            && (st.headersSent <==> k >= 0)
            && st.reply.headerSends == r0.headerSends + (if k >= 0 then 1 else 0)
            && Join(st.reply.chunks) == Join(r0.chunks) + (if k >= 0 then all[k + 2..] else "")
  {
    var st := Fresh(r0);
    assert st.headers + all == all;
    var k := IndexOf(all, "\n\n");
    if all == "" {
    } else if k < 0 {
      PendingWrite(st, all);
    } else {
      ClosingWrite(st, all);
      var parsed := ParseHeaders(SplitChar(all[..k], '\n'));
      JoinAppend(Merge(r0, parsed.0).chunks, all[k + 2..]);
    }
  }

  /** As long as no blank line has been written, the request is not touched at all. */
  lemma {:induction false} NothingBeforeBoundary(st: OutState, ws: seq<string>)
    requires !st.headersSent
    requires IndexOf(st.headers + Join(ws), "\n\n") == -1
    ensures WriteAll(st, ws).reply == st.reply
    ensures !WriteAll(st, ws).headersSent
    ensures WriteAll(st, ws).headers == st.headers + Join(ws)
    decreases |ws|
  {
    if |ws| > 0 {
      var w := ws[0];
      assert Join(ws) == w + Join(ws[1..]);
      var st1 := WriteSpec(st, w).state;
      assert st.headers + Join(ws) == (st.headers + w) + Join(ws[1..]);
      if IndexOf(st.headers + w, "\n\n") >= 0 {
        FirstOccurrenceStays(st.headers + w, Join(ws[1..]), "\n\n");
        assert false;
      }
      SplitOnceIndex(st.headers + w, "\n\n");
      assert st1.headers == st.headers + w;
      NothingBeforeBoundary(st1, ws[1..]);
    }
  }

  /** After the headers have gone out, they never go out again, the header fields are
      not touched again, and every later write is forwarded byte for byte. */
  lemma {:induction false} PassThroughAfterHeaders(st: OutState, ws: seq<string>)
    requires st.headersSent
    ensures WriteAll(st, ws).headersSent
    ensures WriteAll(st, ws).reply.(chunks := st.reply.chunks) == st.reply
    ensures Join(WriteAll(st, ws).reply.chunks) == Join(st.reply.chunks) + Join(ws)
    decreases |ws|
  {
    if |ws| > 0 {
      var st1 := WriteSpec(st, ws[0]).state;
      PassThroughAfterHeaders(st1, ws[1..]);
      if ws[0] != "" {
        JoinAppend(st.reply.chunks, ws[0]);
      }
    }
  }

  // ---------------------------------------------------------------------------
  // Header lines

  lemma NoColonInName(name: string, value: string)
    requires ':' !in name
    ensures SplitOnce(name + ":" + value, ":") == Some((name, value))
  {
    var line := name + ":" + value;
    IndexOfFirst(line, ":");
    assert line[|name|..|name| + 1] == ":";
    assert OccursAt(line, ":", |name|);
    forall j | 0 <= j < |name| ensures !OccursAt(line, ":", j) {
      assert line[j..j + 1] == [name[j]];
    }
    assert line[..|name|] == name;
    assert line[|name| + 1..] == value;
  }

  /** A Status line whose first word `int()` reads as `code` (sign and leading zeros
      allowed) sets that status; one whose value has no first word, or a first word that
      is not an integer, cannot be read. */
  lemma StatusLine(name: string, value: string, code: int)
    requires ':' !in name && Lower(name) == "status"
    ensures |SplitWords(value)| > 0 && ParseInt(SplitWords(value)[0]) == Some(code) ==>
      ParseHeader(name + ":" + value) == Ok(StatusHeader(code))
    ensures |SplitWords(value)| == 0 || ParseInt(SplitWords(value)[0]).None? ==>
      ParseHeader(name + ":" + value) == Err(BadStatus(value))
  {
    NoColonInName(name, value);
  }

  /** The canonical decimal spelling of a status is read back as that status. */
  lemma DecimalStatusLine(name: string, value: string, code: nat)
    requires ':' !in name && Lower(name) == "status"
    requires |SplitWords(value)| > 0 && SplitWords(value)[0] == Decimal(code)
    ensures ParseHeader(name + ":" + value) == Ok(StatusHeader(code))
  {
    ParseDecimal(code);
    StatusLine(name, value, code);
  }

  /** A Content-Type line sets the content type to its stripped value. */
  lemma ContentTypeLine(name: string, value: string)
    requires ':' !in name && Lower(name) == "content-type"
    ensures ParseHeader(name + ":" + value) == Ok(ContentTypeHeader(Strip(value)))
  {
    NoColonInName(name, value);
  }

  /** Any other line becomes an outgoing header under its name as written. */
  lemma OtherLine(name: string, value: string)
    requires ':' !in name && Lower(name) != "status" && Lower(name) != "content-type"
    ensures ParseHeader(name + ":" + value) == Ok(OtherHeader(name, Strip(value)))
  {
    NoColonInName(name, value);
  }

  lemma {:induction false} SplitCharWithout(s: string, c: char)
    requires c !in s
    ensures SplitChar(s, c) == [s]
    decreases |s|
  {
    if |s| > 0 {
      assert c !in s[1..] by {
        forall i | 0 <= i < |s| - 1 ensures s[1..][i] != c { assert s[1..][i] == s[i + 1]; }
      }
      SplitCharWithout(s[1..], c);
      assert [s[0]] + s[1..] == s;
    }
  }

  lemma ParseSingleHeader(line: string)
    ensures ParseHeaders([line]) == match ParseHeader(line)
      case Ok(h) => (Add(NoPatch, h), None)
      case Err(e) => (NoPatch, Some(e))
  {
    assert [line][..0] == [];
  }

  lemma FirstBlankLine(line: string, body: string)
    requires '\n' !in line
    ensures IndexOf(line + "\n\n" + body, "\n\n") == |line|
  {
    var s := line + "\n\n" + body;
    IndexOfFirst(s, "\n\n");
    assert s[|line|..|line| + 2] == "\n\n";
    assert OccursAt(s, "\n\n", |line|);
    forall j | 0 <= j < |line| ensures !OccursAt(s, "\n\n", j) {
      assert s[j] == line[j];
      if j + 2 <= |s| { assert s[j..j + 2][0] == s[j]; }
    }
  }

  /** A single header line followed by a blank line and a body: the header takes effect,
      the headers are sent once, and exactly the body is forwarded. */
  lemma OneHeaderThenBody(r0: Reply, line: string, body: string)
    requires '\n' !in line
    requires ParseHeader(line).Ok?
    ensures var st := WriteSpec(Fresh(r0), line + "\n\n" + body);
            && st.error.None?
            && st.state.headersSent
            && st.state.reply == Merge(r0, Add(NoPatch, ParseHeader(line).header))
                                   .(headerSends := r0.headerSends + 1, chunks := r0.chunks + [body])
  {
    var s := line + "\n\n" + body;
    assert "" + s == s;
    FirstBlankLine(line, body);
    ClosingWrite(Fresh(r0), s);
    assert s[..|line|] == line;
    assert s[|line| + 2..] == body;
    SplitCharWithout(line, '\n');
    ParseSingleHeader(line);
    var h := ParseHeader(line).header;
    assert ParseHeaders(SplitChar(s[..|line|], '\n')) == (Add(NoPatch, h), None);
  }

  // ---------------------------------------------------------------------------
  // The adapter

  class CgiStdout {
    var pos: nat
    const req: Request
    var headersSent: bool
    var headers: string

    function State(): OutState
      reads this, req
    {
      OutState(pos, headersSent, headers, req.Snapshot())
    }

    constructor (req: Request)
      ensures this.req == req && State() == Fresh(req.Snapshot())
    {
      this.req := req;
      pos, headersSent, headers := 0, false, "";
    }

    /** The loop over the header lines: each line's field is set on the request in
        turn, stopping at the first line that cannot be read. */
    method ApplyHeaders(lines: seq<string>) returns (err: Option<HeaderError>)
      modifies req`status, req`contentType, req`headersOut
      ensures req.Snapshot() == Merge(old(req.Snapshot()), ParseHeaders(lines).0)
      ensures err == ParseHeaders(lines).1
    {
      err := None;
      ghost var r0 := req.Snapshot();
      for i := 0 to |lines|
        invariant ParseHeaders(lines[..i]).1.None?
        invariant req.Snapshot() == Merge(r0, ParseHeaders(lines[..i]).0)
      {
        assert lines[..i + 1][..i] == lines[..i];
        var parsed := ParseHeader(lines[i]);
        if parsed.Ok? {
          MergeAdd(r0, ParseHeaders(lines[..i]).0, parsed.header);
        }
        match parsed {
          case Err(e) =>
            ParseHeadersStops(lines, i);
            err := Some(e);
            return;
          case Ok(StatusHeader(c)) =>
            req.status := c;
          case Ok(ContentTypeHeader(t)) =>
            req.contentType := t;
          case Ok(OtherHeader(h, v)) =>
            req.headersOut := req.headersOut[h := v];
        }
      }
      assert lines[..|lines|] == lines;
    }

    /** The end of the header block: its lines take effect; if all can be read, the
        headers are sent and `body` is written. */
    method FinishHeaders(head: string, body: string) returns (err: Option<HeaderError>)
      requires !headersSent
      modifies this`headersSent, req`status, req`contentType, req`headersOut, req`headerSends, req`chunks
      ensures var parsed := ParseHeaders(SplitChar(head, '\n'));
              var r := Merge(old(req.Snapshot()), parsed.0);
              && err == parsed.1
              && headersSent == err.None?
              && req.Snapshot() == if err.Some? then r
                                   else r.(headerSends := r.headerSends + 1, chunks := r.chunks + [body])
    {
      err := ApplyHeaders(SplitChar(head, '\n'));
      if err.None? {
        req.SendHttpHeader();
        headersSent := true;
        req.Write(body);
      }
    }

    /** A write while the headers are still being collected. */
    method Collect(s: string) returns (err: Option<HeaderError>)
      requires !headersSent && s != ""
      modifies this, req`status, req`contentType, req`headersOut, req`headerSends, req`chunks
      ensures WriteResult(State(), err) == WriteSpec(old(State()), s)
    {
      ghost var st0 := State();
      headers := headers + s;
      var ss := SplitOnce(headers, "\n\n");
      SplitOnceIndex(headers, "\n\n");
      if ss.None? {
        err := None;
        pos := pos + |s|;
        PendingWrite(st0, s);
      } else {
        err := FinishHeaders(ss.value.0, ss.value.1);
        if err.None? {
          pos := pos + |s|;
        }
        ClosingWrite(st0, s);
      }
    }

    /** A write after the headers have been sent goes straight to the request. */
    method Forward(s: string)
      requires headersSent && s != ""
      modifies this`pos, req`chunks
      ensures WriteResult(State(), None) == WriteSpec(old(State()), s)
    {
      req.Write(s);
      pos := pos + |s|;
    }

    /** write(s); a header block that cannot be read makes the write fail (`err`). */
    method Write(s: string) returns (err: Option<HeaderError>)
      modifies this, req`status, req`contentType, req`headersOut, req`headerSends, req`chunks
      ensures WriteResult(State(), err) == WriteSpec(old(State()), s)
    {
      if s == "" {
        err := None;
      } else if headersSent {
        Forward(s);
        err := None;
      } else {
        err := Collect(s);
      }
    }

    /** tell(): the number of characters accepted so far. */
    method Tell() returns (p: nat)
      ensures p == pos
    {
      p := pos;
    }

    /** writelines(l) is write of the concatenation of `l`. */
    method WriteLines(l: seq<string>) returns (err: Option<HeaderError>)
      modifies this, req`status, req`contentType, req`headersOut, req`headerSends, req`chunks
      ensures WriteResult(State(), err) == WriteSpec(old(State()), Join(l))
    {
      err := Write(Join(l));
    }
  }
}
