/**
 * The handler dispatcher (`CallBack.Dispatch`) and the error reporter
 * (`CallBack.ReportError`).
 *
 * Importing, resolving and calling one configured handler entry is abstracted
 * into an `Outcome`: it returned a code, it raised SERVER_RETURN with some value,
 * or it failed (PROG_TRACEBACK or any other exception). What the host can observe
 * is a `Sink`: the reply fields of the request and the server's error log.
 */
module Dispatcher {
  import opened PyString
  import opened Host
  import opened Config
  import Loader

  const OK := 0
  const HTTP_INTERNAL_SERVER_ERROR := 500

  /** A failure as the reporter sees it: str(etype), str(evalue) and the formatted traceback. */
  datatype Failure = Failure(etype: string, evalue: string, trace: seq<string>)

  /** The value raised with SERVER_RETURN. */
  datatype AbortValue =
    | Pair(code: int, status: Option<int>)   // a 2-tuple (result, status)
    | Bare(code: int)                        // a plain result
    | BadTuple                               // a tuple of any other length

  /** What importing, resolving and calling one handler entry did. */
  datatype Outcome =
    | Return(code: int)
    | Abort(value: AbortValue)
    | Fail(failure: Failure)

  /** The host-visible state: the reply fields and the error log. */
  datatype Sink = Sink(reply: Reply, log: seq<string>)

  /** The new host-visible state and the returned code. */
  datatype Disposition = Disposition(sink: Sink, result: int)

  // ---------------------------------------------------------------------------
  // ReportError

  /** An IOError raised while writing to the client. */
  predicate WriteFailure(f: Failure) {
    f.etype == "exceptions.IOError" && Before(f.evalue, 5) == "Write"
  }

  function PageHead(htype: string, hname: string): string {
    "<html><h3>mod_python: Python error:</h3>\n<pre>\n"
      + "<b>Handler: " + htype + " " + hname + "</b>\n<blockquote>\n"
  }

  function PageTail(htype: string, hname: string): string {
    "</blockquote>\n<b>End of output for " + htype + " " + hname + "</b>.\n"
      + "<em>NOTE: More output from other handlers, if any, may follow.\n"
      + "This will NOT happen, and request processing will STOP\n"
      + "at this point when you unset PythonOption debug.</em>\n\n"
      + "</pre></html>\n"
  }

  /** The traceback as it appears in the page: every entry followed by a newline. */
  function TraceText(trace: seq<string>): string
    decreases |trace|
  {
    if |trace| == 0 then "" else TraceText(trace[..|trace| - 1]) + trace[|trace| - 1] + "\n"
  }

  /** The HTML page sent to the client in debug mode. */
  function ErrorPage(htype: string, hname: string, trace: seq<string>): string {
    PageHead(htype, hname) + TraceText(trace) + PageTail(htype, hname)
  }

  /** The log line for one traceback entry; the entry loses its last character. */
  function LogLine(htype: string, hname: string, e: string): string {
    htype + " " + hname + ": " + DropLast(e)
  }

  function LogLines(htype: string, hname: string, trace: seq<string>): seq<string>
    decreases |trace|
  {
    if |trace| == 0 then []
    else LogLines(htype, hname, trace[..|trace| - 1]) + [LogLine(htype, hname, trace[|trace| - 1])]
  }

  /** Whether the page is shown: debug, unless the failure is a write to the client. */
  predicate ShowsPage(f: Failure, debug: bool) {
    debug && !WriteFailure(f)
  }

  /** The effect of ReportError on the host and its return code. */
  function Report(s: Sink, f: Failure, htype: string, hname: string, debug: bool): Disposition {
    if ShowsPage(f, debug) then
      var reply := s.reply.(contentType := "text/html", headerSends := s.reply.headerSends + 1,
                            chunks := s.reply.chunks + [ErrorPage(htype, hname, f.trace)]);
      Disposition(Sink(reply, s.log), OK)
    else
      Disposition(Sink(s.reply, s.log + LogLines(htype, hname, f.trace)), HTTP_INTERNAL_SERVER_ERROR)
  }

  lemma {:induction false} TraceTextConcat(a: seq<string>, b: seq<string>)
    ensures TraceText(a + b) == TraceText(a) + TraceText(b)
    decreases |b|
  {
    if |b| == 0 {
      assert a + b == a;
    } else {
      var b' := b[..|b| - 1];
      assert (a + b)[..|a + b| - 1] == a + b';
      assert (a + b)[|a + b| - 1] == b[|b| - 1];
      TraceTextConcat(a, b');
    }
  }

  /** The page text holds every traceback entry, in order, each on its own line. */
  lemma {:induction false} TraceTextEntries(trace: seq<string>)
    ensures TraceText(trace) == Join(seq(|trace|, i requires 0 <= i < |trace| => trace[i] + "\n"))
    decreases |trace|
  {
    var lines := seq(|trace|, i requires 0 <= i < |trace| => trace[i] + "\n");
    if |trace| > 0 {
      var front := trace[..|trace| - 1];
      var frontLines := seq(|front|, i requires 0 <= i < |front| => front[i] + "\n");
      TraceTextEntries(front);
      assert lines == frontLines + [trace[|trace| - 1] + "\n"];
      JoinAppend(frontLines, trace[|trace| - 1] + "\n");
    }
  }

  /** One log line per traceback entry, each in the `htype hname: entry` format. */
  lemma {:induction false} LogLinesFormat(htype: string, hname: string, trace: seq<string>)
    ensures |LogLines(htype, hname, trace)| == |trace|
    ensures forall i :: 0 <= i < |trace| ==>
      LogLines(htype, hname, trace)[i] == htype + " " + hname + ": " + DropLast(trace[i])
    decreases |trace|
  {
    if |trace| > 0 {
      var front := trace[..|trace| - 1];
      LogLinesFormat(htype, hname, front);
      forall i | 0 <= i < |trace|
        ensures LogLines(htype, hname, trace)[i] == htype + " " + hname + ": " + DropLast(trace[i])
      {
        if i < |front| {
          assert front[i] == trace[i];
        }
      }
    }
  }

  /**
   * Exactly one of the two reports happens: a page (result OK, one header send,
   * one chunk, no log line) or log lines (result 500, the reply untouched).
   */
  lemma ReportEitherPageOrLog(s: Sink, f: Failure, htype: string, hname: string, debug: bool)
    ensures var d := Report(s, f, htype, hname, debug);
      d.result == OK <==> ShowsPage(f, debug)
    ensures var d := Report(s, f, htype, hname, debug);
      d.result == OK || d.result == HTTP_INTERNAL_SERVER_ERROR
    ensures var d := Report(s, f, htype, hname, debug);
      d.sink.reply == s.reply <==> d.result == HTTP_INTERNAL_SERVER_ERROR
    ensures var d := Report(s, f, htype, hname, debug);
      d.result == OK ==>
        (d.sink.reply.headerSends == s.reply.headerSends + 1
         && d.sink.reply.chunks == s.reply.chunks + [ErrorPage(htype, hname, f.trace)]
         && d.sink.reply.contentType == "text/html"
         && d.sink.reply.status == s.reply.status
         && d.sink.log == s.log)
    ensures var d := Report(s, f, htype, hname, debug);
      d.result == HTTP_INTERNAL_SERVER_ERROR ==>
        (|d.sink.log| == |s.log| + |f.trace| && d.sink.log[..|s.log|] == s.log)
  {
    var d := Report(s, f, htype, hname, debug);
    if d.result == OK {
      assert |d.sink.reply.chunks| == |s.reply.chunks| + 1;
    } else {
      LogLinesFormat(htype, hname, f.trace);
    }
  }

  /** A failed write to the client is logged even in debug mode. */
  lemma WriteFailureIsLogged(s: Sink, f: Failure, htype: string, hname: string, debug: bool)
    requires f.etype == "exceptions.IOError" && |f.evalue| >= 5 && f.evalue[..5] == "Write"
    ensures Report(s, f, htype, hname, debug) == Report(s, f, htype, hname, false)
    ensures Report(s, f, htype, hname, debug).result == HTTP_INTERNAL_SERVER_ERROR
  {
    assert WriteFailure(f);
  }

  // ---------------------------------------------------------------------------
  // Dispatch

  /** How the handler loop ended. */
  datatype Stop =
    | Completed(result: int)                      // ran to the end, or broke on a result
    | Aborted(prior: int, value: AbortValue)      // SERVER_RETURN; prior is the result so far
    | Failed(failure: Failure, handler: string)   // an exception to report for this entry

  /**
   * The outcome of one whitespace-separated entry: an entry without `::` fails
   * to unpack into module and object before anything is imported.
   */
  function EntryOutcome(handler: string, o: Outcome, malformed: Failure): Outcome {
    if SplitOnce(handler, "::").None? then Fail(malformed) else o
  }

  /** How the loop ends at an entry whose outcome is not `Return(OK)`. */
  function StopOf(handler: string, o: Outcome, prior: int): Stop {
    match o
    case Return(c) => Completed(c)
    case Abort(v) => Aborted(prior, v)
    case Fail(f) => Failed(f, handler)
  }

  /** The handler loop, from the running result on. */
  function Chain(handlers: seq<string>, outcomes: seq<Outcome>, malformed: Failure, result: int): Stop
    requires |outcomes| == |handlers|
    decreases |handlers|
  {
    if |handlers| == 0 then Completed(result)
    else
      var o := EntryOutcome(handlers[0], outcomes[0], malformed);
      if o == Return(OK) then Chain(handlers[1..], outcomes[1..], malformed, OK)
      else StopOf(handlers[0], o, result)
  }

  /** Python truthiness of the status in a (result, status) pair. */
  predicate TruthyStatus(status: Option<int>) {
    status.Some? && status.value != 0
  }

  /** The except clauses: what each way of leaving the loop does. */
  function Resolve(s: Sink, stop: Stop, htype: string, debug: bool): Disposition {
    match stop
    case Completed(r) => Disposition(s, r)
    case Aborted(prior, v) =>
      (match v
       case Pair(code, status) =>
         Disposition(if TruthyStatus(status) then s.(reply := s.reply.(status := status.value)) else s, code)
       case Bare(code) => Disposition(s, code)
       case BadTuple => Disposition(s, prior))
    case Failed(f, handler) => Report(s, f, htype, handler, debug)
  }

  /** Dispatch, for the configured handler list and the outcome of each entry. */
  function DispatchSpec(s: Sink, configured: string, outcomes: seq<Outcome>, malformed: Failure,
                        htype: string, opt: map<string, string>): Disposition
    requires |outcomes| == |SplitWords(configured)|
  {
    Resolve(s, Chain(SplitWords(configured), outcomes, malformed, HTTP_INTERNAL_SERVER_ERROR),
            htype, ParseOptions(opt).debug)
  }

  /** Every entry's outcome is `Return(OK)`. */
  predicate AllOk(handlers: seq<string>, outcomes: seq<Outcome>, malformed: Failure)
    requires |outcomes| == |handlers|
  {
    forall i :: 0 <= i < |handlers| ==> EntryOutcome(handlers[i], outcomes[i], malformed) == Return(OK)
  }

  /** Entry k is the first whose outcome is not `Return(OK)`. */
  predicate FirstStop(handlers: seq<string>, outcomes: seq<Outcome>, malformed: Failure, k: nat)
    requires |outcomes| == |handlers|
  {
    k < |handlers|
    && (forall i :: 0 <= i < k ==> EntryOutcome(handlers[i], outcomes[i], malformed) == Return(OK))
    && EntryOutcome(handlers[k], outcomes[k], malformed) != Return(OK)
  }

  /** When every handler returns OK the loop completes with OK, or with the start value if there are none. */
  lemma {:induction false} ChainAllOk(handlers: seq<string>, outcomes: seq<Outcome>, malformed: Failure, result: int)
    requires |outcomes| == |handlers|
    requires AllOk(handlers, outcomes, malformed)
    ensures Chain(handlers, outcomes, malformed, result) == Completed(if |handlers| == 0 then result else OK)
    decreases |handlers|
  {
    if |handlers| > 0 {
      var h', o' := handlers[1..], outcomes[1..];
      forall i | 0 <= i < |h'| ensures EntryOutcome(h'[i], o'[i], malformed) == Return(OK) {
        assert h'[i] == handlers[i + 1] && o'[i] == outcomes[i + 1];
      }
      ChainAllOk(h', o', malformed, OK);
    }
  }

  /** Handlers run in order: the first entry that does not return OK decides how the loop ends. */
  lemma {:induction false} ChainStopsAt(handlers: seq<string>, outcomes: seq<Outcome>, malformed: Failure,
                                         result: int, k: nat)
    requires |outcomes| == |handlers|
    requires FirstStop(handlers, outcomes, malformed, k)
    ensures Chain(handlers, outcomes, malformed, result)
      == StopOf(handlers[k], EntryOutcome(handlers[k], outcomes[k], malformed), if k == 0 then result else OK)
    decreases k
  {
    if k > 0 {
      var h', o' := handlers[1..], outcomes[1..];
      assert EntryOutcome(handlers[0], outcomes[0], malformed) == Return(OK);
      forall i | 0 <= i < k - 1 ensures EntryOutcome(h'[i], o'[i], malformed) == Return(OK) {
        assert h'[i] == handlers[i + 1] && o'[i] == outcomes[i + 1];
      }
      assert h'[k - 1] == handlers[k] && o'[k - 1] == outcomes[k - 1 + 1];
      ChainStopsAt(h', o', malformed, OK, k - 1);
    }
  }

  /** An empty handler list returns 500 and changes nothing. */
  lemma DispatchEmpty(s: Sink, configured: string, malformed: Failure, htype: string, opt: map<string, string>)
    requires SplitWords(configured) == []
    ensures DispatchSpec(s, configured, [], malformed, htype, opt) == Disposition(s, HTTP_INTERNAL_SERVER_ERROR)
  {
  }

  /** A non-empty list of handlers that all return OK returns OK and changes nothing. */
  lemma DispatchAllOk(s: Sink, configured: string, outcomes: seq<Outcome>, malformed: Failure,
                      htype: string, opt: map<string, string>)
    requires |outcomes| == |SplitWords(configured)| > 0
    requires AllOk(SplitWords(configured), outcomes, malformed)
    ensures DispatchSpec(s, configured, outcomes, malformed, htype, opt) == Disposition(s, OK)
  {
    ChainAllOk(SplitWords(configured), outcomes, malformed, HTTP_INTERNAL_SERVER_ERROR);
  }

  /** The first result other than OK is returned, and nothing else changes. */
  lemma DispatchFirstResult(s: Sink, configured: string, outcomes: seq<Outcome>, malformed: Failure,
                            htype: string, opt: map<string, string>, k: nat, code: int)
    requires |outcomes| == |SplitWords(configured)|
    requires FirstStop(SplitWords(configured), outcomes, malformed, k)
    requires EntryOutcome(SplitWords(configured)[k], outcomes[k], malformed) == Return(code)
    ensures code != OK
    ensures DispatchSpec(s, configured, outcomes, malformed, htype, opt) == Disposition(s, code)
  {
    ChainStopsAt(SplitWords(configured), outcomes, malformed, HTTP_INTERNAL_SERVER_ERROR, k);
  }

  /** SERVER_RETURN (code, status) returns code and sets the status only when it is truthy. */
  lemma DispatchAbortPair(s: Sink, configured: string, outcomes: seq<Outcome>, malformed: Failure,
                          htype: string, opt: map<string, string>, k: nat, code: int, status: Option<int>)
    requires |outcomes| == |SplitWords(configured)|
    requires FirstStop(SplitWords(configured), outcomes, malformed, k)
    requires EntryOutcome(SplitWords(configured)[k], outcomes[k], malformed) == Abort(Pair(code, status))
    ensures var d := DispatchSpec(s, configured, outcomes, malformed, htype, opt);
      d.result == code && d.sink.log == s.log
    ensures var d := DispatchSpec(s, configured, outcomes, malformed, htype, opt);
      d.sink.reply.status == (if status.Some? && status.value != 0 then status.value else s.reply.status)
    ensures var d := DispatchSpec(s, configured, outcomes, malformed, htype, opt);
      d.sink.reply.(status := s.reply.status) == s.reply
  {
    ChainStopsAt(SplitWords(configured), outcomes, malformed, HTTP_INTERNAL_SERVER_ERROR, k);
  }

  /** A bare SERVER_RETURN value is the result. */
  lemma DispatchAbortBare(s: Sink, configured: string, outcomes: seq<Outcome>, malformed: Failure,
                          htype: string, opt: map<string, string>, k: nat, code: int)
    requires |outcomes| == |SplitWords(configured)|
    requires FirstStop(SplitWords(configured), outcomes, malformed, k)
    requires EntryOutcome(SplitWords(configured)[k], outcomes[k], malformed) == Abort(Bare(code))
    ensures DispatchSpec(s, configured, outcomes, malformed, htype, opt) == Disposition(s, code)
  {
    ChainStopsAt(SplitWords(configured), outcomes, malformed, HTTP_INTERNAL_SERVER_ERROR, k);
  }

  /**
   * A SERVER_RETURN tuple of the wrong length leaves the result as it was:
   * 500 at the first entry, OK after entries that returned OK.
   */
  lemma DispatchBadTuple(s: Sink, configured: string, outcomes: seq<Outcome>, malformed: Failure,
                         htype: string, opt: map<string, string>, k: nat)
    requires |outcomes| == |SplitWords(configured)|
    requires FirstStop(SplitWords(configured), outcomes, malformed, k)
    requires EntryOutcome(SplitWords(configured)[k], outcomes[k], malformed) == Abort(BadTuple)
    ensures DispatchSpec(s, configured, outcomes, malformed, htype, opt)
      == Disposition(s, if k == 0 then HTTP_INTERNAL_SERVER_ERROR else OK)
  {
    ChainStopsAt(SplitWords(configured), outcomes, malformed, HTTP_INTERNAL_SERVER_ERROR, k);
  }

  /**
   * A failure, including an entry without `::`, is reported under that entry's
   * name with the debug option, and the reporter's code is the result.
   */
  lemma DispatchReports(s: Sink, configured: string, outcomes: seq<Outcome>, malformed: Failure,
                        htype: string, opt: map<string, string>, k: nat)
    requires |outcomes| == |SplitWords(configured)|
    requires FirstStop(SplitWords(configured), outcomes, malformed, k)
    requires EntryOutcome(SplitWords(configured)[k], outcomes[k], malformed).Fail?
    ensures var handler := SplitWords(configured)[k];
      DispatchSpec(s, configured, outcomes, malformed, htype, opt)
        == Report(s, EntryOutcome(handler, outcomes[k], malformed).failure, htype, handler,
                  "debug" in opt && opt["debug"] != "")
  {
    ChainStopsAt(SplitWords(configured), outcomes, malformed, HTTP_INTERNAL_SERVER_ERROR, k);
    OptionsMeaning(opt);
  }

  /**
   * The outcome of an entry whose import ended in `load`: the handler's own
   * outcome once loaded, the import error when it was re-raised, and
   * SERVER_RETURN 500 otherwise.
   */
  function EntryFromLoad(load: Loader.Load, called: Outcome, importError: Failure): Outcome {
    match load
    case Loaded(_) => called
    case ReRaised => Fail(importError)
    case ServerError => Abort(Bare(HTTP_INTERNAL_SERVER_ERROR))
  }

  /**
   * A failed import stops the chain: under debug the import error is reported
   * like any failure, otherwise Dispatch returns 500 and reports nothing.
   */
  lemma DispatchImportFailure(s: Sink, configured: string, outcomes: seq<Outcome>, malformed: Failure,
                              htype: string, opt: map<string, string>, k: nat, called: Outcome,
                              importError: Failure)
    requires |outcomes| == |SplitWords(configured)|
    requires k < |outcomes|
    requires forall i :: 0 <= i < k ==> EntryOutcome(SplitWords(configured)[i], outcomes[i], malformed) == Return(OK)
    requires SplitOnce(SplitWords(configured)[k], "::").Some?
    requires outcomes[k] == EntryFromLoad(Loader.ImportError(ParseOptions(opt)), called, importError)
    ensures ParseOptions(opt).debug ==>
      DispatchSpec(s, configured, outcomes, malformed, htype, opt)
        == Report(s, importError, htype, SplitWords(configured)[k], true)
    ensures !ParseOptions(opt).debug ==>
      DispatchSpec(s, configured, outcomes, malformed, htype, opt) == Disposition(s, HTTP_INTERNAL_SERVER_ERROR)
  {
    var handlers := SplitWords(configured);
    assert FirstStop(handlers, outcomes, malformed, k);
    ChainStopsAt(handlers, outcomes, malformed, HTTP_INTERNAL_SERVER_ERROR, k);
  }

  /** The callback object the server calls for every request phase. */
  class CallBack {
    var req: Request?

    constructor ()
      ensures req == null
    {
      req := null;
    }

    /** The debug page: head, every traceback entry on its own line, tail. */
    static method BuildPage(htype: string, hname: string, trace: seq<string>) returns (s: string)
      ensures s == ErrorPage(htype, hname, trace)
    {
      s := PageHead(htype, hname);
      for i := 0 to |trace|
        invariant s == PageHead(htype, hname) + TraceText(trace[..i])
      {
        assert trace[..i + 1][..i] == trace[..i];
        s := s + trace[i] + "\n";
      }
      assert trace[..|trace|] == trace;
      s := s + PageTail(htype, hname);
    }

    /** Debug on: switch the reply to HTML, send the headers, write the page. */
    method ShowPage(f: Failure, htype: string, hname: string)
      requires req != null
      modifies req`contentType, req`headerSends, req`chunks
      ensures req.Snapshot() == old(req.Snapshot()).(contentType := "text/html",
        headerSends := old(req.headerSends) + 1, chunks := old(req.chunks) + [ErrorPage(htype, hname, f.trace)])
    {
      req.contentType := "text/html";
      req.SendHttpHeader();
      var s := BuildPage(htype, hname, f.trace);
      req.Write(s);
    }

    /** Debug off: one error-log line per traceback entry. */
    method LogTrace(f: Failure, htype: string, hname: string)
      requires req != null
      modifies req`errorLog
      ensures req.errorLog == old(req.errorLog) + LogLines(htype, hname, f.trace)
    {
      for i := 0 to |f.trace|
        invariant req.errorLog == old(req.errorLog) + LogLines(htype, hname, f.trace[..i])
      {
        assert f.trace[..i + 1][..i] == f.trace[..i];
        req.LogError(LogLine(htype, hname, f.trace[i]));
      }
      assert f.trace[..|f.trace|] == f.trace;
    }

    method ReportError(f: Failure, htype: string, hname: string, debug: bool) returns (result: int)
      requires req != null
      modifies req`contentType, req`headerSends, req`chunks, req`errorLog
      ensures Disposition(Sink(req.Snapshot(), req.errorLog), result)
        == Report(Sink(old(req.Snapshot()), old(req.errorLog)), f, htype, hname, debug)
    {
      var show := debug;
      if WriteFailure(f) {
        show := false;
      }
      if show {
        ShowPage(f, htype, hname);
        result := OK;
      } else {
        LogTrace(f, htype, hname);
        result := HTTP_INTERNAL_SERVER_ERROR;
      }
    }

    /** The except clauses of Dispatch, for the way the handler loop ended. */
    method Settle(stop: Stop, htype: string, debug: bool) returns (result: int)
      requires req != null
      modifies req`status, req`contentType, req`headerSends, req`chunks, req`errorLog
      ensures Disposition(Sink(req.Snapshot(), req.errorLog), result)
        == Resolve(Sink(old(req.Snapshot()), old(req.errorLog)), stop, htype, debug)
    {
      match stop
      case Completed(r) =>
        result := r;
      case Aborted(prior, v) =>
        result := prior;
        match v {
          case Pair(code, status) =>
            result := code;
            if status.Some? && status.value != 0 {
              req.status := status.value;
            }
          case Bare(code) =>
            result := code;
          case BadTuple =>
        }
      case Failed(f, handler) =>
        result := ReportError(f, htype, handler, debug);
    }

    method Dispatch(r: Request, htype: string, configured: string, opt: map<string, string>,
                    outcomes: seq<Outcome>, malformed: Failure) returns (result: int)
      requires |outcomes| == |SplitWords(configured)|
      modifies this`req, r`status, r`contentType, r`headerSends, r`chunks, r`errorLog
      ensures req == r
      ensures Disposition(Sink(r.Snapshot(), r.errorLog), result)
        == DispatchSpec(Sink(old(r.Snapshot()), old(r.errorLog)), configured, outcomes, malformed, htype, opt)
    {
      result := HTTP_INTERNAL_SERVER_ERROR;
      req := r;
      var debug := ParseOptions(opt).debug;
      var handlers := SplitWords(configured);
      var raised: Option<Stop> := None;
      var i := 0;
      while i < |handlers|
        invariant 0 <= i <= |handlers|
        invariant result == if i == 0 then HTTP_INTERNAL_SERVER_ERROR else OK
        invariant Chain(handlers, outcomes, malformed, HTTP_INTERNAL_SERVER_ERROR)
          == Chain(handlers[i..], outcomes[i..], malformed, result)
      {
        var handler := handlers[i];
        assert handlers[i..][0] == handler && outcomes[i..][0] == outcomes[i];
        assert handlers[i..][1..] == handlers[i + 1..] && outcomes[i..][1..] == outcomes[i + 1..];
        var o := EntryOutcome(handler, outcomes[i], malformed);
        if !o.Return? {
          raised := Some(StopOf(handler, o, result));
          break;
        }
        result := o.code;
        if result != OK {
          break;
        }
        i := i + 1;
      }
      var stop := if raised.Some? then raised.value else Completed(result);
      assert stop == Chain(handlers, outcomes, malformed, HTTP_INTERNAL_SERVER_ERROR);
      result := Settle(stop, htype, debug);
    }
  }
}
