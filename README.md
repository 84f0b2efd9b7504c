# mod_python `apache.py`: the dispatcher, the module loader and the CGI adapters

This project models the Python half of mod_python's request handling, as found in
`apache/apache.py`:

- **`CallBack.Dispatch`** runs the handlers configured for one request phase.
  - The handler list is whitespace-separated `module::object` entries.
  - Each entry is imported, resolved and called in order. The loop stops at the first result other than `OK`.
  - A `SERVER_RETURN` abort is turned into a result, and also a status when it carries one.
  - Any failure goes to **`CallBack.ReportError`**. With `PythonOption debug` set, it sends an HTML page with the traceback to the client and returns `OK`. Otherwise it logs every traceback line to the server's error log and returns 500.
  - A failed write to the client is always logged, never shown.
- **`import_module`** does the following:
  - it reads the `autoreload`, `rootpkg`, `debug` and `pythonpath` options;
  - it sets `sys.path`;
  - it qualifies the module name with the root package;
  - it imports the module, or takes it from `sys.modules`;
  - under autoreload, it compares the cached `__mtime__` with the newest modification time of `__file__` and `__file__[:-1]`, and reloads when the cached one is older;
  - on an import error it re-raises (debug) or aborts with 500.
- **`CGIStdout`** holds back what is written until the first blank line.
  - That prefix is read as CGI header lines (`Status`, `Content-Type`, anything else into `headers_out`).
  - Then the response headers are sent once, and everything after the blank line, and every later write, is forwarded to the client.
- **`CGIStdin`** puts a carry-over buffer in front of the request body: `read`, `readline` (64K blocks) and `readlines`.
- **`build_cgi_env`**, **`setup_cgi`** and **`restore_nocgi`** build the CGI environment, install it and the two adapters as the process's environment and standard streams, and restore them.

Behaviours of the code that the model keeps as written:

- Options are strings and are used through Python truthiness:
  - a present but empty option counts as off;
  - only a missing `autoreload` defaults to on;
  - `autoreload "0"` is still on, since `"0"` is a non-empty string.
  - `Config.ParseOptions` is that reading.
- Python 2 orders `None` below every integer.
  - A module without a cached `__mtime__` is therefore reloaded as soon as a file can be stat'ed.
  - This includes the very first autoreload import, which runs the module's code twice (`Loader.FirstImportReloads`).
- `string.replace(ss[0], '\r\n', '\n')` at `apache/apache.py:580` throws its result away.
  - CRLF line ends stay in the header lines.
  - A block ended by `\r\n\r\n` is never recognised as finished.
- Every line of the header block must contain `:`. This includes an empty block, which happens when the output starts with a blank line. Otherwise the write fails (`CgiOutput.MissingColonIff`).
- When a write fails, the lines before the bad one have already taken effect on the request, and the adapter's position does not advance.
  - Every later write only adds to the kept text, and every later non-empty write re-reads the same block and fails the same way (`CgiOutput.FailureSticksAll`).
- `CGIStdin` counts the body bytes it has taken in `pos` but never reports them.
  - It has no `tell` of its own.
  - It inherits `NullIO.tell`, which always answers 0 (`apache/apache.py:486`).
  - `readline` does not advance `pos`.

The pure functions are the specification:

- `CgiOutput.WriteSpec`;
- `CgiInput.ReadSpec`;
- `CgiEnv.CgiEnvSpec`, `CgiEnv.SetupSpec` and `CgiEnv.RestoreSpec`;
- `Loader.ImportSpec`;
- `Dispatcher.Report` and `Dispatcher.DispatchSpec`.

The classes are the stateful objects of the source:

- `CgiOutput.CgiStdout` and `CgiInput.CgiStdin`;
- `Loader.Interpreter`, holding `sys.path` and `sys.modules`;
- `CgiEnv.Process`, holding `os.environ`, `sys.stdin`, `sys.stdout` and `sys.argv`;
- `Dispatcher.CallBack`;
- `Host.Request`, the server's request record.

The methods are proved to follow the specification functions, and the lemmas state what the source promises about those functions. `PyString` models the Python 2 `string` functions the code relies on (split, find, strip, lower, slicing with negative indices, `int`).

Foreign results are inputs of the model. This covers:

- executing a module's code and `reload`;
- `os.stat`;
- `eval(pythonpath)`;
- resolving and calling a handler object;
- the exceptions raised along the way;
- the text of `traceback.format_exception`.

## Model

| member | source | states |
|---|---|---|
| PyString.IndexFromFirst | apache/apache.py:548 | `string.find(s, sep, start)` is the first occurrence at or after start, or -1 when there is none |
| PyString.IndexOfFirst | apache/apache.py:538 | `string.find(s, sep)` is the first occurrence, or -1 when there is none |
| PyString.SplitOnceFirst | apache/apache.py:583 | `string.split(s, sep, 1)` has two parts exactly when sep occurs; they are the text before and after its first occurrence |
| PyString.SplitCharInverse | apache/apache.py:581 | `string.split(s, c)` pieces contain no c, there is one more piece than there are c's, and joining them with c gives s back |
| PyString.JoinConcat | apache/apache.py:491-492 | `joinfields(a + b, '')` is the concatenation of the two joins |
| PyString.SplitWordsAreWords | apache/apache.py:254 | `string.split(s)` yields non-empty words that contain no whitespace |
| PyString.SplitWordsKeepsText | apache/apache.py:254 | the words of `string.split(s)`, joined, are exactly s without its whitespace |
| PyString.SplitWordsAtSpace | apache/apache.py:254 | `string.split` cuts at whitespace: the words of `a + c + b`, for a whitespace character c, are the words of a followed by the words of b |
| PyString.SplitWordsOfWord | apache/apache.py:254 | a non-empty text without whitespace is a single word |
| PyString.LStripPrefix | apache/apache.py:588 | lstrip removes a leading run of whitespace only, and all of it |
| PyString.RStripSuffix | apache/apache.py:590 | rstrip removes a trailing run of whitespace only, and all of it |
| PyString.LowerChar | apache/apache.py:584 | lower maps each upper-case ASCII letter to the lower-case letter at the same place in the alphabet and leaves every other character alone |
| PyString.SliceBounds | apache/apache.py:471 | `s[:i]` and `s[i:]`: a negative bound from -len(s) to -1 cuts -i characters off the end; bounds beyond either end are clamped to it |
| PyString.BeforeAfter | apache/apache.py:551-552 | `s[:i] + s[i:] == s` for every i, negative ones included |
| PyString.DropLast | apache/apache.py:348 | `e[:-1]` is e without its last character, and "" for "" |
| PyString.ParseDecimal | apache/apache.py:585 | `int()` reads back the decimal spelling of every natural number |
| Host.Request.Read | apache/apache.py:512 | `req.read(k)` returns the next min(k, remaining) body bytes and advances past them |
| Host.Request.SendHttpHeader | apache/apache.py:592 | `send_http_header` is counted once per call |
| Host.Request.Write | apache/apache.py:595 | `req.write(s)` appends s to what the client receives |
| Host.Request.LogError | apache/apache.py:349 | `log_error` appends its line to the server's error log |
| Config.OptionsMeaning | apache/apache.py:241-250 | autoreload is on unless present and empty; debug is on when present and non-empty; rootpkg and pythonpath are the table's values when non-empty |
| Config.OtherKeysIgnored | apache/apache.py:364-374 | options other than the four names have no effect on the snapshot |
| CgiOutput.MissingColonIff | apache/apache.py:583 | a header line fails to unpack exactly when it has no ':' |
| CgiOutput.NoColonInName | apache/apache.py:583 | a line splits into its name and its whole value at the first ':' |
| CgiOutput.StatusLine | apache/apache.py:584-586 | a `Status` line, in any case, whose first word `int()` reads as a number (sign and leading zeros allowed) sets that status; with no first word, or one that is not an integer, the line cannot be read |
| CgiOutput.DecimalStatusLine | apache/apache.py:584-586 | a `Status` line whose first word is the decimal spelling of a code sets that code |
| CgiOutput.ContentTypeLine | apache/apache.py:587-588 | a `Content-Type` line, in any case, sets the content type to its stripped value |
| CgiOutput.OtherLine | apache/apache.py:589-591 | any other line sets the outgoing header under its name as written to its stripped value |
| CgiOutput.ParseSingleHeader | apache/apache.py:582-591 | a one-line block has exactly that line's effect, or that line's error |
| CgiOutput.ParseHeadersStops | apache/apache.py:582-583 | the first bad line stops the header loop: later lines have no effect |
| CgiOutput.Merge | apache/apache.py:582-591 | applying header lines never sends headers or writes to the client |
| CgiOutput.MergeAdd | apache/apache.py:584-591 | each header line overwrites one reply field on top of the lines before it |
| CgiOutput.MergeTwice | apache/apache.py:582-591 | applying a header block twice has the effect of applying it once |
| CgiOutput.FirstOccurrenceStays | apache/apache.py:574 | once a blank line has been written, more output does not move the first one |
| CgiOutput.FirstBlankLine | apache/apache.py:574 | the header block ends at the first "\n\n" |
| CgiOutput.PendingWrite | apache/apache.py:572-577 | a write that does not complete the header block is only buffered and counted |
| CgiOutput.ClosingWrite | apache/apache.py:578-595 | a write that completes the block processes the text before the first "\n\n" and forwards the text after it |
| CgiOutput.FailedClose | apache/apache.py:582-583 | a block with a bad line leaves the headers unsent and the position unchanged, keeps the text, and applies the lines before the bad one |
| CgiOutput.SucceededClose | apache/apache.py:592-599 | a good block is applied, the headers are sent once, the body after the blank line is forwarded and the position advances |
| CgiOutput.SentWrite | apache/apache.py:596-599 | once the headers are sent, each write is forwarded unchanged and counted |
| CgiOutput.FailureSticks | apache/apache.py:572-583 | after a failed block, the next non-empty write re-reads the same block and fails the same way, only adding to the kept text |
| CgiOutput.FailedLonger | apache/apache.py:572-583 | a failing write with more text after the blank line finds the same bad block and fails the same way |
| CgiOutput.FailedStep | apache/apache.py:570-583 | after a failing write, one more write, empty or not, leaves the adapter as one longer failing write would |
| CgiOutput.FailedWriteAll | apache/apache.py:568-583 | after a failing write, any sequence of writes leaves the adapter as one failing write of all the text would |
| CgiOutput.FailureSticksAll | apache/apache.py:568-583 | after a failed block, any sequence of later writes only adds to the kept text, and every later non-empty write fails with the same error |
| CgiOutput.SplitWhenSent | apache/apache.py:596-599 | after the headers, two writes are observably one write of their concatenation |
| CgiOutput.SplitWhenPending | apache/apache.py:572-577 | while the block stays open, two writes are observably one write of their concatenation |
| CgiOutput.SplitWhenClosingFails | apache/apache.py:572-583 | a failing block fails the same way whether or not more text came in the same write |
| CgiOutput.SplitWhenClosingSucceeds | apache/apache.py:572-599 | a good block sends the same headers and forwards the same bytes, however the text after it is cut |
| CgiOutput.SplitWhenClosing | apache/apache.py:572-599 | two writes that complete the block are observably one write of their concatenation |
| CgiOutput.WriteSplit | apache/apache.py:568-599 | for any state, writing a then b is observably writing a+b; one write's error is the two writes' error, and one success means both succeed at the same position |
| CgiOutput.WriteAllIsOneWrite | apache/apache.py:568-599 | any sequence of writes has the observable effect of one write of everything written |
| CgiOutput.ForwardedBody | apache/apache.py:568-599 | on a fresh adapter: the position is the total length written; headers are sent, and sent once, iff a blank line was written; the client gets exactly what follows the first blank line |
| CgiOutput.FreshWrite | apache/apache.py:568-599 | the same for one write into a fresh adapter |
| CgiOutput.NothingBeforeBoundary | apache/apache.py:572-577 | until a blank line is written, the request is not touched and all output is held back |
| CgiOutput.PassThroughAfterHeaders | apache/apache.py:596-597 | after the headers, no reply field changes again and the client receives every later write byte for byte |
| CgiOutput.OneHeaderThenBody | apache/apache.py:572-595 | one good header line, a blank line and a body: the header takes effect, the headers are sent once and exactly the body is forwarded |
| CgiOutput.CgiStdout.constructor | apache/apache.py:562-566 | a new adapter is at position 0, with nothing buffered and headers unsent |
| CgiOutput.CgiStdout.ApplyHeaders | apache/apache.py:581-591 | the header loop changes the request as the header-block function says and reports the same error |
| CgiOutput.CgiStdout.FinishHeaders | apache/apache.py:579-595 | the closing branch follows the closing step of the write function |
| CgiOutput.CgiStdout.Collect | apache/apache.py:572-595 | the not-yet-sent branch follows the write function |
| CgiOutput.CgiStdout.Forward | apache/apache.py:596-599 | the sent branch follows the write function |
| CgiOutput.CgiStdout.Write | apache/apache.py:568-599 | `write(s)` changes the adapter and the request exactly as the write function says, and fails exactly when it does |
| CgiOutput.CgiStdout.Tell | apache/apache.py:601 | `tell()` is the position |
| CgiOutput.CgiStdout.WriteLines | apache/apache.py:491-492 | `writelines(l)` is one write of the concatenated list |
| CgiInput.PosCountsBody | apache/apache.py:508-523 | pos counts every body byte taken, and no pending byte is lost |
| CgiInput.DrainReturnsAll | apache/apache.py:511-519 | `read()` returns the buffer and then the rest of the body, and leaves nothing; a second `read()` returns "" |
| CgiInput.BoundedReadFromBody | apache/apache.py:520-523 | `read(n)` for n > 0 takes min(n, remaining) bytes from the body and leaves the buffer alone |
| CgiInput.BoundedReadSkipsBuffer | apache/apache.py:520-523 | with a leftover in the buffer, `read(1)` then `read()` returns the input out of order |
| CgiInput.IntendedReadInOrder | apache/apache.py:508-523 | a read that serves the buffer first returns a prefix of the pending input of the asked length and keeps the rest in order |
| CgiInput.IntendedReadThenDrain | apache/apache.py:508-523 | under that read, a bounded read and a drain return the pending input in order |
| CgiInput.JoinWithNewlines | apache/apache.py:526-527 | joining the lines gives the pieces joined with newlines, plus a final newline |
| CgiInput.LinesOfText | apache/apache.py:526-527 | every line ends in its only newline; there is one more line than the text has newlines; the lines spell the text plus a final "\n" |
| CgiInput.ReadLinesRepeatsBuffer | apache/apache.py:526 | `readlines` as written returns the leftover buffer twice |
| CgiInput.IntendedReadLinesInOrder | apache/apache.py:525-527 | the intended `readlines` spells the pending input once, in order |
| CgiInput.NewlineFrom | apache/apache.py:548 | `find(buf, '\n', x)` is the first newline at or after x |
| CgiInput.CutNoInnerNewline | apache/apache.py:551 | the line cut off the buffer holds a newline at most as its last character |
| CgiInput.CutCases | apache/apache.py:538-553 | the cut line ends in a newline, or the input is used up, or the limit cut it |
| CgiInput.CutAtFirstNewline | apache/apache.py:538-553 | the line ends at the first newline when it comes before the limit or within the first block |
| CgiInput.CutAtEnd | apache/apache.py:544-547 | with no newline and the limit not reached, the line is all the remaining input |
| CgiInput.CutAtLimit | apache/apache.py:540-542 | with no newline and a limit n within the input, the line is the first n characters and the rest stays pending |
| CgiInput.CutInFirstBlock | apache/apache.py:540-552 | when the leftover and the first block hold no newline and reach the limit, the cut is `buf[:n]` of that text: its first n characters for n > 0, all but its last -n characters for n < -1 |
| CgiInput.CgiStdin.constructor | apache/apache.py:500-506 | a new adapter has position 0 and an empty buffer |
| CgiInput.CgiStdin.Drain | apache/apache.py:511-519 | the block loop of `read()` follows the read function for n = -1 |
| CgiInput.CgiStdin.Read | apache/apache.py:508-523 | `read(n)` changes the buffer, the position and the body cursor as the read function says, and returns what it says |
| CgiInput.Reach | apache/apache.py:539-548 | definition: how far the buffer of `readline(n)` grows while no newline turns up, one block at a time, with the limit checked before each read |
| CgiInput.ReachBlocks | apache/apache.py:539-548 | the buffer grows by whole 64K blocks and stops at the end of the input or at or past the limit, less than a block beyond it; with n = -1 it reads everything, with n < -1 nothing more |
| CgiInput.ReachClosed | apache/apache.py:539-548 | below the limit the buffer grows to the first block boundary at or past the limit, or to the end of the input when that comes first |
| CgiInput.ExtendSpec | apache/apache.py:539-548 | definition: the refill loop, block by block: check the limit, read a block, stop at end of input or at the first newline the block brings |
| CgiInput.FillSpec | apache/apache.py:535-548 | definition: one block, then the refill loop while the buffer has no newline |
| CgiInput.ReadLineSpec | apache/apache.py:529-553 | definition: `readline(n)`, the line and the new buffer cut at the index the fill step stopped at |
| CgiInput.ExtendEnded | apache/apache.py:539-548 | the refill loop loses nothing and ends at its first newline, at end of input below the limit, or at the limit with no newline; a buffer already at the limit reads nothing |
| CgiInput.FillSpecEnded | apache/apache.py:535-548 | the fill step reads at least one block, loses nothing, ends as the refill loop does, and cuts a newline-free first block that reaches the limit there |
| CgiInput.ExtendAtNewline | apache/apache.py:539-552 | the refill loop ends the line at the first newline within the blocks read up to `Reach` |
| CgiInput.ExtendNoNewline | apache/apache.py:539-552 | with no newline within the blocks read up to `Reach`, the refill loop cuts `buf[:n]` at the limit, or takes everything at end of input |
| CgiInput.ReadLineAtNewline | apache/apache.py:529-553 | `readline(n)` returns the input up to its first newline whenever that newline lies within the blocks read until the limit is reached, which may be past the limit |
| CgiInput.ReadLineNoNewline | apache/apache.py:529-553 | with no newline within the blocks read until the limit is reached, `readline(n)` returns `buf[:n]` of them, or all of the input when it ended first, and keeps the rest pending |
| CgiInput.ReadsPastLimit | apache/apache.py:539-548 | with a limit one past a newline-free first block, the line runs on through the newline of the second block |
| CgiInput.CgiStdin.Fill | apache/apache.py:535-548 | equals FillSpec; the fill step reads at least the first block, loses nothing, and ends at a newline, at the end of the input or at the limit; a first block with no newline that already reaches the limit is cut there, with nothing more read |
| CgiInput.CgiStdin.Extend | apache/apache.py:539-548 | equals ExtendSpec, the limit being checked before every block read; the refill loop ends at the first newline a new block brings, at end of input, or at the limit; the limit is checked before any read, so a buffer already at the limit reads nothing |
| CgiInput.CgiStdin.ReadLine | apache/apache.py:529-553 | `readline(n)`: the line, the buffer and the unread body are those of ReadLineSpec, so the closed forms of ReadLineAtNewline and ReadLineNoNewline hold of them; nothing is lost or reordered; n = 0 is a no-op; the line holds a newline only at its end; it ends at the first newline (before the limit or within the first block), or at end of input below the limit, or at the limit; without a newline it is all of the input below the limit, and the first n characters otherwise; when the leftover and the first 64K block hold no newline, a limit 0 < n within them gives their first n characters whatever follows, and a limit n < -1 gives them without their last -n characters |
| CgiInput.CgiStdin.ReadLines | apache/apache.py:525-527 | `readlines()` returns the lines of the buffer followed by what `read()` returns, and leaves the adapter drained |
| CgiEnv.ScriptNameStripsPathInfo | apache/apache.py:470-473 | SCRIPT_NAME is the uri without its last len(path_info) characters, and "" when path_info is longer than the uri |
| CgiEnv.CgiEnvContents | apache/apache.py:464-481 | the environment holds every request variable, SCRIPT_NAME, GATEWAY_INTERFACE "Python-CGI/1.1" and HTTP_AUTHORIZATION when the authorization header is present, and nothing else |
| CgiEnv.CopyInto | apache/apache.py:467-468 | the copy loop writes every entry of the source over the destination |
| CgiEnv.BuildCgiEnv | apache/apache.py:458-481 | `build_cgi_env` returns the CGI environment of the request |
| CgiEnv.SetupInstallsCgi | apache/apache.py:619-632 | while set up, the process has the CGI environment, the two adapters and an empty argv |
| CgiEnv.RoundTripLeaksCgi | apache/apache.py:614-648 | as written, `restore_nocgi(*setup_cgi(req))` keeps the CGI environment and swaps stdin and stdout |
| CgiEnv.IntendedRoundTripRestores | apache/apache.py:603-648 | with the saved environment returned and the streams put back in place, the round trip restores everything but argv |
| CgiEnv.Process.constructor | apache/apache.py:611 | the process state is as given |
| CgiEnv.Process.ReplaceEnviron | apache/apache.py:624-627 | deleting every key and copying every entry in place leaves exactly the new environment |
| CgiEnv.Process.SetupCgi | apache/apache.py:603-634 | `setup_cgi` changes the process and returns the triple as written |
| CgiEnv.Process.RestoreNoCgi | apache/apache.py:636-648 | `restore_nocgi` changes the process as written |
| Loader.RootPackagePrefix | apache/apache.py:385-386 | a loaded module's name is `rootpkg.name` when rootpkg is set, the name as given otherwise |
| Loader.DotInsertedOnce | apache/apache.py:381-382 | '.' is put in front of sys.path only when missing, and a second insertion changes nothing |
| Loader.SearchPathChoice | apache/apache.py:377-382 | with pythonpath set, sys.path is its evaluated list; otherwise the old path with '.' |
| Loader.ObservedIsNewest | apache/apache.py:423-437 | the observed mtime is the newest stat time of `__file__` and `__file__[:-1]`, and None only when neither exists |
| Loader.NoFileNoMtime | apache/apache.py:423 | a module without `__file__` has no observed mtime |
| Loader.PyLessNone | apache/apache.py:440 | None is below every time and nothing is below None |
| Loader.ReloadDecision | apache/apache.py:400-444 | on success the entry keeps its `__file__`; its code runs once more than before (once more than the first run, for a new module) exactly when autoreload is on and the cached mtime, None for a new module, is below the observed one; the cache then holds the observed mtime, or None without autoreload |
| Loader.FirstImportReloads | apache/apache.py:414-441 | under autoreload, a first import of a module whose file exists runs its code twice |
| Loader.ImportFailure | apache/apache.py:404-456 | a failed import re-raises exactly when debug is set; a failed first import, or a failed reload of a cached module, leaves the cache as it was; a failed reload right after a first import leaves the new module cached with no `__mtime__` |
| Loader.FailedReloadKeepsModule | apache/apache.py:404-444 | after a first import whose reload failed, the next import takes the module from the cache and reloads it, without importing it afresh |
| Loader.OtherModulesUnchanged | apache/apache.py:404-444 | the entry of any other module already in the cache is left as it was |
| Loader.ReloadSettles | apache/apache.py:440-444 | importing again with the files unchanged does not reload and changes nothing |
| Loader.Interpreter.constructor | apache/apache.py:356 | an interpreter with the given path and an empty module cache |
| Loader.Interpreter.SetSearchPath | apache/apache.py:377-382 | the path step sets sys.path as the search-path function says |
| Loader.Interpreter.StatMtime | apache/apache.py:423-437 | the stat step computes the observed mtime, which exists only when one of the two files does |
| Loader.Interpreter.ImportModule | apache/apache.py:356-456 | `import_module` changes sys.path and sys.modules and returns as ImportSpec says, a failed reload included |
| Dispatcher.TraceTextConcat | apache/apache.py:334-335 | the traceback text of two parts is the text of the first followed by the text of the second |
| Dispatcher.TraceTextEntries | apache/apache.py:334-335 | the page holds every traceback entry, in order, each followed by a newline |
| Dispatcher.LogLinesFormat | apache/apache.py:347-349 | one log line per traceback entry, each `htype hname: entry-without-its-last-character` |
| Dispatcher.ReportEitherPageOrLog | apache/apache.py:324-351 | either a page is shown (result OK; content type text/html; headers sent once; the page written; no log line) or one line per entry is logged (result 500; the reply untouched) |
| Dispatcher.WriteFailureIsLogged | apache/apache.py:317-322 | an IOError whose message starts with "Write" is logged and returns 500 even in debug mode |
| Dispatcher.ChainAllOk | apache/apache.py:256-269 | when every handler returns OK the loop ends with OK, or with the starting 500 if there are none |
| Dispatcher.ChainStopsAt | apache/apache.py:256-269 | the first entry that does not return OK decides how the loop ends |
| Dispatcher.DispatchEmpty | apache/apache.py:232 | a handler list with no entries (empty or all whitespace): result 500, and the dispatcher adds nothing to the reply or the log |
| Dispatcher.DispatchAllOk | apache/apache.py:256-269 | all handlers return OK: result OK, and the dispatcher adds nothing to the reply or the log (the handlers' own effects are not modelled) |
| Dispatcher.DispatchFirstResult | apache/apache.py:266-269 | the first result other than OK is returned, and the dispatcher adds nothing to the reply or the log (the handlers' own effects are not modelled) |
| Dispatcher.DispatchAbortPair | apache/apache.py:276-279 | SERVER_RETURN (code, status) returns code and sets the status exactly when it is truthy |
| Dispatcher.DispatchAbortBare | apache/apache.py:280-281 | a bare SERVER_RETURN value is the result |
| Dispatcher.DispatchBadTuple | apache/apache.py:275-283 | a SERVER_RETURN tuple of another length leaves the result as it was: 500 at the first entry, OK later |
| Dispatcher.DispatchReports | apache/apache.py:285-302 | a failure, including an entry without "::", is reported under that entry's name with the debug option, and the report's code is returned |
| Dispatcher.DispatchImportFailure | apache/apache.py:448-456 | a failed import stops the loop: under debug it is reported like any failure, otherwise 500 and nothing reported |
| Dispatcher.CallBack.constructor | apache/apache.py:173-178 | a new callback holds no request |
| Dispatcher.CallBack.BuildPage | apache/apache.py:332-340 | the loop builds the page: head, every traceback entry on its own line, tail |
| Dispatcher.CallBack.ShowPage | apache/apache.py:327-342 | the debug branch sets text/html, sends the headers once and writes the page, and changes nothing else |
| Dispatcher.CallBack.LogTrace | apache/apache.py:347-349 | the log loop appends one formatted line per traceback entry |
| Dispatcher.CallBack.ReportError | apache/apache.py:307-354 | `ReportError` changes the reply and the log, and returns, as the report function says |
| Dispatcher.CallBack.Settle | apache/apache.py:272-302 | the except clauses follow the resolution function |
| Dispatcher.CallBack.Dispatch | apache/apache.py:226-304 | `Dispatch` holds the request, and changes the reply and the log and returns as the dispatch function says |
| Config.ParseOptions | apache/apache.py:241-250 | definition: the option snapshot the dispatcher and the loader read, with autoreload defaulting to on and the other three to unset |
| CgiOutput.ParseHeader | apache/apache.py:583-591 | definition: one header line, split at its first ':', the name compared in lower case with "status" and "content-type", the value stripped or read by `int` |
| CgiOutput.ParseHeaders | apache/apache.py:581-591 | definition: the header loop over the lines of the block, stopping at the first line that cannot be read |
| CgiOutput.WriteSpec | apache/apache.py:568-599 | definition: one `write(s)`: nothing for "", forwarded once the headers are sent, otherwise buffered until the first blank line and then closed |
| CgiOutput.Close | apache/apache.py:578-595 | definition: the closing branch: apply the block, then send the headers and forward the body, or keep the text and report the error |
| CgiInput.ReadSpec | apache/apache.py:508-523 | definition: `read(n)` for n = 0, n = -1 (drain the buffer and the body) and n > 0 (straight from the body) |
| CgiInput.ReadLinesSpec | apache/apache.py:525-527 | definition: `readlines()` as written, the lines of the buffer followed by what `read()` returns |
| CgiEnv.CgiEnvSpec | apache/apache.py:458-481 | definition: the dictionary `build_cgi_env` returns |
| CgiEnv.SetupSpec | apache/apache.py:603-634 | definition: the process state after `setup_cgi` and the triple it returns, as written |
| CgiEnv.RestoreSpec | apache/apache.py:636-648 | definition: the process state after `restore_nocgi`, as written |
| Loader.SearchPath | apache/apache.py:377-382 | definition: sys.path after the path step |
| Loader.Observed | apache/apache.py:423-437 | definition: the modification time the loader computes from `__file__` and `__file__[:-1]` |
| Loader.ImportSpec | apache/apache.py:356-456 | definition: `import_module` as a function of the interpreter state, the options and the foreign results; a module that `exec "import ..."` put in sys.modules stays there when its reload fails |
| Dispatcher.Report | apache/apache.py:307-354 | definition: the effect of `ReportError` on the reply and the log, and its result |
| Dispatcher.ErrorPage | apache/apache.py:332-340 | definition: the HTML page sent in debug mode |
| Dispatcher.LogLines | apache/apache.py:347-349 | definition: the error-log lines written without debug |
| Dispatcher.EntryOutcome | apache/apache.py:258-266 | definition: the outcome of one handler entry, a failure when it holds no "::" |
| Dispatcher.Chain | apache/apache.py:256-269 | definition: the handler loop and how it ends |
| Dispatcher.Resolve | apache/apache.py:272-304 | definition: the except clauses and the returned result |
| Dispatcher.DispatchSpec | apache/apache.py:226-304 | definition: `Dispatch` as a function of the reply, the log, the configured list, the options and the entries' outcomes |
| Dispatcher.EntryFromLoad | apache/apache.py:448-456 | definition: a handler entry's outcome when its import succeeded, was re-raised or was turned into SERVER_RETURN 500 |

## Left out

- `resolve_object` and calling the handler object are not modelled. Each configured entry's outcome is an input (a returned code, a SERVER_RETURN value or a failure). `Dispatcher.EntryFromLoad` links the outcome to the loader's result.
- Python itself is reduced to foreign results given as inputs:
  - executing module code (`exec "import ..."`) and `reload` give `Exec` and `reloadFails`;
  - `os.stat` and `os.path.exists` give a map from existing paths to times;
  - `eval(pythonpath)` and `eval(repr(os.environ))` give their values;
  - a failing `eval(pythonpath)` is not modelled. It runs before the `try` of `import_module`, so its exception would leave the loader without the ImportError and SyntaxError handling.
- `traceback.format_exception` is an input list of strings. The formatted ValueError for an entry without "::" is the input `malformed`.
- The flags of `log_error` and the `req.server` argument are not modelled. The log is a list of lines.
- `req.add_common_vars()` is not modelled. `subprocessEnv` is the table after it.
- `self.config = req.get_config()` and `req.get_options()`: the configured handler string and the option table are inputs.
- Dispatch with no handler configured for the phase is not modelled. In the source, `self.config[htype]` raises KeyError, and reporting it then fails because `handler` is unbound.
- An exception raised inside `ReportError` itself is not modelled. Neither is a PROG_TRACEBACK raised with something other than a 3-tuple.
- Exceptions other than ImportError, AttributeError and SyntaxError during an import are not modelled. They reach Dispatch's last except clause like any handler failure, which `Dispatcher.DispatchReports` covers.
- `import_module` called without a request behaves as an empty option table and is not a separate member.
- CgiInput.CgiStdin.Read: it requires n >= -1. `req.read` with a negative count is the server's business and is not modelled.
- Host tables are case-insensitive in the server. Here `headers_in` and `headers_out` are exact-key maps.
- `str(s)` in the forwarding branch of `CGIStdout.write` is the identity on strings. Other objects are not modelled.
- Loader.ImportFailure: a failed `reload` re-runs part of the module's code in the cached module object. The model does not count that partial run, and keeps the entry as it was before the reload.
- Loader.OtherModulesUnchanged: the model's `exec "import ..."` and `reload` add only the imported module to sys.modules. The parent packages that a dotted import also loads, and the modules that the imported code imports in turn, are not modelled. So the lemma speaks only of modules already in the cache.
- Concurrency is not modelled, and nothing here is thread-aware: the source's `os.environ` and `sys` streams are per-process.
- The `NullIO` members other than `writelines` are not modelled: `readline`, `isatty`, `flush`, `close`, `seek`, and the constant `tell` that `CGIStdin` inherits. The same goes for the remaining constant tables of `apache.py`.
- CgiEnv.Process.SetupCgi: the stream identities of the new adapters are parameters. The adapters themselves are the separate classes `CgiOutput.CgiStdout` and `CgiInput.CgiStdin`.

## Findings

| source | as written | input that shows it | evidently intended | confidence | as-written member | corrected member |
|---|---|---|---|---|---|---|
| apache/apache.py:526 | `readlines` splits `self.buf + self.read()`, but `read()` already returns the buffer first | body "a\nb\n": `readline()` makes the line "a\n" and leaves "b\n" in the buffer; then `readlines()` returns ["b\n", "b\n", "\n"] | the leftover appears once | not executed | CgiInput.ReadLinesRepeatsBuffer | CgiInput.IntendedReadLinesInOrder |
| apache/apache.py:520-523 | `read(n)` for n > 0 reads the body directly and ignores the leftover buffer | buffer "x", unread body "y": `read(1)` gives "y", then `read()` gives "x" | the leftover is served first | not executed | CgiInput.BoundedReadSkipsBuffer | CgiInput.IntendedReadThenDrain |
| apache/apache.py:619 | the saved copy of `os.environ` (line 614) is overwritten by the CGI environment, which is what `setup_cgi` returns | any request, with an environment lacking GATEWAY_INTERFACE: after `restore_nocgi(*setup_cgi(req))` the CGI variables remain | the original environment is returned and restored | not executed | CgiEnv.RoundTripLeaksCgi | CgiEnv.IntendedRoundTripRestores |
| apache/apache.py:647-648 | `restore_nocgi` assigns the saved stdin to `sys.stdout` and the saved stdout to `sys.stdin` | distinct stdin and stdout: after the round trip they are swapped | each stream is put back where it came from | not executed | CgiEnv.RoundTripLeaksCgi | CgiEnv.IntendedRoundTripRestores |
