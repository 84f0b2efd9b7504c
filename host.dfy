/**
 * The host server's request object, as far as the adapter uses it: the response
 * fields it sets (status, content type, outgoing headers), the header-sending and
 * body-writing calls (recorded as a count and a list of chunks), and the request
 * body, read through a cursor.
 */
module Host {
  import opened PyString

  /** The response side of a request, as a value. */
  datatype Reply = Reply(
    status: int,
    contentType: string,
    headersOut: map<string, string>,
    headerSends: nat,       // how many times send_http_header was called
    chunks: seq<string>)    // every argument of req.write, in order

  function Min(a: int, b: int): int {
    if a <= b then a else b
  }

  class Request {
    var status: int
    var contentType: string
    var headersOut: map<string, string>
    var headerSends: nat
    var chunks: seq<string>

    /** The server's error log, reached through `req.server`: every line given to log_error. */
    var errorLog: seq<string>

    /** The request body and how much of it has been read. */
    const body: string
    var cursor: nat

    predicate Valid()
      reads this
    {
      cursor <= |body|
    }

    function Snapshot(): Reply
      reads this
    {
      Reply(status, contentType, headersOut, headerSends, chunks)
    }

    /** The body bytes not yet read. */
    function Remaining(): string
      reads this
      requires Valid()
    {
      body[cursor..]
    }

    constructor (reply: Reply, body: string)
      ensures Valid() && Snapshot() == reply && this.body == body && cursor == 0
      ensures errorLog == []
    {
      status, contentType, headersOut := reply.status, reply.contentType, reply.headersOut;
      headerSends, chunks := reply.headerSends, reply.chunks;
      this.body := body;
      cursor := 0;
      errorLog := [];
    }

    /** req.read(k): the next min(k, remaining) body bytes. */
    method Read(k: nat) returns (s: string)
      requires Valid()
      modifies this`cursor
      ensures Valid()
      ensures s == old(Remaining())[..Min(k, |old(Remaining())|)]
      ensures cursor == old(cursor) + |s|
    {
      var n := Min(k, |body| - cursor);
      s := body[cursor..cursor + n];
      cursor := cursor + n;
    }

    /** req.send_http_header(). */
    method SendHttpHeader()
      modifies this`headerSends
      ensures headerSends == old(headerSends) + 1
    {
      headerSends := headerSends + 1;
    }

    /** _apache.log_error(line, APLOG_NOERRNO | APLOG_ERR, req.server). */
    method LogError(line: string)
      modifies this`errorLog
      ensures errorLog == old(errorLog) + [line]
    {
      errorLog := errorLog + [line];
    }

    /** req.write(s). */
    method Write(s: string)
      modifies this`chunks
      ensures chunks == old(chunks) + [s]
    {
      chunks := chunks + [s];
    }
  }
}
