/**
 * The part of an Express response object that the request handlers touch:
 * the status code, the header map, the body written so far, whether the
 * headers have been flushed to the client, and whether the response ended.
 *
 * `ResponseState` is the value of a response at one moment; the pure
 * functions on it (`Replied`, `Piped`) describe what a sequence of calls
 * leaves behind, and the class `Response` performs those calls one by one.
 */
module Http {
  import opened YouTubeTypes

  newtype Byte = b: int | 0 <= b < 256
  type Chunk = seq<Byte>

  /** What a handler writes into a response body. */
  datatype Payload =
    | ErrorJson(error: string)   // `{ error: ... }`
    | InfoJson(info: VideoInfo)  // `{ info: ... }`
    | Bytes(chunk: Chunk)        // one chunk of a piped media stream

  /**
   * A readable stream as seen by `pipe`: the chunks it delivers, in order,
   * and whether it then emits 'error' instead of 'end'.
   */
  datatype Upstream = Upstream(chunks: seq<Chunk>, fails: bool)

  const CONTENT_TYPE := "Content-Type"
  const JSON_TYPE := "application/json"
  const UTF8_CHARSET := "; charset=utf-8"

  /** A character Node accepts in a header value: tab, space to `~`, or a byte from 0x80 to 0xFF. */
  predicate IsHeaderChar(c: char)
  {
    c == '\t' || (' ' <= c <= '~') || ('\U{80}' <= c <= '\U{FF}')
  }

  /** A header value Node's `setHeader` stores instead of throwing ERR_INVALID_CHAR. */
  predicate HeaderSafe(value: string)
  {
    forall i :: 0 <= i < |value| ==> IsHeaderChar(value[i])
  }

  /** A value is safe exactly when both of its parts are. */
  lemma HeaderSafeConcat(a: string, b: string)
    ensures HeaderSafe(a + b) <==> HeaderSafe(a) && HeaderSafe(b)
  {
    if HeaderSafe(a + b) {
      assert forall i :: 0 <= i < |a| ==> (a + b)[i] == a[i];
      assert forall i :: 0 <= i < |b| ==> (a + b)[|a| + i] == b[i];
    }
  }

  datatype ResponseState = ResponseState(
    statusCode: nat,
    headers: map<string, string>,
    body: seq<Payload>,
    headersSent: bool,
    finished: bool)
  {
    /** Nothing is written before the headers are flushed, and an ended response has flushed them. */
    predicate Valid()
    {
      (!headersSent ==> body == [] && !finished) && (finished ==> headersSent)
    }
  }

  /** A response before any handler has run: status 200, no headers, nothing sent. */
  const FRESH := ResponseState(200, map[], [], false, false)

  /**
   * The Content-Type after `res.json`: it sets a JSON type only when none has
   * been set yet, and `res.send`, sending the body as a string, then adds a
   * UTF-8 charset parameter to whatever type is there.
   */
  function WithJsonType(headers: map<string, string>): (r: map<string, string>)
    ensures CONTENT_TYPE in r
    ensures CONTENT_TYPE in headers ==> r[CONTENT_TYPE] == headers[CONTENT_TYPE] + UTF8_CHARSET
    ensures CONTENT_TYPE !in headers ==> r[CONTENT_TYPE] == JSON_TYPE + UTF8_CHARSET
    ensures forall k :: k != CONTENT_TYPE ==> (k in r <==> k in headers)
    ensures forall k :: k != CONTENT_TYPE && k in headers ==> r[k] == headers[k]
  {
    var contentType := if CONTENT_TYPE in headers then headers[CONTENT_TYPE] else JSON_TYPE;
    headers[CONTENT_TYPE := contentType + UTF8_CHARSET]
  }

  /**
   * The state after `res.status(code).json(p)` on a response whose headers
   * are not yet sent: the payload is the whole body and the response is over.
   */
  function Replied(s: ResponseState, code: nat, p: Payload): (r: ResponseState)
    requires s.Valid() && !s.headersSent
    ensures r.Valid() && r.finished && r.statusCode == code && r.body == [p]
    ensures r.headers == WithJsonType(s.headers)
  {
    s.(statusCode := code, headers := WithJsonType(s.headers), body := [p], headersSent := true, finished := true)
  }

  /** The body payloads a sequence of stream chunks becomes. */
  function BytesOf(chunks: seq<Chunk>): (r: seq<Payload>)
    ensures |r| == |chunks|
    ensures forall i :: 0 <= i < |chunks| ==> r[i] == Bytes(chunks[i])
  {
    if chunks == [] then [] else [Bytes(chunks[0])] + BytesOf(chunks[1..])
  }

  /**
   * The closed form the chunk loop of `Response.Pipe` is proved against; what
   * it implies for the handlers is stated by the lemmas on their outcomes.
   * The state after `upstream.pipe(res)` has run its course: every chunk is
   * written in order (the first write flushes the headers); on 'end' the
   * response is ended, on 'error' it is left open.
   */
  function Piped(s: ResponseState, up: Upstream): (r: ResponseState)
    requires s.Valid() && !s.finished
    ensures r.Valid()
    ensures r.statusCode == s.statusCode && r.headers == s.headers
    ensures r.body == s.body + BytesOf(up.chunks)
    ensures r.finished <==> !up.fails
    ensures r.headersSent <==> s.headersSent || |up.chunks| > 0 || !up.fails
  {
    s.(body := s.body + BytesOf(up.chunks),
       headersSent := s.headersSent || |up.chunks| > 0 || !up.fails,
       finished := !up.fails)
  }

  /** A stream that fails before its first chunk leaves a fresh response's headers unsent. */
  lemma EarlyFaultLeavesHeadersUnsent(s: ResponseState, up: Upstream)
    requires s.Valid() && !s.headersSent
    requires up.fails && up.chunks == []
    ensures Piped(s, up) == s
  {
  }

  /** The Express response object, mutated in place by the handlers. */
  class Response {
    var statusCode: nat
    var headers: map<string, string>
    var body: seq<Payload>
    var headersSent: bool
    var finished: bool

    function State(): (s: ResponseState)
      reads this
      ensures s.statusCode == statusCode && s.headers == headers && s.body == body
      ensures s.headersSent == headersSent && s.finished == finished
    {
      ResponseState(statusCode, headers, body, headersSent, finished)
    }

    predicate Valid()
      reads this
    {
      State().Valid()
    }

    constructor ()
      ensures State() == FRESH && Valid()
    {
      statusCode, headers, body := 200, map[], [];
      headersSent, finished := false, false;
    }

    /** `res.status(code)`: sets the code, nothing else. */
    method Status(code: nat)
      modifies this
      ensures State() == old(State()).(statusCode := code)
    {
      statusCode := code;
    }

    /**
     * `res.header(name, value)`: only allowed before the headers are flushed.
     * A value with a character Node refuses makes the call throw; `ok` is
     * false then and nothing is stored.
     */
    method Header(name: string, value: string) returns (ok: bool)
      requires !headersSent
      modifies this
      ensures ok == HeaderSafe(value)
      ensures ok ==> State() == old(State()).(headers := old(headers)[name := value])
      ensures !ok ==> State() == old(State())
    {
      ok := forall i :: 0 <= i < |value| ==> IsHeaderChar(value[i]);
      if ok {
        headers := headers[name := value];
      }
    }

    /** `res.json(p)`: defaults the Content-Type, sends `p` as the body and ends the response. */
    method Json(p: Payload)
      requires Valid() && !headersSent
      modifies this
      ensures State() == Replied(old(State()), old(statusCode), p)
    {
      headers := WithJsonType(headers);
      body := body + [p];
      headersSent, finished := true, true;
    }

    /** `res.write(chunk)`: the first write flushes the headers. */
    method Write(chunk: Chunk)
      requires Valid() && !finished
      modifies this
      ensures Valid()
      ensures State() == old(State()).(body := old(body) + [Bytes(chunk)], headersSent := true)
    {
      body := body + [Bytes(chunk)];
      headersSent := true;
    }

    /** `res.end()`: flushes the headers if that has not happened and ends the response. */
    method End()
      requires Valid() && !finished
      modifies this
      ensures Valid()
      ensures State() == old(State()).(headersSent := true, finished := true)
    {
      headersSent, finished := true, true;
    }

    /**
     * `up.pipe(res)`: copy every chunk into the response, then end it, or
     * stop without ending it when the stream fails; `faulted` reports the
     * 'error' event to the caller.
     */
    method Pipe(up: Upstream) returns (faulted: bool)
      requires Valid() && !finished
      modifies this
      ensures Valid()
      ensures faulted == up.fails
      ensures State() == Piped(old(State()), up)
    {
      var i := 0;
      while i < |up.chunks|
        invariant 0 <= i <= |up.chunks|
        invariant Valid() && !finished
        invariant statusCode == old(statusCode) && headers == old(headers)
        invariant body == old(body) + BytesOf(up.chunks[..i])
        invariant headersSent <==> old(headersSent) || i > 0
      {
        assert up.chunks[..i + 1] == up.chunks[..i] + [up.chunks[i]];
        BytesOfAppend(up.chunks[..i], up.chunks[i]);
        Write(up.chunks[i]);
        i := i + 1;
      }
      assert up.chunks[..i] == up.chunks;
      faulted := up.fails;
      if !faulted {
        End();
      }
    }
  }

  lemma {:induction false} BytesOfAppend(chunks: seq<Chunk>, c: Chunk)
    ensures BytesOf(chunks + [c]) == BytesOf(chunks) + [Bytes(c)]
  {
    var r := BytesOf(chunks + [c]);
    assert |r| == |chunks| + 1;
    assert forall i :: 0 <= i < |r| ==> r[i] == (BytesOf(chunks) + [Bytes(c)])[i];
  }
}
