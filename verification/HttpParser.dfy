/**
 The incremental request parser (src/http/http_parser.cpp).

 `HttpRequest` is a value: the parser receives the request built so far and returns the updated one.
 The class keeps the parser's three fields; its methods are proved against the functions here.
 */
module HttpParser {
  import opened Wrappers
  import opened Text
  import opened Numbers

  datatype HttpRequest = HttpRequest(
    verb: string, path: string, query: string, version: string, clientIp: string,
    headers: map<string, string>, body: string, complete: bool, valid: bool)

  function FreshRequest(clientIp: string): HttpRequest {
    HttpRequest("", "", "", "", clientIp, map[], "", false, false)
  }

  datatype ParserState = ParserState(buffer: string, headersParsed: bool, contentLength: nat)

  const FRESH: ParserState := ParserState("", false, 0)

  // ---------------------------------------------------------------------------------------------
  // Request line
  // ---------------------------------------------------------------------------------------------

  predicate IsHexDigit(c: char) {
    '0' <= c <= '9' || 'a' <= c <= 'f' || 'A' <= c <= 'F'
  }

  function HexValue(c: char): (n: nat)
    requires IsHexDigit(c)
    ensures n < 16
  {
    if '0' <= c <= '9' then c as int - '0' as int
    else if 'a' <= c <= 'f' then c as int - 'a' as int + 10
    else c as int - 'A' as int + 10
  }

  /** `s` starts with a percent sign and two hexadecimal digits. */
  predicate StartsEscape(s: string) {
    |s| >= 3 && s[0] == '%' && IsHexDigit(s[1]) && IsHexDigit(s[2])
  }

  function UrlDecode(s: string): string {
    if s == "" then ""
    else if StartsEscape(s) then [(16 * HexValue(s[1]) + HexValue(s[2])) as char] + UrlDecode(s[3..])
    else if s[0] == '+' then " " + UrlDecode(s[1..])
    else [s[0]] + UrlDecode(s[1..])
  }

  predicate IsValidMethod(m: string) {
    m == "GET" || m == "POST" || m == "PUT" || m == "DELETE" || m == "HEAD" || m == "OPTIONS"
  }

  /** Splits the request target at the first question mark, decodes the path and makes it absolute. */
  function SetTarget(uri: string, req: HttpRequest): HttpRequest {
    var cut := FindChar(uri, '?', 0);
    var path := UrlDecode(if cut.Some? then uri[..cut.value] else uri);
    var req1 := if cut.Some? then req.(query := uri[cut.value + 1..]) else req;
    req1.(path := if path == "" || path[0] != '/' then "/" + path else path)
  }

  /** The request fields are assigned as they are read, also when the line turns out to be invalid. */
  function ParseRequestLine(line: string, req: HttpRequest): (bool, HttpRequest) {
    var (verb, rest1) := NextWord(line);
    if verb == "" then (false, req) else
    var req1 := req.(verb := verb);
    var (uri, rest2) := NextWord(rest1);
    if uri == "" then (false, req1) else
    var (version, rest3) := NextWord(rest2);
    if version == "" then (false, req1) else
    var req2 := req1.(version := version);
    if !IsValidMethod(verb) || (version != "HTTP/1.1" && version != "HTTP/1.0") then (false, req2)
    else (true, SetTarget(uri, req2))
  }

  // ---------------------------------------------------------------------------------------------
  // Headers
  // ---------------------------------------------------------------------------------------------

  /** `getline` leaves the carriage return of a CRLF. */
  function StripReturn(raw: string): string {
    if raw != "" && raw[|raw| - 1] == '\r' then raw[..|raw| - 1] else raw
  }

  function HeaderLine(raw: string, headers: map<string, string>): map<string, string> {
    var line := StripReturn(raw);
    match FindChar(line, ':', 0)
    case None => headers
    case Some(colon) => headers[ToLower(Trim(line[..colon])) := Trim(line[colon + 1..])]
  }

  /** One `getline` at a time; a later line overrides an earlier one. */
  function Headers(section: string, headers: map<string, string>): map<string, string>
    decreases |section|
  {
    if section == "" then headers
    else
      match FindChar(section, '\n', 0)
      case None => HeaderLine(section, headers)
      case Some(eol) => Headers(section[eol + 1..], HeaderLine(section[..eol], headers))
  }

  function ContentLength(headers: map<string, string>): nat {
    if "content-length" in headers then
      match Stoul(headers["content-length"])
      case Some(n) => n
      case None => 0
    else 0
  }

  // ---------------------------------------------------------------------------------------------
  // One call of `parse`
  // ---------------------------------------------------------------------------------------------

  datatype Outcome = Outcome(parser: ParserState, request: HttpRequest, done: bool)

  /** The request line and the headers. */
  function ParseSection(section: string, req: HttpRequest): (bool, HttpRequest) {
    match Find(section, CRLF, 0)
    case None => ParseRequestLine(section, req)
    case Some(eol) =>
      var (ok, req1) := ParseRequestLine(section[..eol], req);
      if !ok then (false, req1) else (true, req1.(headers := Headers(section[eol + 2..], req1.headers)))
  }

  function ParseBody(p: ParserState, req: HttpRequest): Outcome {
    if p.contentLength > 0 then
      if |p.buffer| >= p.contentLength then
        Outcome(p.(buffer := p.buffer[p.contentLength..]),
                req.(body := p.buffer[..p.contentLength], complete := true, valid := true), true)
      else Outcome(p, req, false)
    else Outcome(p, req.(complete := true, valid := true), true)
  }

  function Step(p: ParserState, req: HttpRequest, data: string): Outcome {
    var buffer := p.buffer + data;
    if p.headersParsed then ParseBody(p.(buffer := buffer), req)
    else
      match Find(buffer, BLANK_LINE, 0)
      case None => Outcome(p.(buffer := buffer), req, false)
      case Some(end) =>
        var (ok, req1) := ParseSection(buffer[..end], req);
        if !ok then Outcome(p.(buffer := buffer), req1.(valid := false), true)
        else ParseBody(ParserState(buffer[end + 4..], true, ContentLength(req1.headers)), req1)
  }

  // ---------------------------------------------------------------------------------------------
  // Chunk-split invariance
  // ---------------------------------------------------------------------------------------------

  function Concat(pieces: seq<string>): string {
    if pieces == [] then "" else pieces[0] + Concat(pieces[1..])
  }

  datatype FeedResult = FeedResult(outcome: Outcome, unfed: seq<string>)

  /** Feeds the pieces one by one until `parse` returns true. */
  function Feed(p: ParserState, req: HttpRequest, pieces: seq<string>): FeedResult
    decreases |pieces|
  {
    if pieces == [] then FeedResult(Outcome(p, req, false), [])
    else
      var o := Step(p, req, pieces[0]);
      if o.done then FeedResult(o, pieces[1..]) else Feed(o.parser, o.request, pieces[1..])
  }

  lemma BodySplits(p: ParserState, req: HttpRequest, b: string)
    requires p.headersParsed
    ensures ParseBody(p, req).done ==>
              ParseBody(p.(buffer := p.buffer + b), req) ==
              ParseBody(p, req).(parser := ParseBody(p, req).parser.(buffer := ParseBody(p, req).parser.buffer + b))
    ensures !ParseBody(p, req).done ==> ParseBody(p, req) == Outcome(p, req, false)
  {
    var n := p.contentLength;
    if 0 < n <= |p.buffer| {
      assert (p.buffer + b)[..n] == p.buffer[..n] && (p.buffer + b)[n..] == p.buffer[n..] + b;
    }
  }

  /** Cutting a call in two: an unfinished first half is resumed, a finished one leaves the rest in the buffer. */
  lemma StepSplits(p: ParserState, req: HttpRequest, a: string, b: string)
    ensures
      var o, whole := Step(p, req, a), Step(p, req, a + b);
      && (o.done ==> whole == o.(parser := o.parser.(buffer := o.parser.buffer + b)))
      && (!o.done ==> whole == Step(o.parser, o.request, b))
  {
    var buffer := p.buffer + a;
    assert p.buffer + (a + b) == buffer + b;
    if p.headersParsed {
      BodySplits(p.(buffer := buffer), req, b);
    } else if Find(buffer, BLANK_LINE, 0).Some? {
      var end := Find(buffer, BLANK_LINE, 0).value;
      FindInExtension(buffer, b, BLANK_LINE, 0);
      assert (buffer + b)[..end] == buffer[..end];
      assert (buffer + b)[end + 4..] == buffer[end + 4..] + b;
      var (ok, req1) := ParseSection(buffer[..end], req);
      if ok {
        BodySplits(ParserState(buffer[end + 4..], true, ContentLength(req1.headers)), req1, b);
      }
    }
  }

  /**
   Chunk-split invariance: however a byte string is cut, from any parser state, feeding the pieces
   ends as the single call does: same verdict, same request, and the parser's leftover followed by
   the unfed pieces is the single call's leftover.  If the single call needs more data, so did every piece.
   */
  lemma {:induction false} FeedingPiecesIsOneCall(p: ParserState, req: HttpRequest, pieces: seq<string>)
    requires pieces != []
    ensures
      var o, f := Step(p, req, Concat(pieces)), Feed(p, req, pieces);
      && f.outcome.done == o.done && f.outcome.request == o.request
      && o.parser == f.outcome.parser.(buffer := f.outcome.parser.buffer + Concat(f.unfed))
      && (!o.done ==> f.unfed == [])
    decreases |pieces|
  {
    hide Step;
    var head, tail := pieces[0], pieces[1..];
    var o := Step(p, req, head);
    StepSplits(p, req, head, Concat(tail));
    if tail == [] {
      assert head + Concat(tail) == head;
      assert o.parser.buffer + Concat(tail) == o.parser.buffer;
    } else if !o.done {
      FeedingPiecesIsOneCall(o.parser, o.request, tail);
    }
  }

  // ---------------------------------------------------------------------------------------------
  // What a parsed request looks like
  // ---------------------------------------------------------------------------------------------

  ghost predicate CleanName(k: string) {
    Trimmed(k) && ToLower(k) == k && OneLine(k) && ':' !in k
  }

  ghost predicate CleanValue(v: string) {
    Trimmed(v) && OneLine(v)
  }

  ghost predicate CleanHeaders(headers: map<string, string>) {
    forall k :: k in headers ==> CleanName(k) && CleanValue(headers[k])
  }

  /** The request `parse` hands over when it returns true with a valid request. */
  ghost predicate Parsed(req: HttpRequest) {
    && IsValidMethod(req.verb)
    && req.path != "" && req.path[0] == '/'
    && (forall c :: c in req.query ==> !IsSpace(c))
    && CleanHeaders(req.headers)
    && |req.body| == ContentLength(req.headers)
    && req.complete && req.valid
  }

  lemma TrimIsPart(s: string)
    ensures Trimmed(Trim(s)) && forall c :: c in Trim(s) ==> c in s
  {
    var i, j := TrimSplits(s);
  }

  lemma LowerKeeps(s: string)
    requires Trimmed(s)
    ensures Trimmed(ToLower(s)) && ToLower(ToLower(s)) == ToLower(s)
    ensures ':' !in s ==> ':' !in ToLower(s)
    ensures '\n' !in s ==> '\n' !in ToLower(s)
  {
    var t := ToLower(s);
    assert forall i :: 0 <= i < |s| ==> t[i] == Lower(s[i]);
  }

  lemma NameIsClean(name: string)
    requires OneLine(name) && ':' !in name
    ensures CleanName(ToLower(Trim(name)))
  {
    TrimIsPart(name);
    LowerKeeps(Trim(name));
  }

  lemma ValueIsClean(value: string)
    requires OneLine(value)
    ensures CleanValue(Trim(value))
  {
    TrimIsPart(value);
  }

  lemma HeaderLineIsClean(raw: string, headers: map<string, string>)
    requires OneLine(raw) && CleanHeaders(headers)
    ensures CleanHeaders(HeaderLine(raw, headers))
  {
    hide CleanName, CleanValue, ToLower, Trim;
    var line := StripReturn(raw);
    var colon := FindChar(line, ':', 0);
    if colon.Some? {
      var name, value := line[..colon.value], line[colon.value + 1..];
      assert line[0..colon.value] == name;
      NameIsClean(name);
      ValueIsClean(value);
    }
  }

  lemma {:induction false} HeadersAreClean(section: string, headers: map<string, string>)
    requires CleanHeaders(headers)
    ensures CleanHeaders(Headers(section, headers))
    decreases |section|
  {
    hide CleanHeaders, HeaderLine;
    if section != "" {
      var eol := FindChar(section, '\n', 0);
      if eol.Some? {
        assert section[0..eol.value] == section[..eol.value];
        HeaderLineIsClean(section[..eol.value], headers);
        HeadersAreClean(section[eol.value + 1..], HeaderLine(section[..eol.value], headers));
      } else {
        assert section[0..] == section;
        HeaderLineIsClean(section, headers);
      }
    }
  }

  lemma RequestLineShape(line: string, clientIp: string)
    requires ParseRequestLine(line, FreshRequest(clientIp)).0
    ensures
      var req := ParseRequestLine(line, FreshRequest(clientIp)).1;
      && IsValidMethod(req.verb) && req.path != "" && req.path[0] == '/'
      && (forall c :: c in req.query ==> !IsSpace(c))
      && req.headers == map[] && req.body == "" && req.clientIp == clientIp
  {
    NextWordIsWord(NextWord(line).1);
  }

  /** Every complete valid request has the shape the proxy relies on. */
  lemma ValidRequestIsParsed(clientIp: string, data: string)
    requires Step(FRESH, FreshRequest(clientIp), data).done && Step(FRESH, FreshRequest(clientIp), data).request.valid
    ensures Parsed(Step(FRESH, FreshRequest(clientIp), data).request)
  {
    assert "" + data == data;
    var end := Find(data, BLANK_LINE, 0).value;
    var section := data[..end];
    var eol := Find(section, CRLF, 0);
    var line := if eol.Some? then section[..eol.value] else section;
    RequestLineShape(line, clientIp);
    if eol.Some? {
      HeadersAreClean(section[eol.value + 2..], map[]);
    }
  }

  // ---------------------------------------------------------------------------------------------
  // The class
  // ---------------------------------------------------------------------------------------------

  class HttpParser {
    var buffer: string
    var headersParsed: bool
    var contentLength: nat

    ghost function State(): ParserState
      reads this
    {
      ParserState(buffer, headersParsed, contentLength)
    }

    constructor ()
      ensures State() == FRESH
    {
      buffer, headersParsed, contentLength := "", false, 0;
    }

    method Parse(data: string, request: HttpRequest) returns (done: bool, updated: HttpRequest)
      modifies this
      ensures Outcome(State(), updated, done) == Step(old(State()), request, data)
    {
      hide Headers, ParseRequestLine, ContentLength, OccursAt, ParseBody;
      buffer := buffer + data;
      updated := request;
      if !headersParsed {
        var headerEnd := Find(buffer, BLANK_LINE, 0);
        if headerEnd.None? {
          return false, updated;
        }
        var section := buffer[..headerEnd.value];
        var eol := Find(section, CRLF, 0);
        var requestLine := if eol.Some? then section[..eol.value] else section;
        var ok;
        ok, updated := ReadRequestLine(requestLine, updated);
        if !ok {
          return true, updated.(valid := false);
        }
        if eol.Some? {
          var headers := ParseHeaders(section[eol.value + 2..], updated.headers);
          updated := updated.(headers := headers);
        }
        headersParsed := true;
        buffer := buffer[headerEnd.value + 4..];
        contentLength := ContentLength(updated.headers);
      }
      done, updated := TakeBody(updated);
    }

    /** Stage 2 of `parse`: the body, when one is announced. */
    method TakeBody(request: HttpRequest) returns (done: bool, updated: HttpRequest)
      modifies this`buffer
      ensures Outcome(State(), updated, done) == ParseBody(old(State()), request)
    {
      if contentLength > 0 {
        if |buffer| >= contentLength {
          updated := request.(body := buffer[..contentLength], complete := true, valid := true);
          buffer := buffer[contentLength..];
          return true, updated;
        }
        return false, request;
      }
      return true, request.(complete := true, valid := true);
    }

    method Reset()
      modifies this
      ensures State() == FRESH
    {
      buffer, headersParsed, contentLength := "", false, 0;
    }
  }

  /** `parse_request_line`: the fields are assigned one after the other. */
  method ReadRequestLine(line: string, request: HttpRequest) returns (ok: bool, updated: HttpRequest)
    ensures (ok, updated) == ParseRequestLine(line, request)
  {
    hide NextWord;
    updated := request;
    var (verb, rest1) := NextWord(line);
    if verb == "" {
      return false, updated;
    }
    updated := updated.(verb := verb);
    var (uri, rest2) := NextWord(rest1);
    if uri == "" {
      return false, updated;
    }
    var (version, rest3) := NextWord(rest2);
    if version == "" {
      return false, updated;
    }
    updated := updated.(version := version);
    if !IsValidMethod(verb) || (version != "HTTP/1.1" && version != "HTTP/1.0") {
      return false, updated;
    }
    var cut := FindChar(uri, '?', 0);
    var path := DecodeUrl(if cut.Some? then uri[..cut.value] else uri);
    if cut.Some? {
      updated := updated.(query := uri[cut.value + 1..]);
    }
    if path == "" || path[0] != '/' {
      path := "/" + path;
    }
    updated := updated.(path := path);
    return true, updated;
  }

  method AddHeader(raw: string, headers: map<string, string>) returns (updated: map<string, string>)
    ensures updated == HeaderLine(raw, headers)
  {
    var line := raw;
    if line != "" && line[|line| - 1] == '\r' {
      line := line[..|line| - 1];
    }
    var colon := FindChar(line, ':', 0);
    if colon.None? {
      return headers;
    }
    updated := headers[ToLower(Trim(line[..colon.value])) := Trim(line[colon.value + 1..])];
  }

  /** `parse_headers`: one line per iteration. */
  method ParseHeaders(section: string, initial: map<string, string>) returns (headers: map<string, string>)
    ensures headers == Headers(section, initial)
  {
    hide HeaderLine;
    headers := initial;
    var rest := section;
    while rest != ""
      invariant Headers(rest, headers) == Headers(section, initial)
      decreases |rest|
    {
      var eol := FindChar(rest, '\n', 0);
      if eol.None? {
        headers := AddHeader(rest, headers);
        return;
      }
      headers := AddHeader(rest[..eol.value], headers);
      rest := rest[eol.value + 1..];
    }
  }

  /** `url_decode`: one character or escape per iteration. */
  method DecodeUrl(str: string) returns (result: string)
    ensures result == UrlDecode(str)
  {
    result := "";
    var i := 0;
    while i < |str|
      invariant 0 <= i <= |str|
      invariant result + UrlDecode(str[i..]) == UrlDecode(str)
    {
      ghost var rest := str[i..];
      assert str[i + 1..] == rest[1..] && rest != "";
      if str[i] == '%' && i + 2 < |str| && IsHexDigit(str[i + 1]) && IsHexDigit(str[i + 2]) {
        assert StartsEscape(rest) && str[i + 3..] == rest[3..];
        result := result + [(16 * HexValue(str[i + 1]) + HexValue(str[i + 2])) as char];
        i := i + 3;
      } else {
        assert !StartsEscape(rest);
        hide HexValue, StartsEscape, IsHexDigit;
        result := result + if str[i] == '+' then " " else [str[i]];
        i := i + 1;
      }
    }
  }
}
