/**
 The request the proxy sends to a backend (`build_backend_request`, src/modules/proxy_handler.cpp)
 and what the server's own parser makes of it.
 */
module ProxyRequest {
  import opened Wrappers
  import opened Text
  import opened HeaderText
  import opened HttpParser

  /** The query, unless it is empty. */
  function QueryPart(req: HttpRequest): string {
    if req.query != "" then "?" + req.query else ""
  }

  function RequestLine(req: HttpRequest): string {
    req.verb + " " + req.path + QueryPart(req) + " HTTP/1.1"
  }

  function Identity(host: string, ip: string): seq<Header> {
    [("Host", host), ("X-Forwarded-For", ip), ("X-Real-IP", ip), ("X-Forwarded-Proto", "http"), ("Connection", "close")]
  }

  predicate Relayed(key: string) {
    key != "host" && key != "connection"
  }

  /** The client's headers in iteration order, without host and connection. */
  function Relay(headers: map<string, string>, order: seq<string>): seq<Header>
    requires forall k :: k in order ==> k in headers
  {
    if order == [] then []
    else
      var last := order[|order| - 1];
      Relay(headers, order[..|order| - 1]) + if Relayed(last) then [(last, headers[last])] else []
  }

  function BackendRequest(req: HttpRequest, host: string, ip: string, order: seq<string>): string
    requires forall k :: k in order ==> k in req.headers
  {
    RequestLine(req) + CRLF + Print(Identity(host, ip) + Relay(req.headers, order)) + CRLF + req.body
  }

  method BuildBackendRequest(req: HttpRequest, host: string, ip: string, order: seq<string>) returns (out: string)
    requires forall k :: k in order ==> k in req.headers
    ensures out == BackendRequest(req, host, ip, order)
  {
    hide Field;
    out := req.verb + " " + req.path;
    if req.query != "" {
      out := out + ("?" + req.query);
    }
    out := out + " HTTP/1.1" + CRLF;
    ghost var start := RequestLine(req) + CRLF;
    assert out == start + Print([]);
    hide Print, RequestLine;
    out := PrintIdentity(start, out, host, ip);
    out := RelayHeaders(start, Identity(host, ip), out, req.headers, order);
    out := out + CRLF;
    out := out + req.body;
  }

  /** The five lines the proxy writes about itself. */
  method PrintIdentity(ghost start: string, text: string, host: string, ip: string) returns (out: string)
    requires text == start + Print([])
    ensures out == start + Print(Identity(host, ip))
  {
    hide Print, Field;
    ghost var hs := [];
    out, hs := EmitField(start, hs, text, "Host", host);
    out, hs := EmitField(start, hs, out, "X-Forwarded-For", ip);
    out, hs := EmitField(start, hs, out, "X-Real-IP", ip);
    out, hs := EmitField(start, hs, out, "X-Forwarded-Proto", "http");
    out, hs := EmitField(start, hs, out, "Connection", "close");
    assert hs == Identity(host, ip);
  }

  /** Relays the client's headers, one per iteration. */
  method RelayHeaders(ghost start: string, ghost hs: seq<Header>, text: string, headers: map<string, string>,
                      order: seq<string>)
    returns (out: string)
    requires text == start + Print(hs) && forall k :: k in order ==> k in headers
    ensures out == start + Print(hs + Relay(headers, order))
  {
    out := text;
    ghost var printed := hs;
    var i := 0;
    while i < |order|
      invariant 0 <= i <= |order|
      invariant printed == hs + Relay(headers, order[..i]) && out == start + Print(printed)
    {
      hide Print, Field;
      var key := order[i];
      assert order[..i + 1][..i] == order[..i] && order[..i + 1][i] == key;
      if key != "host" && key != "connection" {
        out, printed := EmitField(start, printed, out, key, headers[key]);
      }
      i := i + 1;
    }
    assert order[..i] == order;
  }

  // ---------------------------------------------------------------------------------------------
  // Reading the printed headers back
  // ---------------------------------------------------------------------------------------------

  /** The header map after reading `hs` in order. */
  function Collect(hs: seq<Header>, headers: map<string, string>): map<string, string> {
    if hs == [] then headers
    else
      var h := hs[|hs| - 1];
      Collect(hs[..|hs| - 1], headers)[ToLower(Trim(h.0)) := Trim(h.1)]
  }

  lemma {:induction false} CollectFirst(hs: seq<Header>, headers: map<string, string>)
    requires hs != []
    ensures Collect(hs, headers) == Collect(hs[1..], headers[ToLower(Trim(hs[0].0)) := Trim(hs[0].1)])
  {
    if |hs| > 1 {
      var init := hs[..|hs| - 1];
      CollectFirst(init, headers);
      assert init[1..] == hs[1..][..|hs| - 2];
    } else {
      assert hs[..0] == [];
    }
  }

  /** A clean line gives its name and value, trimmed. */
  lemma ReadClean(key: string, v: string, headers: map<string, string>)
    requires ':' !in key
    ensures
      var line := key + ": " + v;
      FindChar(line, ':', 0) == Some(|key|) && line[..|key|] == key && Trim(line[|key| + 1..]) == Trim(v)
  {
    var line := key + ": " + v;
    assert line == key + [':'] + ([' '] + v);
    FindCharAt(key, ':', [' '] + v);
    assert line[|key| + 1..] == [' '] + v;
    TrimIgnoresBlanks(v, ' ');
  }

  lemma StripFromLine(h: Header)
    ensures StripReturn(Line(h) + "\r") == Line(h)
    ensures StripReturn(Line(h)) == Line((h.0, StripReturn(h.1)))
    ensures Trim(StripReturn(h.1)) == Trim(h.1)
  {
    var line, v := Line(h), h.1;
    assert (line + "\r")[..|line|] == line;
    if v != "" && v[|v| - 1] == '\r' {
      var w := v[..|v| - 1];
      assert w + ['\r'] == v;
      TrimIgnoresBlanks(w, '\r');
      assert line[..|line| - 1] == Line((h.0, w));
    }
  }

  /** One printed header, with or without the carriage return that `getline` leaves. */
  lemma ReadLine(h: Header, headers: map<string, string>)
    requires Printable(h)
    ensures HeaderLine(Line(h), headers) == headers[ToLower(Trim(h.0)) := Trim(h.1)]
    ensures HeaderLine(Line(h) + "\r", headers) == headers[ToLower(Trim(h.0)) := Trim(h.1)]
  {
    ReadClean(h.0, h.1, headers);
    ReadClean(h.0, StripReturn(h.1), headers);
    StripFromLine(h);
    hide Trim, ToLower, StripReturn;
  }

  lemma {:induction false} ReadLines(hs: seq<Header>, headers: map<string, string>)
    requires hs != [] && AllPrintable(hs)
    ensures Headers(Section(Lines(hs)), headers) == Collect(hs, headers)
    decreases |hs|
  {
    var line, rest := Line(hs[0]), hs[1..];
    assert Printable(hs[0]) && OneLine(line);
    ReadLine(hs[0], headers);
    CollectFirst(hs, headers);
    SectionOfLines(hs);
    hide *;
    if rest == [] {
      OneLineHeaders(line, headers);
      CollectNone(rest, HeaderLine(line, headers));
    } else {
      var updated := HeaderLine(line + "\r", headers);
      FirstOfHeaders(line + "\r", Section(Lines(rest)), headers);
      RestPrintable(hs);
      ReadLines(rest, updated);
    }
  }

  lemma CollectNone(hs: seq<Header>, headers: map<string, string>)
    requires hs == []
    ensures Collect(hs, headers) == headers
  {
  }

  lemma OneLineHeaders(line: string, headers: map<string, string>)
    requires line != "" && OneLine(line)
    ensures Headers(line, headers) == HeaderLine(line, headers)
  {
    assert FindChar(line, '\n', 0).None?;
  }

  lemma FirstOfHeaders(line: string, rest: string, headers: map<string, string>)
    requires OneLine(line)
    ensures Headers(line + ['\n'] + rest, headers) == Headers(rest, HeaderLine(line, headers))
  {
    FindCharAt(line, '\n', rest);
    var s := line + ['\n'] + rest;
    assert s[..|line|] == line && s[|line| + 1..] == rest;
  }

  // ---------------------------------------------------------------------------------------------
  // The whole message
  // ---------------------------------------------------------------------------------------------

  lemma SectionParses(first: string, hs: seq<Header>, req: HttpRequest)
    requires OneLine(first) && hs != [] && AllPrintable(hs) && ParseRequestLine(first, req).0
    ensures
      var req1 := ParseRequestLine(first, req).1;
      ParseSection(first + CRLF + Section(Lines(hs)), req) == (true, req1.(headers := Collect(hs, req1.headers)))
  {
    hide ParseRequestLine, Headers, Collect, AllPrintable, OccursAt;
    ReadLines(hs, ParseRequestLine(first, req).1.headers);
    var section := Section(Lines(hs));
    hide Section, Lines;
    FindCrlfAfterLine(first, section);
    assert (first + CRLF + section)[..|first|] == first && (first + CRLF + section)[|first| + 2..] == section;
  }

  /** How the parser reads a printed message: the request line, then the collected headers, then the body. */
  lemma StepOnMessage(first: string, hs: seq<Header>, body: string, client: string)
    requires OneLine(first) && hs != [] && AllPrintable(hs)
    requires ParseRequestLine(first, FreshRequest(client)).0
    ensures
      var req := ParseRequestLine(first, FreshRequest(client)).1;
      var headers := Collect(hs, req.headers);
      Step(FRESH, FreshRequest(client), first + CRLF + Print(hs) + CRLF + body) ==
      ParseBody(ParserState(body, true, ContentLength(headers)), req.(headers := headers))
  {
    var text := first + CRLF + Print(hs) + CRLF + body;
    assert FRESH.buffer + text == text;
    hide ParseSection, ParseBody, Collect, ContentLength, AllPrintable, Print, OccursAt, WellFormedLines, Terminated,
         Section;
    MessageLines(first, hs);
    FindBlankLine([first] + Lines(hs), body);
    SectionParses(first, hs, FreshRequest(client));
  }

  // ---------------------------------------------------------------------------------------------
  // The request line
  // ---------------------------------------------------------------------------------------------

  /** A decoded path that survives being printed and decoded again; the proxy's caller can test it. */
  ghost predicate PlainPath(path: string) {
    forall i :: 0 <= i < |path| ==> !IsSpace(path[i]) && path[i] != '?' && path[i] != '+' && !StartsEscape(path[i..])
  }

  lemma {:induction false} PlainDecodes(path: string)
    requires PlainPath(path)
    ensures UrlDecode(path) == path
  {
    if path != "" {
      assert path[0..] == path;
      var rest := path[1..];
      forall i | 0 <= i < |rest| ensures rest[i..] == path[i + 1..] && rest[i] == path[i + 1] {
      }
      PlainDecodes(rest);
    }
  }

  lemma MethodIsWord(m: string)
    requires IsValidMethod(m)
    ensures IsWord(m)
  {
  }

  lemma PlainTarget(req: HttpRequest, into: HttpRequest)
    requires Parsed(req) && PlainPath(req.path) && into.query == ""
    ensures IsWord(req.path + QueryPart(req))
    ensures SetTarget(req.path + QueryPart(req), into) == into.(path := req.path, query := req.query)
  {
    var path, uri := req.path, req.path + QueryPart(req);
    PlainDecodes(path);
    assert '?' !in path;
    if req.query != "" {
      assert uri == path + ['?'] + req.query;
      FindCharAt(path, '?', req.query);
      assert uri[..|path|] == path && uri[|path| + 1..] == req.query;
    } else {
      assert uri == path && uri[0..] == uri;
    }
  }

  lemma RequestLineWords(verb: string, uri: string)
    requires IsWord(verb) && IsWord(uri)
    ensures
      var (w1, r1) := NextWord(verb + " " + uri + " HTTP/1.1");
      var (w2, r2) := NextWord(r1);
      var (w3, r3) := NextWord(r2);
      w1 == verb && w2 == uri && w3 == "HTTP/1.1"
  {
    var version := "HTTP/1.1";
    assert IsWord(version);
    assert verb + " " + uri + " HTTP/1.1" == verb + (" " + (uri + (" " + (version + ""))));
    NextWordIs(verb, " " + (uri + (" " + (version + ""))));
    NextWordIs(uri, " " + (version + ""));
    NextWordIs(version, "");
  }

  lemma WordsParse(verb: string, uri: string, into: HttpRequest)
    requires IsWord(verb) && IsWord(uri) && IsValidMethod(verb)
    ensures ParseRequestLine(verb + " " + uri + " HTTP/1.1", into) ==
            (true, SetTarget(uri, into.(verb := verb, version := "HTTP/1.1")))
  {
    RequestLineWords(verb, uri);
    hide NextWord, SetTarget, IsValidMethod;
    assert verb != "" && uri != "";
  }

  lemma WordsAreOneLine(verb: string, uri: string)
    requires IsWord(verb) && IsWord(uri)
    ensures OneLine(verb + " " + uri + " HTTP/1.1")
  {
    assert OneLine(verb) && OneLine(uri);
    hide IsWord;
  }

  lemma RequestLineIs(req: HttpRequest)
    ensures RequestLine(req) == req.verb + " " + (req.path + QueryPart(req)) + " HTTP/1.1"
  {
    hide QueryPart;
  }

  lemma ParsedShape(req: HttpRequest)
    requires Parsed(req)
    ensures IsValidMethod(req.verb) && IsWord(req.verb) && req.path != "" && req.path[0] == '/'
  {
    MethodIsWord(req.verb);
  }

  lemma RequestLineParses(req: HttpRequest, client: string)
    requires Parsed(req) && PlainPath(req.path)
    ensures ParseRequestLine(RequestLine(req), FreshRequest(client)) ==
            (true, FreshRequest(client).(verb := req.verb, path := req.path, query := req.query, version := "HTTP/1.1"))
    ensures OneLine(RequestLine(req))
  {
    var uri, start := req.path + QueryPart(req), FreshRequest(client);
    assert start.query == "";
    hide *;
    ParsedShape(req);
    RequestLineIs(req);
    PlainTarget(req, start.(verb := req.verb, version := "HTTP/1.1"));
    WordsParse(req.verb, uri, start);
    WordsAreOneLine(req.verb, uri);
  }

  // ---------------------------------------------------------------------------------------------
  // The headers
  // ---------------------------------------------------------------------------------------------

  /** What the backend sees: the proxy's headers, overridden by the client's except host and connection. */
  function ForwardedHeaders(headers: map<string, string>, host: string, ip: string): map<string, string> {
    map["host" := Trim(host), "x-forwarded-for" := Trim(ip), "x-real-ip" := Trim(ip),
        "x-forwarded-proto" := "http", "connection" := "close"]
    + (headers - {"host", "connection"})
  }

  lemma LowerIs(s: string, t: string)
    requires Trimmed(s) && |s| == |t| && forall i :: 0 <= i < |s| ==> Lower(s[i]) == t[i]
    ensures ToLower(Trim(s)) == t
  {
  }

  lemma ForwardedNames()
    ensures ToLower(Trim("X-Forwarded-For")) == "x-forwarded-for"
    ensures ToLower(Trim("X-Forwarded-Proto")) == "x-forwarded-proto"
  {
    hide Trim, ToLower;
    LowerIs("X-Forwarded-For", "x-forwarded-for");
    LowerIs("X-Forwarded-Proto", "x-forwarded-proto");
  }

  lemma IdentityNames()
    ensures ToLower(Trim("Host")) == "host" && ToLower(Trim("X-Forwarded-For")) == "x-forwarded-for"
    ensures ToLower(Trim("X-Real-IP")) == "x-real-ip" && ToLower(Trim("X-Forwarded-Proto")) == "x-forwarded-proto"
    ensures ToLower(Trim("Connection")) == "connection" && Trim("http") == "http" && Trim("close") == "close"
  {
    hide Trim, ToLower;
    ForwardedNames();
    LowerIs("Host", "host");
    LowerIs("X-Real-IP", "x-real-ip");
    LowerIs("Connection", "connection");
    TrimmedIsFixed("http");
    TrimmedIsFixed("close");
  }

  lemma CollectAppend(hs: seq<Header>, key: string, value: string, headers: map<string, string>)
    ensures Collect(hs + [(key, value)], headers) == Collect(hs, headers)[ToLower(Trim(key)) := Trim(value)]
  {
    assert (hs + [(key, value)])[..|hs|] == hs;
  }

  lemma CollectIdentity(host: string, ip: string)
    ensures Collect(Identity(host, ip), map[]) == ForwardedHeaders(map[], host, ip)
  {
    IdentityNames();
    hide *;
    CollectNone([], map[]);
    CollectAppend([], "Host", host, map[]);
    CollectAppend([] + [("Host", host)], "X-Forwarded-For", ip, map[]);
    CollectAppend([] + [("Host", host)] + [("X-Forwarded-For", ip)], "X-Real-IP", ip, map[]);
    CollectAppend([] + [("Host", host)] + [("X-Forwarded-For", ip)] + [("X-Real-IP", ip)],
                  "X-Forwarded-Proto", "http", map[]);
    CollectAppend([] + [("Host", host)] + [("X-Forwarded-For", ip)] + [("X-Real-IP", ip)]
                  + [("X-Forwarded-Proto", "http")],
                  "Connection", "close", map[]);
    IdentityMap(host, ip);
  }

  lemma IdentityMap(host: string, ip: string)
    ensures Identity(host, ip) ==
            [] + [("Host", host)] + [("X-Forwarded-For", ip)] + [("X-Real-IP", ip)] + [("X-Forwarded-Proto", "http")]
            + [("Connection", "close")]
    ensures ForwardedHeaders(map[], host, ip) ==
            map["host" := Trim(host)]["x-forwarded-for" := Trim(ip)]["x-real-ip" := Trim(ip)]
              ["x-forwarded-proto" := "http"]["connection" := "close"]
  {
    hide Trim;
  }

  /** The relayed part of the header map after the keys in `order`. */
  function RelayedMap(headers: map<string, string>, order: seq<string>): map<string, string>
    requires forall k :: k in order ==> k in headers
  {
    map k | k in headers && k in order && Relayed(k) :: headers[k]
  }

  lemma RelayStep(headers: map<string, string>, order: seq<string>)
    requires order != [] && forall k :: k in order ==> k in headers
    ensures
      var past, last := order[..|order| - 1], order[|order| - 1];
      && (Relayed(last) ==>
           && Relay(headers, order) == Relay(headers, past) + [(last, headers[last])]
           && RelayedMap(headers, order) == RelayedMap(headers, past)[last := headers[last]])
      && (!Relayed(last) ==>
           Relay(headers, order) == Relay(headers, past) && RelayedMap(headers, order) == RelayedMap(headers, past))
  {
    var past, last := order[..|order| - 1], order[|order| - 1];
    assert forall k :: k in order <==> k in past || k == last;
  }

  lemma {:induction false} RelayPrints(headers: map<string, string>, order: seq<string>)
    requires CleanHeaders(headers) && forall k :: k in order ==> k in headers
    ensures AllPrintable(Relay(headers, order))
  {
    if order != [] {
      var last := order[|order| - 1];
      RelayPrints(headers, order[..|order| - 1]);
      assert CleanName(last) && CleanValue(headers[last]) && Printable((last, headers[last]));
    }
  }

  /** However the map is iterated, the relayed headers override what was collected before them. */
  lemma {:induction false} CollectRelay(hs: seq<Header>, headers: map<string, string>, order: seq<string>)
    requires CleanHeaders(headers) && forall k :: k in order ==> k in headers
    ensures Collect(hs + Relay(headers, order), map[]) == Collect(hs, map[]) + RelayedMap(headers, order)
  {
    if order == [] {
      assert hs + Relay(headers, order) == hs;
      assert RelayedMap(headers, order) == map[];
    } else {
      var past, last := order[..|order| - 1], order[|order| - 1];
      CollectRelay(hs, headers, past);
      RelayStep(headers, order);
      NameIsFixed(last, headers[last], headers);
      hide *;
      CollectAppend(hs + Relay(headers, past), last, headers[last], map[]);
      assert hs + (Relay(headers, past) + [(last, headers[last])]) ==
             (hs + Relay(headers, past)) + [(last, headers[last])];
      OverrideLast(Collect(hs, map[]), RelayedMap(headers, past), last, headers[last]);
    }
  }

  lemma OverrideLast(a: map<string, string>, b: map<string, string>, key: string, value: string)
    ensures (a + b)[key := value] == a + b[key := value]
  {
  }

  lemma NameIsFixed(key: string, value: string, headers: map<string, string>)
    requires CleanHeaders(headers) && key in headers && headers[key] == value
    ensures ToLower(Trim(key)) == key && Trim(value) == value
  {
    assert CleanName(key) && CleanValue(headers[key]);
    TrimmedIsFixed(key);
    TrimmedIsFixed(value);
  }

  // ---------------------------------------------------------------------------------------------
  // Forwarding
  // ---------------------------------------------------------------------------------------------

  lemma AllRelayed(headers: map<string, string>, host: string, ip: string, order: seq<string>)
    requires forall k :: k in order <==> k in headers
    ensures ForwardedHeaders(map[], host, ip) + RelayedMap(headers, order) == ForwardedHeaders(headers, host, ip)
    ensures ContentLength(ForwardedHeaders(headers, host, ip)) == ContentLength(headers)
  {
    hide Trim;
    assert RelayedMap(headers, order) == headers - {"host", "connection"};
  }

  /** The header map the backend parses out of the proxy's request. */
  lemma ForwardedMap(headers: map<string, string>, host: string, ip: string, order: seq<string>)
    requires CleanHeaders(headers) && forall k :: k in order <==> k in headers
    requires OneLine(host) && OneLine(ip)
    ensures
      var hs := Identity(host, ip) + Relay(headers, order);
      && hs != [] && AllPrintable(hs)
      && Collect(hs, map[]) == ForwardedHeaders(headers, host, ip)
  {
    IdentityPrints(host, ip);
    RelayPrints(headers, order);
    CollectIdentity(host, ip);
    CollectRelay(Identity(host, ip), headers, order);
    AllRelayed(headers, host, ip, order);
    hide Collect, ForwardedHeaders, RelayedMap, Relay, Printable, CleanHeaders;
  }

  lemma IdentityPrints(host: string, ip: string)
    requires OneLine(host) && OneLine(ip)
    ensures AllPrintable(Identity(host, ip))
  {
  }

  /** The request the backend receives when it parses what the proxy sent. */
  function Received(req: HttpRequest, host: string, ip: string, client: string): HttpRequest {
    HttpRequest(req.verb, req.path, req.query, "HTTP/1.1", client, ForwardedHeaders(req.headers, host, ip),
                req.body, true, true)
  }

  lemma WholeBody(body: string, req: HttpRequest)
    requires req.body == ""
    ensures
      var o := ParseBody(ParserState(body, true, |body|), req);
      o.done && o.parser.buffer == "" && o.request == req.(body := body, complete := true, valid := true)
  {
    assert body[..|body|] == body;
  }

  lemma PlainRequestParses(req: HttpRequest, host: string, ip: string, order: seq<string>, client: string)
    requires Parsed(req) && PlainPath(req.path) && OneLine(host) && OneLine(ip)
    requires forall k :: k in order <==> k in req.headers
    ensures
      var o := Step(FRESH, FreshRequest(client), BackendRequest(req, host, ip, order));
      o.done && o.request == Received(req, host, ip, client) && o.parser.buffer == ""
  {
    var hs := Identity(host, ip) + Relay(req.headers, order);
    assert |req.body| == ContentLength(req.headers) && CleanHeaders(req.headers);
    assert BackendRequest(req, host, ip, order) == RequestLine(req) + CRLF + Print(hs) + CRLF + req.body;
    hide Step, ParseRequestLine, RequestLine, Collect, ForwardedHeaders, ContentLength, Print, Relay, Identity,
      PlainPath, AllPrintable, Parsed, CleanHeaders, BackendRequest, ParseBody;
    RequestLineParses(req, client);
    ForwardedMap(req.headers, host, ip, order);
    AllRelayed(req.headers, host, ip, order);
    StepOnMessage(RequestLine(req), hs, req.body, client);
    WholeBody(req.body, ParseRequestLine(RequestLine(req), FreshRequest(client)).1.(
      headers := ForwardedHeaders(req.headers, host, ip)));
  }

  // ---------------------------------------------------------------------------------------------
  // Exactly which paths survive
  // ---------------------------------------------------------------------------------------------

  /** The part of the path before its first white space or question mark. */
  function PathRun(path: string): (n: nat)
    ensures n <= |path| && (n < |path| ==> IsSpace(path[n]) || path[n] == '?')
    ensures forall i :: 0 <= i < n ==> !IsSpace(path[i]) && path[i] != '?'
  {
    if path == "" || IsSpace(path[0]) || path[0] == '?' then 0 else PathRun(path[1..]) + 1
  }

  lemma {:induction false} DecodeShrinks(s: string)
    ensures |UrlDecode(s)| <= |s|
    ensures s != "" && s[0] == '/' ==> UrlDecode(s) != "" && UrlDecode(s)[0] == '/'
    decreases |s|
  {
    if StartsEscape(s) {
      DecodeShrinks(s[3..]);
    } else if s != "" {
      DecodeShrinks(s[1..]);
    }
  }

  /** Decoding is the identity exactly on strings without a plus sign and without an escape. */
  lemma {:induction false} DecodeFixed(s: string)
    requires UrlDecode(s) == s
    ensures forall i :: 0 <= i < |s| ==> s[i] != '+' && !StartsEscape(s[i..])
  {
    if s != "" {
      var rest := s[1..];
      DecodeShrinks(rest);
      if |s| >= 3 {
        DecodeShrinks(s[3..]);
      }
      assert !StartsEscape(s) && s[0] != '+' && UrlDecode(s)[1..] == UrlDecode(rest);
      DecodeFixed(rest);
      assert s[0..] == s;
      forall i | 0 < i < |s| ensures s[i] != '+' && !StartsEscape(s[i..]) {
        assert s[i..] == rest[i - 1..] && s[i] == rest[i - 1];
      }
    }
  }

  lemma SurvivesIffPlain(path: string)
    ensures UrlDecode(path[..PathRun(path)]) == path <==> PlainPath(path)
  {
    var n := PathRun(path);
    assert path[..|path|] == path;
    if PlainPath(path) {
      assert n == |path|;
      PlainDecodes(path);
    }
    if UrlDecode(path[..n]) == path {
      DecodeShrinks(path[..n]);
      DecodeFixed(path);
    }
  }

  /** The parser's request line is the text before some carriage return. */
  lemma LineOf(data: string, client: string) returns (i: nat)
    requires Step(FRESH, FreshRequest(client), data).done && Step(FRESH, FreshRequest(client), data).request.valid
    ensures i < |data| && data[i] == '\r'
    ensures
      var (ok, req) := ParseRequestLine(data[..i], FreshRequest(client));
      ok && Step(FRESH, FreshRequest(client), data).request.path == req.path
  {
    hide ParseRequestLine, Headers, ContentLength;
    assert FRESH.buffer + data == data;
    var end := Find(data, BLANK_LINE, 0).value;
    assert data[end] == data[end..end + 4][0];
    var section := data[..end];
    var eol := Find(section, CRLF, 0);
    i := end;
    if eol.Some? {
      i := eol.value;
      assert section[i] == section[i..i + 2][0];
      assert section[..i] == data[..i];
    }
  }

  /** The second word of a line that starts with `verb`, a space and `rest`, and ends at a carriage return. */
  lemma UriOf(verb: string, rest: string, i: nat)
    requires IsWord(verb) && rest != "" && !IsSpace(rest[0])
    requires i < |verb + " " + rest| && (verb + " " + rest)[i] == '\r'
    ensures NextWord(NextWord((verb + " " + rest)[..i]).1).0 == rest[..WordRun(rest)]
  {
    var data, q := verb + " " + rest, WordRun(rest);
    assert IsSpace('\r') && i > |verb| + 1;
    var n := i - |verb| - 1;
    assert rest[n] == '\r' && q <= n;
    var w, r := rest[..q], rest[q..n];
    assert w[0] == rest[0];
    assert data[..i] == verb + (" " + (w + r));
    NextWordIs(verb, " " + (w + r));
    NextWordIs(w, r);
  }

  /** Cutting the target at its end and at a question mark keeps what precedes the first of the two. */
  lemma CutTarget(rest: string, m: nat, into: HttpRequest)
    requires 0 < m < |rest| && (IsSpace(rest[m]) || rest[m] == '?') && rest[0] == '/'
    requires forall i :: 0 <= i < m ==> !IsSpace(rest[i]) && rest[i] != '?'
    ensures SetTarget(rest[..WordRun(rest)], into).path == UrlDecode(rest[..m])
  {
    var uri := rest[..WordRun(rest)];
    DecodeShrinks(rest[..m]);
    if IsSpace(rest[m]) {
      WordRunIs(rest, m);
      assert uri[0..] == uri;
      assert FindChar(uri, '?', 0).None?;
    } else {
      FindCharIs(uri, '?', 0, m);
      assert uri[..m] == rest[..m];
    }
  }

  lemma RequestLinePath(line: string, client: string)
    requires ParseRequestLine(line, FreshRequest(client)).0
    ensures ParseRequestLine(line, FreshRequest(client)).1.path ==
            SetTarget(NextWord(NextWord(line).1).0, FreshRequest(client)).path
  {
    hide NextWord, UrlDecode;
  }

  /** After the path comes the query's question mark or a space. */
  lemma AfterPath(req: HttpRequest, host: string, ip: string, order: seq<string>) returns (tail: string)
    requires forall k :: k in order ==> k in req.headers
    ensures BackendRequest(req, host, ip, order) == req.verb + " " + (req.path + tail)
    ensures tail != "" && (tail[0] == '?' || tail[0] == ' ')
  {
    hide Print, Relay, Identity;
    var text := CRLF + Print(Identity(host, ip) + Relay(req.headers, order)) + CRLF + req.body;
    tail := QueryPart(req) + " HTTP/1.1" + text;
    assert BackendRequest(req, host, ip, order) == RequestLine(req) + text;
    assert RequestLine(req) + text == req.verb + " " + (req.path + tail);
  }

  /** The path any reader of the printed request gets, whatever the decoded path contains. */
  lemma SeenPath(req: HttpRequest, host: string, ip: string, order: seq<string>, client: string)
    requires Parsed(req) && forall k :: k in order ==> k in req.headers
    requires
      var o := Step(FRESH, FreshRequest(client), BackendRequest(req, host, ip, order));
      o.done && o.request.valid
    ensures Step(FRESH, FreshRequest(client), BackendRequest(req, host, ip, order)).request.path ==
            UrlDecode(req.path[..PathRun(req.path)])
  {
    hide *;
    var data, m := BackendRequest(req, host, ip, order), PathRun(req.path);
    ParsedShape(req);
    var tail := AfterPath(req, host, ip, order);
    var i := LineOf(data, client);
    var rest := req.path + tail;
    FirstStop(req.path, tail);
    assert data == req.verb + " " + rest && !IsSpace('/') by { SlashIsNoSpace(); }
    UriOf(req.verb, rest, i);
    RequestLinePath(data[..i], client);
    CutTarget(rest, m, FreshRequest(client));
  }

  lemma SlashIsNoSpace()
    ensures !IsSpace('/')
  {
  }

  /** In a path that something follows, the run of the path is the run of the whole. */
  lemma FirstStop(path: string, tail: string)
    requires path != "" && path[0] == '/' && tail != "" && (tail[0] == '?' || tail[0] == ' ')
    ensures
      var rest, m := path + tail, PathRun(path);
      && 0 < m < |rest| && rest[..m] == path[..m] && rest[0] == '/' && (IsSpace(rest[m]) || rest[m] == '?')
      && forall i :: 0 <= i < m ==> !IsSpace(rest[i]) && rest[i] != '?'
  {
  }

  /**
   The forwarding round trip.  For every request the parser hands over, however its bytes were cut,
   the backend that parses what the proxy sends gets the same method, path, query and body, every
   client header except host and connection, and nothing left over -- if the decoded path is plain.
   If it is not, the backend does not get that path.
   */
  lemma ForwardingRoundTrip(
    pieces: seq<string>, host: string, ip: string, order: seq<string>, source: string, client: string)
    requires Feed(FRESH, FreshRequest(source), pieces).outcome.done
    requires Feed(FRESH, FreshRequest(source), pieces).outcome.request.valid
    requires Iterates(order, Feed(FRESH, FreshRequest(source), pieces).outcome.request.headers)
    requires OneLine(host) && OneLine(ip)
    ensures
      var req := Feed(FRESH, FreshRequest(source), pieces).outcome.request;
      var o := Step(FRESH, FreshRequest(client), BackendRequest(req, host, ip, order));
      && (PlainPath(req.path) ==> o.done && o.request == Received(req, host, ip, client) && o.parser.buffer == "")
      && (!PlainPath(req.path) ==> !(o.done && o.request.valid && o.request.path == req.path))
  {
    hide *;
    var req := Feed(FRESH, FreshRequest(source), pieces).outcome.request;
    FeedNeedsPieces(source, pieces);
    FeedingPiecesIsOneCall(FRESH, FreshRequest(source), pieces);
    ValidRequestIsParsed(source, Concat(pieces));
    SurvivesIffPlain(req.path);
    IteratesKeys(order, req.headers);
    if PlainPath(req.path) {
      PlainRequestParses(req, host, ip, order, client);
    } else if Step(FRESH, FreshRequest(client), BackendRequest(req, host, ip, order)).done
              && Step(FRESH, FreshRequest(client), BackendRequest(req, host, ip, order)).request.valid {
      SeenPath(req, host, ip, order, client);
    }
  }

  lemma HopsAgree(headers: map<string, string>, host: string, ip: string, host2: string, ip2: string)
    ensures
      var once := ForwardedHeaders(headers, host, ip);
      ForwardedHeaders(once, host2, ip2) == once["host" := Trim(host2)]
  {
    var once := ForwardedHeaders(headers, host, ip);
    var twice := ForwardedHeaders(once, host2, ip2);
    hide Trim;
    assert twice.Keys == once.Keys + {"host"};
    assert forall k :: k in twice && k != "host" ==> twice[k] == once[k];
  }

  /**
   Two proxies in a row: what a backend receives can be forwarded again, and the second hop changes
   nothing but the Host header.  The addresses the first hop put in stay.
   */
  lemma TwoHops(req: HttpRequest, host: string, ip: string, order: seq<string>, client: string,
                host2: string, ip2: string, order2: seq<string>, client2: string)
    requires Parsed(req) && PlainPath(req.path) && (forall k :: k in order <==> k in req.headers)
    requires OneLine(host) && OneLine(ip) && OneLine(host2) && OneLine(ip2)
    requires forall k :: k in order2 <==> k in Received(req, host, ip, client).headers
    ensures
      var mid := Received(req, host, ip, client);
      var first := Step(FRESH, FreshRequest(client), BackendRequest(req, host, ip, order));
      var second := Step(FRESH, FreshRequest(client2), BackendRequest(mid, host2, ip2, order2));
      && first.done && first.request == mid && second.done && second.parser.buffer == ""
      && second.request == mid.(clientIp := client2, headers := mid.headers["host" := Trim(host2)])
  {
    hide *;
    PlainRequestParses(req, host, ip, order, client);
    var mid := Received(req, host, ip, client);
    ReceivedFields(req, host, ip, client);
    ValidRequestIsParsed(client, BackendRequest(req, host, ip, order));
    PlainRequestParses(mid, host2, ip2, order2, client2);
    ReceivedFields(mid, host2, ip2, client2);
    HopsAgree(req.headers, host, ip, host2, ip2);
  }

  lemma ReceivedFields(req: HttpRequest, host: string, ip: string, client: string)
    ensures Received(req, host, ip, client) ==
            HttpRequest(req.verb, req.path, req.query, "HTTP/1.1", client, ForwardedHeaders(req.headers, host, ip),
                        req.body, true, true)
  {
  }

  lemma FeedNeedsPieces(source: string, pieces: seq<string>)
    requires Feed(FRESH, FreshRequest(source), pieces).outcome.done
    ensures pieces != []
  {
  }

  /** An iteration order of the header map: each key once. */
  ghost predicate Iterates(order: seq<string>, headers: map<string, string>) {
    && (forall k :: k in order <==> k in headers)
    && forall i, j :: 0 <= i < j < |order| ==> order[i] != order[j]
  }

  lemma IteratesKeys(order: seq<string>, headers: map<string, string>)
    requires Iterates(order, headers)
    ensures forall k :: k in order <==> k in headers
  {
  }
}
