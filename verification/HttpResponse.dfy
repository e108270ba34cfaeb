/**
 The response builder (src/http/http_response.cpp) and the proxy's response reader
 (`parse_backend_response`, src/modules/proxy_handler.cpp).
 */
module HttpResponse {
  import opened Wrappers
  import opened Text
  import opened Numbers
  import opened HeaderText

  datatype Response = Response(code: int, reason: string, headers: map<string, string>, body: string)

  // ---------------------------------------------------------------------------------------------
  // Building
  // ---------------------------------------------------------------------------------------------

  function StatusLine(r: Response): string {
    "HTTP/1.1 " + Decimal(r.code) + " " + r.reason
  }

  /** The response's own headers in iteration order. */
  function Own(headers: map<string, string>, order: seq<string>): seq<Header>
    requires forall k :: k in order ==> k in headers
  {
    if order == [] then []
    else Own(headers, order[..|order| - 1]) + [(order[|order| - 1], headers[order[|order| - 1]])]
  }

  function Missing(headers: map<string, string>, key: string, value: string): seq<Header> {
    if key in headers then [] else [(key, value)]
  }

  /** The headers `build` adds when they are not set. */
  function Defaults(r: Response): seq<Header> {
    Missing(r.headers, "Content-Length", Decimal(|r.body|)) +
    Missing(r.headers, "Server", "VeloxServe/1.0") +
    Missing(r.headers, "Connection", "close")
  }

  function Build(r: Response, order: seq<string>): string
    requires forall k :: k in order ==> k in r.headers
  {
    StatusLine(r) + CRLF + Print(Own(r.headers, order) + Defaults(r)) + CRLF + r.body
  }

  // ---------------------------------------------------------------------------------------------
  // Parsing
  // ---------------------------------------------------------------------------------------------

  predicate IsPad(c: char) {
    c == ' ' || c == '\t'
  }

  function DropPad(v: string): string {
    if v != "" && IsPad(v[0]) then DropPad(v[1..]) else v
  }

  /** Leading spaces and tabs go, unless there is nothing else. */
  function Unpad(v: string): string {
    if DropPad(v) == "" then v else DropPad(v)
  }

  function ReadStatus(line: string): (int, string) {
    match FindChar(line, ' ', 0)
    case None => (502, "Bad Gateway")
    case Some(space1) =>
      match FindChar(line, ' ', space1 + 1)
      case None => (502, "Bad Gateway")
      case Some(space2) =>
        match Stoi(line[space1 + 1..space2])
        case Some(code) => (code, line[space2 + 1..])
        case None => (502, "Bad Gateway")
  }

  function ReadHeader(line: string, headers: map<string, string>): map<string, string> {
    match FindChar(line, ':', 0)
    case None => headers
    case Some(colon) => headers[line[..colon] := Unpad(line[colon + 1..])]
  }

  function ReadHeaders(section: string, headers: map<string, string>): map<string, string>
    decreases |section|
  {
    if section == "" then headers
    else
      match Find(section, CRLF, 0)
      case None => ReadHeader(section, headers)
      case Some(eol) => ReadHeaders(section[eol + 2..], ReadHeader(section[..eol], headers))
  }

  function ReadResponse(raw: string): Response {
    match Find(raw, BLANK_LINE, 0)
    case None => Response(502, "Bad Gateway", map[], "Invalid response from upstream")
    case Some(end) =>
      var section, body := raw[..end], raw[end + 4..];
      match Find(section, CRLF, 0)
      case None => Response(ReadStatus(section).0, ReadStatus(section).1, map[], body)
      case Some(eol) =>
        var status := ReadStatus(section[..eol]);
        Response(status.0, status.1, ReadHeaders(section[eol + 2..], map[]), body)
  }

  // ---------------------------------------------------------------------------------------------
  // Reading what was built
  // ---------------------------------------------------------------------------------------------

  /** What the reader keeps of a printed value. */
  function Kept(v: string): string {
    Unpad(" " + v)
  }

  function Collect(hs: seq<Header>, headers: map<string, string>): map<string, string> {
    if hs == [] then headers
    else Collect(hs[..|hs| - 1], headers)[hs[|hs| - 1].0 := Kept(hs[|hs| - 1].1)]
  }

  lemma {:induction false} CollectFirst(hs: seq<Header>, headers: map<string, string>)
    requires hs != []
    ensures Collect(hs, headers) == Collect(hs[1..], headers[hs[0].0 := Kept(hs[0].1)])
  {
    if |hs| > 1 {
      var init := hs[..|hs| - 1];
      CollectFirst(init, headers);
      assert init[1..] == hs[1..][..|hs| - 2];
    } else {
      assert hs[..0] == [];
    }
  }

  lemma CollectNone(hs: seq<Header>, headers: map<string, string>)
    requires hs == []
    ensures Collect(hs, headers) == headers
  {
  }

  lemma ReadLine(h: Header, headers: map<string, string>)
    requires Printable(h)
    ensures ReadHeader(Line(h), headers) == headers[h.0 := Kept(h.1)]
  {
    var line := Line(h);
    assert line == h.0 + [':'] + (" " + h.1);
    FindCharAt(h.0, ':', " " + h.1);
    assert line[..|h.0|] == h.0 && line[|h.0| + 1..] == " " + h.1;
  }

  lemma ReadLast(line: string, headers: map<string, string>)
    requires line != "" && OneLine(line)
    ensures ReadHeaders(line, headers) == ReadHeader(line, headers)
  {
    NoCrlfInLine(line);
  }

  lemma ReadFirst(line: string, rest: string, headers: map<string, string>)
    requires OneLine(line)
    ensures ReadHeaders(line + CRLF + rest, headers) == ReadHeaders(rest, ReadHeader(line, headers))
  {
    FindCrlfAfterLine(line, rest);
    var s := line + CRLF + rest;
    assert s[..|line|] == line && s[|line| + 2..] == rest;
  }

  lemma {:induction false} ReadLines(hs: seq<Header>, headers: map<string, string>)
    requires hs != [] && AllPrintable(hs)
    ensures ReadHeaders(Section(Lines(hs)), headers) == Collect(hs, headers)
    decreases |hs|
  {
    var line, rest := Line(hs[0]), hs[1..];
    assert Printable(hs[0]) && OneLine(line);
    ReadLine(hs[0], headers);
    CollectFirst(hs, headers);
    SectionOfLines(hs);
    RestPrintable(hs);
    assert |hs| > 1 ==> Section(Lines(hs)) == line + CRLF + Section(Lines(rest));
    hide *;
    if rest == [] {
      ReadLast(line, headers);
      CollectNone(rest, ReadHeader(line, headers));
    } else {
      ReadFirst(line, Section(Lines(rest)), headers);
      ReadLines(rest, ReadHeader(line, headers));
    }
  }

  lemma ReadMessage(first: string, hs: seq<Header>, body: string)
    requires OneLine(first) && hs != [] && AllPrintable(hs)
    ensures ReadResponse(first + CRLF + Print(hs) + CRLF + body) ==
            Response(ReadStatus(first).0, ReadStatus(first).1, Collect(hs, map[]), body)
  {
    hide ReadStatus, Collect, ReadHeaders, AllPrintable, Print, OccursAt, WellFormedLines, Terminated;
    MessageLines(first, hs);
    FindBlankLine([first] + Lines(hs), body);
    ReadLines(hs, map[]);
    var section := Section(Lines(hs));
    hide Section, Lines;
    FindCrlfAfterLine(first, section);
    assert (first + CRLF + section)[..|first|] == first && (first + CRLF + section)[|first| + 2..] == section;
  }

  lemma NoneLeft(s: string, c: char, from: nat)
    requires from <= |s| && forall i :: from <= i < |s| ==> s[i] != c
    ensures FindChar(s, c, from) == None
  {
  }

  /** The two spaces that delimit the status code. */
  lemma StatusSpaces(first: string, code: string, reason: string)
    requires ' ' !in first && ' ' !in code
    ensures
      var line, n := first + " " + code + " " + reason, |first| + 1;
      && FindChar(line, ' ', 0) == Some(|first|) && FindChar(line, ' ', n) == Some(n + |code|)
      && line[n..n + |code|] == code && line[n + |code| + 1..] == reason
  {
    var line, n := first + " " + code + " " + reason, |first| + 1;
    forall k | 0 <= k < |first| ensures line[k] != ' ' {
      assert line[k] == first[k];
    }
    FindCharIs(line, ' ', 0, |first|);
    forall k | n <= k < n + |code| ensures line[k] != ' ' {
      assert line[k] == code[k - n];
    }
    FindCharIs(line, ' ', n, n + |code|);
  }

  /** The status line is cut at its first two spaces; what is between them must be a number. */
  lemma StatusLineReads(first: string, code: string, reason: string)
    requires ' ' !in first && ' ' !in code
    ensures ReadStatus(first + " " + code + " " + reason) ==
            if Stoi(code).Some? then (Stoi(code).value, reason) else (502, "Bad Gateway")
  {
    hide Stoi, FindChar;
    StatusSpaces(first, code, reason);
  }

  /** With fewer than two spaces there is no code. */
  lemma ShortStatusLine(first: string, code: string)
    requires ' ' !in first && ' ' !in code
    ensures ReadStatus(first) == (502, "Bad Gateway") && ReadStatus(first + " " + code) == (502, "Bad Gateway")
  {
    var line := first + " " + code;
    NoneLeft(first, ' ', 0);
    forall k | 0 <= k < |first| ensures line[k] != ' ' {
      assert line[k] == first[k];
    }
    FindCharIs(line, ' ', 0, |first|);
    forall k | |first| + 1 <= k < |line| ensures line[k] != ' ' {
      assert line[k] == code[k - |first| - 1];
    }
    NoneLeft(line, ' ', |first| + 1);
    hide FindChar, Stoi;
  }

  lemma OneStatusLine(code: string, reason: string)
    requires OneLine(code) && OneLine(reason)
    ensures OneLine("HTTP/1.1 " + code + " " + reason)
  {
  }

  lemma StatusLineIs(r: Response)
    ensures StatusLine(r) == "HTTP/1.1" + " " + Decimal(r.code) + " " + r.reason
    ensures "HTTP/1.1 " + Decimal(r.code) + " " + r.reason == StatusLine(r)
  {
    hide Decimal;
    assert "HTTP/1.1" + " " == "HTTP/1.1 ";
  }

  lemma CodePrints(code: int)
    ensures ' ' !in "HTTP/1.1" && ' ' !in Decimal(code) && OneLine(Decimal(code))
  {
    DecimalIsWord(code);
    hide Decimal;
  }

  lemma ReadStatusLine(r: Response)
    requires INT_MIN <= r.code <= INT_MAX && OneLine(r.reason)
    ensures ReadStatus(StatusLine(r)) == (r.code, r.reason)
    ensures OneLine(StatusLine(r))
  {
    assert INT_MIN == -0x8000_0000 && INT_MAX == 0x7FFF_FFFF;
    hide *;
    StoiDecimal(r.code);
    CodePrints(r.code);
    StatusLineIs(r);
    StatusLineReads("HTTP/1.1", Decimal(r.code), r.reason);
    OneStatusLine(Decimal(r.code), r.reason);
  }

  // ---------------------------------------------------------------------------------------------
  // Which values survive
  // ---------------------------------------------------------------------------------------------

  /** A value the reader gives back unchanged; a caller can test it. */
  ghost predicate Survives(v: string) {
    v != "" && !IsPad(v[0])
  }

  lemma {:induction false} DropPadShrinks(v: string)
    ensures |DropPad(v)| <= |v| && (DropPad(v) != "" ==> !IsPad(DropPad(v)[0]))
  {
    if v != "" && IsPad(v[0]) {
      DropPadShrinks(v[1..]);
    }
  }

  lemma KeptIffSurvives(v: string)
    ensures Kept(v) == v <==> Survives(v)
  {
    DropPadShrinks(v);
    assert (" " + v)[1..] == v;
  }

  /** The header map the reader returns for a built response. */
  function SeenHeaders(r: Response): map<string, string> {
    (map k | k in r.headers :: Kept(r.headers[k])) + DefaultMap(r)
  }

  /** The added headers as a map. */
  function DefaultMap(r: Response): map<string, string> {
    map["Content-Length" := Decimal(|r.body|), "Server" := "VeloxServe/1.0", "Connection" := "close"] - r.headers.Keys
  }

  function OwnMap(headers: map<string, string>, order: seq<string>): map<string, string>
    requires forall k :: k in order ==> k in headers
  {
    map k | k in headers && k in order :: Kept(headers[k])
  }

  lemma CollectAppend(hs: seq<Header>, key: string, value: string, headers: map<string, string>)
    ensures Collect(hs + [(key, value)], headers) == Collect(hs, headers)[key := Kept(value)]
  {
    assert (hs + [(key, value)])[..|hs|] == hs;
  }

  lemma {:induction false} CollectOwn(headers: map<string, string>, order: seq<string>)
    requires forall k :: k in order ==> k in headers
    ensures Collect(Own(headers, order), map[]) == OwnMap(headers, order)
  {
    if order == [] {
      assert OwnMap(headers, order) == map[];
    } else {
      var past, last := order[..|order| - 1], order[|order| - 1];
      CollectOwn(headers, past);
      CollectAppend(Own(headers, past), last, headers[last], map[]);
      assert forall k :: k in order <==> k in past || k == last;
      hide Kept, Collect;
      assert OwnMap(headers, order) == OwnMap(headers, past)[last := Kept(headers[last])];
    }
  }

  lemma CollectMissing(hs: seq<Header>, headers: map<string, string>, key: string, value: string)
    requires Survives(value)
    ensures Collect(hs + Missing(headers, key, value), map[]) ==
            Collect(hs, map[]) + if key in headers then map[] else map[key := value]
  {
    KeptIffSurvives(value);
    hide Collect, Kept, Survives;
    if key in headers {
      assert hs + [] == hs;
      assert Collect(hs, map[]) + map[] == Collect(hs, map[]);
    } else {
      CollectAppend(hs, key, value, map[]);
    }
  }

  lemma DefaultsSurvive(r: Response)
    ensures Survives(Decimal(|r.body|)) && OneLine(Decimal(|r.body|))
    ensures Survives("VeloxServe/1.0") && Survives("close")
  {
    DecimalIsWord(|r.body|);
  }

  lemma AddDefaults(r: Response, m: map<string, string>)
    ensures
      var length := if "Content-Length" in r.headers then map[] else map["Content-Length" := Decimal(|r.body|)];
      var server := if "Server" in r.headers then map[] else map["Server" := "VeloxServe/1.0"];
      var connection := if "Connection" in r.headers then map[] else map["Connection" := "close"];
      m + length + server + connection == m + DefaultMap(r)
  {
    hide Decimal;
  }

  lemma CollectDefaults(r: Response, hs: seq<Header>)
    ensures Collect(hs + Defaults(r), map[]) == Collect(hs, map[]) + DefaultMap(r)
  {
    var length := Missing(r.headers, "Content-Length", Decimal(|r.body|));
    var server := Missing(r.headers, "Server", "VeloxServe/1.0");
    var connection := Missing(r.headers, "Connection", "close");
    assert hs + Defaults(r) == hs + length + server + connection;
    DefaultsSurvive(r);
    hide Survives, Collect, Decimal, Missing, DefaultMap, Defaults;
    CollectMissing(hs, r.headers, "Content-Length", Decimal(|r.body|));
    CollectMissing(hs + length, r.headers, "Server", "VeloxServe/1.0");
    CollectMissing(hs + length + server, r.headers, "Connection", "close");
    AddDefaults(r, Collect(hs, map[]));
  }

  // ---------------------------------------------------------------------------------------------
  // The round trip
  // ---------------------------------------------------------------------------------------------

  /** The status fits an `int`, and nothing that is printed breaks a line or a header name. */
  ghost predicate Sendable(r: Response) {
    && INT_MIN <= r.code <= INT_MAX && OneLine(r.reason)
    && forall k :: k in r.headers ==> Printable((k, r.headers[k]))
  }

  ghost predicate AllSurvive(headers: map<string, string>) {
    forall k :: k in headers ==> Survives(headers[k])
  }

  lemma {:induction false} OwnPrints(headers: map<string, string>, order: seq<string>)
    requires forall k :: k in order ==> k in headers
    requires forall k :: k in headers ==> Printable((k, headers[k]))
    ensures AllPrintable(Own(headers, order)) && |Own(headers, order)| == |order|
  {
    if order != [] {
      OwnPrints(headers, order[..|order| - 1]);
    }
  }

  lemma DefaultsPrint(r: Response)
    ensures AllPrintable(Defaults(r))
    ensures |Defaults(r)| == 0 ==> "Server" in r.headers
  {
    DefaultsSurvive(r);
    hide Decimal;
  }

  lemma PrintableConcat(a: seq<Header>, b: seq<Header>)
    requires AllPrintable(a) && AllPrintable(b)
    ensures AllPrintable(a + b)
  {
  }

  /** Reading a built response back, whatever order the header map is iterated in. */
  lemma BuiltIsRead(r: Response, order: seq<string>)
    requires Sendable(r) && forall k :: k in order <==> k in r.headers
    ensures ReadResponse(Build(r, order)) == Response(r.code, r.reason, SeenHeaders(r), r.body)
  {
    var hs := Own(r.headers, order) + Defaults(r);
    ReadStatusLine(r);
    OwnPrints(r.headers, order);
    DefaultsPrint(r);
    PrintableConcat(Own(r.headers, order), Defaults(r));
    CollectOwn(r.headers, order);
    CollectDefaults(r, Own(r.headers, order));
    assert OwnMap(r.headers, order) == map k | k in r.headers :: Kept(r.headers[k]);
    hide ReadResponse, ReadStatus, StatusLine, Collect, Print, AllPrintable, Own, Defaults;
    ReadMessage(StatusLine(r), hs, r.body);
  }

  lemma SeenIffSurvive(r: Response)
    ensures SeenHeaders(r) == r.headers + DefaultMap(r) <==> AllSurvive(r.headers)
  {
    hide Kept, Survives, Decimal;
    forall k | k in r.headers
      ensures Kept(r.headers[k]) == r.headers[k] <==> Survives(r.headers[k])
    {
      KeptIffSurvives(r.headers[k]);
    }
    var seen, sent := SeenHeaders(r), r.headers + DefaultMap(r);
    assert seen.Keys == sent.Keys;
    if seen == sent {
      forall k | k in r.headers ensures Survives(r.headers[k]) {
        assert k !in DefaultMap(r) && seen[k] == Kept(r.headers[k]) && sent[k] == r.headers[k];
      }
    }
  }

  /**
   The response round trip: status, reason and body come back, and the headers come back with only
   the defaults added exactly when no value is empty or starts with a space or a tab.
   */
  lemma ResponseRoundTrip(r: Response, order: seq<string>)
    requires Sendable(r) && forall k :: k in order <==> k in r.headers
    ensures
      var read := ReadResponse(Build(r, order));
      && read.code == r.code && read.reason == r.reason && read.body == r.body
      && (read.headers == r.headers + DefaultMap(r) <==> AllSurvive(r.headers))
  {
    hide SeenHeaders, DefaultMap, AllSurvive, Sendable, ReadResponse, Build;
    BuiltIsRead(r, order);
    SeenIffSurvive(r);
  }

  /** Some character is neither a space nor a tab. */
  ghost predicate Settles(v: string) {
    exists i :: 0 <= i < |v| && !IsPad(v[i])
  }

  lemma {:induction false} DropPadIsPart(v: string)
    ensures DropPad(v) != "" <==> Settles(v)
    ensures forall c :: c in DropPad(v) ==> c in v
  {
    if v != "" && IsPad(v[0]) {
      DropPadIsPart(v[1..]);
      if i :| 0 <= i < |v| && !IsPad(v[i]) {
        assert v[1..][i - 1] == v[i];
      }
      if i :| 0 <= i < |v[1..]| && !IsPad(v[1..][i]) {
        assert v[i + 1] == v[1..][i];
      }
    }
  }

  /** A value stays the same from the first reading on iff it is not blank; a blank one grows by a space each time. */
  lemma KeptTwiceIffSettles(v: string)
    ensures Survives(Kept(v)) <==> Settles(v)
    ensures !Settles(v) ==> Kept(v) == " " + v
  {
    DropPadShrinks(v);
    DropPadIsPart(v);
    assert (" " + v)[1..] == v;
  }

  lemma KeptPrints(key: string, v: string)
    requires Printable((key, v))
    ensures Printable((key, Kept(v)))
  {
    DropPadIsPart(v);
    assert (" " + v)[1..] == v;
    assert forall c :: c in Kept(v) ==> c in v || c == ' ';
  }

  lemma DefaultIsGood(r: Response, key: string)
    requires key in DefaultMap(r)
    ensures Printable((key, DefaultMap(r)[key])) && Survives(DefaultMap(r)[key])
  {
    DefaultsSurvive(r);
    hide Decimal, Survives;
  }

  /** The response that is read first can be sent again and has all the defaults. */
  lemma SeenIsSendable(r: Response)
    requires Sendable(r)
    ensures
      var read := Response(r.code, r.reason, SeenHeaders(r), r.body);
      Sendable(read) && read.headers + DefaultMap(read) == read.headers
  {
    var read := Response(r.code, r.reason, SeenHeaders(r), r.body);
    assert DefaultMap(read) == map[];
    hide DefaultMap, Survives, Printable, Kept;
    forall k | k in read.headers ensures Printable((k, read.headers[k])) {
      if k in DefaultMap(r) {
        DefaultIsGood(r, k);
      } else {
        KeptPrints(k, r.headers[k]);
      }
    }
  }

  lemma SeenSurvivesIffSettles(r: Response)
    ensures AllSurvive(SeenHeaders(r)) <==> forall k :: k in r.headers ==> Settles(r.headers[k])
  {
    var seen := SeenHeaders(r);
    assert forall k :: k in r.headers ==> k !in DefaultMap(r) && seen[k] == Kept(r.headers[k]);
    assert forall k :: k in seen && k !in r.headers ==> k in DefaultMap(r) && seen[k] == DefaultMap(r)[k];
    hide SeenHeaders, DefaultMap, Survives, Settles, Kept, Printable;
    forall k | k in r.headers ensures Survives(seen[k]) <==> Settles(r.headers[k]) {
      KeptTwiceIffSettles(r.headers[k]);
    }
    forall k | k in seen && k !in r.headers ensures Survives(seen[k]) {
      DefaultIsGood(r, k);
    }
    assert forall k :: k in r.headers ==> k in seen;
  }

  /** Building and reading a second time changes nothing iff no header value is blank. */
  lemma ReadIsFixedPoint(r: Response, order: seq<string>, again: seq<string>)
    requires Sendable(r) && forall k :: k in order <==> k in r.headers
    requires forall k :: k in again <==> k in ReadResponse(Build(r, order)).headers
    ensures ReadResponse(Build(ReadResponse(Build(r, order)), again)) == ReadResponse(Build(r, order)) <==>
            forall k :: k in r.headers ==> Settles(r.headers[k])
  {
    var read := Response(r.code, r.reason, SeenHeaders(r), r.body);
    SeenIsSendable(r);
    hide Build, ReadResponse, SeenHeaders, DefaultMap, AllSurvive, Sendable, Settles;
    BuiltIsRead(r, order);
    BuiltIsRead(read, again);
    SeenIffSurvive(read);
    SeenSurvivesIffSettles(r);
  }

  // ---------------------------------------------------------------------------------------------
  // Text that is not a built response
  // ---------------------------------------------------------------------------------------------

  /** Without a blank line the whole text is taken for a bad gateway. */
  lemma NoBlankLineIs502(raw: string)
    requires forall i :: 0 <= i <= |raw| ==> !OccursAt(raw, "\r\n\r\n", i)
    ensures ReadResponse(raw) == Response(502, "Bad Gateway", map[], "Invalid response from upstream")
  {
    hide ReadStatus, ReadHeaders;
  }

  /** The headers and the body are read whatever the status line says. */
  lemma MessageReads(first: string, hs: seq<Header>, body: string)
    requires OneLine(first) && hs != [] && AllPrintable(hs)
    ensures
      var r := ReadResponse(first + CRLF + Print(hs) + CRLF + body);
      (r.code, r.reason) == ReadStatus(first) && r.headers == Collect(hs, map[]) && r.body == body
  {
    hide ReadResponse, ReadStatus, Collect, Print;
    ReadMessage(first, hs, body);
  }

  /** A built response starts with the version, the code and the reason. */
  lemma BuildStartsWithStatus(r: Response, order: seq<string>)
    requires forall k :: k in order ==> k in r.headers
    ensures "HTTP/1.1 " + Decimal(r.code) + " " + r.reason + "\r\n" <= Build(r, order)
  {
    hide Decimal, Print;
  }

  // ---------------------------------------------------------------------------------------------
  // The class
  // ---------------------------------------------------------------------------------------------

  class HttpResponse {
    var statusCode: int
    var statusText: string
    var headers: map<string, string>
    var body: string

    ghost function Value(): Response
      reads this
    {
      Response(statusCode, statusText, headers, body)
    }

    constructor (code: int, reason: string)
      ensures Value() == Response(code, reason, map[], "")
    {
      statusCode, statusText, headers, body := code, reason, map[], "";
    }

    method SetStatus(code: int, reason: string)
      modifies this`statusCode, this`statusText
      ensures Value() == old(Value()).(code := code, reason := reason)
    {
      statusCode, statusText := code, reason;
    }

    method SetHeader(key: string, value: string)
      modifies this`headers
      ensures Value() == old(Value()).(headers := old(headers)[key := value])
    {
      headers := headers[key := value];
    }

    method SetBody(body: string)
      modifies this`body
      ensures Value() == old(Value()).(body := body)
    {
      this.body := body;
    }

    method BuildText(order: seq<string>) returns (text: string)
      requires forall k :: k in order ==> k in headers
      ensures text == Build(Value(), order)
    {
      hide Decimal;
      ghost var start := StatusLine(Value()) + CRLF;
      text := "HTTP/1.1 " + Decimal(statusCode) + " " + statusText + CRLF;
      assert text == start + Print([]);
      text := PrintOwn(start, text, order);
      text := PrintDefaults(start, text, Own(headers, order));
      text := text + CRLF;
      text := text + body;
    }

    /** Writes all headers, one per iteration. */
    method PrintOwn(ghost start: string, begun: string, order: seq<string>) returns (text: string)
      requires begun == start + Print([]) && forall k :: k in order ==> k in headers
      ensures text == start + Print(Own(headers, order))
    {
      text := begun;
      ghost var printed := [];
      var i := 0;
      while i < |order|
        invariant 0 <= i <= |order|
        invariant printed == Own(headers, order[..i]) && text == start + Print(printed)
      {
        hide Print, Field;
        assert order[..i + 1][..i] == order[..i];
        text, printed := EmitField(start, printed, text, order[i], headers[order[i]]);
        i := i + 1;
      }
      assert order[..i] == order;
    }

    method PrintDefaults(ghost start: string, begun: string, ghost own: seq<Header>) returns (text: string)
      requires begun == start + Print(own)
      ensures text == start + Print(own + Defaults(Value()))
    {
      hide Print, Field, Decimal;
      text := begun;
      ghost var printed := own;
      if "Content-Length" !in headers {
        text, printed := EmitField(start, printed, text, "Content-Length", Decimal(|body|));
      }
      if "Server" !in headers {
        text, printed := EmitField(start, printed, text, "Server", "VeloxServe/1.0");
      }
      if "Connection" !in headers {
        text, printed := EmitField(start, printed, text, "Connection", "close");
      }
      assert printed == own + Defaults(Value());
    }
  }

  method ParseStatus(line: string) returns (code: int, reason: string)
    ensures (code, reason) == ReadStatus(line)
  {
    hide Stoi, FindChar;
    var space1 := FindChar(line, ' ', 0);
    var space2 := FindChar(line, ' ', if space1.Some? then space1.value + 1 else 0);
    if space1.Some? && space2.Some? {
      var parsed := Stoi(line[space1.value + 1..space2.value]);
      if parsed.Some? {
        return parsed.value, line[space2.value + 1..];
      }
    }
    return 502, "Bad Gateway";
  }

  /** `parse_backend_response`. */
  method ParseBackendResponse(raw: string) returns (resp: HttpResponse)
    ensures fresh(resp) && resp.Value() == ReadResponse(raw)
  {
    hide OccursAt, ReadStatus, ReadHeaders;
    resp := new HttpResponse(200, "OK");
    var headerEnd := Find(raw, BLANK_LINE, 0);
    if headerEnd.None? {
      resp.SetStatus(502, "Bad Gateway");
      resp.SetBody("Invalid response from upstream");
      return;
    }
    var section, body := raw[..headerEnd.value], raw[headerEnd.value + 4..];
    var eol := Find(section, CRLF, 0);
    var code, reason := ParseStatus(if eol.Some? then section[..eol.value] else section);
    resp.SetStatus(code, reason);
    if eol.Some? {
      ParseHeaderLines(resp, section[eol.value + 2..]);
    }
    resp.SetBody(body);
  }

  lemma ReadHeadersFirst(section: string, headers: map<string, string>)
    requires section != ""
    ensures
      var eol := Find(section, CRLF, 0);
      ReadHeaders(section, headers) ==
      if eol.None? then ReadHeader(section, headers)
      else ReadHeaders(section[eol.value + 2..], ReadHeader(section[..eol.value], headers))
  {
    hide ReadHeader, Find, OccursAt;
  }

  lemma NoHeadersLeft(headers: map<string, string>)
    ensures ReadHeaders("", headers) == headers
  {
  }

  /** The header loop, one line per iteration; `rest` is the text from `pos` on. */
  method ParseHeaderLines(resp: HttpResponse, section: string)
    modifies resp`headers
    ensures resp.headers == ReadHeaders(section, old(resp.headers))
  {
    hide OccursAt, ReadHeaders, ReadHeader;
    var rest := section;
    while rest != ""
      invariant ReadHeaders(rest, resp.headers) == ReadHeaders(section, old(resp.headers))
      decreases |rest|
    {
      ReadHeadersFirst(rest, resp.headers);
      var eol := Find(rest, CRLF, 0);
      if eol.None? {
        ParseHeaderLine(resp, rest);
        return;
      }
      ParseHeaderLine(resp, rest[..eol.value]);
      rest := rest[eol.value + 2..];
    }
    NoHeadersLeft(resp.headers);
  }

  method ParseHeaderLine(resp: HttpResponse, line: string)
    modifies resp`headers
    ensures resp.headers == ReadHeader(line, old(resp.headers))
  {
    var colon := FindChar(line, ':', 0);
    if colon.Some? {
      resp.SetHeader(line[..colon.value], Unpad(line[colon.value + 1..]));
    }
  }
}
