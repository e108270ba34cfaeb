/**
 What one call of the request parser makes of a whole message (`HttpParser::parse` and its helpers,
 src/http/http_parser.cpp), said about the bytes of the message.
 */
module RequestLaws {
  import opened Wrappers
  import opened Text
  import opened Numbers
  import opened HeaderText
  import opened HttpParser
  import R = ProxyRequest

  // ---------------------------------------------------------------------------------------------
  // Percent encoding
  // ---------------------------------------------------------------------------------------------

  const LOWER_DIGITS: string := "0123456789abcdef"
  const UPPER_DIGITS: string := "0123456789ABCDEF"

  /** `c` is the hexadecimal digit of value `n`, in either case. */
  ghost predicate IsDigitFor(c: char, n: nat) {
    n < 16 && (c == LOWER_DIGITS[n] || c == UPPER_DIGITS[n])
  }

  /** `a` and `b`, the high digit first, write the byte `c`. */
  ghost predicate WriteByte(a: char, b: char, c: char) {
    exists h: nat, l: nat :: IsDigitFor(a, h) && IsDigitFor(b, l) && c as int == 16 * h + l
  }

  lemma DigitValue(c: char, n: nat)
    ensures IsDigitFor(c, n) <==> IsHexDigit(c) && HexValue(c) == n
  {
    if IsHexDigit(c) {
      var v := HexValue(c);
      assert c == LOWER_DIGITS[v] || c == UPPER_DIGITS[v];
    }
  }

  lemma EscapeWrites(a: char, b: char, c: char)
    ensures WriteByte(a, b, c) <==> IsHexDigit(a) && IsHexDigit(b) && c as int == 16 * HexValue(a) + HexValue(b)
  {
    forall n: nat ensures IsDigitFor(a, n) <==> IsHexDigit(a) && HexValue(a) == n {
      DigitValue(a, n);
    }
    forall n: nat ensures IsDigitFor(b, n) <==> IsHexDigit(b) && HexValue(b) == n {
      DigitValue(b, n);
    }
    hide IsDigitFor, HexValue, IsHexDigit;
    if IsHexDigit(a) && IsHexDigit(b) && c as int == 16 * HexValue(a) + HexValue(b) {
      assert IsDigitFor(a, HexValue(a)) && IsDigitFor(b, HexValue(b));
    }
  }

  /** The text starts with a percent sign and two digits. */
  ghost predicate StartsByte(text: string) {
    |text| >= 3 && text[0] == '%' && exists c :: WriteByte(text[1], text[2], c)
  }

  /** `text` writes `s`: bytes as escapes, spaces as plus signs, and anything else as itself. */
  ghost predicate Encodes(text: string, s: string)
    decreases |text|
  {
    if text == "" then s == ""
    else
      && s != ""
      && if StartsByte(text) then WriteByte(text[1], text[2], s[0]) && Encodes(text[3..], s[1..])
         else s[0] == (if text[0] == '+' then ' ' else text[0]) && Encodes(text[1..], s[1..])
  }

  lemma StartsByteIff(text: string)
    ensures StartsByte(text) <==> StartsEscape(text)
  {
    if |text| >= 3 {
      forall c ensures WriteByte(text[1], text[2], c) <==>
        IsHexDigit(text[1]) && IsHexDigit(text[2]) && c as int == 16 * HexValue(text[1]) + HexValue(text[2])
      {
        EscapeWrites(text[1], text[2], c);
      }
      hide WriteByte, HexValue, IsHexDigit;
      if StartsEscape(text) {
        assert WriteByte(text[1], text[2], (16 * HexValue(text[1]) + HexValue(text[2])) as char);
      }
    }
  }

  /** Decoding gives what the text writes, and nothing else. */
  lemma {:induction false} DecodesIffEncodes(text: string, s: string)
    ensures UrlDecode(text) == s <==> Encodes(text, s)
    decreases |text|
  {
    StartsByteIff(text);
    hide StartsByte, HexValue, IsHexDigit, WriteByte;
    if text != "" {
      if StartsEscape(text) {
        var c := (16 * HexValue(text[1]) + HexValue(text[2])) as char;
        if s != "" {
          EscapeWrites(text[1], text[2], s[0]);
          DecodesIffEncodes(text[3..], s[1..]);
          assert s == [s[0]] + s[1..];
        }
        assert ([c] + UrlDecode(text[3..]))[1..] == UrlDecode(text[3..]);
      } else if s != "" {
        DecodesIffEncodes(text[1..], s[1..]);
        assert s == [s[0]] + s[1..];
        assert UrlDecode(text)[1..] == UrlDecode(text[1..]);
      }
    }
  }

  // ---------------------------------------------------------------------------------------------
  // The request line
  // ---------------------------------------------------------------------------------------------

  const METHODS: seq<string> := ["GET", "POST", "PUT", "DELETE", "HEAD", "OPTIONS"]
  const VERSIONS: seq<string> := ["HTTP/1.1", "HTTP/1.0"]

  function Absolute(path: string): string {
    if path != "" && path[0] == '/' then path else "/" + path
  }

  /** The request made from the words of an accepted line; `query` is empty or starts with the question mark. */
  function LineRequest(verb: string, path: string, query: string, version: string, client: string): HttpRequest {
    HttpRequest(verb, Absolute(UrlDecode(path)), if query == "" then "" else query[1..], version, client, map[], "",
                false, false)
  }

  lemma MethodIffListed(verb: string, version: string)
    ensures verb in METHODS <==> IsValidMethod(verb)
    ensures version in VERSIONS <==> version == "HTTP/1.1" || version == "HTTP/1.0"
  {
  }

  lemma TargetSplits(path: string, query: string, req: HttpRequest)
    requires '?' !in path && (query != "" ==> query[0] == '?') && req.query == ""
    ensures SetTarget(path + query, req) ==
            req.(path := Absolute(UrlDecode(path)), query := if query == "" then "" else query[1..])
  {
    hide UrlDecode;
    var uri := path + query;
    if query == "" {
      assert uri == path && uri[0..] == uri;
      assert FindChar(uri, '?', 0).None?;
    } else {
      assert uri == path + ['?'] + query[1..];
      FindCharAt(path, '?', query[1..]);
      assert uri[..|path|] == path && uri[|path| + 1..] == query[1..];
    }
  }

  lemma ThreeWords(a: string, b: string, c: string, rest: string)
    requires IsWord(a) && IsWord(b) && IsWord(c) && (rest != "" ==> IsSpace(rest[0]))
    ensures
      var (w1, r1) := NextWord(a + " " + b + " " + c + rest);
      var (w2, r2) := NextWord(r1);
      w1 == a && w2 == b && NextWord(r2).0 == c
  {
    assert a + " " + b + " " + c + rest == a + (" " + (b + (" " + (c + rest))));
    NextWordIs(a, " " + (b + (" " + (c + rest))));
    NextWordIs(b, " " + (c + rest));
    NextWordIs(c, rest);
  }

  /** A request line is accepted iff its method and its version are known, and then says what its words say. */
  lemma LineIsAcceptedIff(verb: string, path: string, query: string, version: string, rest: string, client: string)
    requires IsWord(verb) && IsWord(path + query) && IsWord(version) && (rest != "" ==> IsSpace(rest[0]))
    requires '?' !in path && (query != "" ==> query[0] == '?')
    ensures
      var (ok, req) := ParseRequestLine(verb + " " + (path + query) + " " + version + rest, FreshRequest(client));
      && (ok <==> verb in METHODS && version in VERSIONS)
      && (ok ==> req == LineRequest(verb, path, query, version, client))
  {
    MethodIffListed(verb, version);
    ThreeWords(verb, path + query, version, rest);
    TargetSplits(path, query, FreshRequest(client).(verb := verb, version := version));
    hide NextWord, SetTarget, IsValidMethod, UrlDecode;
    assert verb != "" && path + query != "" && version != "";
  }

  /** A line of fewer than three words is rejected. */
  lemma ShortLineIsRejected(verb: string, target: string, client: string)
    requires IsWord(verb) && IsWord(target)
    ensures !ParseRequestLine(verb + " " + target, FreshRequest(client)).0
    ensures !ParseRequestLine(verb, FreshRequest(client)).0 && !ParseRequestLine("", FreshRequest(client)).0
  {
    NextWordIs(verb, " " + target);
    NextWordIs(target, "");
    NextWordIs(verb, "");
    assert verb + (" " + (target + "")) == verb + " " + target && target + "" == target && verb + "" == verb;
    assert NextWord("").0 == "";
    hide SetTarget;
  }

  // ---------------------------------------------------------------------------------------------
  // The body
  // ---------------------------------------------------------------------------------------------

  ghost predicate Names(h: Header, key: string) {
    ToLower(Trim(h.0)) == key
  }

  /** `value` is what the last header of that name says. */
  ghost predicate LastSays(hs: seq<Header>, key: string, value: string) {
    exists i ::
      0 <= i < |hs| && Names(hs[i], key) && Trim(hs[i].1) == value && forall j :: i < j < |hs| ==> !Names(hs[j], key)
  }

  /** The header map holds what the last header of a name says, and nothing when there is none. */
  lemma {:induction false} CollectedIff(hs: seq<Header>, key: string, value: string)
    ensures key in R.Collect(hs, map[]) && R.Collect(hs, map[])[key] == value <==> LastSays(hs, key, value)
  {
    hide ToLower, Trim;
    if hs != [] {
      var init, h := hs[..|hs| - 1], hs[|hs| - 1];
      CollectedIff(init, key, value);
      if Names(h, key) {
        if Trim(h.1) == value {
          assert Names(hs[|hs| - 1], key) && Trim(hs[|hs| - 1].1) == value;
        }
      } else {
        if LastSays(init, key, value) {
          var i :| 0 <= i < |init| && Names(init[i], key) && Trim(init[i].1) == value
                   && forall j :: i < j < |init| ==> !Names(init[j], key);
          assert Names(hs[i], key) && forall j :: i < j < |hs| ==> !Names(hs[j], key);
        }
        if LastSays(hs, key, value) {
          var i :| 0 <= i < |hs| && Names(hs[i], key) && Trim(hs[i].1) == value
                   && forall j :: i < j < |hs| ==> !Names(hs[j], key);
          assert init[i] == hs[i] && forall j :: i < j < |init| ==> !Names(init[j], key);
        }
      }
    }
  }

  /** A message: the request line, the header lines, the blank line and what follows. */
  function Message(first: string, hs: seq<Header>, data: string): string {
    first + "\r\n" + Print(hs) + "\r\n" + data
  }

  /** What the parser makes of a message when it is created for it. */
  function ParseMessage(first: string, hs: seq<Header>, data: string, client: string): Outcome {
    Step(FRESH, FreshRequest(client), Message(first, hs, data))
  }

  /** A message whose request line is accepted. */
  ghost predicate IsMessage(first: string, hs: seq<Header>, client: string) {
    OneLine(first) && AllPrintable(hs) && hs != [] && ParseRequestLine(first, FreshRequest(client)).0
  }

  lemma MessageSteps(first: string, hs: seq<Header>, data: string, client: string)
    requires IsMessage(first, hs, client)
    ensures
      var headers := R.Collect(hs, map[]);
      ParseMessage(first, hs, data, client) ==
      ParseBody(ParserState(data, true, ContentLength(headers)),
                ParseRequestLine(first, FreshRequest(client)).1.(headers := headers))
  {
    RequestLineShape(first, client);
    R.StepOnMessage(first, hs, data, client);
    hide Step, ParseBody, R.Collect, ContentLength, ParseRequestLine, Print;
  }

  lemma AnnouncedLength(hs: seq<Header>, value: string)
    requires LastSays(hs, "content-length", value)
    ensures ContentLength(R.Collect(hs, map[])) == match Stoul(value) case Some(n) => n case None => 0
  {
    CollectedIff(hs, "content-length", value);
    hide R.Collect, LastSays, Stoul;
  }

  lemma NoLength(hs: seq<Header>)
    requires forall i :: 0 <= i < |hs| ==> !Names(hs[i], "content-length")
    ensures ContentLength(R.Collect(hs, map[])) == 0
  {
    var headers := R.Collect(hs, map[]);
    if "content-length" in headers {
      CollectedIff(hs, "content-length", headers["content-length"]);
    }
    hide R.Collect, Stoul, Names;
  }

  /** The request of a message, without its body. */
  ghost predicate IsHead(req: HttpRequest, first: string, hs: seq<Header>, client: string) {
    req.(body := "", complete := false, valid := false) ==
    ParseRequestLine(first, FreshRequest(client)).1.(headers := R.Collect(hs, map[]))
  }

  lemma BodyOfLength(first: string, hs: seq<Header>, data: string, client: string, n: nat)
    requires IsMessage(first, hs, client) && ContentLength(R.Collect(hs, map[])) == n
    ensures
      var o := ParseMessage(first, hs, data, client);
      && (o.done <==> |data| >= n)
      && (o.done ==>
            && o.request.valid && o.request.complete && IsHead(o.request, first, hs, client)
            && o.request.body == data[..n] && o.parser.buffer == data[n..])
  {
    MessageSteps(first, hs, data, client);
    LineHasNoBody(first, client);
    hide Step, ParseRequestLine, R.Collect, ContentLength, ParseMessage, IsMessage;
    if n == 0 {
      assert data[..0] == "" && data[0..] == data;
    }
  }

  lemma LineHasNoBody(first: string, client: string)
    requires ParseRequestLine(first, FreshRequest(client)).0
    ensures
      var req := ParseRequestLine(first, FreshRequest(client)).1;
      req.body == "" && !req.complete && !req.valid
  {
    hide NextWord, UrlDecode, IsValidMethod;
  }

  /** The announced body is read, no more and no less, as soon as it is there. */
  lemma AnnouncedBodyIsRead(first: string, hs: seq<Header>, data: string, client: string, n: nat)
    requires IsMessage(first, hs, client) && LastSays(hs, "content-length", Decimal(n)) && n < 0x1_0000_0000_0000_0000
    ensures
      var o := ParseMessage(first, hs, data, client);
      && (o.done <==> |data| >= n)
      && (o.done ==>
            && o.request.valid && o.request.complete && IsHead(o.request, first, hs, client)
            && o.request.body == data[..n] && o.parser.buffer == data[n..])
  {
    StoulDecimal(n);
    AnnouncedLength(hs, Decimal(n));
    hide *;
    BodyOfLength(first, hs, data, client, n);
  }

  /** Without a length, or with one that is no number, there is no body. */
  lemma UnannouncedBodyIsLeft(first: string, hs: seq<Header>, data: string, client: string, value: string)
    requires IsMessage(first, hs, client)
    requires (forall i :: 0 <= i < |hs| ==> !Names(hs[i], "content-length"))
             || (LastSays(hs, "content-length", value) && Stoul(value).None?)
    ensures
      var o := ParseMessage(first, hs, data, client);
      && o.done && o.request.valid && o.request.complete && IsHead(o.request, first, hs, client)
      && o.request.body == "" && o.parser.buffer == data
  {
    if forall i :: 0 <= i < |hs| ==> !Names(hs[i], "content-length") {
      NoLength(hs);
    } else {
      AnnouncedLength(hs, value);
    }
    BodyOfLength(first, hs, data, client, 0);
    hide *;
    assert data[..0] == "" && data[0..] == data;
  }

  // ---------------------------------------------------------------------------------------------
  // Whole messages
  // ---------------------------------------------------------------------------------------------

  /** The line `verb path?query version`; `query` is empty or starts with the question mark. */
  ghost predicate IsLine(verb: string, path: string, query: string, version: string) {
    IsWord(verb) && IsWord(path + query) && IsWord(version) && '?' !in path && (query != "" ==> query[0] == '?')
  }

  function RequestLine(verb: string, path: string, query: string, version: string): string {
    verb + " " + (path + query) + " " + version
  }

  lemma LineReads(verb: string, path: string, query: string, version: string, client: string)
    requires IsLine(verb, path, query, version)
    ensures
      var line := RequestLine(verb, path, query, version);
      var (ok, req) := ParseRequestLine(line, FreshRequest(client));
      && OneLine(line) && (ok <==> verb in METHODS && version in VERSIONS)
      && (ok ==> req == LineRequest(verb, path, query, version, client))
  {
    LineIsAcceptedIff(verb, path, query, version, "", client);
    var line := RequestLine(verb, path, query, version);
    assert line + "" == line;
    assert OneLine(verb) && OneLine(path + query) && OneLine(version);
    hide ParseRequestLine, IsWord, LineRequest, METHODS, VERSIONS;
  }

  /** A message with a known method and version and an announced body is read completely and exactly. */
  lemma MessageIsRead(verb: string, path: string, query: string, version: string, hs: seq<Header>, data: string,
                      client: string, n: nat)
    requires IsLine(verb, path, query, version) && verb in METHODS && version in VERSIONS
    requires hs != [] && AllPrintable(hs)
    requires LastSays(hs, "content-length", Decimal(n)) && n < 0x1_0000_0000_0000_0000
    ensures
      var o := ParseMessage(RequestLine(verb, path, query, version), hs, data, client);
      && (o.done <==> |data| >= n)
      && (o.done ==>
            && o.request == LineRequest(verb, path, query, version, client).(
              headers := R.Collect(hs, map[]), body := data[..n], complete := true, valid := true)
            && o.parser.buffer == data[n..])
  {
    var line := RequestLine(verb, path, query, version);
    LineReads(verb, path, query, version, client);
    hide IsLine, RequestLine, ParseMessage, ParseRequestLine, METHODS, VERSIONS, R.Collect, LastSays, OneLine;
    AnnouncedBodyIsRead(line, hs, data, client, n);
    hide AllPrintable, Decimal, UrlDecode;
  }

  /** With an unknown method or version the call is done, the request invalid, and nothing taken from the buffer. */
  lemma UnknownIsInvalid(verb: string, path: string, query: string, version: string, hs: seq<Header>, data: string,
                         client: string)
    requires IsLine(verb, path, query, version) && !(verb in METHODS && version in VERSIONS)
    requires hs != [] && AllPrintable(hs)
    ensures
      var line := RequestLine(verb, path, query, version);
      var o := ParseMessage(line, hs, data, client);
      o.done && !o.request.valid && o.parser.buffer == Message(line, hs, data)
  {
    var line := RequestLine(verb, path, query, version);
    LineReads(verb, path, query, version, client);
    hide IsLine, RequestLine, METHODS, VERSIONS;
    RejectedSteps(line, hs, data, client);
  }

  lemma RejectedSteps(first: string, hs: seq<Header>, data: string, client: string)
    requires OneLine(first) && AllPrintable(hs) && hs != [] && !ParseRequestLine(first, FreshRequest(client)).0
    ensures
      var o := ParseMessage(first, hs, data, client);
      o.done && !o.request.valid && o.parser.buffer == Message(first, hs, data)
  {
    var text, section := Message(first, hs, data), Section(Lines(hs));
    assert CRLF == "\r\n" && |CRLF| == 2 && FRESH == ParserState("", false, 0);
    assert "" + text == text;
    MessageLines(first, hs);
    hide ParseRequestLine, Headers, Print, Section, Lines, WellFormedLines, Terminated, AllPrintable, OccursAt;
    FindBlankLine([first] + Lines(hs), data);
    RejectedSection(first, section, client);
  }

  lemma RejectedSection(first: string, section: string, client: string)
    requires OneLine(first) && !ParseRequestLine(first, FreshRequest(client)).0
    ensures !ParseSection(first + CRLF + section, FreshRequest(client)).0
  {
    assert |CRLF| == 2;
    hide ParseRequestLine, Headers, OccursAt;
    FindCrlfAfterLine(first, section);
    assert (first + CRLF + section)[..|first|] == first;
  }

  /** A message of the request line alone has no body. */
  lemma NoHeadersNoBody(first: string, data: string, client: string)
    requires OneLine(first) && ParseRequestLine(first, FreshRequest(client)).0
    ensures
      var o := Step(FRESH, FreshRequest(client), first + "\r\n\r\n" + data);
      && o.done && o.request == ParseRequestLine(first, FreshRequest(client)).1.(complete := true, valid := true)
      && o.parser.buffer == data
  {
    var text := first + "\r\n\r\n" + data;
    assert CRLF == "\r\n" && |CRLF| == 2 && |BLANK_LINE| == 4 && FRESH == ParserState("", false, 0);
    assert "" + text == text;
    assert [first][1..] == [] && Terminated([]) == "";
    assert Terminated([first]) == first + CRLF && Section([first]) == first;
    assert text == Terminated([first]) + CRLF + data;
    RequestLineShape(first, client);
    NoCrlfInLine(first);
    FindBlankLine([first], data);
    hide ParseRequestLine, Headers, Terminated, Section, OccursAt;
  }

  lemma NoCrlfInLine(first: string)
    requires OneLine(first)
    ensures Find(first, CRLF, 0) == None
  {
    forall i: nat ensures !OccursAt(first, CRLF, i) {
      if i + 2 <= |first| {
        assert first[i..i + 2][1] == first[i + 1];
      }
    }
  }

  /** Without a blank line the call waits for more. */
  lemma NoBlankLineWaits(data: string, client: string)
    requires forall i :: 0 <= i <= |data| ==> !OccursAt(data, "\r\n\r\n", i)
    ensures Step(FRESH, FreshRequest(client), data) == Outcome(ParserState(data, false, 0), FreshRequest(client), false)
  {
    assert "" + data == data;
    hide ParseRequestLine, Headers;
  }

  /** A header line without a colon is skipped. */
  lemma NoColonIsSkipped(line: string, rest: string, headers: map<string, string>)
    requires OneLine(line) && ':' !in line
    ensures Headers(line + ['\n'] + rest, headers) == Headers(rest, headers)
  {
    R.FirstOfHeaders(line, rest, headers);
    var stripped := StripReturn(line);
    assert FindChar(stripped, ':', 0).None? by {
      assert forall c :: c in stripped ==> c in line;
    }
    hide Headers, FindChar;
  }

  /** The usual spelling of the name. */
  lemma UsualName(value: string)
    ensures Names(("Content-Length", value), "content-length")
  {
    R.LowerIs("Content-Length", "content-length");
  }
}
