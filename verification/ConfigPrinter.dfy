/**
 A specification printer for configurations, and the proof that the parser reads back what it prints
 in every layout.  A configuration is printed as directives; `Apply...` says what a directive means.
 */
module ConfigPrinter {
  import opened Wrappers
  import opened Text
  import opened Numbers
  import opened ConfigTokens
  import opened ConfigParser
  import P = ConfigParser

  datatype LocationDirective =
    | Root(v: string)
    | Index(v: string)
    | ProxyPass(v: string)
    | Methods(vs: seq<string>)
    | Autoindex(v: string)

  datatype Unit = Bytes | Kilo | Mega | Giga

  datatype ServerDirective =
    | ListenOn(host: Option<string>, port: int)
    | ServerName(v: string)
    | ServerRoot(v: string)
    | ErrorPage(code: int, v: string)
    | MaxBody(n: nat, size: Unit)
    | RateLimit(limit: int)
    | LocationBlock(v: string, directives: seq<LocationDirective>)

  datatype UpstreamDirective =
    | Backend(host: string, port: Option<int>)
    | Interval(seconds: int)

  datatype Block =
    | Server(items: seq<ServerDirective>)
    | Upstreams(name: string, backends: seq<UpstreamDirective>)

  // ---------------------------------------------------------------------------------------------
  // Meaning
  // ---------------------------------------------------------------------------------------------

  function ApplyLocation(loc: Location, d: LocationDirective): Location {
    match d
    case Root(v) => loc.(root := v)
    case Index(v) => loc.(index := v)
    case ProxyPass(v) => loc.(proxyPass := v)
    case Methods(vs) => loc.(methods := loc.methods + vs)
    case Autoindex(v) => loc.(autoindex := v == "on" || v == "true" || v == "yes")
  }

  function ApplyLocations(loc: Location, ds: seq<LocationDirective>): Location
    decreases |ds|
  {
    if ds == [] then loc else ApplyLocations(ApplyLocation(loc, ds[0]), ds[1..])
  }

  function Scale(size: Unit): nat {
    match size
    case Bytes => 1
    case Kilo => 0x400
    case Mega => 0x10_0000
    case Giga => 0x4000_0000
  }

  function ApplyServer(cfg: ServerConfig, d: ServerDirective): ServerConfig {
    match d
    case ListenOn(host, port) => cfg.(host := if host.Some? then host.value else cfg.host, port := port)
    case ServerName(v) => cfg.(serverName := v)
    case ServerRoot(v) => cfg.(root := v)
    case ErrorPage(code, v) => cfg.(errorPages := cfg.errorPages[code := v])
    case MaxBody(n, size) => cfg.(maxBody := (n * Scale(size)) % TWO_64)
    case RateLimit(limit) => cfg.(rateLimit := limit)
    case LocationBlock(v, ds) => cfg.(locations := cfg.locations + [ApplyLocations(NewLocation(v), ds)])
  }

  function ApplyServers(cfg: ServerConfig, ds: seq<ServerDirective>): ServerConfig
    decreases |ds|
  {
    if ds == [] then cfg else ApplyServers(ApplyServer(cfg, ds[0]), ds[1..])
  }

  function ApplyUpstream(u: Upstream, d: UpstreamDirective): Upstream {
    match d
    case Backend(host, port) => u.(servers := u.servers + [(host, if port.Some? then port.value else 80)])
    case Interval(seconds) => u.(interval := seconds)
  }

  function ApplyUpstreams(u: Upstream, ds: seq<UpstreamDirective>): Upstream
    decreases |ds|
  {
    if ds == [] then u else ApplyUpstreams(ApplyUpstream(u, ds[0]), ds[1..])
  }

  function ApplyBlock(cfg: Config, b: Block): Config {
    match b
    case Server(items) => cfg.(servers := cfg.servers + [ApplyServers(NEW_SERVER, items)])
    case Upstreams(name, backends) =>
      cfg.(upstreams := cfg.upstreams[ApplyUpstreams(NewUpstream(name), backends).name :=
                                      ApplyUpstreams(NewUpstream(name), backends)])
  }

  function ApplyBlocks(cfg: Config, bs: seq<Block>): Config
    decreases |bs|
  {
    if bs == [] then cfg else ApplyBlocks(ApplyBlock(cfg, bs[0]), bs[1..])
  }

  // ---------------------------------------------------------------------------------------------
  // Printing
  // ---------------------------------------------------------------------------------------------

  function Words(vs: seq<string>): seq<Lexeme>
    decreases |vs|
  {
    if vs == [] then [] else [W(vs[0])] + Words(vs[1..])
  }

  function PrintLocation(d: LocationDirective): seq<Lexeme> {
    match d
    case Root(v) => [W("root"), W(v), SEMI]
    case Index(v) => [W("index"), W(v), SEMI]
    case ProxyPass(v) => [W("proxy_pass"), W(v), SEMI]
    case Methods(vs) => [W("methods")] + Words(vs) + [SEMI]
    case Autoindex(v) => [W("autoindex"), W(v), SEMI]
  }

  function PrintLocations(ds: seq<LocationDirective>): seq<Lexeme>
    decreases |ds|
  {
    if ds == [] then [CLOSE] else PrintLocation(ds[0]) + PrintLocations(ds[1..])
  }

  function Suffix(size: Unit): string {
    match size
    case Bytes => ""
    case Kilo => "K"
    case Mega => "M"
    case Giga => "G"
  }

  function HostPort(host: Option<string>, port: int): string {
    (if host.Some? then host.value + ":" else "") + Decimal(port)
  }

  function PrintServer(d: ServerDirective): seq<Lexeme> {
    match d
    case ListenOn(host, port) => [W("listen"), W(HostPort(host, port)), SEMI]
    case ServerName(v) => [W("server_name"), W(v), SEMI]
    case ServerRoot(v) => [W("root"), W(v), SEMI]
    case ErrorPage(code, v) => [W("error_page"), W(Decimal(code)), W(v), SEMI]
    case MaxBody(n, size) => [W("client_max_body_size"), W(Decimal(n) + Suffix(size)), SEMI]
    case RateLimit(limit) => [W("rate_limit"), W(Decimal(limit)), SEMI]
    case LocationBlock(v, ds) => [W("location"), W(v), OPEN] + PrintLocations(ds)
  }

  function PrintServers(ds: seq<ServerDirective>): seq<Lexeme>
    decreases |ds|
  {
    if ds == [] then [CLOSE] else PrintServer(ds[0]) + PrintServers(ds[1..])
  }

  function Address(host: string, port: Option<int>): string {
    if port.Some? then host + ":" + Decimal(port.value) else host
  }

  function PrintUpstream(d: UpstreamDirective): seq<Lexeme> {
    match d
    case Backend(host, port) => [W("server"), W(Address(host, port)), SEMI]
    case Interval(seconds) => [W("health_check_interval"), W(Decimal(seconds)), SEMI]
  }

  function PrintUpstreams(ds: seq<UpstreamDirective>): seq<Lexeme>
    decreases |ds|
  {
    if ds == [] then [CLOSE] else PrintUpstream(ds[0]) + PrintUpstreams(ds[1..])
  }

  function PrintBlock(b: Block): seq<Lexeme> {
    match b
    case Server(items) => [W("server"), OPEN] + PrintServers(items)
    case Upstreams(name, backends) => [W("upstream"), W(name), OPEN] + PrintUpstreams(backends)
  }

  function PrintBlocks(bs: seq<Block>): seq<Lexeme>
    decreases |bs|
  {
    if bs == [] then [] else PrintBlock(bs[0]) + PrintBlocks(bs[1..])
  }

  // ---------------------------------------------------------------------------------------------
  // What can be printed
  // ---------------------------------------------------------------------------------------------

  ghost predicate IsInt(n: int) {
    INT_MIN <= n <= INT_MAX
  }

  /** Characters of a word; unlike a word it may be empty. */
  ghost predicate IsPart(s: string) {
    forall i :: 0 <= i < |s| ==> IsWordChar(s[i])
  }

  ghost predicate GoodLocation(d: LocationDirective) {
    match d
    case Methods(vs) => forall i :: 0 <= i < |vs| ==> IsConfigWord(vs[i])
    case _ => IsConfigWord(d.v)
  }

  ghost predicate GoodServer(d: ServerDirective) {
    match d
    case ListenOn(host, port) => IsInt(port) && (host.Some? ==> IsPart(host.value) && ':' !in host.value)
    case ErrorPage(code, v) => IsInt(code) && IsConfigWord(v)
    case MaxBody(n, _) => n < TWO_64
    case RateLimit(limit) => IsInt(limit)
    case LocationBlock(v, ds) => IsConfigWord(v) && forall i :: 0 <= i < |ds| ==> GoodLocation(ds[i])
    case _ => IsConfigWord(d.v)
  }

  ghost predicate GoodUpstream(d: UpstreamDirective) {
    match d
    case Backend(host, Some(port)) => IsPart(host) && IsInt(port)
    case Backend(host, None) => IsConfigWord(host) && ':' !in host
    case Interval(seconds) => IsInt(seconds)
  }

  ghost predicate GoodBlock(b: Block) {
    match b
    case Server(items) => forall i :: 0 <= i < |items| ==> GoodServer(items[i])
    case Upstreams(name, backends) =>
      IsConfigWord(name) && forall i :: 0 <= i < |backends| ==> GoodUpstream(backends[i])
  }

  ghost predicate GoodBlocks(bs: seq<Block>) {
    forall i :: 0 <= i < |bs| ==> GoodBlock(bs[i])
  }

  // ---------------------------------------------------------------------------------------------
  // Printed tokens are tokens
  // ---------------------------------------------------------------------------------------------

  lemma GoodConcat(a: seq<Lexeme>, b: seq<Lexeme>)
    requires GoodLexemes(a) && GoodLexemes(b)
    ensures GoodLexemes(a + b)
  {
  }

  lemma DecimalPart(n: int)
    ensures IsConfigWord(Decimal(n)) && ':' !in Decimal(n)
  {
    DecimalIsWord(n);
    var d := Decimal(n);
    forall i | 0 <= i < |d| ensures IsWordChar(d[i]) {
      assert d[i] in d;
    }
  }

  lemma Keywords()
    ensures IsConfigWord("listen") && IsConfigWord("server_name") && IsConfigWord("root") && IsConfigWord("error_page")
    ensures IsConfigWord("rate_limit") && IsConfigWord("location") && IsConfigWord("server") && IsConfigWord("upstream")
  {
  }

  lemma LongKeywords()
    ensures IsConfigWord("client_max_body_size") && IsConfigWord("health_check_interval")
  {
  }

  /** A directive with one argument, and the head of a block. */
  lemma GoodTriple(key: string, value: string)
    requires IsConfigWord(key) && IsConfigWord(value)
    ensures GoodLexemes([W(key), W(value), SEMI]) && GoodLexemes([W(key), W(value), OPEN])
  {
  }

  lemma GoodQuadruple(key: string, first: string, second: string)
    requires IsConfigWord(key) && IsConfigWord(first) && IsConfigWord(second)
    ensures GoodLexemes([W(key), W(first), W(second), SEMI])
  {
  }

  lemma HostPortWord(host: Option<string>, port: int)
    requires host.Some? ==> IsPart(host.value)
    ensures IsConfigWord(HostPort(host, port))
  {
    DecimalPart(port);
  }

  lemma SizeWord(n: nat, size: Unit)
    ensures IsConfigWord(Decimal(n) + Suffix(size))
  {
    DecimalPart(n);
  }

  lemma {:induction false} WordsGood(vs: seq<string>)
    requires forall i :: 0 <= i < |vs| ==> IsConfigWord(vs[i])
    ensures GoodLexemes(Words(vs))
    decreases |vs|
  {
    if vs != [] {
      WordsGood(vs[1..]);
    }
  }

  lemma GoodSingle(l: Lexeme)
    requires GoodLexeme(l)
    ensures GoodLexemes([l])
  {
  }

  lemma LocationKeywords()
    ensures IsConfigWord("root") && IsConfigWord("index") && IsConfigWord("proxy_pass")
    ensures IsConfigWord("methods") && IsConfigWord("autoindex")
  {
  }

  lemma MethodsGood(vs: seq<string>)
    requires forall i :: 0 <= i < |vs| ==> IsConfigWord(vs[i])
    ensures GoodLexemes([W("methods")] + Words(vs) + [SEMI])
  {
    LocationKeywords();
    hide GoodLexemes, Words, IsConfigWord;
    WordsGood(vs);
    GoodSingle(W("methods"));
    GoodSingle(SEMI);
    GoodConcat([W("methods")], Words(vs));
    GoodConcat([W("methods")] + Words(vs), [SEMI]);
  }

  lemma LocationGood(d: LocationDirective)
    requires GoodLocation(d)
    ensures GoodLexemes(PrintLocation(d))
  {
    LocationKeywords();
    hide IsConfigWord, GoodLexemes, Words;
    match d
    case Methods(vs) => MethodsGood(vs);
    case Root(v) => GoodTriple("root", v);
    case Index(v) => GoodTriple("index", v);
    case ProxyPass(v) => GoodTriple("proxy_pass", v);
    case Autoindex(v) => GoodTriple("autoindex", v);
  }

  lemma {:induction false} LocationsGood(ds: seq<LocationDirective>)
    requires forall i :: 0 <= i < |ds| ==> GoodLocation(ds[i])
    ensures GoodLexemes(PrintLocations(ds))
    decreases |ds|
  {
    if ds != [] {
      LocationGood(ds[0]);
      LocationsGood(ds[1..]);
      GoodConcat(PrintLocation(ds[0]), PrintLocations(ds[1..]));
    }
  }

  lemma ServerGood(d: ServerDirective)
    requires GoodServer(d)
    ensures GoodLexemes(PrintServer(d))
  {
    Keywords();
    LongKeywords();
    hide IsConfigWord, GoodLexemes, IsPart, GoodLocation, PrintLocations, HostPort, Decimal;
    match d
    case ListenOn(host, port) =>
      HostPortWord(host, port);
      GoodTriple("listen", HostPort(host, port));
    case ErrorPage(code, v) =>
      DecimalPart(code);
      GoodQuadruple("error_page", Decimal(code), v);
    case MaxBody(n, size) =>
      SizeWord(n, size);
      GoodTriple("client_max_body_size", Decimal(n) + Suffix(size));
    case RateLimit(limit) =>
      DecimalPart(limit);
      GoodTriple("rate_limit", Decimal(limit));
    case LocationBlock(v, ds) =>
      LocationsGood(ds);
      GoodTriple("location", v);
      GoodConcat([W("location"), W(v), OPEN], PrintLocations(ds));
    case ServerName(v) => GoodTriple("server_name", v);
    case ServerRoot(v) => GoodTriple("root", v);
  }

  lemma {:induction false} ServersGood(ds: seq<ServerDirective>)
    requires forall i :: 0 <= i < |ds| ==> GoodServer(ds[i])
    ensures GoodLexemes(PrintServers(ds))
    decreases |ds|
  {
    if ds != [] {
      ServerGood(ds[0]);
      ServersGood(ds[1..]);
      GoodConcat(PrintServer(ds[0]), PrintServers(ds[1..]));
    }
  }

  lemma UpstreamGood(d: UpstreamDirective)
    requires GoodUpstream(d)
    ensures GoodLexemes(PrintUpstream(d))
  {
    Keywords();
    LongKeywords();
    hide IsConfigWord, GoodLexemes, IsPart, Decimal;
    match d
    case Backend(host, Some(port)) =>
      HostPortWord(Some(host), port);
      GoodTriple("server", Address(host, Some(port)));
    case Backend(host, None) => GoodTriple("server", host);
    case Interval(seconds) =>
      DecimalPart(seconds);
      GoodTriple("health_check_interval", Decimal(seconds));
  }

  lemma {:induction false} UpstreamsGood(ds: seq<UpstreamDirective>)
    requires forall i :: 0 <= i < |ds| ==> GoodUpstream(ds[i])
    ensures GoodLexemes(PrintUpstreams(ds))
    decreases |ds|
  {
    if ds != [] {
      UpstreamGood(ds[0]);
      UpstreamsGood(ds[1..]);
      GoodConcat(PrintUpstream(ds[0]), PrintUpstreams(ds[1..]));
    }
  }

  lemma BlockGood(b: Block)
    requires GoodBlock(b)
    ensures GoodLexemes(PrintBlock(b))
  {
    Keywords();
    LongKeywords();
    hide IsConfigWord, GoodServer, GoodUpstream, PrintServers, PrintUpstreams;
    match b
    case Server(items) =>
      ServersGood(items);
      GoodConcat([W("server"), OPEN], PrintServers(items));
    case Upstreams(name, backends) =>
      UpstreamsGood(backends);
      GoodTriple("upstream", name);
      GoodConcat([W("upstream"), W(name), OPEN], PrintUpstreams(backends));
  }

  lemma {:induction false} BlocksGood(bs: seq<Block>)
    requires GoodBlocks(bs)
    ensures GoodLexemes(PrintBlocks(bs))
    decreases |bs|
  {
    if bs != [] {
      hide GoodLexemes, GoodBlock, PrintBlock;
      BlockGood(bs[0]);
      BlocksGood(bs[1..]);
      GoodConcat(PrintBlock(bs[0]), PrintBlocks(bs[1..]));
    }
  }

  // ---------------------------------------------------------------------------------------------
  // The parser on printed directives
  // ---------------------------------------------------------------------------------------------

  /** The lexemes `xs` stand at position `i`. */
  ghost predicate Follows(ls: seq<Lexeme>, i: nat, xs: seq<Lexeme>) {
    i + |xs| <= |ls| && ls[i..i + |xs|] == xs
  }

  lemma FollowsAt(ls: seq<Lexeme>, i: nat, xs: seq<Lexeme>, k: nat)
    requires Follows(ls, i, xs) && k < |xs|
    ensures i + k < |ls| && ls[i + k] == xs[k]
  {
    assert ls[i..i + |xs|][k] == ls[i + k];
  }

  lemma FollowsConcat(ls: seq<Lexeme>, i: nat, a: seq<Lexeme>, b: seq<Lexeme>)
    requires Follows(ls, i, a + b)
    ensures Follows(ls, i, a) && Follows(ls, i + |a|, b)
  {
    var s := ls[i..i + |a + b|];
    assert s[..|a|] == a && s[|a|..] == b;
    assert ls[i..i + |a|] == s[..|a|] && ls[i + |a|..i + |a| + |b|] == s[|a|..];
  }

  lemma {:induction false} WordsParse(ls: seq<Lexeme>, i: nat, vs: seq<string>)
    requires Follows(ls, i, Words(vs) + [SEMI])
    ensures |Words(vs)| == |vs| && WordsAt(ls, i) == (vs, i + |vs|) && At(ls, i + |vs|, Semicolon)
    decreases |vs|
  {
    if vs == [] {
      assert Words(vs) + [SEMI] == [SEMI];
      FollowsAt(ls, i, [SEMI], 0);
    } else {
      assert Words(vs) + [SEMI] == [W(vs[0])] + (Words(vs[1..]) + [SEMI]);
      FollowsConcat(ls, i, [W(vs[0])], Words(vs[1..]) + [SEMI]);
      FollowsAt(ls, i, [W(vs[0])], 0);
      WordsParse(ls, i + 1, vs[1..]);
      assert [vs[0]] + vs[1..] == vs;
    }
  }

  lemma LocationParses(ls: seq<Lexeme>, i: nat, loc: Location, d: LocationDirective)
    requires Follows(ls, i, PrintLocation(d))
    ensures P.LocationDirective(ls, i, loc) == Ok((ApplyLocation(loc, d), i + |PrintLocation(d)|))
    ensures At(ls, i, Word)
  {
    var xs := PrintLocation(d);
    FollowsAt(ls, i, xs, 0);
    if d.Methods? {
      assert xs == [W("methods")] + (Words(d.vs) + [SEMI]);
      FollowsConcat(ls, i, [W("methods")], Words(d.vs) + [SEMI]);
      WordsParse(ls, i + 1, d.vs);
    } else {
      FollowsAt(ls, i, xs, 1);
      FollowsAt(ls, i, xs, 2);
    }
  }

  lemma {:induction false} LocationsParse(ls: seq<Lexeme>, i: nat, loc: Location, ds: seq<LocationDirective>)
    requires Follows(ls, i, PrintLocations(ds))
    ensures LocationBody(ls, i, loc) == Ok((ApplyLocations(loc, ds), i + |PrintLocations(ds)|))
    decreases |ds|
  {
    hide P.LocationDirective, PrintLocation, ApplyLocation;
    if ds == [] {
      FollowsAt(ls, i, [CLOSE], 0);
    } else {
      FollowsConcat(ls, i, PrintLocation(ds[0]), PrintLocations(ds[1..]));
      LocationParses(ls, i, loc, ds[0]);
      LocationsParse(ls, i + |PrintLocation(ds[0])|, ApplyLocation(loc, ds[0]), ds[1..]);
    }
  }

  lemma ReadIntDecimal(n: int)
    requires IsInt(n)
    ensures ReadInt(Decimal(n)) == Ok(n)
  {
    StoiDecimal(n);
  }

  lemma ListenReads(cfg: ServerConfig, host: Option<string>, port: int)
    requires IsInt(port) && (host.Some? ==> ':' !in host.value)
    ensures Listen(cfg, HostPort(host, port)) == Ok(ApplyServer(cfg, ListenOn(host, port)))
  {
    ReadIntDecimal(port);
    DecimalPart(port);
    hide Decimal, ReadInt, IsConfigWord;
    var text := HostPort(host, port);
    if host.Some? {
      assert text == host.value + [':'] + Decimal(port);
      FindCharAt(host.value, ':', Decimal(port));
      assert text[..|host.value|] == host.value && text[|host.value| + 1..] == Decimal(port);
    } else {
      assert text == Decimal(port) && text[0..] == text;
    }
  }

  lemma PlainSizeReads(n: nat)
    requires n < TWO_64
    ensures ReadSize(Decimal(n)) == Ok(n)
  {
    hide Decimal, Stoul, Multiplier;
    StoulDecimal(n);
    DecimalEndsInDigit(n);
  }

  lemma DecimalEndsInDigit(n: nat)
    ensures Decimal(n) != "" && Multiplier(Decimal(n)[|Decimal(n)| - 1]) == 1
  {
    var d := Decimal(n);
    assert IsDigit(d[|d| - 1]);
    hide Decimal, Digits;
  }

  lemma SuffixedSizeReads(n: nat, c: char)
    requires n < TWO_64 && Multiplier(c) > 1
    ensures ReadSize(Decimal(n) + [c]) == Ok((n * Multiplier(c)) % TWO_64)
  {
    StoulDecimal(n);
    hide Decimal, Stoul, Multiplier;
    var text := Decimal(n) + [c];
    assert text[..|text| - 1] == Decimal(n) && text[|text| - 1] == c;
  }

  lemma SizeReads(n: nat, size: Unit)
    requires n < TWO_64
    ensures ReadSize(Decimal(n) + Suffix(size)) == Ok((n * Scale(size)) % TWO_64)
  {
    hide ReadSize, Decimal;
    match size
    case Bytes =>
      PlainSizeReads(n);
      assert Decimal(n) + "" == Decimal(n);
    case Kilo => SuffixedSizeReads(n, 'K');
    case Mega => SuffixedSizeReads(n, 'M');
    case Giga => SuffixedSizeReads(n, 'G');
  }

  /** Sizes in either case of the suffix. */
  lemma SizeReadsEitherCase(n: nat)
    requires n < TWO_64
    ensures ReadSize(Decimal(n) + "k") == ReadSize(Decimal(n) + "K") == Ok((n * 0x400) % TWO_64)
    ensures ReadSize(Decimal(n) + "m") == ReadSize(Decimal(n) + "M") == Ok((n * 0x10_0000) % TWO_64)
    ensures ReadSize(Decimal(n) + "g") == ReadSize(Decimal(n) + "G") == Ok((n * 0x4000_0000) % TWO_64)
  {
    hide ReadSize, Decimal;
    SuffixedSizeReads(n, 'k');
    SuffixedSizeReads(n, 'K');
    SuffixedSizeReads(n, 'm');
    SuffixedSizeReads(n, 'M');
    SuffixedSizeReads(n, 'g');
    SuffixedSizeReads(n, 'G');
  }

  lemma {:induction false} FindLastIs(a: string, c: char, b: string)
    requires c !in b
    ensures FindLast(a + [c] + b, c) == Some(|a|)
    decreases |b|
  {
    var s := a + [c] + b;
    if b == "" {
      assert s == a + [c];
    } else {
      var init := b[..|b| - 1];
      FindLastIs(a, c, init);
      assert s[..|s| - 1] == a + [c] + init && s[|s| - 1] == b[|b| - 1];
    }
  }

  lemma AddressReads(host: string, port: Option<int>)
    requires port.Some? ==> IsInt(port.value)
    requires port.None? ==> ':' !in host
    ensures ReadAddress(Address(host, port)) == Ok((host, if port.Some? then port.value else 80))
  {
    hide Decimal, ReadInt, IsConfigWord, FindLast;
    if port.Some? {
      ReadIntDecimal(port.value);
      DecimalPart(port.value);
      FindLastIs(host, ':', Decimal(port.value));
      CutAt(host, ':', Decimal(port.value));
    } else {
      assert FindLast(host, ':').None?;
    }
  }

  lemma CutAt(a: string, c: char, b: string)
    ensures var s := a + [c] + b; s[..|a|] == a && s[|a| + 1..] == b
  {
  }

  /** The head of a block with a name. */
  lemma HeadParses(ls: seq<Lexeme>, i: nat, key: string, name: string, body: seq<Lexeme>)
    requires Follows(ls, i, [W(key), W(name), OPEN] + body)
    ensures AtWord(ls, i, key) && AtWord(ls, i + 1, name) && At(ls, i + 2, LBrace) && Follows(ls, i + 3, body)
  {
    var xs := [W(key), W(name), OPEN];
    FollowsConcat(ls, i, xs, body);
    hide Follows;
    FollowsAt(ls, i, xs, 0);
    FollowsAt(ls, i, xs, 1);
    FollowsAt(ls, i, xs, 2);
  }

  lemma LocationBlockParses(ls: seq<Lexeme>, i: nat, v: string, ds: seq<LocationDirective>)
    requires Follows(ls, i, [W("location"), W(v), OPEN] + PrintLocations(ds))
    ensures P.LocationBlock(ls, i) == Ok((ApplyLocations(NewLocation(v), ds), i + 3 + |PrintLocations(ds)|))
    ensures AtWord(ls, i, "location")
  {
    hide Follows, LocationBody, ApplyLocations, PrintLocations, NewLocation;
    HeadParses(ls, i, "location", v, PrintLocations(ds));
    LocationsParse(ls, i + 3, NewLocation(v), ds);
  }

  /** A directive with one argument. */
  lemma TripleParses(ls: seq<Lexeme>, i: nat, key: string, value: string)
    requires Follows(ls, i, [W(key), W(value), SEMI])
    ensures i + 2 < |ls| && AtWord(ls, i, key) && AtWord(ls, i + 1, value) && At(ls, i + 2, Semicolon)
    ensures Argument(ls, i + 1) == Ok((value, i + 3))
  {
    var xs := [W(key), W(value), SEMI];
    FollowsAt(ls, i, xs, 0);
    FollowsAt(ls, i, xs, 1);
    FollowsAt(ls, i, xs, 2);
  }

  /** A directive with two arguments. */
  lemma QuadrupleParses(ls: seq<Lexeme>, i: nat, key: string, first: string, second: string)
    requires Follows(ls, i, [W(key), W(first), W(second), SEMI])
    ensures AtWord(ls, i, key) && AtWord(ls, i + 1, first) && Argument(ls, i + 2) == Ok((second, i + 4))
  {
    var xs := [W(key), W(first), W(second), SEMI];
    FollowsAt(ls, i, xs, 0);
    FollowsAt(ls, i, xs, 1);
    FollowsAt(ls, i, xs, 2);
    FollowsAt(ls, i, xs, 3);
    hide Follows;
  }

  lemma ErrorPageParses(ls: seq<Lexeme>, i: nat, cfg: ServerConfig, code: int, v: string)
    requires IsInt(code) && Follows(ls, i, PrintServer(ErrorPage(code, v)))
    ensures ServerItem(ls, i, cfg) == Ok((ApplyServer(cfg, ErrorPage(code, v)), i + 4)) && At(ls, i, Word)
  {
    hide ReadInt, Decimal, Follows;
    ReadIntDecimal(code);
    QuadrupleParses(ls, i, "error_page", Decimal(code), v);
  }

  lemma ListenParses(ls: seq<Lexeme>, i: nat, cfg: ServerConfig, host: Option<string>, port: int)
    requires IsInt(port) && (host.Some? ==> ':' !in host.value)
    requires Follows(ls, i, [W("listen"), W(HostPort(host, port)), SEMI])
    ensures ServerItem(ls, i, cfg) == Ok((ApplyServer(cfg, ListenOn(host, port)), i + 3)) && At(ls, i, Word)
  {
    hide Listen, HostPort, Follows, IsInt, ApplyServer;
    ListenReads(cfg, host, port);
    TripleParses(ls, i, "listen", HostPort(host, port));
  }

  lemma NameParses(ls: seq<Lexeme>, i: nat, cfg: ServerConfig, d: ServerDirective)
    requires (d.ServerName? || d.ServerRoot?) && Follows(ls, i, PrintServer(d))
    ensures ServerItem(ls, i, cfg) == Ok((ApplyServer(cfg, d), i + 3)) && At(ls, i, Word)
  {
    hide Follows;
    TripleParses(ls, i, if d.ServerName? then "server_name" else "root", d.v);
  }

  lemma MaxBodyParses(ls: seq<Lexeme>, i: nat, cfg: ServerConfig, n: nat, size: Unit)
    requires n < TWO_64 && Follows(ls, i, [W("client_max_body_size"), W(Decimal(n) + Suffix(size)), SEMI])
    ensures ServerItem(ls, i, cfg) == Ok((ApplyServer(cfg, MaxBody(n, size)), i + 3)) && At(ls, i, Word)
  {
    hide ReadSize, Decimal, Follows, Suffix, Scale;
    SizeReads(n, size);
    TripleParses(ls, i, "client_max_body_size", Decimal(n) + Suffix(size));
  }

  lemma RateLimitParses(ls: seq<Lexeme>, i: nat, cfg: ServerConfig, limit: int)
    requires IsInt(limit) && Follows(ls, i, [W("rate_limit"), W(Decimal(limit)), SEMI])
    ensures ServerItem(ls, i, cfg) == Ok((ApplyServer(cfg, RateLimit(limit)), i + 3)) && At(ls, i, Word)
  {
    hide ReadInt, Decimal, Follows, IsInt;
    ReadIntDecimal(limit);
    TripleParses(ls, i, "rate_limit", Decimal(limit));
  }

  lemma LocationItemParses(ls: seq<Lexeme>, i: nat, cfg: ServerConfig, v: string, ds: seq<LocationDirective>)
    requires Follows(ls, i, [W("location"), W(v), OPEN] + PrintLocations(ds))
    ensures ServerItem(ls, i, cfg) == Ok((ApplyServer(cfg, LocationBlock(v, ds)), i + 3 + |PrintLocations(ds)|))
    ensures At(ls, i, Word)
  {
    hide Follows, P.LocationBlock, P.ServerDirective, PrintLocations, ApplyLocations;
    LocationBlockParses(ls, i, v, ds);
  }

  lemma ServerParses(ls: seq<Lexeme>, i: nat, cfg: ServerConfig, d: ServerDirective)
    requires GoodServer(d) && Follows(ls, i, PrintServer(d))
    ensures ServerItem(ls, i, cfg) == Ok((ApplyServer(cfg, d), i + |PrintServer(d)|)) && At(ls, i, Word)
  {
    hide Follows, ServerItem, ApplyServer, HostPort, Decimal, Suffix, PrintLocations, IsConfigWord, IsPart,
         GoodLocation;
    match d
    case ListenOn(host, port) => ListenParses(ls, i, cfg, host, port);
    case ErrorPage(code, v) => ErrorPageParses(ls, i, cfg, code, v);
    case MaxBody(n, size) => MaxBodyParses(ls, i, cfg, n, size);
    case RateLimit(limit) => RateLimitParses(ls, i, cfg, limit);
    case LocationBlock(v, ds) => LocationItemParses(ls, i, cfg, v, ds);
    case _ => NameParses(ls, i, cfg, d);
  }

  lemma {:induction false} ServersParse(ls: seq<Lexeme>, i: nat, cfg: ServerConfig, ds: seq<ServerDirective>)
    requires (forall k :: 0 <= k < |ds| ==> GoodServer(ds[k])) && Follows(ls, i, PrintServers(ds))
    ensures ServerBody(ls, i, cfg) == Ok((ApplyServers(cfg, ds), i + |PrintServers(ds)|))
    decreases |ds|
  {
    hide ServerItem, PrintServer, ApplyServer, GoodServer;
    if ds == [] {
      FollowsAt(ls, i, [CLOSE], 0);
    } else {
      FollowsConcat(ls, i, PrintServer(ds[0]), PrintServers(ds[1..]));
      ServerParses(ls, i, cfg, ds[0]);
      ServersParse(ls, i + |PrintServer(ds[0])|, ApplyServer(cfg, ds[0]), ds[1..]);
    }
  }

  lemma UpstreamParses(ls: seq<Lexeme>, i: nat, u: Upstream, d: UpstreamDirective)
    requires GoodUpstream(d) && Follows(ls, i, PrintUpstream(d))
    ensures P.UpstreamDirective(ls, i, u) == Ok((ApplyUpstream(u, d), i + 3)) && |PrintUpstream(d)| == 3
    ensures At(ls, i, Word)
  {
    match d
    case Backend(host, port) =>
      AddressReads(host, port);
      hide ReadAddress, Address, Follows;
      TripleParses(ls, i, "server", Address(host, port));
    case Interval(seconds) =>
      ReadIntDecimal(seconds);
      hide ReadInt, Decimal, Follows;
      TripleParses(ls, i, "health_check_interval", Decimal(seconds));
  }

  lemma {:induction false} UpstreamsParse(ls: seq<Lexeme>, i: nat, u: Upstream, ds: seq<UpstreamDirective>)
    requires (forall k :: 0 <= k < |ds| ==> GoodUpstream(ds[k])) && Follows(ls, i, PrintUpstreams(ds))
    ensures UpstreamBody(ls, i, u) == Ok((ApplyUpstreams(u, ds), i + |PrintUpstreams(ds)|))
    decreases |ds|
  {
    hide P.UpstreamDirective, PrintUpstream, ApplyUpstream, GoodUpstream;
    if ds == [] {
      FollowsAt(ls, i, [CLOSE], 0);
    } else {
      FollowsConcat(ls, i, PrintUpstream(ds[0]), PrintUpstreams(ds[1..]));
      UpstreamParses(ls, i, u, ds[0]);
      UpstreamsParse(ls, i + 3, ApplyUpstream(u, ds[0]), ds[1..]);
    }
  }

  lemma ServerBlockParses(ls: seq<Lexeme>, i: nat, items: seq<ServerDirective>)
    requires forall k :: 0 <= k < |items| ==> GoodServer(items[k])
    requires Follows(ls, i, [W("server"), OPEN] + PrintServers(items))
    ensures AtWord(ls, i, "server")
    ensures ServerBlock(ls, i) == Ok((ApplyServers(NEW_SERVER, items), i + 2 + |PrintServers(items)|))
  {
    hide Follows, ServerBody, ApplyServers, PrintServers, GoodServer;
    var xs := [W("server"), OPEN];
    FollowsConcat(ls, i, xs, PrintServers(items));
    FollowsAt(ls, i, xs, 0);
    FollowsAt(ls, i, xs, 1);
    ServersParse(ls, i + 2, NEW_SERVER, items);
  }

  lemma UpstreamBlockParses(ls: seq<Lexeme>, i: nat, name: string, ds: seq<UpstreamDirective>)
    requires forall k :: 0 <= k < |ds| ==> GoodUpstream(ds[k])
    requires Follows(ls, i, [W("upstream"), W(name), OPEN] + PrintUpstreams(ds))
    ensures AtWord(ls, i, "upstream")
    ensures UpstreamBlock(ls, i) == Ok((ApplyUpstreams(NewUpstream(name), ds), i + 3 + |PrintUpstreams(ds)|))
  {
    hide Follows, UpstreamBody, ApplyUpstreams, PrintUpstreams, NewUpstream, GoodUpstream;
    HeadParses(ls, i, "upstream", name, PrintUpstreams(ds));
    UpstreamsParse(ls, i + 3, NewUpstream(name), ds);
  }

  lemma BlockParses(ls: seq<Lexeme>, i: nat, cfg: Config, b: Block)
    requires GoodBlock(b) && Follows(ls, i, PrintBlock(b))
    ensures i < |ls| && Blocks(ls, i, cfg) == Blocks(ls, i + |PrintBlock(b)|, ApplyBlock(cfg, b))
  {
    hide Follows, ServerBlock, UpstreamBlock, PrintServers, PrintUpstreams, ApplyServers, ApplyUpstreams, GoodServer,
         GoodUpstream, IsConfigWord, NewUpstream;
    match b
    case Server(items) => ServerBlockParses(ls, i, items);
    case Upstreams(name, backends) => UpstreamBlockParses(ls, i, name, backends);
  }

  lemma {:induction false} BlocksParse(ls: seq<Lexeme>, i: nat, cfg: Config, bs: seq<Block>)
    requires GoodBlocks(bs) && Follows(ls, i, PrintBlocks(bs)) && i + |PrintBlocks(bs)| == |ls|
    ensures Blocks(ls, i, cfg) == Ok(ApplyBlocks(cfg, bs))
    decreases |bs|
  {
    if bs != [] {
      hide GoodBlock, PrintBlock, ApplyBlock, Blocks, Follows;
      assert GoodBlock(bs[0]);
      FollowsConcat(ls, i, PrintBlock(bs[0]), PrintBlocks(bs[1..]));
      BlockParses(ls, i, cfg, bs[0]);
      BlocksParse(ls, i + |PrintBlock(bs[0])|, ApplyBlock(cfg, bs[0]), bs[1..]);
    }
  }

  const EMPTY: Config := Config([], map[])

  /** Every list of directives means, once printed in any layout and parsed, what it says. */
  lemma DirectivesRoundTrip(bs: seq<Block>, gaps: seq<string>, tail: string)
    requires GoodBlocks(bs) && GoodLayout(PrintBlocks(bs), gaps, tail)
    ensures Parse(Render(PrintBlocks(bs), gaps, tail)) ==
            if ApplyBlocks(EMPTY, bs).servers == [] then Err(NoServerError) else Ok(ApplyBlocks(EMPTY, bs))
  {
    var ls := PrintBlocks(bs);
    BlocksGood(bs);
    LayoutIsInvisible(ls, gaps, tail, 1);
    assert ls[0..0 + |ls|] == ls;
    BlocksParse(ls, 0, EMPTY, bs);
    hide Blocks, ApplyBlocks, GoodLayout, GoodBlocks, GoodLexemes, Tokenize, Render;
  }
}
