/**
 The recursive-descent configuration parser (src/config/config_parser.cpp, stage 2).

 The grammar functions work on lexemes, without lines, and report an error by the index of the token
 where the source raises it.  The class works on tokens; its methods are proved to return what the
 grammar functions say, with that index turned into a line.
 */
module ConfigParser {
  import opened Wrappers
  import opened Text
  import opened Numbers
  import opened ConfigTokens

  datatype Location = Location(
    path: string, root: string, index: string, proxyPass: string, methods: seq<string>, autoindex: bool)

  datatype ServerConfig = ServerConfig(
    port: int, host: string, serverName: string, root: string, maxBody: nat, rateLimit: int,
    errorPages: map<int, string>, locations: seq<Location>)

  datatype Upstream = Upstream(name: string, servers: seq<(string, int)>, interval: int)

  datatype Config = Config(servers: seq<ServerConfig>, upstreams: map<string, Upstream>)

  function NewLocation(path: string): Location {
    Location(path, "", "index.html", "", [], false)
  }

  const NEW_SERVER: ServerConfig := ServerConfig(8080, "0.0.0.0", "localhost", "./www", 1048576, 0, map[], [])

  function NewUpstream(name: string): Upstream {
    Upstream(name, [], 5)
  }

  datatype Reason =
    | UnexpectedEnd(expected: Kind)
    | Unexpected(expected: Kind, got: Lexeme)
    | Unclosed(block: string)
    | UnknownDirective(block: string, name: string)
    | NotABlock(found: string)

  /** `Syntax` is a ConfigError raised at a token; the others are the standard exceptions. */
  datatype Fault = Syntax(at: nat, why: Reason) | BadNumber(text: string) | NoServer

  type Parsed<T> = Result<(T, nat), Fault>

  // ---------------------------------------------------------------------------------------------
  // Numbers
  // ---------------------------------------------------------------------------------------------

  function ReadInt(text: string): Result<int, Fault> {
    match Stoi(text) case Some(n) => Ok(n) case None => Err(BadNumber(text))
  }

  function Multiplier(suffix: char): nat {
    if suffix == 'K' || suffix == 'k' then 1024
    else if suffix == 'M' || suffix == 'm' then 1024 * 1024
    else if suffix == 'G' || suffix == 'g' then 1024 * 1024 * 1024
    else 1
  }

  /** `parse_size`; the product is taken modulo 2^64. */
  function ReadSize(text: string): Result<nat, Fault> {
    if text == "" then Ok(0)
    else
      var factor := Multiplier(text[|text| - 1]);
      match Stoul(if factor == 1 then text else text[..|text| - 1])
      case Some(n) => Ok((n * factor) % TWO_64)
      case None => Err(BadNumber(text))
  }

  /** `addr.find_last_of(':')`. */
  function FindLast(s: string, c: char): (r: Option<nat>)
    ensures r.Some? ==> r.value < |s| && s[r.value] == c && c !in s[r.value + 1..]
    ensures r.None? ==> c !in s
  {
    if s == "" then None
    else if s[|s| - 1] == c then Some(|s| - 1)
    else
      assert s == s[..|s| - 1] + [s[|s| - 1]];
      FindLast(s[..|s| - 1], c)
  }

  // ---------------------------------------------------------------------------------------------
  // The grammar
  // ---------------------------------------------------------------------------------------------

  predicate At(ls: seq<Lexeme>, i: nat, kind: Kind) {
    i < |ls| && ls[i].kind == kind
  }

  predicate AtWord(ls: seq<Lexeme>, i: nat, value: string) {
    At(ls, i, Word) && ls[i].value == value
  }

  /** `consume`. */
  function Expect(ls: seq<Lexeme>, i: nat, kind: Kind): (r: Result<string, Fault>)
    ensures r.Ok? <==> At(ls, i, kind)
  {
    if i >= |ls| then Err(Syntax(i, UnexpectedEnd(kind)))
    else if ls[i].kind != kind then Err(Syntax(i, Unexpected(kind, ls[i])))
    else Ok(ls[i].value)
  }

  /** One word and a semicolon. */
  function Argument(ls: seq<Lexeme>, i: nat): (r: Parsed<string>)
    ensures r.Ok? ==> r.value.1 == i + 2 <= |ls|
  {
    var v :- Expect(ls, i, Word);
    var _ :- Expect(ls, i + 1, Semicolon);
    Ok((v, i + 2))
  }

  /** The words up to the next token of another kind. */
  function WordsAt(ls: seq<Lexeme>, i: nat): (r: (seq<string>, nat))
    ensures i <= |ls| ==> i <= r.1 <= |ls|
    ensures i > |ls| ==> r.1 == i
    decreases |ls| - i
  {
    if At(ls, i, Word) then
      var (vs, j) := WordsAt(ls, i + 1);
      ([ls[i].value] + vs, j)
    else ([], i)
  }

  predicate IsOn(value: string) {
    value == "on" || value == "true" || value == "yes"
  }

  function LocationDirective(ls: seq<Lexeme>, i: nat, loc: Location): (r: Parsed<Location>)
    ensures r.Ok? ==> i < r.value.1 <= |ls|
  {
    var d :- Expect(ls, i, Word);
    if d == "root" then
      var (v, j) :- Argument(ls, i + 1);
      Ok((loc.(root := v), j))
    else if d == "index" then
      var (v, j) :- Argument(ls, i + 1);
      Ok((loc.(index := v), j))
    else if d == "proxy_pass" then
      var (v, j) :- Argument(ls, i + 1);
      Ok((loc.(proxyPass := v), j))
    else if d == "methods" then
      var (vs, j) := WordsAt(ls, i + 1);
      var _ :- Expect(ls, j, Semicolon);
      Ok((loc.(methods := loc.methods + vs), j + 1))
    else if d == "autoindex" then
      var (v, j) :- Argument(ls, i + 1);
      Ok((loc.(autoindex := IsOn(v)), j))
    else Err(Syntax(i + 1, UnknownDirective("location", d)))
  }

  function LocationBody(ls: seq<Lexeme>, i: nat, loc: Location): (r: Parsed<Location>)
    ensures r.Ok? ==> i < r.value.1 <= |ls|
    decreases |ls| - i
  {
    if At(ls, i, RBrace) then Ok((loc, i + 1))
    else if i >= |ls| then Err(Syntax(i, Unclosed("location")))
    else
      var (loc', j) :- LocationDirective(ls, i, loc);
      LocationBody(ls, j, loc')
  }

  function LocationBlock(ls: seq<Lexeme>, i: nat): (r: Parsed<Location>)
    ensures r.Ok? ==> i < r.value.1 <= |ls|
  {
    var _ :- Expect(ls, i, Word);
    var path :- Expect(ls, i + 1, Word);
    var _ :- Expect(ls, i + 2, LBrace);
    LocationBody(ls, i + 3, NewLocation(path))
  }

  /** `listen`: an optional host before the first colon. */
  function Listen(cfg: ServerConfig, value: string): Result<ServerConfig, Fault> {
    match FindChar(value, ':', 0)
    case Some(colon) =>
      var port :- ReadInt(value[colon + 1..]);
      Ok(cfg.(host := value[..colon], port := port))
    case None =>
      var port :- ReadInt(value);
      Ok(cfg.(port := port))
  }

  /** In each case the numbers are converted before the semicolon is looked at. */
  function ServerDirective(ls: seq<Lexeme>, i: nat, cfg: ServerConfig): (r: Parsed<ServerConfig>)
    ensures r.Ok? ==> i < r.value.1 <= |ls|
  {
    var d :- Expect(ls, i, Word);
    if d == "listen" then
      var v :- Expect(ls, i + 1, Word);
      var cfg' :- Listen(cfg, v);
      var _ :- Expect(ls, i + 2, Semicolon);
      Ok((cfg', i + 3))
    else if d == "server_name" then
      var (v, j) :- Argument(ls, i + 1);
      Ok((cfg.(serverName := v), j))
    else if d == "root" then
      var (v, j) :- Argument(ls, i + 1);
      Ok((cfg.(root := v), j))
    else if d == "error_page" then
      var c :- Expect(ls, i + 1, Word);
      var code :- ReadInt(c);
      var (path, j) :- Argument(ls, i + 2);
      Ok((cfg.(errorPages := cfg.errorPages[code := path]), j))
    else if d == "client_max_body_size" then
      var v :- Expect(ls, i + 1, Word);
      var n :- ReadSize(v);
      var _ :- Expect(ls, i + 2, Semicolon);
      Ok((cfg.(maxBody := n), i + 3))
    else if d == "rate_limit" then
      var v :- Expect(ls, i + 1, Word);
      var n :- ReadInt(v);
      var _ :- Expect(ls, i + 2, Semicolon);
      Ok((cfg.(rateLimit := n), i + 3))
    else Err(Syntax(i + 1, UnknownDirective("server", d)))
  }

  function ServerItem(ls: seq<Lexeme>, i: nat, cfg: ServerConfig): (r: Parsed<ServerConfig>)
    ensures r.Ok? ==> i < r.value.1 <= |ls|
  {
    if AtWord(ls, i, "location") then
      var (loc, j) :- LocationBlock(ls, i);
      Ok((cfg.(locations := cfg.locations + [loc]), j))
    else ServerDirective(ls, i, cfg)
  }

  function ServerBody(ls: seq<Lexeme>, i: nat, cfg: ServerConfig): (r: Parsed<ServerConfig>)
    ensures r.Ok? ==> i < r.value.1 <= |ls|
    decreases |ls| - i
  {
    if At(ls, i, RBrace) then Ok((cfg, i + 1))
    else if i >= |ls| then Err(Syntax(i, Unclosed("server")))
    else
      var (cfg', j) :- ServerItem(ls, i, cfg);
      ServerBody(ls, j, cfg')
  }

  function ServerBlock(ls: seq<Lexeme>, i: nat): (r: Parsed<ServerConfig>)
    ensures r.Ok? ==> i < r.value.1 <= |ls|
  {
    var _ :- Expect(ls, i, Word);
    var _ :- Expect(ls, i + 1, LBrace);
    ServerBody(ls, i + 2, NEW_SERVER)
  }

  /** `host:port`, cut at the last colon; port 80 when there is none. */
  function ReadAddress(addr: string): Result<(string, int), Fault> {
    match FindLast(addr, ':')
    case Some(colon) =>
      var port :- ReadInt(addr[colon + 1..]);
      Ok((addr[..colon], port))
    case None => Ok((addr, 80))
  }

  function UpstreamDirective(ls: seq<Lexeme>, i: nat, u: Upstream): (r: Parsed<Upstream>)
    ensures r.Ok? ==> i < r.value.1 <= |ls|
  {
    var d :- Expect(ls, i, Word);
    if d == "server" then
      var v :- Expect(ls, i + 1, Word);
      var addr :- ReadAddress(v);
      var _ :- Expect(ls, i + 2, Semicolon);
      Ok((u.(servers := u.servers + [addr]), i + 3))
    else if d == "health_check_interval" then
      var v :- Expect(ls, i + 1, Word);
      var n :- ReadInt(v);
      var _ :- Expect(ls, i + 2, Semicolon);
      Ok((u.(interval := n), i + 3))
    else Err(Syntax(i + 1, UnknownDirective("upstream", d)))
  }

  function UpstreamBody(ls: seq<Lexeme>, i: nat, u: Upstream): (r: Parsed<Upstream>)
    ensures r.Ok? ==> i < r.value.1 <= |ls|
    decreases |ls| - i
  {
    if At(ls, i, RBrace) then Ok((u, i + 1))
    else if i >= |ls| then Err(Syntax(i, Unclosed("upstream")))
    else
      var (u', j) :- UpstreamDirective(ls, i, u);
      UpstreamBody(ls, j, u')
  }

  function UpstreamBlock(ls: seq<Lexeme>, i: nat): (r: Parsed<Upstream>)
    ensures r.Ok? ==> i < r.value.1 <= |ls|
  {
    var _ :- Expect(ls, i, Word);
    var name :- Expect(ls, i + 1, Word);
    var _ :- Expect(ls, i + 2, LBrace);
    UpstreamBody(ls, i + 3, NewUpstream(name))
  }

  /** A later upstream block replaces an earlier one of the same name. */
  function Blocks(ls: seq<Lexeme>, i: nat, cfg: Config): Result<Config, Fault>
    decreases |ls| - i
  {
    if i >= |ls| then Ok(cfg)
    else if AtWord(ls, i, "server") then
      var (server, j) :- ServerBlock(ls, i);
      Blocks(ls, j, cfg.(servers := cfg.servers + [server]))
    else if AtWord(ls, i, "upstream") then
      var (u, j) :- UpstreamBlock(ls, i);
      Blocks(ls, j, cfg.(upstreams := cfg.upstreams[u.name := u]))
    else Err(Syntax(i, NotABlock(ls[i].value)))
  }

  function ParseLexemes(ls: seq<Lexeme>): Result<Config, Fault> {
    var cfg :- Blocks(ls, 0, Config([], map[]));
    if cfg.servers == [] then Err(NoServer) else Ok(cfg)
  }

  // ---------------------------------------------------------------------------------------------
  // Errors with lines
  // ---------------------------------------------------------------------------------------------

  datatype Error = ConfigError(line: int, why: Reason) | NumberError(text: string) | NoServerError

  /** `error()`: the line of the current token, or -1 at the end. */
  function Located(ts: seq<Token>, f: Fault): Error {
    match f
    case Syntax(at, why) => ConfigError(if at < |ts| then ts[at].line else -1, why)
    case BadNumber(text) => NumberError(text)
    case NoServer => NoServerError
  }

  function ParseTokens(ts: seq<Token>): Result<Config, Error> {
    match ParseLexemes(Lexemes(ts))
    case Ok(cfg) => Ok(cfg)
    case Err(f) => Err(Located(ts, f))
  }

  /** `parse_string`, with the upstreams it leaves behind. */
  function Parse(text: string): Result<Config, Error> {
    ParseTokens(Tokenize(text, 1))
  }

  /** Equal results, or the same error possibly on another line. */
  ghost predicate SameUpToLine(a: Result<Config, Error>, b: Result<Config, Error>) {
    match (a, b)
    case (Ok(c), Ok(d)) => c == d
    case (Err(ConfigError(_, v)), Err(ConfigError(_, w))) => v == w
    case (Err(e), Err(f)) => e == f
    case _ => false
  }

  /** Whitespace and comments between the tokens of any text change nothing but the lines of errors. */
  lemma LayoutDoesNotMatter(text: string, gaps: seq<string>, tail: string)
    requires GoodLayout(Lexemes(Tokenize(text, 1)), gaps, tail)
    ensures SameUpToLine(Parse(Render(Lexemes(Tokenize(text, 1)), gaps, tail)), Parse(text))
  {
    var ls := Lexemes(Tokenize(text, 1));
    var own, end := EveryTextIsALayout(text, 1);
    LayoutIsInvisible(ls, gaps, tail, 1);
    hide *;
    SameLexemesSameResult(Tokenize(Render(ls, gaps, tail), 1), Tokenize(text, 1));
    ParseIsParseTokens(Render(ls, gaps, tail));
    ParseIsParseTokens(text);
  }

  lemma ParseIsParseTokens(text: string)
    ensures Parse(text) == ParseTokens(Tokenize(text, 1))
  {
  }

  lemma SameLexemesSameResult(ts: seq<Token>, us: seq<Token>)
    requires Lexemes(ts) == Lexemes(us)
    ensures SameUpToLine(ParseTokens(ts), ParseTokens(us))
  {
    hide ParseLexemes;
  }

  // ---------------------------------------------------------------------------------------------
  // The class
  // ---------------------------------------------------------------------------------------------

  /** A method's result and final position are what the grammar says. */
  ghost predicate Agrees<T>(r: Result<T, Error>, pos: nat, spec: Parsed<T>, ts: seq<Token>) {
    match spec
    case Ok((v, j)) => r == Ok(v) && pos == j
    case Err(f) => r == Err(Located(ts, f))
  }

  class ConfigParser {
    var tokens: seq<Token>
    var pos: nat
    var upstreams: map<string, Upstream>

    constructor ()
      ensures tokens == [] && pos == 0 && upstreams == map[]
    {
      tokens, pos, upstreams := [], 0, map[];
    }

    function Rest(): nat
      reads this
    {
      if pos < |tokens| then |tokens| - pos else 0
    }

    predicate AtEnd()
      reads this
    {
      pos >= |tokens|
    }

    predicate Check(kind: Kind)
      reads this
      ensures Check(kind) == At(Lexemes(tokens), pos, kind)
    {
      !AtEnd() && tokens[pos].lexeme.kind == kind
    }

    predicate CheckWord(value: string)
      reads this
      ensures CheckWord(value) == AtWord(Lexemes(tokens), pos, value)
    {
      Check(Word) && tokens[pos].lexeme.value == value
    }

    /** The error thrown at the current token. */
    function ErrorHere(why: Reason): (e: Error)
      reads this
      ensures e == Located(tokens, Syntax(pos, why))
    {
      ConfigError(if AtEnd() then -1 else tokens[pos].line, why)
    }

    method Consume(expected: Kind) returns (r: Result<string, Error>)
      modifies this`pos
      ensures At(Lexemes(tokens), old(pos), expected) ==> r == Ok(tokens[old(pos)].lexeme.value) && pos == old(pos) + 1
      ensures !At(Lexemes(tokens), old(pos), expected) ==>
                r == Err(Located(tokens, Expect(Lexemes(tokens), old(pos), expected).error))
    {
      if AtEnd() {
        return Err(ErrorHere(UnexpectedEnd(expected)));
      }
      if tokens[pos].lexeme.kind != expected {
        return Err(ErrorHere(Unexpected(expected, tokens[pos].lexeme)));
      }
      pos := pos + 1;
      return Ok(tokens[pos - 1].lexeme.value);
    }

    method ConsumeArgument() returns (r: Result<string, Error>)
      modifies this`pos
      ensures Agrees(r, pos, Argument(Lexemes(tokens), old(pos)), tokens)
    {
      var v :- Consume(Word);
      var _ :- Consume(Semicolon);
      return Ok(v);
    }

    /** A word that `std::stoi` converts. */
    method ConsumeInt() returns (r: Result<int, Error>)
      modifies this`pos
      ensures At(Lexemes(tokens), old(pos), Word) ==>
                match ReadInt(Lexemes(tokens)[old(pos)].value)
                case Ok(n) => r == Ok(n) && pos == old(pos) + 1
                case Err(f) => r == Err(Located(tokens, f))
      ensures !At(Lexemes(tokens), old(pos), Word) ==>
                r == Err(Located(tokens, Expect(Lexemes(tokens), old(pos), Word).error))
    {
      var v :- Consume(Word);
      var n := ReadInt(v);
      if n.Err? {
        return Err(Located(tokens, n.error));
      }
      return Ok(n.value);
    }

    method ParseMethods() returns (words: seq<string>)
      modifies this`pos
      ensures words == WordsAt(Lexemes(tokens), old(pos)).0 && pos == WordsAt(Lexemes(tokens), old(pos)).1
    {
      words := [];
      while Check(Word)
        invariant words + WordsAt(Lexemes(tokens), pos).0 == WordsAt(Lexemes(tokens), old(pos)).0
        invariant WordsAt(Lexemes(tokens), pos).1 == WordsAt(Lexemes(tokens), old(pos)).1
        decreases Rest()
      {
        words := words + [tokens[pos].lexeme.value];
        pos := pos + 1;
      }
    }

    method ParseLocationDirective(initial: Location) returns (r: Result<Location, Error>)
      modifies this`pos
      ensures Agrees(r, pos, LocationDirective(Lexemes(tokens), old(pos), initial), tokens)
    {
      var loc := initial;
      var directive :- Consume(Word);
      if directive == "root" {
        var v :- ConsumeArgument();
        loc := loc.(root := v);
      } else if directive == "index" {
        var v :- ConsumeArgument();
        loc := loc.(index := v);
      } else if directive == "proxy_pass" {
        var v :- ConsumeArgument();
        loc := loc.(proxyPass := v);
      } else if directive == "methods" {
        var words := ParseMethods();
        loc := loc.(methods := loc.methods + words);
        var _ :- Consume(Semicolon);
      } else if directive == "autoindex" {
        var v :- ConsumeArgument();
        loc := loc.(autoindex := IsOn(v));
      } else {
        return Err(ErrorHere(UnknownDirective("location", directive)));
      }
      return Ok(loc);
    }

    method ParseLocationBody(initial: Location) returns (r: Result<Location, Error>)
      modifies this`pos
      ensures Agrees(r, pos, LocationBody(Lexemes(tokens), old(pos), initial), tokens)
    {
      var loc := initial;
      while !Check(RBrace)
        invariant LocationBody(Lexemes(tokens), pos, loc) == LocationBody(Lexemes(tokens), old(pos), initial)
        decreases Rest()
      {
        hide LocationDirective;
        if AtEnd() {
          return Err(ErrorHere(Unclosed("location")));
        }
        loc :- ParseLocationDirective(loc);
      }
      var closing := Consume(RBrace);
      assert closing.Ok?;
      return Ok(loc);
    }

    method ParseLocationBlock() returns (r: Result<Location, Error>)
      modifies this`pos
      ensures Agrees(r, pos, LocationBlock(Lexemes(tokens), old(pos)), tokens)
    {
      hide LocationBody;
      var _ :- Consume(Word);
      var path :- Consume(Word);
      var _ :- Consume(LBrace);
      r := ParseLocationBody(NewLocation(path));
    }

    method ParseServerDirective(initial: ServerConfig) returns (r: Result<ServerConfig, Error>)
      modifies this`pos
      ensures Agrees(r, pos, ServerDirective(Lexemes(tokens), old(pos), initial), tokens)
    {
      hide ReadInt, ReadSize, Listen;
      var config := initial;
      var directive :- Consume(Word);
      if directive == "listen" {
        var v :- Consume(Word);
        var listening := Listen(config, v);
        if listening.Err? {
          return Err(Located(tokens, listening.error));
        }
        config := listening.value;
        var _ :- Consume(Semicolon);
      } else if directive == "server_name" {
        var v :- ConsumeArgument();
        config := config.(serverName := v);
      } else if directive == "root" {
        var v :- ConsumeArgument();
        config := config.(root := v);
      } else if directive == "error_page" {
        var code :- ConsumeInt();
        var path :- ConsumeArgument();
        config := config.(errorPages := config.errorPages[code := path]);
      } else if directive == "client_max_body_size" {
        var v :- Consume(Word);
        var n := ReadSize(v);
        if n.Err? {
          return Err(Located(tokens, n.error));
        }
        config := config.(maxBody := n.value);
        var _ :- Consume(Semicolon);
      } else if directive == "rate_limit" {
        var n :- ConsumeInt();
        config := config.(rateLimit := n);
        var _ :- Consume(Semicolon);
      } else {
        return Err(ErrorHere(UnknownDirective("server", directive)));
      }
      return Ok(config);
    }

    method ParseServerItem(initial: ServerConfig) returns (r: Result<ServerConfig, Error>)
      modifies this`pos
      ensures Agrees(r, pos, ServerItem(Lexemes(tokens), old(pos), initial), tokens)
    {
      hide LocationBlock, ServerDirective;
      if CheckWord("location") {
        var loc :- ParseLocationBlock();
        return Ok(initial.(locations := initial.locations + [loc]));
      }
      r := ParseServerDirective(initial);
    }

    method ParseServerBody(initial: ServerConfig) returns (r: Result<ServerConfig, Error>)
      modifies this`pos
      ensures Agrees(r, pos, ServerBody(Lexemes(tokens), old(pos), initial), tokens)
    {
      var config := initial;
      while !Check(RBrace)
        invariant ServerBody(Lexemes(tokens), pos, config) == ServerBody(Lexemes(tokens), old(pos), initial)
        decreases Rest()
      {
        hide ServerItem;
        if AtEnd() {
          return Err(ErrorHere(Unclosed("server")));
        }
        config :- ParseServerItem(config);
      }
      var closing := Consume(RBrace);
      assert closing.Ok?;
      return Ok(config);
    }

    method ParseServerBlock() returns (r: Result<ServerConfig, Error>)
      modifies this`pos
      ensures Agrees(r, pos, ServerBlock(Lexemes(tokens), old(pos)), tokens)
    {
      hide ServerBody;
      var _ :- Consume(Word);
      var _ :- Consume(LBrace);
      r := ParseServerBody(NEW_SERVER);
    }

    method ParseUpstreamDirective(initial: Upstream) returns (r: Result<Upstream, Error>)
      modifies this`pos
      ensures Agrees(r, pos, UpstreamDirective(Lexemes(tokens), old(pos), initial), tokens)
    {
      hide ReadInt, ReadAddress;
      var upstream := initial;
      var directive :- Consume(Word);
      if directive == "server" {
        var v :- Consume(Word);
        var addr := ReadAddress(v);
        if addr.Err? {
          return Err(Located(tokens, addr.error));
        }
        upstream := upstream.(servers := upstream.servers + [addr.value]);
        var _ :- Consume(Semicolon);
      } else if directive == "health_check_interval" {
        var n :- ConsumeInt();
        upstream := upstream.(interval := n);
        var _ :- Consume(Semicolon);
      } else {
        return Err(ErrorHere(UnknownDirective("upstream", directive)));
      }
      return Ok(upstream);
    }

    method ParseUpstreamBody(initial: Upstream) returns (r: Result<Upstream, Error>)
      modifies this`pos
      ensures Agrees(r, pos, UpstreamBody(Lexemes(tokens), old(pos), initial), tokens)
    {
      var upstream := initial;
      while !Check(RBrace)
        invariant UpstreamBody(Lexemes(tokens), pos, upstream) == UpstreamBody(Lexemes(tokens), old(pos), initial)
        decreases Rest()
      {
        hide UpstreamDirective;
        if AtEnd() {
          return Err(ErrorHere(Unclosed("upstream")));
        }
        upstream :- ParseUpstreamDirective(upstream);
      }
      var closing := Consume(RBrace);
      assert closing.Ok?;
      return Ok(upstream);
    }

    method ParseUpstreamBlock() returns (r: Result<Upstream, Error>)
      modifies this`pos
      ensures Agrees(r, pos, UpstreamBlock(Lexemes(tokens), old(pos)), tokens)
    {
      hide UpstreamBody;
      var _ :- Consume(Word);
      var name :- Consume(Word);
      var _ :- Consume(LBrace);
      r := ParseUpstreamBody(NewUpstream(name));
    }

    /** `parse_config`: a loop over the top-level blocks. */
    method ParseConfig() returns (r: Result<seq<ServerConfig>, Error>)
      requires pos == 0 && upstreams == map[]
      modifies this`pos, this`upstreams
      ensures
        match ParseTokens(tokens)
        case Ok(cfg) => r == Ok(cfg.servers) && upstreams == cfg.upstreams
        case Err(e) => r == Err(e)
    {
      var configs: seq<ServerConfig> := [];
      while !AtEnd()
        invariant Blocks(Lexemes(tokens), pos, Config(configs, upstreams)) ==
                  Blocks(Lexemes(tokens), 0, Config([], map[]))
        decreases Rest()
      {
        hide ServerBlock, UpstreamBlock;
        if CheckWord("server") {
          var config :- ParseServerBlock();
          configs := configs + [config];
        } else if CheckWord("upstream") {
          var upstream :- ParseUpstreamBlock();
          upstreams := upstreams[upstream.name := upstream];
        } else {
          return Err(ErrorHere(NotABlock(tokens[pos].lexeme.value)));
        }
      }
      if configs == [] {
        return Err(NoServerError);
      }
      return Ok(configs);
    }

    /** `parse_string`. */
    method ParseString(input: string) returns (r: Result<seq<ServerConfig>, Error>)
      modifies this
      ensures
        match Parse(input)
        case Ok(cfg) => r == Ok(cfg.servers) && upstreams == cfg.upstreams
        case Err(e) => r == Err(e)
    {
      hide ParseTokens;
      tokens := TokenizeText(input);
      pos := 0;
      upstreams := map[];
      r := ParseConfig();
    }
  }
}
