/**
 Exactly which texts are configurations, and what they say: the parser accepts a text iff its tokens are
 those of some blocks of directives whose numbers can be read.
 */
module ConfigLanguage {
  import opened Wrappers
  import opened Text
  import opened Numbers
  import opened ConfigTokens
  import opened ConfigParser
  import opened ConfigPrinter
  import P = ConfigParser

  // ---------------------------------------------------------------------------------------------
  // Directives as they are written
  // ---------------------------------------------------------------------------------------------

  /** `Setting` has one argument; the words are those of the text. */
  datatype ServerLine =
    | Setting(key: string, value: string)
    | Page(code: string, path: string)
    | Place(path: string, directives: seq<ConfigPrinter.LocationDirective>)

  datatype UpstreamLine = UpstreamLine(key: string, value: string)

  datatype BlockText =
    | ServerText(lines: seq<ServerLine>)
    | UpstreamText(name: string, members: seq<UpstreamLine>)

  function WriteServer(d: ServerLine): seq<Lexeme> {
    match d
    case Setting(key, value) => [W(key), W(value), SEMI]
    case Page(code, path) => [W("error_page"), W(code), W(path), SEMI]
    case Place(path, ds) => [W("location"), W(path), OPEN] + PrintLocations(ds)
  }

  function WriteServers(ds: seq<ServerLine>): seq<Lexeme>
    decreases |ds|
  {
    if ds == [] then [CLOSE] else WriteServer(ds[0]) + WriteServers(ds[1..])
  }

  function WriteUpstreams(ds: seq<UpstreamLine>): seq<Lexeme>
    decreases |ds|
  {
    if ds == [] then [CLOSE] else [W(ds[0].key), W(ds[0].value), SEMI] + WriteUpstreams(ds[1..])
  }

  function WriteBlock(b: BlockText): seq<Lexeme> {
    match b
    case ServerText(lines) => [W("server"), OPEN] + WriteServers(lines)
    case UpstreamText(name, members) => [W("upstream"), W(name), OPEN] + WriteUpstreams(members)
  }

  function WriteBlocks(bs: seq<BlockText>): seq<Lexeme>
    decreases |bs|
  {
    if bs == [] then [] else WriteBlock(bs[0]) + WriteBlocks(bs[1..])
  }

  // ---------------------------------------------------------------------------------------------
  // What they say, if their keys are known and their numbers can be read
  // ---------------------------------------------------------------------------------------------

  function Value<T>(r: Result<T, Fault>): Option<T> {
    if r.Ok? then Some(r.value) else None
  }

  function Say(cfg: ServerConfig, d: ServerLine): Option<ServerConfig> {
    match d
    case Setting(key, value) =>
      if key == "listen" then Value(Listen(cfg, value))
      else if key == "server_name" then Some(cfg.(serverName := value))
      else if key == "root" then Some(cfg.(root := value))
      else if key == "client_max_body_size" then
        if ReadSize(value).Ok? then Some(cfg.(maxBody := ReadSize(value).value)) else None
      else if key == "rate_limit" then
        if ReadInt(value).Ok? then Some(cfg.(rateLimit := ReadInt(value).value)) else None
      else None
    case Page(code, path) =>
      if ReadInt(code).Ok? then Some(cfg.(errorPages := cfg.errorPages[ReadInt(code).value := path])) else None
    case Place(path, ds) => Some(cfg.(locations := cfg.locations + [ApplyLocations(NewLocation(path), ds)]))
  }

  function SayAll(cfg: ServerConfig, ds: seq<ServerLine>): Option<ServerConfig>
    decreases |ds|
  {
    if ds == [] then Some(cfg)
    else
      match Say(cfg, ds[0])
      case None => None
      case Some(next) => SayAll(next, ds[1..])
  }

  function SayMember(u: Upstream, d: UpstreamLine): Option<Upstream> {
    if d.key == "server" then
      if ReadAddress(d.value).Ok? then Some(u.(servers := u.servers + [ReadAddress(d.value).value])) else None
    else if d.key == "health_check_interval" then
      if ReadInt(d.value).Ok? then Some(u.(interval := ReadInt(d.value).value)) else None
    else None
  }

  function SayMembers(u: Upstream, ds: seq<UpstreamLine>): Option<Upstream>
    decreases |ds|
  {
    if ds == [] then Some(u)
    else
      match SayMember(u, ds[0])
      case None => None
      case Some(next) => SayMembers(next, ds[1..])
  }

  function SayBlock(cfg: Config, b: BlockText): Option<Config> {
    match b
    case ServerText(lines) =>
      (match SayAll(NEW_SERVER, lines)
       case None => None
       case Some(server) => Some(cfg.(servers := cfg.servers + [server])))
    case UpstreamText(name, members) =>
      (match SayMembers(NewUpstream(name), members)
       case None => None
       case Some(u) => Some(cfg.(upstreams := cfg.upstreams[u.name := u])))
  }

  function SayBlocks(cfg: Config, bs: seq<BlockText>): Option<Config>
    decreases |bs|
  {
    if bs == [] then Some(cfg)
    else
      match SayBlock(cfg, bs[0])
      case None => None
      case Some(next) => SayBlocks(next, bs[1..])
  }

  // ---------------------------------------------------------------------------------------------
  // Everything written is accepted
  // ---------------------------------------------------------------------------------------------

  lemma SettingAccepted(ls: seq<Lexeme>, i: nat, cfg: ServerConfig, key: string, value: string)
    requires Follows(ls, i, [W(key), W(value), SEMI]) && Say(cfg, Setting(key, value)).Some?
    ensures ServerItem(ls, i, cfg) == Ok((Say(cfg, Setting(key, value)).value, i + 3)) && At(ls, i, Word)
  {
    TripleParses(ls, i, key, value);
    hide Follows, Listen, ReadSize, ReadInt;
  }

  lemma PageAccepted(ls: seq<Lexeme>, i: nat, cfg: ServerConfig, code: string, path: string)
    requires Follows(ls, i, WriteServer(Page(code, path))) && Say(cfg, Page(code, path)).Some?
    ensures ServerItem(ls, i, cfg) == Ok((Say(cfg, Page(code, path)).value, i + 4)) && At(ls, i, Word)
  {
    QuadrupleParses(ls, i, "error_page", code, path);
    hide Follows, ReadInt;
  }

  lemma PlaceAccepted(ls: seq<Lexeme>, i: nat, cfg: ServerConfig, path: string,
                      ds: seq<ConfigPrinter.LocationDirective>)
    requires Follows(ls, i, WriteServer(Place(path, ds)))
    ensures ServerItem(ls, i, cfg) == Ok((Say(cfg, Place(path, ds)).value, i + |WriteServer(Place(path, ds))|))
    ensures At(ls, i, Word)
  {
    hide Follows, P.LocationBlock, P.ServerDirective, PrintLocations, ApplyLocations, NewLocation;
    LocationBlockParses(ls, i, path, ds);
  }

  lemma LineAccepted(ls: seq<Lexeme>, i: nat, cfg: ServerConfig, d: ServerLine)
    requires Follows(ls, i, WriteServer(d)) && Say(cfg, d).Some?
    ensures ServerItem(ls, i, cfg) == Ok((Say(cfg, d).value, i + |WriteServer(d)|)) && At(ls, i, Word)
  {
    hide Follows, ServerItem, Say, PrintLocations;
    match d
    case Setting(key, value) => SettingAccepted(ls, i, cfg, key, value);
    case Page(code, path) => PageAccepted(ls, i, cfg, code, path);
    case Place(path, ds) => PlaceAccepted(ls, i, cfg, path, ds);
  }

  lemma {:induction false} LinesAccepted(ls: seq<Lexeme>, i: nat, cfg: ServerConfig, ds: seq<ServerLine>)
    requires Follows(ls, i, WriteServers(ds)) && SayAll(cfg, ds).Some?
    ensures ServerBody(ls, i, cfg) == Ok((SayAll(cfg, ds).value, i + |WriteServers(ds)|))
    decreases |ds|
  {
    hide ServerItem, WriteServer, Say;
    if ds == [] {
      FollowsAt(ls, i, [CLOSE], 0);
    } else {
      FollowsConcat(ls, i, WriteServer(ds[0]), WriteServers(ds[1..]));
      LineAccepted(ls, i, cfg, ds[0]);
      LinesAccepted(ls, i + |WriteServer(ds[0])|, Say(cfg, ds[0]).value, ds[1..]);
    }
  }

  lemma MemberAccepted(ls: seq<Lexeme>, i: nat, u: Upstream, d: UpstreamLine)
    requires Follows(ls, i, [W(d.key), W(d.value), SEMI]) && SayMember(u, d).Some?
    ensures P.UpstreamDirective(ls, i, u) == Ok((SayMember(u, d).value, i + 3)) && At(ls, i, Word)
  {
    TripleParses(ls, i, d.key, d.value);
    hide Follows, ReadAddress, ReadInt;
  }

  lemma {:induction false} MembersAccepted(ls: seq<Lexeme>, i: nat, u: Upstream, ds: seq<UpstreamLine>)
    requires Follows(ls, i, WriteUpstreams(ds)) && SayMembers(u, ds).Some?
    ensures UpstreamBody(ls, i, u) == Ok((SayMembers(u, ds).value, i + |WriteUpstreams(ds)|))
    decreases |ds|
  {
    hide P.UpstreamDirective, SayMember;
    if ds == [] {
      FollowsAt(ls, i, [CLOSE], 0);
    } else {
      FollowsConcat(ls, i, [W(ds[0].key), W(ds[0].value), SEMI], WriteUpstreams(ds[1..]));
      MemberAccepted(ls, i, u, ds[0]);
      MembersAccepted(ls, i + 3, SayMember(u, ds[0]).value, ds[1..]);
    }
  }

  lemma ServerTextAccepted(ls: seq<Lexeme>, i: nat, lines: seq<ServerLine>)
    requires Follows(ls, i, [W("server"), OPEN] + WriteServers(lines)) && SayAll(NEW_SERVER, lines).Some?
    ensures AtWord(ls, i, "server")
    ensures ServerBlock(ls, i) == Ok((SayAll(NEW_SERVER, lines).value, i + 2 + |WriteServers(lines)|))
  {
    hide Follows, ServerBody, SayAll, WriteServers;
    var xs := [W("server"), OPEN];
    FollowsConcat(ls, i, xs, WriteServers(lines));
    FollowsAt(ls, i, xs, 0);
    FollowsAt(ls, i, xs, 1);
    LinesAccepted(ls, i + 2, NEW_SERVER, lines);
  }

  lemma UpstreamTextAccepted(ls: seq<Lexeme>, i: nat, name: string, ds: seq<UpstreamLine>)
    requires Follows(ls, i, [W("upstream"), W(name), OPEN] + WriteUpstreams(ds))
    requires SayMembers(NewUpstream(name), ds).Some?
    ensures AtWord(ls, i, "upstream")
    ensures UpstreamBlock(ls, i) == Ok((SayMembers(NewUpstream(name), ds).value, i + 3 + |WriteUpstreams(ds)|))
  {
    hide Follows, UpstreamBody, SayMembers, WriteUpstreams, NewUpstream;
    HeadParses(ls, i, "upstream", name, WriteUpstreams(ds));
    MembersAccepted(ls, i + 3, NewUpstream(name), ds);
  }

  lemma BlockAccepted(ls: seq<Lexeme>, i: nat, cfg: Config, b: BlockText)
    requires Follows(ls, i, WriteBlock(b)) && SayBlock(cfg, b).Some?
    ensures i < |ls| && Blocks(ls, i, cfg) == Blocks(ls, i + |WriteBlock(b)|, SayBlock(cfg, b).value)
  {
    hide Follows, ServerBlock, UpstreamBlock, WriteServers, WriteUpstreams, SayAll, SayMembers, NewUpstream;
    match b
    case ServerText(lines) => ServerTextAccepted(ls, i, lines);
    case UpstreamText(name, members) => UpstreamTextAccepted(ls, i, name, members);
  }

  lemma {:induction false} BlocksAccepted(ls: seq<Lexeme>, i: nat, cfg: Config, bs: seq<BlockText>)
    requires Follows(ls, i, WriteBlocks(bs)) && i + |WriteBlocks(bs)| == |ls| && SayBlocks(cfg, bs).Some?
    ensures Blocks(ls, i, cfg) == Ok(SayBlocks(cfg, bs).value)
    decreases |bs|
  {
    if bs != [] {
      hide WriteBlock, SayBlock, Blocks, Follows;
      FollowsConcat(ls, i, WriteBlock(bs[0]), WriteBlocks(bs[1..]));
      BlockAccepted(ls, i, cfg, bs[0]);
      BlocksAccepted(ls, i + |WriteBlock(bs[0])|, SayBlock(cfg, bs[0]).value, bs[1..]);
    }
  }

  // ---------------------------------------------------------------------------------------------
  // Everything accepted is written
  // ---------------------------------------------------------------------------------------------

  lemma IsWordLexeme(ls: seq<Lexeme>, i: nat)
    requires At(ls, i, Word)
    ensures ls[i] == W(ls[i].value)
  {
  }

  lemma IsSymbolLexeme(ls: seq<Lexeme>, i: nat)
    requires GoodLexemes(ls) && i < |ls|
    ensures At(ls, i, LBrace) ==> ls[i] == OPEN
    ensures At(ls, i, RBrace) ==> ls[i] == CLOSE
    ensures At(ls, i, Semicolon) ==> ls[i] == SEMI
  {
    assert GoodLexeme(ls[i]);
  }

  lemma FollowsOne(ls: seq<Lexeme>, i: nat)
    requires i < |ls|
    ensures Follows(ls, i, [ls[i]])
  {
  }

  lemma FollowsJoin(ls: seq<Lexeme>, i: nat, a: seq<Lexeme>, b: seq<Lexeme>)
    requires Follows(ls, i, a) && Follows(ls, i + |a|, b)
    ensures Follows(ls, i, a + b)
  {
    assert ls[i..i + |a + b|] == ls[i..i + |a|] + ls[i + |a|..i + |a| + |b|];
  }

  lemma FollowsThree(ls: seq<Lexeme>, i: nat, a: Lexeme, b: Lexeme, c: Lexeme)
    requires i + 2 < |ls| && ls[i] == a && ls[i + 1] == b && ls[i + 2] == c
    ensures Follows(ls, i, [a, b, c])
  {
  }

  lemma ArgumentIs(ls: seq<Lexeme>, i: nat)
    requires GoodLexemes(ls) && At(ls, i, Word) && Argument(ls, i + 1).Ok?
    ensures Follows(ls, i, [W(ls[i].value), W(Argument(ls, i + 1).value.0), SEMI])
    ensures Argument(ls, i + 1).value.1 == i + 3
  {
    IsWordLexeme(ls, i);
    IsWordLexeme(ls, i + 1);
    IsSymbolLexeme(ls, i + 2);
    FollowsThree(ls, i, ls[i], ls[i + 1], ls[i + 2]);
    hide Follows, GoodLexemes;
  }

  lemma {:induction false} WordsAre(ls: seq<Lexeme>, i: nat)
    requires i <= |ls|
    ensures Follows(ls, i, Words(WordsAt(ls, i).0)) && WordsAt(ls, i).1 == i + |Words(WordsAt(ls, i).0)|
    decreases |ls| - i
  {
    if At(ls, i, Word) {
      var rest := WordsAt(ls, i + 1).0;
      WordsAre(ls, i + 1);
      IsWordLexeme(ls, i);
      FollowsOne(ls, i);
      assert ([ls[i].value] + rest)[1..] == rest;
      hide Follows, WordsAt;
      FollowsJoin(ls, i, [W(ls[i].value)], Words(rest));
    }
  }

  lemma MethodsAre(ls: seq<Lexeme>, i: nat)
    requires GoodLexemes(ls) && AtWord(ls, i, "methods") && At(ls, WordsAt(ls, i + 1).1, Semicolon)
    ensures Follows(ls, i, PrintLocation(Methods(WordsAt(ls, i + 1).0)))
    ensures WordsAt(ls, i + 1).1 + 1 == i + |PrintLocation(Methods(WordsAt(ls, i + 1).0))|
  {
    var (vs, j) := WordsAt(ls, i + 1);
    WordsAre(ls, i + 1);
    IsWordLexeme(ls, i);
    IsSymbolLexeme(ls, j);
    FollowsOne(ls, i);
    FollowsOne(ls, j);
    hide Follows, WordsAt, Words, GoodLexemes;
    FollowsJoin(ls, i, [W("methods")], Words(vs));
    FollowsJoin(ls, i, [W("methods")] + Words(vs), [SEMI]);
  }

  lemma LocationLineIs(ls: seq<Lexeme>, i: nat, loc: Location) returns (d: ConfigPrinter.LocationDirective)
    requires GoodLexemes(ls) && P.LocationDirective(ls, i, loc).Ok?
    ensures Follows(ls, i, PrintLocation(d))
    ensures P.LocationDirective(ls, i, loc).value == (ApplyLocation(loc, d), i + |PrintLocation(d)|)
  {
    hide Follows, GoodLexemes, Argument, WordsAt, Words;
    if AtWord(ls, i, "methods") {
      MethodsAre(ls, i);
      d := Methods(WordsAt(ls, i + 1).0);
    } else {
      ArgumentIs(ls, i);
      var v := Argument(ls, i + 1).value.0;
      d := if AtWord(ls, i, "root") then Root(v) else if AtWord(ls, i, "index") then Index(v)
           else if AtWord(ls, i, "proxy_pass") then ProxyPass(v) else Autoindex(v);
    }
  }

  lemma {:induction false} LocationLinesAre(ls: seq<Lexeme>, i: nat, loc: Location)
    returns (ds: seq<ConfigPrinter.LocationDirective>)
    requires GoodLexemes(ls) && LocationBody(ls, i, loc).Ok?
    ensures Follows(ls, i, PrintLocations(ds))
    ensures LocationBody(ls, i, loc).value == (ApplyLocations(loc, ds), i + |PrintLocations(ds)|)
    decreases |ls| - i
  {
    hide GoodLexemes, P.LocationDirective, PrintLocation, ApplyLocation, Follows;
    if At(ls, i, RBrace) {
      ds := [];
      IsSymbolLexeme(ls, i);
      FollowsOne(ls, i);
    } else {
      var (next, j) := P.LocationDirective(ls, i, loc).value;
      var d := LocationLineIs(ls, i, loc);
      var rest := LocationLinesAre(ls, j, next);
      FollowsJoin(ls, i, PrintLocation(d), PrintLocations(rest));
      ds := [d] + rest;
      assert ds[1..] == rest;
    }
  }

  lemma HeadIs(ls: seq<Lexeme>, i: nat, body: seq<Lexeme>)
    requires GoodLexemes(ls) && At(ls, i, Word) && At(ls, i + 1, Word) && At(ls, i + 2, LBrace)
    requires Follows(ls, i + 3, body)
    ensures Follows(ls, i, [W(ls[i].value), W(ls[i + 1].value), OPEN] + body)
  {
    IsWordLexeme(ls, i);
    IsWordLexeme(ls, i + 1);
    IsSymbolLexeme(ls, i + 2);
    FollowsThree(ls, i, ls[i], ls[i + 1], ls[i + 2]);
    hide Follows, GoodLexemes;
    FollowsJoin(ls, i, [W(ls[i].value), W(ls[i + 1].value), OPEN], body);
  }

  lemma PlaceIs(ls: seq<Lexeme>, i: nat, cfg: ServerConfig) returns (d: ServerLine)
    requires GoodLexemes(ls) && AtWord(ls, i, "location") && P.LocationBlock(ls, i).Ok?
    ensures Follows(ls, i, WriteServer(d)) && Say(cfg, d).Some?
    ensures ServerItem(ls, i, cfg) == Ok((Say(cfg, d).value, i + |WriteServer(d)|))
  {
    hide Follows, GoodLexemes, LocationBody, PrintLocations, ApplyLocations, P.ServerDirective, NewLocation;
    var path := Expect(ls, i + 1, Word).value;
    var ds := LocationLinesAre(ls, i + 3, NewLocation(path));
    HeadIs(ls, i, PrintLocations(ds));
    d := Place(path, ds);
  }

  lemma PageIs(ls: seq<Lexeme>, i: nat, cfg: ServerConfig) returns (d: ServerLine)
    requires GoodLexemes(ls) && AtWord(ls, i, "error_page") && P.ServerDirective(ls, i, cfg).Ok?
    ensures Follows(ls, i, WriteServer(d)) && Say(cfg, d).Some?
    ensures P.ServerDirective(ls, i, cfg) == Ok((Say(cfg, d).value, i + |WriteServer(d)|))
  {
    hide Follows, GoodLexemes, ReadInt;
    d := Page(ls[i + 1].value, ls[i + 2].value);
    IsWordLexeme(ls, i);
    IsWordLexeme(ls, i + 1);
    IsWordLexeme(ls, i + 2);
    IsSymbolLexeme(ls, i + 3);
    FollowsOne(ls, i);
    FollowsThree(ls, i + 1, ls[i + 1], ls[i + 2], ls[i + 3]);
    FollowsJoin(ls, i, [ls[i]], [ls[i + 1], ls[i + 2], ls[i + 3]]);
    assert [ls[i]] + [ls[i + 1], ls[i + 2], ls[i + 3]] == WriteServer(d);
  }

  /** A setting is three tokens. */
  lemma SettingShape(ls: seq<Lexeme>, i: nat, cfg: ServerConfig)
    requires P.ServerDirective(ls, i, cfg).Ok? && !AtWord(ls, i, "error_page")
    ensures At(ls, i, Word) && At(ls, i + 1, Word) && At(ls, i + 2, Semicolon)
    ensures Say(cfg, Setting(ls[i].value, ls[i + 1].value)).Some?
    ensures P.ServerDirective(ls, i, cfg) == Ok((Say(cfg, Setting(ls[i].value, ls[i + 1].value)).value, i + 3))
  {
    hide Listen, ReadSize, ReadInt;
  }

  lemma ServerLineIs(ls: seq<Lexeme>, i: nat, cfg: ServerConfig) returns (d: ServerLine)
    requires GoodLexemes(ls) && ServerItem(ls, i, cfg).Ok?
    ensures Follows(ls, i, WriteServer(d)) && Say(cfg, d).Some?
    ensures ServerItem(ls, i, cfg) == Ok((Say(cfg, d).value, i + |WriteServer(d)|))
  {
    hide Follows, GoodLexemes, P.ServerDirective, P.LocationBlock, Say, PrintLocations;
    if AtWord(ls, i, "location") {
      d := PlaceIs(ls, i, cfg);
    } else if AtWord(ls, i, "error_page") {
      d := PageIs(ls, i, cfg);
    } else {
      SettingShape(ls, i, cfg);
      d := Setting(ls[i].value, ls[i + 1].value);
      IsWordLexeme(ls, i);
      IsWordLexeme(ls, i + 1);
      IsSymbolLexeme(ls, i + 2);
      FollowsThree(ls, i, ls[i], ls[i + 1], ls[i + 2]);
    }
  }

  lemma {:induction false} ServerLinesAre(ls: seq<Lexeme>, i: nat, cfg: ServerConfig) returns (ds: seq<ServerLine>)
    requires GoodLexemes(ls) && ServerBody(ls, i, cfg).Ok?
    ensures Follows(ls, i, WriteServers(ds)) && SayAll(cfg, ds).Some?
    ensures ServerBody(ls, i, cfg).value == (SayAll(cfg, ds).value, i + |WriteServers(ds)|)
    decreases |ls| - i
  {
    hide GoodLexemes, ServerItem, WriteServer, Say, Follows;
    if At(ls, i, RBrace) {
      ds := [];
      IsSymbolLexeme(ls, i);
      FollowsOne(ls, i);
    } else {
      var (next, j) := ServerItem(ls, i, cfg).value;
      var d := ServerLineIs(ls, i, cfg);
      var rest := ServerLinesAre(ls, j, next);
      FollowsJoin(ls, i, WriteServer(d), WriteServers(rest));
      ds := [d] + rest;
      assert ds[1..] == rest;
    }
  }

  lemma MemberIs(ls: seq<Lexeme>, i: nat, u: Upstream) returns (d: UpstreamLine)
    requires GoodLexemes(ls) && P.UpstreamDirective(ls, i, u).Ok?
    ensures Follows(ls, i, [W(d.key), W(d.value), SEMI]) && SayMember(u, d).Some?
    ensures P.UpstreamDirective(ls, i, u) == Ok((SayMember(u, d).value, i + 3))
  {
    hide Follows, GoodLexemes, ReadAddress, ReadInt;
    d := UpstreamLine(ls[i].value, ls[i + 1].value);
    IsWordLexeme(ls, i);
    IsWordLexeme(ls, i + 1);
    IsSymbolLexeme(ls, i + 2);
    FollowsThree(ls, i, ls[i], ls[i + 1], ls[i + 2]);
  }

  lemma {:induction false} MembersAre(ls: seq<Lexeme>, i: nat, u: Upstream) returns (ds: seq<UpstreamLine>)
    requires GoodLexemes(ls) && UpstreamBody(ls, i, u).Ok?
    ensures Follows(ls, i, WriteUpstreams(ds)) && SayMembers(u, ds).Some?
    ensures UpstreamBody(ls, i, u).value == (SayMembers(u, ds).value, i + |WriteUpstreams(ds)|)
    decreases |ls| - i
  {
    hide GoodLexemes, P.UpstreamDirective, SayMember, Follows;
    if At(ls, i, RBrace) {
      ds := [];
      IsSymbolLexeme(ls, i);
      FollowsOne(ls, i);
    } else {
      var (next, j) := P.UpstreamDirective(ls, i, u).value;
      var d := MemberIs(ls, i, u);
      var rest := MembersAre(ls, j, next);
      FollowsJoin(ls, i, [W(d.key), W(d.value), SEMI], WriteUpstreams(rest));
      ds := [d] + rest;
      assert ds[1..] == rest;
    }
  }

  lemma ServerTextIs(ls: seq<Lexeme>, i: nat) returns (lines: seq<ServerLine>)
    requires GoodLexemes(ls) && AtWord(ls, i, "server") && ServerBlock(ls, i).Ok?
    ensures Follows(ls, i, [W("server"), OPEN] + WriteServers(lines)) && SayAll(NEW_SERVER, lines).Some?
    ensures ServerBlock(ls, i).value == (SayAll(NEW_SERVER, lines).value, i + 2 + |WriteServers(lines)|)
  {
    hide Follows, GoodLexemes, ServerBody, WriteServers, SayAll;
    lines := ServerLinesAre(ls, i + 2, NEW_SERVER);
    IsWordLexeme(ls, i);
    IsSymbolLexeme(ls, i + 1);
    FollowsOne(ls, i);
    FollowsOne(ls, i + 1);
    FollowsJoin(ls, i, [ls[i]], [ls[i + 1]]);
    assert [ls[i]] + [ls[i + 1]] == [W("server"), OPEN];
    FollowsJoin(ls, i, [W("server"), OPEN], WriteServers(lines));
  }

  lemma UpstreamTextIs(ls: seq<Lexeme>, i: nat) returns (name: string, members: seq<UpstreamLine>)
    requires GoodLexemes(ls) && AtWord(ls, i, "upstream") && UpstreamBlock(ls, i).Ok?
    ensures Follows(ls, i, [W("upstream"), W(name), OPEN] + WriteUpstreams(members))
    ensures SayMembers(NewUpstream(name), members).Some?
    ensures UpstreamBlock(ls, i).value ==
            (SayMembers(NewUpstream(name), members).value, i + 3 + |WriteUpstreams(members)|)
  {
    hide Follows, GoodLexemes, UpstreamBody, WriteUpstreams, SayMembers, NewUpstream;
    name := Expect(ls, i + 1, Word).value;
    members := MembersAre(ls, i + 3, NewUpstream(name));
    HeadIs(ls, i, WriteUpstreams(members));
  }

  /** One block: what it is, where it ends and what it adds. */
  lemma BlockTextIs(ls: seq<Lexeme>, i: nat, cfg: Config) returns (b: BlockText, next: Config)
    requires GoodLexemes(ls) && i < |ls| && Blocks(ls, i, cfg).Ok?
    ensures Follows(ls, i, WriteBlock(b)) && |WriteBlock(b)| > 0 && SayBlock(cfg, b) == Some(next)
    ensures i + |WriteBlock(b)| <= |ls| && Blocks(ls, i, cfg) == Blocks(ls, i + |WriteBlock(b)|, next)
  {
    hide GoodLexemes, ServerBlock, UpstreamBlock, Follows, WriteServers, WriteUpstreams, SayAll, SayMembers,
         NewUpstream;
    if AtWord(ls, i, "server") {
      var lines := ServerTextIs(ls, i);
      b := ServerText(lines);
      next := cfg.(servers := cfg.servers + [ServerBlock(ls, i).value.0]);
    } else {
      var name, members := UpstreamTextIs(ls, i);
      var u := UpstreamBlock(ls, i).value.0;
      b := UpstreamText(name, members);
      next := cfg.(upstreams := cfg.upstreams[u.name := u]);
    }
  }

  lemma WriteFirst(b: BlockText, rest: seq<BlockText>)
    ensures WriteBlocks([b] + rest) == WriteBlock(b) + WriteBlocks(rest) && WriteBlocks([]) == []
  {
    assert ([b] + rest)[1..] == rest;
  }

  lemma SayFirst(cfg: Config, b: BlockText, next: Config, rest: seq<BlockText>)
    requires SayBlock(cfg, b) == Some(next)
    ensures SayBlocks(cfg, [b] + rest) == SayBlocks(next, rest) && SayBlocks(cfg, []) == Some(cfg)
  {
    assert ([b] + rest)[1..] == rest;
  }

  lemma NoBlocks(ls: seq<Lexeme>, i: nat, cfg: Config)
    requires i == |ls|
    ensures Follows(ls, i, WriteBlocks([])) && |WriteBlocks([])| == 0
    ensures Blocks(ls, i, cfg) == Ok(cfg) && SayBlocks(cfg, []) == Some(cfg)
  {
  }

  lemma {:induction false} BlockTextsAre(ls: seq<Lexeme>, i: nat, cfg: Config) returns (bs: seq<BlockText>)
    requires GoodLexemes(ls) && i <= |ls| && Blocks(ls, i, cfg).Ok?
    ensures Follows(ls, i, WriteBlocks(bs)) && i + |WriteBlocks(bs)| == |ls|
    ensures SayBlocks(cfg, bs) == Some(Blocks(ls, i, cfg).value)
    decreases |ls| - i
  {
    hide *;
    bs := [];
    if i == |ls| {
      NoBlocks(ls, i, cfg);
    } else {
      var b, next := BlockTextIs(ls, i, cfg);
      var rest := BlockTextsAre(ls, i + |WriteBlock(b)|, next);
      FollowsJoin(ls, i, WriteBlock(b), WriteBlocks(rest));
      WriteFirst(b, rest);
      SayFirst(cfg, b, next, rest);
      bs := [b] + rest;
    }
  }

  // ---------------------------------------------------------------------------------------------
  // The language
  // ---------------------------------------------------------------------------------------------

  /** The tokens of a text are those of blocks that say `c`. */
  ghost predicate Describes(text: string, c: Config) {
    exists bs :: Lexemes(Tokenize(text, 1)) == WriteBlocks(bs) && SayBlocks(EMPTY, bs) == Some(c)
  }

  lemma FollowsAll(ls: seq<Lexeme>, xs: seq<Lexeme>)
    ensures Follows(ls, 0, xs) && |xs| == |ls| <==> ls == xs
  {
    assert ls[0..|ls|] == ls;
  }

  /** A text is accepted, as the configuration `c`, iff it is written as directives that say `c`, with a server. */
  lemma AcceptedIffDescribed(text: string, c: Config)
    ensures Parse(text) == Ok(c) <==> Describes(text, c) && c.servers != []
  {
    var ls := Lexemes(Tokenize(text, 1));
    var gaps, tail := EveryTextIsALayout(text, 1);
    hide GoodLayout, Tokenize, Render, Blocks, WriteBlocks, SayBlocks, GoodLexemes, Follows;
    if Blocks(ls, 0, EMPTY).Ok? {
      var bs := BlockTextsAre(ls, 0, EMPTY);
      FollowsAll(ls, WriteBlocks(bs));
    }
    forall bs | ls == WriteBlocks(bs) && SayBlocks(EMPTY, bs).Some?
      ensures Blocks(ls, 0, EMPTY) == Ok(SayBlocks(EMPTY, bs).value)
    {
      FollowsAll(ls, WriteBlocks(bs));
      BlocksAccepted(ls, 0, EMPTY, bs);
    }
  }

  // ---------------------------------------------------------------------------------------------
  // Error lines
  // ---------------------------------------------------------------------------------------------

  /** The line breaks in the first `k` gaps. */
  function BreaksBefore(gaps: seq<string>, k: nat): nat
    requires k <= |gaps|
    decreases k
  {
    if k == 0 then 0 else BreaksBefore(gaps, k - 1) + Newlines(gaps[k - 1])
  }

  lemma {:induction false} BreaksShift(gaps: seq<string>, k: nat)
    requires 0 < k <= |gaps|
    ensures BreaksBefore(gaps, k) == Newlines(gaps[0]) + BreaksBefore(gaps[1..], k - 1)
    decreases k
  {
    if k > 1 {
      BreaksShift(gaps, k - 1);
    }
  }

  lemma {:induction false} PlacedLine(ls: seq<Lexeme>, gaps: seq<string>, line: int, k: nat)
    requires |gaps| == |ls| && k < |ls|
    ensures |Placed(ls, gaps, line)| == |ls| && Placed(ls, gaps, line)[k].line == line + BreaksBefore(gaps, k + 1)
    decreases |ls|
  {
    var at := line + Newlines(gaps[0]);
    BreaksShift(gaps, k + 1);
    if k > 0 {
      PlacedLine(ls[1..], gaps[1..], at, k - 1);
    } else {
      assert BreaksBefore(gaps[1..], 0) == 0;
      if |ls| > 1 {
        PlacedLine(ls[1..], gaps[1..], at, 0);
      }
    }
    hide Newlines;
  }

  /** A syntax error carries the line its token stands on, counted from one, or -1 at the end of the text. */
  lemma ErrorsHaveTheirLine(ls: seq<Lexeme>, gaps: seq<string>, tail: string, at: nat, why: Reason)
    requires GoodLexemes(ls) && GoodLayout(ls, gaps, tail) && ParseLexemes(ls) == Err(Syntax(at, why))
    ensures Parse(Render(ls, gaps, tail)) ==
            Err(ConfigError(if at < |ls| then 1 + BreaksBefore(gaps, at + 1) else -1, why))
  {
    TokenizeRendered(ls, gaps, tail, 1);
    PlacedLexemes(ls, gaps, 1);
    if at < |ls| {
      PlacedLine(ls, gaps, 1, at);
    }
    hide GoodLexemes, GoodLayout, Render, ParseLexemes, Tokenize, Placed;
  }
}
