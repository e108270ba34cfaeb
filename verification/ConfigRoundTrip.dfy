/**
 Configurations and their texts: what the parser returns is exactly what can be printed and read back.
 */
module ConfigRoundTrip {
  import opened Wrappers
  import opened Text
  import opened Numbers
  import opened ConfigTokens
  import opened ConfigParser
  import opened ConfigPrinter
  import P = ConfigParser

  // ---------------------------------------------------------------------------------------------
  // Configurations a text can describe
  // ---------------------------------------------------------------------------------------------

  ghost predicate AllWords(vs: seq<string>) {
    forall i :: 0 <= i < |vs| ==> IsConfigWord(vs[i])
  }

  ghost predicate GoodLocationConfig(l: Location) {
    && IsConfigWord(l.path) && IsConfigWord(l.index) && AllWords(l.methods)
    && (l.root == "" || IsConfigWord(l.root)) && (l.proxyPass == "" || IsConfigWord(l.proxyPass))
  }

  ghost predicate GoodPages(m: map<int, string>) {
    forall c :: c in m ==> IsInt(c) && IsConfigWord(m[c])
  }

  ghost predicate GoodLocationConfigs(ls: seq<Location>) {
    forall i :: 0 <= i < |ls| ==> GoodLocationConfig(ls[i])
  }

  ghost predicate IsHost(s: string) {
    IsPart(s) && ':' !in s
  }

  ghost predicate GoodServerConfig(s: ServerConfig) {
    && IsInt(s.port) && IsHost(s.host) && IsConfigWord(s.serverName) && IsConfigWord(s.root)
    && s.maxBody < TWO_64 && IsInt(s.rateLimit) && GoodPages(s.errorPages) && GoodLocationConfigs(s.locations)
  }

  ghost predicate GoodAddresses(servers: seq<(string, int)>) {
    forall i :: 0 <= i < |servers| ==> IsPart(servers[i].0) && IsInt(servers[i].1)
  }

  ghost predicate GoodUpstreamConfig(u: Upstream) {
    IsConfigWord(u.name) && IsInt(u.interval) && GoodAddresses(u.servers)
  }

  ghost predicate GoodServerConfigs(ss: seq<ServerConfig>) {
    forall i :: 0 <= i < |ss| ==> GoodServerConfig(ss[i])
  }

  ghost predicate GoodUpstreamConfigs(us: map<string, Upstream>) {
    forall name :: name in us ==> us[name].name == name && GoodUpstreamConfig(us[name])
  }

  /** Well-formed: at least one server, words where the grammar wants words, numbers that fit. */
  ghost predicate GoodConfig(c: Config) {
    c.servers != [] && GoodServerConfigs(c.servers) && GoodUpstreamConfigs(c.upstreams)
  }

  // ---------------------------------------------------------------------------------------------
  // Printing a configuration as directives
  // ---------------------------------------------------------------------------------------------

  ghost function LocationDirectives(l: Location): seq<ConfigPrinter.LocationDirective> {
    (if l.root == "" then [] else [Root(l.root)])
    + [Index(l.index)]
    + (if l.proxyPass == "" then [] else [ProxyPass(l.proxyPass)])
    + [Methods(l.methods), Autoindex(if l.autoindex then "on" else "off")]
  }

  ghost function LocationBlocks(ls: seq<Location>): seq<ConfigPrinter.ServerDirective>
    decreases |ls|
  {
    if ls == [] then [] else [LocationBlock(ls[0].path, LocationDirectives(ls[0]))] + LocationBlocks(ls[1..])
  }

  ghost function Member<T>(s: set<T>): (x: T)
    requires s != {}
    ensures x in s
  {
    var x :| x in s;
    x
  }

  ghost function Without<K, V>(m: map<K, V>, k: K): (r: map<K, V>)
    requires k in m
    ensures r.Keys == m.Keys - {k} && |r| < |m|
    ensures forall x :: x in r ==> r[x] == m[x]
  {
    var r := map x | x in m && x != k :: m[x];
    assert r.Keys == m.Keys - {k};
    assert |r.Keys| < |m.Keys|;
    r
  }

  /** The error pages in some order. */
  ghost function ErrorPages(m: map<int, string>): seq<ConfigPrinter.ServerDirective>
    decreases |m|
  {
    if m == map[] then []
    else
      var c := Member(m.Keys);
      [ErrorPage(c, m[c])] + ErrorPages(Without(m, c))
  }

  ghost function Settings(s: ServerConfig): seq<ConfigPrinter.ServerDirective> {
    [ListenOn(Some(s.host), s.port), ServerName(s.serverName), ServerRoot(s.root), MaxBody(s.maxBody, Bytes),
     RateLimit(s.rateLimit)]
  }

  ghost function ServerDirectives(s: ServerConfig): seq<ConfigPrinter.ServerDirective> {
    Settings(s) + ErrorPages(s.errorPages) + LocationBlocks(s.locations)
  }

  ghost function Backends(servers: seq<(string, int)>): seq<ConfigPrinter.UpstreamDirective>
    decreases |servers|
  {
    if servers == [] then [] else [Backend(servers[0].0, Some(servers[0].1))] + Backends(servers[1..])
  }

  ghost function ServerBlocks(ss: seq<ServerConfig>): seq<Block>
    decreases |ss|
  {
    if ss == [] then [] else [Server(ServerDirectives(ss[0]))] + ServerBlocks(ss[1..])
  }

  /** The upstream blocks in some order. */
  ghost function UpstreamBlocks(us: map<string, Upstream>): seq<Block>
    decreases |us|
  {
    if us == map[] then []
    else
      var name := Member(us.Keys);
      [Upstreams(name, Backends(us[name].servers) + [Interval(us[name].interval)])] + UpstreamBlocks(Without(us, name))
  }

  ghost function Print(c: Config): seq<Block> {
    ServerBlocks(c.servers) + UpstreamBlocks(c.upstreams)
  }

  // ---------------------------------------------------------------------------------------------
  // The directives of a configuration mean that configuration
  // ---------------------------------------------------------------------------------------------

  lemma {:induction false} ApplyServersConcat(cfg: ServerConfig, a: seq<ConfigPrinter.ServerDirective>,
                                              b: seq<ConfigPrinter.ServerDirective>)
    ensures ApplyServers(cfg, a + b) == ApplyServers(ApplyServers(cfg, a), b)
    decreases |a|
  {
    hide ApplyServer;
    if a == [] {
      assert a + b == b;
    } else {
      assert (a + b)[1..] == a[1..] + b;
      ApplyServersConcat(ApplyServer(cfg, a[0]), a[1..], b);
    }
  }

  lemma {:induction false} ApplyUpstreamsConcat(u: Upstream, a: seq<ConfigPrinter.UpstreamDirective>,
                                                b: seq<ConfigPrinter.UpstreamDirective>)
    ensures ApplyUpstreams(u, a + b) == ApplyUpstreams(ApplyUpstreams(u, a), b)
    decreases |a|
  {
    hide ApplyUpstream;
    if a == [] {
      assert a + b == b;
    } else {
      assert (a + b)[1..] == a[1..] + b;
      ApplyUpstreamsConcat(ApplyUpstream(u, a[0]), a[1..], b);
    }
  }

  lemma {:induction false} ApplyBlocksConcat(cfg: Config, a: seq<Block>, b: seq<Block>)
    ensures ApplyBlocks(cfg, a + b) == ApplyBlocks(ApplyBlocks(cfg, a), b)
    decreases |a|
  {
    hide ApplyBlock;
    if a == [] {
      assert a + b == b;
    } else {
      assert (a + b)[1..] == a[1..] + b;
      ApplyBlocksConcat(ApplyBlock(cfg, a[0]), a[1..], b);
    }
  }

  lemma {:induction false} ApplyLocationsConcat(l: Location, a: seq<ConfigPrinter.LocationDirective>,
                                                b: seq<ConfigPrinter.LocationDirective>)
    ensures ApplyLocations(l, a + b) == ApplyLocations(ApplyLocations(l, a), b)
    decreases |a|
  {
    hide ApplyLocation;
    if a == [] {
      assert a + b == b;
    } else {
      assert (a + b)[1..] == a[1..] + b;
      ApplyLocationsConcat(ApplyLocation(l, a[0]), a[1..], b);
    }
  }

  lemma ApplyOneLocation(l: Location, d: ConfigPrinter.LocationDirective)
    ensures ApplyLocations(l, [d]) == ApplyLocation(l, d)
  {
    assert [d][1..] == [];
  }

  lemma LocationDirectivesMean(l: Location)
    ensures ApplyLocations(NewLocation(l.path), LocationDirectives(l)) == l
  {
    var onOff := Autoindex(if l.autoindex then "on" else "off");
    var a := if l.root == "" then [] else [Root(l.root)];
    var b := [Index(l.index)];
    var c := if l.proxyPass == "" then [] else [ProxyPass(l.proxyPass)];
    var l0 := NewLocation(l.path);
    assert LocationDirectives(l) == (((a + b) + c) + [Methods(l.methods)]) + [onOff];
    hide ApplyLocations;
    var l1 := ApplyLocations(l0, a);
    assert l1 == l0.(root := l.root) by {
      if l.root == "" { NoLocations(l0); } else { ApplyOneLocation(l0, Root(l.root)); }
    }
    ApplyLocationsConcat(l0, a, b);
    ApplyOneLocation(l1, Index(l.index));
    var l2 := ApplyLocations(l0, a + b);
    ApplyLocationsConcat(l0, a + b, c);
    var l3 := ApplyLocations(l0, (a + b) + c);
    assert l3 == l2.(proxyPass := l.proxyPass) by {
      if l.proxyPass == "" { NoLocations(l2); } else { ApplyOneLocation(l2, ProxyPass(l.proxyPass)); }
    }
    ApplyLocationsConcat(l0, (a + b) + c, [Methods(l.methods)]);
    ApplyOneLocation(l3, Methods(l.methods));
    var l4 := ApplyLocation(l3, Methods(l.methods));
    ApplyLocationsConcat(l0, ((a + b) + c) + [Methods(l.methods)], [onOff]);
    ApplyOneLocation(l4, onOff);
  }

  lemma NoLocations(l: Location)
    ensures ApplyLocations(l, []) == l
  {
  }

  lemma {:induction false} LocationBlocksMean(cfg: ServerConfig, ls: seq<Location>)
    ensures ApplyServers(cfg, LocationBlocks(ls)) == cfg.(locations := cfg.locations + ls)
    decreases |ls|
  {
    if ls != [] {
      LocationDirectivesMean(ls[0]);
      var next := cfg.(locations := cfg.locations + [ls[0]]);
      LocationBlocksMean(next, ls[1..]);
      hide ApplyLocations, LocationDirectives, NewLocation;
      ApplyOneServer(cfg, LocationBlock(ls[0].path, LocationDirectives(ls[0])), LocationBlocks(ls[1..]));
      assert cfg.locations + ls == cfg.locations + [ls[0]] + ls[1..];
    }
  }

  lemma EqualMaps<K, V>(a: map<K, V>, b: map<K, V>)
    requires a.Keys == b.Keys && forall x :: x in a ==> a[x] == b[x]
    ensures a == b
  {
  }

  lemma InsertThenAdd<K, V>(m: map<K, V>, more: map<K, V>, k: K)
    requires k in more
    ensures m[k := more[k]] + Without(more, k) == m + more
  {
    var a, b := m[k := more[k]] + Without(more, k), m + more;
    InsertedKeys(m, more, k);
    forall x | x in a ensures a[x] == b[x] {
      InsertedValue(m, more, k, x);
    }
    hide *;
    EqualMaps(a, b);
  }

  lemma InsertedKeys<K, V>(m: map<K, V>, more: map<K, V>, k: K)
    requires k in more
    ensures (m[k := more[k]] + Without(more, k)).Keys == (m + more).Keys
  {
  }

  lemma InsertedValue<K, V>(m: map<K, V>, more: map<K, V>, k: K, x: K)
    requires k in more && x in m + more
    ensures (m[k := more[k]] + Without(more, k))[x] == (m + more)[x]
  {
  }

  lemma AddToEmpty<K, V>(m: map<K, V>)
    ensures map[] + m == m
  {
    EqualMaps(map[] + m, m);
  }

  lemma {:induction false} ErrorPagesMean(cfg: ServerConfig, m: map<int, string>)
    ensures ApplyServers(cfg, ErrorPages(m)) == cfg.(errorPages := cfg.errorPages + m)
    decreases |m|
  {
    if m == map[] {
      assert cfg.errorPages + m == cfg.errorPages;
    } else {
      var c := Member(m.Keys);
      var d := ErrorPage(c, m[c]);
      var next := cfg.(errorPages := cfg.errorPages[c := m[c]]);
      InsertThenAdd(cfg.errorPages, m, c);
      hide ApplyServers;
      assert ErrorPages(m) == [d] + ErrorPages(Without(m, c));
      assert ApplyServer(cfg, d) == next;
      hide ErrorPages, ApplyServer;
      ErrorPagesMean(next, Without(m, c));
      ApplyOneServer(cfg, d, ErrorPages(Without(m, c)));
    }
  }

  lemma SettingsMean(s: ServerConfig)
    requires s.maxBody < TWO_64
    ensures ApplyServers(NEW_SERVER, Settings(s)) == s.(errorPages := map[], locations := [])
  {
    var d := Settings(s);
    var c1 := ApplyServer(NEW_SERVER, d[0]);
    var c2 := ApplyServer(c1, d[1]);
    var c3 := ApplyServer(c2, d[2]);
    var c4 := ApplyServer(c3, d[3]);
    var c5 := ApplyServer(c4, d[4]);
    ApplyFive(NEW_SERVER, d);
  }

  lemma ApplyFive(cfg: ServerConfig, d: seq<ConfigPrinter.ServerDirective>)
    requires |d| == 5
    ensures ApplyServers(cfg, d) ==
            ApplyServer(ApplyServer(ApplyServer(ApplyServer(ApplyServer(cfg, d[0]), d[1]), d[2]), d[3]), d[4])
  {
    hide ApplyServer;
    assert d == [d[0]] + ([d[1]] + ([d[2]] + ([d[3]] + [d[4]])));
    var c1 := ApplyServer(cfg, d[0]);
    var c2 := ApplyServer(c1, d[1]);
    var c3 := ApplyServer(c2, d[2]);
    var c4 := ApplyServer(c3, d[3]);
    ApplyOneServer(cfg, d[0], d[1..]);
    ApplyOneServer(c1, d[1], d[2..]);
    ApplyOneServer(c2, d[2], d[3..]);
    ApplyOneServer(c3, d[3], d[4..]);
    ApplyOneServer(c4, d[4], []);
    hide ApplyServers;
    assert [d[0]] + d[1..] == d && [d[1]] + d[2..] == d[1..] && [d[2]] + d[3..] == d[2..] && [d[3]] + d[4..] == d[3..];
    assert [d[4]] + [] == d[4..];
  }

  lemma ApplyOneServer(cfg: ServerConfig, d: ConfigPrinter.ServerDirective, rest: seq<ConfigPrinter.ServerDirective>)
    ensures ApplyServers(cfg, [d] + rest) == ApplyServers(ApplyServer(cfg, d), rest)
    ensures ApplyServers(cfg, []) == cfg
  {
    assert ([d] + rest)[1..] == rest;
  }

  lemma ServerDirectivesMean(s: ServerConfig)
    requires s.maxBody < TWO_64
    ensures ApplyServers(NEW_SERVER, ServerDirectives(s)) == s
  {
    SettingsMean(s);
    var base := s.(errorPages := map[], locations := []);
    ApplyServersConcat(NEW_SERVER, Settings(s), ErrorPages(s.errorPages));
    ErrorPagesMean(base, s.errorPages);
    assert map[] + s.errorPages == s.errorPages;
    ApplyServersConcat(NEW_SERVER, Settings(s) + ErrorPages(s.errorPages), LocationBlocks(s.locations));
    LocationBlocksMean(s.(locations := []), s.locations);
  }

  lemma {:induction false} BackendsMean(u: Upstream, servers: seq<(string, int)>)
    ensures ApplyUpstreams(u, Backends(servers)) == u.(servers := u.servers + servers)
    decreases |servers|
  {
    if servers != [] {
      var next := u.(servers := u.servers + [servers[0]]);
      BackendsMean(next, servers[1..]);
      var d := Backend(servers[0].0, Some(servers[0].1));
      assert ApplyUpstream(u, d) == next;
      assert ([d] + Backends(servers[1..]))[1..] == Backends(servers[1..]);
      assert u.servers + servers == u.servers + [servers[0]] + servers[1..];
    }
  }

  lemma UpstreamMeans(u: Upstream)
    ensures ApplyUpstreams(NewUpstream(u.name), Backends(u.servers) + [Interval(u.interval)]) == u
  {
    var start := NewUpstream(u.name);
    ApplyUpstreamsConcat(start, Backends(u.servers), [Interval(u.interval)]);
    BackendsMean(start, u.servers);
    assert [] + u.servers == u.servers;
    assert [Interval(u.interval)][1..] == [];
  }

  lemma ServerBlockMeans(cfg: Config, s: ServerConfig)
    requires GoodServerConfig(s)
    ensures ApplyBlock(cfg, Server(ServerDirectives(s))) == cfg.(servers := cfg.servers + [s])
  {
    ServerDirectivesMean(s);
    hide ApplyServers, ServerDirectives, GoodServerConfig;
  }

  lemma {:induction false} ServerBlocksMean(cfg: Config, ss: seq<ServerConfig>)
    requires GoodServerConfigs(ss)
    ensures ApplyBlocks(cfg, ServerBlocks(ss)) == cfg.(servers := cfg.servers + ss)
    decreases |ss|
  {
    hide *;
    if ss == [] {
      NoServerBlocks(cfg, ss);
    } else {
      var next := cfg.(servers := cfg.servers + [ss[0]]);
      RestOfServers(ss);
      ServerBlocksFirst(ss);
      ServerBlockMeans(cfg, ss[0]);
      ServerBlocksMean(next, ss[1..]);
      ApplyOneBlock(cfg, Server(ServerDirectives(ss[0])), ServerBlocks(ss[1..]));
      OneThenRest(cfg.servers, ss);
    }
  }

  lemma NoServerBlocks(cfg: Config, ss: seq<ServerConfig>)
    requires ss == []
    ensures ApplyBlocks(cfg, ServerBlocks(ss)) == cfg.(servers := cfg.servers + ss)
  {
    assert cfg.servers + ss == cfg.servers;
  }

  lemma RestOfServers(ss: seq<ServerConfig>)
    requires ss != [] && GoodServerConfigs(ss)
    ensures GoodServerConfig(ss[0]) && GoodServerConfigs(ss[1..])
  {
  }

  lemma OneThenRest<T>(a: seq<T>, b: seq<T>)
    requires b != []
    ensures (a + [b[0]]) + b[1..] == a + b
  {
  }

  lemma ServerBlocksFirst(ss: seq<ServerConfig>)
    requires ss != []
    ensures ServerBlocks(ss) == [Server(ServerDirectives(ss[0]))] + ServerBlocks(ss[1..])
  {
  }

  lemma ApplyOneBlock(cfg: Config, b: Block, rest: seq<Block>)
    ensures ApplyBlocks(cfg, [b] + rest) == ApplyBlocks(ApplyBlock(cfg, b), rest)
  {
    assert ([b] + rest)[1..] == rest;
  }

  lemma {:induction false} UpstreamBlocksMean(cfg: Config, us: map<string, Upstream>)
    requires GoodUpstreamConfigs(us)
    ensures ApplyBlocks(cfg, UpstreamBlocks(us)) == cfg.(upstreams := cfg.upstreams + us)
    decreases |us|
  {
    if us == map[] {
      assert cfg.upstreams + us == cfg.upstreams;
    } else {
      var name := Member(us.Keys);
      var block := Upstreams(name, Backends(us[name].servers) + [Interval(us[name].interval)]);
      var rest := Without(us, name);
      var next := cfg.(upstreams := cfg.upstreams[name := us[name]]);
      UpstreamMeans(us[name]);
      InsertThenAdd(cfg.upstreams, us, name);
      hide ApplyUpstreams, Backends, GoodUpstreamConfig, NewUpstream, ApplyBlocks;
      assert UpstreamBlocks(us) == [block] + UpstreamBlocks(rest);
      assert ApplyBlock(cfg, block) == next;
      UpstreamBlocksMean(next, rest);
      hide UpstreamBlocks, ApplyBlock;
      ApplyOneBlock(cfg, block, UpstreamBlocks(rest));
    }
  }

  lemma PrintMeans(c: Config)
    requires GoodConfig(c)
    ensures ApplyBlocks(EMPTY, Print(c)) == c
  {
    ServerBlocksMean(EMPTY, c.servers);
    ApplyBlocksConcat(EMPTY, ServerBlocks(c.servers), UpstreamBlocks(c.upstreams));
    UpstreamBlocksMean(Config(c.servers, map[]), c.upstreams);
    AddToEmpty(c.upstreams);
    hide *;
    assert [] + c.servers == c.servers;
  }

  // ---------------------------------------------------------------------------------------------
  // The directives of a well-formed configuration can be printed
  // ---------------------------------------------------------------------------------------------

  lemma LocationDirectivesGood(l: Location)
    requires GoodLocationConfig(l)
    ensures forall i :: 0 <= i < |LocationDirectives(l)| ==> GoodLocation(LocationDirectives(l)[i])
  {
    assert IsConfigWord("on") && IsConfigWord("off");
    hide IsConfigWord;
    var a := if l.root == "" then [] else [Root(l.root)];
    var c := if l.proxyPass == "" then [] else [ProxyPass(l.proxyPass)];
    var d := [Methods(l.methods), Autoindex(if l.autoindex then "on" else "off")];
    assert LocationDirectives(l) == a + [Index(l.index)] + c + d;
  }

  ghost predicate AllGood(ds: seq<ConfigPrinter.ServerDirective>) {
    forall i :: 0 <= i < |ds| ==> GoodServer(ds[i])
  }

  lemma {:induction false} LocationBlocksGood(ls: seq<Location>)
    requires GoodLocationConfigs(ls)
    ensures AllGood(LocationBlocks(ls))
    decreases |ls|
  {
    if ls != [] {
      assert GoodLocationConfig(ls[0]);
      LocationDirectivesGood(ls[0]);
      LocationBlocksGood(ls[1..]);
      assert GoodServer(LocationBlock(ls[0].path, LocationDirectives(ls[0])));
    }
  }

  lemma {:induction false} ErrorPagesGood(m: map<int, string>)
    requires GoodPages(m)
    ensures AllGood(ErrorPages(m))
    decreases |m|
  {
    if m != map[] {
      ErrorPagesGood(Without(m, Member(m.Keys)));
    }
  }

  lemma ServerDirectivesGood(s: ServerConfig)
    requires GoodServerConfig(s)
    ensures AllGood(ServerDirectives(s))
  {
    assert AllGood(Settings(s));
    ErrorPagesGood(s.errorPages);
    LocationBlocksGood(s.locations);
    hide GoodServer, Settings, ErrorPages, LocationBlocks;
  }

  lemma {:induction false} BackendsGood(servers: seq<(string, int)>)
    requires GoodAddresses(servers)
    ensures forall i :: 0 <= i < |Backends(servers)| ==> GoodUpstream(Backends(servers)[i])
    decreases |servers|
  {
    if servers != [] {
      BackendsGood(servers[1..]);
      assert GoodUpstream(Backend(servers[0].0, Some(servers[0].1)));
    }
  }

  lemma {:induction false} ServerBlocksGood(ss: seq<ServerConfig>)
    requires GoodServerConfigs(ss)
    ensures GoodBlocks(ServerBlocks(ss))
    decreases |ss|
  {
    if ss != [] {
      ServerDirectivesGood(ss[0]);
      ServerBlocksGood(ss[1..]);
    }
  }

  lemma {:induction false} UpstreamBlocksGood(us: map<string, Upstream>)
    requires GoodUpstreamConfigs(us)
    ensures GoodBlocks(UpstreamBlocks(us))
    decreases |us|
  {
    if us != map[] {
      var name := Member(us.Keys);
      BackendsGood(us[name].servers);
      UpstreamBlocksGood(Without(us, name));
      assert GoodUpstream(Interval(us[name].interval));
      assert GoodBlock(Upstreams(name, Backends(us[name].servers) + [Interval(us[name].interval)]));
    }
  }

  lemma PrintGood(c: Config)
    requires GoodConfig(c)
    ensures GoodBlocks(Print(c))
  {
    ServerBlocksGood(c.servers);
    UpstreamBlocksGood(c.upstreams);
  }

  // ---------------------------------------------------------------------------------------------
  // What the parser returns is well-formed
  // ---------------------------------------------------------------------------------------------

  lemma ArgumentIsWord(ls: seq<Lexeme>, i: nat)
    requires GoodLexemes(ls) && Argument(ls, i).Ok?
    ensures IsConfigWord(Argument(ls, i).value.0)
  {
    assert GoodLexeme(ls[i]);
  }

  lemma {:induction false} WordsAtAreWords(ls: seq<Lexeme>, i: nat)
    requires GoodLexemes(ls)
    ensures AllWords(WordsAt(ls, i).0)
    decreases |ls| - i
  {
    if At(ls, i, Word) {
      assert GoodLexeme(ls[i]);
      WordsAtAreWords(ls, i + 1);
    }
  }

  lemma LocationStaysGood(ls: seq<Lexeme>, i: nat, l: Location)
    requires GoodLexemes(ls) && GoodLocationConfig(l) && P.LocationDirective(ls, i, l).Ok?
    ensures GoodLocationConfig(P.LocationDirective(ls, i, l).value.0)
  {
    hide IsConfigWord;
    if Argument(ls, i + 1).Ok? {
      ArgumentIsWord(ls, i + 1);
    }
    WordsAtAreWords(ls, i + 1);
    hide GoodLexemes, WordsAt, Argument, IsOn;
  }

  lemma {:induction false} LocationBodyGood(ls: seq<Lexeme>, i: nat, l: Location)
    requires GoodLexemes(ls) && GoodLocationConfig(l) && LocationBody(ls, i, l).Ok?
    ensures GoodLocationConfig(LocationBody(ls, i, l).value.0)
    decreases |ls| - i
  {
    hide GoodLexemes, GoodLocationConfig, P.LocationDirective;
    if !At(ls, i, RBrace) {
      LocationStaysGood(ls, i, l);
      var (next, j) := P.LocationDirective(ls, i, l).value;
      LocationBodyGood(ls, j, next);
    }
  }

  lemma NewLocationGood(path: string)
    requires IsConfigWord(path)
    ensures GoodLocationConfig(NewLocation(path))
  {
    assert IsConfigWord("index.html");
  }

  lemma LocationBlockGood(ls: seq<Lexeme>, i: nat)
    requires GoodLexemes(ls) && P.LocationBlock(ls, i).Ok?
    ensures GoodLocationConfig(P.LocationBlock(ls, i).value.0)
  {
    var path := Expect(ls, i + 1, Word).value;
    assert IsConfigWord(path) by { assert GoodLexeme(ls[i + 1]); }
    hide GoodLexemes, IsConfigWord, LocationBody, GoodLocationConfig, NewLocation;
    NewLocationGood(path);
    LocationBodyGood(ls, i + 3, NewLocation(path));
  }

  lemma ListenGood(cfg: ServerConfig, v: string)
    requires GoodServerConfig(cfg) && IsConfigWord(v) && Listen(cfg, v).Ok?
    ensures GoodServerConfig(Listen(cfg, v).value)
  {
    var colon := FindChar(v, ':', 0);
    if colon.Some? {
      assert v[0..colon.value] == v[..colon.value];
      assert IsHost(v[..colon.value]);
    }
    hide IsHost, IsConfigWord, GoodPages, GoodLocationConfigs, Stoi;
  }

  lemma ReadSizeFits(v: string)
    requires ReadSize(v).Ok?
    ensures ReadSize(v).value < TWO_64
  {
    hide Stoul, Multiplier;
  }

  lemma PageGood(cfg: ServerConfig, code: int, v: string)
    requires GoodServerConfig(cfg) && IsInt(code) && IsConfigWord(v)
    ensures GoodServerConfig(cfg.(errorPages := cfg.errorPages[code := v]))
  {
    hide IsHost, IsConfigWord, GoodLocationConfigs;
  }

  lemma ErrorPageGood(ls: seq<Lexeme>, i: nat, cfg: ServerConfig)
    requires GoodLexemes(ls) && GoodServerConfig(cfg) && P.ServerDirective(ls, i, cfg).Ok?
    requires AtWord(ls, i, "error_page")
    ensures GoodServerConfig(P.ServerDirective(ls, i, cfg).value.0)
  {
    ArgumentIsWord(ls, i + 2);
    hide GoodLexemes, GoodServerConfig, IsConfigWord, Argument;
    PageGood(cfg, ReadInt(ls[i + 1].value).value, Argument(ls, i + 2).value.0);
  }

  lemma ListenStaysGood(ls: seq<Lexeme>, i: nat, cfg: ServerConfig)
    requires GoodLexemes(ls) && GoodServerConfig(cfg) && P.ServerDirective(ls, i, cfg).Ok? && AtWord(ls, i, "listen")
    ensures GoodServerConfig(P.ServerDirective(ls, i, cfg).value.0)
  {
    var v := Expect(ls, i + 1, Word).value;
    assert IsConfigWord(v) by { assert GoodLexeme(ls[i + 1]); }
    hide GoodLexemes, IsConfigWord, Listen, GoodServerConfig;
    ListenGood(cfg, v);
  }

  lemma NameStaysGood(ls: seq<Lexeme>, i: nat, cfg: ServerConfig)
    requires GoodLexemes(ls) && GoodServerConfig(cfg) && P.ServerDirective(ls, i, cfg).Ok?
    requires AtWord(ls, i, "server_name") || AtWord(ls, i, "root")
    ensures GoodServerConfig(P.ServerDirective(ls, i, cfg).value.0)
  {
    hide IsHost, IsConfigWord, GoodPages, GoodLocationConfigs;
    ArgumentIsWord(ls, i + 1);
    hide GoodLexemes, Argument;
  }

  lemma NumberStaysGood(ls: seq<Lexeme>, i: nat, cfg: ServerConfig)
    requires GoodServerConfig(cfg) && P.ServerDirective(ls, i, cfg).Ok?
    requires AtWord(ls, i, "client_max_body_size") || AtWord(ls, i, "rate_limit")
    ensures GoodServerConfig(P.ServerDirective(ls, i, cfg).value.0)
  {
    hide IsHost, IsConfigWord, GoodPages, GoodLocationConfigs, Stoi, ReadSize;
    if AtWord(ls, i, "client_max_body_size") {
      ReadSizeFits(Expect(ls, i + 1, Word).value);
    }
  }

  lemma KnownDirective(ls: seq<Lexeme>, i: nat, cfg: ServerConfig)
    requires P.ServerDirective(ls, i, cfg).Ok?
    ensures AtWord(ls, i, "listen") || AtWord(ls, i, "server_name") || AtWord(ls, i, "root")
            || AtWord(ls, i, "error_page") || AtWord(ls, i, "client_max_body_size") || AtWord(ls, i, "rate_limit")
  {
  }

  lemma ServerStaysGood(ls: seq<Lexeme>, i: nat, cfg: ServerConfig)
    requires GoodLexemes(ls) && GoodServerConfig(cfg) && P.ServerDirective(ls, i, cfg).Ok?
    ensures GoodServerConfig(P.ServerDirective(ls, i, cfg).value.0)
  {
    KnownDirective(ls, i, cfg);
    hide *;
    if AtWord(ls, i, "listen") {
      ListenStaysGood(ls, i, cfg);
    } else if AtWord(ls, i, "error_page") {
      ErrorPageGood(ls, i, cfg);
    } else if AtWord(ls, i, "server_name") || AtWord(ls, i, "root") {
      NameStaysGood(ls, i, cfg);
    } else {
      NumberStaysGood(ls, i, cfg);
    }
  }

  lemma ServerItemGood(ls: seq<Lexeme>, i: nat, cfg: ServerConfig)
    requires GoodLexemes(ls) && GoodServerConfig(cfg) && ServerItem(ls, i, cfg).Ok?
    ensures GoodServerConfig(ServerItem(ls, i, cfg).value.0)
  {
    hide GoodLexemes, P.LocationBlock, P.ServerDirective, IsHost, IsConfigWord, GoodPages, GoodLocationConfig;
    if AtWord(ls, i, "location") {
      LocationBlockGood(ls, i);
    } else {
      ServerStaysGood(ls, i, cfg);
    }
  }

  lemma {:induction false} ServerBodyGood(ls: seq<Lexeme>, i: nat, cfg: ServerConfig)
    requires GoodLexemes(ls) && GoodServerConfig(cfg) && ServerBody(ls, i, cfg).Ok?
    ensures GoodServerConfig(ServerBody(ls, i, cfg).value.0)
    decreases |ls| - i
  {
    hide GoodLexemes, GoodServerConfig, ServerItem;
    if !At(ls, i, RBrace) {
      ServerItemGood(ls, i, cfg);
      var (next, j) := ServerItem(ls, i, cfg).value;
      ServerBodyGood(ls, j, next);
    }
  }

  lemma NewServerGood()
    ensures GoodServerConfig(NEW_SERVER)
  {
    assert IsConfigWord("localhost") && IsConfigWord("./www") && IsHost("0.0.0.0");
  }

  lemma ServerBlockGood(ls: seq<Lexeme>, i: nat)
    requires GoodLexemes(ls) && ServerBlock(ls, i).Ok?
    ensures GoodServerConfig(ServerBlock(ls, i).value.0)
  {
    NewServerGood();
    hide GoodLexemes, GoodServerConfig, ServerBody;
    ServerBodyGood(ls, i + 2, NEW_SERVER);
  }

  lemma AddressGood(v: string)
    requires IsConfigWord(v) && ReadAddress(v).Ok?
    ensures IsPart(ReadAddress(v).value.0) && IsInt(ReadAddress(v).value.1)
  {
    hide Stoi;
  }

  lemma UpstreamStaysGood(ls: seq<Lexeme>, i: nat, u: Upstream)
    requires GoodLexemes(ls) && GoodUpstreamConfig(u) && P.UpstreamDirective(ls, i, u).Ok?
    ensures GoodUpstreamConfig(P.UpstreamDirective(ls, i, u).value.0)
    ensures P.UpstreamDirective(ls, i, u).value.0.name == u.name
  {
    var v := Expect(ls, i + 1, Word).value;
    assert IsConfigWord(v) by { assert GoodLexeme(ls[i + 1]); }
    if ReadAddress(v).Ok? {
      AddressGood(v);
    }
    hide GoodLexemes, IsConfigWord, IsPart, Stoi, ReadAddress;
  }

  lemma {:induction false} UpstreamBodyGood(ls: seq<Lexeme>, i: nat, u: Upstream)
    requires GoodLexemes(ls) && GoodUpstreamConfig(u) && UpstreamBody(ls, i, u).Ok?
    ensures GoodUpstreamConfig(UpstreamBody(ls, i, u).value.0) && UpstreamBody(ls, i, u).value.0.name == u.name
    decreases |ls| - i
  {
    hide GoodLexemes, GoodUpstreamConfig, P.UpstreamDirective;
    if !At(ls, i, RBrace) {
      UpstreamStaysGood(ls, i, u);
      var (next, j) := P.UpstreamDirective(ls, i, u).value;
      UpstreamBodyGood(ls, j, next);
    }
  }

  lemma UpstreamBlockGood(ls: seq<Lexeme>, i: nat)
    requires GoodLexemes(ls) && UpstreamBlock(ls, i).Ok?
    ensures GoodUpstreamConfig(UpstreamBlock(ls, i).value.0)
  {
    var name := Expect(ls, i + 1, Word).value;
    assert IsConfigWord(name) by { assert GoodLexeme(ls[i + 1]); }
    assert GoodUpstreamConfig(NewUpstream(name));
    hide GoodLexemes, GoodUpstreamConfig, UpstreamBody;
    UpstreamBodyGood(ls, i + 3, NewUpstream(name));
  }

  lemma {:induction false} BlocksReadGood(ls: seq<Lexeme>, i: nat, cfg: Config)
    requires GoodLexemes(ls) && GoodServerConfigs(cfg.servers) && GoodUpstreamConfigs(cfg.upstreams)
    requires Blocks(ls, i, cfg).Ok?
    ensures GoodServerConfigs(Blocks(ls, i, cfg).value.servers)
    ensures GoodUpstreamConfigs(Blocks(ls, i, cfg).value.upstreams)
    decreases |ls| - i
  {
    hide GoodLexemes, GoodServerConfig, GoodUpstreamConfig, ServerBlock, UpstreamBlock;
    if AtWord(ls, i, "server") {
      ServerBlockGood(ls, i);
      var (server, j) := ServerBlock(ls, i).value;
      BlocksReadGood(ls, j, cfg.(servers := cfg.servers + [server]));
    } else if AtWord(ls, i, "upstream") {
      UpstreamBlockGood(ls, i);
      var (u, j) := UpstreamBlock(ls, i).value;
      BlocksReadGood(ls, j, cfg.(upstreams := cfg.upstreams[u.name := u]));
    }
  }

  lemma ParsedIsGood(text: string)
    requires Parse(text).Ok?
    ensures GoodConfig(Parse(text).value)
  {
    var gaps, tail := EveryTextIsALayout(text, 1);
    hide GoodLayout, Tokenize, Render;
    BlocksReadGood(Lexemes(Tokenize(text, 1)), 0, EMPTY);
    hide GoodLexemes, Blocks, GoodServerConfigs, GoodUpstreamConfigs;
  }

  // ---------------------------------------------------------------------------------------------
  // Round trips
  // ---------------------------------------------------------------------------------------------

  /** A well-formed configuration, printed in any layout and parsed, is itself. */
  lemma ConfigRoundTrip(c: Config, gaps: seq<string>, tail: string)
    requires GoodConfig(c) && GoodLayout(PrintBlocks(Print(c)), gaps, tail)
    ensures Parse(Render(PrintBlocks(Print(c)), gaps, tail)) == Ok(c)
  {
    PrintGood(c);
    PrintMeans(c);
    DirectivesRoundTrip(Print(c), gaps, tail);
    hide Parse, Render, PrintBlocks, Print, GoodBlocks, GoodLayout, ApplyBlocks;
  }

  /** One line break before each token. */
  function Plain(n: nat): seq<string> {
    seq(n, i => "\n")
  }

  lemma PlainIsGood(ls: seq<Lexeme>)
    ensures GoodLayout(ls, Plain(|ls|), "")
  {
    assert IsGap("\n");
  }

  function PrettyPrint(bs: seq<Block>): string {
    Render(PrintBlocks(bs), Plain(|PrintBlocks(bs)|), "")
  }

  /** What some text parses to is exactly what is well-formed. */
  lemma WellFormedIffParsed(c: Config)
    ensures GoodConfig(c) <==> exists text: string :: Parse(text) == Ok(c)
  {
    hide GoodConfig, Parse;
    if GoodConfig(c) {
      PlainIsGood(PrintBlocks(Print(c)));
      ConfigRoundTrip(c, Plain(|PrintBlocks(Print(c))|), "");
      assert Parse(PrettyPrint(Print(c))) == Ok(c);
    }
    forall text: string | Parse(text) == Ok(c) ensures GoodConfig(c) {
      ParsedIsGood(text);
    }
  }

  /** Parsing, printing and parsing again changes nothing, whatever the text was. */
  lemma ReparseIsIdentity(text: string)
    requires Parse(text).Ok?
    ensures Parse(PrettyPrint(Print(Parse(text).value))) == Parse(text)
  {
    var c := Parse(text).value;
    ParsedIsGood(text);
    hide Parse;
    PlainIsGood(PrintBlocks(Print(c)));
    ConfigRoundTrip(c, Plain(|PrintBlocks(Print(c))|), "");
  }
}
