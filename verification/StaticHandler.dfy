/**
 The static file handler (`StaticHandler::handle`, src/modules/static_handler.cpp) over an arbitrary
 file system, reading through the LRU cache.
 */
module StaticHandler {
  import opened Wrappers
  import opened Numbers
  import opened PathSanitizer
  import Text
  import L = LruCache
  import H = HttpResponse

  /** What `stat` and reading tell about a path. */
  datatype File = Missing | Directory | Unreadable | Regular(content: string)

  /** The file system and the MIME table. */
  datatype World = World(files: string -> File, mime: string -> string)

  /** One call of `handle`: the request path, the configuration of the location and the clock at the cache calls. */
  datatype Call = Call(path: string, root: string, index: string, atGet: real, atPut: real)

  const FORBIDDEN: H.Response :=
    H.Response(403, "Forbidden", map["Content-Type" := "text/plain"], "403 Forbidden — Path traversal blocked")

  const NOT_FOUND: H.Response :=
    H.Response(404, "Not Found", map["Content-Type" := "text/html"], "<html><body><h1>404 Not Found</h1></body></html>")

  const UNREADABLE: H.Response :=
    H.Response(500, "Internal Server Error", map["Content-Type" := "text/html"], "500 Internal Server Error")

  function Redirect(location: string): H.Response {
    H.Response(301, "Moved Permanently", map["Location" := location], "")
  }

  function Served(contentType: string, content: string, source: string): H.Response {
    H.Response(200, "OK",
               map["Content-Type" := contentType, "Content-Length" := Decimal(|content|), "X-Cache" := source], content)
  }

  /** Where a call ends up: an answer before any file is looked at, or the file to serve. */
  function Locate(w: World, call: Call): Result<string, H.Response> {
    var safe := Sanitize(call.path);
    if safe == "" then Err(FORBIDDEN)
    else
      var fsPath := call.root + safe;
      if !w.files(fsPath).Directory? then Ok(fsPath)
      else if call.path != "" && call.path[|call.path| - 1] != '/' then Err(Redirect(call.path + "/"))
      else Ok(fsPath + "/" + call.index)
  }

  /** The answer read from the file system. */
  function FromFile(w: World, fsPath: string): H.Response {
    match w.files(fsPath)
    case Regular(content) => Served(w.mime(fsPath), content, "MISS")
    case Unreadable => UNREADABLE
    case _ => NOT_FOUND
  }

  /** `handle` without a cache. */
  function Uncached(w: World, call: Call): H.Response {
    match Locate(w, call)
    case Err(answer) => answer
    case Ok(fsPath) => FromFile(w, fsPath)
  }

  /** `handle` with a cache: the new cache and the response. */
  function Handle(w: World, l: L.Limits, c: L.Cache, call: Call): (L.Cache, H.Response) {
    match Locate(w, call)
    case Err(answer) => (c, answer)
    case Ok(fsPath) =>
      var (c1, hit) := L.Get(l, c, fsPath, call.atGet);
      match hit
      case Some(e) => (c1, Served(e.contentType, e.data, "HIT"))
      case None =>
        match w.files(fsPath)
        case Regular(content) =>
          (L.Put(l, c1, fsPath, content, w.mime(fsPath), call.atPut), FromFile(w, fsPath))
        case _ => (c1, FromFile(w, fsPath))
  }

  // ---------------------------------------------------------------------------------------------
  // Transparency
  // ---------------------------------------------------------------------------------------------

  function After(w: World, l: L.Limits, calls: seq<Call>): L.Cache {
    if calls == [] then L.EMPTY
    else Handle(w, l, After(w, l, calls[..|calls| - 1]), calls[|calls| - 1]).0
  }

  /** Every entry holds its file's content and MIME type. */
  ghost predicate Faithful(w: World, c: L.Cache) {
    forall k :: k in c.entries ==>
      w.files(k) == Regular(c.entries[k].data) && w.mime(k) == c.entries[k].contentType
  }

  /** Equal up to the header that says where the content came from. */
  ghost predicate SameAnswer(a: H.Response, b: H.Response) {
    && a.code == b.code && a.reason == b.reason && a.body == b.body
    && a.headers - {"X-Cache"} == b.headers - {"X-Cache"}
  }

  lemma HandleIsTransparent(w: World, l: L.Limits, c: L.Cache, call: Call)
    requires Faithful(w, c)
    ensures Faithful(w, Handle(w, l, c, call).0)
    ensures SameAnswer(Handle(w, l, c, call).1, Uncached(w, call))
  {
    hide Sanitize, Decimal, L.Fresh, L.Put;
    var located := Locate(w, call);
    if located.Ok? {
      var (c1, hit) := L.Get(l, c, located.value, call.atGet);
      assert Faithful(w, c1);
      if hit.None? && w.files(located.value).Regular? {
        var content := w.files(located.value).content;
        PutIsFaithful(w, l, c1, located.value, content, call.atPut);
      }
    }
  }

  lemma PutIsFaithful(w: World, l: L.Limits, c: L.Cache, key: string, content: string, now: real)
    requires Faithful(w, c) && w.files(key) == Regular(content)
    ensures Faithful(w, L.Put(l, c, key, content, w.mime(key), now))
  {
    if |content| <= l.maxSize {
      L.PutStores(l, c, key, content, w.mime(key), now);
    }
  }

  lemma {:induction false} ReachableIsFaithful(w: World, l: L.Limits, calls: seq<Call>)
    ensures Faithful(w, After(w, l, calls))
  {
    hide Faithful, Handle;
    if calls == [] {
      EmptyIsFaithful(w);
    } else {
      ReachableIsFaithful(w, l, calls[..|calls| - 1]);
      HandleIsTransparent(w, l, After(w, l, calls[..|calls| - 1]), calls[|calls| - 1]);
    }
  }

  lemma EmptyIsFaithful(w: World)
    ensures Faithful(w, L.EMPTY)
  {
  }

  /** What the workers do to the cache, one lock at a time: a `fill` stores a file that was read. */
  datatype CacheStep = Look(key: string, now: real) | Fill(key: string, now: real) | Forget(key: string) | ForgetAll

  function Take(w: World, l: L.Limits, c: L.Cache, step: CacheStep): L.Cache {
    match step
    case Look(key, now) => L.Get(l, c, key, now).0
    case Fill(key, now) =>
      (match w.files(key)
       case Regular(content) => L.Put(l, c, key, content, w.mime(key), now)
       case _ => c)
    case Forget(key) => L.Remove(c, key)
    case ForgetAll => L.Clear(c)
  }

  /** The cache after the steps of any number of workers, interleaved in any way. */
  function Interleaved(w: World, l: L.Limits, steps: seq<CacheStep>): L.Cache {
    if steps == [] then L.EMPTY
    else Take(w, l, Interleaved(w, l, steps[..|steps| - 1]), steps[|steps| - 1])
  }

  lemma TakeIsFaithful(w: World, l: L.Limits, c: L.Cache, step: CacheStep)
    requires Faithful(w, c)
    ensures Faithful(w, Take(w, l, c, step))
  {
    hide L.Fresh, L.Put;
    match step
    case Fill(key, now) =>
      if w.files(key).Regular? {
        PutIsFaithful(w, l, c, key, w.files(key).content, now);
      }
    case _ =>
  }

  lemma {:induction false} InterleavedIsFaithful(w: World, l: L.Limits, steps: seq<CacheStep>)
    ensures Faithful(w, Interleaved(w, l, steps))
  {
    hide Faithful, Take;
    if steps == [] {
      EmptyIsFaithful(w);
    } else {
      InterleavedIsFaithful(w, l, steps[..|steps| - 1]);
      TakeIsFaithful(w, l, Interleaved(w, l, steps[..|steps| - 1]), steps[|steps| - 1]);
    }
  }

  /** The cache steps of one call. */
  function StepsOf(w: World, l: L.Limits, c: L.Cache, call: Call): seq<CacheStep> {
    match Locate(w, call)
    case Err(_) => []
    case Ok(fsPath) =>
      [Look(fsPath, call.atGet)]
      + if L.Get(l, c, fsPath, call.atGet).1.None? then [Fill(fsPath, call.atPut)] else []
  }

  /** A call that is not interrupted is its steps in a row, so sequential calls are one of the interleavings. */
  lemma HandleIsSteps(w: World, l: L.Limits, steps: seq<CacheStep>, call: Call)
    ensures
      var c := Interleaved(w, l, steps);
      Interleaved(w, l, steps + StepsOf(w, l, c, call)) == Handle(w, l, c, call).0
  {
    var c := Interleaved(w, l, steps);
    var mine := StepsOf(w, l, c, call);
    hide Locate, L.Get, L.Put;
    assert steps + [] == steps;
    if mine != [] {
      assert (steps + [mine[0]])[..|steps|] == steps;
      if |mine| == 2 {
        assert steps + mine == steps + [mine[0]] + [mine[1]];
        assert (steps + mine)[..|steps| + 1] == steps + [mine[0]];
      } else {
        assert mine == [mine[0]];
      }
    }
  }

  /**
   The cache is unobservable.  The answer of a call depends on the cache at its lookup only; whatever
   steps of other calls come before that, in between their lookups and puts too, it is the uncached one.
   */
  lemma CacheIsTransparent(w: World, l: L.Limits, steps: seq<CacheStep>, call: Call)
    ensures
      var answer, plain := Handle(w, l, Interleaved(w, l, steps), call).1, Uncached(w, call);
      && answer.code == plain.code && answer.reason == plain.reason && answer.body == plain.body
      && answer.headers - {"X-Cache"} == plain.headers - {"X-Cache"}
  {
    InterleavedIsFaithful(w, l, steps);
    HandleIsTransparent(w, l, Interleaved(w, l, steps), call);
  }

  // ---------------------------------------------------------------------------------------------
  // Which file a request gets
  // ---------------------------------------------------------------------------------------------

  /** The request path climbs above the root. */
  ghost predicate Escapes(call: Call) {
    Climbs(Text.Split(call.path, '/'), 0)
  }

  /** The path under the root that the request names, once ".." is cancelled. */
  function Target(call: Call): string {
    call.root + "/" + Join(Uncancelled(Text.Split(call.path, '/')).0)
  }

  function EndsInSlash(path: string): bool {
    path == "" || path[|path| - 1] == '/'
  }

  /** The file that is served: the target, or the index file of a directory. */
  function ServedFile(w: World, call: Call): string {
    if w.files(Target(call)).Directory? then Target(call) + "/" + call.index else Target(call)
  }

  /** The request is answered with a redirection. */
  predicate Redirects(w: World, call: Call) {
    w.files(Target(call)).Directory? && !EndsInSlash(call.path)
  }

  lemma LocateIs(w: World, call: Call)
    ensures Escapes(call) ==> Locate(w, call) == Err(FORBIDDEN)
    ensures !Escapes(call) && Redirects(w, call) ==> Locate(w, call) == Err(Redirect(call.path + "/"))
    ensures !Escapes(call) && !Redirects(w, call) ==> Locate(w, call) == Ok(ServedFile(w, call))
  {
    SanitizeIsCanonical(call.path);
    var rest := "/" + Join(Uncancelled(Text.Split(call.path, '/')).0);
    hide Sanitize, Climbs, Uncancelled, Join;
    assert call.root + rest == Target(call);
  }

  /** A request whose path climbs above the root is forbidden, no other is, and the cache is not asked. */
  lemma ForbiddenIffEscapes(w: World, l: L.Limits, c: L.Cache, call: Call)
    ensures Uncached(w, call).code == 403 <==> Escapes(call)
    ensures Handle(w, l, c, call).1.code == 403 <==> Escapes(call)
    ensures Escapes(call) ==>
              && Handle(w, l, c, call) == (c, Uncached(w, call))
              && Uncached(w, call) == H.Response(
                403, "Forbidden", map["Content-Type" := "text/plain"], "403 Forbidden — Path traversal blocked")
  {
    LocateIs(w, call);
    hide Locate, Escapes, Redirects, ServedFile, L.Get, L.Put, Decimal;
  }

  /** A directory without the final slash is redirected to, and the cache is not asked. */
  lemma DirectoryIsRedirected(w: World, l: L.Limits, c: L.Cache, call: Call)
    requires !Escapes(call) && Redirects(w, call)
    ensures Handle(w, l, c, call) == (c, Uncached(w, call))
    ensures Uncached(w, call) == H.Response(301, "Moved Permanently", map["Location" := call.path + "/"], "")
  {
    LocateIs(w, call);
    hide Locate, Escapes, Redirects, ServedFile;
  }

  /** Any other request gets the file it names, or the reason why it cannot be had. */
  lemma FileIsServed(w: World, call: Call)
    requires !Escapes(call) && !Redirects(w, call)
    ensures
      var path, answer := ServedFile(w, call), Uncached(w, call);
      match w.files(path)
      case Regular(content) =>
        answer == H.Response(200, "OK", map["Content-Type" := w.mime(path), "Content-Length" := Decimal(|content|),
                                            "X-Cache" := "MISS"], content)
      case Unreadable =>
        answer == H.Response(500, "Internal Server Error", map["Content-Type" := "text/html"],
                             "500 Internal Server Error")
      case _ =>
        answer == H.Response(404, "Not Found", map["Content-Type" := "text/html"],
                             "<html><body><h1>404 Not Found</h1></body></html>")
  {
    LocateIs(w, call);
    hide Locate, Escapes, Redirects, ServedFile, Decimal;
  }

  /** The cache is asked for that file only, answers with its entry if it has one, and otherwise is given the file. */
  lemma CacheIsAskedForFile(w: World, l: L.Limits, c: L.Cache, call: Call)
    requires !Escapes(call) && !Redirects(w, call)
    ensures
      var path := ServedFile(w, call);
      var (c1, hit) := L.Get(l, c, path, call.atGet);
      var (after, answer) := Handle(w, l, c, call);
      && (hit.Some? ==>
            && after == c1
            && answer == H.Response(200, "OK", map["Content-Type" := hit.value.contentType,
                                                   "Content-Length" := Decimal(|hit.value.data|), "X-Cache" := "HIT"],
                                    hit.value.data))
      && (hit.None? ==>
            && answer == Uncached(w, call)
            && after == if w.files(path).Regular?
                        then L.Put(l, c1, path, w.files(path).content, w.mime(path), call.atPut) else c1)
  {
    LocateIs(w, call);
    hide Locate, Escapes, Redirects, ServedFile, Decimal, L.Get, L.Put;
  }

  // ---------------------------------------------------------------------------------------------
  // Memory
  // ---------------------------------------------------------------------------------------------

  /** The calls that end at a regular file, as accesses to the cache. */
  function Touches(w: World, calls: seq<Call>): seq<L.Touch> {
    if calls == [] then []
    else
      var call := calls[|calls| - 1];
      Touches(w, calls[..|calls| - 1]) +
      match Locate(w, call)
      case Err(_) => []
      case Ok(fsPath) =>
        match w.files(fsPath)
        case Regular(content) => [L.Touch(fsPath, content, w.mime(fsPath), call.atGet, call.atPut)]
        case _ => []
  }

  function FileSizes(w: World): string -> nat {
    k => match w.files(k) case Regular(content) => |content| case _ => 0
  }

  lemma WorkAppend(l: L.Limits, ts: seq<L.Touch>, t: L.Touch)
    ensures L.Work(l, ts + [t]) == L.Access(l, L.Work(l, ts), t)
  {
    assert (ts + [t])[..|ts|] == ts;
  }

  /** A call changes the list and the map exactly as the access it makes. */
  lemma HandleIsAccess(w: World, l: L.Limits, c: L.Cache, d: L.Cache, call: Call)
    requires Faithful(w, c) && c.order == d.order && c.entries == d.entries && c.size == d.size
    ensures
      var c1 := Handle(w, l, c, call).0;
      var d1 :=
        match Locate(w, call)
        case Err(_) => d
        case Ok(fsPath) =>
          match w.files(fsPath)
          case Regular(content) => L.Access(l, d, L.Touch(fsPath, content, w.mime(fsPath), call.atGet, call.atPut))
          case _ => d;
      c1.order == d1.order && c1.entries == d1.entries && c1.size == d1.size
  {
    hide Sanitize, Decimal, L.Fresh, L.Evict;
    var located := Locate(w, call);
    if located.Ok? && w.files(located.value).Regular? {
      var content := w.files(located.value).content;
      var c1, d1 := L.Get(l, c, located.value, call.atGet).0, L.Get(l, d, located.value, call.atGet).0;
      PutIgnoresCounters(l, c1, d1, located.value, content, w.mime(located.value), call.atPut);
    }
  }

  lemma {:induction false} EvictIgnoresCounters(l: L.Limits, c: L.Cache, d: L.Cache, need: nat)
    requires c.order == d.order && c.entries == d.entries && c.size == d.size
    ensures
      var c1, d1 := L.Evict(l, c, need), L.Evict(l, d, need);
      c1.order == d1.order && c1.entries == d1.entries && c1.size == d1.size
    decreases |c.order|
  {
    if c.order != [] && c.size + need > l.maxSize {
      EvictIgnoresCounters(l, L.Shrink(c), L.Shrink(d), need);
    }
  }

  lemma PutIgnoresCounters(l: L.Limits, c: L.Cache, d: L.Cache, key: string, data: string, contentType: string,
                           now: real)
    requires c.order == d.order && c.entries == d.entries && c.size == d.size
    ensures
      var c1, d1 := L.Put(l, c, key, data, contentType, now), L.Put(l, d, key, data, contentType, now);
      c1.order == d1.order && c1.entries == d1.entries && c1.size == d1.size
  {
    EvictIgnoresCounters(l, L.Remove(c, key), L.Remove(d, key), |data|);
  }

  /** After any calls the cache holds what the read-through workload over the same files leaves. */
  lemma {:induction false} CacheIsWork(w: World, l: L.Limits, calls: seq<Call>)
    ensures
      var c, d := After(w, l, calls), L.Work(l, Touches(w, calls));
      c.order == d.order && c.entries == d.entries && c.size == d.size
  {
    if calls != [] {
      var past, call := calls[..|calls| - 1], calls[|calls| - 1];
      var c, d := After(w, l, past), L.Work(l, Touches(w, past));
      CacheIsWork(w, l, past);
      ReachableIsFaithful(w, l, past);
      HandleIsAccess(w, l, c, d, call);
      hide Faithful, Handle, Locate, L.Access;
      var located := Locate(w, call);
      if located.Ok? && w.files(located.value).Regular? {
        var t := L.Touch(located.value, w.files(located.value).content, w.mime(located.value), call.atGet, call.atPut);
        WorkAppend(l, Touches(w, past), t);
      } else {
        assert Touches(w, past) + [] == Touches(w, past);
      }
    }
  }

  lemma {:induction false} TouchSizes(w: World, calls: seq<Call>)
    ensures L.SameKeys(Touches(w, calls), Touches(w, calls), FileSizes(w))
  {
    if calls != [] {
      TouchSizes(w, calls[..|calls| - 1]);
    }
  }

  /**
   Stack property of the file cache: after calls one after another it holds, with less memory, a prefix of what
   it would hold with more, if no file they serve fits the larger memory only.
   */
  lemma LessMemoryHoldsPrefix(w: World, l: L.Limits, m: L.Limits, calls: seq<Call>)
    requires l.maxSize <= m.maxSize && L.NoneBetween(l, m, Touches(w, calls))
    ensures After(w, l, calls).order <= After(w, m, calls).order
  {
    CacheIsWork(w, l, calls);
    CacheIsWork(w, m, calls);
    TouchSizes(w, calls);
    L.Inclusion(l, m, Touches(w, calls), Touches(w, calls), FileSizes(w));
  }

  // ---------------------------------------------------------------------------------------------
  // The method
  // ---------------------------------------------------------------------------------------------

  method Respond(code: int, reason: string, header: string, value: string, body: string) returns (resp: H.HttpResponse)
    ensures fresh(resp) && resp.Value() == H.Response(code, reason, map[header := value], body)
  {
    resp := new H.HttpResponse(code, reason);
    resp.SetHeader(header, value);
    resp.SetBody(body);
  }

  method Serve(contentType: string, content: string, source: string) returns (resp: H.HttpResponse)
    ensures fresh(resp) && resp.Value() == Served(contentType, content, source)
  {
    hide Decimal;
    resp := new H.HttpResponse(200, "OK");
    resp.SetHeader("Content-Type", contentType);
    resp.SetHeader("Content-Length", Decimal(|content|));
    resp.SetHeader("X-Cache", source);
    resp.SetBody(content);
  }

  lemma EmptyPathIsRoot()
    ensures Sanitize("") == "/"
  {
  }

  /**
   `handle` up to the cache: the path checks and the directory index.  The only call excluded is the one
   that takes `back()` of an empty path.
   */
  method Resolve(w: World, call: Call) returns (fsPath: string, answer: H.HttpResponse?)
    requires call.path == "" ==> !w.files(call.root + "/").Directory?
    ensures answer == null ==> Locate(w, call) == Ok(fsPath)
    ensures answer != null ==> fresh(answer) && Locate(w, call) == Err(answer.Value())
  {
    EmptyPathIsRoot();
    var safe := SanitizePath(call.path);
    fsPath, answer := call.root + safe, null;
    if safe == "" {
      answer := Respond(403, "Forbidden", "Content-Type", "text/plain", "403 Forbidden — Path traversal blocked");
    } else if w.files(fsPath).Directory? {
      if call.path[|call.path| - 1] != '/' {
        answer := Respond(301, "Moved Permanently", "Location", call.path + "/", "");
      } else {
        fsPath := fsPath + "/" + call.index;
      }
    }
  }

  method HandleRequest(w: World, call: Call, cache: L.LruCache?) returns (resp: H.HttpResponse)
    requires call.path == "" ==> !w.files(call.root + "/").Directory?
    requires cache != null ==> L.Valid(cache.limits, cache.State())
    modifies cache
    ensures fresh(resp)
    ensures cache == null ==> resp.Value() == Uncached(w, call)
    ensures cache != null ==>
              && L.Valid(cache.limits, cache.State())
              && (cache.State(), resp.Value()) == Handle(w, cache.limits, old(cache.State()), call)
  {
    hide Locate, L.Valid, L.Get, L.Put, Served;
    var fsPath, answer := Resolve(w, call);
    if answer != null {
      return answer;
    }
    if cache != null {
      var cached := cache.Lookup(fsPath, call.atGet);
      if cached.Some? {
        resp := Serve(cached.value.contentType, cached.value.data, "HIT");
        return;
      }
    }
    var file := w.files(fsPath);
    if file.Missing? || file.Directory? {
      resp := Respond(404, "Not Found", "Content-Type", "text/html",
                      "<html><body><h1>404 Not Found</h1></body></html>");
      return;
    }
    if file.Unreadable? {
      resp := Respond(500, "Internal Server Error", "Content-Type", "text/html", "500 Internal Server Error");
      return;
    }
    var mime := w.mime(fsPath);
    if cache != null {
      cache.Store(fsPath, file.content, mime, call.atPut);
    }
    resp := Serve(mime, file.content, "MISS");
  }
}
