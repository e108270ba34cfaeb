# VeloxServe, verified

VeloxServe is a C++17 HTTP server and reverse proxy. This project models its state machines and its
parser/printer pairs in Dafny and proves what they are for: exact and optimal rate limiting, an LRU cache
whose contents are exactly what the recency order allows, a request parser that cannot tell how its input
was cut, a proxy and a configuration file that read back as they were written, a thread pool, a load balancer
and a connection table. Where a promise of one of these holds only under a condition -- which pushed tasks
are run, when the load balancer is fair, when a stop closes every connection -- the exact condition is proved.

Code that changes state is modelled as classes and loops in the source's own form. Each method is proved
against a specification function, and the theorems are lemmas about those functions over all inputs and all
histories. Times, kernel results, file contents, probe outcomes and the iteration order of hash tables are
arbitrary arguments.

| module | source |
|---|---|
| `RateLimiter`, `Clock` | `src/middleware/rate_limiter.cpp` |
| `LruCache` | `src/middleware/cache.cpp` |
| `StaticHandler`, `PathSanitizer` | `src/modules/static_handler.cpp` |
| `HttpParser`, `RequestLaws` | `src/http/http_parser.cpp` |
| `ProxyRequest` | `src/modules/proxy_handler.cpp`, `build_backend_request` |
| `HttpResponse` | `src/http/http_response.cpp` and `parse_backend_response` |
| `Router` | `src/http/router.cpp` |
| `LoadBalancer` | `src/modules/load_balancer.cpp` |
| `ThreadPool` | `src/core/thread_pool.cpp` |
| `Connections`, `ConnectionStories` | `src/core/server.cpp`, `include/core/connection.h` |
| `ConfigTokens`, `ConfigParser`, `ConfigPrinter`, `ConfigLanguage`, `ConfigRoundTrip` | `src/config/config_parser.cpp` |
| `Text`, `HeaderText`, `Numbers`, `Wrappers` | the standard library's string and number functions, and header lines |

## Where a promise holds only under a condition

Each of these is proved as an if-and-only-if, or together with the input that breaks the promise.

- *First request.* A bucket's first request is admitted whatever the burst is; it obeys the window rule iff the burst is at least 1 (`RateLimiter.FirstRequestNeedsBurstOfOne`).
- *Bucket deletion.* `cleanup_expired` goes unnoticed in every history iff a bucket fills up within the age plus one second, because ages are compared in whole seconds (`RateLimiter.CleanupUnnoticedIff`). The server's settings meet this.
- *Oversized puts.* `put` returns before it touches an existing entry, so an entry is the last *accepted* put of its key (`LruCache.EntryIsLastAccepted`). The data put is held iff it fits the budget (`LruCache.PutIsAcceptedIffFits`); `LruCache.OversizedPutKeepsOldData` is an input that returns older data.
- *Two caches.* The stack property of LRU holds for all workloads over files of given sizes iff none of them fits the larger budget only, or none fits the smaller (`LruCache.InclusionIffNoneBetween`). Workers interleave their lookups and fills; two overlapping accesses keep it iff they ask for the same key (`LruCache.OverlapIsSafeIffSameKey`). On one clock and with files that fit both, the larger cache never has fewer hits iff its time to live is no shorter, or the smaller's is negative (`LruCache.MoreMemoryNeverLosesHits`, `LruCache.MoreHitsIffNoShorter`); `LruCache.BigFileCostsHit` is an input where a file that fits the larger only costs a hit.
- *Forwarded paths.* The proxy prints the decoded path. The backend reads back the same path iff it holds no white space, no `?`, no `+` and no complete percent escape (`ProxyRequest.ForwardingRoundTrip`).
- *Response header values.* A value comes back iff it is not empty and does not start with a space or a tab (`HttpResponse.ResponseRoundTrip`). A second reading changes nothing iff no value is blank (`HttpResponse.ReadIsFixedPoint`).
- *Wrap-around of the index counter.* When the 32-bit counter wraps, `get_next` can skip slots: it returns null with a live backend (`LoadBalancer.NullWithLiveBackend`). Null is right, rotation holds and scans are fair at a tick iff no wrap breaks the order within the next n ticks (`LoadBalancer.NullAndRotationIffUnbroken`, `LoadBalancer.FairIffUnbroken`), and they are so for ever iff n divides 2^32 (`LoadBalancer.PromisesForEverIffDivides`).
- *Late pushes.* `enqueue` tests the flag outside the lock, so a task can be pushed after every worker has left, and stays in the queue (`ThreadPool.LatePushIsStranded`). A task is run iff some worker has not left when it is pushed (`ThreadPool.PushIsTakenIffSomeoneStays`); those pushed before the flag is set all are (`ThreadPool.ShutdownDrains`).
- *Interrupted accept.* The signal handler runs `stop` wherever the event loop is. Everything is closed iff it does not fall between `accept4` and the insertion into the table (`Connections.StopSparesInFlight`).
- *Configurations.* A configuration is the parse of some text iff it is well-formed (`ConfigRoundTrip.WellFormedIffParsed`), and a text is a configuration iff it is written as directives (`ConfigLanguage.AcceptedIffDescribed`).

The repository's tests of the parser, the cache and the router use an interface that no longer exists; the
model follows the sources.

## Model

| member | source | states |
|---|---|---|
| RateLimiter.AdmissionIsExactAndOptimal | src/middleware/rate_limiter.cpp:9-42 | In every history with a steady clock, any interleaving of addresses and cleanups that let a bucket refill, each request is admitted iff every window over its address's own requests has room, and no policy that respects the windows has admitted more at any prefix |
| RateLimiter.AdmitsIffEveryWindowHasRoom | src/middleware/rate_limiter.cpp:22-41 | One address: request i is admitted iff for every earlier request j, and i itself, the admissions from j through i stay within burst + rate * elapsed |
| RateLimiter.NoPolicyAdmitsMore | src/middleware/rate_limiter.cpp:22-41 | No decision sequence that respects the windows is ahead of the bucket at any prefix of the trace |
| RateLimiter.BucketRespectsWindows | src/middleware/rate_limiter.cpp:22-41 | The bucket is itself a policy that respects the windows |
| RateLimiter.LevelIsLeastSlack | src/middleware/rate_limiter.cpp:24-31 | The refilled token count is the minimum, over all windows, of what the window still allows |
| RateLimiter.FirstRequestNeedsBurstOfOne | src/middleware/rate_limiter.cpp:18-22 | The first request is always admitted, and this agrees with the window rule iff burst >= 1 |
| RateLimiter.DecisionsAreSolo | src/middleware/rate_limiter.cpp:9-42 | Non-interference: an address gets the decisions it would get alone and without cleanups, when cleanups let buckets refill |
| RateLimiter.CleanupUnnoticedIff | src/middleware/rate_limiter.cpp:51-70 | No history with cleanups of a given age ever shows a deletion iff rate * (age + 1) >= burst |
| RateLimiter.ShortAgeShows | src/middleware/rate_limiter.cpp:51-70 | For every shorter age, a concrete history in which a deletion changes a decision |
| RateLimiter.ServerCleanupsGoUnnoticed | src/core/server.cpp:32-34 | With the server's settings (rate r, burst 2r, age 3600) no address ever notices a cleanup |
| RateLimiter.DisabledAdmitsAll | src/middleware/rate_limiter.cpp:9-10 | A disabled limiter admits every request of every history, stores nothing and counts nothing |
| RateLimiter.UnlimitedServerAdmitsAll | src/core/server.cpp:32-34 | So does the limiter of a server whose rate limit is 0 or negative |
| RateLimiter.CountersAreExact | src/middleware/rate_limiter.cpp:13-40 | In every history of an enabled limiter the total is the number of requests, and the blocked ones are those not admitted |
| RateLimiter.StoredIffRemembered | src/middleware/rate_limiter.cpp:51-70 | In every history an address has a bucket iff it made a request that no sweep found older than its age; sweeps are at least 60 seconds apart; a bucket's time is that of the address's last request |
| RateLimiter.RateLimiter.IsAllowed | src/middleware/rate_limiter.cpp:9-42 | The decision and the whole new state of one call |
| RateLimiter.RateLimiter.CleanupExpired | src/middleware/rate_limiter.cpp:51-70 | At most once a minute, exactly the expired buckets are erased and the rest stay |
| RateLimiter.RateLimiter.GetStats | src/middleware/rate_limiter.cpp:44-49 | The two counters and the number of stored buckets |
| Clock.WholeSeconds | src/middleware/rate_limiter.cpp:58-63 | `duration_cast` truncates toward zero |
| LruCache.ReachableIsValid | src/middleware/cache.cpp:7-100 | After any history the list enumerates the map's keys once each, and the running size is the bytes held and within budget |
| LruCache.DropKeepsValid | src/middleware/cache.cpp:20-24 | Erasing an entry keeps the representation, and the size subtraction does not underflow |
| LruCache.EvictKeepsLongestFit | src/middleware/cache.cpp:63-71 | Eviction keeps exactly the longest prefix of the recency order that leaves room for the new bytes |
| LruCache.PutKeepsLongestFit | src/middleware/cache.cpp:44-83 | An accepted put leaves the key in front of the longest prefix of the other keys' recency order that still fits |
| LruCache.PutStores | src/middleware/cache.cpp:73-82 | An accepted put stores its entry and changes no surviving entry and no counter |
| LruCache.PutIsAcceptedIffFits | src/middleware/cache.cpp:44-83 | After a put the cache holds its data iff the data fits the budget; otherwise nothing has changed |
| LruCache.OversizedPutKeepsOldData | src/middleware/cache.cpp:47-50 | An input where a lookup returns older data than the last put |
| LruCache.EntryIsLastAccepted | src/middleware/cache.cpp:44-100 | After any history an entry holds the last accepted put of its key that no remove or clear has undone |
| LruCache.HitReturnsLastAcceptedPut | src/middleware/cache.cpp:7-42 | A hit returns the data, type and creation time of that put, and it is not older than the time to live |
| LruCache.HitIffYoung | src/middleware/cache.cpp:7-42 | After any history a lookup hits iff the key is present and its last accepted put is no older than the time to live |
| LruCache.UsesAreCounted | src/middleware/cache.cpp:30-39 | In every history the hit counter is the number of lookups that hit, and each entry's use count and last use are those since it was stored |
| LruCache.LookupsAreCounted | src/middleware/cache.cpp:7-42 | After any history hits plus misses is the number of lookups |
| LruCache.AccessKeepsLongestFit | src/middleware/cache.cpp:7-83 | Hit, miss or expiry: a read-through access leaves the key in front of the others that still fit |
| LruCache.Inclusion | src/middleware/cache.cpp:7-83 | The stack property: for accesses one after another, none of a size that fits the larger budget only, the smaller cache's recency list is always a prefix of the larger one's, whatever the clocks and times to live do |
| LruCache.InclusionIffNoneBetween | src/middleware/cache.cpp:47-71 | For given file sizes, it holds for all workloads iff no size fits the larger budget only, or none fits the smaller |
| LruCache.OverlapIsSafeIffSameKey | src/middleware/cache.cpp:7-83 | Two accesses of which the second looks up before the first has filled keep the stack property, after any workload, iff they ask for the same key; the proof gives the input that breaks it for any two different keys |
| LruCache.MoreMemoryNeverLosesHits | src/middleware/cache.cpp:7-83 | On one clock, for every workload, whatever expires and is evicted: the larger cache with at least as long a time to live has at least as many hits, by a lead that covers the keys whose entry is older there |
| LruCache.MoreHitsIffNoShorter | src/middleware/cache.cpp:19-27 | With files that fit both, this holds for all workloads iff the larger cache's time to live is no shorter, or the smaller's is negative |
| LruCache.UnexpiredNeverLosesHits | src/middleware/cache.cpp:7-83 | With clocks of their own, the larger cache has at least as many hits if its lookups find no expired entry |
| LruCache.BigFileCostsHit | src/middleware/cache.cpp:47-71 | An input where a file that fits the larger cache only costs it a hit |
| LruCache.LruCache.Lookup | src/middleware/cache.cpp:7-42 | `get`: result and whole new state, with the representation kept |
| LruCache.LruCache.Store | src/middleware/cache.cpp:44-83 | `put`: whole new state, with the representation kept |
| LruCache.LruCache.EvictFor | src/middleware/cache.cpp:63-71 | The eviction loop computes the eviction function |
| LruCache.LruCache.Unlink | src/middleware/cache.cpp:20-24 | Erasing list node, map entry and bytes together |
| LruCache.LruCache.Erase | src/middleware/cache.cpp:85-93 | `remove`: whole new state |
| LruCache.LruCache.Reset | src/middleware/cache.cpp:95-100 | `clear`: everything but the counters is gone |
| LruCache.LruCache.GetStats | src/middleware/cache.cpp:109-115 | The counters, the number of entries and the bytes they hold |
| StaticHandler.CacheIsTransparent | src/modules/static_handler.cpp:13-74 | After any interleaving of the lookups and fills of any number of workers, and removals, the answer of a call equals the uncached one in status, reason, body and every header but X-Cache |
| StaticHandler.HandleIsSteps | src/modules/static_handler.cpp:34-65 | A call's effect on the cache is a lookup and, on a miss, a fill |
| StaticHandler.HandleIsTransparent | src/modules/static_handler.cpp:34-74 | One call keeps every entry equal to its file, and answers as without a cache |
| StaticHandler.ForbiddenIffEscapes | src/modules/static_handler.cpp:17-21 | The answer is 403, with and without a cache, iff the request path climbs above the root; the cache is then untouched |
| StaticHandler.DirectoryIsRedirected | src/modules/static_handler.cpp:26-31 | A directory asked for without the final slash is answered with a redirection to the path with the slash, and the cache is untouched |
| StaticHandler.FileIsServed | src/modules/static_handler.cpp:23-73 | Any other request gets the file under the root that its uncancelled segments name, or the index file of that directory: its content and type, or 404, or 500 |
| StaticHandler.CacheIsAskedForFile | src/modules/static_handler.cpp:35-65 | The cache is asked for exactly that file; a hit is answered from the entry, a miss stores the file |
| StaticHandler.CacheIsWork | src/modules/static_handler.cpp:34-65 | The cache after a series of calls, one after another, is the cache of a read-through workload on the files they touch |
| StaticHandler.LessMemoryHoldsPrefix | src/modules/static_handler.cpp:34-65 | The stack property for the handler: after the same calls, one after another, that serve no file fitting the larger memory only, the smaller cache holds a prefix of what the larger holds |
| StaticHandler.HandleRequest | src/modules/static_handler.cpp:13-74 | `handle` with and without a cache: response and new cache state, for every call on which it is defined |
| StaticHandler.Resolve | src/modules/static_handler.cpp:17-33 | Forbidden, redirect, or the file to serve |
| PathSanitizer.BlockedIffClimbs | src/modules/static_handler.cpp:96-115 | The walk is blocked iff some prefix of the segments has more ".." than names (plus the starting depth) |
| PathSanitizer.WalkLeavesUncancelled | src/modules/static_handler.cpp:96-115 | The stack left by the walk is the starting stack less the uncancelled "..", then the names no later ".." cancels |
| PathSanitizer.SanitizeIsCanonical | src/modules/static_handler.cpp:88-125 | The result is empty iff the path climbs above the root; otherwise it is "/" and the uncancelled names, none of them empty, "." or "..", and sanitizing it again changes nothing |
| PathSanitizer.SanitizePath | src/modules/static_handler.cpp:88-125 | The loop with its separate depth counter computes that function: the depth is always the stack's size |
| HttpParser.FeedingPiecesIsOneCall | src/http/http_parser.cpp:44-114 | For every cut of every byte string, feeding pieces until the parser is done gives the request and verdict of one call, and its leftover plus the unfed pieces is the one call's leftover |
| HttpParser.StepSplits | src/http/http_parser.cpp:44-114 | From any parser state: a call that is done is unaffected by more bytes except for its leftover, and a call that is not done leaves the parser where the rest can continue |
| HttpParser.ValidRequestIsParsed | src/http/http_parser.cpp:44-219 | A request handed over as valid has a known method, a path that starts with "/", a query without white space, lower-case trimmed one-line headers, and a body of exactly the announced length |
| HttpParser.HeadersAreClean | src/http/http_parser.cpp:156-176 | Every parsed header name is lower-case, trimmed, one-line and colon-free, every value trimmed and one-line |
| HttpParser.RequestLineShape | src/http/http_parser.cpp:125-151 | What an accepted request line fixes |
| RequestLaws.MessageIsRead | src/http/http_parser.cpp:44-114 | Every message with a known method and version and an announced length below 2^64: the call is done iff that many bytes follow, and then method, path, query, version and headers are those of the message, the body is exactly those bytes, and the rest is left over |
| RequestLaws.AnnouncedBodyIsRead | src/http/http_parser.cpp:85-113 | The same for any accepted request line: the last Content-Length header decides |
| RequestLaws.UnannouncedBodyIsLeft | src/http/http_parser.cpp:86-113 | Without a length, or with one that is no number, the body is empty and all that follows is left over |
| RequestLaws.UnknownIsInvalid | src/http/http_parser.cpp:68-71 | With an unknown method or version the call is done, the request invalid and the buffer untouched |
| RequestLaws.NoHeadersNoBody | src/http/http_parser.cpp:54-66 | A request line followed by a blank line is a complete request |
| RequestLaws.NoBlankLineWaits | src/http/http_parser.cpp:48-52 | Without a blank line the call keeps the bytes and waits |
| RequestLaws.LineIsAcceptedIff | src/http/http_parser.cpp:125-151 | A line of at least three words is accepted iff method and version are known; its path is decoded and made absolute, its query cut off at the first question mark |
| RequestLaws.ShortLineIsRejected | src/http/http_parser.cpp:125-151 | A line of fewer than three words is rejected |
| RequestLaws.CollectedIff | src/http/http_parser.cpp:156-176 | The header map holds exactly what the last header of each name says |
| RequestLaws.NoColonIsSkipped | src/http/http_parser.cpp:156-176 | A header line without a colon changes nothing |
| RequestLaws.DecodesIffEncodes | src/http/http_parser.cpp:181-206 | Decoding gives s iff the text writes s: percent and two hexadecimal digits, high digit first and in either case, for a byte, plus for a space, anything else for itself |
| HttpParser.HttpParser.Parse | src/http/http_parser.cpp:44-114 | `parse`: result, request and new parser state |
| HttpParser.HttpParser.TakeBody | src/http/http_parser.cpp:88-113 | The body phase: done iff enough bytes are buffered, the rest is left over |
| HttpParser.HttpParser.Reset | src/http/http_parser.cpp:116-120 | `reset` gives a fresh parser |
| HttpParser.ReadRequestLine | src/http/http_parser.cpp:125-151 | The three words, the method check and the split at "?" |
| HttpParser.ParseHeaders | src/http/http_parser.cpp:156-176 | The line loop computes the header map, later lines overriding earlier ones |
| HttpParser.DecodeUrl | src/http/http_parser.cpp:181-206 | The index loop computes percent and plus decoding |
| ProxyRequest.ForwardingRoundTrip | src/modules/proxy_handler.cpp:103-131 | For every valid request, however its bytes were cut and in whatever order its headers are iterated: the backend that parses the forwarded text gets the same method, path, query and body, every client header except host and connection, and nothing left over, if the decoded path is plain; if it is not, the backend never gets that path |
| ProxyRequest.TwoHops | src/modules/proxy_handler.cpp:103-131 | Two proxies in a row: what a backend receives can be forwarded again, and the second hop changes nothing but the Host header |
| ProxyRequest.PlainRequestParses | src/modules/proxy_handler.cpp:103-131 | The forwarded text of a plain request parses to exactly the request the backend should see |
| ProxyRequest.SeenPath | src/modules/proxy_handler.cpp:107-110 | The path any reader gets, whatever the decoded path contains: the decoding of its part before the first white space or question mark |
| ProxyRequest.SurvivesIffPlain | src/http/http_parser.cpp:181-206 | A path survives printing and decoding iff it has no white space, "?", "+" or percent escape |
| ProxyRequest.DecodeFixed | src/http/http_parser.cpp:181-206 | Decoding changes every string with a plus sign or an escape |
| ProxyRequest.CollectRelay | src/modules/proxy_handler.cpp:119-124 | However the header map is iterated, the relayed headers override the proxy's own |
| ProxyRequest.BuildBackendRequest | src/modules/proxy_handler.cpp:103-131 | `build_backend_request` prints the request line, the proxy's headers, the relayed headers and the body |
| HttpResponse.ResponseRoundTrip | src/http/http_response.cpp:33-61 | Reading a built response gives the status, reason and body back, and the headers plus only the defaults iff every value is non-empty and does not start with a space or tab |
| HttpResponse.ReadIsFixedPoint | src/modules/proxy_handler.cpp:168-231 | Building and reading a second time changes nothing iff no header value is blank |
| HttpResponse.KeptTwiceIffSettles | src/modules/proxy_handler.cpp:217-221 | A value is stable from the first reading on iff it holds something other than spaces and tabs; a blank one grows by a space each time |
| HttpResponse.BuiltIsRead | src/modules/proxy_handler.cpp:168-231 | What is read from a built response, also when some header values do not survive |
| HttpResponse.NoBlankLineIs502 | src/modules/proxy_handler.cpp:171-176 | Text without a blank line is read as 502 with the fixed body |
| HttpResponse.StatusLineReads | src/modules/proxy_handler.cpp:187-198 | The status line is cut at its first two spaces; a code that is no number gives 502 |
| HttpResponse.ShortStatusLine | src/modules/proxy_handler.cpp:191-201 | With fewer than two spaces the code is 502 |
| HttpResponse.MessageReads | src/modules/proxy_handler.cpp:178-230 | Headers and body are read whatever the status line says |
| HttpResponse.BuildStartsWithStatus | src/http/http_response.cpp:33-40 | A built response starts with the version, the code and the reason |
| HttpResponse.SeenIffSurvive | src/modules/proxy_handler.cpp:211-224 | The header map comes back iff every value survives |
| HttpResponse.KeptIffSurvives | src/modules/proxy_handler.cpp:217-221 | A value is read back unchanged iff it is non-empty and does not start with a space or tab |
| HttpResponse.HttpResponse.BuildText | src/http/http_response.cpp:33-61 | `build`: status line, own headers in any order, missing defaults, body |
| HttpResponse.HttpResponse.SetStatus | src/http/http_response.cpp:7-10 | Changes status and reason only |
| HttpResponse.HttpResponse.SetHeader | src/http/http_response.cpp:12-14 | Overwrites one header only |
| HttpResponse.HttpResponse.SetBody | src/http/http_response.cpp:24-26 | Changes the body only |
| HttpResponse.ParseBackendResponse | src/modules/proxy_handler.cpp:168-231 | `parse_backend_response` returns what the reader function says, also for malformed text |
| HttpResponse.ParseStatus | src/modules/proxy_handler.cpp:182-200 | Status code and reason, with 502 for an unreadable code |
| Numbers.StoiDecimal | src/modules/proxy_handler.cpp:193 | `stoi` reads back every printed 32-bit int |
| Numbers.StoulDecimal | src/config/config_parser.cpp:353 | `stoul` reads back every printed number below 2^64 |
| Router.ConsultsLongestMatch | src/http/router.cpp:26-42 | For distinct prefixes and a path that starts with "/", the route consulted is exactly the longest one matching at a segment boundary, and none iff none matches |
| Router.OrderIsIrrelevant | src/http/router.cpp:7-73 | Two tables registered in any order and sorted in any way answer every request alike |
| Router.RequestOutcome | src/http/router.cpp:26-73 | For distinct prefixes and a path that starts with "/": the route with the longest prefix that is the root, the path, or followed in the path by a slash handles the request iff it allows all methods or this one, and otherwise refuses it, naming exactly its methods; with no such route the default handler is asked, or there is none |
| Router.AllowNamesMethods | src/http/router.cpp:54-60 | The Allow value cut at its commas gives the allowed methods in order |
| Router.Router.AddRoute | src/http/router.cpp:7-17 | The table stays a longest-first arrangement of all registrations |
| Router.SortByLength | src/http/router.cpp:12-16 | A permutation in descending order of prefix length |
| Router.Router.Dispatch | src/http/router.cpp:26-73 | The handler, 405 with the allowed methods, the default handler, or 404 |
| LoadBalancer.BoundedFairness | src/modules/load_balancer.cpp:18-33 | If no wrap of the counter breaks the scan order within the next n ticks, a backend that stays alive is returned in any n consecutive calls, however the others flip |
| LoadBalancer.FairIffUnbroken | src/modules/load_balancer.cpp:18-33 | That condition is exact: fairness holds from a tick on iff the scan that starts there is unbroken |
| LoadBalancer.Rotation | src/modules/load_balancer.cpp:18-33 | If the scan is unbroken and m backends stay alive, m consecutive calls return each of them exactly once and no other |
| LoadBalancer.NullIffNoneAlive | src/modules/load_balancer.cpp:18-33 | If the scan is unbroken and no flag changes, null is returned iff no backend is alive |
| LoadBalancer.NullIffNoneSeen | src/modules/load_balancer.cpp:18-33 | At every tick, null is returned iff none of the slots the scan visits is alive |
| LoadBalancer.NullAndRotationIffUnbroken | src/modules/load_balancer.cpp:18-33 | Exactness: at a tick, null is right for all health flags, and rotation holds for all health flags, iff the scan is unbroken |
| LoadBalancer.PromisesForEverIffDivides | src/modules/load_balancer.cpp:18-33 | Null, rotation and fairness are each right at every tick iff the number of backends divides 2^32 |
| LoadBalancer.NullWithLiveBackend | src/modules/load_balancer.cpp:18-33 | An input where null is wrong: three backends, the last alive, tick 2^32 - 1 |
| LoadBalancer.SeesAllIffUnbroken | src/modules/load_balancer.cpp:22-24 | A scan looks at every slot iff no wrap breaks its order |
| LoadBalancer.NextSlot | src/modules/load_balancer.cpp:24 | The order breaks between two ticks exactly at 2^31 (mod 2^32) unless n divides 2^64 - 2^32, and at 0 (mod 2^32) unless n divides 2^64 |
| LoadBalancer.BetweenWrapsIsUnbroken | src/modules/load_balancer.cpp:24 | No scan that lies between two wraps is broken, before the first wrap or after any later one |
| LoadBalancer.NeverBrokenIffDivides | src/modules/load_balancer.cpp:24 | No scan is ever broken iff the number of backends divides 2^32 |
| LoadBalancer.ReturnedIsAlive | src/modules/load_balancer.cpp:25-28 | A scan during which no flag changes returns a live backend |
| LoadBalancer.SlotIsTick | src/modules/load_balancer.cpp:24 | Increment t visits slot t mod n before the 32-bit counter wraps, or always if n divides 2^32 |
| LoadBalancer.CyclicForEverIffDivides | src/modules/load_balancer.cpp:24 | With wrap-around and conversion to size_t the slots stay cyclic for ever iff n divides 2^32 |
| LoadBalancer.CounterIncrements | src/modules/load_balancer.cpp:24 | The closed form of the wrapped counter agrees with its increments |
| LoadBalancer.HealthClosedForm | src/modules/load_balancer.cpp:41-111 | After any history of probes and mark_down calls, failed_checks is the number of failures since the last success, and the backend is alive iff there were fewer than 3 and no mark_down since then |
| LoadBalancer.CountsAndHealth | src/modules/load_balancer.cpp:13-111 | In every history of the whole balancer, a backend's total is how often it was returned, its active count is that less how often it was released, and its health has the closed form over its own probes |
| LoadBalancer.AddressesAreKept | src/modules/load_balancer.cpp:13-16 | In every history the backends are those added, in order, each with its host and port |
| LoadBalancer.LoadBalancer.GetNext | src/modules/load_balancer.cpp:18-33 | The scan's result for any answers of the flag loads, the increments it made and the one backend it charged |
| LoadBalancer.LoadBalancer.AddBackend | src/modules/load_balancer.cpp:13-16 | Appends a live backend |
| LoadBalancer.LoadBalancer.Release | src/modules/load_balancer.cpp:35-39 | Changes one active count only |
| LoadBalancer.LoadBalancer.MarkDownBackend | src/modules/load_balancer.cpp:41-47 | Clears one alive flag only |
| LoadBalancer.LoadBalancer.HealthRound | src/modules/load_balancer.cpp:91-111 | One probe step for every backend, and nothing else changes |
| LoadBalancer.LoadBalancer.HealthyCount | src/modules/load_balancer.cpp:75-82 | The size of the set of live backends |
| ThreadPool.ReachableInv | src/core/thread_pool.cpp:24-92 | No lost wakeup, in every run: while tasks wait, a worker is awake or busy or a notification is still due, unless every worker has left; no worker leaves before the flag is set, and none sleeps after shutdown has woken everybody |
| ThreadPool.StepKeepsInv | src/core/thread_pool.cpp:24-92 | Every atomic step keeps that invariant |
| ThreadPool.TakenInPushOrder | src/core/thread_pool.cpp:42-78 | In every run the tasks pushed are the tasks taken, in order, followed by the queue: first in first out, each at most once |
| ThreadPool.TakenAreFinishedOrExecuting | src/core/thread_pool.cpp:74-90 | In every run the tasks taken are the tasks finished and those being executed, with multiplicity |
| ThreadPool.ShutdownDrains | src/core/thread_pool.cpp:24-40 | When shutdown has joined all workers, every task pushed before the flag was set has been taken, and everything taken has finished |
| ThreadPool.PushIsTakenIffSomeoneStays | src/core/thread_pool.cpp:24-92 | The fate of every push, before or after the flag: when shutdown has joined all workers, the task has been taken, and has finished, iff some worker had not left when it was pushed |
| ThreadPool.LeavingMeansDrained | src/core/thread_pool.cpp:65-72 | A worker that has left has first seen everything pushed before it left be taken |
| ThreadPool.AdmittedArePushed | src/core/thread_pool.cpp:42-52 | In every run the tasks that passed the flag test are those pushed and those about to be, with multiplicity |
| ThreadPool.PushedWereAdmitted | src/core/thread_pool.cpp:42-52 | Whatever is ever pushed was admitted before the flag was set |
| ThreadPool.LatePushIsStranded | src/core/thread_pool.cpp:42-52 | A legal run in which a push after the flag test is never executed |
| ThreadPool.InternalStepsWork | src/core/thread_pool.cpp:24-92 | Every step of the pool itself decreases a non-negative measure |
| ThreadPool.InternalRunsEnd | src/core/thread_pool.cpp:24-92 | Without new calls and spurious wakeups the pool comes to rest within that many steps |
| ThreadPool.QuiescentMeansDone | src/core/thread_pool.cpp:24-92 | At rest no push and no task is pending: an open pool has an empty queue and only sleeping workers, a stopped one has joined all workers |
| ThreadPool.RestMeansEverythingRan | src/core/thread_pool.cpp:42-92 | When an open pool is at rest every pushed task has finished, exactly once |
| Connections.ConnectionLifeCycle | src/core/server.cpp:224-321 | In every run the table's keys are the open client descriptors, at most MAX_CONNECTIONS, no read buffer exceeds MAX_REQUEST_SIZE, no descriptor is closed that is not open, and no connection is closed twice |
| Connections.StopClosesEverything | src/core/server.cpp:144-178 | After a stop between handlers nothing is open, and every connection ever accepted was closed exactly once |
| Connections.StopSparesInFlight | src/core/server.cpp:144-268 | A stop inside `handle_accept` closes everything iff no connection is between `accept4` and the table; one that is gets closed by `handle_accept` if its registration fails, and otherwise stays open, and no later stop closes it |
| Connections.ExactDelivery | src/core/server.cpp:509-559 | Under any partial sends, what the kernel took for a connection is a prefix of what was queued, ending exactly at bytes_sent; when the buffer is empty everything queued was taken |
| ConnectionStories.TableFitsStories | src/core/server.cpp:275-391 | Exact reading: in every legal run the read buffer of an open connection is the concatenation of all bytes received since its accept or last response, in order; its last activity, keep-alive and writing flags are those of its history |
| ConnectionStories.ReadClosesIff | src/core/server.cpp:286-312 | A read leaves the connection open iff the peer has not ended and the request is at most 65536 bytes |
| ConnectionStories.WriteClosesIff | src/core/server.cpp:509-559 | A write leaves the connection open iff it has to wait, or has sent the last byte of a response queued with keep-alive |
| ConnectionStories.TimeoutClosesIff | src/core/server.cpp:579-597 | A time-out closes a connection iff nothing was heard for more than 30 whole seconds and no response is pending |
| ConnectionStories.ClientIsKeptIff | src/core/server.cpp:242-268 | A new client gets an entry iff there are fewer than 10000 connections and its registration succeeds |
| Connections.ReachableInv | src/core/server.cpp:144-600 | The full invariant holds after every legal run of events |
| Connections.EventKeepsInv | src/core/server.cpp:144-600 | Every event keeps it |
| Connections.ConnectionTable.AcceptPending | src/core/server.cpp:224-270 | `handle_accept`: whole new state |
| Connections.ConnectionTable.AcceptOne | src/core/server.cpp:242-268 | The connection limit, the failed registration, the new entry |
| Connections.ConnectionTable.ReadAvailable | src/core/server.cpp:275-321 | `handle_read`: whole new state, and a request is dispatched iff the connection is still there with a complete header section |
| Connections.ConnectionTable.QueueResponse | src/core/server.cpp:384-391 | The end of `process_request`: whole new state; nothing for a connection that has left the table |
| Connections.ConnectionTable.WritePending | src/core/server.cpp:509-559 | `handle_write`: whole new state and the bytes sent |
| Connections.ConnectionTable.CloseOne | src/core/server.cpp:564-574 | `close_connection`: closes and erases, or does nothing |
| Connections.ConnectionTable.CleanupInactive | src/core/server.cpp:579-597 | Exactly the stale, non-writing connections are closed, in some order |
| Connections.ConnectionTable.Shutdown | src/core/server.cpp:144-163 | `stop`: every descriptor is closed once and the table cleared |
| ConfigTokens.TokenizeText | src/config/config_parser.cpp:50-108 | The scanner loop computes the token function, for every text |
| ConfigTokens.TokenizeRendered | src/config/config_parser.cpp:50-108 | Any tokens written with any white space and comments between them come back, on the lines where the gaps put them |
| ConfigTokens.LayoutIsInvisible | src/config/config_parser.cpp:50-108 | White space and comments change only line numbers |
| ConfigTokens.EveryTextIsALayout | src/config/config_parser.cpp:50-108 | Every text is its own tokens written with some gaps, so the two lemmas above speak of every text |
| ConfigParser.LayoutDoesNotMatter | src/config/config_parser.cpp:38-173 | Changing the layout of any text changes neither the configuration nor the error, except for its line |
| ConfigParser.SameLexemesSameResult | src/config/config_parser.cpp:116-173 | The parser's result depends on the token kinds and values only, up to the line of an error |
| ConfigParser.ConfigParser.ParseString | src/config/config_parser.cpp:38-43 | Terminates on every text with the configuration or the error the grammar functions give |
| ConfigParser.ConfigParser.ParseConfig | src/config/config_parser.cpp:154-173 | The block loop: servers in order, a later upstream replaces one of the same name, no server is an error |
| ConfigParser.ConfigParser.ParseServerBlock | src/config/config_parser.cpp:177-195 | Result and position, or the error with its line |
| ConfigParser.ConfigParser.ParseServerDirective | src/config/config_parser.cpp:257-297 | Result and position, or the error with its line |
| ConfigParser.ConfigParser.ParseLocationBlock | src/config/config_parser.cpp:199-214 | Result and position, or the error with its line |
| ConfigParser.ConfigParser.ParseLocationDirective | src/config/config_parser.cpp:301-331 | Result and position, or the error with its line |
| ConfigParser.ConfigParser.ParseUpstreamBlock | src/config/config_parser.cpp:218-253 | Result and position, or the error with its line |
| ConfigParser.ConfigParser.ParseUpstreamDirective | src/config/config_parser.cpp:223-249 | Result and position, or the error with its line |
| ConfigParser.ConfigParser.Consume | src/config/config_parser.cpp:124-133 | The token's value and the next position, or the error at the current token |
| ConfigRoundTrip.ConfigRoundTrip | src/config/config_parser.cpp:38-331 | Every well-formed configuration, printed as directives in any layout and parsed, is itself |
| ConfigRoundTrip.WellFormedIffParsed | src/config/config_parser.cpp:38-354 | A configuration is the parse of some text iff it is well-formed |
| ConfigRoundTrip.ReparseIsIdentity | src/config/config_parser.cpp:38-354 | Parse, print, parse again: the same configuration, whatever the text was |
| ConfigRoundTrip.ParsedIsGood | src/config/config_parser.cpp:154-354 | Whatever parses is well-formed: words where the grammar wants words, numbers that fit, at least one server |
| ConfigRoundTrip.PrintMeans | src/config/config_parser.cpp:154-331 | The printed directives describe exactly the configuration they were printed from |
| ConfigLanguage.AcceptedIffDescribed | src/config/config_parser.cpp:50-354 | The whole language: a text parses to a configuration iff its tokens are those of blocks of known directives, each complete, with readable numbers, that say this configuration in order, and it has a server |
| ConfigLanguage.BlocksAccepted | src/config/config_parser.cpp:154-331 | Every sequence of tokens written that way is accepted with that meaning |
| ConfigLanguage.BlockTextsAre | src/config/config_parser.cpp:154-331 | Every accepted sequence of tokens is written that way |
| ConfigLanguage.ErrorsHaveTheirLine | src/config/config_parser.cpp:147-150 | In every layout a syntax error carries the line its token stands on, or -1 at the end |
| ConfigPrinter.DirectivesRoundTrip | src/config/config_parser.cpp:38-331 | Every list of directives, in any order and with repetitions and size suffixes, parses in any layout to what it says, or to the error that there is no server |
| ConfigPrinter.SizeReads | src/config/config_parser.cpp:335-354 | A number with K, M or G reads as the product modulo 2^64 |
| ConfigPrinter.SizeReadsEitherCase | src/config/config_parser.cpp:335-354 | The suffixes k, m and g read like K, M and G |
| ConfigPrinter.ListenReads | src/config/config_parser.cpp:260-270 | `host:port` and `port` read back |
| ConfigPrinter.AddressReads | src/config/config_parser.cpp:223-241 | `host:port` is cut at its last colon, and a missing port is 80 |

## Left out

- Sockets, epoll, file reads, the network probe of the health check, logging, the command line, signals, the MIME table and HTML: their results are arguments of the model.
- Floating-point rounding in the limiter: tokens and times are reals.
- Overflow of `size_t` and `int` counters, except `current_index_`, `parse_size`, `stoi` and `stoul`, which are modelled with their widths.
- The mutexes of the limiter, the cache and the load balancer: each public call is one step, except that in `get_next` each load of an alive flag may give any answer, and that in `StaticHandler.CacheIsTransparent` the cache steps of different `handle` calls interleave.
- ThreadPool as a class: it is a protocol of atomic steps, because its property is about interleavings; a second concurrent caller of `shutdown` and tasks that never return are not modelled.
- ThreadPool.InternalRunsEnd: does not bound spurious wakeups, because the condition variable may cause any number of them.
- LruCache: list iterators in the map are not modelled; an iterator stands for the one list node of its key. `hit_ratio` is left out.
- LoadBalancer: backend pointers are indices; `last_check` and the health thread's sleeping are left out.
- Router: handlers are numbers, and the result says which one is called.
- StaticHandler.HandleRequest: does not model an empty request path whose root is a directory, for which the source calls `back()` on an empty string; the parser never produces an empty path.
- StaticHandler.LessMemoryHoldsPrefix: does not cover calls that overlap, for which it fails as soon as they ask for different files.
- LruCache.MoreMemoryNeverLosesHits: gives no exact condition on the sizes of files; that no size fits the larger budget only suffices.
- StaticHandler.CacheIsTransparent: does not model files that change while they are cached; the file system is fixed.
- HttpResponse: the factories other than those the handlers here use are left out, and so are `get_header` and the `vector<char>` body.
- Error-page replacement and HEAD handling in `process_request`.
- Connections: two workers on the same connection are not modelled; requests and responses of one connection alternate. A worker whose connection has left the table writes to nobody; the epoll mask it changes then is not modelled.
- Connections.StopClosesEverything: does not cover a `stop` that the signal handler of `src/main.cpp:14-17` runs inside another handler; `Connections.StopSparesInFlight` covers one inside `handle_accept`, and one that finds the mutex taken is not modelled.
- Connections.ConnectionTable.ReadAvailable: does not model `enqueue` throwing during shutdown.
- Backend addresses of `proxy_pass`, and `parse_file`.
- `get_header` and `wants_keep_alive` of a request: the keep-alive flag is an argument where a response is queued.
- ConfigParser: error messages are a datatype of reasons, and which reason an error gives is said by the grammar functions only; the upstreams left behind by a failed parse are not described.
- ConfigRoundTrip.ConfigRoundTrip: prints error pages and upstreams in some order of the map, not in every order; `ConfigPrinter.DirectivesRoundTrip` covers every order of directives.
- Bytes are characters; no encoding is modelled.
