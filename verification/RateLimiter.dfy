/**
 The token-bucket rate limiter (src/middleware/rate_limiter.cpp).

 Doubles are reals and the clock is an argument.  The class follows the source; its methods are
 proved against the step functions on `Limiter` values, and the lemmas are about every history of
 calls (`seq<Event>`).
 */
module RateLimiter {
  import opened Wrappers
  import opened Clock

  datatype Bucket = Bucket(tokens: real, lastRefill: real)

  /** The constructor's arguments. */
  datatype Settings = Settings(rate: real, burst: real, enabled: bool)

  datatype Limiter = Limiter(buckets: map<string, Bucket>, total: nat, blocked: nat, lastCleanup: real)

  function Min(a: real, b: real): real {
    if b < a then b else a
  }

  /** Tokens that accrue in `seconds`. */
  function Accrued(cfg: Settings, seconds: real): real {
    seconds * cfg.rate
  }

  /** Tokens earned between two instants. */
  function Earned(cfg: Settings, from: real, to: real): real {
    Accrued(cfg, to - from)
  }

  /** One request against one bucket (absent on first sight): the new bucket and the decision. */
  function Serve(cfg: Settings, b: Option<Bucket>, now: real): (Bucket, bool) {
    match b
    case None => (Bucket(cfg.burst - 1.0, now), true)
    case Some(bucket) =>
      var level := Min(cfg.burst, bucket.tokens + Earned(cfg, bucket.lastRefill, now));
      if level >= 1.0 then (Bucket(level - 1.0, now), true) else (Bucket(level, now), false)
  }

  function Lookup(buckets: map<string, Bucket>, ip: string): Option<Bucket> {
    if ip in buckets then Some(buckets[ip]) else None
  }

  predicate Expired(b: Bucket, maxAge: int, now: real) {
    WholeSeconds(now - b.lastRefill) > maxAge
  }

  // ---------------------------------------------------------------------------------------------
  // Histories
  // ---------------------------------------------------------------------------------------------

  datatype Event =
    | Request(ip: string, now: real)
    | Cleanup(maxAge: int, now: real)

  function Decide(cfg: Settings, s: Limiter, ip: string, now: real): bool {
    !cfg.enabled || Serve(cfg, Lookup(s.buckets, ip), now).1
  }

  function Apply(cfg: Settings, s: Limiter, e: Event): Limiter {
    if !cfg.enabled then s else
    match e
    case Request(ip, now) =>
      var (bucket, ok) := Serve(cfg, Lookup(s.buckets, ip), now);
      s.(buckets := s.buckets[ip := bucket], total := s.total + 1,
         blocked := if ok then s.blocked else s.blocked + 1)
    case Cleanup(maxAge, now) =>
      if WholeSeconds(now - s.lastCleanup) < 60 then s
      else s.(buckets := map ip | ip in s.buckets && !Expired(s.buckets[ip], maxAge, now) :: s.buckets[ip],
              lastCleanup := now)
  }

  /** The limiter after a history, constructed at time `start`. */
  function After(cfg: Settings, start: real, es: seq<Event>): Limiter {
    if es == [] then Limiter(map[], 0, 0, start)
    else Apply(cfg, After(cfg, start, es[..|es| - 1]), es[|es| - 1])
  }

  /** The decisions the limiter took for `ip` in a history, in order. */
  function DecisionsFor(cfg: Settings, start: real, es: seq<Event>, ip: string): seq<bool> {
    if es == [] then []
    else
      var past, e := es[..|es| - 1], es[|es| - 1];
      DecisionsFor(cfg, start, past, ip) +
      if e.Request? && e.ip == ip then [Decide(cfg, After(cfg, start, past), ip, e.now)] else []
  }

  /** The instants at which `ip` made requests. */
  function TimesOf(es: seq<Event>, ip: string): seq<real> {
    if es == [] then []
    else
      var e := es[|es| - 1];
      TimesOf(es[..|es| - 1], ip) + if e.Request? && e.ip == ip then [e.now] else []
  }

  function EndOf(start: real, es: seq<Event>): real {
    if es == [] then start else es[|es| - 1].now
  }

  /** The clock is steady: instants never go back. */
  predicate Steady(start: real, es: seq<Event>) {
    es == [] || (Steady(start, es[..|es| - 1]) && EndOf(start, es[..|es| - 1]) <= es[|es| - 1].now)
  }

  // ---------------------------------------------------------------------------------------------
  // One address alone, with no cleanup: the window rule
  // ---------------------------------------------------------------------------------------------

  /** The bucket of an address that makes exactly the requests `ts`. */
  function SoloBucket(cfg: Settings, ts: seq<real>): Option<Bucket> {
    if ts == [] then None
    else Some(Serve(cfg, SoloBucket(cfg, ts[..|ts| - 1]), ts[|ts| - 1]).0)
  }

  function SoloDecisions(cfg: Settings, ts: seq<real>): (d: seq<bool>)
    ensures |d| == |ts|
  {
    if ts == [] then []
    else SoloDecisions(cfg, ts[..|ts| - 1]) + [Serve(cfg, SoloBucket(cfg, ts[..|ts| - 1]), ts[|ts| - 1]).1]
  }

  /** How many of the decisions are admissions. */
  function Admitted(d: seq<bool>): nat {
    if d == [] then 0 else Admitted(d[..|d| - 1]) + if d[|d| - 1] then 1 else 0
  }

  /** Admitting one more request at `now`, after decisions `d` at `ts`, respects the window opened at `from`. */
  ghost predicate Room(cfg: Settings, d: seq<bool>, from: real, now: real) {
    Admitted(d) as real + 1.0 <= cfg.burst + Earned(cfg, from, now)
  }

  /** The window rule for request `i` of the trace `ts` decided by `d`: every window that ends at `i` has room. */
  ghost predicate EveryWindowHasRoom(cfg: Settings, ts: seq<real>, d: seq<bool>, i: nat)
    requires |d| == |ts| && i < |ts|
  {
    forall j :: 0 <= j <= i ==> Room(cfg, d[j..i], ts[j], ts[i])
  }

  /** An admission policy that never overfills a window. */
  ghost predicate RespectsWindows(cfg: Settings, ts: seq<real>, d: seq<bool>)
    requires |d| == |ts|
  {
    forall i :: 0 <= i < |ts| && d[i] ==> EveryWindowHasRoom(cfg, ts, d, i)
  }

  lemma AccruedGrows(cfg: Settings, a: real, b: real)
    requires a <= b && cfg.rate >= 0.0
    ensures Accrued(cfg, a) <= Accrued(cfg, b)
  {
    assert (b - a) * cfg.rate >= 0.0;
  }

  lemma EarnedAdds(cfg: Settings, a: real, b: real, c: real)
    ensures Earned(cfg, a, b) + Earned(cfg, b, c) == Earned(cfg, a, c)
    ensures Earned(cfg, a, a) == 0.0
    ensures a <= b && cfg.rate >= 0.0 ==> Earned(cfg, a, b) >= 0.0
  {
  }

  lemma {:induction false} AdmittedSplits(d: seq<bool>, k: nat)
    requires k <= |d|
    ensures Admitted(d) == Admitted(d[..k]) + Admitted(d[k..])
  {
    if k == |d| {
      assert d[..k] == d;
    } else {
      var e := d[..|d| - 1];
      AdmittedSplits(e, k);
      assert e[..k] == d[..k] && e[k..] == d[k..][..|d| - 1 - k];
    }
  }

  /** Tokens at `now`, of a bucket or of an absent one. */
  function LevelOf(cfg: Settings, b: Option<Bucket>, now: real): real {
    match b
    case None => cfg.burst
    case Some(bucket) => Min(cfg.burst, bucket.tokens + Earned(cfg, bucket.lastRefill, now))
  }

  /** Tokens of the address with requests `ts` at `now`. */
  function Level(cfg: Settings, ts: seq<real>, now: real): real {
    LevelOf(cfg, SoloBucket(cfg, ts), now)
  }

  /** What window `j` still allows at `now`. */
  ghost function Slack(cfg: Settings, ts: seq<real>, d: seq<bool>, j: nat, now: real): real
    requires |d| == |ts| && j <= |ts|
  {
    cfg.burst + (if j < |ts| then Earned(cfg, ts[j], now) else 0.0) - Admitted(d[j..]) as real
  }

  /** What the last request does to the slack of a window opened before it. */
  lemma SlackStep(cfg: Settings, ts: seq<real>, k: nat, now: real)
    requires k < |ts|
    ensures
      var n, d := |ts| - 1, SoloDecisions(cfg, ts);
      Slack(cfg, ts, d, k, now) ==
      Slack(cfg, ts[..n], SoloDecisions(cfg, ts[..n]), k, ts[n]) - (if d[n] then 1.0 else 0.0) + Earned(cfg, ts[n], now)
  {
    var n, d := |ts| - 1, SoloDecisions(cfg, ts);
    assert d[k..][..n - k] == SoloDecisions(cfg, ts[..n])[k..];
    EarnedAdds(cfg, ts[k], ts[n], now);
    EarnedAdds(cfg, ts[n], ts[n], ts[n]);
    hide Earned, Accrued;
  }

  /** What it does to the level. */
  lemma LevelStep(cfg: Settings, ts: seq<real>, now: real)
    requires cfg.burst >= 1.0 && ts != []
    ensures
      var n, d := |ts| - 1, SoloDecisions(cfg, ts);
      Level(cfg, ts, now) ==
      Min(cfg.burst, Level(cfg, ts[..n], ts[n]) - (if d[n] then 1.0 else 0.0) + Earned(cfg, ts[n], now))
  {
    hide Earned, Accrued;
  }

  /** The refilled level is the least slack over all windows: a lower bound of each, and equal to one. */
  lemma {:induction false} LevelIsLeastSlack(cfg: Settings, ts: seq<real>, now: real) returns (j: nat)
    requires cfg.burst >= 1.0
    ensures j <= |ts| && Level(cfg, ts, now) == Slack(cfg, ts, SoloDecisions(cfg, ts), j, now)
    ensures forall k :: 0 <= k <= |ts| ==> Level(cfg, ts, now) <= Slack(cfg, ts, SoloDecisions(cfg, ts), k, now)
  {
    assert Slack(cfg, ts, SoloDecisions(cfg, ts), |ts|, now) == cfg.burst;
    assert ts == [] ==> Level(cfg, ts, now) == cfg.burst;
    hide Accrued, Earned, Slack, Level, SoloDecisions;
    j := |ts|;
    if ts != [] {
      var n := |ts| - 1;
      var i := LevelIsLeastSlack(cfg, ts[..n], ts[n]);
      LevelStep(cfg, ts, now);
      SlackStep(cfg, ts, i, now);
      forall k | 0 <= k <= |ts| ensures Level(cfg, ts, now) <= Slack(cfg, ts, SoloDecisions(cfg, ts), k, now) {
        if k <= n {
          SlackStep(cfg, ts, k, now);
        }
      }
      if Level(cfg, ts, now) < cfg.burst {
        j := i;
      }
    }
  }

  lemma LastAdmittedIffRoom(cfg: Settings, ts: seq<real>, now: real)
    requires cfg.burst >= 1.0
    ensures Serve(cfg, SoloBucket(cfg, ts), now).1 <==>
            forall j :: 0 <= j <= |ts| ==> Room(cfg, SoloDecisions(cfg, ts)[j..], (ts + [now])[j], now)
  {
    hide Accrued, Earned, SoloDecisions;
    var d := SoloDecisions(cfg, ts);
    var k := LevelIsLeastSlack(cfg, ts, now);
    EarnedAdds(cfg, now, now, now);
    forall j | 0 <= j <= |ts|
      ensures Room(cfg, d[j..], (ts + [now])[j], now) <==> Slack(cfg, ts, d, j, now) >= 1.0
    {
    }
  }

  /** Exact admission: the bucket admits a request iff every window ending at it has room. */
  lemma {:induction false} AdmitsIffEveryWindowHasRoom(cfg: Settings, ts: seq<real>, i: nat)
    requires cfg.burst >= 1.0 && i < |ts|
    ensures SoloDecisions(cfg, ts)[i] <==> EveryWindowHasRoom(cfg, ts, SoloDecisions(cfg, ts), i)
    decreases |ts|
  {
    var n, d := |ts| - 1, SoloDecisions(cfg, ts);
    var past, before := ts[..n], SoloDecisions(cfg, ts[..n]);
    if i < n {
      AdmitsIffEveryWindowHasRoom(cfg, past, i);
      assert forall j :: 0 <= j <= i ==> d[j..i] == before[j..i];
    } else {
      hide Room, Serve;
      LastAdmittedIffRoom(cfg, past, ts[n]);
      assert past + [ts[n]] == ts;
      assert forall j :: 0 <= j <= n ==> d[j..n] == before[j..];
    }
  }

  /** The burst condition is exact: a single request obeys the window rule iff burst >= 1, yet it is always admitted. */
  lemma FirstRequestNeedsBurstOfOne(cfg: Settings, t: real)
    ensures SoloDecisions(cfg, [t]) == [true]
    ensures SoloDecisions(cfg, [t])[0] == EveryWindowHasRoom(cfg, [t], [true], 0) <==> cfg.burst >= 1.0
  {
    assert [t][..0] == [];
    assert SoloDecisions(cfg, [t]) == [true];
    assert [true][0..0] == [];
    assert Room(cfg, [true][0..0], [t][0], [t][0]) <==> cfg.burst >= 1.0;
  }

  lemma WindowTransfers(d: seq<bool>, e: seq<bool>, j: nat, i: nat)
    requires j <= i <= |d| == |e|
    requires Admitted(e[..j]) <= Admitted(d[..j]) && Admitted(e[..i]) >= Admitted(d[..i])
    ensures Admitted(d[j..i]) <= Admitted(e[j..i])
  {
    AdmittedSplits(d[..i], j);
    AdmittedSplits(e[..i], j);
    assert d[..i][..j] == d[..j] && d[..i][j..] == d[j..i];
    assert e[..i][..j] == e[..j] && e[..i][j..] == e[j..i];
  }

  /** Optimality: no policy that respects the windows is ahead of the bucket at any prefix of the trace. */
  lemma {:induction false} NoPolicyAdmitsMore(cfg: Settings, ts: seq<real>, e: seq<bool>, n: nat)
    requires cfg.burst >= 1.0 && |e| == |ts| && RespectsWindows(cfg, ts, e) && n <= |ts|
    ensures Admitted(e[..n]) <= Admitted(SoloDecisions(cfg, ts)[..n])
  {
    var d := SoloDecisions(cfg, ts);
    if n > 0 {
      var i := n - 1;
      NoPolicyAdmitsMore(cfg, ts, e, i);
      assert e[..n][..i] == e[..i] && d[..n][..i] == d[..i];
      if e[i] && Admitted(e[..i]) == Admitted(d[..i]) {
        forall j | 0 <= j <= i ensures Room(cfg, d[j..i], ts[j], ts[i]) {
          NoPolicyAdmitsMore(cfg, ts, e, j);
          WindowTransfers(d, e, j, i);
          assert Room(cfg, e[j..i], ts[j], ts[i]);
        }
        AdmitsIffEveryWindowHasRoom(cfg, ts, i);
      }
    }
  }

  /** The bucket is itself a policy that respects the windows. */
  lemma BucketRespectsWindows(cfg: Settings, ts: seq<real>)
    requires cfg.burst >= 1.0
    ensures RespectsWindows(cfg, ts, SoloDecisions(cfg, ts))
  {
    forall i | 0 <= i < |ts| {
      AdmitsIffEveryWindowHasRoom(cfg, ts, i);
    }
  }

  // ---------------------------------------------------------------------------------------------
  // Many addresses and cleanups
  // ---------------------------------------------------------------------------------------------

  /** A cleanup deletes only buckets that have had time to fill up again. */
  ghost predicate HarmlessCleanups(cfg: Settings, es: seq<Event>) {
    forall e :: e in es && e.Cleanup? ==> Accrued(cfg, (e.maxAge + 1) as real) >= cfg.burst
  }

  /** The stored bucket is the solo bucket, or it was deleted and the solo bucket is full by `now`. */
  ghost predicate Matches(cfg: Settings, stored: Option<Bucket>, solo: Option<Bucket>, now: real) {
    if solo.None? then stored.None?
    else
      && 0.0 <= solo.value.tokens <= cfg.burst && solo.value.lastRefill <= now
      && (stored == solo
          || (stored.None? && solo.value.tokens + Earned(cfg, solo.value.lastRefill, now) >= cfg.burst))
  }

  lemma MatchesLater(cfg: Settings, stored: Option<Bucket>, solo: Option<Bucket>, now: real, later: real)
    requires Matches(cfg, stored, solo, now) && now <= later && cfg.rate >= 0.0
    ensures Matches(cfg, stored, solo, later)
  {
    hide Accrued, Earned;
    if solo.Some? {
      EarnedAdds(cfg, now, later, later);
      EarnedAdds(cfg, solo.value.lastRefill, now, later);
    }
  }

  lemma MatchesServes(cfg: Settings, stored: Option<Bucket>, solo: Option<Bucket>, now: real)
    requires Matches(cfg, stored, solo, now) && cfg.rate >= 0.0 && cfg.burst >= 1.0
    ensures Serve(cfg, stored, now) == Serve(cfg, solo, now)
    ensures Matches(cfg, Some(Serve(cfg, stored, now).0), Some(Serve(cfg, solo, now).0), now)
  {
    hide Accrued, Earned;
    EarnedAdds(cfg, now, now, now);
    if solo.Some? {
      EarnedAdds(cfg, solo.value.lastRefill, now, now);
    }
  }

  lemma OldIsFull(cfg: Settings, b: Bucket, age: real, now: real)
    requires cfg.rate >= 0.0 && Accrued(cfg, age) >= cfg.burst
    requires now - b.lastRefill >= age && 0.0 <= b.tokens
    ensures b.tokens + Earned(cfg, b.lastRefill, now) >= cfg.burst
  {
    hide Accrued;
    AccruedGrows(cfg, age, now - b.lastRefill);
  }

  /** What one more event does to the match between the stored and the solo bucket of `ip`. */
  lemma MatchesStep(cfg: Settings, s: Limiter, e: Event, ip: string, solo: Option<Bucket>, now: real)
    requires cfg.enabled && cfg.rate >= 0.0 && cfg.burst >= 1.0 && now <= e.now
    requires e.Cleanup? ==> Accrued(cfg, (e.maxAge + 1) as real) >= cfg.burst
    requires Matches(cfg, Lookup(s.buckets, ip), solo, now)
    ensures e.Request? && e.ip == ip ==>
              && Decide(cfg, s, ip, e.now) == Serve(cfg, solo, e.now).1
              && Matches(cfg, Lookup(Apply(cfg, s, e).buckets, ip), Some(Serve(cfg, solo, e.now).0), e.now)
    ensures !(e.Request? && e.ip == ip) ==> Matches(cfg, Lookup(Apply(cfg, s, e).buckets, ip), solo, e.now)
  {
    hide Accrued, Earned;
    var stored := Lookup(s.buckets, ip);
    MatchesLater(cfg, stored, solo, now, e.now);
    if e.Request? {
      if e.ip == ip {
        MatchesServes(cfg, stored, solo, e.now);
      }
    } else if stored.Some? && Expired(stored.value, e.maxAge, e.now) {
      WholeSecondsExceed(e.now - stored.value.lastRefill, e.maxAge);
      OldIsFull(cfg, stored.value, (e.maxAge + 1) as real, e.now);
    }
  }

  lemma SoloAppends(cfg: Settings, ts: seq<real>, now: real)
    ensures SoloBucket(cfg, ts + [now]) == Some(Serve(cfg, SoloBucket(cfg, ts), now).0)
    ensures SoloDecisions(cfg, ts + [now]) == SoloDecisions(cfg, ts) + [Serve(cfg, SoloBucket(cfg, ts), now).1]
  {
    assert (ts + [now])[..|ts|] == ts;
  }

  /** What the last event contributes to each function of a history. */
  lemma LastEvent(cfg: Settings, start: real, es: seq<Event>, ip: string)
    requires es != [] && Steady(start, es) && HarmlessCleanups(cfg, es)
    ensures
      var past, e := es[..|es| - 1], es[|es| - 1];
      var ours := e.Request? && e.ip == ip;
      && Steady(start, past) && HarmlessCleanups(cfg, past)
      && EndOf(start, past) <= EndOf(start, es) == e.now
      && (e.Cleanup? ==> Accrued(cfg, (e.maxAge + 1) as real) >= cfg.burst)
      && After(cfg, start, es) == Apply(cfg, After(cfg, start, past), e)
      && TimesOf(es, ip) == TimesOf(past, ip) + (if ours then [e.now] else [])
      && DecisionsFor(cfg, start, es, ip) ==
         DecisionsFor(cfg, start, past, ip) + (if ours then [Decide(cfg, After(cfg, start, past), ip, e.now)] else [])
  {
    assert es[|es| - 1] in es;
  }

  /**
   Non-interference: other addresses and harmless cleanups never show in the bucket of `ip`, which
   gets the decisions it would get alone and without cleanups.
   */
  lemma {:induction false} DecisionsAreSolo(cfg: Settings, start: real, es: seq<Event>, ip: string)
    requires cfg.enabled && cfg.rate >= 0.0 && cfg.burst >= 1.0
    requires Steady(start, es) && HarmlessCleanups(cfg, es)
    ensures DecisionsFor(cfg, start, es, ip) == SoloDecisions(cfg, TimesOf(es, ip))
    ensures Matches(cfg, Lookup(After(cfg, start, es).buckets, ip), SoloBucket(cfg, TimesOf(es, ip)), EndOf(start, es))
  {
    if es != [] {
      assert Steady(start, es[..|es| - 1]) && HarmlessCleanups(cfg, es[..|es| - 1]);
      hide *;
      DecisionsAreSolo(cfg, start, es[..|es| - 1], ip);
      SoloStep(cfg, start, es, ip);
    }
  }

  lemma SoloStep(cfg: Settings, start: real, es: seq<Event>, ip: string)
    requires cfg.enabled && cfg.rate >= 0.0 && cfg.burst >= 1.0
    requires es != [] && Steady(start, es) && HarmlessCleanups(cfg, es)
    requires
      var past := es[..|es| - 1];
      && DecisionsFor(cfg, start, past, ip) == SoloDecisions(cfg, TimesOf(past, ip))
      && Matches(cfg, Lookup(After(cfg, start, past).buckets, ip), SoloBucket(cfg, TimesOf(past, ip)),
                 EndOf(start, past))
    ensures DecisionsFor(cfg, start, es, ip) == SoloDecisions(cfg, TimesOf(es, ip))
    ensures Matches(cfg, Lookup(After(cfg, start, es).buckets, ip), SoloBucket(cfg, TimesOf(es, ip)), EndOf(start, es))
  {
    hide *;
    var past, e := es[..|es| - 1], es[|es| - 1];
    LastEvent(cfg, start, es, ip);
    var ts := TimesOf(past, ip);
    MatchesStep(cfg, After(cfg, start, past), e, ip, SoloBucket(cfg, ts), EndOf(start, past));
    SoloAppends(cfg, ts, e.now);
    assert ts + [] == ts;
    assert DecisionsFor(cfg, start, past, ip) + [] == DecisionsFor(cfg, start, past, ip);
  }

  /**
   The limiter's specification: in every history with a steady clock, any interleaving of addresses
   and any harmless cleanups, the i-th request of `ip` is admitted iff every window over that
   address's own requests has room, and no policy obeying the windows gets further ahead.
   */
  lemma AdmissionIsExactAndOptimal(cfg: Settings, start: real, es: seq<Event>, ip: string)
    requires cfg.enabled && cfg.rate >= 0.0 && cfg.burst >= 1.0
    requires Steady(start, es) && HarmlessCleanups(cfg, es)
    ensures |DecisionsFor(cfg, start, es, ip)| == |TimesOf(es, ip)|
    ensures forall i :: 0 <= i < |TimesOf(es, ip)| ==>
              (DecisionsFor(cfg, start, es, ip)[i] <==>
               EveryWindowHasRoom(cfg, TimesOf(es, ip), DecisionsFor(cfg, start, es, ip), i))
    ensures forall e, n ::
              |e| == |TimesOf(es, ip)| && RespectsWindows(cfg, TimesOf(es, ip), e) && 0 <= n <= |e| ==>
                Admitted(e[..n]) <= Admitted(DecisionsFor(cfg, start, es, ip)[..n])
  {
    var ts := TimesOf(es, ip);
    DecisionsAreSolo(cfg, start, es, ip);
    forall i | 0 <= i < |ts| {
      AdmitsIffEveryWindowHasRoom(cfg, ts, i);
    }
    forall e, n | |e| == |ts| && RespectsWindows(cfg, ts, e) && 0 <= n <= |e|
      ensures Admitted(e[..n]) <= Admitted(SoloDecisions(cfg, ts)[..n])
    {
      NoPolicyAdmitsMore(cfg, ts, e, n);
    }
  }

  // ---------------------------------------------------------------------------------------------
  // The cleanup age is exact
  // ---------------------------------------------------------------------------------------------

  ghost predicate CleanupsUse(es: seq<Event>, maxAge: int) {
    forall e :: e in es && e.Cleanup? ==> e.maxAge == maxAge
  }

  lemma ServeLevel(cfg: Settings, b: Option<Bucket>, now: real)
    requires cfg.burst >= 1.0
    ensures Serve(cfg, b, now).1 <==> LevelOf(cfg, b, now) >= 1.0
    ensures Serve(cfg, b, now).0.lastRefill == now
    ensures Serve(cfg, b, now).0.tokens == LevelOf(cfg, b, now) - if Serve(cfg, b, now).1 then 1.0 else 0.0
    ensures LevelOf(cfg, b, now) <= cfg.burst
    ensures LevelOf(cfg, Some(Serve(cfg, b, now).0), now) == Serve(cfg, b, now).0.tokens
  {
    hide Accrued, Earned;
    EarnedAdds(cfg, now, now, now);
  }

  /** Waiting for `gap` tokens earns exactly them. */
  lemma LevelLater(cfg: Settings, b: Option<Bucket>, now: real, gap: real)
    requires cfg.rate > 0.0 && gap >= 0.0
    ensures gap / cfg.rate >= 0.0
    ensures LevelOf(cfg, b, now + gap / cfg.rate) == Min(cfg.burst, LevelOf(cfg, b, now) + gap)
  {
    var later := now + gap / cfg.rate;
    assert Earned(cfg, now, later) == gap;
    hide Accrued, Earned;
    if b.Some? {
      EarnedAdds(cfg, b.value.lastRefill, now, later);
    }
  }

  function StoredBucket(cfg: Settings, start: real, es: seq<Event>, ip: string): Option<Bucket> {
    Lookup(After(cfg, start, es).buckets, ip)
  }

  function OwnBucket(cfg: Settings, es: seq<Event>, ip: string): Option<Bucket> {
    SoloBucket(cfg, TimesOf(es, ip))
  }

  /** One more request of `ip`. */
  lemma Append(cfg: Settings, start: real, es: seq<Event>, ip: string, now: real, maxAge: int)
    requires cfg.enabled && Steady(start, es) && EndOf(start, es) <= now && CleanupsUse(es, maxAge)
    ensures
      var more := es + [Request(ip, now)];
      var stored, own := StoredBucket(cfg, start, es, ip), OwnBucket(cfg, es, ip);
      && Steady(start, more) && CleanupsUse(more, maxAge) && EndOf(start, more) == now
      && StoredBucket(cfg, start, more, ip) == Some(Serve(cfg, stored, now).0)
      && OwnBucket(cfg, more, ip) == Some(Serve(cfg, own, now).0)
      && After(cfg, start, more).lastCleanup == After(cfg, start, es).lastCleanup
      && DecisionsFor(cfg, start, more, ip) == DecisionsFor(cfg, start, es, ip) + [Serve(cfg, stored, now).1]
      && SoloDecisions(cfg, TimesOf(more, ip)) == SoloDecisions(cfg, TimesOf(es, ip)) + [Serve(cfg, own, now).1]
  {
    hide Serve;
    var more := es + [Request(ip, now)];
    assert more[..|more| - 1] == es;
    SoloAppends(cfg, TimesOf(es, ip), now);
  }

  /** Some decision for `ip` differs from what it would get alone and without cleanups. */
  ghost predicate CleanupShows(cfg: Settings, start: real, es: seq<Event>, ip: string, maxAge: int) {
    && Steady(start, es) && CleanupsUse(es, maxAge)
    && DecisionsFor(cfg, start, es, ip) != SoloDecisions(cfg, TimesOf(es, ip))
  }

  lemma LastDecides(d: seq<bool>, e: seq<bool>)
    ensures d + [true] != e + [false]
  {
    assert (d + [true])[|d + [true]| - 1] && !(e + [false])[|e + [false]| - 1];
  }

  /** When the richer of two buckets serves a request and the other does not, unless it holds a whole token. */
  lemma TimeToTell(cfg: Settings, own: Option<Bucket>, stored: Option<Bucket>, now: real) returns (later: real)
    requires cfg.rate >= 0.0 && cfg.burst >= 1.0 && LevelOf(cfg, own, now) < LevelOf(cfg, stored, now)
    requires cfg.rate == 0.0 ==> LevelOf(cfg, stored, now) >= 1.0
    ensures now <= later && LevelOf(cfg, stored, later) >= 1.0
    ensures LevelOf(cfg, own, now) < 1.0 ==> LevelOf(cfg, own, later) < 1.0
    ensures LevelOf(cfg, own, now) >= 1.0 ==> later == now
  {
    later := now;
    var level := LevelOf(cfg, stored, now);
    if level < 1.0 {
      later := now + (1.0 - level) / cfg.rate;
      LevelLater(cfg, stored, now, 1.0 - level);
      LevelLater(cfg, own, now, 1.0 - level);
    }
  }

  lemma IsShown(cfg: Settings, start: real, es: seq<Event>, ip: string, maxAge: int)
    requires Steady(start, es) && CleanupsUse(es, maxAge)
    requires DecisionsFor(cfg, start, es, ip) != SoloDecisions(cfg, TimesOf(es, ip))
    ensures CleanupShows(cfg, start, es, ip, maxAge)
  {
  }

  /** An address whose stored bucket holds more than its own history allows can make that show. */
  lemma {:induction false} Tell(cfg: Settings, start: real, es: seq<Event>, ip: string, maxAge: int, own: real)
    returns (more: seq<Event>)
    requires cfg.enabled && cfg.rate >= 0.0 && cfg.burst >= 1.0 && Steady(start, es) && CleanupsUse(es, maxAge)
    requires 0.0 <= own == LevelOf(cfg, OwnBucket(cfg, es, ip), EndOf(start, es))
    requires own < LevelOf(cfg, StoredBucket(cfg, start, es, ip), EndOf(start, es))
    requires cfg.rate == 0.0 ==> own < 1.0 <= LevelOf(cfg, StoredBucket(cfg, start, es, ip), EndOf(start, es))
    ensures CleanupShows(cfg, start, more, ip, maxAge)
    decreases own.Floor
  {
    var now, stored := EndOf(start, es), StoredBucket(cfg, start, es, ip);
    var later := TimeToTell(cfg, OwnBucket(cfg, es, ip), stored, now);
    hide *;
    more := es + [Request(ip, later)];
    Append(cfg, start, es, ip, later, maxAge);
    ServeLevel(cfg, stored, later);
    ServeLevel(cfg, OwnBucket(cfg, es, ip), later);
    LastDecides(DecisionsFor(cfg, start, es, ip), SoloDecisions(cfg, TimesOf(es, ip)));
    if own < 1.0 {
      IsShown(cfg, start, more, ip, maxAge);
    } else {
      more := Tell(cfg, start, more, ip, maxAge, own - 1.0);
    }
  }

  /** `b` is the bucket of `ip`, stored and alone, and a cleanup is due. */
  ghost predicate Holds(cfg: Settings, start: real, es: seq<Event>, ip: string, b: Bucket) {
    && Steady(start, es) && EndOf(start, es) - start >= 60.0 && After(cfg, start, es).lastCleanup == start
    && StoredBucket(cfg, start, es, ip) == OwnBucket(cfg, es, ip) == Some(b)
    && b.lastRefill == EndOf(start, es) && 0.0 <= b.tokens <= cfg.burst
  }

  /** An address can empty its bucket; when nothing is refilled, below one token. */
  lemma {:induction false} Drain(cfg: Settings, start: real, es: seq<Event>, ip: string, maxAge: int, b: Bucket)
    returns (more: seq<Event>, empty: Bucket)
    requires cfg.enabled && cfg.rate >= 0.0 && cfg.burst >= 1.0
    requires CleanupsUse(es, maxAge) && Holds(cfg, start, es, ip, b)
    ensures CleanupsUse(more, maxAge) && Holds(cfg, start, more, ip, empty)
    ensures empty.tokens == 0.0 || (cfg.rate == 0.0 && empty.tokens < 1.0)
    decreases b.tokens.Floor
  {
    hide *;
    more, empty := es, b;
    HolderHasTokens(cfg, start, es, ip, b);
    if b.tokens >= 1.0 || (cfg.rate > 0.0 && b.tokens > 0.0) {
      more, empty := DrainOnce(cfg, start, es, ip, maxAge, b);
      if b.tokens >= 1.0 {
        more, empty := Drain(cfg, start, more, ip, maxAge, empty);
      }
    }
  }

  lemma HolderHasTokens(cfg: Settings, start: real, es: seq<Event>, ip: string, b: Bucket)
    requires Holds(cfg, start, es, ip, b)
    ensures 0.0 <= b.tokens <= cfg.burst
  {
  }

  /** One request, now or as soon as there is a whole token. */
  lemma DrainOnce(cfg: Settings, start: real, es: seq<Event>, ip: string, maxAge: int, b: Bucket)
    returns (more: seq<Event>, less: Bucket)
    requires cfg.enabled && cfg.rate >= 0.0 && cfg.burst >= 1.0
    requires CleanupsUse(es, maxAge) && Holds(cfg, start, es, ip, b)
    requires b.tokens >= 1.0 || (cfg.rate > 0.0 && b.tokens > 0.0)
    ensures CleanupsUse(more, maxAge) && Holds(cfg, start, more, ip, less)
    ensures less.tokens == if b.tokens >= 1.0 then b.tokens - 1.0 else 0.0
  {
    var now := EndOf(start, es);
    var later := now;
    EarnedAdds(cfg, now, now, now);
    if b.tokens < 1.0 {
      LevelLater(cfg, Some(b), now, 1.0 - b.tokens);
      later := now + (1.0 - b.tokens) / cfg.rate;
    }
    hide Serve, Steady, CleanupsUse, After, TimesOf, StoredBucket, OwnBucket, EndOf, Earned, DecisionsFor,
         SoloDecisions;
    ServeLevel(cfg, Some(b), later);
    Append(cfg, start, es, ip, later, maxAge);
    more, less := es + [Request(ip, later)], Serve(cfg, Some(b), later).0;
  }

  /** A cleanup deletes the bucket it finds old enough. */
  lemma CleanupDeletes(cfg: Settings, start: real, es: seq<Event>, ip: string, maxAge: int, b: Bucket, age: nat)
    requires cfg.enabled && CleanupsUse(es, maxAge) && Holds(cfg, start, es, ip, b) && age > maxAge
    ensures
      var more := es + [Cleanup(maxAge, EndOf(start, es) + age as real)];
      && Steady(start, more) && CleanupsUse(more, maxAge) && EndOf(start, more) == EndOf(start, es) + age as real
      && StoredBucket(cfg, start, more, ip) == None && OwnBucket(cfg, more, ip) == Some(b)
  {
    var now := EndOf(start, es) + age as real;
    var more := es + [Cleanup(maxAge, now)];
    assert more[..|more| - 1] == es;
    assert now - b.lastRefill == age as real && Expired(b, maxAge, now);
    assert WholeSeconds(now - start) >= 60;
    assert After(cfg, start, more) == Apply(cfg, After(cfg, start, es), Cleanup(maxAge, now));
    assert TimesOf(more, ip) == TimesOf(es, ip);
  }

  lemma FirstRequest(cfg: Settings, start: real, ip: string, maxAge: int) returns (es: seq<Event>, b: Bucket)
    requires cfg.enabled && cfg.burst >= 1.0
    ensures CleanupsUse(es, maxAge) && Holds(cfg, start, es, ip, b)
  {
    Append(cfg, start, [], ip, start + 60.0, maxAge);
    es, b := [] + [Request(ip, start + 60.0)], Bucket(cfg.burst - 1.0, start + 60.0);
  }

  lemma LevelAfterAge(cfg: Settings, b: Bucket, age: nat)
    requires cfg.rate >= 0.0 && cfg.burst >= 1.0 && 0.0 <= b.tokens
    requires b.tokens == 0.0 || (cfg.rate == 0.0 && b.tokens < 1.0)
    ensures var level := LevelOf(cfg, Some(b), b.lastRefill + age as real);
            && 0.0 <= level && (cfg.rate == 0.0 ==> level < 1.0)
            && (Accrued(cfg, age as real) < cfg.burst ==> level < cfg.burst)
  {
    assert Earned(cfg, b.lastRefill, b.lastRefill + age as real) == Accrued(cfg, age as real);
    AccruedGrows(cfg, 0.0, age as real);
    assert cfg.rate == 0.0 ==> Accrued(cfg, age as real) == 0.0;
    hide Earned, Accrued;
  }

  lemma AgeTooShort(cfg: Settings, maxAge: int) returns (age: nat)
    requires cfg.burst >= 1.0 && Accrued(cfg, (maxAge + 1) as real) < cfg.burst
    ensures age > maxAge && Accrued(cfg, age as real) < cfg.burst
  {
    age := if maxAge + 1 > 0 then maxAge + 1 else 0;
  }

  /** A cleanup age that is too short lets some address see a deletion. */
  lemma ShortAgeShows(cfg: Settings, start: real, maxAge: int) returns (es: seq<Event>)
    requires cfg.enabled && cfg.rate >= 0.0 && cfg.burst >= 1.0 && Accrued(cfg, (maxAge + 1) as real) < cfg.burst
    ensures CleanupShows(cfg, start, es, "ip", maxAge)
  {
    var empty;
    es, empty := FirstRequest(cfg, start, "ip", maxAge);
    es, empty := Drain(cfg, start, es, "ip", maxAge, empty);
    var age := AgeTooShort(cfg, maxAge);
    var now := EndOf(start, es) + age as real;
    assert empty.lastRefill == EndOf(start, es) && 0.0 <= empty.tokens;
    assert LevelOf(cfg, None, now) == cfg.burst;
    hide *;
    CleanupDeletes(cfg, start, es, "ip", maxAge, empty, age);
    LevelAfterAge(cfg, empty, age);
    es := Tell(cfg, start, es + [Cleanup(maxAge, now)], "ip", maxAge, LevelOf(cfg, Some(empty), now));
  }

  /** Deletion of old buckets goes unnoticed in every history iff a bucket fills up within the age plus one second. */
  lemma CleanupUnnoticedIff(cfg: Settings, start: real, maxAge: int)
    requires cfg.enabled && cfg.rate >= 0.0 && cfg.burst >= 1.0
    ensures Accrued(cfg, (maxAge + 1) as real) >= cfg.burst <==>
            forall es, ip :: !CleanupShows(cfg, start, es, ip, maxAge)
  {
    if Accrued(cfg, (maxAge + 1) as real) >= cfg.burst {
      forall es, ip | Steady(start, es) && CleanupsUse(es, maxAge)
        ensures DecisionsFor(cfg, start, es, ip) == SoloDecisions(cfg, TimesOf(es, ip))
      {
        DecisionsAreSolo(cfg, start, es, ip);
      }
    } else {
      var es := ShortAgeShows(cfg, start, maxAge);
    }
  }

  /** The limiter of a server whose configuration says `rate_limit rateLimit`. */
  function ServerSettings(rateLimit: int): Settings {
    Settings(if rateLimit > 0 then rateLimit as real else 1000000.0,
             if rateLimit > 0 then rateLimit as real * 2.0 else 200.0, rateLimit > 0)
  }

  /** The server, which cleans up after the default hour, never lets an address see it. */
  lemma ServerCleanupsGoUnnoticed(rateLimit: int, start: real, es: seq<Event>, ip: string)
    requires rateLimit > 0 && Steady(start, es) && CleanupsUse(es, 3600)
    ensures DecisionsFor(ServerSettings(rateLimit), start, es, ip) ==
            SoloDecisions(ServerSettings(rateLimit), TimesOf(es, ip))
  {
    assert rateLimit as real >= 1.0;
    assert HarmlessCleanups(ServerSettings(rateLimit), es);
    DecisionsAreSolo(ServerSettings(rateLimit), start, es, ip);
  }

  // ---------------------------------------------------------------------------------------------
  // The disabled limiter, the counters and the stored addresses
  // ---------------------------------------------------------------------------------------------

  ghost predicate AllTrue(d: seq<bool>) {
    forall i :: 0 <= i < |d| ==> d[i]
  }

  /** A disabled limiter admits every request of every history, and remembers and counts nothing. */
  lemma {:induction false} DisabledAdmitsAll(cfg: Settings, start: real, es: seq<Event>, ip: string)
    requires !cfg.enabled
    ensures AllTrue(DecisionsFor(cfg, start, es, ip)) && |DecisionsFor(cfg, start, es, ip)| == |TimesOf(es, ip)|
    ensures After(cfg, start, es) == Limiter(map[], 0, 0, start)
  {
    if es != [] {
      DisabledAdmitsAll(cfg, start, es[..|es| - 1], ip);
    }
  }

  /** So does the limiter of a server without a rate limit. */
  lemma UnlimitedServerAdmitsAll(rateLimit: int, start: real, es: seq<Event>, ip: string)
    requires rateLimit <= 0
    ensures AllTrue(DecisionsFor(ServerSettings(rateLimit), start, es, ip))
    ensures |DecisionsFor(ServerSettings(rateLimit), start, es, ip)| == |TimesOf(es, ip)|
  {
    DisabledAdmitsAll(ServerSettings(rateLimit), start, es, ip);
  }

  /** The decisions for all addresses, in order. */
  function AllDecisions(cfg: Settings, start: real, es: seq<Event>): seq<bool> {
    if es == [] then []
    else
      var past, e := es[..|es| - 1], es[|es| - 1];
      AllDecisions(cfg, start, past) +
      if e.Request? then [Decide(cfg, After(cfg, start, past), e.ip, e.now)] else []
  }

  function Requests(es: seq<Event>): nat {
    if es == [] then 0 else Requests(es[..|es| - 1]) + if es[|es| - 1].Request? then 1 else 0
  }

  /** An enabled limiter counts the requests, and as blocked the refused ones; the rest were admitted. */
  lemma {:induction false} CountersAreExact(cfg: Settings, start: real, es: seq<Event>)
    requires cfg.enabled
    ensures After(cfg, start, es).total == Requests(es) == |AllDecisions(cfg, start, es)|
    ensures After(cfg, start, es).blocked + Admitted(AllDecisions(cfg, start, es)) == Requests(es)
  {
    if es != [] {
      var past, e := es[..|es| - 1], es[|es| - 1];
      CountersAreExact(cfg, start, past);
      var d := AllDecisions(cfg, start, past);
      if e.Request? {
        var last := Decide(cfg, After(cfg, start, past), e.ip, e.now);
        assert (d + [last])[..|d|] == d;
      } else {
        assert d + [] == d;
      }
    }
  }

  /** When buckets were last swept: a cleanup does nothing within 60 seconds of the last sweep. */
  function LastSweep(start: real, es: seq<Event>): real {
    if es == [] then start
    else
      var past, e := es[..|es| - 1], es[|es| - 1];
      if e.Cleanup? && WholeSeconds(e.now - LastSweep(start, past)) >= 60 then e.now else LastSweep(start, past)
  }

  /** Whether `ip` has made a request that no sweep found more than its age ago. */
  function Remembered(start: real, es: seq<Event>, ip: string): bool {
    if es == [] then false
    else
      var past, e := es[..|es| - 1], es[|es| - 1];
      if e.Request? then e.ip == ip || Remembered(start, past, ip)
      else
        && Remembered(start, past, ip)
        && !(WholeSeconds(e.now - LastSweep(start, past)) >= 60 &&
             TimesOf(past, ip) != [] && WholeSeconds(e.now - TimesOf(past, ip)[|TimesOf(past, ip)| - 1]) > e.maxAge)
  }

  /** Which addresses have a bucket, and from when, in every history. */
  lemma {:induction false} StoredIffRemembered(cfg: Settings, start: real, es: seq<Event>, ip: string)
    requires cfg.enabled
    ensures After(cfg, start, es).lastCleanup == LastSweep(start, es)
    ensures ip in After(cfg, start, es).buckets <==> Remembered(start, es, ip)
    ensures ip in After(cfg, start, es).buckets ==>
              && TimesOf(es, ip) != []
              && After(cfg, start, es).buckets[ip].lastRefill == TimesOf(es, ip)[|TimesOf(es, ip)| - 1]
  {
    hide Earned, Accrued;
    if es != [] {
      StoredIffRemembered(cfg, start, es[..|es| - 1], ip);
    }
  }

  // ---------------------------------------------------------------------------------------------
  // The class
  // ---------------------------------------------------------------------------------------------

  class RateLimiter {
    const cfg: Settings
    var buckets: map<string, Bucket>
    var totalRequests: nat
    var blockedRequests: nat
    var lastCleanup: real

    ghost function State(): Limiter
      reads this
    {
      Limiter(buckets, totalRequests, blockedRequests, lastCleanup)
    }

    constructor (rate: real, burst: real, enabled: bool, now: real)
      ensures cfg == Settings(rate, burst, enabled)
      ensures State() == After(cfg, now, [])
    {
      cfg := Settings(rate, burst, enabled);
      buckets, totalRequests, blockedRequests, lastCleanup := map[], 0, 0, now;
    }

    method IsAllowed(ip: string, now: real) returns (allowed: bool)
      modifies this
      ensures allowed == Decide(cfg, old(State()), ip, now)
      ensures State() == Apply(cfg, old(State()), Request(ip, now))
    {
      if !cfg.enabled {
        return true;
      }
      totalRequests := totalRequests + 1;
      if ip !in buckets {
        buckets := buckets[ip := Bucket(cfg.burst - 1.0, now)];
        return true;
      }
      var bucket := buckets[ip];
      var tokensToAdd := Earned(cfg, bucket.lastRefill, now);
      bucket := Bucket(Min(cfg.burst, bucket.tokens + tokensToAdd), now);
      allowed := bucket.tokens >= 1.0;
      if allowed {
        bucket := bucket.(tokens := bucket.tokens - 1.0);
      } else {
        blockedRequests := blockedRequests + 1;
      }
      buckets := buckets[ip := bucket];
    }

    method CleanupExpired(maxAge: int, now: real)
      modifies this
      ensures State() == Apply(cfg, old(State()), Cleanup(maxAge, now))
    {
      if !cfg.enabled || WholeSeconds(now - lastCleanup) < 60 {
        return;
      }
      var unseen := buckets.Keys;
      while unseen != {}
        invariant unseen <= old(buckets).Keys
        invariant buckets ==
                  map ip | ip in old(buckets) && (ip in unseen || !Expired(old(buckets)[ip], maxAge, now))
                    :: old(buckets)[ip]
        invariant totalRequests == old(totalRequests) && blockedRequests == old(blockedRequests)
        decreases |unseen|
      {
        var ip :| ip in unseen;
        unseen := unseen - {ip};
        if Expired(buckets[ip], maxAge, now) {
          buckets := buckets - {ip};
        }
      }
      lastCleanup := now;
    }

    method GetStats() returns (total: nat, blocked: nat, activeIps: nat)
      ensures total == State().total && blocked == State().blocked && activeIps == |State().buckets|
    {
      total, blocked, activeIps := totalRequests, blockedRequests, |buckets|;
    }
  }
}
