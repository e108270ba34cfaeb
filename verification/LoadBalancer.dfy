/**
 The round-robin load balancer and its health machine (src/modules/load_balancer.cpp).

 A backend pointer is its index.  `current_index_` is a 32-bit `int` that wraps around and is
 converted to a 64-bit `size_t`; `ticks` is the number of increments so far.
 */
module LoadBalancer {
  import opened Wrappers
  import Numbers

  const TWO_31: int := 0x8000_0000
  const TWO_32: int := 0x1_0000_0000

  // ---------------------------------------------------------------------------------------------
  // The counter
  // ---------------------------------------------------------------------------------------------

  /** The atomic `int` after one more increment. */
  function Increment(c: int): int {
    if c == TWO_31 - 1 then -TWO_31 else c + 1
  }

  /** The atomic `int` after `t` increments from zero. */
  function Counter(t: nat): (c: int)
    ensures -TWO_31 <= c < TWO_31
  {
    (t + TWO_31) % TWO_32 - TWO_31
  }

  /** `current_index_++ % backends_.size()`, with the conversion to `size_t`. */
  function Slot(c: int, n: nat): (s: nat)
    requires n > 0 && -TWO_31 <= c < TWO_31
    ensures s < n
  {
    (if c < 0 then c + Numbers.TWO_64 else c) % n
  }

  function SlotAt(t: nat, n: nat): (s: nat)
    requires n > 0
    ensures s < n
  {
    Slot(Counter(t), n)
  }

  lemma CounterIncrements(t: nat)
    ensures Counter(t + 1) == Increment(Counter(t)) && Counter(0) == 0
  {
  }

  lemma MulAtLeast(n: nat, k: int)
    ensures k >= 1 ==> n * k >= n
  {
    if k >= 1 {
      assert n * (k - 1) >= 0;
    }
  }

  lemma ModUnique(a: int, n: nat, q: int, r: int)
    requires n > 0 && a == n * q + r && 0 <= r < n
    ensures a % n == r
  {
    var p, s := a / n, a % n;
    assert n * (q - p) == s - r;
    MulAtLeast(n, q - p);
    MulAtLeast(n, p - q);
  }

  /** Adding `d` does not show modulo n iff n divides d. */
  lemma AddShowsNot(a: int, d: int, n: nat)
    requires n > 0
    ensures (a + d) % n == a % n <==> d % n == 0
  {
    var p, q, r := a / n, d / n, d % n;
    assert a == n * p + a % n && d == n * q + r;
    if r == 0 {
      assert a + d == n * (p + q) + a % n;
      ModUnique(a + d, n, p + q, a % n);
    } else if a % n + r < n {
      assert a + d == n * (p + q) + (a % n + r);
      ModUnique(a + d, n, p + q, a % n + r);
    } else {
      assert a + d == n * (p + q + 1) + (a % n + r - n);
      ModUnique(a + d, n, p + q + 1, a % n + r - n);
    }
  }

  /** The slot `i` places after `s`, going round. */
  function Around(s: nat, i: nat, n: nat): (r: nat)
    requires s < n && i <= n
    ensures r < n
  {
    if s + i < n then s + i else s + i - n
  }

  lemma AroundIsMod(a: nat, n: nat)
    requires n > 0
    ensures Around(a % n, 1, n) == (a + 1) % n
  {
    var q, r := a / n, a % n;
    assert a == n * q + r;
    if r + 1 < n {
      ModUnique(a + 1, n, q, r + 1);
    } else {
      assert a + 1 == n * (q + 1) + 0;
      ModUnique(a + 1, n, q + 1, 0);
    }
  }

  /** The counter as a `size_t`. */
  function IndexAt(t: nat): nat {
    if Counter(t) < 0 then Counter(t) + Numbers.TWO_64 else Counter(t)
  }

  lemma IndexIs(t: nat)
    ensures IndexAt(t) == if t % TWO_32 < TWO_31 then t % TWO_32 else t % TWO_32 + (Numbers.TWO_64 - TWO_32)
  {
    var q, r := t / TWO_32, t % TWO_32;
    if r < TWO_31 {
      ModUnique(t + TWO_31, TWO_32, q, r + TWO_31);
    } else {
      ModUnique(t + TWO_31, TWO_32, q + 1, r - TWO_31);
    }
  }

  /** Where the `size_t` jumps: at 2^31 to the top of its range, and at 2^32 back to zero. */
  lemma NextIndex(w: nat)
    requires w > 0
    ensures w % TWO_32 == TWO_31 ==> IndexAt(w) == IndexAt(w - 1) + 1 + (Numbers.TWO_64 - TWO_32)
    ensures w % TWO_32 == 0 ==> IndexAt(w) == IndexAt(w - 1) + 1 - Numbers.TWO_64
    ensures w % TWO_32 != TWO_31 && w % TWO_32 != 0 ==> IndexAt(w) == IndexAt(w - 1) + 1
  {
    IndexIs(w);
    IndexIs(w - 1);
    hide IndexAt;
    var q, r := w / TWO_32, w % TWO_32;
    if r == 0 {
      ModUnique(w - 1, TWO_32, q - 1, TWO_32 - 1);
    } else {
      ModUnique(w - 1, TWO_32, q, r - 1);
    }
  }

  /** The scan order breaks between ticks w - 1 and w: the counter jumps there by no multiple of n. */
  predicate Breaks(n: nat, w: nat)
    requires n > 0
  {
    || (w % TWO_32 == TWO_31 && (Numbers.TWO_64 - TWO_32) % n != 0)
    || (w % TWO_32 == 0 && Numbers.TWO_64 % n != 0)
  }

  lemma NextSlot(n: nat, w: nat)
    requires n > 0 && w > 0
    ensures SlotAt(w, n) == Around(SlotAt(w - 1, n), 1, n) <==> !Breaks(n, w)
  {
    var v := IndexAt(w - 1);
    assert SlotAt(w, n) == IndexAt(w) % n && SlotAt(w - 1, n) == v % n;
    NextIndex(w);
    AroundIsMod(v, n);
    AddShowsNot(v + 1, Numbers.TWO_64 - TWO_32, n);
    AddShowsNot(v + 1 - Numbers.TWO_64, Numbers.TWO_64, n);
    hide IndexAt, SlotAt, Around;
  }

  /** The `k` ticks from `t` on visit consecutive slots. */
  ghost predicate Unbroken(n: nat, t: nat, k: nat)
    requires n > 0
  {
    forall w :: t < w < t + k ==> !Breaks(n, w)
  }

  lemma {:induction false} Consecutive(n: nat, t: nat, k: nat, i: nat)
    requires n > 0 && Unbroken(n, t, k) && i < k && i < n
    ensures SlotAt(t + i, n) == Around(SlotAt(t, n), i, n)
    decreases i
  {
    if i > 0 {
      Consecutive(n, t, k, i - 1);
      NextSlot(n, t + i);
      hide SlotAt, Breaks;
    }
  }

  /** No window that lies between two wraps of the `int` is broken. */
  lemma BetweenWrapsIsUnbroken(n: nat, t: nat, k: nat, m: nat)
    requires n > 0 && m * TWO_31 <= t && t + k <= (m + 1) * TWO_31
    ensures Unbroken(n, t, k)
  {
    forall w | t < w < t + k ensures !Breaks(n, w) {
      ModUnique(w, TWO_31, m, w - m * TWO_31);
      HalfWrap(w);
    }
  }

  lemma HalfWrap(w: nat)
    ensures w % TWO_32 == TWO_31 || w % TWO_32 == 0 ==> w % TWO_31 == 0
  {
    var q, r := w / TWO_32, w % TWO_32;
    if r == TWO_31 {
      ModUnique(w, TWO_31, 2 * q + 1, 0);
    } else if r == 0 {
      ModUnique(w, TWO_31, 2 * q, 0);
    }
  }

  /** No window is ever broken iff the number of backends divides 2^32. */
  lemma NeverBrokenIffDivides(n: nat)
    requires n > 0
    ensures (forall t: nat :: Unbroken(n, t, n)) <==> TWO_32 % n == 0
  {
    if TWO_32 % n == 0 {
      var q := TWO_32 / n;
      assert Numbers.TWO_64 == n * (q * TWO_32) + 0;
      ModUnique(Numbers.TWO_64, n, q * TWO_32, 0);
      AddShowsNot(Numbers.TWO_64 - TWO_32, TWO_32, n);
    } else if n > 1 {
      AddShowsNot(Numbers.TWO_64 - TWO_32, TWO_32, n);
      var w: nat := if Numbers.TWO_64 % n != 0 then TWO_32 else TWO_31;
      assert Breaks(n, w);
      assert !Unbroken(n, w - 1, n);
    }
  }

  /** The slots follow the tick count for ever iff n divides 2^32. */
  lemma CyclicForEverIffDivides(n: nat)
    requires n > 0
    ensures (forall t: nat :: SlotAt(t, n) == t % n) <==> TWO_32 % n == 0
  {
    if TWO_32 % n == 0 {
      forall t: nat ensures SlotAt(t, n) == t % n {
        SlotIsTick(n, t);
      }
    } else {
      assert Counter(TWO_32) == 0;
      assert SlotAt(TWO_32, n) == 0 != TWO_32 % n;
    }
  }

  lemma {:induction false} SlotIsTick(n: nat, t: nat)
    requires n > 0 && (t < TWO_31 || TWO_32 % n == 0)
    ensures SlotAt(t, n) == t % n
    decreases t
  {
    if t >= TWO_31 {
      SlotIsTick(n, t - 1);
      NeverBrokenIffDivides(n);
      assert n > 1 ==> Unbroken(n, t - 1, n) && !Breaks(n, t);
      NextSlot(n, t);
      AroundIsMod(t - 1, n);
      hide SlotAt, Breaks;
    }
  }

  // ---------------------------------------------------------------------------------------------
  // The slots a scan looks at
  // ---------------------------------------------------------------------------------------------

  /** The slots visited by the `k` ticks from `t` on. */
  function Visited(n: nat, t: nat, k: nat): set<nat>
    requires n > 0
    decreases k
  {
    if k == 0 then {} else Visited(n, t, k - 1) + {SlotAt(t + k - 1, n)}
  }

  lemma {:induction false} VisitedAt(n: nat, t: nat, k: nat, b: nat)
    requires n > 0
    ensures b in Visited(n, t, k) <==> exists u :: t <= u < t + k && SlotAt(u, n) == b
    decreases k
  {
    hide SlotAt;
    if k > 0 {
      VisitedAt(n, t, k - 1, b);
    }
  }

  lemma {:induction false} VisitedCount(n: nat, t: nat, k: nat)
    requires n > 0
    ensures |Visited(n, t, k)| <= k
    decreases k
  {
    if k > 0 {
      VisitedCount(n, t, k - 1);
    }
  }

  /** A slot visited twice leaves fewer slots than ticks. */
  lemma {:induction false} TwiceCount(n: nat, t: nat, k: nat, u: nat, v: nat)
    requires n > 0 && t <= u < v < t + k && SlotAt(u, n) == SlotAt(v, n)
    ensures |Visited(n, t, k)| < k
    decreases k
  {
    if v == t + k - 1 {
      VisitedCount(n, t, k - 1);
      TickIsVisited(n, t, k - 1, u);
    } else {
      TwiceCount(n, t, k - 1, u, v);
    }
    hide SlotAt;
  }

  lemma TickIsVisited(n: nat, t: nat, k: nat, u: nat)
    requires n > 0 && t <= u < t + k
    ensures SlotAt(u, n) in Visited(n, t, k)
  {
    VisitedAt(n, t, k, SlotAt(u, n));
    hide SlotAt;
  }

  lemma {:induction false} Pigeonhole(n: nat, seen: set<nat>)
    requires |seen| < n
    ensures exists b: nat :: b < n && b !in seen
  {
    if n - 1 in seen {
      Pigeonhole(n - 1, seen - {n - 1});
      var b: nat :| b < n - 1 && b !in seen - {n - 1};
    }
  }

  /** An unbroken scan looks at every slot. */
  lemma UnbrokenSeesAll(n: nat, t: nat, b: nat)
    requires b < n && Unbroken(n, t, n)
    ensures b in Visited(n, t, n)
  {
    var s := SlotAt(t, n);
    var i := if b >= s then b - s else b + n - s;
    Consecutive(n, t, n, i);
    VisitedAt(n, t, n, b);
    assert SlotAt(t + i, n) == b;
  }

  lemma MultiplesApart(w: nat, x: nat)
    ensures w < x && w % TWO_31 == 0 && x % TWO_31 == 0 && x - w < TWO_32 ==> x == w + TWO_31
  {
    var p, q := w / TWO_31, x / TWO_31;
  }

  lemma {:induction false} FirstBreak(n: nat, t: nat, w: nat) returns (f: nat)
    requires n > 0 && t < w && Breaks(n, w)
    ensures t < f <= w && Breaks(n, f) && Unbroken(n, t, f - t)
    decreases w
  {
    if x :| t < x < w && Breaks(n, x) {
      f := FirstBreak(n, t, x);
    } else {
      f := w;
    }
  }

  lemma AroundMoves(a: nat, j: nat, n: nat)
    requires a < n && 0 < j < n
    ensures Around(Around(a, j - 1, n), 1, n) != a
  {
  }

  lemma AroundIsInjective(a: nat, b: nat, n: nat)
    requires a < n && b < n && Around(a, 1, n) == Around(b, 1, n)
    ensures a == b
  {
  }

  /** The second wrap within a scan does not make up for the first. */
  lemma SecondWrap(n: nat, f: nat)
    requires TWO_31 < n && f > 0 && f % TWO_31 == 0
    ensures SlotAt(f + TWO_31, n) != Around(SlotAt(f - 1, n), 1, n)
  {
    var q := f / TWO_31;
    IndexIs(f - 1);
    IndexIs(f + TWO_31);
    assert SlotAt(f + TWO_31, n) == IndexAt(f + TWO_31) % n && SlotAt(f - 1, n) == IndexAt(f - 1) % n;
    hide IndexAt, SlotAt;
    AroundIsMod(IndexAt(f - 1), n);
    ModUnique(TWO_31, n, 0, TWO_31);
    if q % 2 == 0 {
      ModUnique(f - 1, TWO_32, q / 2 - 1, TWO_32 - 1);
      ModUnique(f + TWO_31, TWO_32, q / 2, TWO_31);
      AddShowsNot(Numbers.TWO_64 - TWO_31, TWO_31, n);
    } else {
      ModUnique(f - 1, TWO_32, q / 2, TWO_31 - 1);
      ModUnique(f + TWO_31, TWO_32, q / 2 + 1, 0);
      ModUnique(0, n, 0, 0);
    }
  }

  /** The slot that should follow the first break is visited by a tick that repeats another slot, or not at all. */
  lemma BreakRepeats(n: nat, t: nat, f: nat, x: nat)
    requires 0 < n <= TWO_32 && t < f < t + n && Breaks(n, f) && Unbroken(n, t, f - t)
    requires t <= x < t + n && SlotAt(x, n) == Around(SlotAt(f - 1, n), 1, n)
    ensures t < x != f && SlotAt(x - 1, n) == SlotAt(f - 1, n)
  {
    NextSlot(n, f);
    Consecutive(n, t, f - t, f - 1 - t);
    AroundMoves(SlotAt(t, n), f - t, n);
    HalfWrap(f);
    HalfWrap(x);
    MultiplesApart(f, x);
    if n > TWO_31 {
      SecondWrap(n, f);
    }
    assert !Breaks(n, x);
    NextSlot(n, x);
    AroundIsInjective(SlotAt(x - 1, n), SlotAt(f - 1, n), n);
    hide SlotAt, Around;
  }

  lemma CounterRepeats(n: nat, t: nat)
    requires n > 0
    ensures SlotAt(t + TWO_32, n) == SlotAt(t, n)
  {
    ModUnique(t + TWO_32, TWO_32, t / TWO_32 + 1, t % TWO_32);
    IndexIs(t);
    IndexIs(t + TWO_32);
    assert SlotAt(t + TWO_32, n) == IndexAt(t + TWO_32) % n && SlotAt(t, n) == IndexAt(t) % n;
    hide IndexAt, SlotAt;
  }

  lemma TwiceMisses(n: nat, t: nat, u: nat, v: nat)
    requires n > 0 && t <= u < t + n && t <= v < t + n && u != v && SlotAt(u, n) == SlotAt(v, n)
    ensures exists b: nat :: b < n && b !in Visited(n, t, n)
  {
    hide SlotAt, Visited;
    TwiceCount(n, t, n, if u < v then u else v, if u < v then v else u);
    Pigeonhole(n, Visited(n, t, n));
  }

  /** A broken scan misses a slot. */
  lemma BrokenMisses(n: nat, t: nat, w: nat)
    requires n > 0 && t < w < t + n && Breaks(n, w)
    ensures exists b: nat :: b < n && b !in Visited(n, t, n)
  {
    hide SlotAt, Visited, Breaks, Around, Unbroken;
    if n > TWO_32 {
      CounterRepeats(n, t);
      TwiceMisses(n, t, t, t + TWO_32);
    } else {
      var f := FirstBreak(n, t, w);
      var s := Around(SlotAt(f - 1, n), 1, n);
      VisitedAt(n, t, n, s);
      if s in Visited(n, t, n) {
        var x :| t <= x < t + n && SlotAt(x, n) == s;
        BreakRepeats(n, t, f, x);
        TwiceMisses(n, t, x - 1, f - 1);
      }
    }
  }

  /** A scan looks at every slot iff it is not broken. */
  lemma SeesAllIffUnbroken(n: nat, t: nat)
    requires n > 0
    ensures (forall b: nat :: b < n ==> b in Visited(n, t, n)) <==> Unbroken(n, t, n)
  {
    hide Visited, Breaks;
    if Unbroken(n, t, n) {
      forall b: nat | b < n ensures b in Visited(n, t, n) {
        UnbrokenSeesAll(n, t, b);
      }
    } else {
      var w :| t < w < t + n && Breaks(n, w);
      BrokenMisses(n, t, w);
    }
  }

  // ---------------------------------------------------------------------------------------------
  // Calls of get_next
  // ---------------------------------------------------------------------------------------------

  /** What the `is_alive` loads of one call would give, one per try: the call stops at the first `true`. */
  type Looks = seq<bool>

  function Tries(looks: Looks): (k: nat)
    ensures k <= |looks| && (forall j :: 0 <= j < k ==> !looks[j]) && (k < |looks| ==> looks[k])
  {
    if looks == [] || looks[0] then 0 else Tries(looks[1..]) + 1
  }

  /** Increments of the counter made by one call. */
  function Used(looks: Looks): (u: nat)
    ensures looks != [] ==> 1 <= u
    ensures u <= |looks|
  {
    if Tries(looks) < |looks| then Tries(looks) + 1 else |looks|
  }

  /** The backend a call that starts at tick `t` returns; `None` is the null pointer. */
  function Returned(n: nat, t: nat, looks: Looks): Option<nat>
    requires n > 0
  {
    if Tries(looks) < |looks| then Some(SlotAt(t + Tries(looks), n)) else None
  }

  /** The ticks used by a series of calls. */
  function TicksOf(calls: seq<Looks>): nat
    decreases |calls|
  {
    if calls == [] then 0 else Used(calls[0]) + TicksOf(calls[1..])
  }

  function Results(n: nat, t: nat, calls: seq<Looks>): (r: seq<Option<nat>>)
    requires n > 0
    ensures |r| == |calls|
    decreases |calls|
  {
    if calls == [] then []
    else [Returned(n, t, calls[0])] + Results(n, t + Used(calls[0]), calls[1..])
  }

  ghost predicate FullScans(n: nat, calls: seq<Looks>) {
    forall i :: 0 <= i < |calls| ==> |calls[i]| == n
  }

  /** Whenever a call looks at backend `b`, it finds it alive; the others may flip at any moment. */
  ghost predicate StaysAlive(n: nat, t: nat, calls: seq<Looks>, b: nat)
    requires n > 0
    decreases |calls|
  {
    calls == [] ||
    (&& (forall k :: 0 <= k < Used(calls[0]) && SlotAt(t + k, n) == b ==> calls[0][k])
     && StaysAlive(n, t + Used(calls[0]), calls[1..], b))
  }

  lemma {:induction false} EveryCallTicks(n: nat, calls: seq<Looks>)
    requires n > 0 && FullScans(n, calls)
    ensures TicksOf(calls) >= |calls|
    decreases |calls|
  {
    if calls != [] {
      EveryCallTicks(n, calls[1..]);
    }
  }

  lemma {:induction false} VisitReturns(n: nat, t: nat, calls: seq<Looks>, b: nat, u: nat)
    requires n > 0 && FullScans(n, calls) && StaysAlive(n, t, calls, b)
    requires t <= u < t + TicksOf(calls) && SlotAt(u, n) == b
    ensures Some(b) in Results(n, t, calls)
    decreases |calls|
  {
    hide SlotAt;
    var looks := calls[0];
    if u < t + Used(looks) {
      assert SlotAt(t + (u - t), n) == b && looks[u - t];
      assert u - t == Tries(looks);
      assert Results(n, t, calls)[0] == Some(b);
    } else {
      VisitReturns(n, t + Used(looks), calls[1..], b, u);
    }
  }

  /**
   Bounded fairness: while the scan order is unbroken, a backend that stays alive is returned in any n
   consecutive calls, however the other backends flip, even in the middle of a scan.
   */
  lemma BoundedFairness(n: nat, t: nat, calls: seq<Looks>, b: nat)
    requires b < n && FullScans(n, calls) && |calls| >= n
    requires StaysAlive(n, t, calls, b) && Unbroken(n, t, n)
    ensures Some(b) in Results(n, t, calls)
  {
    hide StaysAlive, Unbroken, SlotAt, Visited;
    EveryCallTicks(n, calls);
    UnbrokenSeesAll(n, t, b);
    VisitedAt(n, t, n, b);
    var u :| t <= u < t + n && SlotAt(u, n) == b;
    VisitReturns(n, t, calls, b, u);
  }

  /** n calls from tick `t` on return every backend that stays alive. */
  ghost predicate Fair(n: nat, t: nat)
    requires n > 0
  {
    forall calls, b: nat ::
      b < n && FullScans(n, calls) && |calls| >= n && StaysAlive(n, t, calls, b) ==> Some(b) in Results(n, t, calls)
  }

  /** `m` calls that find everything alive. */
  function Eager(n: nat, m: nat): seq<Looks>
    decreases m
  {
    if m == 0 then [] else [seq(n, _ => true)] + Eager(n, m - 1)
  }

  /** Each of them looks at one slot and returns it. */
  lemma {:induction false} EagerCalls(n: nat, t: nat, m: nat, b: nat)
    requires b < n && b !in Visited(n, t, m)
    ensures FullScans(n, Eager(n, m)) && |Eager(n, m)| == m
    ensures StaysAlive(n, t, Eager(n, m), b) && Some(b) !in Results(n, t, Eager(n, m))
    decreases m
  {
    hide SlotAt;
    if m > 0 {
      VisitedAt(n, t, m, b);
      VisitedAt(n, t + 1, m - 1, b);
      assert SlotAt(t, n) != b;
      EagerCalls(n, t + 1, m - 1, b);
      var looks: Looks := seq(n, _ => true);
      assert Tries(looks) == 0 && Used(looks) == 1;
    }
  }

  /** Fairness is exact: it holds from a tick on iff the scan that starts there is unbroken. */
  lemma FairIffUnbroken(n: nat, t: nat)
    requires n > 0
    ensures Fair(n, t) <==> Unbroken(n, t, n)
  {
    if Unbroken(n, t, n) {
      hide *;
      UnbrokenIsFair(n, t);
    } else {
      SeesAllIffUnbroken(n, t);
      var b: nat :| b < n && b !in Visited(n, t, n);
      EagerCalls(n, t, n, b);
      assert !Fair(n, t);
    }
  }

  lemma UnbrokenIsFair(n: nat, t: nat)
    requires n > 0 && Unbroken(n, t, n)
    ensures Fair(n, t)
  {
    forall calls, b: nat | b < n && FullScans(n, calls) && |calls| >= n && StaysAlive(n, t, calls, b)
      ensures Some(b) in Results(n, t, calls)
    {
      BoundedFairness(n, t, calls, b);
    }
  }

  // ---------------------------------------------------------------------------------------------
  // A fixed set of live backends
  // ---------------------------------------------------------------------------------------------

  /** The looks of a call that starts at tick `t` while the health flags do not change. */
  function LooksAt(live: seq<bool>, t: nat): (looks: Looks)
    requires live != []
    ensures |looks| == |live|
  {
    seq(|live|, k requires 0 <= k < |live| => live[SlotAt(t + k, |live|)])
  }

  /** The results of `m` calls with fixed health. */
  function FixedResults(live: seq<bool>, t: nat, m: nat): (r: seq<Option<nat>>)
    requires live != []
    ensures |r| == m
    decreases m
  {
    if m == 0 then []
    else
      var looks := LooksAt(live, t);
      [Returned(|live|, t, looks)] + FixedResults(live, t + Used(looks), m - 1)
  }

  predicate LiveAt(live: seq<bool>, t: nat)
    requires live != []
  {
    live[SlotAt(t, |live|)]
  }

  /** The live backends met at the `k` ticks from `t` on. */
  function LiveRun(live: seq<bool>, t: nat, k: nat): seq<nat>
    requires live != []
    decreases k
  {
    if k == 0 then []
    else (if LiveAt(live, t) then [SlotAt(t, |live|)] else []) + LiveRun(live, t + 1, k - 1)
  }

  lemma {:induction false} LiveRunSplits(live: seq<bool>, t: nat, j: nat, k: nat)
    requires live != []
    ensures LiveRun(live, t, j + k) == LiveRun(live, t, j) + LiveRun(live, t + j, k)
    decreases j
  {
    hide SlotAt, LiveAt;
    if j > 0 {
      LiveRunSplits(live, t + 1, j - 1, k);
    }
  }

  lemma {:induction false} DeadRun(live: seq<bool>, t: nat, k: nat)
    requires live != [] && forall i :: t <= i < t + k ==> !LiveAt(live, i)
    ensures LiveRun(live, t, k) == []
    decreases k
  {
    hide SlotAt, LiveAt;
    if k > 0 {
      DeadRun(live, t + 1, k - 1);
    }
  }

  /** A call stops at the first live tick. */
  lemma CallStops(live: seq<bool>, t: nat)
    requires live != []
    ensures
      var k := Tries(LooksAt(live, t));
      && (forall i :: t <= i < t + k ==> !LiveAt(live, i))
      && (k < |live| ==> LiveAt(live, t + k))
  {
    hide SlotAt;
    var looks := LooksAt(live, t);
    forall i | t <= i < t + Tries(looks) ensures !LiveAt(live, i) {
      assert !looks[i - t];
    }
  }

  /** While live ticks are left, the next call meets and returns the first of them. */
  lemma CallMeetsFirst(live: seq<bool>, t: nat, k: nat)
    requires live != [] && k <= |live| && LiveRun(live, t, k) != []
    ensures
      var looks, run := LooksAt(live, t), LiveRun(live, t, k);
      && Used(looks) <= k && Returned(|live|, t, looks) == Some(run[0])
      && LiveRun(live, t + Used(looks), k - Used(looks)) == run[1..]
  {
    hide SlotAt, LiveAt;
    var looks := LooksAt(live, t);
    var j := Tries(looks);
    CallStops(live, t);
    if j >= k {
      DeadRun(live, t, k);
    } else {
      DeadRun(live, t, j);
      LiveRunSplits(live, t, j, k - j);
      assert LiveRun(live, t + j, k - j) == [SlotAt(t + j, |live|)] + LiveRun(live, t + j + 1, k - j - 1);
    }
  }

  lemma FirstResult(live: seq<bool>, t: nat, m: nat)
    requires live != [] && m > 0
    ensures var looks := LooksAt(live, t);
            FixedResults(live, t, m) == [Returned(|live|, t, looks)] + FixedResults(live, t + Used(looks), m - 1)
  {
  }

  /** Successive calls return the live backends in the order their ticks come. */
  lemma {:induction false} CallsFollowRun(live: seq<bool>, t: nat, k: nat, m: nat)
    requires live != [] && k <= |live| && m <= |LiveRun(live, t, k)|
    ensures forall i :: 0 <= i < m ==> FixedResults(live, t, m)[i] == Some(LiveRun(live, t, k)[i])
    decreases m
  {
    if m > 0 {
      hide *;
      var looks := LooksAt(live, t);
      CallMeetsFirst(live, t, k);
      FirstResult(live, t, m);
      CallsFollowRun(live, t + Used(looks), k - Used(looks), m - 1);
      var run, rest := LiveRun(live, t, k), FixedResults(live, t + Used(looks), m - 1);
      forall i | 0 < i < m ensures FixedResults(live, t, m)[i] == Some(run[i]) {
        assert rest[i - 1] == Some(run[1..][i - 1]);
      }
    }
  }

  /** Within n unbroken ticks every live backend is met at most once. */
  lemma {:induction false} RunMeetsOnce(live: seq<bool>, t: nat, k: nat)
    requires live != [] && k <= |live| && Unbroken(|live|, t, k)
    ensures
      var run := LiveRun(live, t, k);
      && (forall i, j :: 0 <= i < j < |run| ==> run[i] != run[j])
      && (forall b :: b in run ==> b in LiveSet(live) && b in Visited(|live|, t, k))
    decreases k
  {
    if k > 0 {
      RunMeetsOnce(live, t + 1, k - 1);
      FirstMeetsOnce(live, t, k);
      assert LiveRun(live, t, k) ==
             (if LiveAt(live, t) then [SlotAt(t, |live|)] else []) + LiveRun(live, t + 1, k - 1);
      hide *;
    }
  }

  lemma FirstMeetsOnce(live: seq<bool>, t: nat, k: nat)
    requires live != [] && 0 < k <= |live| && Unbroken(|live|, t, k)
    ensures
      var n, first := |live|, SlotAt(t, |live|);
      && (LiveAt(live, t) ==> first in LiveSet(live)) && first in Visited(n, t, k)
      && (forall b :: b in Visited(n, t + 1, k - 1) ==> b != first && b in Visited(n, t, k))
  {
    var n := |live|;
    VisitedAt(n, t, k, SlotAt(t, n));
    forall b | b in Visited(n, t + 1, k - 1) ensures b != SlotAt(t, n) && b in Visited(n, t, k) {
      VisitedAt(n, t + 1, k - 1, b);
      VisitedAt(n, t, k, b);
      hide SlotAt, Visited, Unbroken;
      var v :| t + 1 <= v < t + k && SlotAt(v, n) == b;
      Consecutive(n, t, k, v - t);
    }
  }

  lemma {:induction false} RunMeetsTick(live: seq<bool>, t: nat, k: nat, u: nat)
    requires live != [] && t <= u < t + k && LiveAt(live, u)
    ensures SlotAt(u, |live|) in LiveRun(live, t, k)
    decreases k
  {
    hide SlotAt, LiveAt;
    if t < u {
      RunMeetsTick(live, t + 1, k - 1, u);
    }
  }

  function LiveSet(live: seq<bool>): set<nat> {
    set b: nat | b < |live| && live[b]
  }

  lemma {:induction false} DistinctCount(run: seq<nat>, members: set<nat>)
    requires forall i, j :: 0 <= i < j < |run| ==> run[i] != run[j]
    requires forall b :: b in run <==> b in members
    ensures |run| == |members|
    decreases |run|
  {
    if run != [] {
      var init, last := run[..|run| - 1], run[|run| - 1];
      assert run == init + [last];
      DistinctCount(init, members - {last});
    } else {
      assert members == {};
    }
  }

  /** n unbroken ticks meet exactly the live set. */
  lemma FullRun(live: seq<bool>, t: nat)
    requires live != [] && Unbroken(|live|, t, |live|)
    ensures
      var run := LiveRun(live, t, |live|);
      && (forall i, j :: 0 <= i < j < |run| ==> run[i] != run[j])
      && (forall b :: b in run <==> b in LiveSet(live))
      && |run| == |LiveSet(live)|
  {
    var n := |live|;
    var run, members := LiveRun(live, t, n), LiveSet(live);
    RunMeetsOnce(live, t, n);
    forall b ensures b in run <==> b in members {
      if b in members {
        UnbrokenSeesAll(n, t, b);
        VisitedIsMet(live, t, n, b);
      }
    }
    DistinctCount(run, members);
    hide LiveRun, Visited, Unbroken, LiveSet;
  }

  lemma VisitedIsMet(live: seq<bool>, t: nat, k: nat, b: nat)
    requires live != [] && b in LiveSet(live) && b in Visited(|live|, t, k)
    ensures b in LiveRun(live, t, k)
  {
    VisitedAt(|live|, t, k, b);
    hide SlotAt, Visited, LiveRun;
    var u :| t <= u < t + k && SlotAt(u, |live|) == b;
    RunMeetsTick(live, t, k, u);
  }

  /** m calls return each of the m live backends once and no other. */
  ghost predicate Rotates(live: seq<bool>, t: nat)
    requires live != []
  {
    var r := FixedResults(live, t, |LiveSet(live)|);
    && (forall i, j :: 0 <= i < j < |r| ==> r[i] != r[j])
    && (forall i :: 0 <= i < |r| ==> r[i].Some? && r[i].value in LiveSet(live))
    && (forall b :: b in LiveSet(live) ==> Some(b) in r)
  }

  /** Rotation: with m live backends and no health change, any m consecutive calls return each of them once. */
  lemma Rotation(live: seq<bool>, t: nat)
    requires live != [] && Unbroken(|live|, t, |live|)
    ensures Rotates(live, t)
  {
    FullRun(live, t);
    var run, m := LiveRun(live, t, |live|), |LiveSet(live)|;
    CallsFollowRun(live, t, |live|, m);
    hide LiveRun, FixedResults, LiveSet, Unbroken;
    var r := FixedResults(live, t, m);
    forall b | b in LiveSet(live) ensures Some(b) in r {
      var i :| 0 <= i < |run| && run[i] == b;
      assert r[i] == Some(b);
    }
  }

  /** With no health change, null means that none of the slots the scan visits is alive -- at every tick. */
  lemma NullIffNoneSeen(live: seq<bool>, t: nat)
    requires live != []
    ensures Returned(|live|, t, LooksAt(live, t)) == None <==> LiveSet(live) !! Visited(|live|, t, |live|)
  {
    hide SlotAt, LooksAt, Visited;
    var n, k := |live|, Tries(LooksAt(live, t));
    CallStops(live, t);
    if k < n {
      TickIsVisited(n, t, n, t + k);
      assert SlotAt(t + k, n) in LiveSet(live);
    } else {
      forall b | b in Visited(n, t, n) ensures b !in LiveSet(live) {
        VisitedAt(n, t, n, b);
        var u :| t <= u < t + n && SlotAt(u, n) == b;
        assert !LiveAt(live, u);
      }
    }
  }

  /** Null is returned iff no backend is alive. */
  ghost predicate NullMeansDead(live: seq<bool>, t: nat)
    requires live != []
  {
    Returned(|live|, t, LooksAt(live, t)) == None <==> LiveSet(live) == {}
  }

  lemma NullIffNoneAlive(live: seq<bool>, t: nat)
    requires live != [] && Unbroken(|live|, t, |live|)
    ensures NullMeansDead(live, t)
  {
    NullIffNoneSeen(live, t);
    hide Returned, LooksAt, Visited, Unbroken;
    if LiveSet(live) != {} {
      var b :| b in LiveSet(live);
      UnbrokenSeesAll(|live|, t, b);
    }
  }

  /** Only backend `b` is alive. */
  function Only(n: nat, b: nat): (live: seq<bool>)
    ensures |live| == n
  {
    seq(n, i => i == b)
  }

  /** A backend the scan does not look at is alive, and null is returned. */
  lemma MissedIsNull(n: nat, t: nat, b: nat)
    requires b < n && b !in Visited(n, t, n)
    ensures !NullMeansDead(Only(n, b), t) && !Rotates(Only(n, b), t)
  {
    var live := Only(n, b);
    NullIffNoneSeen(live, t);
    assert LiveSet(live) == {b};
    hide Returned, LooksAt, Visited, LiveSet;
    assert FixedResults(live, t, 1)[0] == None;
  }

  /** With n backends and whatever health, null at tick `t` means that none is alive. */
  ghost predicate NullIsRight(n: nat, t: nat)
    requires n > 0
  {
    forall live: seq<bool> :: |live| == n ==> NullMeansDead(live, t)
  }

  /** With n backends and whatever health, the calls from tick `t` on rotate. */
  ghost predicate RotationIsRight(n: nat, t: nat)
    requires n > 0
  {
    forall live: seq<bool> :: |live| == n ==> Rotates(live, t)
  }

  /** Both are exact: they hold at a tick, for all health flags, iff the scan that starts there is unbroken. */
  lemma NullAndRotationIffUnbroken(n: nat, t: nat)
    requires n > 0
    ensures NullIsRight(n, t) <==> Unbroken(n, t, n)
    ensures RotationIsRight(n, t) <==> Unbroken(n, t, n)
  {
    if Unbroken(n, t, n) {
      forall live: seq<bool> | |live| == n ensures NullMeansDead(live, t) && Rotates(live, t) {
        NullIffNoneAlive(live, t);
        Rotation(live, t);
      }
    } else {
      SeesAllIffUnbroken(n, t);
      var b: nat :| b < n && b !in Visited(n, t, n);
      MissedIsNull(n, t, b);
      hide NullMeansDead, Rotates, Visited, Unbroken;
      assert |Only(n, b)| == n;
    }
  }

  /** For ever, each of the three promises holds iff the number of backends divides 2^32. */
  lemma PromisesForEverIffDivides(n: nat)
    requires n > 0
    ensures (forall t: nat :: NullIsRight(n, t)) <==> TWO_32 % n == 0
    ensures (forall t: nat :: RotationIsRight(n, t)) <==> TWO_32 % n == 0
    ensures (forall t: nat :: Fair(n, t)) <==> TWO_32 % n == 0
  {
    NeverBrokenIffDivides(n);
    forall t: nat
      ensures Unbroken(n, t, n) == NullIsRight(n, t) == RotationIsRight(n, t) == Fair(n, t)
    {
      NullAndRotationIffUnbroken(n, t);
      FairIffUnbroken(n, t);
    }
    hide *;
  }

  /** Three backends, the last one alive: at the wrap the scan looks at slots 0, 0 and 1, and returns null. */
  lemma NullWithLiveBackend()
    ensures Returned(3, TWO_32 - 1, LooksAt([false, false, true], TWO_32 - 1)) == None
    ensures 2 in LiveSet([false, false, true])
  {
    var looks := LooksAt([false, false, true], TWO_32 - 1);
    assert Counter(TWO_32 - 1) == -1 && Counter(TWO_32) == 0 && Counter(TWO_32 + 1) == 1;
    assert SlotAt(TWO_32 - 1, 3) == 0 && SlotAt(TWO_32, 3) == 0 && SlotAt(TWO_32 + 1, 3) == 1;
    assert looks == [false, false, false];
    assert Tries(looks) == 3;
  }

  // ---------------------------------------------------------------------------------------------
  // Health
  // ---------------------------------------------------------------------------------------------

  datatype Backend = Backend(host: string, port: int, alive: bool, active: int, total: int, failed: int)

  function NewBackend(host: string, port: int): Backend {
    Backend(host, port, true, 0, 0, 0)
  }

  /** The state update of one health check. */
  function Probe(b: Backend, ok: bool): Backend {
    if ok && !b.alive then b.(alive := true, failed := 0)
    else if !ok then
      b.(failed := b.failed + 1, alive := if b.failed + 1 >= 3 && b.alive then false else b.alive)
    else b.(failed := 0)
  }

  function MarkDown(b: Backend): Backend {
    b.(alive := false)
  }

  datatype HealthEvent = Checked(ok: bool) | MarkedDown

  function Health(b: Backend, history: seq<HealthEvent>): Backend {
    if history == [] then b
    else
      var past := Health(b, history[..|history| - 1]);
      match history[|history| - 1]
      case Checked(ok) => Probe(past, ok)
      case MarkedDown => MarkDown(past)
  }

  /** The events after the last successful probe. */
  function SinceSuccess(history: seq<HealthEvent>): seq<HealthEvent> {
    if history == [] || history[|history| - 1] == Checked(true) then []
    else SinceSuccess(history[..|history| - 1]) + [history[|history| - 1]]
  }

  function Failures(history: seq<HealthEvent>): nat {
    if history == [] then 0
    else Failures(history[..|history| - 1]) + if history[|history| - 1] == Checked(false) then 1 else 0
  }

  /**
   Closed form: failed_checks counts the failed probes since the last success, and the backend is alive
   iff there were fewer than three and no `mark_down` since then.
   */
  lemma {:induction false} HealthClosedForm(host: string, port: int, history: seq<HealthEvent>)
    ensures
      var b, recent := Health(NewBackend(host, port), history), SinceSuccess(history);
      b.failed == Failures(recent) && (b.alive <==> Failures(recent) < 3 && MarkedDown !in recent)
  {
    if history != [] {
      var past, e := history[..|history| - 1], history[|history| - 1];
      HealthClosedForm(host, port, past);
      var recent := SinceSuccess(past);
      assert (recent + [e])[..|recent|] == recent;
    }
  }

  // ---------------------------------------------------------------------------------------------
  // Histories
  // ---------------------------------------------------------------------------------------------

  /** The backends and how often the counter has been incremented. */
  datatype Balancer = Balancer(backends: seq<Backend>, ticks: nat)

  datatype Event =
    | Added(host: string, port: int)
    | Asked(looks: Looks)
    | Released(backend: nat)
    | Downed(backend: nat)
    | Probed(outcomes: seq<bool>)

  predicate Possible(s: Balancer, e: Event) {
    match e
    case Added(_, _) => true
    case Asked(looks) => |looks| == |s.backends|
    case Released(b) => b < |s.backends|
    case Downed(b) => b < |s.backends|
    case Probed(outcomes) => |outcomes| == |s.backends|
  }

  /** One more connection and one more request. */
  function Charged(b: Backend): Backend {
    b.(active := b.active + 1, total := b.total + 1)
  }

  /** The answer of `get_next`. */
  function Answer(s: Balancer, looks: Looks): (chosen: Option<nat>)
    ensures chosen.Some? ==> chosen.value < |s.backends|
  {
    if s.backends == [] then None else Returned(|s.backends|, s.ticks, looks)
  }

  function Act(s: Balancer, e: Event): Balancer
    requires Possible(s, e)
  {
    match e
    case Added(host, port) => s.(backends := s.backends + [NewBackend(host, port)])
    case Asked(looks) =>
      var chosen := Answer(s, looks);
      Balancer(if chosen.None? then s.backends else s.backends[chosen.value := Charged(s.backends[chosen.value])],
               s.ticks + Used(looks))
    case Released(b) => s.(backends := s.backends[b := s.backends[b].(active := s.backends[b].active - 1)])
    case Downed(b) => s.(backends := s.backends[b := MarkDown(s.backends[b])])
    case Probed(outcomes) =>
      s.(backends := seq(|s.backends|, i requires 0 <= i < |s.backends| => Probe(s.backends[i], outcomes[i])))
  }

  ghost predicate Legal(events: seq<Event>)
    decreases |events|, 0
  {
    events == [] ||
    (Legal(events[..|events| - 1]) && Possible(After(events[..|events| - 1]), events[|events| - 1]))
  }

  ghost function After(events: seq<Event>): Balancer
    requires Legal(events)
    decreases |events|, 1
  {
    if events == [] then Balancer([], 0) else Act(After(events[..|events| - 1]), events[|events| - 1])
  }

  /** How often `get_next` has returned backend `b`. */
  ghost function Returns(events: seq<Event>, b: nat): nat
    requires Legal(events)
  {
    if events == [] then 0
    else
      var past, e := events[..|events| - 1], events[|events| - 1];
      Returns(past, b) + if e.Asked? && Answer(After(past), e.looks) == Some(b) then 1 else 0
  }

  function Releases(events: seq<Event>, b: nat): nat {
    if events == [] then 0
    else Releases(events[..|events| - 1], b) + if events[|events| - 1] == Released(b) then 1 else 0
  }

  /** The probes and `mark_down` calls backend `b` has seen. */
  ghost function HealthHistory(events: seq<Event>, b: nat): seq<HealthEvent>
    requires Legal(events)
  {
    if events == [] then []
    else
      var past, e := events[..|events| - 1], events[|events| - 1];
      HealthHistory(past, b) +
      if e.Probed? && b < |e.outcomes| then [Checked(e.outcomes[b])] else if e == Downed(b) then [MarkedDown] else []
  }

  /** What one event does to backend `b`. */
  lemma ActOnOne(s: Balancer, e: Event, b: nat)
    requires Possible(s, e) && b < |s.backends|
    ensures |Act(s, e).backends| >= |s.backends|
    ensures
      var x, y := s.backends[b], Act(s, e).backends[b];
      && y.host == x.host && y.port == x.port
      && y.total == x.total + (if e.Asked? && Answer(s, e.looks) == Some(b) then 1 else 0)
      && y.active == x.active + (y.total - x.total) - (if e == Released(b) then 1 else 0)
      && y.failed == (if e.Probed? then Probe(x, e.outcomes[b]).failed else x.failed)
      && y.alive == (if e.Probed? then Probe(x, e.outcomes[b]).alive else if e == Downed(b) then false else x.alive)
  {
    hide Returned, Used;
  }

  lemma ActOnNew(s: Balancer, e: Event, b: nat)
    requires Possible(s, e) && |s.backends| <= b
    ensures b < |Act(s, e).backends| ==> e.Added? && Act(s, e).backends[b] == NewBackend(e.host, e.port)
    ensures !(e.Asked? && Answer(s, e.looks) == Some(b)) && e != Released(b) && e != Downed(b)
    ensures e.Probed? ==> |e.outcomes| <= b
  {
    hide Returned, Used;
  }

  lemma LastEvent(events: seq<Event>, b: nat)
    requires events != [] && Legal(events)
    ensures
      var past, e := events[..|events| - 1], events[|events| - 1];
      && Legal(past) && Possible(After(past), e) && After(events) == Act(After(past), e)
      && Returns(events, b) == Returns(past, b) + (if e.Asked? && Answer(After(past), e.looks) == Some(b) then 1 else 0)
      && Releases(events, b) == Releases(past, b) + (if e == Released(b) then 1 else 0)
      && HealthHistory(events, b) == HealthHistory(past, b) +
         (if e.Probed? && b < |e.outcomes| then [Checked(e.outcomes[b])]
          else if e == Downed(b) then [MarkedDown]
          else [])
  {
    hide Act, Answer;
  }

  /** The record of backend `b` says what its history was; before it is added it has none. */
  ghost predicate Recorded(events: seq<Event>, b: nat)
    requires Legal(events)
  {
    var s, history := After(events), HealthHistory(events, b);
    if b >= |s.backends| then Returns(events, b) == 0 && Releases(events, b) == 0 && history == []
    else
      var x := s.backends[b];
      var h := Health(NewBackend(x.host, x.port), history);
      && x.total == Returns(events, b) && x.active == Returns(events, b) - Releases(events, b)
      && x.alive == h.alive && x.failed == h.failed
  }

  lemma HealthAppend(b: Backend, history: seq<HealthEvent>, e: HealthEvent)
    ensures Health(b, history + [e]) ==
            match e case Checked(ok) => Probe(Health(b, history), ok) case MarkedDown => MarkDown(Health(b, history))
  {
    assert (history + [e])[..|history|] == history;
  }

  lemma {:induction false} HistoryIsRecorded(events: seq<Event>, b: nat)
    requires Legal(events)
    ensures Recorded(events, b)
  {
    if events != [] {
      var past, e := events[..|events| - 1], events[|events| - 1];
      LastEvent(events, b);
      HistoryIsRecorded(past, b);
      hide Legal, After, Act, Returns, Releases, HealthHistory, Answer, Health;
      var s, history := After(past), HealthHistory(past, b);
      assert history + [] == history;
      if b < |s.backends| {
        ActOnOne(s, e, b);
        var start := NewBackend(s.backends[b].host, s.backends[b].port);
        if e.Probed? {
          HealthAppend(start, history, Checked(e.outcomes[b]));
        } else if e == Downed(b) {
          HealthAppend(start, history, MarkedDown);
        }
      } else {
        ActOnNew(s, e, b);
        if b < |After(events).backends| {
          NewIsHealthy(After(events).backends[b]);
        }
      }
    }
  }

  lemma NewIsHealthy(b: Backend)
    ensures Health(NewBackend(b.host, b.port), []) == NewBackend(b.host, b.port)
  {
  }

  /**
   In every history of calls, probes and additions: a backend's total is how often it was returned, its
   active count is that less how often it was released, and its health has the closed form.
   */
  lemma CountsAndHealth(events: seq<Event>, b: nat)
    requires Legal(events) && b < |After(events).backends|
    ensures
      var x, recent := After(events).backends[b], SinceSuccess(HealthHistory(events, b));
      && x.total == Returns(events, b) && x.active == Returns(events, b) - Releases(events, b)
      && x.failed == Failures(recent) && (x.alive <==> Failures(recent) < 3 && MarkedDown !in recent)
  {
    HistoryIsRecorded(events, b);
    var x := After(events).backends[b];
    HealthClosedForm(x.host, x.port, HealthHistory(events, b));
    hide Legal, After, Returns, Releases, HealthHistory, Health, SinceSuccess, Failures;
  }

  /** The addresses added, in order. */
  function Additions(events: seq<Event>): seq<(string, int)> {
    if events == [] then []
    else
      var e := events[|events| - 1];
      Additions(events[..|events| - 1]) + if e.Added? then [(e.host, e.port)] else []
  }

  lemma ActKeepsAddresses(s: Balancer, e: Event)
    requires Possible(s, e)
    ensures |Act(s, e).backends| == |s.backends| + if e.Added? then 1 else 0
    ensures forall b :: 0 <= b < |s.backends| ==>
              Act(s, e).backends[b].host == s.backends[b].host && Act(s, e).backends[b].port == s.backends[b].port
    ensures e.Added? ==>
              Act(s, e).backends[|s.backends|].host == e.host && Act(s, e).backends[|s.backends|].port == e.port
  {
    hide Returned, Used;
  }

  /** In every history the backends are those added, in order, each with its address. */
  lemma {:induction false} AddressesAreKept(events: seq<Event>)
    requires Legal(events)
    ensures |After(events).backends| == |Additions(events)|
    ensures forall b :: 0 <= b < |Additions(events)| ==>
              (After(events).backends[b].host, After(events).backends[b].port) == Additions(events)[b]
  {
    if events != [] {
      var past, e := events[..|events| - 1], events[|events| - 1];
      AddressesAreKept(past);
      ActKeepsAddresses(After(past), e);
      hide Act, Possible;
    }
  }

  // ---------------------------------------------------------------------------------------------
  // The class
  // ---------------------------------------------------------------------------------------------

  function Flags(backends: seq<Backend>): (live: seq<bool>)
    ensures |live| == |backends|
  {
    seq(|backends|, i requires 0 <= i < |backends| => backends[i].alive)
  }

  /** A scan during which no flag changes returns a live backend. */
  lemma ReturnedIsAlive(live: seq<bool>, t: nat)
    requires live != [] && Returned(|live|, t, LooksAt(live, t)).Some?
    ensures Returned(|live|, t, LooksAt(live, t)).value in LiveSet(live)
  {
    hide SlotAt;
    CallStops(live, t);
  }

  class LoadBalancer {
    var backends: seq<Backend>
    var currentIndex: int
    /** How often the counter has been incremented. */
    ghost var ticks: nat

    ghost predicate Valid()
      reads this
    {
      currentIndex == Counter(ticks)
    }

    ghost function State(): Balancer
      reads this
    {
      Balancer(backends, ticks)
    }

    constructor ()
      ensures Valid() && State() == After([])
    {
      backends, currentIndex, ticks := [], 0, 0;
      new;
      CounterIncrements(0);
    }

    method AddBackend(host: string, port: int)
      modifies this`backends
      ensures State() == Act(old(State()), Added(host, port))
    {
      backends := backends + [NewBackend(host, port)];
    }

    /**
     Returns the index of the chosen backend, and charges it with one connection and one request.
     `looks` are the answers of the loads of the alive flags, which other threads may change meanwhile.
     */
    method GetNext(looks: Looks) returns (chosen: Option<nat>)
      requires Valid() && |looks| == |backends|
      modifies this
      ensures Valid()
      ensures chosen == Answer(old(State()), looks) && State() == Act(old(State()), Asked(looks))
    {
      if backends == [] {
        return None;
      }
      var tried := 0;
      while tried < |backends|
        invariant tried <= |backends| && Valid() && ticks == old(ticks) + tried && backends == old(backends)
        invariant forall k :: 0 <= k < tried ==> !looks[k]
      {
        hide Slot, Counter;
        var idx := Slot(currentIndex, |backends|);
        assert idx == SlotAt(old(ticks) + tried, |backends|);
        CounterIncrements(ticks);
        currentIndex, ticks := Increment(currentIndex), ticks + 1;
        if looks[tried] {
          FirstLook(looks, tried);
          backends := backends[idx := Charged(backends[idx])];
          return Some(idx);
        }
        tried := tried + 1;
      }
      return None;
    }

    method Release(backend: nat)
      requires backend < |backends|
      modifies this`backends
      ensures State() == Act(old(State()), Released(backend))
    {
      backends := backends[backend := backends[backend].(active := backends[backend].active - 1)];
    }

    method MarkDownBackend(backend: nat)
      requires backend < |backends|
      modifies this`backends
      ensures State() == Act(old(State()), Downed(backend))
    {
      backends := backends[backend := backends[backend].(alive := false)];
    }

    /** One round of `health_check_loop`; `outcomes` are the results of `check_health`. */
    method HealthRound(outcomes: seq<bool>)
      requires |outcomes| == |backends|
      modifies this`backends
      ensures State() == Act(old(State()), Probed(outcomes))
    {
      for i := 0 to |backends|
        invariant |backends| == |old(backends)|
        invariant forall j :: 0 <= j < i ==> backends[j] == Probe(old(backends)[j], outcomes[j])
        invariant forall j :: i <= j < |backends| ==> backends[j] == old(backends)[j]
      {
        var alive, backend := outcomes[i], backends[i];
        if alive && !backend.alive {
          backend := backend.(alive := true, failed := 0);
        } else if !alive {
          backend := backend.(failed := backend.failed + 1);
          if backend.failed >= 3 && backend.alive {
            backend := backend.(alive := false);
          }
        } else if alive {
          backend := backend.(failed := 0);
        }
        backends := backends[i := backend];
      }
    }

    method HealthyCount() returns (count: nat)
      ensures count == |LiveSet(Flags(backends))|
    {
      count := 0;
      var i := 0;
      ghost var seen: set<nat> := {};
      while i < |backends|
        invariant 0 <= i <= |backends|
        invariant seen == (set b: nat | b < i && backends[b].alive) && count == |seen|
      {
        if backends[i].alive {
          count, seen := count + 1, seen + {i};
        }
        i := i + 1;
      }
      assert seen == LiveSet(Flags(backends));
    }
  }

  lemma {:induction false} FirstLook(looks: Looks, k: nat)
    requires k < |looks| && looks[k] && forall j :: 0 <= j < k ==> !looks[j]
    ensures Tries(looks) == k && Used(looks) == k + 1
  {
    if k > 0 {
      FirstLook(looks[1..], k - 1);
    }
  }
}
