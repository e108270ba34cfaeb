/**
 The byte-bounded LRU cache with TTL (src/middleware/cache.cpp).

 `order` is `lru_list_`, most recent first; `entries` is `cache_` without its list iterators (an
 iterator erases the one list node of its key).  The class methods are proved against the step
 functions on `Cache` values.
 */
module LruCache {
  import opened Wrappers
  import opened Clock

  datatype Entry = Entry(data: string, contentType: string, created: real, lastAccessed: real, accessCount: nat)

  datatype Limits = Limits(maxSize: nat, ttl: int)

  datatype Cache = Cache(order: seq<string>, entries: map<string, Entry>, size: int, hits: nat, misses: nat)

  const EMPTY: Cache := Cache([], map[], 0, 0, 0)

  // ---------------------------------------------------------------------------------------------
  // Step functions
  // ---------------------------------------------------------------------------------------------

  function SizeOf(entries: map<string, Entry>, key: string): nat {
    if key in entries then |entries[key].data| else 0
  }

  /** Where the list holds `key`; its length when it does not. */
  function IndexOf(order: seq<string>, key: string): (i: nat)
    ensures i <= |order| && key !in order[..i]
    ensures i < |order| ==> order[i] == key
  {
    if order == [] || order[0] == key then 0
    else
      var i := IndexOf(order[1..], key);
      assert order[..i + 1] == [order[0]] + order[1..][..i];
      i + 1
  }

  /** Erases the list node of `key`. */
  function Without(order: seq<string>, key: string): seq<string> {
    var i := IndexOf(order, key);
    if i == |order| then order else order[..i] + order[i + 1..]
  }

  function Drop(c: Cache, key: string): Cache {
    c.(order := Without(c.order, key), entries := c.entries - {key}, size := c.size - SizeOf(c.entries, key))
  }

  predicate Fresh(l: Limits, e: Entry, now: real) {
    WholeSeconds(now - e.created) <= l.ttl
  }

  function Get(l: Limits, c: Cache, key: string, now: real): (Cache, Option<Entry>) {
    if key !in c.entries then (c.(misses := c.misses + 1), None)
    else if !Fresh(l, c.entries[key], now) then (Drop(c, key).(misses := c.misses + 1), None)
    else
      var e := c.entries[key].(lastAccessed := now, accessCount := c.entries[key].accessCount + 1);
      (c.(order := [key] + Without(c.order, key), entries := c.entries[key := e], hits := c.hits + 1), Some(e))
  }

  /** Evicts the least recently used key. */
  function Shrink(c: Cache): Cache
    requires c.order != []
  {
    var last := c.order[|c.order| - 1];
    c.(order := c.order[..|c.order| - 1], entries := c.entries - {last}, size := c.size - SizeOf(c.entries, last))
  }

  /** Evicts from the back until `need` more bytes fit. */
  function Evict(l: Limits, c: Cache, need: nat): Cache
    decreases |c.order|
  {
    if c.order == [] || c.size + need <= l.maxSize then c else Evict(l, Shrink(c), need)
  }

  /** Inserts a new entry at the front. */
  function Push(c: Cache, key: string, e: Entry): Cache {
    c.(order := [key] + c.order, entries := c.entries[key := e], size := c.size + |e.data|)
  }

  function Put(l: Limits, c: Cache, key: string, data: string, contentType: string, now: real): Cache {
    if |data| > l.maxSize then c
    else Push(Evict(l, Remove(c, key), |data|), key, Entry(data, contentType, now, now, 0))
  }

  function Remove(c: Cache, key: string): Cache {
    if key in c.entries then Drop(c, key) else c
  }

  function Clear(c: Cache): Cache {
    c.(order := [], entries := map[], size := 0)
  }

  // ---------------------------------------------------------------------------------------------
  // The representation invariant
  // ---------------------------------------------------------------------------------------------

  /** Bytes held by the keys of `order`. */
  function Total(order: seq<string>, entries: map<string, Entry>): nat {
    if order == [] then 0
    else Total(order[..|order| - 1], entries) + SizeOf(entries, order[|order| - 1])
  }

  ghost predicate Distinct(order: seq<string>) {
    forall i, j :: 0 <= i < j < |order| ==> order[i] != order[j]
  }

  /** The list enumerates the map's keys once each, and the running size is the bytes held, within budget. */
  ghost predicate Valid(l: Limits, c: Cache) {
    && Distinct(c.order)
    && (forall k :: k in c.order <==> k in c.entries)
    && c.size == Total(c.order, c.entries)
    && c.size <= l.maxSize
  }

  lemma {:induction false} TotalAgrees(order: seq<string>, e: map<string, Entry>, f: map<string, Entry>)
    requires forall k :: k in order ==> SizeOf(e, k) == SizeOf(f, k)
    ensures Total(order, e) == Total(order, f)
  {
    if order != [] {
      TotalAgrees(order[..|order| - 1], e, f);
    }
  }

  lemma {:induction false} TotalConcat(a: seq<string>, b: seq<string>, entries: map<string, Entry>)
    ensures Total(a + b, entries) == Total(a, entries) + Total(b, entries)
  {
    if b == [] {
      assert a + b == a;
    } else {
      TotalConcat(a, b[..|b| - 1], entries);
      assert (a + b)[..|a + b| - 1] == a + b[..|b| - 1];
    }
  }

  /** Erasing a node leaves the other keys, once each. */
  lemma WithoutErases(order: seq<string>, key: string)
    requires Distinct(order)
    ensures Distinct(Without(order, key))
    ensures forall k :: k in Without(order, key) <==> k in order && k != key
  {
    var i := IndexOf(order, key);
    if i < |order| {
      assert order == order[..i] + [key] + order[i + 1..];
      assert key !in order[i + 1..];
    } else {
      assert order[..i] == order;
    }
  }

  lemma WithoutTotal(order: seq<string>, key: string, entries: map<string, Entry>)
    requires Distinct(order) && key in order
    ensures Total(Without(order, key), entries) + SizeOf(entries, key) == Total(order, entries)
  {
    var i := IndexOf(order, key);
    assert order[..|order|] == order;
    assert order == order[..i] + ([key] + order[i + 1..]);
    TotalConcat(order[..i], [key] + order[i + 1..], entries);
    TotalConcat([key], order[i + 1..], entries);
    TotalConcat(order[..i], order[i + 1..], entries);
    assert [key][..0] == [];
  }

  lemma DropKeepsValid(l: Limits, c: Cache, key: string)
    requires Valid(l, c) && key in c.entries
    ensures Valid(l, Drop(c, key)) && Drop(c, key).size >= 0
  {
    WithoutErases(c.order, key);
    WithoutTotal(c.order, key, c.entries);
    TotalAgrees(Without(c.order, key), c.entries, c.entries - {key});
  }

  lemma RemoveKeepsValid(l: Limits, c: Cache, key: string)
    requires Valid(l, c)
    ensures Valid(l, Remove(c, key)) && key !in Remove(c, key).entries
    ensures Remove(c, key).order == Without(c.order, key)
  {
    if key in c.entries {
      DropKeepsValid(l, c, key);
    } else {
      assert c.order[..IndexOf(c.order, key)] == c.order;
    }
  }

  lemma ShrinkKeys(l: Limits, c: Cache)
    requires Valid(l, c) && c.order != []
    ensures Distinct(Shrink(c).order) && c.order[|c.order| - 1] !in Shrink(c).order
    ensures forall k :: k in Shrink(c).order <==> k in Shrink(c).entries
  {
    hide Total, SizeOf;
    var last, init := c.order[|c.order| - 1], c.order[..|c.order| - 1];
    assert c.order == init + [last];
    forall k ensures k in init <==> k in c.entries && k != last {
      assert k in c.order <==> k in init || k == last;
    }
  }

  lemma ShrinkKeepsValid(l: Limits, c: Cache)
    requires Valid(l, c) && c.order != []
    ensures Valid(l, Shrink(c)) && Shrink(c).size >= 0
    ensures forall k :: k in Shrink(c).order ==> SizeOf(Shrink(c).entries, k) == SizeOf(c.entries, k)
  {
    hide SizeOf, Total, Distinct;
    var last, init := c.order[|c.order| - 1], c.order[..|c.order| - 1];
    ShrinkKeys(l, c);
    TotalLast(c.order, c.entries);
    WithoutLastSizes(c.entries, init, last);
    TotalAgrees(init, c.entries, c.entries - {last});
  }

  lemma TotalLast(order: seq<string>, entries: map<string, Entry>)
    requires order != []
    ensures Total(order, entries) == Total(order[..|order| - 1], entries) + SizeOf(entries, order[|order| - 1])
  {
  }

  lemma WithoutLastSizes(entries: map<string, Entry>, init: seq<string>, last: string)
    requires last !in init
    ensures forall k :: k in init ==> SizeOf(entries - {last}, k) == SizeOf(entries, k)
  {
  }

  lemma PushKeepsValid(l: Limits, c: Cache, key: string, e: Entry)
    requires Valid(l, c) && key !in c.entries && c.size + |e.data| <= l.maxSize
    ensures Valid(l, Push(c, key, e))
  {
    var c1 := Push(c, key, e);
    assert key !in c.order;
    assert Distinct(c1.order);
    TotalAgrees(c.order, c.entries, c1.entries);
    TotalConcat([key], c.order, c1.entries);
    assert [key][..0] == [];
  }

  /** `n` is the length of the longest prefix of `order` whose bytes fit in `budget`. */
  ghost predicate LongestFit(order: seq<string>, entries: map<string, Entry>, budget: int, n: nat) {
    && n <= |order|
    && forall m :: 0 <= m <= |order| ==> (Total(order[..m], entries) <= budget <==> m <= n)
  }

  lemma TotalGrows(order: seq<string>, entries: map<string, Entry>, m: nat)
    requires m <= |order|
    ensures Total(order[..m], entries) <= Total(order, entries)
  {
    assert order == order[..m] + order[m..];
    TotalConcat(order[..m], order[m..], entries);
  }

  lemma AllFit(order: seq<string>, entries: map<string, Entry>, budget: int)
    requires Total(order, entries) <= budget
    ensures LongestFit(order, entries, budget, |order|)
  {
    forall m | 0 <= m <= |order| {
      TotalGrows(order, entries, m);
    }
  }

  lemma FitAgrees(order: seq<string>, e: map<string, Entry>, f: map<string, Entry>, budget: int, n: nat)
    requires LongestFit(order, f, budget, n)
    requires forall k :: k in order ==> SizeOf(e, k) == SizeOf(f, k)
    ensures LongestFit(order, e, budget, n)
  {
    forall m | 0 <= m <= |order| ensures Total(order[..m], e) == Total(order[..m], f) {
      TotalAgrees(order[..m], e, f);
    }
  }

  lemma FitExtends(order: seq<string>, entries: map<string, Entry>, budget: int, n: nat)
    requires order != [] && Total(order, entries) > budget
    requires LongestFit(order[..|order| - 1], entries, budget, n)
    ensures n < |order| && LongestFit(order, entries, budget, n)
  {
    forall m | 0 <= m <= |order| ensures Total(order[..m], entries) <= budget <==> m <= n {
      if m < |order| {
        assert order[..|order| - 1][..m] == order[..m];
      } else {
        assert order[..m] == order;
      }
    }
  }

  /** When the list does not fit, its longest fit is the longest fit of the list without its last key. */
  lemma FitOfShrunk(l: Limits, c: Cache, budget: int, n: nat)
    requires Valid(l, c) && c.order != [] && c.size > budget
    requires LongestFit(Shrink(c).order, Shrink(c).entries, budget, n)
    ensures LongestFit(c.order, c.entries, budget, n)
    ensures n < |c.order| && Shrink(c).order[..n] == c.order[..n]
  {
    hide LongestFit;
    var c1 := Shrink(c);
    ShrinkKeepsValid(l, c);
    FitAgrees(c1.order, c.entries, c1.entries, budget, n);
    FitExtends(c.order, c.entries, budget, n);
  }

  /** Eviction keeps exactly the longest prefix of the list that still fits. */
  lemma {:induction false} EvictKeepsLongestFit(l: Limits, c: Cache, need: nat) returns (n: nat)
    requires Valid(l, c) && need <= l.maxSize
    ensures LongestFit(c.order, c.entries, l.maxSize - need, n)
    ensures n <= |c.order| && Evict(l, c, need).order == c.order[..n]
    ensures Valid(l, Evict(l, c, need)) && Evict(l, c, need).size + need <= l.maxSize
    decreases |c.order|
  {
    if c.order == [] || c.size + need <= l.maxSize {
      n := |c.order|;
      AllFit(c.order, c.entries, l.maxSize - need);
      assert c.order[..n] == c.order;
    } else {
      ShrinkKeepsValid(l, c);
      hide Valid, LongestFit;
      n := EvictKeepsLongestFit(l, Shrink(c), need);
      FitOfShrunk(l, c, l.maxSize - need, n);
    }
  }

  /** One step of the eviction loop. */
  lemma EvictStep(l: Limits, c: Cache, need: nat)
    requires Valid(l, c) && c.order != []
    ensures c.order[|c.order| - 1] in c.entries
    ensures Valid(l, Shrink(c)) && Shrink(c).size == c.size - |c.entries[c.order[|c.order| - 1]].data| >= 0
    ensures c.size + need > l.maxSize ==> Evict(l, c, need) == Evict(l, Shrink(c), need)
  {
    ShrinkKeepsValid(l, c);
  }

  lemma EvictDone(l: Limits, c: Cache, need: nat)
    requires c.order == [] || c.size + need <= l.maxSize
    ensures Evict(l, c, need) == c
  {
  }

  /** Eviction changes no entry and no counter. */
  lemma {:induction false} EvictOnlyErases(l: Limits, c: Cache, need: nat)
    ensures Evict(l, c, need).hits == c.hits && Evict(l, c, need).misses == c.misses
    ensures forall k :: k in Evict(l, c, need).entries ==>
              k in c.entries && Evict(l, c, need).entries[k] == c.entries[k]
    decreases |c.order|
  {
    if c.order != [] && c.size + need > l.maxSize {
      EvictOnlyErases(l, Shrink(c), need);
    }
  }

  /** What an accepted put does to the list: the key, then the longest prefix of the others' recency order that fits. */
  lemma PutKeepsLongestFit(l: Limits, c: Cache, key: string, data: string, contentType: string, now: real)
    returns (n: nat)
    requires Valid(l, c) && |data| <= l.maxSize
    ensures LongestFit(Without(c.order, key), c.entries, l.maxSize - |data|, n)
    ensures Put(l, c, key, data, contentType, now).order == [key] + Without(c.order, key)[..n]
    ensures Valid(l, Put(l, c, key, data, contentType, now))
  {
    var c1 := Remove(c, key);
    RemoveKeepsValid(l, c, key);
    n := EvictKeepsLongestFit(l, c1, |data|);
    FitAgrees(c1.order, c.entries, c1.entries, l.maxSize - |data|, n);
    EvictOnlyErases(l, c1, |data|);
    PushKeepsValid(l, Evict(l, c1, |data|), key, Entry(data, contentType, now, now, 0));
  }

  /** What it does to the map: the new entry is stored and the survivors are untouched. */
  lemma PutStores(l: Limits, c: Cache, key: string, data: string, contentType: string, now: real)
    requires |data| <= l.maxSize
    ensures
      var c1 := Put(l, c, key, data, contentType, now);
      && key in c1.entries && c1.entries[key] == Entry(data, contentType, now, now, 0)
      && (forall k :: k in c1.entries && k != key ==> k in c.entries && c1.entries[k] == c.entries[k])
      && c1.hits == c.hits && c1.misses == c.misses
  {
    EvictOnlyErases(l, Remove(c, key), |data|);
  }

  lemma {:induction false} EntryFits(order: seq<string>, entries: map<string, Entry>, key: string)
    requires key in order
    ensures SizeOf(entries, key) <= Total(order, entries)
  {
    if key != order[|order| - 1] {
      EntryFits(order[..|order| - 1], entries, key);
    }
  }

  /** After a put the cache holds its data iff the data fits the whole budget; otherwise nothing has changed. */
  lemma PutIsAcceptedIffFits(l: Limits, c: Cache, key: string, data: string, contentType: string, now: real)
    requires Valid(l, c)
    ensures
      var c1 := Put(l, c, key, data, contentType, now);
      && ((key in c1.entries && c1.entries[key].data == data) <==> |data| <= l.maxSize)
      && (|data| > l.maxSize ==> c1 == c)
  {
    if |data| <= l.maxSize {
      PutStores(l, c, key, data, contentType, now);
    } else if key in c.entries {
      EntryFits(c.order, c.entries, key);
    }
  }

  /** A hit is an erase followed by an insertion at the front. */
  lemma HitMovesToFront(l: Limits, c: Cache, key: string, now: real)
    requires Valid(l, c) && key in c.entries && Fresh(l, c.entries[key], now)
    ensures Get(l, c, key, now).0 == Push(Drop(c, key), key, Get(l, c, key, now).1.value).(hits := c.hits + 1)
  {
    var e := Get(l, c, key, now).1.value;
    assert (c.entries - {key})[key := e] == c.entries[key := e];
  }

  lemma GetKeepsValid(l: Limits, c: Cache, key: string, now: real)
    requires Valid(l, c)
    ensures Valid(l, Get(l, c, key, now).0)
  {
    if key in c.entries {
      DropKeepsValid(l, c, key);
      if Fresh(l, c.entries[key], now) {
        HitMovesToFront(l, c, key, now);
        PushKeepsValid(l, Drop(c, key), key, Get(l, c, key, now).1.value);
      }
    }
  }

  // ---------------------------------------------------------------------------------------------
  // Histories
  // ---------------------------------------------------------------------------------------------

  datatype Op =
    | GetOp(key: string, now: real)
    | PutOp(key: string, data: string, contentType: string, now: real)
    | RemoveOp(key: string)
    | ClearOp

  function Apply(l: Limits, c: Cache, op: Op): Cache {
    match op
    case GetOp(key, now) => Get(l, c, key, now).0
    case PutOp(key, data, contentType, now) => Put(l, c, key, data, contentType, now)
    case RemoveOp(key) => Remove(c, key)
    case ClearOp => Clear(c)
  }

  function After(l: Limits, ops: seq<Op>): Cache {
    if ops == [] then EMPTY else Apply(l, After(l, ops[..|ops| - 1]), ops[|ops| - 1])
  }

  /** The last put of `key` the cache accepted and that no remove or clear has undone. */
  function LastAccepted(l: Limits, ops: seq<Op>, key: string): Option<Op> {
    if ops == [] then None
    else
      var op := ops[|ops| - 1];
      if op.PutOp? && op.key == key && |op.data| <= l.maxSize then Some(op)
      else if op.ClearOp? || (op.RemoveOp? && op.key == key) then None
      else LastAccepted(l, ops[..|ops| - 1], key)
  }

  function Gets(ops: seq<Op>): nat {
    if ops == [] then 0 else Gets(ops[..|ops| - 1]) + if ops[|ops| - 1].GetOp? then 1 else 0
  }

  ghost predicate Holds(e: Entry, put: Option<Op>) {
    && put.Some? && put.value.PutOp?
    && e.data == put.value.data && e.contentType == put.value.contentType && e.created == put.value.now
  }

  lemma ApplyKeepsValid(l: Limits, c: Cache, op: Op)
    requires Valid(l, c)
    ensures Valid(l, Apply(l, c, op))
  {
    match op
    case GetOp(key, now) =>
      GetKeepsValid(l, c, key, now);
    case PutOp(key, data, contentType, now) =>
      if |data| <= l.maxSize {
        var n := PutKeepsLongestFit(l, c, key, data, contentType, now);
      }
    case RemoveOp(key) =>
      if key in c.entries {
        DropKeepsValid(l, c, key);
      }
    case ClearOp =>
  }

  /** After every history the list, the map and the running size agree, within the budget. */
  lemma {:induction false} ReachableIsValid(l: Limits, ops: seq<Op>)
    ensures Valid(l, After(l, ops))
  {
    if ops != [] {
      ReachableIsValid(l, ops[..|ops| - 1]);
      ApplyKeepsValid(l, After(l, ops[..|ops| - 1]), ops[|ops| - 1]);
    }
  }

  /** Every lookup is counted once, as a hit or as a miss. */
  lemma {:induction false} LookupsAreCounted(l: Limits, ops: seq<Op>)
    ensures After(l, ops).hits + After(l, ops).misses == Gets(ops)
  {
    if ops != [] {
      var op := ops[|ops| - 1];
      LookupsAreCounted(l, ops[..|ops| - 1]);
      if op.PutOp? && |op.data| <= l.maxSize {
        PutStores(l, After(l, ops[..|ops| - 1]), op.key, op.data, op.contentType, op.now);
      }
    }
  }

  /** Every stored entry is the last accepted put of its key. */
  lemma {:induction false} EntryIsLastAccepted(l: Limits, ops: seq<Op>, key: string)
    requires key in After(l, ops).entries
    ensures Holds(After(l, ops).entries[key], LastAccepted(l, ops, key))
  {
    var past, op := ops[..|ops| - 1], ops[|ops| - 1];
    if op.PutOp? && |op.data| <= l.maxSize {
      PutStores(l, After(l, past), op.key, op.data, op.contentType, op.now);
    }
    if !(op.PutOp? && op.key == key && |op.data| <= l.maxSize) {
      EntryIsLastAccepted(l, past, key);
    }
  }

  /** A hit returns the last accepted put of the key, and only within its time to live. */
  lemma HitReturnsLastAcceptedPut(l: Limits, ops: seq<Op>, key: string, now: real)
    requires Get(l, After(l, ops), key, now).1.Some?
    ensures Holds(Get(l, After(l, ops), key, now).1.value, LastAccepted(l, ops, key))
    ensures WholeSeconds(now - LastAccepted(l, ops, key).value.now) <= l.ttl
  {
    EntryIsLastAccepted(l, ops, key);
  }

  lemma GetHits(l: Limits, c: Cache, key: string, now: real)
    requires Valid(l, c)
    ensures Get(l, c, key, now).1.Some? <==> key in c.order && WholeSeconds(now - c.entries[key].created) <= l.ttl
  {
    hide Without, Total, SizeOf;
  }

  /** A lookup hits iff the key is present and its last accepted put is no older than the time to live. */
  lemma HitIffYoung(l: Limits, ops: seq<Op>, key: string, now: real)
    ensures Get(l, After(l, ops), key, now).1.Some? <==>
            && key in After(l, ops).order && LastAccepted(l, ops, key).Some? && LastAccepted(l, ops, key).value.PutOp?
            && WholeSeconds(now - LastAccepted(l, ops, key).value.now) <= l.ttl
  {
    ReachableIsValid(l, ops);
    hide After, LastAccepted, Get, Valid;
    GetHits(l, After(l, ops), key, now);
    OrderIsKeys(l, After(l, ops), key);
    if key in After(l, ops).entries {
      EntryIsLastAccepted(l, ops, key);
    }
  }

  /** Whether a lookup hit. */
  predicate Hits(l: Limits, c: Cache, op: Op) {
    op.GetOp? && Get(l, c, op.key, op.now).1.Some?
  }

  /** How many lookups hit. */
  function HitCount(l: Limits, ops: seq<Op>): nat {
    if ops == [] then 0
    else
      var past := ops[..|ops| - 1];
      HitCount(l, past) + if Hits(l, After(l, past), ops[|ops| - 1]) then 1 else 0
  }

  /** How often the entry of `key` has been returned since it was stored. */
  function Uses(l: Limits, ops: seq<Op>, key: string): nat {
    if ops == [] then 0
    else
      var past, op := ops[..|ops| - 1], ops[|ops| - 1];
      if op.PutOp? && op.key == key && |op.data| <= l.maxSize then 0
      else Uses(l, past, key) + if Hits(l, After(l, past), op) && op.key == key then 1 else 0
  }

  /** When the entry of `key` was last stored or returned. */
  function LastUse(l: Limits, ops: seq<Op>, key: string): real {
    if ops == [] then 0.0
    else
      var past, op := ops[..|ops| - 1], ops[|ops| - 1];
      if (op.PutOp? && op.key == key && |op.data| <= l.maxSize) || (Hits(l, After(l, past), op) && op.key == key)
      then op.now else LastUse(l, past, key)
  }

  /** The counters say how the cache was used, in every history. */
  lemma {:induction false} UsesAreCounted(l: Limits, ops: seq<Op>, key: string)
    ensures After(l, ops).hits == HitCount(l, ops)
    ensures key in After(l, ops).entries ==>
              var e := After(l, ops).entries[key];
              e.accessCount == Uses(l, ops, key) && e.lastAccessed == LastUse(l, ops, key)
  {
    if ops != [] {
      var past, op := ops[..|ops| - 1], ops[|ops| - 1];
      UsesAreCounted(l, past, key);
      UseStep(l, After(l, past), op, key);
      hide Apply, Get;
    }
  }

  lemma UseStep(l: Limits, c: Cache, op: Op, key: string)
    ensures Apply(l, c, op).hits == c.hits + if Hits(l, c, op) then 1 else 0
    ensures key in Apply(l, c, op).entries ==>
              var e := Apply(l, c, op).entries[key];
              if op.PutOp? && op.key == key && |op.data| <= l.maxSize then
                e.accessCount == 0 && e.lastAccessed == op.now
              else
                && key in c.entries
                && if Hits(l, c, op) && op.key == key then
                     e.accessCount == c.entries[key].accessCount + 1 && e.lastAccessed == op.now
                   else e.accessCount == c.entries[key].accessCount && e.lastAccessed == c.entries[key].lastAccessed
  {
    hide Fresh, Put;
    if op.PutOp? {
      if |op.data| <= l.maxSize {
        PutStores(l, c, op.key, op.data, op.contentType, op.now);
      } else {
        PutTooLarge(l, c, op);
      }
    }
  }

  lemma PutTooLarge(l: Limits, c: Cache, op: Op)
    requires op.PutOp? && |op.data| > l.maxSize
    ensures Apply(l, c, op) == c
  {
  }

  /** An oversized put of a key that is present: lookups go on returning the old data. */
  lemma OversizedPutKeepsOldData()
    ensures
      var l := Limits(1, 60);
      var ops := [PutOp("key", "a", "text/plain", 0.0), PutOp("key", "bb", "text/plain", 1.0)];
      var hit := Get(l, After(l, ops), "key", 2.0).1;
      hit.Some? && hit.value.data == "a"
  {
    var l := Limits(1, 60);
    var first, second := PutOp("key", "a", "text/plain", 0.0), PutOp("key", "bb", "text/plain", 1.0);
    assert [first, second][..1] == [first] && [first][..0] == [];
    assert After(l, [first]) == Apply(l, EMPTY, first);
    assert After(l, [first, second]) == Apply(l, After(l, [first]), second) == After(l, [first]);
  }

  // ---------------------------------------------------------------------------------------------
  // Inclusion
  // ---------------------------------------------------------------------------------------------

  /** One read-through access: look the key up and, on a miss, store what was read. */
  datatype Touch = Touch(key: string, data: string, contentType: string, atGet: real, atPut: real)

  function Access(l: Limits, c: Cache, t: Touch): Cache {
    var (c1, hit) := Get(l, c, t.key, t.atGet);
    if hit.Some? then c1 else Put(l, c1, t.key, t.data, t.contentType, t.atPut)
  }

  function Work(l: Limits, ts: seq<Touch>): Cache {
    if ts == [] then EMPTY else Access(l, Work(l, ts[..|ts| - 1]), ts[|ts| - 1])
  }

  ghost predicate SizedBy(c: Cache, sizes: string -> nat) {
    forall k :: k in c.entries ==> |c.entries[k].data| == sizes(k)
  }

  /** On a miss the other keys stay as they are, whether the key was absent or expired. */
  lemma MissKeepsOthers(l: Limits, c: Cache, key: string, now: real)
    requires Valid(l, c) && Get(l, c, key, now).1.None?
    ensures Without(Get(l, c, key, now).0.order, key) == Without(c.order, key)
    ensures forall k :: k in Without(c.order, key) ==> SizeOf(c.entries, k) == SizeOf(Get(l, c, key, now).0.entries, k)
  {
    GetKeepsValid(l, c, key, now);
    RemoveKeepsValid(l, c, key);
    RemoveKeepsValid(l, Get(l, c, key, now).0, key);
    WithoutErases(c.order, key);
    hide Valid, Without, Fresh;
  }

  lemma HitKeepsOthers(l: Limits, c: Cache, key: string, size: nat)
    requires Valid(l, c) && key in c.entries && SizeOf(c.entries, key) == size
    ensures LongestFit(Without(c.order, key), c.entries, l.maxSize - size, |Without(c.order, key)|)
  {
    WithoutTotal(c.order, key, c.entries);
    AllFit(Without(c.order, key), c.entries, l.maxSize - size);
  }

  /** Hit or miss, fresh or expired, an access leaves the key in front of the others that still fit. */
  lemma AccessKeepsLongestFit(l: Limits, c: Cache, t: Touch, sizes: string -> nat) returns (n: nat)
    requires Valid(l, c) && SizedBy(c, sizes) && |t.data| == sizes(t.key) <= l.maxSize
    ensures LongestFit(Without(c.order, t.key), c.entries, l.maxSize - |t.data|, n)
    ensures Access(l, c, t).order == [t.key] + Without(c.order, t.key)[..n]
    ensures Valid(l, Access(l, c, t))
  {
    hide Valid, LongestFit, Without, Fresh, Put;
    var others := Without(c.order, t.key);
    var (c1, hit) := Get(l, c, t.key, t.atGet);
    GetKeepsValid(l, c, t.key, t.atGet);
    if hit.Some? {
      n := |others|;
      HitKeepsOthers(l, c, t.key, |t.data|);
      assert others[..n] == others;
    } else {
      MissKeepsOthers(l, c, t.key, t.atGet);
      n := PutKeepsLongestFit(l, c1, t.key, t.data, t.contentType, t.atPut);
      FitAgrees(others, c.entries, c1.entries, l.maxSize - |t.data|, n);
    }
  }

  lemma AccessKeepsSizes(l: Limits, c: Cache, t: Touch, sizes: string -> nat)
    requires SizedBy(c, sizes) && |t.data| == sizes(t.key)
    ensures SizedBy(Access(l, c, t), sizes)
  {
    var (c1, hit) := Get(l, c, t.key, t.atGet);
    if hit.None? && |t.data| <= l.maxSize {
      PutStores(l, c1, t.key, t.data, t.contentType, t.atPut);
    }
  }

  /** A file larger than the whole budget is never stored, and asking for it changes nothing but a counter. */
  lemma OversizedAccess(l: Limits, c: Cache, t: Touch, sizes: string -> nat)
    requires Valid(l, c) && SizedBy(c, sizes) && |t.data| == sizes(t.key) > l.maxSize
    ensures t.key !in c.entries && Access(l, c, t) == c.(misses := c.misses + 1)
  {
    if t.key in c.entries {
      EntryFits(c.order, c.entries, t.key);
    }
  }

  /** Two workloads ask for the same keys with the same sizes; their clocks and contents may differ. */
  ghost predicate SameKeys(ts: seq<Touch>, us: seq<Touch>, sizes: string -> nat) {
    && |ts| == |us|
    && forall i :: 0 <= i < |ts| ==>
         ts[i].key == us[i].key && |ts[i].data| == |us[i].data| == sizes(ts[i].key)
  }

  /** Fits the larger budget only. */
  predicate Between(l: Limits, m: Limits, size: nat) {
    l.maxSize < size <= m.maxSize
  }

  ghost predicate NoneBetween(l: Limits, m: Limits, ts: seq<Touch>) {
    forall i :: 0 <= i < |ts| ==> !Between(l, m, |ts[i].data|)
  }

  lemma {:induction false} IndexInPrefix(a: seq<string>, b: seq<string>, key: string)
    requires a <= b
    ensures IndexOf(a, key) == if IndexOf(b, key) < |a| then IndexOf(b, key) else |a|
  {
    if a != [] && a[0] != key {
      IndexInPrefix(a[1..], b[1..], key);
    }
  }

  lemma CutKeepsPrefix(a: seq<string>, b: seq<string>, i: nat)
    requires a <= b && i < |b|
    ensures i < |a| ==> a[..i] + a[i + 1..] <= b[..i] + b[i + 1..]
    ensures i >= |a| ==> a <= b[..i] + b[i + 1..]
  {
    var longer := b[..i] + b[i + 1..];
    if i < |a| {
      assert a == b[..|a|];
      assert longer[..|a| - 1] == a[..i] + a[i + 1..];
    } else {
      assert longer[..|a|] == a;
    }
  }

  lemma WithoutKeepsPrefix(a: seq<string>, b: seq<string>, key: string)
    requires a <= b
    ensures Without(a, key) <= Without(b, key)
  {
    hide IndexOf;
    IndexInPrefix(a, b, key);
    if IndexOf(b, key) < |b| {
      CutKeepsPrefix(a, b, IndexOf(b, key));
    }
  }

  lemma FitIsMonotone(small: seq<string>, large: seq<string>, e: map<string, Entry>, f: map<string, Entry>,
                      b: int, d: int, i: nat, j: nat)
    requires small <= large && b <= d
    requires LongestFit(small, e, b, i) && LongestFit(large, f, d, j)
    requires forall k :: k in small ==> SizeOf(e, k) == SizeOf(f, k)
    ensures small[..i] <= large[..j]
  {
    assert small[..i] == large[..i];
    TotalAgrees(small[..i], e, f);
    assert Total(small[..i], e) <= b;
    assert Total(large[..i], f) <= d;
  }

  /** The LRU stack property: the smaller cache's recency list is always a prefix of the larger one's. */
  lemma {:induction false} Inclusion(
    l: Limits, m: Limits, ts: seq<Touch>, us: seq<Touch>, sizes: string -> nat)
    requires l.maxSize <= m.maxSize && SameKeys(ts, us, sizes) && NoneBetween(l, m, ts)
    ensures Work(l, ts).order <= Work(m, us).order
    ensures Valid(l, Work(l, ts)) && Valid(m, Work(m, us))
    ensures SizedBy(Work(l, ts), sizes) && SizedBy(Work(m, us), sizes)
  {
    if ts != [] {
      hide *;
      var n := |ts| - 1;
      LastTouches(l, m, ts, us, sizes);
      Inclusion(l, m, ts[..n], us[..n], sizes);
      InclusionStep(l, m, Work(l, ts[..n]), Work(m, us[..n]), ts[n], us[n], sizes);
    }
  }

  lemma LastTouches(l: Limits, m: Limits, ts: seq<Touch>, us: seq<Touch>, sizes: string -> nat)
    requires ts != [] && SameKeys(ts, us, sizes) && NoneBetween(l, m, ts)
    ensures |us| == |ts|
    ensures
      var n := |ts| - 1;
      && SameKeys(ts[..n], us[..n], sizes) && NoneBetween(l, m, ts[..n])
      && Work(l, ts) == Access(l, Work(l, ts[..n]), ts[n]) && Work(m, us) == Access(m, Work(m, us[..n]), us[n])
      && ts[n].key == us[n].key && |ts[n].data| == |us[n].data| == sizes(ts[n].key) && !Between(l, m, |ts[n].data|)
  {
    hide Access;
  }

  lemma SizesAgree(l: Limits, m: Limits, c: Cache, d: Cache, sizes: string -> nat)
    requires Valid(l, c) && Valid(m, d) && SizedBy(c, sizes) && SizedBy(d, sizes) && c.order <= d.order
    ensures forall k :: k in c.order ==> SizeOf(c.entries, k) == SizeOf(d.entries, k)
  {
    forall k | k in c.order ensures k in d.order {
      var i :| 0 <= i < |c.order| && c.order[i] == k;
      assert d.order[i] == k;
    }
  }

  lemma OnlyErases(l: Limits, c: Cache, key: string)
    requires Valid(l, c)
    ensures forall k :: k in Without(c.order, key) ==> k in c.order
  {
    WithoutErases(c.order, key);
  }

  lemma IgnoresCounters(l: Limits, c: Cache)
    requires Valid(l, c)
    ensures Valid(l, c.(misses := c.misses + 1))
  {
  }

  lemma InclusionStep(
    l: Limits, m: Limits, c: Cache, d: Cache, t: Touch, u: Touch, sizes: string -> nat)
    requires l.maxSize <= m.maxSize && t.key == u.key && |t.data| == |u.data| == sizes(t.key)
    requires !Between(l, m, |t.data|)
    requires Valid(l, c) && Valid(m, d) && SizedBy(c, sizes) && SizedBy(d, sizes)
    requires c.order <= d.order
    ensures Access(l, c, t).order <= Access(m, d, u).order
    ensures Valid(l, Access(l, c, t)) && Valid(m, Access(m, d, u))
    ensures SizedBy(Access(l, c, t), sizes) && SizedBy(Access(m, d, u), sizes)
  {
    hide Valid, LongestFit, Access, Without;
    AccessKeepsSizes(l, c, t, sizes);
    AccessKeepsSizes(m, d, u, sizes);
    if |t.data| > l.maxSize {
      OversizedAccess(l, c, t, sizes);
      OversizedAccess(m, d, u, sizes);
      IgnoresCounters(l, c);
      IgnoresCounters(m, d);
      return;
    }
    var i := AccessKeepsLongestFit(l, c, t, sizes);
    var j := AccessKeepsLongestFit(m, d, u, sizes);
    var small, large := Without(c.order, t.key), Without(d.order, t.key);
    WithoutKeepsPrefix(c.order, d.order, t.key);
    OnlyErases(l, c, t.key);
    SizesAgree(l, m, c, d, sizes);
    FitIsMonotone(small, large, c.entries, d.entries, l.maxSize - |t.data|, m.maxSize - |t.data|, i, j);
  }

  lemma WorkIsValid(l: Limits, ts: seq<Touch>, sizes: string -> nat)
    requires SameKeys(ts, ts, sizes)
    ensures Valid(l, Work(l, ts)) && SizedBy(Work(l, ts), sizes)
  {
    Inclusion(l, l, ts, ts, sizes);
  }

  lemma WorkLast(l: Limits, ts: seq<Touch>, t: Touch)
    ensures Work(l, ts + [t]) == Access(l, Work(l, ts), t)
  {
    assert (ts + [t])[..|ts|] == ts;
  }

  // ---------------------------------------------------------------------------------------------
  // Which sizes the stack property needs
  // ---------------------------------------------------------------------------------------------

  /** A file with the given size, asked for at instant zero. */
  function TouchOf(key: string, sizes: string -> nat): Touch {
    Touch(key, seq(sizes(key), _ => 'x'), "", 0.0, 0.0)
  }

  lemma {:induction false} NothingFits(l: Limits, ts: seq<Touch>, sizes: string -> nat)
    requires SameKeys(ts, ts, sizes) && forall k :: sizes(k) > l.maxSize
    ensures Work(l, ts).order == []
  {
    if ts != [] {
      var past := ts[..|ts| - 1];
      NothingFits(l, past, sizes);
      WorkIsValid(l, past, sizes);
      OversizedAccess(l, Work(l, past), ts[|ts| - 1], sizes);
    }
  }

  /** The key asked for last is in front, if it fits. */
  lemma LastInFront(l: Limits, ts: seq<Touch>, t: Touch, sizes: string -> nat)
    requires SameKeys(ts, ts, sizes) && |t.data| == sizes(t.key) <= l.maxSize
    ensures Work(l, ts + [t]).order != [] && Work(l, ts + [t]).order[0] == t.key
  {
    WorkIsValid(l, ts, sizes);
    WorkLast(l, ts, t);
    var n := AccessKeepsLongestFit(l, Work(l, ts), t, sizes);
  }

  ghost predicate CreatedAtZero(c: Cache) {
    forall k :: k in c.entries ==> c.entries[k].created == 0.0
  }

  lemma WithoutNothing(key: string)
    ensures Without([], key) == []
  {
  }

  lemma WithoutOther(a: string, key: string)
    requires a != key
    ensures Without([a], key) == [a]
  {
  }

  /** A first file that fits is stored. */
  lemma FirstFile(l: Limits, p: string, sizes: string -> nat)
    requires sizes(p) <= l.maxSize
    ensures
      var c := Work(l, [] + [TouchOf(p, sizes)]);
      Valid(l, c) && SizedBy(c, sizes) && c.order == [p] && CreatedAtZero(c) && c.hits == 0
  {
    var t := TouchOf(p, sizes);
    WorkIsValid(l, [], sizes);
    WorkIsValid(l, [] + [t], sizes);
    WorkLast(l, [], t);
    AccessEntries(l, EMPTY, t);
    AccessCounts(l, EMPTY, t);
    WithoutNothing(p);
    hide Valid, SizedBy, Access, LongestFit, Without;
    var n := AccessKeepsLongestFit(l, EMPTY, t, sizes);
  }

  lemma OneFits(order: seq<string>, a: string, entries: map<string, Entry>, budget: int, n: nat)
    requires order == [a] && budget >= 0 && LongestFit(order, entries, budget, n)
    ensures n == if SizeOf(entries, a) <= budget then 1 else 0
  {
    assert order[..0] == [] && order[..1] == [a];
    assert Total([a], entries) == SizeOf(entries, a);
    assert Total(order[..1], entries) <= budget <==> 1 <= n;
  }

  /** A second file is stored in front of the first, which stays if there is room for both. */
  lemma SecondFile(l: Limits, c: Cache, p: string, q: string, sizes: string -> nat)
    requires p != q && sizes(q) <= l.maxSize && Valid(l, c) && SizedBy(c, sizes) && c.order == [p] && CreatedAtZero(c)
    ensures
      var d := Access(l, c, TouchOf(q, sizes));
      && Valid(l, d) && d.order == (if sizes(p) + sizes(q) <= l.maxSize then [q, p] else [q])
      && CreatedAtZero(d) && d.hits == c.hits
  {
    var t := TouchOf(q, sizes);
    OrderIsKeys(l, c, p);
    OrderIsKeys(l, c, q);
    assert p in c.order && SizeOf(c.entries, p) == sizes(p);
    AccessEntries(l, c, t);
    AccessCounts(l, c, t);
    WithoutOther(p, q);
    hide Valid, Access, LongestFit, Without, SizeOf;
    var n := AccessKeepsLongestFit(l, c, t, sizes);
    OneFits(c.order, p, c.entries, l.maxSize - sizes(q), n);
    assert [p][..0] == [] && [p][..1] == [p];
  }

  lemma TwoFiles(l: Limits, p: string, q: string, sizes: string -> nat)
    requires p != q && sizes(p) <= l.maxSize && sizes(q) <= l.maxSize
    ensures
      var c := Work(l, [] + [TouchOf(p, sizes)] + [TouchOf(q, sizes)]);
      && Valid(l, c) && c.order == (if sizes(p) + sizes(q) <= l.maxSize then [q, p] else [q])
      && CreatedAtZero(c) && c.hits == 0
  {
    hide *;
    FirstFile(l, p, sizes);
    SecondFile(l, Work(l, [] + [TouchOf(p, sizes)]), p, q, sizes);
    WorkLast(l, [] + [TouchOf(p, sizes)], TouchOf(q, sizes));
  }

  /** A file `p` for both caches and then a file `q` for the larger only. */
  lemma BigFileBreaksInclusion(l: Limits, m: Limits, sizes: string -> nat, p: string, q: string)
    requires sizes(p) <= l.maxSize && Between(l, m, sizes(q))
    ensures
      var ts := [] + [TouchOf(p, sizes)] + [TouchOf(q, sizes)];
      SameKeys(ts, ts, sizes) && !(Work(l, ts).order <= Work(m, ts).order)
  {
    var first, second := TouchOf(p, sizes), TouchOf(q, sizes);
    var one := [] + [first];
    assert SameKeys(one, one, sizes) && SameKeys(one + [second], one + [second], sizes);
    assert second.key == q && |second.data| == sizes(q) && l.maxSize < sizes(q) <= m.maxSize;
    hide *;
    FirstFile(l, p, sizes);
    OversizedAccess(l, Work(l, one), second, sizes);
    WorkLast(l, one, second);
    LastInFront(m, one, second, sizes);
    FrontsDiffer(Work(l, one + [second]).order, Work(m, one + [second]).order);
  }

  /** The stack property for all workloads over files of given sizes. */
  ghost predicate AlwaysIncluded(l: Limits, m: Limits, sizes: string -> nat) {
    forall ts, us :: SameKeys(ts, us, sizes) ==> Work(l, ts).order <= Work(m, us).order
  }

  lemma IncludedIfNoneBetween(l: Limits, m: Limits, sizes: string -> nat)
    requires l.maxSize <= m.maxSize && forall k :: !Between(l, m, sizes(k))
    ensures AlwaysIncluded(l, m, sizes)
  {
    forall ts, us | SameKeys(ts, us, sizes) ensures Work(l, ts).order <= Work(m, us).order {
      assert NoneBetween(l, m, ts);
      hide SameKeys, NoneBetween, Work;
      Inclusion(l, m, ts, us, sizes);
    }
  }

  lemma IncludedIfNothingFits(l: Limits, m: Limits, sizes: string -> nat)
    requires forall k :: sizes(k) > l.maxSize
    ensures AlwaysIncluded(l, m, sizes)
  {
    forall ts, us | SameKeys(ts, us, sizes) ensures Work(l, ts).order <= Work(m, us).order {
      NothingFits(l, ts, sizes);
    }
  }

  lemma NotAlwaysIncluded(l: Limits, m: Limits, ts: seq<Touch>, sizes: string -> nat)
    requires SameKeys(ts, ts, sizes) && !(Work(l, ts).order <= Work(m, ts).order)
    ensures !AlwaysIncluded(l, m, sizes)
  {
    hide SameKeys, Work;
  }

  /** It holds iff none of the sizes fits the larger budget only, or none fits the smaller. */
  lemma InclusionIffNoneBetween(l: Limits, m: Limits, sizes: string -> nat)
    requires l.maxSize <= m.maxSize
    ensures AlwaysIncluded(l, m, sizes) <==>
            (forall k :: !Between(l, m, sizes(k))) || (forall k :: sizes(k) > l.maxSize)
  {
    hide AlwaysIncluded, SameKeys, Work, TouchOf, Between;
    if forall k :: !Between(l, m, sizes(k)) {
      IncludedIfNoneBetween(l, m, sizes);
    } else if forall k :: sizes(k) > l.maxSize {
      IncludedIfNothingFits(l, m, sizes);
    } else {
      var p, q :| sizes(p) <= l.maxSize && Between(l, m, sizes(q));
      BigFileBreaksInclusion(l, m, sizes, p, q);
      NotAlwaysIncluded(l, m, [] + [TouchOf(p, sizes)] + [TouchOf(q, sizes)], sizes);
    }
  }

  // ---------------------------------------------------------------------------------------------
  // Accesses that overlap
  // ---------------------------------------------------------------------------------------------

  function Fill(l: Limits, c: Cache, t: Touch, hit: Option<Entry>): Cache {
    if hit.Some? then c else Put(l, c, t.key, t.data, t.contentType, t.atPut)
  }

  /**
   Two workers whose accesses overlap: `u` looks up between the lookup of `t` and its put.  The put of
   `u`, if it has one, comes first or last.
   */
  function Overlap(l: Limits, c: Cache, t: Touch, u: Touch, uFirst: bool): Cache {
    var (c1, hitT) := Get(l, c, t.key, t.atGet);
    var (c2, hitU) := Get(l, c1, u.key, u.atGet);
    if uFirst then Fill(l, Fill(l, c2, u, hitU), t, hitT) else Fill(l, Fill(l, c2, t, hitT), u, hitU)
  }

  /** Accesses one after another, and then two that overlap. */
  function EndingInOverlap(l: Limits, ts: seq<Touch>, t: Touch, u: Touch, uFirst: bool): Cache {
    Overlap(l, Work(l, ts), t, u, uFirst)
  }

  /** In front of what fits of the other keys. */
  ghost predicate InFront(l: Limits, c: Cache, size: nat, key: string, order: seq<string>) {
    exists n: nat ::
      && n <= |Without(c.order, key)| && LongestFit(Without(c.order, key), c.entries, l.maxSize - size, n)
      && order == [key] + Without(c.order, key)[..n]
  }

  /** `d` differs from `c` in what it does with `key` only. */
  ghost predicate SameOthers(l: Limits, c: Cache, d: Cache, key: string) {
    && Valid(l, d) && Without(d.order, key) == Without(c.order, key)
    && forall k :: k in Without(c.order, key) ==> SizeOf(d.entries, k) == SizeOf(c.entries, k)
  }

  lemma GetSameOthers(l: Limits, c: Cache, d: Cache, key: string, now: real)
    requires Valid(l, c) && SameOthers(l, c, d, key)
    ensures SameOthers(l, c, Get(l, d, key, now).0, key)
  {
    GetKeepsValid(l, d, key, now);
    if Get(l, d, key, now).1.None? {
      MissKeepsOthers(l, d, key, now);
    } else {
      HitSameOthers(l, d, key, now);
    }
    hide Valid, Without, Get;
  }

  lemma HitSameOthers(l: Limits, d: Cache, key: string, now: real)
    requires Valid(l, d) && Get(l, d, key, now).1.Some?
    ensures Without(Get(l, d, key, now).0.order, key) == Without(d.order, key)
    ensures forall k :: k in Without(d.order, key) ==> SizeOf(d.entries, k) == SizeOf(Get(l, d, key, now).0.entries, k)
  {
    WithoutErases(d.order, key);
    hide Valid, Fresh;
    assert ([key] + Without(d.order, key))[1..] == Without(d.order, key);
  }

  lemma PutInFront(l: Limits, c: Cache, d: Cache, t: Touch)
    requires Valid(l, c) && SameOthers(l, c, d, t.key) && |t.data| <= l.maxSize
    ensures
      var d1 := Fill(l, d, t, None);
      && InFront(l, c, |t.data|, t.key, d1.order) && Valid(l, d1)
      && forall k :: k in d1.order && k != t.key ==> SizeOf(d1.entries, k) == SizeOf(c.entries, k)
  {
    var others := Without(c.order, t.key);
    var n := PutKeepsLongestFit(l, d, t.key, t.data, t.contentType, t.atPut);
    PutStores(l, d, t.key, t.data, t.contentType, t.atPut);
    hide Put, Without, Valid;
    FitAgrees(others, c.entries, d.entries, l.maxSize - |t.data|, n);
    var d1 := Fill(l, d, t, None);
    assert d1.order == [t.key] + others[..n];
    forall k | k in d1.order && k != t.key ensures SizeOf(d1.entries, k) == SizeOf(c.entries, k) {
      assert k in others;
      OrderIsKeys(l, d1, k);
    }
  }

  lemma OrderIsKeys(l: Limits, c: Cache, k: string)
    requires Valid(l, c)
    ensures k in c.order <==> k in c.entries
  {
  }

  lemma WithoutFirst(key: string, rest: seq<string>)
    requires key !in rest
    ensures Without([key] + rest, key) == rest
  {
    assert ([key] + rest)[1..] == rest;
  }

  lemma FitIsUnique(order: seq<string>, entries: map<string, Entry>, budget: int, i: nat, j: nat)
    requires LongestFit(order, entries, budget, i) && LongestFit(order, entries, budget, j)
    ensures i == j
  {
    assert Total(order[..i], entries) <= budget && Total(order[..j], entries) <= budget;
  }

  lemma FittingPrefix(l: Limits, c: Cache, key: string, budget: int, n: nat)
    requires Valid(l, c) && LongestFit(Without(c.order, key), c.entries, budget, n)
    ensures n <= |Without(c.order, key)| && Total(Without(c.order, key)[..n], c.entries) <= budget
    ensures key !in Without(c.order, key)[..n]
  {
    WithoutErases(c.order, key);
  }

  /** A second put of the same size under the same key leaves the list as it is. */
  lemma RePutInFront(l: Limits, c: Cache, d: Cache, t: Touch)
    requires Valid(l, c) && Valid(l, d) && |t.data| <= l.maxSize && InFront(l, c, |t.data|, t.key, d.order)
    requires forall k :: k in d.order && k != t.key ==> SizeOf(d.entries, k) == SizeOf(c.entries, k)
    ensures Fill(l, d, t, None).order == d.order
  {
    hide Valid, Put, Without, Total, SizeOf, LongestFit;
    var others, budget := Without(c.order, t.key), l.maxSize - |t.data|;
    var n: nat :| n <= |others| && LongestFit(others, c.entries, budget, n) && d.order == [t.key] + others[..n];
    FittingPrefix(l, c, t.key, budget, n);
    var kept := others[..n];
    WithoutFirst(t.key, kept);
    forall k | k in kept ensures SizeOf(c.entries, k) == SizeOf(d.entries, k) {
      assert k in d.order;
    }
    TotalAgrees(kept, c.entries, d.entries);
    AllFit(kept, d.entries, budget);
    var i := PutKeepsLongestFit(l, d, t.key, t.data, t.contentType, t.atPut);
    FitIsUnique(kept, d.entries, budget, i, |kept|);
    assert kept[..|kept|] == kept;
  }

  lemma TwoGets(l: Limits, c: Cache, key: string, first: real, second: real)
    requires Valid(l, c)
    ensures
      var (c1, hit1) := Get(l, c, key, first);
      var (c2, hit2) := Get(l, c1, key, second);
      && SameOthers(l, c, c2, key) && (hit1.None? ==> hit2.None?) && (hit1.Some? ==> key in c.entries)
      && (hit2.Some? ==> c2.order == [key] + Without(c.order, key))
  {
    hide Valid, Without, SizeOf, Get;
    var c1 := Get(l, c, key, first).0;
    GetSameOthers(l, c, c, key, first);
    GetSameOthers(l, c, c1, key, second);
    GetKey(l, c, key, first);
    GetKey(l, c1, key, second);
  }

  /** A lookup finds a key in front, or the key is not there afterwards. */
  lemma GetKey(l: Limits, c: Cache, key: string, now: real)
    ensures
      var (c1, hit) := Get(l, c, key, now);
      && (hit.Some? ==> key in c.entries && c1.order == [key] + Without(c.order, key))
      && (hit.None? ==> key !in c1.entries)
  {
    hide Without, Fresh;
  }

  lemma AllInFront(l: Limits, c: Cache, key: string, size: nat)
    requires Valid(l, c) && key in c.entries && SizeOf(c.entries, key) == size
    ensures InFront(l, c, size, key, [key] + Without(c.order, key))
  {
    HitKeepsOthers(l, c, key, size);
    var others := Without(c.order, key);
    hide Valid, Without, LongestFit;
    assert others[..|others|] == others;
  }

  lemma TwoPutsInFront(l: Limits, c: Cache, d: Cache, t: Touch, u: Touch)
    requires Valid(l, c) && SameOthers(l, c, d, t.key) && t.key == u.key && |t.data| == |u.data| <= l.maxSize
    ensures InFront(l, c, |t.data|, t.key, Fill(l, d, t, None).order)
    ensures InFront(l, c, |t.data|, t.key, Fill(l, Fill(l, d, t, None), u, None).order)
  {
    PutInFront(l, c, d, t);
    hide InFront, Valid, SameOthers, Fill, SizeOf;
    RePutInFront(l, c, Fill(l, d, t, None), u);
  }

  /** Overlapping accesses of one key leave it in front, like one access. */
  lemma SameKeyInFront(l: Limits, c: Cache, t: Touch, u: Touch, uFirst: bool, sizes: string -> nat)
    requires Valid(l, c) && SizedBy(c, sizes) && t.key == u.key
    requires |t.data| == |u.data| == sizes(t.key) <= l.maxSize
    ensures InFront(l, c, |t.data|, t.key, Overlap(l, c, t, u, uFirst).order)
  {
    hide Get, Valid, Without, InFront, SameOthers, Put;
    var key := t.key;
    var (c1, hitT) := Get(l, c, key, t.atGet);
    var (c2, hitU) := Get(l, c1, key, u.atGet);
    TwoGets(l, c, key, t.atGet, u.atGet);
    if hitU.Some? {
      AllInFront(l, c, key, |t.data|);
    } else {
      TwoPutsInFront(l, c, c2, t, u);
      TwoPutsInFront(l, c, c2, u, t);
    }
  }

  lemma OversizedOverlap(l: Limits, c: Cache, t: Touch, u: Touch, uFirst: bool, sizes: string -> nat)
    requires Valid(l, c) && SizedBy(c, sizes) && t.key == u.key
    requires |t.data| == |u.data| == sizes(t.key) > l.maxSize
    ensures Overlap(l, c, t, u, uFirst).order == c.order
  {
    OversizedAccess(l, c, t, sizes);
    hide Valid;
  }

  lemma InFrontKeepsPrefix(l: Limits, m: Limits, c: Cache, d: Cache, key: string, size: nat, sizes: string -> nat,
                           small: seq<string>, large: seq<string>)
    requires l.maxSize <= m.maxSize && c.order <= d.order
    requires Valid(l, c) && Valid(m, d) && SizedBy(c, sizes) && SizedBy(d, sizes)
    requires InFront(l, c, size, key, small) && InFront(m, d, size, key, large)
    ensures small <= large
  {
    hide Valid, LongestFit, Without;
    var i: nat :| i <= |Without(c.order, key)| && LongestFit(Without(c.order, key), c.entries, l.maxSize - size, i)
               && small == [key] + Without(c.order, key)[..i];
    var j: nat :| j <= |Without(d.order, key)| && LongestFit(Without(d.order, key), d.entries, m.maxSize - size, j)
               && large == [key] + Without(d.order, key)[..j];
    WithoutKeepsPrefix(c.order, d.order, key);
    OnlyErases(l, c, key);
    SizesAgree(l, m, c, d, sizes);
    FitIsMonotone(Without(c.order, key), Without(d.order, key), c.entries, d.entries, l.maxSize - size,
                  m.maxSize - size, i, j);
  }

  /** The same two overlapping accesses at the end of the same workload. */
  ghost predicate Alike(l: Limits, m: Limits, ts: seq<Touch>, us: seq<Touch>, t: Touch, t': Touch, u: Touch, u': Touch,
                        sizes: string -> nat) {
    && l.maxSize <= m.maxSize && SameKeys(ts, us, sizes) && NoneBetween(l, m, ts)
    && SameKeys([t, u], [t', u'], sizes) && NoneBetween(l, m, [t, u])
  }

  /** Two accesses, of `a` and of `x` meanwhile, keep the stack property whatever came before. */
  ghost predicate OverlapIsSafe(a: string, x: string, uFirst: bool) {
    forall l, m, ts, us, t, t', u, u', sizes ::
      Alike(l, m, ts, us, t, t', u, u', sizes) && t.key == a && u.key == x ==>
        EndingInOverlap(l, ts, t, u, uFirst).order <= EndingInOverlap(m, us, t', u', uFirst).order
  }

  lemma SameKeyIsSafe(a: string, uFirst: bool)
    ensures OverlapIsSafe(a, a, uFirst)
  {
    forall l, m, ts, us, t, t', u, u', sizes | Alike(l, m, ts, us, t, t', u, u', sizes) && t.key == a && u.key == a
      ensures EndingInOverlap(l, ts, t, u, uFirst).order <= EndingInOverlap(m, us, t', u', uFirst).order
    {
      SameKeyKeepsPrefix(l, m, ts, us, t, t', u, u', uFirst, sizes);
    }
  }

  lemma SameKeyKeepsPrefix(l: Limits, m: Limits, ts: seq<Touch>, us: seq<Touch>, t: Touch, t': Touch, u: Touch,
                           u': Touch, uFirst: bool, sizes: string -> nat)
    requires Alike(l, m, ts, us, t, t', u, u', sizes) && t.key == u.key
    ensures EndingInOverlap(l, ts, t, u, uFirst).order <= EndingInOverlap(m, us, t', u', uFirst).order
  {
    Inclusion(l, m, ts, us, sizes);
    PairSizes(l, m, t, t', u, u', sizes);
    hide Valid, SizedBy, InFront, Overlap, Work, SameKeys, NoneBetween;
    var c, d := Work(l, ts), Work(m, us);
    if |t.data| > l.maxSize {
      OversizedOverlap(l, c, t, u, uFirst, sizes);
      OversizedOverlap(m, d, t', u', uFirst, sizes);
    } else {
      SameKeyInFront(l, c, t, u, uFirst, sizes);
      SameKeyInFront(m, d, t', u', uFirst, sizes);
      InFrontKeepsPrefix(l, m, c, d, t.key, |t.data|, sizes, Overlap(l, c, t, u, uFirst).order,
                         Overlap(m, d, t', u', uFirst).order);
    }
  }

  lemma PairSizes(l: Limits, m: Limits, t: Touch, t': Touch, u: Touch, u': Touch, sizes: string -> nat)
    requires SameKeys([t, u], [t', u'], sizes) && NoneBetween(l, m, [t, u])
    ensures t.key == t'.key && |t.data| == |t'.data| == sizes(t.key) && !Between(l, m, |t.data|)
    ensures u.key == u'.key && |u.data| == |u'.data| == sizes(u.key)
  {
    assert [t, u][0] == t && [t', u'][0] == t' && [t, u][1] == u && [t', u'][1] == u';
  }

  /** The first key is not there and the second is: the first is filled in and ends in front. */
  lemma FilledInFront(l: Limits, c: Cache, t: Touch, u: Touch, uFirst: bool)
    requires Valid(l, c) && t.key !in c.entries && Hit(l, c, u) && |t.data| <= l.maxSize
    ensures
      var order := Overlap(l, c, t, u, uFirst).order;
      order != [] && order[0] == t.key
  {
    GetKeepsValid(l, c, t.key, t.atGet);
    var c1 := Get(l, c, t.key, t.atGet).0;
    GetKeepsValid(l, c1, u.key, u.atGet);
    var c2 := Get(l, c1, u.key, u.atGet).0;
    hide Valid, Fresh, Without, Put;
    var n := PutKeepsLongestFit(l, c2, t.key, t.data, t.contentType, t.atPut);
  }

  /** Both are there: the second ends in front. */
  lemma FoundInFront(l: Limits, c: Cache, t: Touch, u: Touch, uFirst: bool)
    requires Hit(l, c, t) && Hit(l, c, u) && t.key != u.key
    ensures
      var order := Overlap(l, c, t, u, uFirst).order;
      order != [] && order[0] == u.key
  {
    hide Fresh, Without, Put;
  }

  function One(key: string): nat {
    1
  }

  lemma SmallOverlap(l: Limits, a: string, x: string, uFirst: bool)
    requires a != x && l == Limits(1, 0)
    ensures
      var t, u := TouchOf(a, One), TouchOf(x, One);
      var order := EndingInOverlap(l, [] + [t] + [u], t, u, uFirst).order;
      order != [] && order[0] == a
  {
    var t, u := TouchOf(a, One), TouchOf(x, One);
    TwoFiles(l, a, x, One);
    var c := Work(l, [] + [t] + [u]);
    OrderIsKeys(l, c, a);
    OrderIsKeys(l, c, x);
    hide Valid, Work, Overlap;
    FilledInFront(l, c, t, u, uFirst);
  }

  lemma LargeOverlap(m: Limits, a: string, x: string, uFirst: bool)
    requires a != x && m == Limits(2, 0)
    ensures
      var t, u := TouchOf(a, One), TouchOf(x, One);
      var order := EndingInOverlap(m, [] + [t] + [u], t, u, uFirst).order;
      order != [] && order[0] == x
  {
    var t, u := TouchOf(a, One), TouchOf(x, One);
    TwoFiles(m, a, x, One);
    var d := Work(m, [] + [t] + [u]);
    assert d.order[0] == x && d.order[1] == a;
    OrderIsKeys(m, d, a);
    OrderIsKeys(m, d, x);
    hide Valid, Work, Overlap;
    FoundInFront(m, d, t, u, uFirst);
  }

  lemma OnesAreAlike(l: Limits, m: Limits, t: Touch, u: Touch)
    requires l == Limits(1, 0) && m == Limits(2, 0) && |t.data| == 1 && |u.data| == 1
    ensures Alike(l, m, [] + [t] + [u], [] + [t] + [u], t, t, u, u, One)
  {
  }

  /** Memory for one file and for two: the smaller cache misses the first and fills it in last, the larger has both. */
  lemma DifferentKeysAreUnsafe(a: string, x: string, uFirst: bool)
    requires a != x
    ensures !OverlapIsSafe(a, x, uFirst)
  {
    var l, m := Limits(1, 0), Limits(2, 0);
    var t, u := TouchOf(a, One), TouchOf(x, One);
    assert t.key == a && u.key == x && |t.data| == 1 && |u.data| == 1;
    hide *;
    SmallOverlap(l, a, x, uFirst);
    LargeOverlap(m, a, x, uFirst);
    OnesAreAlike(l, m, t, u);
    var ts := [] + [t] + [u];
    FrontsDiffer(EndingInOverlap(l, ts, t, u, uFirst).order, EndingInOverlap(m, ts, t, u, uFirst).order);
    IsUnsafe(l, m, ts, t, u, uFirst, One);
  }

  lemma FrontsDiffer(a: seq<string>, b: seq<string>)
    requires a != [] && b != [] && a[0] != b[0]
    ensures !(a <= b)
  {
  }

  lemma IsUnsafe(l: Limits, m: Limits, ts: seq<Touch>, t: Touch, u: Touch, uFirst: bool, sizes: string -> nat)
    requires Alike(l, m, ts, ts, t, t, u, u, sizes)
    requires !(EndingInOverlap(l, ts, t, u, uFirst).order <= EndingInOverlap(m, ts, t, u, uFirst).order)
    ensures !OverlapIsSafe(t.key, u.key, uFirst)
  {
    hide Alike, EndingInOverlap;
  }

  /** Two overlapping accesses keep the stack property, after any workload, iff they ask for the same key. */
  lemma OverlapIsSafeIffSameKey(a: string, x: string, uFirst: bool)
    ensures OverlapIsSafe(a, x, uFirst) <==> a == x
  {
    hide OverlapIsSafe;
    if a == x {
      SameKeyIsSafe(a, uFirst);
    } else {
      DifferentKeysAreUnsafe(a, x, uFirst);
    }
  }

  // ---------------------------------------------------------------------------------------------
  // Hits
  // ---------------------------------------------------------------------------------------------

  predicate Hit(l: Limits, c: Cache, t: Touch) {
    t.key in c.entries && Fresh(l, c.entries[t.key], t.atGet)
  }

  lemma AccessCounts(l: Limits, c: Cache, t: Touch)
    ensures Access(l, c, t).hits == c.hits + if Hit(l, c, t) then 1 else 0
  {
    hide Fresh;
    if !Hit(l, c, t) && |t.data| <= l.maxSize {
      PutStores(l, Get(l, c, t.key, t.atGet).0, t.key, t.data, t.contentType, t.atPut);
    }
  }

  /** A hit leaves the entry's age, a miss makes it new; other entries are untouched or evicted. */
  lemma AccessEntries(l: Limits, c: Cache, t: Touch)
    requires |t.data| <= l.maxSize
    ensures t.key in Access(l, c, t).entries
    ensures Access(l, c, t).entries[t.key].created == if Hit(l, c, t) then c.entries[t.key].created else t.atPut
    ensures forall k :: k in Access(l, c, t).entries && k != t.key ==>
              k in c.entries && Access(l, c, t).entries[k] == c.entries[k]
  {
    hide Fresh, Put;
    if !Hit(l, c, t) {
      PutStores(l, Get(l, c, t.key, t.atGet).0, t.key, t.data, t.contentType, t.atPut);
    }
  }

  /** Both workloads run on one clock, which never goes back. */
  ghost predicate SameClock(ts: seq<Touch>, us: seq<Touch>) {
    && |ts| == |us|
    && (forall i :: 0 <= i < |ts| ==> ts[i].atGet == us[i].atGet <= ts[i].atPut == us[i].atPut)
    && (forall i :: 0 < i < |ts| ==> ts[i - 1].atPut <= ts[i].atGet)
  }

  ghost predicate CreatedBy(c: Cache, now: real) {
    forall k :: k in c.entries ==> c.entries[k].created <= now
  }

  /** The keys whose entry is older in the larger cache `d`: there it expires first. */
  ghost function Behind(c: Cache, d: Cache): set<string> {
    set k | k in c.entries && k in d.entries && d.entries[k].created < c.entries[k].created
  }

  lemma Subset(a: set<string>, b: set<string>)
    requires a <= b
    ensures |a| <= |b|
  {
    assert b == a + (b - a);
  }

  /** A hit in the smaller cache alone: the entry was behind. */
  lemma LoneHitWasBehind(l: Limits, m: Limits, c: Cache, d: Cache, t: Touch, u: Touch)
    requires l.ttl <= m.ttl && t.key == u.key && t.atGet == u.atGet
    requires Hit(l, c, t) && !Hit(m, d, u) && t.key in d.entries
    ensures t.key in Behind(c, d)
  {
    var older, newer := t.atGet - d.entries[t.key].created, t.atGet - c.entries[t.key].created;
    if older <= newer {
      WholeSecondsGrow(older, newer);
    }
  }

  /** An access moves only its own key in or out. */
  lemma BehindElsewhere(l: Limits, m: Limits, c: Cache, d: Cache, t: Touch, u: Touch)
    requires t.key == u.key && |t.data| <= l.maxSize && |u.data| <= m.maxSize
    ensures Behind(Access(l, c, t), Access(m, d, u)) <= Behind(c, d) + {t.key}
  {
    AccessEntries(l, c, t);
    AccessEntries(m, d, u);
    hide Access, Hit;
  }

  /** It moves in at most when the larger cache alone has a hit, and out when the smaller alone has one. */
  lemma BehindHere(l: Limits, m: Limits, c: Cache, d: Cache, t: Touch, u: Touch)
    requires t.key == u.key && |t.data| <= l.maxSize && |u.data| <= m.maxSize
    requires t.atGet <= t.atPut == u.atPut && CreatedBy(c, t.atGet)
    ensures
      var here, hitC, hitD := t.key in Behind(Access(l, c, t), Access(m, d, u)), Hit(l, c, t), Hit(m, d, u);
      (hitC == hitD ==> (here ==> t.key in Behind(c, d))) && (hitC && !hitD ==> !here)
  {
    AccessEntries(l, c, t);
    AccessEntries(m, d, u);
    assert Hit(l, c, t) ==> t.key in c.entries;
    assert Hit(m, d, u) ==> t.key in d.entries;
    hide Access, Hit;
  }

  lemma StaysCreatedBy(l: Limits, c: Cache, t: Touch)
    requires |t.data| <= l.maxSize && t.atGet <= t.atPut && CreatedBy(c, t.atGet)
    ensures CreatedBy(Access(l, c, t), t.atPut)
  {
    AccessEntries(l, c, t);
    assert Hit(l, c, t) ==> t.key in c.entries;
    hide Access, Hit;
  }

  /** The larger cache's lead in hits covers the keys that are behind. */
  lemma BehindStep(l: Limits, m: Limits, c: Cache, d: Cache, t: Touch, u: Touch)
    requires l.ttl <= m.ttl && t.key == u.key && t.atGet == u.atGet <= t.atPut == u.atPut
    requires |t.data| <= l.maxSize && |u.data| <= m.maxSize
    requires CreatedBy(c, t.atGet) && CreatedBy(d, t.atGet) && (t.key in c.entries ==> t.key in d.entries)
    ensures
      var c1, d1 := Access(l, c, t), Access(m, d, u);
      && |Behind(c1, d1)| + c1.hits - d1.hits <= |Behind(c, d)| + c.hits - d.hits
      && CreatedBy(c1, t.atPut) && CreatedBy(d1, t.atPut)
  {
    StaysCreatedBy(l, c, t);
    StaysCreatedBy(m, d, u);
    AccessCounts(l, c, t);
    AccessCounts(m, d, u);
    BehindElsewhere(l, m, c, d, t, u);
    BehindHere(l, m, c, d, t, u);
    assert Hit(l, c, t) ==> t.key in c.entries;
    if Hit(l, c, t) && !Hit(m, d, u) {
      LoneHitWasBehind(l, m, c, d, t, u);
    }
    hide *;
    var before, after := Behind(c, d), Behind(Access(l, c, t), Access(m, d, u));
    if Hit(l, c, t) && !Hit(m, d, u) {
      Subset(after, before - {t.key});
    } else if Hit(m, d, u) && !Hit(l, c, t) {
      Subset(after, before + {t.key});
    } else {
      Subset(after, before);
    }
  }

  lemma SmallerIsInLarger(l: Limits, m: Limits, c: Cache, d: Cache, key: string)
    requires Valid(l, c) && Valid(m, d) && c.order <= d.order && key in c.entries
    ensures key in d.entries
  {
    var i :| 0 <= i < |c.order| && c.order[i] == key;
    assert d.order[i] == key;
  }

  /**
   More memory and at least as long a time to live never cost a hit: on one clock, for every workload,
   whatever expires and is evicted.
   */
  lemma {:induction false} MoreMemoryNeverLosesHits(
    l: Limits, m: Limits, ts: seq<Touch>, us: seq<Touch>, sizes: string -> nat)
    requires l.maxSize <= m.maxSize && l.ttl <= m.ttl && SameKeys(ts, us, sizes) && NoneBetween(l, m, ts)
    requires SameClock(ts, us)
    ensures |Behind(Work(l, ts), Work(m, us))| + Work(l, ts).hits <= Work(m, us).hits
    ensures ts != [] ==> CreatedBy(Work(l, ts), ts[|ts| - 1].atPut) && CreatedBy(Work(m, us), ts[|ts| - 1].atPut)
  {
    if ts == [] {
      assert Behind(Work(l, ts), Work(m, us)) == {};
    } else {
      var n := |ts| - 1;
      LastTimes(ts, us);
      assert n == 0 ==> CreatedBy(Work(l, ts[..n]), ts[n].atGet) && CreatedBy(Work(m, us[..n]), ts[n].atGet);
      hide *;
      LastTouches(l, m, ts, us, sizes);
      MoreMemoryNeverLosesHits(l, m, ts[..n], us[..n], sizes);
      if n > 0 {
        CreatedLater(Work(l, ts[..n]), ts[n - 1].atPut, ts[n].atGet);
        CreatedLater(Work(m, us[..n]), ts[n - 1].atPut, ts[n].atGet);
      }
      Inclusion(l, m, ts[..n], us[..n], sizes);
      HitsStep(l, m, Work(l, ts[..n]), Work(m, us[..n]), ts[n], us[n], sizes);
    }
  }

  lemma LastTimes(ts: seq<Touch>, us: seq<Touch>)
    requires ts != [] && SameClock(ts, us)
    ensures |us| == |ts|
    ensures
      var n := |ts| - 1;
      && SameClock(ts[..n], us[..n]) && ts[n].atGet == us[n].atGet <= ts[n].atPut == us[n].atPut
      && (n > 0 ==> ts[n - 1].atPut <= ts[n].atGet)
  {
  }

  lemma CreatedLater(c: Cache, now: real, later: real)
    requires CreatedBy(c, now) && now <= later
    ensures CreatedBy(c, later)
  {
  }

  lemma HitsStep(l: Limits, m: Limits, c: Cache, d: Cache, t: Touch, u: Touch, sizes: string -> nat)
    requires l.maxSize <= m.maxSize && l.ttl <= m.ttl && !Between(l, m, |t.data|)
    requires t.key == u.key && |t.data| == |u.data| == sizes(t.key) && t.atGet == u.atGet <= t.atPut == u.atPut
    requires Valid(l, c) && Valid(m, d) && SizedBy(c, sizes) && SizedBy(d, sizes) && c.order <= d.order
    requires CreatedBy(c, t.atGet) && CreatedBy(d, t.atGet)
    ensures
      var c1, d1 := Access(l, c, t), Access(m, d, u);
      && |Behind(c1, d1)| + c1.hits - d1.hits <= |Behind(c, d)| + c.hits - d.hits
      && CreatedBy(c1, t.atPut) && CreatedBy(d1, t.atPut)
  {
    hide Access, Valid;
    if |t.data| > l.maxSize {
      OversizedAccess(l, c, t, sizes);
      OversizedAccess(m, d, u, sizes);
      assert Behind(c.(misses := c.misses + 1), d.(misses := d.misses + 1)) == Behind(c, d);
    } else {
      if t.key in c.entries {
        SmallerIsInLarger(l, m, c, d, t.key);
      }
      BehindStep(l, m, c, d, t, u);
    }
  }

  /** No lookup of the workload finds an expired entry. */
  ghost predicate NoneFoundExpired(l: Limits, ts: seq<Touch>) {
    forall i :: 0 <= i < |ts| && ts[i].key in Work(l, ts[..i]).entries ==> Hit(l, Work(l, ts[..i]), ts[i])
  }

  lemma NoneFoundExpiredBefore(l: Limits, ts: seq<Touch>)
    requires ts != [] && NoneFoundExpired(l, ts)
    ensures NoneFoundExpired(l, ts[..|ts| - 1])
    ensures
      var n := |ts| - 1;
      ts[n].key in Work(l, ts[..n]).entries ==> Hit(l, Work(l, ts[..n]), ts[n])
  {
    var past := ts[..|ts| - 1];
    forall i | 0 <= i < |past| ensures past[..i] == ts[..i] {
    }
    hide Work, Hit;
  }

  /** With clocks of their own, the larger cache has at least as many hits if neither lookup finds an expired entry. */
  lemma {:induction false} UnexpiredNeverLosesHits(
    l: Limits, m: Limits, ts: seq<Touch>, us: seq<Touch>, sizes: string -> nat)
    requires l.maxSize <= m.maxSize && SameKeys(ts, us, sizes) && NoneBetween(l, m, ts)
    requires NoneFoundExpired(m, us)
    ensures Work(l, ts).hits <= Work(m, us).hits
  {
    if ts != [] {
      var n := |ts| - 1;
      hide *;
      LastTouches(l, m, ts, us, sizes);
      NoneFoundExpiredBefore(m, us);
      UnexpiredNeverLosesHits(l, m, ts[..n], us[..n], sizes);
      Inclusion(l, m, ts[..n], us[..n], sizes);
      UnexpiredStep(l, m, Work(l, ts[..n]), Work(m, us[..n]), ts[n], us[n]);
    }
  }

  lemma UnexpiredStep(l: Limits, m: Limits, c: Cache, d: Cache, t: Touch, u: Touch)
    requires Valid(l, c) && Valid(m, d) && c.order <= d.order && t.key == u.key
    requires u.key in d.entries ==> Hit(m, d, u)
    ensures Access(l, c, t).hits - Access(m, d, u).hits <= c.hits - d.hits
  {
    AccessCounts(l, c, t);
    AccessCounts(m, d, u);
    if t.key in c.entries {
      SmallerIsInLarger(l, m, c, d, t.key);
    }
    hide Access, Valid;
  }

  // ---------------------------------------------------------------------------------------------
  // What the comparison of hits needs
  // ---------------------------------------------------------------------------------------------

  /** On one clock, with files that fit both, the larger cache never has fewer hits. */
  ghost predicate AlwaysMoreHits(l: Limits, m: Limits) {
    forall ts: seq<Touch>, sizes: string -> nat ::
      SameKeys(ts, ts, sizes) && SameClock(ts, ts) && (forall i :: 0 <= i < |ts| ==> |ts[i].data| <= l.maxSize) ==>
        Work(l, ts).hits <= Work(m, ts).hits
  }

  /** With a negative time to live nothing is ever fresh. */
  lemma {:induction false} NothingIsFresh(l: Limits, ts: seq<Touch>)
    requires l.ttl < 0 && SameClock(ts, ts) && forall i :: 0 <= i < |ts| ==> |ts[i].data| <= l.maxSize
    ensures Work(l, ts).hits == 0
    ensures ts != [] ==> CreatedBy(Work(l, ts), ts[|ts| - 1].atPut)
  {
    if ts != [] {
      var n := |ts| - 1;
      NothingIsFresh(l, ts[..n]);
      var c := Work(l, ts[..n]);
      assert CreatedBy(c, ts[n].atGet);
      AccessCounts(l, c, ts[n]);
      StaysCreatedBy(l, c, ts[n]);
      hide Access;
    }
  }

  lemma FirstTouch(l: Limits, t: Touch)
    requires t.data == ""
    ensures
      var c := Work(l, [] + [t]);
      c.hits == 0 && t.key in c.entries && c.entries[t.key].created == t.atPut
  {
    WorkLast(l, [], t);
    AccessCounts(l, EMPTY, t);
    AccessEntries(l, EMPTY, t);
    hide Access;
  }

  lemma FreshFor(l: Limits, e: Entry, age: nat)
    requires e.created == 0.0
    ensures Fresh(l, e, age as real) <==> age <= l.ttl
  {
    assert age as real - e.created == age as real;
  }

  /** A file that is asked for again after `age` seconds. */
  lemma AskedAgain(l: Limits, age: nat)
    ensures
      var first, again := Touch("", "", "", 0.0, 0.0), Touch("", "", "", age as real, age as real);
      Work(l, [] + [first] + [again]).hits == if age <= l.ttl then 1 else 0
  {
    var first, again := Touch("", "", "", 0.0, 0.0), Touch("", "", "", age as real, age as real);
    var c := Work(l, [] + [first]);
    FirstTouch(l, first);
    FreshFor(l, c.entries[""], age);
    AccessCounts(l, c, again);
    assert Hit(l, c, again) <==> age <= l.ttl;
    hide *;
    WorkLast(l, [] + [first], again);
  }

  /** More memory needs at least as long a time to live; only one that is negative from the start may be cut. */
  lemma MoreHitsIffNoShorter(l: Limits, m: Limits)
    requires l.maxSize <= m.maxSize
    ensures AlwaysMoreHits(l, m) <==> l.ttl <= m.ttl || l.ttl < 0
  {
    if l.ttl <= m.ttl || l.ttl < 0 {
      forall ts: seq<Touch>, sizes: string -> nat |
        SameKeys(ts, ts, sizes) && SameClock(ts, ts) && forall i :: 0 <= i < |ts| ==> |ts[i].data| <= l.maxSize
        ensures Work(l, ts).hits <= Work(m, ts).hits
      {
        if l.ttl < 0 {
          NothingIsFresh(l, ts);
        } else {
          assert NoneBetween(l, m, ts);
          MoreMemoryNeverLosesHits(l, m, ts, ts, sizes);
        }
      }
    } else {
      var age := if m.ttl < 0 then 0 else m.ttl + 1;
      AskedAgain(l, age);
      AskedAgain(m, age);
      CostsAHit(l, m, age);
    }
  }

  lemma CostsAHit(l: Limits, m: Limits, age: nat)
    requires
      var ts := [] + [Touch("", "", "", 0.0, 0.0)] + [Touch("", "", "", age as real, age as real)];
      Work(l, ts).hits > Work(m, ts).hits
    ensures !AlwaysMoreHits(l, m)
  {
    var ts := [] + [Touch("", "", "", 0.0, 0.0)] + [Touch("", "", "", age as real, age as real)];
    hide Work;
    assert SameKeys(ts, ts, _ => 0) && SameClock(ts, ts);
  }

  function OneOrTwo(key: string): nat {
    if key == "b" then 2 else 1
  }

  lemma HitIfHeld(l: Limits, c: Cache, t: Touch)
    requires Valid(l, c) && CreatedAtZero(c) && t.atGet == 0.0 && l.ttl >= 0
    ensures Access(l, c, t).hits == c.hits + if t.key in c.order then 1 else 0
  {
    AccessCounts(l, c, t);
    OrderIsKeys(l, c, t.key);
    hide Access;
  }

  lemma SmallKeeps(l: Limits)
    requires l == Limits(1, 60)
    ensures
      var a, b := TouchOf("a", OneOrTwo), TouchOf("b", OneOrTwo);
      Work(l, [] + [a] + [b] + [a]).hits == 1
  {
    var a, b := TouchOf("a", OneOrTwo), TouchOf("b", OneOrTwo);
    var one := Work(l, [] + [a]);
    FirstFile(l, "a", OneOrTwo);
    OversizedAccess(l, one, b, OneOrTwo);
    IgnoresCounters(l, one);
    HitIfHeld(l, one.(misses := one.misses + 1), a);
    assert "a" in one.order;
    hide *;
    WorkLast(l, [] + [a], b);
    WorkLast(l, [] + [a] + [b], a);
  }

  lemma LargeEvicts(m: Limits)
    requires m == Limits(2, 60)
    ensures
      var a, b := TouchOf("a", OneOrTwo), TouchOf("b", OneOrTwo);
      Work(m, [] + [a] + [b] + [a]).hits == 0
  {
    var a, b := TouchOf("a", OneOrTwo), TouchOf("b", OneOrTwo);
    TwoFiles(m, "a", "b", OneOrTwo);
    HitIfHeld(m, Work(m, [] + [a] + [b]), a);
    hide *;
    WorkLast(m, [] + [a] + [b], a);
  }

  /** A file that fits the larger cache only can push out there what the smaller keeps: here that costs a hit. */
  lemma BigFileCostsHit()
    ensures
      var a, b := TouchOf("a", OneOrTwo), TouchOf("b", OneOrTwo);
      Work(Limits(1, 60), [] + [a] + [b] + [a]).hits == 1 && Work(Limits(2, 60), [] + [a] + [b] + [a]).hits == 0
  {
    hide *;
    SmallKeeps(Limits(1, 60));
    LargeEvicts(Limits(2, 60));
  }

  // ---------------------------------------------------------------------------------------------
  // The class
  // ---------------------------------------------------------------------------------------------

  class LruCache {
    const limits: Limits
    var lruList: seq<string>
    var cache: map<string, Entry>
    var currentSize: nat
    var hits: nat
    var misses: nat

    ghost function State(): Cache
      reads this
    {
      Cache(lruList, cache, currentSize, hits, misses)
    }

    constructor (maxSize: nat, ttl: int)
      ensures limits == Limits(maxSize, ttl) && State() == EMPTY && Valid(limits, State())
    {
      limits := Limits(maxSize, ttl);
      lruList, cache, currentSize, hits, misses := [], map[], 0, 0, 0;
    }

    /** Takes a stored key out of the list, the map and the running size, which cannot underflow. */
    method Unlink(key: string)
      requires Valid(limits, State()) && key in cache
      modifies this`lruList, this`cache, this`currentSize
      ensures State() == Drop(old(State()), key) && Valid(limits, State())
    {
      DropKeepsValid(limits, State(), key);
      currentSize := currentSize - |cache[key].data|;
      lruList := Without(lruList, key);
      cache := cache - {key};
    }

    method Lookup(key: string, now: real) returns (entry: Option<Entry>)
      requires Valid(limits, State())
      modifies this
      ensures Valid(limits, State())
      ensures State() == Get(limits, old(State()), key, now).0 && entry == Get(limits, old(State()), key, now).1
    {
      hide Valid, Without, SizeOf;
      GetKeepsValid(limits, State(), key, now);
      if key !in cache {
        misses := misses + 1;
        return None;
      }
      var elapsed := WholeSeconds(now - cache[key].created);
      if elapsed > limits.ttl {
        Unlink(key);
        misses := misses + 1;
        return None;
      }
      hits := hits + 1;
      MoveToFront(key);
      var touched := cache[key].(lastAccessed := now, accessCount := cache[key].accessCount + 1);
      cache := cache[key := touched];
      entry := Some(touched);
    }

    method MoveToFront(key: string)
      modifies this`lruList
      ensures lruList == [key] + Without(old(lruList), key)
    {
      lruList := Without(lruList, key);
      lruList := [key] + lruList;
    }

    method Store(key: string, data: string, contentType: string, now: real)
      requires Valid(limits, State())
      modifies this
      ensures Valid(limits, State())
      ensures State() == Put(limits, old(State()), key, data, contentType, now)
    {
      hide Valid;
      if |data| > limits.maxSize {
        return;
      }
      ghost var n := PutKeepsLongestFit(limits, State(), key, data, contentType, now);
      if key in cache {
        Unlink(key);
      }
      assert State() == Remove(old(State()), key);
      EvictFor(|data|);
      ghost var c := State();
      assert c == Evict(limits, Remove(old(State()), key), |data|);
      var entry := Entry(data, contentType, now, now, 0);
      lruList := [key] + lruList;
      cache := cache[key := entry];
      currentSize := currentSize + |data|;
      assert State() == Push(c, key, entry);
    }

    method EvictFor(need: nat)
      requires Valid(limits, State())
      modifies this`lruList, this`cache, this`currentSize
      ensures Valid(limits, State()) && State() == Evict(limits, old(State()), need)
    {
      hide Valid, Evict, SizeOf;
      while lruList != [] && currentSize + need > limits.maxSize
        invariant Valid(limits, State())
        invariant Evict(limits, State(), need) == Evict(limits, old(State()), need)
        decreases |lruList|
      {
        var last := lruList[|lruList| - 1];
        ghost var c := State();
        EvictStep(limits, c, need);
        currentSize := currentSize - |cache[last].data|;
        cache := cache - {last};
        lruList := lruList[..|lruList| - 1];
        assert State() == Shrink(c);
      }
      EvictDone(limits, State(), need);
    }

    method Erase(key: string)
      requires Valid(limits, State())
      modifies this
      ensures Valid(limits, State()) && State() == Remove(old(State()), key)
    {
      if key in cache {
        Unlink(key);
      }
    }

    method Reset()
      modifies this
      ensures Valid(limits, State()) && State() == Clear(old(State()))
    {
      lruList, cache, currentSize := [], map[], 0;
    }

    method GetStats() returns (hits: nat, misses: nat, entries: nat, memory: nat)
      requires Valid(limits, State())
      ensures hits == this.hits && misses == this.misses
      ensures entries == |cache| && memory == Total(lruList, cache)
    {
      hits, misses, entries, memory := this.hits, this.misses, |cache|, currentSize;
    }
  }
}
