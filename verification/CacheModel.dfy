/** What the LRU + TTL cache does, as functions on a list of entries, front = most recently used. */
module CacheModel {
  import opened Types
  import opened Seqs

  datatype CacheConfig = CacheConfig(enabled: bool, ttlSeconds: int, maxEntries: int, matchParams: bool)

  datatype Entry = Entry(key: string, response: ChatResponse, expiresAt: int, lastAccessed: int)

  datatype State = State(
    entries: seq<Entry>,
    maxSize: int,
    ttlSeconds: int,
    hits: nat,
    misses: nat,
    evictions: nat,
    savingsUsd: real)

  /** The limit as the cache holds it: the configured int converted to an unsigned 64-bit size. */
  function Capacity(cfg: CacheConfig): nat {
    cfg.maxEntries % 0x1_0000_0000_0000_0000
  }

  /** With an enabled cache of limit 0 the eviction loop of a store does not end. */
  predicate CanStore(cfg: CacheConfig) {
    cfg.enabled ==> Capacity(cfg) >= 1
  }

  // ----- Lists of entries -------------------------------------------------

  function Keys(es: seq<Entry>): set<string> {
    if es == [] then {} else {es[0].key} + Keys(es[1..])
  }

  ghost predicate Distinct(es: seq<Entry>) {
    es == [] || (es[0].key !in Keys(es[1..]) && Distinct(es[1..]))
  }

  predicate Expired(e: Entry, now: int) {
    now > e.expiresAt
  }

  /** The entries whose key is not `key`, in order. */
  function Without(es: seq<Entry>, key: string): seq<Entry> {
    if es == [] then []
    else (if es[0].key == key then [] else [es[0]]) + Without(es[1..], key)
  }

  /** The entries that have not expired at `now`, in order. */
  function Live(es: seq<Entry>, now: int): (r: seq<Entry>)
    ensures |r| <= |es|
  {
    if es == [] then []
    else (if Expired(es[0], now) then [] else [es[0]]) + Live(es[1..], now)
  }

  /** What is left after popping from the back until there is room for one more. */
  function MakeRoom(es: seq<Entry>, limit: int): (r: seq<Entry>)
    requires limit >= 1
    ensures r <= es && |r| == Min(|es|, limit - 1)
  {
    if |es| >= limit then es[..limit - 1] else es
  }

  /** The expiry sweep runs only when the list is more than half full. */
  function Sweep(es: seq<Entry>, limit: int, now: int): (r: seq<Entry>)
    ensures |r| <= |es|
  {
    if |es| > limit / 2 then Live(es, now) else es
  }

  function Find(es: seq<Entry>, key: string): (r: Option<Entry>)
    ensures r.Some? ==> r.value in es && r.value.key == key
    ensures r.None? ==> key !in Keys(es)
  {
    if es == [] then None
    else if es[0].key == key then Some(es[0])
    else Find(es[1..], key)
  }

  // ----- Operations -------------------------------------------------------

  /** A stored response as it is returned: marked, addressed to the new request, otherwise unchanged. */
  function Mark(response: ChatResponse, requestId: string): (r: ChatResponse)
    ensures r.fromCache && r.requestId == requestId && r.latencyMs == 0.0
    ensures response ==
      r.(fromCache := response.fromCache, requestId := response.requestId, latencyMs := response.latencyMs)
  {
    response.(fromCache := true, requestId := requestId, latencyMs := 0.0)
  }

  /** Lookup. `check` is the clock reading of the expiry test, `touch` that of the access time. */
  function Get(s: State, enabled: bool, key: string, requestId: string, check: int, touch: int)
    : (State, Option<ChatResponse>)
  {
    if !enabled then (Miss(s), None) else Lookup(s, key, requestId, check, touch)
  }

  function Miss(s: State): State {
    s.(misses := s.misses + 1)
  }

  function Drop(s: State, key: string): State {
    s.(entries := Without(s.entries, key), misses := s.misses + 1)
  }

  function Hit(s: State, e: Entry, touch: int): State {
    s.(entries := [e.(lastAccessed := touch)] + Without(s.entries, e.key),
       hits := s.hits + 1,
       savingsUsd := s.savingsUsd + e.response.costUsd)
  }

  function Lookup(s: State, key: string, requestId: string, check: int, touch: int)
    : (State, Option<ChatResponse>)
  {
    match Find(s.entries, key)
    case None => (Miss(s), None)
    case Some(e) =>
      if Expired(e, check) then (Drop(s, key), None)
      else (Hit(s, e, touch), Some(Mark(e.response, requestId)))
  }

  function NewEntry(key: string, response: ChatResponse, ttlSeconds: int, insert: int): Entry {
    Entry(key, response, insert + ttlSeconds * NANOS, insert)
  }

  /** Store. `sweep` is the clock reading of the expiry sweep, `insert` that of the new entry. */
  function Put(s: State, cfg: CacheConfig, key: string, response: ChatResponse, stream: bool,
               sweep: int, insert: int): State
    requires stream || CanStore(cfg)
  {
    if !cfg.enabled || stream then s
    else Insert(s.(maxSize := Capacity(cfg), ttlSeconds := cfg.ttlSeconds), key, response, sweep, insert)
  }

  /** What survives a store of `key`: not its own old entry, not the LRU overflow, not what is swept. */
  function Survivors(es: seq<Entry>, key: string, limit: int, sweep: int): seq<Entry>
    requires limit >= 1
  {
    Sweep(MakeRoom(Without(es, key), limit), limit, sweep)
  }

  function MakeSpace(s: State, key: string, sweep: int): State
    requires s.maxSize >= 1
  {
    var kept := Survivors(s.entries, key, s.maxSize, sweep);
    s.(entries := kept, evictions := s.evictions + (|Without(s.entries, key)| - |kept|))
  }

  function PushFront(s: State, e: Entry): State {
    s.(entries := [e] + s.entries)
  }

  function Insert(s: State, key: string, response: ChatResponse, sweep: int, insert: int): State
    requires s.maxSize >= 1
  {
    PushFront(MakeSpace(s, key, sweep), NewEntry(key, response, s.ttlSeconds, insert))
  }

  function Clear(s: State): State {
    s.(entries := [])
  }

  // ----- Facts about the lists --------------------------------------------

  lemma {:induction false} KeyAt(es: seq<Entry>, i: nat)
    requires i < |es|
    ensures es[i].key in Keys(es)
  {
    if i > 0 {
      KeyAt(es[1..], i - 1);
    }
  }

  lemma {:induction false} SubseqKeys(a: seq<Entry>, b: seq<Entry>)
    requires Subseq(a, b)
    ensures Keys(a) <= Keys(b)
  {
    if a != [] {
      SubseqKeys(if a[0] == b[0] then a[1..] else a, b[1..]);
    }
  }

  lemma {:induction false} SubseqDistinct(a: seq<Entry>, b: seq<Entry>)
    requires Subseq(a, b) && Distinct(b)
    ensures Distinct(a)
  {
    if a != [] {
      if a[0] == b[0] {
        SubseqKeys(a[1..], b[1..]);
        SubseqDistinct(a[1..], b[1..]);
      } else {
        SubseqDistinct(a, b[1..]);
      }
    }
  }

  lemma {:induction false} WithoutSubseq(es: seq<Entry>, key: string)
    ensures Subseq(Without(es, key), es) && Keys(Without(es, key)) == Keys(es) - {key}
  {
    if es != [] {
      var x, rest := es[0], Without(es[1..], key);
      WithoutSubseq(es[1..], key);
      assert [x] + es[1..] == es;
      if x.key == key {
        assert [] + rest == rest;
        SubseqPrepend(rest, es[1..], x);
      } else {
        assert ([x] + rest)[1..] == rest;
        SubseqBoth(rest, es[1..], x);
      }
    }
  }

  lemma {:induction false} LiveSubseq(es: seq<Entry>, now: int)
    ensures Subseq(Live(es, now), es)
    ensures forall e :: e in Live(es, now) <==> e in es && !Expired(e, now)
  {
    if es != [] {
      var rest := Live(es[1..], now);
      LiveSubseq(es[1..], now);
      assert [es[0]] + es[1..] == es;
      SubseqPrepend(rest, es[1..], es[0]);
      SubseqBoth(rest, es[1..], es[0]);
      assert [] + rest == rest;
    }
  }

  lemma {:induction false} WithoutAbsent(es: seq<Entry>, key: string)
    requires key !in Keys(es)
    ensures Without(es, key) == es && Find(es, key) == None
  {
    if es != [] {
      WithoutAbsent(es[1..], key);
      assert [es[0]] + es[1..] == es;
    }
  }

  lemma {:induction false} WithoutLength(es: seq<Entry>, key: string)
    requires Distinct(es)
    ensures |Without(es, key)| == |es| - (if key in Keys(es) then 1 else 0)
  {
    if es != [] {
      WithoutLength(es[1..], key);
      if es[0].key == key {
        WithoutAbsent(es[1..], key);
      }
    }
  }

  /** In a list of distinct keys, deleting by key is deleting at the one position that has it. */
  lemma {:induction false} WithoutAt(es: seq<Entry>, i: nat)
    requires Distinct(es) && i < |es|
    ensures Without(es, es[i].key) == es[..i] + es[i + 1..]
    ensures Find(es, es[i].key) == Some(es[i])
  {
    if i == 0 {
      WithoutAbsent(es[1..], es[0].key);
    } else {
      KeyAt(es[1..], i - 1);
      WithoutAt(es[1..], i - 1);
      assert es[..i] + es[i + 1..] == [es[0]] + (es[1..][..i - 1] + es[1..][i..]);
    }
  }
}
