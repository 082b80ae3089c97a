/** The cache over whole runs: its invariants, exactly when a lookup hits, and what it returns. */
module CacheRuns {
  import opened Types
  import opened Seqs
  import opened CacheModel

  /** One operation on an enabled cache, with its clock readings. A store carries the limits it re-reads. */
  datatype Op =
    | Get(key: string, requestId: string, check: int, touch: int)
    | Put(key: string, response: ChatResponse, limit: int, ttlSeconds: int, sweep: int, insert: int)
    | Clear

  function Apply(s: State, op: Op): State
    requires op.Put? ==> op.limit >= 1
  {
    match op
    case Get(key, id, check, touch) => Lookup(s, key, id, check, touch).0
    case Put(key, response, limit, ttl, sweep, insert) =>
      Insert(s.(maxSize := limit, ttlSeconds := ttl), key, response, sweep, insert)
    case Clear => CacheModel.Clear(s)
  }

  ghost predicate Legal(ops: seq<Op>) {
    forall i :: 0 <= i < |ops| && ops[i].Put? ==> ops[i].limit >= 1
  }

  ghost predicate FixedLimit(ops: seq<Op>, limit: int) {
    forall i :: 0 <= i < |ops| && ops[i].Put? ==> ops[i].limit == limit
  }

  /** Nothing is cached yet. */
  predicate Fresh(s: State) {
    s.entries == [] && s.maxSize >= 0
  }

  /** The state after a run. */
  function Run(s0: State, ops: seq<Op>): State
    requires Legal(ops)
  {
    if ops == [] then s0 else Apply(Run(s0, ops[..|ops| - 1]), ops[|ops| - 1])
  }

  // The last clock reading an operation makes, given the reading before it.
  function LastReading(op: Op, before: int): int {
    match op
    case Get(_, _, _, touch) => touch
    case Put(_, _, _, _, _, insert) => insert
    case Clear => before
  }

  function Now(ops: seq<Op>, start: int): int {
    if ops == [] then start else LastReading(ops[|ops| - 1], Now(ops[..|ops| - 1], start))
  }

  predicate InOrder(op: Op, before: int) {
    match op
    case Get(_, _, check, touch) => before <= check <= touch
    case Put(_, _, _, _, sweep, insert) => before <= sweep <= insert
    case Clear => true
  }

  /** The clock never runs backwards. */
  ghost predicate Timed(ops: seq<Op>, start: int) {
    ops == [] || (Timed(ops[..|ops| - 1], start) && InOrder(ops[|ops| - 1], Now(ops[..|ops| - 1], start)))
  }

  // ----- Invariants -------------------------------------------------------

  /** Access times do not increase from front to back, and none is later than `now`. */
  predicate MostRecentFirst(es: seq<Entry>, now: int) {
    es == [] || (es[0].lastAccessed <= now && MostRecentFirst(es[1..], es[0].lastAccessed))
  }

  ghost predicate Inv(s: State, now: int) {
    Distinct(s.entries) && MostRecentFirst(s.entries, now) && |s.entries| <= s.maxSize
  }

  lemma RecentLater(es: seq<Entry>, now: int, later: int)
    requires MostRecentFirst(es, now) && now <= later
    ensures MostRecentFirst(es, later)
  {}

  lemma {:induction false} RecentSubseq(a: seq<Entry>, b: seq<Entry>, now: int)
    requires Subseq(a, b) && MostRecentFirst(b, now)
    ensures MostRecentFirst(a, now)
  {
    if a != [] {
      if a[0] == b[0] {
        RecentSubseq(a[1..], b[1..], b[0].lastAccessed);
      } else {
        RecentSubseq(a, b[1..], b[0].lastAccessed);
      }
    }
  }

  lemma SurvivorsSubseq(es: seq<Entry>, key: string, limit: int, sweep: int)
    requires limit >= 1
    ensures var kept := Survivors(es, key, limit, sweep);
      Subseq(kept, es) && key !in Keys(kept) && |kept| < limit
  {
    var others := Without(es, key);
    var room := MakeRoom(others, limit);
    var kept := Sweep(room, limit, sweep);
    WithoutSubseq(es, key);
    SubseqRefl(others);
    SubseqPrefix(others, others, |room|);
    SubseqRefl(room);
    LiveSubseq(room, sweep);
    SubseqTrans(kept, room, others);
    SubseqTrans(kept, others, es);
    SubseqKeys(kept, others);
  }

  /** Every operation keeps the invariant, whatever limit a store reads. */
  lemma ApplyKeepsInv(s: State, op: Op, now: int)
    requires Inv(s, now) && InOrder(op, now) && (op.Put? ==> op.limit >= 1)
    ensures Inv(Apply(s, op), LastReading(op, now))
  {
    var es := s.entries;
    match op
    case Get(key, id, check, touch) =>
      RecentLater(es, now, touch);
      WithoutSubseq(es, key);
      SubseqDistinct(Without(es, key), es);
      RecentSubseq(Without(es, key), es, touch);
      WithoutLength(es, key);
      if Find(es, key).Some? {
        var e := Find(es, key).value.(lastAccessed := touch);
        FindKey(es, key);
        assert ([e] + Without(es, key))[1..] == Without(es, key);
      }
    case Put(key, response, limit, ttl, sweep, insert) =>
      RecentLater(es, now, insert);
      SurvivorsSubseq(es, key, limit, sweep);
      var kept := Survivors(es, key, limit, sweep);
      SubseqDistinct(kept, es);
      RecentSubseq(kept, es, insert);
      assert ([NewEntry(key, response, ttl, insert)] + kept)[1..] == kept;
    case Clear =>
  }

  lemma {:induction false} RunKeepsInv(s0: State, ops: seq<Op>, start: int)
    requires Legal(ops) && Timed(ops, start) && Fresh(s0)
    ensures Inv(Run(s0, ops), Now(ops, start))
  {
    if ops != [] {
      RunKeepsInv(s0, ops[..|ops| - 1], start);
      ApplyKeepsInv(Run(s0, ops[..|ops| - 1]), ops[|ops| - 1], Now(ops[..|ops| - 1], start));
    }
  }

  // ----- Finding an entry after each list operation -------------------------

  lemma {:induction false} FindKey(es: seq<Entry>, key: string)
    ensures Find(es, key).Some? <==> key in Keys(es)
  {
    if es != [] {
      FindKey(es[1..], key);
    }
  }

  lemma {:induction false} FindWithout(es: seq<Entry>, gone: string, key: string)
    ensures Find(Without(es, gone), key) == if key == gone then None else Find(es, key)
  {
    if es != [] {
      FindWithout(es[1..], gone, key);
      var rest := Without(es[1..], gone);
      assert ([es[0]] + rest)[1..] == rest && [] + rest == rest;
    }
  }

  lemma {:induction false} FindLive(es: seq<Entry>, now: int, key: string)
    requires Distinct(es)
    ensures Find(Live(es, now), key) ==
      var f := Find(es, key); if f.Some? && Expired(f.value, now) then None else f
  {
    if es != [] {
      FindLive(es[1..], now, key);
      var rest := Live(es[1..], now);
      FindKey(es[1..], es[0].key);
      assert ([es[0]] + rest)[1..] == rest && [] + rest == rest;
    }
  }

  lemma {:induction false} FindPrefix(es: seq<Entry>, n: nat, key: string)
    requires n <= |es|
    ensures Find(es[..n], key) == if key in Keys(es[..n]) then Find(es, key) else None
  {
    FindKey(es[..n], key);
    if n > 0 {
      FindPrefix(es[1..], n - 1, key);
      assert es[..n][1..] == es[1..][..n - 1];
    }
  }

  lemma FindCons(e: Entry, es: seq<Entry>, key: string)
    ensures Find([e] + es, key) == if e.key == key then Some(e) else Find(es, key)
  {
    assert ([e] + es)[1..] == es;
  }

  // ----- Exactly when a lookup hits -----------------------------------------

  datatype Record = Record(response: ChatResponse, expiresAt: int)

  function RecordOf(op: Op): Record
    requires op.Put?
  {
    Record(op.response, op.insert + op.ttlSeconds * 1_000_000_000)
  }

  /** The LRU step of this store pops the entry of `key`. */
  predicate Pushed(s: State, op: Op, key: string)
    requires op.Put? ==> op.limit >= 1
  {
    op.Put? &&
    var others := Without(s.entries, op.key);
    key in Keys(others) && key !in Keys(MakeRoom(others, op.limit))
  }

  /** The latest store of `key` that no later `clear` erased. */
  function LatestPut(ops: seq<Op>, key: string): Option<Record> {
    if ops == [] then None
    else
      var op := ops[|ops| - 1];
      if op.Put? && op.key == key then Some(RecordOf(op))
      else if op.Clear? then None
      else LatestPut(ops[..|ops| - 1], key)
  }

  /** The same, but forgotten once some store pushes it out. */
  function Retained(s0: State, ops: seq<Op>, key: string): Option<Record>
    requires Legal(ops)
  {
    if ops == [] then None
    else
      var op, before := ops[|ops| - 1], ops[..|ops| - 1];
      if op.Put? && op.key == key then Some(RecordOf(op))
      else if op.Clear? || Pushed(Run(s0, before), op, key) then None
      else Retained(s0, before, key)
  }

  /** The list agrees with the history, except for records that have already expired. */
  ghost predicate Agrees(es: seq<Entry>, r: Option<Record>, key: string, now: int) {
    match Find(es, key)
    case Some(e) => r == Some(Record(e.response, e.expiresAt))
    case None => r.Some? ==> r.value.expiresAt < now
  }

  lemma PutAgrees(s: State, r: Option<Record>, op: Op, key: string, now: int)
    requires op.Put? && op.limit >= 1 && op.key != key && Distinct(s.entries)
    requires InOrder(op, now) && Agrees(s.entries, r, key, now)
    ensures Agrees(Apply(s, op).entries, if Pushed(s, op, key) then None else r, key, op.insert)
  {
    var others := Without(s.entries, op.key);
    var room := MakeRoom(others, op.limit);
    var kept := Sweep(room, op.limit, op.sweep);
    FindWithout(s.entries, op.key, key);
    FindKey(others, key);
    assert room == others[..|room|];
    FindPrefix(others, |room|, key);
    WithoutSubseq(s.entries, op.key);
    SubseqDistinct(others, s.entries);
    SubseqRefl(others);
    SubseqPrefix(others, others, |room|);
    SubseqDistinct(room, others);
    FindLive(room, op.sweep, key);
    FindCons(NewEntry(op.key, op.response, op.ttlSeconds, op.insert), kept, key);
  }

  lemma GetAgrees(s: State, r: Option<Record>, op: Op, key: string, now: int)
    requires op.Get? && InOrder(op, now) && Agrees(s.entries, r, key, now)
    ensures Agrees(Apply(s, op).entries, r, key, op.touch)
  {
    FindWithout(s.entries, op.key, key);
    if Find(s.entries, op.key).Some? {
      FindCons(Find(s.entries, op.key).value.(lastAccessed := op.touch), Without(s.entries, op.key), key);
    }
  }

  lemma OwnPutAgrees(s: State, op: Op, now: int)
    requires op.Put? && op.limit >= 1
    ensures Agrees(Apply(s, op).entries, Some(RecordOf(op)), op.key, now)
  {
    FindCons(NewEntry(op.key, op.response, op.ttlSeconds, op.insert),
             Survivors(s.entries, op.key, op.limit, op.sweep), op.key);
  }

  lemma {:induction false} RunAgrees(s0: State, ops: seq<Op>, key: string, start: int)
    requires Legal(ops) && Timed(ops, start) && Fresh(s0)
    ensures Agrees(Run(s0, ops).entries, Retained(s0, ops, key), key, Now(ops, start))
  {
    if ops != [] {
      var op, before := ops[|ops| - 1], ops[..|ops| - 1];
      var s, now := Run(s0, before), Now(before, start);
      RunAgrees(s0, before, key, start);
      RunKeepsInv(s0, before, start);
      match op
      case Get(_, _, _, _) => GetAgrees(s, Retained(s0, before, key), op, key, now);
      case Put(_, _, _, _, _, _) =>
        if op.key != key {
          PutAgrees(s, Retained(s0, before, key), op, key, now);
        } else {
          OwnPutAgrees(s, op, op.insert);
        }
      case Clear =>
    }
  }

  /** A lookup hits exactly when the key's latest store was not cleared, not pushed out and has not
      expired, and then it returns the response of that store. */
  lemma HitsExactly(s0: State, ops: seq<Op>, key: string, requestId: string, check: int, touch: int, start: int)
    requires Legal(ops) && Timed(ops, start) && Fresh(s0) && Now(ops, start) <= check
    ensures
      var r, hit := Retained(s0, ops, key), Lookup(Run(s0, ops), key, requestId, check, touch).1;
      hit == if r.Some? && check <= r.value.expiresAt then Some(Mark(r.value.response, requestId)) else None
  {
    RunAgrees(s0, ops, key, start);
  }

  /** What is retained is always the latest store, never an older one. */
  lemma {:induction false} RetainedIsLatest(s0: State, ops: seq<Op>, key: string)
    requires Legal(ops)
    ensures Retained(s0, ops, key).Some? ==> Retained(s0, ops, key) == LatestPut(ops, key)
  {
    if ops != [] {
      RetainedIsLatest(s0, ops[..|ops| - 1], key);
    }
  }
}
