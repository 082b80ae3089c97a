/** The cache's statistics: every lookup, saving and lost entry is accounted for. */
module CacheCounters {
  import opened Types
  import opened Seqs
  import opened CacheModel
  import opened CacheRuns

  function Gets(ops: seq<Op>): nat {
    if ops == [] then 0 else Gets(ops[..|ops| - 1]) + (if ops[|ops| - 1].Get? then 1 else 0)
  }

  function Puts(ops: seq<Op>): nat {
    if ops == [] then 0 else Puts(ops[..|ops| - 1]) + (if ops[|ops| - 1].Put? then 1 else 0)
  }

  /** What the responses returned by the lookups of a run had cost. */
  function ReturnedCost(s0: State, ops: seq<Op>): real
    requires Legal(ops)
  {
    if ops == [] then 0.0
    else
      var op, before := ops[|ops| - 1], ops[..|ops| - 1];
      ReturnedCost(s0, before) + (if op.Get? then
        var r := Lookup(Run(s0, before), op.key, op.requestId, op.check, op.touch).1;
        if r.Some? then r.value.costUsd else 0.0
      else 0.0)
  }

  /** Every lookup is a hit or a miss, and the savings are what the returned responses had cost. */
  lemma {:induction false} LookupsCounted(s0: State, ops: seq<Op>)
    requires Legal(ops)
    ensures var s := Run(s0, ops);
      s.hits + s.misses == s0.hits + s0.misses + Gets(ops)
      && s.savingsUsd == s0.savingsUsd + ReturnedCost(s0, ops)
  {
    if ops != [] {
      LookupsCounted(s0, ops[..|ops| - 1]);
    }
  }

  /** The lookups of a run that were answered. */
  function Answered(s0: State, ops: seq<Op>): nat
    requires Legal(ops)
  {
    if ops == [] then 0
    else
      var op, before := ops[|ops| - 1], ops[..|ops| - 1];
      Answered(s0, before)
      + (if op.Get? && Lookup(Run(s0, before), op.key, op.requestId, op.check, op.touch).1.Some? then 1 else 0)
  }

  /** The hits count exactly the answered lookups, the misses the others. */
  lemma {:induction false} HitsCounted(s0: State, ops: seq<Op>)
    requires Legal(ops)
    ensures var s := Run(s0, ops);
      s.hits == s0.hits + Answered(s0, ops) && s.misses == s0.misses + (Gets(ops) - Answered(s0, ops))
  {
    if ops != [] {
      HitsCounted(s0, ops[..|ops| - 1]);
    }
  }

  // ----- Disabled, and the configured limit -----------------------------------------------------

  /** A disabled cache never answers and never stores; a lookup is still counted as a miss. */
  lemma DisabledDoesNothing(s: State, cfg: CacheConfig, key: string, requestId: string, check: int, touch: int,
                            response: ChatResponse, stream: bool, sweep: int, insert: int)
    requires !cfg.enabled
    ensures CacheModel.Get(s, cfg.enabled, key, requestId, check, touch) == (s.(misses := s.misses + 1), None)
    ensures CacheModel.Put(s, cfg, key, response, stream, sweep, insert) == s
  {}

  /** A limit of at least 0 is held as it is; a negative int becomes a limit no list ever reaches. */
  lemma CapacityIs(cfg: CacheConfig)
    requires -0x8000_0000 <= cfg.maxEntries < 0x8000_0000
    ensures cfg.maxEntries >= 0 ==> Capacity(cfg) == cfg.maxEntries
    ensures cfg.maxEntries < 0 ==> Capacity(cfg) >= 0xFFFF_FFFF_8000_0000
  {}

  /** A store into an enabled cache leaves no expired entry if the list was more than half full after the
      eviction, and drops no entry for its age otherwise. */
  lemma SweepsWhenHalfFull(s: State, op: Op, e: Entry)
    requires op.Put? && op.limit >= 1
    ensures var room := MakeRoom(Without(s.entries, op.key), op.limit);
      e in Apply(s, op).entries <==>
        e == Entry(op.key, op.response, op.insert + op.ttlSeconds * 1_000_000_000, op.insert)
        || (e in room && !(|room| > op.limit / 2 && op.sweep > e.expiresAt))
  {
    LiveSubseq(MakeRoom(Without(s.entries, op.key), op.limit), op.sweep);
  }

  /** Entries an operation removes without evicting: replaced, found expired, or cleared. */
  function Removed(s: State, op: Op): nat {
    match op
    case Get(key, _, check, _) =>
      var f := Find(s.entries, key); if f.Some? && Expired(f.value, check) then 1 else 0
    case Put(key, _, _, _, _, _) => if key in Keys(s.entries) then 1 else 0
    case Clear => |s.entries|
  }

  function RemovedBy(s0: State, ops: seq<Op>): nat
    requires Legal(ops)
  {
    if ops == [] then 0
    else RemovedBy(s0, ops[..|ops| - 1]) + Removed(Run(s0, ops[..|ops| - 1]), ops[|ops| - 1])
  }

  /** Every entry ever stored is still listed, was evicted, or was replaced, dropped or cleared. */
  lemma {:induction false} EntriesAccountedFor(s0: State, ops: seq<Op>, start: int)
    requires Legal(ops) && Timed(ops, start) && Fresh(s0)
    ensures var s := Run(s0, ops);
      Puts(ops) == |s.entries| + (s.evictions - s0.evictions) + RemovedBy(s0, ops)
  {
    if ops != [] {
      var op, before := ops[|ops| - 1], ops[..|ops| - 1];
      var s := Run(s0, before);
      EntriesAccountedFor(s0, before, start);
      RunKeepsInv(s0, before, start);
      if !op.Clear? {
        WithoutLength(s.entries, op.key);
        FindKey(s.entries, op.key);
      }
    }
  }
}
