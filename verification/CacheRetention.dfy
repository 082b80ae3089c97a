/** How long an entry is kept: the LRU guarantee in terms of how many other keys were used meanwhile. */
module CacheRetention {
  import opened Types
  import opened Seqs
  import opened CacheModel
  import opened CacheRuns

  /** The operation stores or hits `op.key` when applied to `s`. */
  predicate Uses(s: State, op: Op) {
    match op
    case Get(key, _, check, _) =>
      var f := Find(s.entries, key); f.Some? && !Expired(f.value, check)
    case Put(_, _, _, _, _, _) => true
    case Clear => false
  }

  /** The other keys stored or hit since the last time `key` itself was stored or hit. */
  function OthersUsed(s0: State, ops: seq<Op>, key: string): set<string>
    requires Legal(ops)
  {
    if ops == [] then {}
    else
      var op, before := ops[|ops| - 1], ops[..|ops| - 1];
      if !Uses(Run(s0, before), op) then OthersUsed(s0, before, key)
      else if op.key == key then {}
      else OthersUsed(s0, before, key) + {op.key}
  }

  /** At every store since the last use of `key`, counting its own key, fewer other keys had been used than
      the limit that store read. */
  predicate RoomKept(s0: State, ops: seq<Op>, key: string)
    requires Legal(ops)
  {
    ops == [] ||
    (var op, before := ops[|ops| - 1], ops[..|ops| - 1];
     if Uses(Run(s0, before), op) && op.key == key then true
     else RoomKept(s0, before, key) && (op.Put? ==> |OthersUsed(s0, ops, key)| < op.limit))
  }

  /** The keys of the entries ahead of `key` in the list. */
  function Ahead(es: seq<Entry>, key: string): set<string> {
    if es == [] || es[0].key == key then {} else {es[0].key} + Ahead(es[1..], key)
  }

  // ----- Ahead under the list operations -----------------------------------

  lemma {:induction false} AheadWithout(es: seq<Entry>, gone: string, key: string)
    requires gone != key
    ensures Ahead(Without(es, gone), key) == Ahead(es, key) - {gone}
  {
    if es != [] {
      AheadWithout(es[1..], gone, key);
      var rest := Without(es[1..], gone);
      assert ([es[0]] + rest)[1..] == rest && [] + rest == rest;
    }
  }

  lemma {:induction false} AheadSubseq(a: seq<Entry>, b: seq<Entry>, key: string)
    requires Subseq(a, b) && Distinct(b) && key in Keys(a)
    ensures Ahead(a, key) <= Ahead(b, key)
  {
    if a[0] == b[0] {
      if a[0].key != key {
        AheadSubseq(a[1..], b[1..], key);
      }
    } else {
      SubseqKeys(a, b[1..]);
      AheadSubseq(a, b[1..], key);
    }
  }

  lemma {:induction false} AheadPrefix(es: seq<Entry>, n: nat, key: string)
    requires n <= |es| && key in Keys(es[..n])
    ensures Ahead(es[..n], key) == Ahead(es, key)
  {
    assert n > 0 && es[..n][1..] == es[1..][..n - 1];
    if es[0].key != key {
      AheadPrefix(es[1..], n - 1, key);
    }
  }

  lemma AheadCons(e: Entry, es: seq<Entry>, key: string)
    ensures Ahead([e] + es, key) == if e.key == key then {} else {e.key} + Ahead(es, key)
  {
    assert ([e] + es)[1..] == es;
  }

  /** A key beyond the first n entries has n distinct keys ahead of it. */
  lemma {:induction false} AheadBeyond(es: seq<Entry>, n: nat, key: string)
    requires Distinct(es) && n <= |es| && key !in Keys(es[..n])
    ensures |Ahead(es, key)| >= n && Ahead(es, key) <= Keys(es)
  {
    if es != [] {
      if n > 0 {
        assert es[..n][1..] == es[1..][..n - 1];
        AheadBeyond(es[1..], n - 1, key);
        assert es[0].key !in Ahead(es[1..], key);
      } else if es[0].key != key {
        assert es[1..][..0] == [];
        AheadBeyond(es[1..], 0, key);
      }
    }
  }

  lemma {:induction false} AheadBound(es: seq<Entry>, key: string)
    requires key in Keys(es)
    ensures |Ahead(es, key)| < |es|
  {
    if es[0].key != key {
      AheadBound(es[1..], key);
    }
  }

  // ----- Retention ------------------------------------------------------------

  /** Everything ahead of a listed key was used since; a key pushed out did not keep its room. */
  ghost predicate Bounded(s: State, others: set<string>, lost: bool, key: string, room: bool) {
    (key in Keys(s.entries) ==> Ahead(s.entries, key) <= others) && (lost ==> !room)
  }

  lemma SubsetSize(a: set<string>, b: set<string>)
    requires a <= b
    ensures |a| <= |b|
  {
    if a != {} {
      var x :| x in a;
      SubsetSize(a - {x}, b - {x});
    }
  }

  lemma GetBounded(s: State, others: set<string>, lost: bool, op: Op, key: string, room: bool)
    requires op.Get? && Distinct(s.entries) && Bounded(s, others, lost, key, room)
    requires Uses(s, op) ==> op.key != key
    ensures Bounded(Apply(s, op), if Uses(s, op) then others + {op.key} else others, lost, key, room)
  {
    var es := s.entries;
    var rest := Without(es, op.key);
    WithoutSubseq(es, op.key);
    FindKey(es, op.key);
    if op.key != key {
      AheadWithout(es, op.key, key);
      if Uses(s, op) {
        var e := Find(es, op.key).value.(lastAccessed := op.touch);
        AheadCons(e, rest, key);
        assert Keys([e] + rest) == {e.key} + Keys(rest) by { assert ([e] + rest)[1..] == rest; }
      }
    }
  }

  /** A key popped by a store of another key has seen `limit` others used, counting that store. */
  lemma PushedSawLimit(es: seq<Entry>, newKey: string, key: string, limit: int, others: set<string>)
    requires limit >= 1 && newKey != key && Distinct(es) && Ahead(es, key) <= others
    requires key in Keys(Without(es, newKey)) && key !in Keys(MakeRoom(Without(es, newKey), limit))
    ensures |others + {newKey}| >= limit
  {
    var rest := Without(es, newKey);
    assert Distinct(rest) && newKey !in Keys(rest) by {
      WithoutSubseq(es, newKey);
      SubseqDistinct(rest, es);
    }
    assert |rest| >= limit && key !in Keys(rest[..limit - 1]);
    AheadBeyond(rest, limit - 1, key);
    assert Ahead(rest, key) <= others by {
      AheadWithout(es, newKey, key);
    }
    OneMore(Ahead(rest, key), others, newKey, limit);
  }

  lemma OneMore(a: set<string>, b: set<string>, x: string, n: int)
    requires a <= b && x !in a && |a| >= n - 1
    ensures |b + {x}| >= n
  {
    assert |a + {x}| == |a| + 1;
    SubsetSize(a + {x}, b + {x});
  }

  /** A key that survives the pops keeps exactly the others ahead of it. */
  lemma RoomAhead(es: seq<Entry>, newKey: string, key: string, limit: int)
    requires limit >= 1 && newKey != key && Distinct(es)
    requires key in Keys(MakeRoom(Without(es, newKey), limit))
    ensures key in Keys(es) && Ahead(MakeRoom(Without(es, newKey), limit), key) == Ahead(es, key) - {newKey}
  {
    var rest := Without(es, newKey);
    var room := MakeRoom(rest, limit);
    WithoutSubseq(es, newKey);
    AheadWithout(es, newKey, key);
    assert room == rest[..|room|];
    AheadPrefix(rest, |room|, key);
    RoomSubseq(rest, limit);
    SubseqKeys(room, rest);
  }

  lemma RoomSubseq(es: seq<Entry>, limit: int)
    requires limit >= 1
    ensures Subseq(MakeRoom(es, limit), es)
  {
    SubseqRefl(es);
    SubseqPrefix(es, es, |MakeRoom(es, limit)|);
  }

  lemma RoomDistinct(es: seq<Entry>, newKey: string, limit: int)
    requires limit >= 1 && Distinct(es)
    ensures Distinct(MakeRoom(Without(es, newKey), limit))
  {
    var rest := Without(es, newKey);
    WithoutSubseq(es, newKey);
    SubseqDistinct(rest, es);
    RoomSubseq(rest, limit);
    SubseqDistinct(MakeRoom(rest, limit), rest);
  }

  lemma PutBounded(s: State, others: set<string>, lost: bool, op: Op, key: string, hadRoom: bool)
    requires op.Put? && op.limit >= 1 && op.key != key && Distinct(s.entries)
    requires Bounded(s, others, lost, key, hadRoom)
    ensures Bounded(Apply(s, op), others + {op.key}, lost || Pushed(s, op, key), key,
                    hadRoom && |others + {op.key}| < op.limit)
  {
    var room := MakeRoom(Without(s.entries, op.key), op.limit);
    var kept := Sweep(room, op.limit, op.sweep);
    var e := NewEntry(op.key, op.response, op.ttlSeconds, op.insert);
    if Pushed(s, op, key) {
      WithoutSubseq(s.entries, op.key);
      PushedSawLimit(s.entries, op.key, key, op.limit, others);
    }
    KeysCons(e, kept);
    if key in Keys([e] + kept) {
      SubseqRefl(room);
      LiveSubseq(room, op.sweep);
      SubseqKeys(kept, room);
      RoomDistinct(s.entries, op.key, op.limit);
      AheadSubseq(kept, room, key);
      RoomAhead(s.entries, op.key, key, op.limit);
      AheadCons(e, kept, key);
    }
  }

  lemma KeysCons(e: Entry, es: seq<Entry>)
    ensures Keys([e] + es) == {e.key} + Keys(es)
  {
    assert ([e] + es)[1..] == es;
  }

  ghost predicate Lost(s0: State, ops: seq<Op>, key: string)
    requires Legal(ops)
  {
    LatestPut(ops, key).Some? && Retained(s0, ops, key).None?
  }

  lemma {:induction false} RunBounded(s0: State, ops: seq<Op>, key: string, start: int)
    requires Legal(ops) && Timed(ops, start) && Fresh(s0)
    ensures Bounded(Run(s0, ops), OthersUsed(s0, ops, key), Lost(s0, ops, key), key, RoomKept(s0, ops, key))
  {
    if ops != [] {
      var op, before := ops[|ops| - 1], ops[..|ops| - 1];
      var s := Run(s0, before);
      RunBounded(s0, before, key, start);
      RunKeepsInv(s0, before, start);
      var others, lost, room := OthersUsed(s0, before, key), Lost(s0, before, key), RoomKept(s0, before, key);
      match op
      case Get(_, _, _, _) =>
        if Uses(s, op) && op.key == key {
          RunAgrees(s0, before, key, start);
          AheadCons(Find(s.entries, key).value.(lastAccessed := op.touch), Without(s.entries, key), key);
        } else {
          GetBounded(s, others, lost, op, key, room);
        }
      case Put(_, _, _, _, _, _) =>
        if op.key != key {
          PutBounded(s, others, lost, op, key, room);
        } else {
          AheadCons(NewEntry(op.key, op.response, op.ttlSeconds, op.insert),
                    Survivors(s.entries, op.key, op.limit, op.sweep), key);
        }
      case Clear =>
    }
  }

  /** The LRU guarantee, whatever limits the stores read: a key that kept its room since its own last use
      still hits with its latest response until that expires or is cleared. */
  lemma KeptWhileRecent(s0: State, ops: seq<Op>, key: string, requestId: string, check: int, touch: int, start: int)
    requires Legal(ops) && Timed(ops, start) && Fresh(s0)
    requires Now(ops, start) <= check && RoomKept(s0, ops, key)
    ensures
      var r, hit := LatestPut(ops, key), Lookup(Run(s0, ops), key, requestId, check, touch).1;
      hit == if r.Some? && check <= r.value.expiresAt then Some(Mark(r.value.response, requestId)) else None
  {
    RunBounded(s0, ops, key, start);
    RetainedIsLatest(s0, ops, key);
    HitsExactly(s0, ops, key, requestId, check, touch, start);
  }

  /** `n` is below every limit read since the last use of `key`. */
  predicate BelowLimits(s0: State, ops: seq<Op>, key: string, n: nat)
    requires Legal(ops)
  {
    ops == [] ||
    (var op, before := ops[|ops| - 1], ops[..|ops| - 1];
     if Uses(Run(s0, before), op) && op.key == key then true
     else BelowLimits(s0, before, key, n) && (op.Put? ==> n < op.limit))
  }

  /** The others used since only get more, so it is enough to compare them with those limits in the end. */
  lemma {:induction false} FewOthersKeepRoom(s0: State, ops: seq<Op>, key: string, n: nat)
    requires Legal(ops) && |OthersUsed(s0, ops, key)| <= n && BelowLimits(s0, ops, key, n)
    ensures RoomKept(s0, ops, key)
  {
    if ops != [] {
      var op, before := ops[|ops| - 1], ops[..|ops| - 1];
      if !(Uses(Run(s0, before), op) && op.key == key) {
        SubsetSize(OthersUsed(s0, before, key), OthersUsed(s0, ops, key));
        FewOthersKeepRoom(s0, before, key, n);
      }
    }
  }

  lemma {:induction false} FixedIsBelow(s0: State, ops: seq<Op>, key: string, limit: int, n: nat)
    requires Legal(ops) && FixedLimit(ops, limit) && n < limit
    ensures BelowLimits(s0, ops, key, n)
  {
    if ops != [] {
      FixedIsBelow(s0, ops[..|ops| - 1], key, limit, n);
    }
  }

  // ----- The exact reuse distance when nothing expires -------------------------

  ghost predicate NoneExpired(es: seq<Entry>, now: int) {
    forall e :: e in es ==> !Expired(e, now)
  }

  /** At every operation of the run, no listed entry has expired by its last clock reading. */
  ghost predicate NothingExpires(s0: State, ops: seq<Op>, start: int)
    requires Legal(ops)
  {
    ops == [] ||
    (var before := ops[..|ops| - 1];
     NothingExpires(s0, before, start) && NoneExpired(Run(s0, before).entries, Now(ops, start)))
  }

  ghost predicate Exact(s: State, others: set<string>, stored: bool, key: string, room: bool) {
    && (key in Keys(s.entries) ==> Ahead(s.entries, key) == others)
    && (key in Keys(s.entries) <==> stored && room)
  }

  lemma {:induction false} LiveAll(es: seq<Entry>, now: int)
    requires NoneExpired(es, now)
    ensures Live(es, now) == es
  {
    if es != [] {
      assert es[0] in es;
      assert forall e :: e in es[1..] ==> e in es;
      LiveAll(es[1..], now);
      assert [es[0]] + es[1..] == es;
    }
  }

  /** With nothing expired, a store only replaces, pops the overflow and pushes. */
  lemma PlainPut(s: State, op: Op)
    requires op.Put? && op.limit >= 1 && NoneExpired(s.entries, op.insert) && op.sweep <= op.insert
    ensures Apply(s, op).entries
         == [NewEntry(op.key, op.response, op.ttlSeconds, op.insert)] + MakeRoom(Without(s.entries, op.key), op.limit)
  {
    var rest := Without(s.entries, op.key);
    var room := MakeRoom(rest, op.limit);
    WithoutSubseq(s.entries, op.key);
    SubseqMember(rest, s.entries);
    assert forall e :: e in room ==> e in rest;
    LiveAll(room, op.sweep);
  }

  lemma PutExact(s: State, others: set<string>, stored: bool, op: Op, key: string, hadRoom: bool)
    requires op.Put? && op.limit >= 1 && op.key != key && Distinct(s.entries)
    requires NoneExpired(s.entries, op.insert) && op.sweep <= op.insert
    requires Exact(s, others, stored, key, hadRoom)
    ensures Exact(Apply(s, op), others + {op.key}, stored, key, hadRoom && |others + {op.key}| < op.limit)
  {
    var rest := Without(s.entries, op.key);
    var room := MakeRoom(rest, op.limit);
    var e := NewEntry(op.key, op.response, op.ttlSeconds, op.insert);
    PlainPut(s, op);
    KeysCons(e, room);
    WithoutSubseq(s.entries, op.key);
    if key in Keys(room) {
      RoomAhead(s.entries, op.key, key, op.limit);
      AheadCons(e, room, key);
      AheadBound([e] + room, key);
    } else if key in Keys(rest) {
      PushedSawLimit(s.entries, op.key, key, op.limit, others);
    }
  }

  lemma GetExact(s: State, others: set<string>, stored: bool, op: Op, key: string, room: bool)
    requires op.Get? && op.key != key && Distinct(s.entries) && Exact(s, others, stored, key, room)
    requires NoneExpired(s.entries, op.touch) && op.check <= op.touch
    ensures Exact(Apply(s, op), if Uses(s, op) then others + {op.key} else others, stored, key, room)
  {
    var es := s.entries;
    FindKey(es, op.key);
    if op.key in Keys(es) {
      var rest := Without(es, op.key);
      var e := Find(es, op.key).value.(lastAccessed := op.touch);
      WithoutSubseq(es, op.key);
      AheadWithout(es, op.key, key);
      AheadCons(e, rest, key);
      assert ([e] + rest)[1..] == rest;
    }
  }

  lemma {:induction false} RunExact(s0: State, ops: seq<Op>, key: string, start: int)
    requires Legal(ops) && Timed(ops, start) && Fresh(s0) && NothingExpires(s0, ops, start)
    ensures Exact(Run(s0, ops), OthersUsed(s0, ops, key), LatestPut(ops, key).Some?, key, RoomKept(s0, ops, key))
  {
    if ops != [] {
      var op, before := ops[|ops| - 1], ops[..|ops| - 1];
      var s := Run(s0, before);
      RunExact(s0, before, key, start);
      RunKeepsInv(s0, before, start);
      var others, stored := OthersUsed(s0, before, key), LatestPut(before, key).Some?;
      var room := RoomKept(s0, before, key);
      match op
      case Get(_, _, _, _) =>
        if op.key != key {
          GetExact(s, others, stored, op, key, room);
        } else {
          FindKey(s.entries, key);
          if key in Keys(s.entries) {
            var e := Find(s.entries, key).value.(lastAccessed := op.touch);
            AheadCons(e, Without(s.entries, key), key);
          }
        }
      case Put(_, _, _, _, _, _) =>
        if op.key != key {
          PutExact(s, others, stored, op, key, room);
        } else {
          PlainPut(s, op);
          AheadCons(NewEntry(op.key, op.response, op.ttlSeconds, op.insert),
                    MakeRoom(Without(s.entries, op.key), op.limit), key);
        }
      case Clear =>
    }
  }

  /** When nothing expires, a lookup hits if and only if the key was stored, not cleared since, and kept its
      room since its own last use, whatever limits the stores read. */
  lemma HitsWhileRoom(s0: State, ops: seq<Op>, key: string, requestId: string, check: int, touch: int, start: int)
    requires Legal(ops) && Timed(ops, start) && Fresh(s0)
    requires NothingExpires(s0, ops, start) && NoneExpired(Run(s0, ops).entries, check)
    ensures Lookup(Run(s0, ops), key, requestId, check, touch).1.Some?
       <==> LatestPut(ops, key).Some? && RoomKept(s0, ops, key)
  {
    RunExact(s0, ops, key, start);
    FindKey(Run(s0, ops).entries, key);
  }

  lemma {:induction false} FixedSize(s0: State, ops: seq<Op>, limit: int, start: int)
    requires limit >= 1 && FixedLimit(ops, limit) && Legal(ops) && Timed(ops, start) && Fresh(s0)
    ensures |Run(s0, ops).entries| <= limit
  {
    if ops != [] {
      var op, before := ops[|ops| - 1], ops[..|ops| - 1];
      var s := Run(s0, before);
      FixedSize(s0, before, limit, start);
      RunKeepsInv(s0, before, start);
      match op
      case Get(key, _, _, _) =>
        FindKey(s.entries, key);
        WithoutLength(s.entries, key);
      case Put(key, _, _, _, sweep, _) =>
        SurvivorsSubseq(s.entries, key, op.limit, sweep);
      case Clear =>
    }
  }

  /** Under one limit that is the reuse distance: fewer than `limit` distinct other keys used since. */
  lemma ReuseDistance(s0: State, ops: seq<Op>, key: string, limit: int, requestId: string,
                      check: int, touch: int, start: int)
    requires limit >= 1 && FixedLimit(ops, limit) && Legal(ops) && Timed(ops, start) && Fresh(s0)
    requires NothingExpires(s0, ops, start) && NoneExpired(Run(s0, ops).entries, check)
    ensures Lookup(Run(s0, ops), key, requestId, check, touch).1.Some?
       <==> LatestPut(ops, key).Some? && |OthersUsed(s0, ops, key)| < limit
  {
    HitsWhileRoom(s0, ops, key, requestId, check, touch, start);
    var n := |OthersUsed(s0, ops, key)|;
    if n < limit {
      FixedIsBelow(s0, ops, key, limit, n);
      FewOthersKeepRoom(s0, ops, key, n);
    } else {
      RunExact(s0, ops, key, start);
      FixedSize(s0, ops, limit, start);
      if key in Keys(Run(s0, ops).entries) {
        AheadBound(Run(s0, ops).entries, key);
      }
    }
  }
}
