/** A bigger cache never loses a hit: two caches fed the same run, one with the smaller limit. */
module CacheInclusion {
  import opened Types
  import opened Seqs
  import opened CacheModel
  import opened CacheRuns
  import opened CacheRetention

  /** The same operation on a cache with this limit. */
  function Resize(op: Op, limit: int): Op {
    if op.Put? then op.(limit := limit) else op
  }

  /** The state after a run on a cache whose limit is `limit` throughout. */
  function RunAt(s0: State, ops: seq<Op>, limit: int): State
    requires limit >= 1
  {
    if ops == [] then s0 else Apply(RunAt(s0, ops[..|ops| - 1], limit), Resize(ops[|ops| - 1], limit))
  }

  lemma {:induction false} RunAtKeepsInv(s0: State, ops: seq<Op>, limit: int, start: int)
    requires limit >= 1 && Timed(ops, start) && Fresh(s0) && s0.maxSize == limit
    ensures Inv(RunAt(s0, ops, limit), Now(ops, start)) && RunAt(s0, ops, limit).maxSize == limit
  {
    if ops != [] {
      var op, before := ops[|ops| - 1], ops[..|ops| - 1];
      RunAtKeepsInv(s0, before, limit, start);
      ApplyKeepsInv(RunAt(s0, before, limit), Resize(op, limit), Now(before, start));
    }
  }

  // ----- List operations respect the subsequence order ------------------------

  lemma {:induction false} WithoutMono(a: seq<Entry>, b: seq<Entry>, key: string)
    requires Subseq(a, b)
    ensures Subseq(Without(a, key), Without(b, key))
  {
    if a != [] {
      var x, rest := b[0], Without(b[1..], key);
      var a' := if a[0] == x then a[1..] else a;
      WithoutMono(a', b[1..], key);
      if x.key == key {
        assert [] + rest == rest && [] + Without(a', key) == Without(a', key);
      } else if a[0] == x {
        SubseqBoth(Without(a', key), rest, x);
      } else {
        SubseqPrepend(Without(a, key), rest, x);
      }
    }
  }

  lemma {:induction false} LiveMono(a: seq<Entry>, b: seq<Entry>, now: int)
    requires Subseq(a, b)
    ensures Subseq(Live(a, now), Live(b, now))
    ensures |Live(b, now)| - |Live(a, now)| <= |b| - |a|
  {
    if a != [] {
      var x, rest := b[0], Live(b[1..], now);
      var a' := if a[0] == x then a[1..] else a;
      LiveMono(a', b[1..], now);
      if Expired(x, now) {
        assert [] + rest == rest && [] + Live(a', now) == Live(a', now);
      } else if a[0] == x {
        SubseqBoth(Live(a', now), rest, x);
      } else {
        SubseqPrepend(Live(a, now), rest, x);
      }
    }
  }

  // ----- When nothing expires: the recency list itself is included -------------

  ghost predicate Included(a: seq<Entry>, b: seq<Entry>, m: int, n: int) {
    Subseq(a, b) && |a| == Min(m, |b|) && |b| <= n
  }

  lemma FindIncluded(a: seq<Entry>, b: seq<Entry>, key: string)
    requires Subseq(a, b) && Distinct(b) && key in Keys(a)
    ensures Find(a, key) == Find(b, key) && key in Keys(b)
  {
    SubseqKeys(a, b);
    FindKey(a, key);
    SubseqMember(a, b);
    var e := Find(a, key).value;
    var i :| 0 <= i < |b| && b[i] == e;
    WithoutAt(b, i);
  }

  lemma GetIncluded(s: State, t: State, op: Op, m: int, n: int)
    requires op.Get? && op.check <= op.touch && 1 <= m <= n
    requires Distinct(s.entries) && Distinct(t.entries) && NoneExpired(t.entries, op.touch)
    requires Included(s.entries, t.entries, m, n)
    ensures Included(Apply(s, op).entries, Apply(t, op).entries, m, n)
  {
    var a, b, key := s.entries, t.entries, op.key;
    FindKey(a, key);
    FindKey(b, key);
    WithoutMono(a, b, key);
    WithoutLength(a, key);
    WithoutLength(b, key);
    if key in Keys(a) {
      FindIncluded(a, b, key);
      SubseqBoth(Without(a, key), Without(b, key), Find(a, key).value.(lastAccessed := op.touch));
    } else if key in Keys(b) {
      WithoutAbsent(a, key);
      SubseqPrepend(a, Without(b, key), Find(b, key).value.(lastAccessed := op.touch));
    }
  }

  lemma PutIncluded(s: State, t: State, op: Op, m: int, n: int)
    requires op.Put? && op.sweep <= op.insert && 1 <= m <= n
    requires Distinct(s.entries) && Distinct(t.entries) && NoneExpired(t.entries, op.insert)
    requires Included(s.entries, t.entries, m, n)
    ensures Included(Apply(s, Resize(op, m)).entries, Apply(t, Resize(op, n)).entries, m, n)
  {
    var a, b := Without(s.entries, op.key), Without(t.entries, op.key);
    SubseqMember(s.entries, t.entries);
    PlainPut(s, Resize(op, m));
    PlainPut(t, Resize(op, n));
    WithoutMono(s.entries, t.entries, op.key);
    WithoutLength(s.entries, op.key);
    WithoutLength(t.entries, op.key);
    SubseqKeys(s.entries, t.entries);
    if |b| >= n {
      assert |a| == m;
      SubseqDropLast(a, b);
    } else {
      SubseqPrefix(a, b, |MakeRoom(a, m)|);
    }
    SubseqBoth(MakeRoom(a, m), MakeRoom(b, n), NewEntry(op.key, op.response, op.ttlSeconds, op.insert));
  }

  /** No listed entry of the larger cache expires during the run. */
  ghost predicate QuietRun(t0: State, ops: seq<Op>, n: int, start: int)
    requires n >= 1
  {
    ops == [] ||
    (var before := ops[..|ops| - 1];
     QuietRun(t0, before, n, start) && NoneExpired(RunAt(t0, before, n).entries, Now(ops, start)))
  }

  /** The smaller recency list is a subsequence of the larger, as long as the limits allow. */
  lemma {:induction false} RecencyListIncluded(s0: State, t0: State, ops: seq<Op>, m: int, n: int, start: int)
    requires 1 <= m <= n && Timed(ops, start) && QuietRun(t0, ops, n, start)
    requires Fresh(s0) && Fresh(t0) && s0.maxSize == m && t0.maxSize == n
    ensures Included(RunAt(s0, ops, m).entries, RunAt(t0, ops, n).entries, m, n)
  {
    if ops != [] {
      var op, before := ops[|ops| - 1], ops[..|ops| - 1];
      RecencyListIncluded(s0, t0, before, m, n, start);
      RunAtKeepsInv(s0, before, m, start);
      RunAtKeepsInv(t0, before, n, start);
      match op
      case Get(_, _, _, _) => GetIncluded(RunAt(s0, before, m), RunAt(t0, before, n), op, m, n);
      case Put(_, _, _, _, _, _) => PutIncluded(RunAt(s0, before, m), RunAt(t0, before, n), op, m, n);
      case Clear =>
    }
  }

  // ----- With expiry: every hit is still included ------------------------------
  //
  // The two caches sweep at different times, so their lists need no longer be included. What survives
  // is inclusion among the entries that are current: not expired at the last store's sweep, or stored
  // by that store itself.

  predicate IsCurrent(e: Entry, now: int, newest: string) {
    !Expired(e, now) || e.key == newest
  }

  function Current(es: seq<Entry>, now: int, newest: string): seq<Entry> {
    if es == [] then []
    else (if IsCurrent(es[0], now, newest) then [es[0]] else []) + Current(es[1..], now, newest)
  }

  ghost predicate AllCurrent(es: seq<Entry>, now: int, newest: string) {
    forall e :: e in es ==> IsCurrent(e, now, newest)
  }

  /** Only the entry at the back may be outdated. */
  predicate CurrentButLast(es: seq<Entry>, now: int, newest: string) {
    |es| <= 1 || (IsCurrent(es[0], now, newest) && CurrentButLast(es[1..], now, newest))
  }

  ghost predicate Shadows(a: seq<Entry>, b: seq<Entry>, m: int, n: int, now: int, newest: string) {
    && Distinct(a) && Distinct(b) && |a| <= m && |b| <= n
    && Subseq(Current(a, now, newest), Current(b, now, newest))
    && |Current(b, now, newest)| - |Current(a, now, newest)| <= n - m
    && (|a| == m ==> CurrentButLast(a, now, newest))
    && (|b| == n && n >= 3 ==> AllCurrent(b, now, newest))
  }

  lemma CurrentCons(e: Entry, es: seq<Entry>, now: int, newest: string)
    ensures Current([e] + es, now, newest)
         == if IsCurrent(e, now, newest) then [e] + Current(es, now, newest) else Current(es, now, newest)
  {
    assert ([e] + es)[1..] == es && [] + Current(es, now, newest) == Current(es, now, newest);
  }

  lemma {:induction false} CurrentSubseq(es: seq<Entry>, now: int, newest: string)
    ensures Subseq(Current(es, now, newest), es)
  {
    if es != [] {
      var x, rest := es[0], Current(es[1..], now, newest);
      assert es == [x] + es[1..];
      CurrentSubseq(es[1..], now, newest);
      CurrentCons(x, es[1..], now, newest);
      SubseqPrepend(rest, es[1..], x);
      SubseqBoth(rest, es[1..], x);
    }
  }

  lemma CurrentDistinct(es: seq<Entry>, now: int, newest: string)
    requires Distinct(es)
    ensures Distinct(Current(es, now, newest)) && |Current(es, now, newest)| <= |es|
    ensures |Current(es, now, newest)| == |es| ==> Current(es, now, newest) == es
  {
    CurrentSubseq(es, now, newest);
    SubseqDistinct(Current(es, now, newest), es);
    SubseqMember(Current(es, now, newest), es);
  }

  lemma {:induction false} CurrentIsAll(es: seq<Entry>, now: int, newest: string)
    requires AllCurrent(es, now, newest)
    ensures Current(es, now, newest) == es && CurrentButLast(es, now, newest)
  {
    if es != [] {
      assert es[0] in es && forall e :: e in es[1..] ==> e in es;
      assert es == [es[0]] + es[1..];
      CurrentIsAll(es[1..], now, newest);
    }
  }

  lemma {:induction false} CurrentWithout(es: seq<Entry>, key: string, now: int, newest: string)
    ensures Current(Without(es, key), now, newest) == Without(Current(es, now, newest), key)
  {
    if es != [] {
      var x, rest, current := es[0], Without(es[1..], key), Current(es[1..], now, newest);
      CurrentWithout(es[1..], key, now, newest);
      CurrentCons(x, rest, now, newest);
      CurrentCons(x, es[1..], now, newest);
      assert es == [x] + es[1..];
      assert [] + rest == rest && ([x] + current)[1..] == current;
      assert [] + Without(current, key) == Without(current, key);
    }
  }

  /** What is outdated now is expired at every later sweep. */
  lemma {:induction false} CurrentLater(es: seq<Entry>, now: int, newest: string, later: int)
    requires now <= later
    ensures Live(Current(es, now, newest), later) == Live(es, later)
  {
    if es != [] {
      var x := es[0];
      assert es == [x] + es[1..];
      CurrentLater(es[1..], now, newest, later);
      CurrentCons(x, es[1..], now, newest);
      LiveCons(x, es[1..], later);
      LiveCons(x, Current(es[1..], now, newest), later);
    }
  }

  lemma LiveCons(e: Entry, es: seq<Entry>, now: int)
    ensures Live([e] + es, now) == if Expired(e, now) then Live(es, now) else [e] + Live(es, now)
  {
    assert ([e] + es)[1..] == es && [] + Live(es, now) == Live(es, now);
  }

  lemma {:induction false} LiveTwice(es: seq<Entry>, now: int)
    ensures Live(Live(es, now), now) == Live(es, now)
  {
    if es != [] {
      var x := es[0];
      assert es == [x] + es[1..];
      LiveTwice(es[1..], now);
      LiveCons(x, es[1..], now);
      LiveCons(x, Live(es[1..], now), now);
    }
  }

  /** Among older entries, the current ones are the live ones. */
  lemma {:induction false} CurrentIsLive(es: seq<Entry>, now: int, newest: string)
    requires newest !in Keys(es)
    ensures Current(es, now, newest) == Live(es, now)
  {
    if es != [] {
      CurrentIsLive(es[1..], now, newest);
    }
  }

  lemma {:induction false} CurrentFind(es: seq<Entry>, key: string, now: int, newest: string)
    requires Distinct(es)
    ensures key in Keys(Current(es, now, newest)) <==>
      Find(es, key).Some? && IsCurrent(Find(es, key).value, now, newest)
    ensures key in Keys(Current(es, now, newest)) ==> Find(Current(es, now, newest), key) == Find(es, key)
  {
    if es != [] {
      var x, rest := es[0], Current(es[1..], now, newest);
      CurrentFind(es[1..], key, now, newest);
      CurrentCons(x, es[1..], now, newest);
      assert es == [x] + es[1..];
      KeysCons(x, rest);
      FindCons(x, rest, key);
      FindKey(es[1..], key);
    }
  }

  lemma {:induction false} CurrentButLastWithout(es: seq<Entry>, key: string, now: int, newest: string)
    requires CurrentButLast(es, now, newest)
    ensures CurrentButLast(Without(es, key), now, newest)
  {
    if es != [] {
      var rest := Without(es[1..], key);
      CurrentButLastWithout(es[1..], key, now, newest);
      assert ([es[0]] + rest)[1..] == rest && [] + rest == rest;
      if |es| == 1 {
        assert rest == [];
      }
    }
  }

  lemma {:induction false} CurrentButLastPrefix(es: seq<Entry>, now: int, newest: string)
    requires es != [] && CurrentButLast(es, now, newest)
    ensures es[..|es| - 1] <= Current(es, now, newest)
  {
    if |es| > 1 {
      CurrentButLastPrefix(es[1..], now, newest);
      CurrentCons(es[0], es[1..], now, newest);
      assert es == [es[0]] + es[1..];
      assert es[..|es| - 1] == [es[0]] + es[1..][..|es| - 2];
    }
  }

  /** Erasing a key on both sides, or only where it is not shared, keeps the order. */
  lemma ShadowsWithout(a: seq<Entry>, b: seq<Entry>, key: string, m: int, n: int, now: int, newest: string)
    requires Shadows(a, b, m, n, now, newest)
    ensures var x, y := Current(Without(a, key), now, newest), Current(Without(b, key), now, newest);
      Subseq(x, y) && |y| - |x| <= n - m
    ensures key !in Keys(Current(a, now, newest)) ==>
      Current(Without(a, key), now, newest) == Current(a, now, newest)
    ensures |Current(Without(b, key), now, newest)|
         == |Current(b, now, newest)| - (if key in Keys(Current(b, now, newest)) then 1 else 0)
  {
    var x, y := Current(a, now, newest), Current(b, now, newest);
    CurrentWithout(a, key, now, newest);
    CurrentWithout(b, key, now, newest);
    WithoutMono(x, y, key);
    CurrentDistinct(a, now, newest);
    CurrentDistinct(b, now, newest);
    WithoutLength(x, key);
    WithoutLength(y, key);
    SubseqKeys(x, y);
    if key !in Keys(x) {
      WithoutAbsent(x, key);
    }
  }

  lemma DistinctWithout(es: seq<Entry>, key: string)
    requires Distinct(es)
    ensures Distinct(Without(es, key)) && key !in Keys(Without(es, key)) && |Without(es, key)| <= |es|
    ensures forall e :: e in Without(es, key) ==> e in es
  {
    WithoutSubseq(es, key);
    SubseqDistinct(Without(es, key), es);
    SubseqMember(Without(es, key), es);
  }

  lemma {:induction false} FindNamed(es: seq<Entry>, key: string)
    requires Find(es, key).Some?
    ensures Find(es, key).value.key == key && Find(es, key).value in es
  {
    if es[0].key != key {
      FindNamed(es[1..], key);
    }
  }

  /** The list a lookup leaves behind, given what it finds. */
  function Looked(es: seq<Entry>, f: Option<Entry>, op: Op): seq<Entry>
    requires op.Get?
  {
    if f.Some? && !Expired(f.value, op.check)
    then [f.value.(lastAccessed := op.touch)] + Without(es, op.key)
    else Without(es, op.key)
  }

  lemma LookupShape(s: State, op: Op)
    requires op.Get?
    ensures Apply(s, op).entries == Looked(s.entries, Find(s.entries, op.key), op)
  {
    FindKey(s.entries, op.key);
    if Find(s.entries, op.key).None? {
      WithoutAbsent(s.entries, op.key);
    } else {
      FindNamed(s.entries, op.key);
    }
  }

  /** The size conditions survive a hit. */
  lemma HitSizes(es: seq<Entry>, e: Entry, key: string, now: int, newest: string)
    requires Distinct(es) && key in Keys(es) && IsCurrent(e, now, newest) && e.key == key
    ensures var r := [e] + Without(es, key);
      Distinct(r) && |r| == |es|
      && (CurrentButLast(es, now, newest) ==> CurrentButLast(r, now, newest))
      && (AllCurrent(es, now, newest) ==> AllCurrent(r, now, newest))
  {
    var rest := Without(es, key);
    DistinctWithout(es, key);
    WithoutLength(es, key);
    assert ([e] + rest)[1..] == rest;
    if CurrentButLast(es, now, newest) {
      CurrentButLastWithout(es, key, now, newest);
    }
  }

  lemma LookedSizes(es: seq<Entry>, op: Op, limit: int, now: int, newest: string)
    requires op.Get? && now <= op.check && Distinct(es) && |es| <= limit
    ensures var r := Looked(es, Find(es, op.key), op);
      Distinct(r) && |r| <= limit
      && (|r| == limit && (|es| == limit ==> CurrentButLast(es, now, newest)) ==> CurrentButLast(r, now, newest))
      && (|r| == limit && (|es| == limit ==> AllCurrent(es, now, newest)) ==> AllCurrent(r, now, newest))
  {
    var f, key := Find(es, op.key), op.key;
    FindKey(es, key);
    DistinctWithout(es, key);
    WithoutLength(es, key);
    if f.Some? && !Expired(f.value, op.check) {
      FindNamed(es, key);
      HitSizes(es, f.value.(lastAccessed := op.touch), key, now, newest);
    } else if f.None? {
      WithoutAbsent(es, key);
    }
  }

  /** A current entry of the smaller list is the entry the larger list has for that key. */
  lemma SharedEntry(a: seq<Entry>, b: seq<Entry>, key: string, m: int, n: int, now: int, newest: string)
    requires Shadows(a, b, m, n, now, newest) && key in Keys(Current(a, now, newest))
    ensures Find(a, key) == Find(b, key) && Find(a, key).Some?
  {
    CurrentFind(a, key, now, newest);
    CurrentFind(b, key, now, newest);
    CurrentDistinct(b, now, newest);
    FindIncluded(Current(a, now, newest), Current(b, now, newest), key);
  }

  lemma LookedOrder(a: seq<Entry>, b: seq<Entry>, op: Op, m: int, n: int, now: int, newest: string)
    requires op.Get? && now <= op.check && Shadows(a, b, m, n, now, newest)
    ensures var x := Current(Looked(a, Find(a, op.key), op), now, newest);
      var y := Current(Looked(b, Find(b, op.key), op), now, newest);
      Subseq(x, y) && |y| - |x| <= n - m
  {
    var key, f, g := op.key, Find(a, op.key), Find(b, op.key);
    var a', b' := Without(a, key), Without(b, key);
    ShadowsWithout(a, b, key, m, n, now, newest);
    CurrentFind(a, key, now, newest);
    CurrentFind(b, key, now, newest);
    if key in Keys(Current(a, now, newest)) {
      SharedEntry(a, b, key, m, n, now, newest);
    }
    if g.Some? && !Expired(g.value, op.check) {
      var e := g.value.(lastAccessed := op.touch);
      CurrentCons(e, b', now, newest);
      if f == g {
        CurrentCons(e, a', now, newest);
        SubseqBoth(Current(a', now, newest), Current(b', now, newest), e);
      } else {
        SubseqPrepend(Current(a', now, newest), Current(b', now, newest), e);
      }
    }
  }

  lemma GetShadows(s: State, t: State, op: Op, m: int, n: int, now: int, newest: string)
    requires op.Get? && now <= op.check && Shadows(s.entries, t.entries, m, n, now, newest)
    ensures Shadows(Apply(s, op).entries, Apply(t, op).entries, m, n, now, newest)
  {
    LookupShape(s, op);
    LookupShape(t, op);
    LookedSizes(s.entries, op, m, now, newest);
    LookedSizes(t.entries, op, n, now, newest);
    LookedOrder(s.entries, t.entries, op, m, n, now, newest);
  }

  // The store: first what is left after the pops, as seen at the sweep's clock reading.

  ghost predicate LiveShadows(x: seq<Entry>, y: seq<Entry>, slack: int, sweep: int) {
    Subseq(Live(x, sweep), Live(y, sweep)) && |Live(y, sweep)| - |Live(x, sweep)| <= slack
  }

  lemma RoomWhenLargerPops(a: seq<Entry>, b: seq<Entry>, key: string, m: int, n: int,
                           now: int, newest: string, sweep: int)
    requires 2 <= m <= n && 3 <= n && Shadows(a, b, m, n, now, newest) && |Without(b, key)| >= n
    ensures LiveShadows(MakeRoom(Without(a, key), m), MakeRoom(Without(b, key), n), n - m, sweep)
  {
    WithoutLength(b, key);
    CurrentIsAll(b, now, newest);
    CurrentDistinct(a, now, newest);
    assert Subseq(a, b) && |a| == m && |b| == n;
    SubseqKeys(a, b);
    WithoutAbsent(a, key);
    WithoutAbsent(b, key);
    SubseqDropLast(a, b);
    LiveMono(a[..|a| - 1], b[..|b| - 1], sweep);
  }

  lemma RoomWhenSmallerPops(a: seq<Entry>, b: seq<Entry>, key: string, m: int, n: int,
                            now: int, newest: string, sweep: int)
    requires 2 <= m <= n && now <= sweep && Shadows(a, b, m, n, now, newest)
    requires |Without(b, key)| < n && |Without(a, key)| >= m
    ensures LiveShadows(MakeRoom(Without(a, key), m), MakeRoom(Without(b, key), n), n - m, sweep)
  {
    WithoutLength(a, key);
    WithoutAbsent(a, key);
    var x, y := a[..m - 1], Without(b, key);
    assert Subseq(x, Current(y, now, newest)) by {
      CurrentButLastPrefix(a, now, newest);
      assert x == Current(a, now, newest)[..m - 1];
      SubseqPrefix(Current(a, now, newest), Current(b, now, newest), m - 1);
      WithoutMono(x, Current(b, now, newest), key);
      CurrentWithout(b, key, now, newest);
      SubseqRefl(a);
      SubseqPrefix(a, a, m - 1);
      SubseqKeys(x, a);
      WithoutAbsent(x, key);
    }
    CurrentSubseq(y, now, newest);
    SubseqMember(Current(y, now, newest), y);
    LiveMono(x, Current(y, now, newest), sweep);
    CurrentLater(y, now, newest, sweep);
  }

  lemma RoomWhenNeitherPops(a: seq<Entry>, b: seq<Entry>, key: string, m: int, n: int,
                            now: int, newest: string, sweep: int)
    requires 1 <= m <= n && now <= sweep && Shadows(a, b, m, n, now, newest)
    requires |Without(b, key)| < n && |Without(a, key)| < m
    ensures LiveShadows(MakeRoom(Without(a, key), m), MakeRoom(Without(b, key), n), n - m, sweep)
  {
    var x, y := Without(a, key), Without(b, key);
    ShadowsWithout(a, b, key, m, n, now, newest);
    LiveMono(Current(x, now, newest), Current(y, now, newest), sweep);
    CurrentLater(x, now, newest, sweep);
    CurrentLater(y, now, newest, sweep);
  }

  lemma RoomShadows(a: seq<Entry>, b: seq<Entry>, key: string, m: int, n: int, now: int, newest: string, sweep: int)
    requires 1 <= m < n && now <= sweep && Shadows(a, b, m, n, now, newest)
    ensures LiveShadows(MakeRoom(Without(a, key), m), MakeRoom(Without(b, key), n), n - m, sweep)
  {
    if m == 1 {
      assert MakeRoom(Without(a, key), 1) == [];
    } else if |Without(b, key)| >= n {
      RoomWhenLargerPops(a, b, key, m, n, now, newest, sweep);
    } else if |Without(a, key)| >= m {
      RoomWhenSmallerPops(a, b, key, m, n, now, newest, sweep);
    } else {
      RoomWhenNeitherPops(a, b, key, m, n, now, newest, sweep);
    }
  }

  /** After a store, a full list has been swept, unless it is too short to be more than half full. */
  lemma StoredSizes(s: State, op: Op)
    requires op.Put? && op.limit >= 1 && Distinct(s.entries)
    ensures var r := Apply(s, op).entries;
      && Distinct(r) && |r| <= op.limit
      && Current(r, op.sweep, op.key)
         == [NewEntry(op.key, op.response, op.ttlSeconds, op.insert)]
          + Live(MakeRoom(Without(s.entries, op.key), op.limit), op.sweep)
      && (|r| == op.limit ==> CurrentButLast(r, op.sweep, op.key))
      && (|r| == op.limit && op.limit >= 3 ==> AllCurrent(r, op.sweep, op.key))
  {
    var room := MakeRoom(Without(s.entries, op.key), op.limit);
    var kept := Sweep(room, op.limit, op.sweep);
    var e := NewEntry(op.key, op.response, op.ttlSeconds, op.insert);
    SurvivorsSubseq(s.entries, op.key, op.limit, op.sweep);
    SubseqDistinct(kept, s.entries);
    assert ([e] + kept)[1..] == kept;
    CurrentCons(e, kept, op.sweep, op.key);
    CurrentIsLive(kept, op.sweep, op.key);
    LiveTwice(room, op.sweep);
    LiveSubseq(room, op.sweep);
    if |kept| == op.limit - 1 && op.limit >= 3 {
      CurrentIsAll(kept, op.sweep, op.key);
    }
  }

  lemma PutShadows(s: State, t: State, op: Op, m: int, n: int, now: int, newest: string)
    requires op.Put? && now <= op.sweep && 1 <= m < n && Shadows(s.entries, t.entries, m, n, now, newest)
    ensures Shadows(Apply(s, Resize(op, m)).entries, Apply(t, Resize(op, n)).entries, m, n, op.sweep, op.key)
  {
    StoredSizes(s, Resize(op, m));
    StoredSizes(t, Resize(op, n));
    RoomShadows(s.entries, t.entries, op.key, m, n, now, newest, op.sweep);
    SubseqBoth(Live(MakeRoom(Without(s.entries, op.key), m), op.sweep),
               Live(MakeRoom(Without(t.entries, op.key), n), op.sweep),
               NewEntry(op.key, op.response, op.ttlSeconds, op.insert));
  }

  /** The clock reading of the last sweep, and the key of the last store. */
  function LastSweep(ops: seq<Op>, start: int): (int, string) {
    if ops == [] then (start, "")
    else if ops[|ops| - 1].Put? then (ops[|ops| - 1].sweep, ops[|ops| - 1].key)
    else LastSweep(ops[..|ops| - 1], start)
  }

  lemma {:induction false} LastSweepPast(ops: seq<Op>, start: int)
    requires Timed(ops, start)
    ensures LastSweep(ops, start).0 <= Now(ops, start)
  {
    if ops != [] {
      LastSweepPast(ops[..|ops| - 1], start);
    }
  }

  lemma {:induction false} RunShadows(s0: State, t0: State, ops: seq<Op>, m: int, n: int, start: int)
    requires 1 <= m < n && Timed(ops, start) && s0.entries == [] && t0.entries == []
    ensures var (now, newest) := LastSweep(ops, start);
      Shadows(RunAt(s0, ops, m).entries, RunAt(t0, ops, n).entries, m, n, now, newest)
  {
    if ops != [] {
      var op, before := ops[|ops| - 1], ops[..|ops| - 1];
      var s, t := RunAt(s0, before, m), RunAt(t0, before, n);
      var (now, newest) := LastSweep(before, start);
      RunShadows(s0, t0, before, m, n, start);
      LastSweepPast(before, start);
      match op
      case Get(_, _, _, _) => GetShadows(s, t, op, m, n, now, newest);
      case Put(_, _, _, _, _, _) => PutShadows(s, t, op, m, n, now, newest);
      case Clear =>
    }
  }

  lemma {:induction false} SameLimitSameList(s0: State, t0: State, ops: seq<Op>, n: int)
    requires n >= 1 && s0.entries == [] && t0.entries == []
    ensures RunAt(s0, ops, n).entries == RunAt(t0, ops, n).entries
  {
    if ops != [] {
      SameLimitSameList(s0, t0, ops[..|ops| - 1], n);
    }
  }

  /** Whatever expires on the way: a hit in the smaller cache is a hit in the larger, with the same response. */
  lemma LargerCacheKeepsHits(s0: State, t0: State, ops: seq<Op>, m: int, n: int, start: int,
                             key: string, requestId: string, check: int, touch: int)
    requires 1 <= m <= n && Timed(ops, start) && Now(ops, start) <= check
    requires s0.entries == [] && t0.entries == []
    ensures var small := Lookup(RunAt(s0, ops, m), key, requestId, check, touch).1;
      var large := Lookup(RunAt(t0, ops, n), key, requestId, check, touch).1;
      small.Some? ==> large == small
  {
    if m == n {
      SameLimitSameList(s0, t0, ops, n);
    } else {
      var a, b := RunAt(s0, ops, m).entries, RunAt(t0, ops, n).entries;
      var (now, newest) := LastSweep(ops, start);
      RunShadows(s0, t0, ops, m, n, start);
      LastSweepPast(ops, start);
      CurrentFind(a, key, now, newest);
      if key in Keys(Current(a, now, newest)) {
        SharedEntry(a, b, key, m, n, now, newest);
      }
    }
  }
}
