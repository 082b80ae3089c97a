/** Counters and the bounded latency window. */
module Metrics {
  import opened Types

  const WINDOW_LIMIT: nat := 10_000
  const WINDOW_DROP: nat := 5_000

  function Observe(window: seq<real>, ms: real): (r: seq<real>)
  {
    var w := window + [ms];
    if |w| > WINDOW_LIMIT then w[WINDOW_DROP..] else w
  }

  function Window(observed: seq<real>): seq<real> {
    if observed == [] then []
    else Observe(Window(observed[..|observed| - 1]), observed[|observed| - 1])
  }

  /** How many observations the window holds after n of them. */
  function WindowSize(n: nat): (size: nat)
    ensures size <= 10_000 && size <= n
  {
    if n <= 10_000 then n else 5_001 + (n - 10_001) % 5_000
  }

  lemma WindowSizeStep(n: nat)
    ensures WindowSize(n + 1) == if WindowSize(n) == WINDOW_LIMIT then WINDOW_LIMIT - WINDOW_DROP + 1
                                 else WindowSize(n) + 1
  {
    if n > WINDOW_LIMIT {
      var k := n - WINDOW_LIMIT - 1;
      assert k == k / WINDOW_DROP * WINDOW_DROP + k % WINDOW_DROP;
      if k % WINDOW_DROP == WINDOW_DROP - 1 {
        assert (k + 1) % WINDOW_DROP == 0;
      } else {
        assert (k + 1) % WINDOW_DROP == k % WINDOW_DROP + 1;
      }
    }
  }

  lemma ObserveSuffix(before: seq<real>, ms: real, size: nat)
    requires size <= |before| && size <= WINDOW_LIMIT
    ensures var n := if size == WINDOW_LIMIT then WINDOW_LIMIT - WINDOW_DROP + 1 else size + 1;
      Observe(before[|before| - size..], ms) == (before + [ms])[|before| + 1 - n..]
  {
    var w := before[|before| - size..] + [ms];
    assert w == (before + [ms])[|before| - size..];
  }

  /** The window is always a suffix of all observations, of a known length of at most 10000. */
  lemma {:induction false} WindowIsSuffix(observed: seq<real>)
    ensures Window(observed) == observed[|observed| - WindowSize(|observed|)..]
  {
    if observed != [] {
      var before, ms := observed[..|observed| - 1], observed[|observed| - 1];
      WindowIsSuffix(before);
      WindowSizeStep(|before|);
      ObserveSuffix(before, ms, WindowSize(|before|));
      assert before + [ms] == observed;
    }
  }

  // ----- The 99th percentile ---------------------------------------------------------------

  ghost predicate Ascending(s: seq<real>) {
    forall i, j :: 0 <= i < j < |s| ==> s[i] <= s[j]
  }

  /** Sorting as the library does it: an ascending permutation. */
  ghost predicate Sorts(sort: seq<real> -> seq<real>) {
    forall s :: Ascending(sort(s)) && multiset(sort(s)) == multiset(s)
  }

  function P99Index(n: nat): (i: nat)
    requires n > 0
    ensures i < n
  {
    var i := (n as real * 0.99).Floor;
    if i < n - 1 then i else n - 1
  }

  function Sum(s: seq<real>): real {
    if s == [] then 0.0 else Sum(s[..|s| - 1]) + s[|s| - 1]
  }

  function Exceeding(s: seq<real>, x: real): nat {
    if s == [] then 0
    else Exceeding(s[..|s| - 1], x) + (if s[|s| - 1] > x then 1 else 0)
  }

  lemma {:induction false} ExceedingSorted(s: seq<real>, i: nat)
    requires Ascending(s) && i < |s|
    ensures Exceeding(s, s[i]) <= |s| - 1 - i
  {
    var before := s[..|s| - 1];
    if i < |s| - 1 {
      ExceedingSorted(before, i);
    } else {
      NoneExceeds(s, s[i]);
    }
  }

  lemma {:induction false} NoneExceeds(s: seq<real>, x: real)
    requires forall i :: 0 <= i < |s| ==> s[i] <= x
    ensures Exceeding(s, x) == 0
  {
    if s != [] {
      NoneExceeds(s[..|s| - 1], x);
    }
  }

  lemma {:induction false} ExceedingInsert(a: seq<real>, v: real, b: seq<real>, x: real)
    ensures Exceeding(a + [v] + b, x) == Exceeding(a + b, x) + (if v > x then 1 else 0)
  {
    var s := a + [v] + b;
    if b == [] {
      assert s[..|s| - 1] == a && a + b == a;
    } else {
      assert s[..|s| - 1] == a + [v] + b[..|b| - 1];
      assert (a + b)[..|a + b| - 1] == a + b[..|b| - 1];
      ExceedingInsert(a, v, b[..|b| - 1], x);
    }
  }

  lemma RemoveOne(s: seq<real>, t: seq<real>, i: nat)
    requires s != [] && i < |t| && t[i] == s[|s| - 1] && multiset(s) == multiset(t)
    ensures multiset(s[..|s| - 1]) == multiset(t[..i] + t[i + 1..])
  {
    var a, b, v := t[..i], t[i + 1..], t[i];
    assert s == s[..|s| - 1] + [v];
    assert t == a + [v] + b;
    assert multiset(s) == multiset(s[..|s| - 1]) + multiset{v};
    assert multiset(a + [v] + b) == multiset(a) + multiset{v} + multiset(b);
    assert multiset(a + b) == multiset(a) + multiset(b);
    assert multiset(a + b) + multiset{v} == multiset(s);
    assert multiset(s[..|s| - 1]) == multiset(s) - multiset{v};
    assert multiset(a + b) == multiset(a + b) + multiset{v} - multiset{v};
  }

  /** Counting does not depend on the order. */
  lemma {:induction false} ExceedingPermuted(s: seq<real>, t: seq<real>, x: real)
    requires multiset(s) == multiset(t)
    ensures Exceeding(s, x) == Exceeding(t, x)
  {
    if s == [] {
      assert |t| == |multiset(t)| == 0;
    } else {
      var v := s[|s| - 1];
      assert v in multiset(s);
      var i :| 0 <= i < |t| && t[i] == v;
      RemoveOne(s, t, i);
      ExceedingPermuted(s[..|s| - 1], t[..i] + t[i + 1..], x);
      ExceedingInsert(t[..i], v, t[i + 1..], x);
      assert t == t[..i] + [v] + t[i + 1..];
    }
  }

  function P99(window: seq<real>, sort: seq<real> -> seq<real>): real {
    var sorted := sort(window);
    if sorted == [] then 0.0 else sorted[P99Index(|sorted|)]
  }

  /** Strictly fewer than one in a hundred of the window's latencies exceed the reported p99,
      and the reported value is one of them. */
  lemma FewExceedP99(window: seq<real>, sort: seq<real> -> seq<real>)
    requires window != [] && Sorts(sort)
    ensures 100 * Exceeding(window, P99(window, sort)) < |window| && P99(window, sort) in window
  {
    var sorted := sort(window);
    assert |sorted| == |multiset(sorted)| == |multiset(window)| == |window|;
    var n := |sorted|;
    var i := P99Index(n);
    ExceedingSorted(sorted, i);
    ExceedingPermuted(sorted, window, sorted[i]);
    assert 100 * (n - 1 - i) < n;
    assert sorted[i] in multiset(window);
  }

  function Reaching(s: seq<real>, x: real): nat {
    if s == [] then 0
    else Reaching(s[..|s| - 1], x) + (if s[|s| - 1] >= x then 1 else 0)
  }

  lemma {:induction false} AllReach(s: seq<real>, x: real)
    requires forall i :: 0 <= i < |s| ==> s[i] >= x
    ensures Reaching(s, x) == |s|
  {
    if s != [] {
      AllReach(s[..|s| - 1], x);
    }
  }

  lemma {:induction false} ReachingConcat(a: seq<real>, b: seq<real>, x: real)
    ensures Reaching(a + b, x) == Reaching(a, x) + Reaching(b, x)
  {
    if b == [] {
      assert a + b == a;
    } else {
      assert (a + b)[..|a + b| - 1] == a + b[..|b| - 1];
      ReachingConcat(a, b[..|b| - 1], x);
    }
  }

  lemma {:induction false} ReachingPermuted(s: seq<real>, t: seq<real>, x: real)
    requires multiset(s) == multiset(t)
    ensures Reaching(s, x) == Reaching(t, x)
  {
    if s == [] {
      assert |t| == |multiset(t)| == 0;
    } else {
      var v := s[|s| - 1];
      assert v in multiset(s);
      var i :| 0 <= i < |t| && t[i] == v;
      RemoveOne(s, t, i);
      ReachingPermuted(s[..|s| - 1], t[..i] + t[i + 1..], x);
      ReachingConcat(t[..i], t[i + 1..], x);
      ReachingConcat(t[..i], [v], x);
      ReachingConcat(t[..i] + [v], t[i + 1..], x);
      assert Reaching([v], x) == Reaching([], x) + (if v >= x then 1 else 0);
      assert t == t[..i] + [v] + t[i + 1..];
    }
  }

  lemma EnoughFrom(n: nat)
    requires n > 0
    ensures 100 * (n - P99Index(n)) >= n
  {}

  lemma ReachingSorted(s: seq<real>, i: nat)
    requires Ascending(s) && i < |s|
    ensures Reaching(s, s[i]) >= |s| - i
  {
    assert s == s[..i] + s[i..];
    ReachingConcat(s[..i], s[i..], s[i]);
    AllReach(s[i..], s[i]);
  }

  /** At least one in a hundred of the window's latencies reach the reported p99. */
  lemma EnoughReachP99(window: seq<real>, sort: seq<real> -> seq<real>)
    requires window != [] && Sorts(sort)
    ensures 100 * Reaching(window, P99(window, sort)) >= |window|
  {
    var sorted := sort(window);
    assert |sorted| == |multiset(sorted)| == |multiset(window)| == |window|;
    var i := P99Index(|sorted|);
    EnoughFrom(|sorted|);
    ReachingSorted(sorted, i);
    ReachingPermuted(sorted, window, sorted[i]);
  }

  // ----- The mean -----------------------------------------------------------------------------

  /** The sum the mean is taken from: additive, and of one latency that latency. */
  lemma {:induction false} SumConcat(a: seq<real>, b: seq<real>)
    ensures Sum(a + b) == Sum(a) + Sum(b)
    ensures forall x: real :: Sum([x]) == x
  {
    forall x: real ensures Sum([x]) == x {
      assert [x][..0] == [];
    }
    if b == [] {
      assert a + b == a;
    } else {
      assert (a + b)[..|a + b| - 1] == a + b[..|b| - 1];
      SumConcat(a, b[..|b| - 1]);
    }
  }

  // ----- The code ------------------------------------------------------------------------------

  datatype Snapshot = Snapshot(
    totalRequests: nat, totalErrors: nat, cacheHits: nat, cacheMisses: nat, totalTokens: int,
    avgLatencyMs: real, p99LatencyMs: real, uptimeSeconds: real)

  datatype Counters = Counters(requests: nat, errors: nat, hits: nat, misses: nat, tokens: int)

  class Metrics {
    const startTime: int

    var totalRequests: nat
    var totalErrors: nat
    var cacheHits: nat
    var cacheMisses: nat
    var totalTokens: int
    var latencies: seq<real>

    ghost function Counts(): Counters
      reads this
    {
      Counters(totalRequests, totalErrors, cacheHits, cacheMisses, totalTokens)
    }

    constructor (startTime: int)
      ensures Counts() == Counters(0, 0, 0, 0, 0) && latencies == [] && this.startTime == startTime
    {
      this.startTime := startTime;
      totalRequests, totalErrors, cacheHits, cacheMisses, totalTokens := 0, 0, 0, 0, 0;
      latencies := [];
    }

    method ObserveLatency(ms: real)
      modifies this`latencies
      ensures latencies == Observe(old(latencies), ms)
    {
      latencies := latencies + [ms];
      if |latencies| > WINDOW_LIMIT {
        latencies := latencies[WINDOW_DROP..];
      }
    }

    method TakeSnapshot(sort: seq<real> -> seq<real>, now: int) returns (s: Snapshot)
      requires Sorts(sort)
      ensures s == Snapshot(
        totalRequests, totalErrors, cacheHits, cacheMisses, totalTokens,
        if latencies == [] then 0.0 else Sum(latencies) / |latencies| as real,
        P99(latencies, sort),
        (now - startTime) as real / 1_000_000_000.0)
    {
      s := Snapshot(totalRequests, totalErrors, cacheHits, cacheMisses, totalTokens, 0.0, 0.0, 0.0);
      var elapsed := now - startTime;
      s := s.(uptimeSeconds := elapsed as real / NANOS as real);
      assert |sort(latencies)| == |multiset(sort(latencies))| == |latencies|;
      if latencies != [] {
        var sum := 0.0;
        for i := 0 to |latencies|
          invariant sum == Sum(latencies[..i])
        {
          assert latencies[..i + 1][..i] == latencies[..i];
          sum := sum + latencies[i];
        }
        assert latencies[..|latencies|] == latencies;
        s := s.(avgLatencyMs := sum / |latencies| as real);
        var sorted := sort(latencies);
        var idx := (|sorted| as real * 0.99).Floor;
        s := s.(p99LatencyMs := sorted[if idx < |sorted| - 1 then idx else |sorted| - 1]);
      }
    }
  }
}
