/** The per-provider circuit breaker: error rate, availability and average latency. */
module Health {

  datatype Health = Health(
    name: string, available: bool, avgLatencyMs: real, errorRate: real, requests: nat, errors: nat,
    lastSuccess: int, lastError: int)

  const UNSEEN := Health("", true, 0.0, 0.0, 0, 0, 0, 0)

  datatype Report = Ok(latencyMs: real) | Fail

  function Success(h: Health, latencyMs: real): Health {
    h.(available := true,
       requests := h.requests + 1,
       avgLatencyMs := if h.avgLatencyMs == 0.0 then latencyMs else h.avgLatencyMs * 0.9 + latencyMs * 0.1,
       errorRate := h.errorRate * 0.95)
  }

  function Raised(rate: real): real {
    if rate + 0.1 < 1.0 then rate + 0.1 else 1.0
  }

  function Failure(h: Health): Health {
    var rate := Raised(h.errorRate);
    h.(errors := h.errors + 1, errorRate := rate, available := h.available && rate <= 0.5)
  }

  function After(h: Health, r: Report): Health {
    match r
    case Ok(latencyMs) => Success(h, latencyMs)
    case Fail => Failure(h)
  }

  /** What a report notes besides: the provider it is about and when it was made. */
  function Stamped(h: Health, name: string, r: Report, at: int): Health {
    match r
    case Ok(_) => h.(name := name, lastSuccess := at)
    case Fail => h.(name := name, lastError := at)
  }

  /** The record without those notes: what the routing decisions depend on. */
  function Unstamped(h: Health): Health {
    h.(name := "", lastSuccess := 0, lastError := 0)
  }

  /** The health of a provider after a history of reports. */
  function Run(h: Health, reports: seq<Report>): Health {
    if reports == [] then h else After(Run(h, reports[..|reports| - 1]), reports[|reports| - 1])
  }

  lemma {:induction false} RunAppend(h: Health, first: seq<Report>, more: seq<Report>)
    ensures Run(h, first + more) == Run(Run(h, first), more)
  {
    if more == [] {
      assert first + more == first;
    } else {
      var n := |more| - 1;
      RunAppend(h, first, more[..n]);
      assert (first + more)[..|first + more| - 1] == first + more[..n];
    }
  }

  ghost predicate Inv(h: Health) {
    0.0 <= h.errorRate <= 1.0 && (!h.available ==> h.errorRate > 0.5)
  }

  lemma {:induction false} RunInv(h: Health, reports: seq<Report>)
    requires Inv(h)
    ensures Inv(Run(h, reports))
  {
    if reports != [] {
      RunInv(h, reports[..|reports| - 1]);
    }
  }

  /** After any report, a provider is available exactly when that report was a success or the error
      rate is at most one half; the rate itself stays between 0 and 1. */
  lemma {:induction false} AvailableExactly(reports: seq<Report>)
    requires reports != []
    ensures var h := Run(UNSEEN, reports);
      0.0 <= h.errorRate <= 1.0
      && (h.available <==> reports[|reports| - 1].Ok? || h.errorRate <= 0.5)
  {
    RunInv(UNSEEN, reports[..|reports| - 1]);
  }

  lemma Between(x: real, y: real, lo: real, hi: real)
    requires lo <= x <= hi && lo <= y <= hi
    ensures lo <= x * 0.9 + y * 0.1 <= hi
  {}

  /** The average latency never leaves the range of the latencies reported. */
  lemma {:induction false} LatencyWithinReports(reports: seq<Report>, lo: real, hi: real)
    requires forall i :: 0 <= i < |reports| && reports[i].Ok? ==> lo <= reports[i].latencyMs <= hi
    ensures var h := Run(UNSEEN, reports);
      if exists i :: 0 <= i < |reports| && reports[i].Ok? then lo <= h.avgLatencyMs <= hi else h.avgLatencyMs == 0.0
  {
    if reports != [] {
      var before, r := reports[..|reports| - 1], reports[|reports| - 1];
      LatencyWithinReports(before, lo, hi);
      assert forall i :: 0 <= i < |before| ==> before[i] == reports[i];
      if r.Ok? {
        var h := Run(UNSEEN, before);
        if h.avgLatencyMs != 0.0 {
          Between(h.avgLatencyMs, r.latencyMs, lo, hi);
        }
      }
    }
  }

  function CountOks(reports: seq<Report>): nat {
    if reports == [] then 0
    else CountOks(reports[..|reports| - 1]) + (if reports[|reports| - 1].Ok? then 1 else 0)
  }

  /** The two counters hold the successes and the failures reported. */
  lemma {:induction false} ReportsCounted(reports: seq<Report>)
    ensures var h := Run(UNSEEN, reports);
      h.requests == CountOks(reports) && h.errors == |reports| - CountOks(reports)
  {
    if reports != [] {
      ReportsCounted(reports[..|reports| - 1]);
    }
  }

  // ----- Streaks ----------------------------------------------------------------

  function Fails(k: nat): seq<Report> {
    seq(k, i => Fail)
  }

  function Oks(k: nat, latencyMs: real): seq<Report> {
    seq(k, i => Ok(latencyMs))
  }

  /** A streak of k failures raises the rate by k tenths, capped at 1, and trips above one half. */
  lemma {:induction false} FailureStreak(h: Health, k: nat)
    requires Inv(h)
    ensures var g := Run(h, Fails(k));
      var rate := h.errorRate + k as real * 0.1;
      g.errorRate == (if rate < 1.0 then rate else 1.0)
      && g.available == (h.available && (k == 0 || rate <= 0.5))
  {
    if k > 0 {
      assert Fails(k)[..k - 1] == Fails(k - 1);
      assert k as real == (k - 1) as real + 1.0;
      FailureStreak(h, k - 1);
    }
  }

  /** Six failures in a row trip the breaker from any state; five from the start never do. */
  lemma SixTripFiveDoNot(h: Health, reports: seq<Report>)
    requires h == Run(UNSEEN, reports)
    ensures !Run(h, Fails(6)).available
    ensures forall k :: 0 <= k <= 5 ==> Run(UNSEEN, Fails(k)).available
  {
    RunInv(UNSEEN, reports);
    FailureStreak(h, 6);
    forall k | 0 <= k <= 5 ensures Run(UNSEEN, Fails(k)).available {
      FailureStreak(UNSEEN, k);
    }
  }

  function Decay(k: nat): real {
    if k == 0 then 1.0 else Decay(k - 1) * 0.95
  }

  lemma {:induction false} SuccessStreak(h: Health, k: nat, latencyMs: real)
    ensures Run(h, Oks(k, latencyMs)).errorRate == h.errorRate * Decay(k)
  {
    if k > 0 {
      assert Oks(k, latencyMs)[..k - 1] == Oks(k - 1, latencyMs);
      SuccessStreak(h, k - 1, latencyMs);
    }
  }

  lemma DecayFourteen()
    ensures Decay(14) < 0.5 < Decay(13)
  {
    assert Decay(3) == 0.857375;
    assert Decay(6) == Decay(3) * 0.857375;
    assert Decay(9) == Decay(6) * 0.857375;
    assert Decay(12) == Decay(9) * 0.857375;
  }

  /** Fourteen successes bring any rate below one half, and from the worst rate thirteen do not. */
  lemma FourteenRecover(h: Health, latencyMs: real)
    requires 0.0 <= h.errorRate <= 1.0
    ensures Run(h, Oks(14, latencyMs)).errorRate < 0.5
    ensures h.errorRate == 1.0 ==> Run(h, Oks(13, latencyMs)).errorRate > 0.5
  {
    DecayFourteen();
    SuccessStreak(h, 14, latencyMs);
    SuccessStreak(h, 13, latencyMs);
    assert h.errorRate * Decay(14) <= Decay(14);
  }

  function Fade(k: nat): (f: real)
    ensures 0.0 < f <= 1.0
  {
    if k == 0 then 1.0 else Fade(k - 1) * 0.9
  }

  /** Under a constant latency the average closes in on it, losing a tenth of the gap per report. */
  lemma {:induction false} LatencyStreak(h: Health, k: nat, latencyMs: real)
    requires h.avgLatencyMs > 0.0 && latencyMs > 0.0
    ensures var avg := Run(h, Oks(k, latencyMs)).avgLatencyMs;
      avg > 0.0 && avg - latencyMs == (h.avgLatencyMs - latencyMs) * Fade(k)
  {
    if k > 0 {
      assert Oks(k, latencyMs)[..k - 1] == Oks(k - 1, latencyMs);
      LatencyStreak(h, k - 1, latencyMs);
    }
  }

  // ----- Worse histories ----------------------------------------------------------

  /** `worse` has a failure wherever `better` has one, and possibly more. */
  ghost predicate Worse(better: seq<Report>, worse: seq<Report>) {
    |better| == |worse| && forall i :: 0 <= i < |better| && better[i].Fail? ==> worse[i].Fail?
  }

  /** Turning successes into failures never lowers the final error rate. */
  lemma {:induction false} WorseRaisesRate(h: Health, better: seq<Report>, worse: seq<Report>)
    requires Inv(h) && Worse(better, worse)
    ensures Run(h, better).errorRate <= Run(h, worse).errorRate
  {
    if better != [] {
      var b, w := better[..|better| - 1], worse[..|worse| - 1];
      WorseRaisesRate(h, b, w);
      RunInv(h, b);
      RunInv(h, w);
    }
  }
}
