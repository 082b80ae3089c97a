/** The limits the gateway keeps are exact: what a key gets at most, and runs that reach it. */
module GatewayLimits {
  import opened Types
  import opened GatewayModel
  import opened GatewayRuns
  import opened GatewayTraffic
  import GatewayCalls
  import LimiterModel
  import LimiterRuns
  import RouterModel
  import Retry
  import TokenCounter

  /** Every request of the run has messages, as the endpoint demands. */
  ghost predicate Parsed(es: seq<Event>) {
    forall e :: e in es && e.Request? ==> e.req.messages != []
  }

  /** What a request with one empty message is estimated at, the least any request is. */
  const LEAST_ESTIMATE: nat := 6

  lemma {:induction false} LeastEstimate(ms: seq<Message>)
    ensures TokenCounter.CountMessages(ms) >= (if ms == [] then 2 else LEAST_ESTIMATE)
  {
    if ms != [] {
      LeastEstimate(ms[..|ms| - 1]);
    }
  }

  /** The most requests of one key that get an answer other than 429 in an interval of this length. */
  function MostPassed(limits: LimiterModel.LimitConfig, length: int): nat {
    if limits.tpm < LEAST_ESTIMATE then 0 else LimiterRuns.MostAdmitted(limits, length)
  }

  // ----- The bound ---------------------------------------------------------------------------

  lemma NothingAdmitted(cfg: LimiterModel.LimitConfig, buckets: map<string, LimiterModel.Bucket>, key: string,
                        estimate: nat, created: int, now: int, later: int)
    requires estimate >= LEAST_ESTIMATE > cfg.tpm && WithinCharge(cfg, LimiterRuns.At(buckets, key), None)
    ensures !LimiterModel.Check(buckets, cfg, key, estimate, created, now, later).1.allowed
  {}

  /** With a token limit below every estimate nothing passes. */
  lemma {:induction false} NothingPasses(g: Deployment, es: seq<Event>, apiKey: string, from: int, to: int)
    requires g.Valid() && apiKey != "" && Parsed(es) && g.cfg.limits.tpm < LEAST_ESTIMATE
    ensures Passed(g, es, apiKey, from, to) == 0 && LastCharge(g, es, apiKey) == None
  {
    if es != [] {
      var before, e := es[..|es| - 1], es[|es| - 1];
      assert e in es && forall x :: x in before ==> x in es;
      NothingPasses(g, before, apiKey, from, to);
      if e.Request? && e.req.apiKey == apiKey {
        var s := Run(g, before);
        TokensWithinCharge(g, before, apiKey);
        LeastEstimate(e.req.messages);
        NothingAdmitted(g.cfg.limits, s.buckets, apiKey, TokenCounter.CountMessages(e.req.messages),
                        e.t.created, e.t.window, e.t.hint);
        RequestBuckets(g, s, e.req, e.t, e.world);
      }
    }
  }

  lemma TrafficBounded(g: Deployment, es: seq<Event>, apiKey: string, from: int, length: int, start: int)
    requires g.Valid() && apiKey != "" && Timed(es, start) && Parsed(es)
    ensures Passed(g, es, apiKey, from, from + length) <= MostPassed(g.cfg.limits, length)
  {
    if g.cfg.limits.tpm < LEAST_ESTIMATE {
      NothingPasses(g, es, apiKey, from, from + length);
    } else {
      KeyTrafficBounded(g, es, apiKey, from, length, start);
    }
  }

  // ----- A run that reaches it ------------------------------------------------------------------

  /** An unanswered request of one key, all its clock readings at one time. */
  function Attempt(apiKey: string, ms: seq<Message>, at: int): Event {
    Request(ChatRequest("", apiKey, "", ms, 0.0, 0, false),
            Readings(at, at, at, at, at, i => at, at, at, at), GatewayCalls.Silence())
  }

  function Blank(n: nat): seq<Message> {
    seq(n, i => Message("user", ""))
  }

  lemma {:induction false} BlankEstimate(n: nat)
    ensures TokenCounter.CountMessages(Blank(n)) == 2 + 4 * n
  {
    if n > 0 {
      assert Blank(n)[..n - 1] == Blank(n - 1);
      BlankEstimate(n - 1);
    }
  }

  function KeyOps(g: Deployment, es: seq<Event>, apiKey: string): seq<LimiterRuns.Op>
    requires g.Valid()
  {
    LimiterRuns.Only(LimiterOps(g, es), apiKey)
  }

  /** To the limiter an attempt is a check. */
  lemma AttemptOps(g: Deployment, es: seq<Event>, apiKey: string, ms: seq<Message>, at: int)
    requires g.Valid() && apiKey != ""
    ensures KeyOps(g, es + [Attempt(apiKey, ms, at)], apiKey)
         == KeyOps(g, es, apiKey) + [LimiterRuns.CheckOp(TokenCounter.CountMessages(ms), at, at, at)]
  {
    var e := Attempt(apiKey, ms, at);
    var all := es + [e];
    assert all[..|all| - 1] == es && all[|all| - 1] == e;
    GatewayCalls.SilenceServesNone(g, Run(g, es), e.req, e.t);
    OnlyStep(g, all, apiKey);
    assert OpsOf(e.req, e.t, LastReply(g, all).value)
        == [LimiterRuns.CheckOp(TokenCounter.CountMessages(ms), at, at, at)];
  }

  lemma OneMoreAttempt(es: seq<Event>, e: Event, count: nat)
    ensures es + GatewayCalls.Repeat(e, count)
         == if count == 0 then es else es + GatewayCalls.Repeat(e, count - 1) + [e]
  {}

  lemma OneMoreCheck(ops: seq<LimiterRuns.Op>, estimate: int, at: int, count: nat)
    ensures ops + LimiterRuns.Burst(count, estimate, at)
         == if count == 0 then ops
            else ops + LimiterRuns.Burst(count - 1, estimate, at) + [LimiterRuns.CheckOp(estimate, at, at, at)]
  {}

  lemma {:induction false} AttemptsOps(g: Deployment, es: seq<Event>, apiKey: string, ms: seq<Message>,
                                       at: int, count: nat)
    requires g.Valid() && apiKey != ""
    ensures KeyOps(g, es + GatewayCalls.Repeat(Attempt(apiKey, ms, at), count), apiKey)
         == KeyOps(g, es, apiKey) + LimiterRuns.Burst(count, TokenCounter.CountMessages(ms), at)
  {
    var e, estimate := Attempt(apiKey, ms, at), TokenCounter.CountMessages(ms);
    OneMoreAttempt(es, e, count);
    OneMoreCheck(KeyOps(g, es, apiKey), estimate, at, count);
    if count > 0 {
      AttemptsOps(g, es, apiKey, ms, at, count - 1);
      AttemptOps(g, es + GatewayCalls.Repeat(e, count - 1), apiKey, ms, at);
    }
  }

  /** The check of the first request. */
  function Opening(limits: LimiterModel.LimitConfig): LimiterRuns.Op
    requires limits.tpm >= LEAST_ESTIMATE
  {
    LimiterRuns.CheckOp(2 + 4 * limits.tpm, 0, 0, 0)
  }

  lemma {:induction false} AttemptsTimed(es: seq<Event>, apiKey: string, ms: seq<Message>, at: int, count: nat)
    requires Timed(es, 0) && Parsed(es) && Clock(es, 0) <= at && ms != []
    ensures var all := es + GatewayCalls.Repeat(Attempt(apiKey, ms, at), count);
      Timed(all, 0) && Parsed(all) && Clock(all, 0) <= at
  {
    var e := Attempt(apiKey, ms, at);
    var all := es + GatewayCalls.Repeat(e, count);
    if count == 0 {
      assert all == es;
    } else {
      AttemptsTimed(es, apiKey, ms, at, count - 1);
      assert all[..|all| - 1] == es + GatewayCalls.Repeat(e, count - 1) && all[|all| - 1] == e;
      assert forall x :: x in all ==> x == e || x in es;
    }
  }

  /** A first request over the token limit creates the bucket; then a burst of small ones in every window. */
  lemma {:induction false} Rush(g: Deployment, apiKey: string, k: nat) returns (es: seq<Event>)
    requires g.Valid() && apiKey != "" && g.cfg.limits.tpm >= LEAST_ESTIMATE
    ensures Timed(es, 0) && Parsed(es) && Clock(es, 0) <= if k == 0 then 0 else LimiterRuns.BurstAt(k - 1)
    ensures KeyOps(g, es, apiKey) == LimiterRuns.Bursts(g.cfg.limits, Opening(g.cfg.limits), LEAST_ESTIMATE, k)
  {
    if k == 0 {
      es := RushStart(g, apiKey);
    } else {
      var before := Rush(g, apiKey, k - 1);
      LimiterRuns.LaterBurst(k - 1);
      es := RushMore(g, apiKey, before, LimiterRuns.BurstAt(k - 1), LimiterRuns.Budget(g.cfg.limits));
    }
  }

  lemma RushStart(g: Deployment, apiKey: string) returns (es: seq<Event>)
    requires g.Valid() && apiKey != "" && g.cfg.limits.tpm >= LEAST_ESTIMATE
    ensures Timed(es, 0) && Parsed(es) && Clock(es, 0) <= 0 && KeyOps(g, es, apiKey) == [Opening(g.cfg.limits)]
  {
    BlankEstimate(g.cfg.limits.tpm);
    es := Attempts(g, apiKey, [], Blank(g.cfg.limits.tpm), 0, 1);
    OneMoreCheck([], 2 + 4 * g.cfg.limits.tpm, 0, 1);
    OneMoreCheck([], 2 + 4 * g.cfg.limits.tpm, 0, 0);
  }

  lemma RushMore(g: Deployment, apiKey: string, before: seq<Event>, at: int, count: nat) returns (es: seq<Event>)
    requires g.Valid() && apiKey != "" && Timed(before, 0) && Parsed(before) && Clock(before, 0) <= at
    ensures Timed(es, 0) && Parsed(es) && Clock(es, 0) <= at
    ensures KeyOps(g, es, apiKey) == KeyOps(g, before, apiKey) + LimiterRuns.Burst(count, LEAST_ESTIMATE, at)
  {
    BlankEstimate(1);
    es := Attempts(g, apiKey, before, Blank(1), at, count);
  }

  lemma Attempts(g: Deployment, apiKey: string, before: seq<Event>, ms: seq<Message>, at: int, count: nat)
    returns (es: seq<Event>)
    requires g.Valid() && apiKey != "" && Timed(before, 0) && Parsed(before) && Clock(before, 0) <= at && ms != []
    ensures Timed(es, 0) && Parsed(es) && Clock(es, 0) <= at
    ensures KeyOps(g, es, apiKey)
         == KeyOps(g, before, apiKey) + LimiterRuns.Burst(count, TokenCounter.CountMessages(ms), at)
  {
    es := before + GatewayCalls.Repeat(Attempt(apiKey, ms, at), count);
    AttemptsTimed(before, apiKey, ms, at, count);
    AttemptsOps(g, before, apiKey, ms, at, count);
  }

  lemma BurstsAreMost(limits: LimiterModel.LimitConfig, length: int)
    requires limits.rpm >= 1 && limits.tpm >= LEAST_ESTIMATE && length >= 1
    ensures var from, ops := LimiterModel.WINDOW - 1,
        LimiterRuns.Bursts(limits, Opening(limits), LEAST_ESTIMATE, LimiterRuns.BurstsIn(length));
      LimiterRuns.AdmittedIn(limits, ops, from, from + length) == MostPassed(limits, length)
  {
    LimiterRuns.BoundReachedFrom(limits, Opening(limits), LEAST_ESTIMATE, length);
  }

  lemma NoBudget(limits: LimiterModel.LimitConfig, length: int)
    requires limits.rpm < 1 || limits.tpm < LEAST_ESTIMATE || length < 1
    ensures MostPassed(limits, length) == 0
  {}

  /** The maximum is exact for every configuration, key and length: some run of requests with messages and
      an ordered clock reaches it. */
  lemma TrafficReached(g: Deployment, apiKey: string, length: int) returns (es: seq<Event>, from: int)
    requires g.Valid() && apiKey != ""
    ensures Timed(es, 0) && Parsed(es)
    ensures Passed(g, es, apiKey, from, from + length) == MostPassed(g.cfg.limits, length)
  {
    from := LimiterModel.WINDOW - 1;
    if g.cfg.limits.rpm >= 1 && g.cfg.limits.tpm >= LEAST_ESTIMATE && length >= 1 {
      es := Rush(g, apiKey, LimiterRuns.BurstsIn(length));
      PassedAreAdmitted(g, es, apiKey, from, from + length);
      BurstsAreMost(g.cfg.limits, length);
    } else {
      es := [];
      NoBudget(g.cfg.limits, length);
    }
  }

  // ----- The token bound is reached ---------------------------------------------------------------

  /** A stream request, so not stored, that is decided on p in this state and answered by it. */
  predicate Answered(g: Deployment, s: State, req: ChatRequest, world: World, p: string) {
    req.stream && RouterModel.Route(g.cfg.router, g.plat.lib, s.router, req.model).0.provider == p
    && p != "" && p in g.cfg.registry && GatewayCalls.CallReturns(g, world, p)
  }

  function AnswerTokens(g: Deployment, world: World, p: string): int
    requires p in g.cfg.registry && GatewayCalls.CallReturns(g, world, p)
  {
    Retry.Call(world(0), g.cfg.registry[p].maxRetries).response.totalTokens
  }

  /** Nothing is cached and no provider but p is known. */
  ghost predicate OnlyKnows(g: Deployment, s: State, p: string) {
    s.cache.entries == [] && s.router.strategy == g.strategy && s.router.health.Keys <= {p}
  }

  lemma AnsweredForward(g: Deployment, s: State, req: ChatRequest, t: Readings, world: World, p: string)
    requires g.Valid() && req.apiKey != "" && Answered(g, s, req, world, p) && OnlyKnows(g, s, p)
    ensures var s' := Forward(g.cfg, g.plat, s, req, t, world).0;
      OnlyKnows(g, s', p)
      && s'.buckets == LimiterModel.Record(s.buckets, g.cfg.limits, req.apiKey, AnswerTokens(g, world, p), t.charged)
  {
    var (s1, d) := Pick(g.cfg, g.plat, s, req);
    assert d.provider == p;
    var resp := Retry.Call(world(0), g.cfg.registry[p].maxRetries).response;
    assert Dispatch(g.cfg, s1.router.health, d, t.reports, world).2 == Some(resp);
  }

  lemma AdmitAllows(g: Deployment, s: State, req: ChatRequest, t: Readings)
    requires req.apiKey != ""
    requires LimiterModel.Check(s.buckets, g.cfg.limits, req.apiKey, TokenCounter.CountMessages(req.messages),
                                t.created, t.window, t.hint).1.allowed
    ensures Admit(g.cfg, Begun(s), req, t).1.None?
  {}

  /** Such a request, if admitted, is checked and charged. */
  lemma AnsweredRequest(g: Deployment, s: State, req: ChatRequest, t: Readings, world: World, p: string)
    requires g.Valid() && req.apiKey != "" && Answered(g, s, req, world, p) && OnlyKnows(g, s, p)
    requires LimiterModel.Check(s.buckets, g.cfg.limits, req.apiKey, TokenCounter.CountMessages(req.messages),
                                t.created, t.window, t.hint).1.allowed
    ensures var s' := Handle(g.cfg, g.plat, s, req, t, world).0;
      var checked := LimiterModel.Check(s.buckets, g.cfg.limits, req.apiKey,
        TokenCounter.CountMessages(req.messages), t.created, t.window, t.hint).0;
      OnlyKnows(g, s', p)
      && s'.buckets == LimiterModel.Record(checked, g.cfg.limits, req.apiKey, AnswerTokens(g, world, p), t.charged)
  {
    AdmitAllows(g, s, req, t);
    var s2 := LookUp(g.cfg, g.plat, Admit(g.cfg, Begun(s), req, t).0, req, t).0;
    assert OnlyKnows(g, s2, p) && s2.router == s.router && GatewayCalls.Misses(g, s, req, t);
    GatewayCalls.RequestForwards(g, s, req, t, world);
    AnsweredForward(g, s2, req, t, world, p);
  }

  /** One check and charge of a bucket with room in its open window. */
  lemma RoomyCharge(cfg: LimiterModel.LimitConfig, buckets: map<string, LimiterModel.Bucket>, key: string,
                    estimate: int, t: Readings, tokens: int, b: LimiterModel.Bucket)
    requires b == LimiterModel.GetBucket(buckets, cfg, key, t.created)
    requires b.windowStart <= t.window < b.windowStart + LimiterModel.WINDOW
    requires b.requests < b.rpmLimit && b.tokens + estimate <= b.tpmLimit
    ensures var (checked, r) := LimiterModel.Check(buckets, cfg, key, estimate, t.created, t.window, t.hint);
      r.allowed && Holds(LimiterModel.Record(checked, cfg, key, tokens, t.charged), key,
                         b.(requests := b.requests + 1, tokens := b.tokens + tokens))
  {
    LimiterRuns.WindowElapsed(t.window, b.windowStart);
  }

  predicate Holds(buckets: map<string, LimiterModel.Bucket>, key: string, b: LimiterModel.Bucket) {
    key in buckets && buckets[key] == b
  }

  /** A stream request of a key, sent to p alone while no other provider is known, and answered by it. */
  ghost predicate AnsweredBy(g: Deployment, e: Event, apiKey: string, p: string) {
    e.Request? && e.req.apiKey == apiKey && e.req.stream && GatewayCalls.Steers(g, e.req.model, p)
    && p != "" && p in g.cfg.registry && GatewayCalls.CallReturns(g, e.world, p)
  }

  lemma AnsweredThere(g: Deployment, s: State, e: Event, apiKey: string, p: string)
    requires AnsweredBy(g, e, apiKey, p) && OnlyKnows(g, s, p)
    ensures Answered(g, s, e.req, e.world, p)
  {}

  /** The bucket of a key after such an event, if there was room for it. */
  lemma AnsweredStep(g: Deployment, s: State, e: Event, apiKey: string, p: string, b: LimiterModel.Bucket)
    requires g.Valid() && apiKey != "" && AnsweredBy(g, e, apiKey, p) && OnlyKnows(g, s, p)
    requires b == LimiterModel.GetBucket(s.buckets, g.cfg.limits, apiKey, e.t.created)
    requires b.windowStart <= e.t.window < b.windowStart + LimiterModel.WINDOW
    requires b.requests < b.rpmLimit && b.tokens + TokenCounter.CountMessages(e.req.messages) <= b.tpmLimit
    ensures var s' := Handle(g.cfg, g.plat, s, e.req, e.t, e.world).0;
      OnlyKnows(g, s', p)
      && Holds(s'.buckets, apiKey, b.(requests := b.requests + 1, tokens := b.tokens + AnswerTokens(g, e.world, p)))
  {
    RoomyCharge(g.cfg.limits, s.buckets, apiKey, TokenCounter.CountMessages(e.req.messages), e.t,
                AnswerTokens(g, e.world, p), b);
    AnsweredThere(g, s, e, apiKey, p);
    AnsweredRequest(g, s, e.req, e.t, e.world, p);
  }

  /** The bound on the tokens of a window is exact: if the first answer fills the window up to the second
      request's estimate, that one is still admitted, and whatever its answer is charged comes on top. */
  lemma TokensReached(g: Deployment, first: Event, second: Event, apiKey: string, p: string)
    requires g.Valid() && apiKey != "" && g.cfg.limits.rpm >= 2
    requires AnsweredBy(g, first, apiKey, p) && AnsweredBy(g, second, apiKey, p)
    requires first.t.created <= first.t.window <= second.t.window < first.t.created + LimiterModel.WINDOW
    requires TokenCounter.CountMessages(first.req.messages) <= g.cfg.limits.tpm
    requires AnswerTokens(g, first.world, p) == g.cfg.limits.tpm - TokenCounter.CountMessages(second.req.messages)
    ensures var s := Run(g, [first, second]);
      apiKey in s.buckets
      && s.buckets[apiKey].tokens
         == g.cfg.limits.tpm - TokenCounter.CountMessages(second.req.messages) + AnswerTokens(g, second.world, p)
  {
    var b := LimiterModel.NewBucket(g.cfg.limits, first.t.created);
    var s1 := Step(g, g.Start(), first);
    AnsweredStep(g, g.Start(), first, apiKey, p, b);
    AnsweredStep(g, s1, second, apiKey, p, b.(requests := 1, tokens := AnswerTokens(g, first.world, p)));
    RunOfTwo(g, first, second);
  }

  lemma RunOfTwo(g: Deployment, first: Event, second: Event)
    requires g.Valid()
    ensures Run(g, [first, second]) == Step(g, Step(g, g.Start(), first), second)
  {
    assert [first, second][..1] == [first] && [first][..0] == [];
    assert Run(g, [first]) == Step(g, Run(g, []), first);
  }
}
