/** What the gateway answers, in terms of what the providers return and what the requests say. */
module GatewayAnswers {
  import opened Types
  import opened GatewayModel
  import opened GatewayRuns
  import opened GatewayCalls
  import GatewayTraffic
  import CacheKey
  import CacheModel
  import KeyAmbiguity
  import LimiterModel
  import RouterModel
  import CostModel
  import Health
  import Retry
  import TokenCounter

  // ----- The calls and the answer ------------------------------------------------------------

  /** A call is marked as answered exactly when an attempt within its provider's retries returns. */
  ghost predicate Heard(cfg: Config, calls: seq<Call>, world: World, made: nat) {
    forall i :: 0 <= i < |calls| ==>
      calls[i].provider in cfg.registry
      && (calls[i].ok <==> Retry.Returns(world(made + i), cfg.registry[calls[i].provider].maxRetries))
  }

  predicate LastAnswered(calls: seq<Call>) {
    calls != [] && calls[|calls| - 1].ok
  }

  /** The first response these attempts return. */
  ghost predicate FirstReturned(fn: nat -> Retry.Attempt, resp: ChatResponse) {
    exists k: nat :: Retry.FirstSuccess(fn, k) && resp == fn(k).response
  }

  /** The response is the first one the last call's provider returns, renamed if it is a fallback. */
  ghost predicate AnswerOf(calls: seq<Call>, world: World, made: nat, renamed: bool, resp: ChatResponse) {
    calls != [] && exists raw: ChatResponse ::
      FirstReturned(world(made + |calls| - 1), raw)
      && resp == if renamed then raw.(provider := calls[|calls| - 1].provider) else raw
  }

  ghost predicate Answers(cfg: Config, calls: seq<Call>, world: World, made: nat, renamed: bool,
                          resp: Option<ChatResponse>) {
    Heard(cfg, calls, world, made) && (resp.Some? <==> LastAnswered(calls))
    && (resp.Some? ==> AnswerOf(calls, world, made, renamed, resp.value))
  }

  lemma AnsweredFirst(cfg: Config, c: Call, world: World, made: nat, renamed: bool)
    requires c.provider in cfg.registry && Retry.Call(world(made), cfg.registry[c.provider].maxRetries).Returned?
    requires c.ok
    ensures var raw := Retry.Call(world(made), cfg.registry[c.provider].maxRetries).response;
      Answers(cfg, [c], world, made, renamed, Some(if renamed then raw.(provider := c.provider) else raw))
  {
    var k := Retry.CallIs(world(made), cfg.registry[c.provider].maxRetries);
    assert FirstReturned(world(made + |[c]| - 1), world(made)(k).response);
  }

  lemma HeardOneMore(cfg: Config, c: Call, calls: seq<Call>, world: World, made: nat)
    requires c.provider in cfg.registry && Heard(cfg, calls, world, made + 1)
    requires c.ok <==> Retry.Returns(world(made), cfg.registry[c.provider].maxRetries)
    ensures Heard(cfg, [c] + calls, world, made)
  {
    var all := [c] + calls;
    forall i | 0 <= i < |all|
      ensures all[i].provider in cfg.registry
      ensures all[i].ok <==> Retry.Returns(world(made + i), cfg.registry[all[i].provider].maxRetries)
    {
      if i > 0 {
        assert all[i] == calls[i - 1] && made + i == made + 1 + (i - 1);
      }
    }
  }

  lemma LastIsLast(c: Call, calls: seq<Call>, world: World, made: nat, renamed: bool, resp: Option<ChatResponse>)
    requires !c.ok && (resp.Some? ==> AnswerOf(calls, world, made + 1, renamed, resp.value))
    ensures LastAnswered([c] + calls) <==> LastAnswered(calls)
    ensures resp.Some? ==> AnswerOf([c] + calls, world, made, renamed, resp.value)
  {
    var all := [c] + calls;
    if calls != [] {
      assert all[|all| - 1] == calls[|calls| - 1] && made + |all| - 1 == made + 1 + |calls| - 1;
    }
  }

  lemma FailedFirst(cfg: Config, c: Call, calls: seq<Call>, world: World, made: nat, renamed: bool,
                    resp: Option<ChatResponse>)
    requires c.provider in cfg.registry && Retry.Call(world(made), cfg.registry[c.provider].maxRetries).Threw?
    requires !c.ok && Answers(cfg, calls, world, made + 1, renamed, resp)
    ensures Answers(cfg, [c] + calls, world, made, renamed, resp)
  {
    var k := Retry.CallIs(world(made), cfg.registry[c.provider].maxRetries);
    HeardOneMore(cfg, c, calls, world, made);
    LastIsLast(c, calls, world, made, renamed, resp);
  }

  lemma {:induction false} FallbackAnswers(cfg: Config, health: HealthMap, chain: seq<string>, made: nat,
                                           at: nat -> int, world: World)
    ensures var (_, calls, resp) := Fallbacks(cfg, health, chain, made, at, world);
      Answers(cfg, calls, world, made, true, resp)
    decreases chain
  {
    if chain != [] {
      var name, rest := chain[0], chain[1..];
      if !Callable(cfg, name) {
        FallbackAnswers(cfg, health, rest, made, at, world);
      } else {
        var r := Retry.Call(world(made), cfg.registry[name].maxRetries);
        var c := Call(name, cfg.registry[name].models[0], r.Returned?);
        if r.Returned? {
          AnsweredFirst(cfg, c, world, made, true);
        } else {
          var failed := RouterModel.Reported(health, name, Health.Fail, at(made));
          var (_, calls, resp) := Fallbacks(cfg, failed, rest, made + 1, at, world);
          FallbackAnswers(cfg, failed, rest, made + 1, at, world);
          FailedFirst(cfg, c, calls, world, made, true, resp);
        }
      }
    }
  }

  /** Call i of a request is answered exactly when an attempt of the i-th provider called returns within its
      retries; the request has an answer exactly when its last call is answered, and that is the first
      response returned, a fallback's under its own name. */
  lemma DispatchAnswers(cfg: Config, health: HealthMap, d: RouterModel.Decision, at: nat -> int, world: World)
    requires d.provider in cfg.registry
    ensures var (_, calls, resp) := Dispatch(cfg, health, d, at, world);
      Answers(cfg, calls, world, 0, |calls| > 1, resp)
  {
    var r := Retry.Call(world(0), cfg.registry[d.provider].maxRetries);
    var c := Call(d.provider, d.model, r.Returned?);
    if r.Returned? {
      AnsweredFirst(cfg, c, world, 0, false);
    } else {
      var failed := RouterModel.Reported(health, d.provider, Health.Fail, at(0));
      var (_, calls, resp) := Fallbacks(cfg, failed, d.fallbacks, 1, at, world);
      FallbackAnswers(cfg, failed, d.fallbacks, 1, at, world);
      FailedFirst(cfg, c, calls, world, 0, true, resp);
    }
  }

  /** What a response costs at these prices, unpriced models at 0.002 per thousand tokens. */
  function CostAt(pricing: map<string, Pricing>, resp: ChatResponse): real {
    var key := resp.provider + ":" + resp.model;
    if key in pricing then
      resp.promptTokens as real / 1000.0 * pricing[key].inputPer1k
      + resp.completionTokens as real / 1000.0 * pricing[key].outputPer1k
    else (resp.promptTokens + resp.completionTokens) as real * 0.002 / 1000.0
  }

  /** How a request that misses the cache ends: 503 without a call if no provider is decided on or it is not
      registered, 502 if the last call is not answered, otherwise the answer, changed only in its request id
      and its cost, the latter being that at the current prices. */
  ghost predicate EndsAs(g: Deployment, s: State, req: ChatRequest, world: World, r: Reply, calls: seq<Call>) {
    var d := RouterModel.Route(g.cfg.router, g.plat.lib, s.router, req.model).0;
    if d.provider == "" || d.provider !in g.cfg.registry then r.NoProvider? && calls == []
    else
      calls != [] && calls[0].provider == d.provider && calls[0].model == d.model
      && Heard(g.cfg, calls, world, 0)
      && (if LastAnswered(calls) then r.Served? && ServedAs(s, req, world, calls, r.response) else r.AllFailed?)
  }

  /** The answer of the last call, changed only in its request id and its cost. */
  ghost predicate ServedAs(s: State, req: ChatRequest, world: World, calls: seq<Call>, resp: ChatResponse) {
    exists raw: ChatResponse ::
      AnswerOf(calls, world, 0, |calls| > 1, raw)
      && resp == raw.(requestId := req.requestId, costUsd := CostAt(s.costs.pricing, raw))
  }

  lemma ForwardEnds(g: Deployment, s: State, req: ChatRequest, t: Readings, world: World)
    requires g.Valid()
    ensures var (_, r, calls) := Forward(g.cfg, g.plat, s, req, t, world); EndsAs(g, s, req, world, r, calls)
  {
    var (s1, d) := Pick(g.cfg, g.plat, s, req);
    if d.provider != "" && d.provider in g.cfg.registry {
      var (health, calls, resp) := Dispatch(g.cfg, s1.router.health, d, t.reports, world);
      DispatchAnswers(g.cfg, s1.router.health, d, t.reports, world);
      DispatchCalls(g.cfg, s1.router.health, d, t.reports, world);
      if resp.Some? {
        PricedIs(s1.(router := s1.router.(health := health)), req, resp.value);
      }
    }
  }

  lemma PricedIs(s: State, req: ChatRequest, raw: ChatResponse)
    ensures Priced(s, req, raw) == raw.(requestId := req.requestId, costUsd := CostAt(s.costs.pricing, raw))
  {
    assert PriceKey(Offer(raw.provider, raw.model)) == raw.provider + ":" + raw.model;
  }

  /** Every request is limited, answered from the cache, or ends as the providers called make it end. */
  lemma RequestEnds(g: Deployment, s: State, req: ChatRequest, t: Readings, world: World)
    requires g.Valid()
    ensures var (_, r, calls) := Handle(g.cfg, g.plat, s, req, t, world);
      if Misses(g, s, req, t) then EndsAs(g, s, req, world, r, calls)
      else (r.RateLimited? || r.FromCache?) && calls == []
  {
    if Misses(g, s, req, t) {
      var s2 := LookUp(g.cfg, g.plat, Admit(g.cfg, Begun(s), req, t).0, req, t).0;
      assert s2.costs == s.costs;
      RequestForwards(g, s, req, t, world);
      ForwardEnds(g, s2, req, t, world);
    }
  }

  // ----- What a cached answer was asked ------------------------------------------------------------

  function TextOf(g: Deployment, req: ChatRequest): string {
    CacheKey.PreHash(req, g.cfg.cache.matchParams, g.plat.render)
  }

  /** No two requests of the run have different texts with the same hash. */
  ghost predicate Separates(g: Deployment, es: seq<Event>) {
    forall a, b :: a in es && b in es && a.Request? && b.Request? ==>
      (g.plat.hash(TextOf(g, a.req)) == g.plat.hash(TextOf(g, b.req)) ==> TextOf(g, a.req) == TextOf(g, b.req))
  }

  /** Both have messages, as every parsed request, and the text of `a` can be read in one way only. */
  ghost predicate Unmistakable(a: ChatRequest, b: ChatRequest, render: real -> string) {
    a.messages != [] && b.messages != [] && KeyAmbiguity.PrintsNoBar(render) && KeyAmbiguity.Unambiguous(a)
  }

  /** If the hash separates the texts of the run, a cached answer was given to an earlier request with the same
      text. If both are free of separators, or the text of this one is unambiguous, that was a request for the
      same model and messages and, with match_params, the same parameters. */
  lemma HitHasSameText(g: Deployment, es: seq<Event>, start: int) returns (i: nat)
    requires g.Valid() && g.cfg.cache.enabled && GatewayTraffic.Timed(es, start) && Separates(g, es)
    requires es != [] && es[|es| - 1].Request? && LastReply(g, es).value.FromCache?
    ensures var before, req := es[..|es| - 1], es[|es| - 1].req;
      var rs, mp, render := GatewayTraffic.Replies(g, before), g.cfg.cache.matchParams, g.plat.render;
      && i < |before| && before[i].Request? && rs[i].Some? && rs[i].value.Served? && !before[i].req.stream
      && LastReply(g, es).value.response == CacheModel.Mark(rs[i].value.response, req.requestId)
      && TextOf(g, before[i].req) == TextOf(g, req)
      && (CacheKey.Decodable(before[i].req, render) && CacheKey.Decodable(req, render) ==>
            KeyAmbiguity.SameCovered(req, before[i].req, mp, render))
      && (Unmistakable(req, before[i].req, render) ==> KeyAmbiguity.SameCovered(req, before[i].req, mp, render))
  {
    i := GatewayTraffic.HitWasServedBefore(g, es, start);
    var before, e := es[..|es| - 1], es[|es| - 1];
    var mp, render := g.cfg.cache.matchParams, g.plat.render;
    assert before[i] == es[i] && es[i] in es && e in es;
    CacheKey.KeysAgree(before[i].req, e.req, mp, render, g.plat.hash);
    SameTextDecodes(e.req, before[i].req, mp, render);
  }

  lemma SameTextDecodes(a: ChatRequest, b: ChatRequest, matchParams: bool, render: real -> string)
    requires CacheKey.PreHash(a, matchParams, render) == CacheKey.PreHash(b, matchParams, render)
    ensures CacheKey.Decodable(a, render) && CacheKey.Decodable(b, render) ==>
      KeyAmbiguity.SameCovered(a, b, matchParams, render)
    ensures Unmistakable(a, b, render) ==> KeyAmbiguity.SameCovered(a, b, matchParams, render)
  {
    if CacheKey.Decodable(a, render) && CacheKey.Decodable(b, render) {
      CacheKey.PreHashDecodes(a, b, matchParams, render);
    }
    if Unmistakable(a, b, render) {
      KeyAmbiguity.RequestDetermined(a, matchParams, render);
    }
  }

  // ----- A disabled cache ------------------------------------------------------------------------------

  lemma DisabledRequest(g: Deployment, s: State, req: ChatRequest, t: Readings, world: World)
    requires g.Valid() && !g.cfg.cache.enabled
    ensures var (s', r, _) := Handle(g.cfg, g.plat, s, req, t, world);
      !r.FromCache? && s'.cache.entries == s.cache.entries && s'.cache.hits == s.cache.hits
      && s'.cache.savingsUsd == s.cache.savingsUsd
  {
    var (s1, denied) := Admit(g.cfg, Begun(s), req, t);
    if denied.None? {
      GatewayTraffic.ForwardCache(g, LookUp(g.cfg, g.plat, s1, req, t).0, req, t, world);
    }
  }

  /** Nothing is stored, counted as a hit or saved. */
  ghost predicate Unused(c: CacheModel.State) {
    c.entries == [] && c.hits == 0 && c.savingsUsd == 0.0
  }

  lemma DisabledStep(g: Deployment, s: State, e: Event)
    requires g.Valid() && !g.cfg.cache.enabled && Unused(s.cache)
    ensures Unused(Step(g, s, e).cache)
    ensures ReplyOf(g, s, e).Some? ==> !ReplyOf(g, s, e).value.FromCache?
  {
    if e.Request? {
      DisabledRequest(g, s, e.req, e.t, e.world);
    }
  }

  predicate NoneFromCache(rs: seq<Option<Reply>>) {
    forall i :: 0 <= i < |rs| && rs[i].Some? ==> !rs[i].value.FromCache?
  }

  /** With the cache disabled nothing is ever stored and no request is ever answered from it. */
  lemma {:induction false} DisabledNeverAnswers(g: Deployment, es: seq<Event>)
    requires g.Valid() && !g.cfg.cache.enabled
    ensures Unused(Run(g, es).cache) && NoneFromCache(GatewayTraffic.Replies(g, es))
  {
    if es != [] {
      DisabledNeverAnswers(g, es[..|es| - 1]);
      DisabledStep(g, Run(g, es[..|es| - 1]), es[|es| - 1]);
    }
  }

  // ----- When a request is limited -------------------------------------------------------------------------

  /** A keyed request is answered 429 exactly when its key's bucket, started over if 60 whole seconds have
      passed, has no request left or too few tokens for the estimate, which is the closed form of what the
      messages say. */
  lemma LimitedExactly(g: Deployment, s: State, req: ChatRequest, t: Readings, world: World)
    requires g.Valid() && req.apiKey != ""
    ensures var b0 := if req.apiKey in s.buckets then s.buckets[req.apiKey]
                      else LimiterModel.Bucket(g.cfg.limits.rpm, g.cfg.limits.tpm, 0, 0, t.created);
      var over := t.window - b0.windowStart >= 60_000_000_000;
      var requests, tokens := if over then 0 else b0.requests, if over then 0 else b0.tokens;
      Handle(g.cfg, g.plat, s, req, t, world).1.RateLimited? <==>
        requests >= b0.rpmLimit || tokens + TokenCounter.Estimate(req.messages) > b0.tpmLimit
  {
    TokenCounter.CountMessagesFormula(req.messages);
    EstimatePositive(req.messages);
    GatewayTraffic.RequestBuckets(g, s, req, t, world);
  }

  lemma {:induction false} EstimatePositive(ms: seq<Message>)
    ensures TokenCounter.Estimate(ms) >= 2
  {
    if ms != [] {
      EstimatePositive(ms[1..]);
    }
  }

  /** In particular, after any run, a request whose estimate alone exceeds the limit is answered 429, unless
      replies with negative token counts have left the key a credit. */
  lemma TooLargeIsLimited(g: Deployment, es: seq<Event>, req: ChatRequest, t: Readings, world: World)
    requires g.Valid() && req.apiKey != "" && TokenCounter.Estimate(req.messages) > g.cfg.limits.tpm
    requires var s := Run(g, es); req.apiKey in s.buckets ==> s.buckets[req.apiKey].tokens >= 0
    ensures Handle(g.cfg, g.plat, Run(g, es), req, t, world).1.RateLimited?
  {
    GatewayTraffic.TokensWithinCharge(g, es, req.apiKey);
    LimitedExactly(g, Run(g, es), req, t, world);
  }

  // ----- Tokens and records --------------------------------------------------------------------------------

  function TokensOf(r: Option<Reply>): int {
    match r
    case Some(Served(resp)) => resp.totalTokens
    case _ => 0
  }

  /** What the served replies of a run report as total tokens. */
  function ServedTokens(g: Deployment, es: seq<Event>): int
    requires g.Valid()
  {
    if es == [] then 0 else ServedTokens(g, es[..|es| - 1]) + TokensOf(LastReply(g, es))
  }

  lemma ForwardTokens(g: Deployment, s: State, req: ChatRequest, t: Readings, world: World)
    requires g.Valid()
    ensures var (s', r, _) := Forward(g.cfg, g.plat, s, req, t, world);
      s'.counters.tokens == s.counters.tokens + TokensOf(Some(r)) && !r.FromCache? && !r.RateLimited?
  {}

  lemma EventTokens(g: Deployment, s: State, e: Event)
    requires g.Valid()
    ensures Step(g, s, e).counters.tokens == s.counters.tokens + TokensOf(ReplyOf(g, s, e))
  {
    if e.Request? {
      var (s1, denied) := Admit(g.cfg, Begun(s), e.req, e.t);
      assert s1.counters.tokens == s.counters.tokens;
      if denied.None? {
        var (s2, hit) := LookUp(g.cfg, g.plat, s1, e.req, e.t);
        assert s2.counters.tokens == s1.counters.tokens;
        ForwardTokens(g, s2, e.req, e.t, e.world);
      }
    }
  }

  /** The exported token counter is the total of the served replies. */
  lemma {:induction false} TokensAddUp(g: Deployment, es: seq<Event>)
    requires g.Valid()
    ensures Run(g, es).counters.tokens == ServedTokens(g, es)
  {
    if es != [] {
      TokensAddUp(g, es[..|es| - 1]);
      EventTokens(g, Run(g, es[..|es| - 1]), es[|es| - 1]);
    }
  }

  /** The record says what the reply said, to whom, and is no cache hit. */
  ghost predicate Mirrors(m: CostModel.RequestMetrics, req: ChatRequest, resp: ChatResponse) {
    m.requestId == resp.requestId && m.apiKey == req.apiKey && m.provider == resp.provider && m.model == resp.model
    && m.promptTokens == resp.promptTokens && m.completionTokens == resp.completionTokens
    && m.latencyMs == resp.latencyMs && m.costUsd == resp.costUsd && !m.cacheHit
  }

  /** The record mirrors the reply to event k. */
  ghost predicate MirrorsReply(m: CostModel.RequestMetrics, es: seq<Event>, rs: seq<Option<Reply>>, k: nat) {
    |rs| == |es| && k < |es| && es[k].Request? && rs[k].Some? && rs[k].value.Served?
    && Mirrors(m, es[k].req, rs[k].value.response)
  }

  lemma MirrorsLonger(m: CostModel.RequestMetrics, es: seq<Event>, rs: seq<Option<Reply>>, k: nat,
                      e: Event, r: Option<Reply>)
    requires MirrorsReply(m, es, rs, k)
    ensures MirrorsReply(m, es + [e], rs + [r], k)
  {}

  lemma MirrorsLast(es: seq<Event>, rs: seq<Option<Reply>>, e: Event, r: Option<Reply>)
    requires |rs| == |es| && e.Request? && r.Some? && r.value.Served?
    ensures MirrorsReply(MetricsOf(e.req, r.value.response), es + [e], rs + [r], |es|)
  {}

  /** Every record of a run mirrors the reply to one of its requests. */
  lemma {:induction false} RecordsMirrorReplies(g: Deployment, es: seq<Event>, i: nat) returns (k: nat)
    requires g.Valid() && i < |Recorded(g, es)|
    ensures MirrorsReply(Recorded(g, es)[i], es, GatewayTraffic.Replies(g, es), k)
  {
    var before, e, r := es[..|es| - 1], es[|es| - 1], LastReply(g, es);
    var rs := GatewayTraffic.Replies(g, before);
    RecordedStep(g, es);
    assert es == before + [e];
    if i < |Recorded(g, before)| {
      k := RecordsMirrorReplies(g, before, i);
      MirrorsLonger(Recorded(g, before)[i], before, rs, k, e, r);
    } else {
      k := |before|;
      MirrorsLast(before, rs, e, r);
    }
  }
}
