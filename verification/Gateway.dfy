/** The request handler over the live objects. */
module Gateway {
  import opened Types
  import opened GatewayModel
  import M = GatewayModel
  import C = Cache
  import L = RateLimiter
  import R = Router
  import T = CostTracker
  import LimiterModel
  import CacheModel
  import RouterModel
  import CostModel
  import Metrics
  import Retry
  import TokenCounter

  class Gateway {
    const cfg: Config
    const plat: Platform
    const cache: C.Cache
    const limiter: L.RateLimiter
    const router: R.Router
    const tracker: T.CostTracker
    const metrics: Metrics.Metrics

    ghost predicate Valid()
      reads this, cache, cache.Repr, limiter, limiter.Repr
    {
      && CacheModel.CanStore(cfg.cache) && plat.lib.Valid()
      && cache.Valid() && limiter.Valid() && cache.Repr !! limiter.Repr
      && (this as object) !in cache.Repr + limiter.Repr
      && (router as object) !in cache.Repr + limiter.Repr
      && (tracker as object) !in cache.Repr + limiter.Repr
      && (metrics as object) !in cache.Repr + limiter.Repr
      && cache.render == plat.render && cache.hash == plat.hash
      && limiter.cfg == cfg.limits
      && router.cfg == cfg.router && router.lib == plat.lib
    }

    ghost function Abs(): State
      reads cache, limiter, router, tracker, metrics
    {
      State(limiter.Contents, cache.Abs(), router.Abs(), tracker.Abs(), metrics.Counts(), metrics.latencies)
    }

    constructor (cfg: Config, plat: Platform, strategy: RouterModel.Strategy, startTime: int)
      requires CacheModel.CanStore(cfg.cache) && plat.lib.Valid()
      ensures Valid() && this.cfg == cfg && this.plat == plat && metrics.startTime == startTime
      ensures fresh(cache.Repr) && fresh(limiter.Repr) && fresh(router) && fresh(tracker) && fresh(metrics)
      ensures Abs() == State(
        map[], CacheModel.State([], CacheModel.Capacity(cfg.cache), cfg.cache.ttlSeconds, 0, 0, 0, 0.0),
        RouterModel.State(map[], 0, strategy), CostModel.State([], map[], cfg.router.pricing),
        Metrics.Counters(0, 0, 0, 0, 0), [])
    {
      this.cfg, this.plat := cfg, plat;
      cache := new C.Cache(cfg.cache, plat.render, plat.hash);
      limiter := new L.RateLimiter(cfg.limits);
      router := new R.Router(cfg.router, plat.lib, strategy);
      tracker := new T.CostTracker(cfg.router.pricing);
      metrics := new Metrics.Metrics(startTime);
    }

    /** Handles one request: steps 3 to 8 of the endpoint. */
    method Handle(req: ChatRequest, t: Readings, world: World) returns (reply: Reply, ghost calls: seq<Call>)
      requires Valid()
      modifies cache.Repr, limiter.Repr, router, tracker, metrics
      ensures Valid()
      ensures fresh(cache.Repr - old(cache.Repr)) && fresh(limiter.Repr - old(limiter.Repr))
      ensures (Abs(), reply, calls) == M.Handle(cfg, plat, old(Abs()), req, t, world)
    {
      Begin();
      var denied := Admit(req, t);
      if denied.Some? {
        return RateLimited(denied.value), [];
      }
      var cached := LookUp(req, t);
      if cached.Some? {
        return FromCache(cached.value), [];
      }
      reply, calls := Forward(req, t, world);
    }

    /** A request whose body is refused (400) is only counted. */
    method RejectMalformed()
      requires Valid()
      modifies metrics
      ensures Valid() && Abs() == Begun(old(Abs()))
    {
      Begin();
    }

    // ----- Administrative actions ------------------------------------------------------

    method ClearCache()
      requires Valid()
      modifies cache.Repr
      ensures Valid() && cache.Repr == old(cache.Repr)
      ensures Abs() == old(Abs()).(cache := CacheModel.Clear(old(cache.Abs())))
    {
      cache.Clear();
    }

    method SetStrategy(strategy: RouterModel.Strategy)
      requires Valid()
      modifies router
      ensures Valid() && Abs() == old(Abs()).(router := old(router.Abs()).(strategy := strategy))
    {
      router.SetStrategy(strategy);
    }

    method SetPricing(model: string, provider: string, pricing: Pricing)
      requires Valid()
      modifies tracker
      ensures Valid()
      ensures Abs() == old(Abs()).(costs := old(tracker.Abs()).(
        pricing := old(tracker.pricing)[PriceKey(Offer(provider, model)) := pricing]))
    {
      tracker.SetPricing(model, provider, pricing);
    }

    // ----- After a cache miss -----------------------------------------------------------

    method Forward(req: ChatRequest, t: Readings, world: World) returns (reply: Reply, ghost calls: seq<Call>)
      requires Valid()
      modifies cache.Repr, limiter.Repr, router, tracker, metrics
      ensures Valid()
      ensures fresh(cache.Repr - old(cache.Repr)) && fresh(limiter.Repr - old(limiter.Repr))
      ensures (Abs(), reply, calls) == M.Forward(cfg, plat, old(Abs()), req, t, world)
    {
      var decision := Pick(req);
      if decision.provider == "" || decision.provider !in cfg.registry {
        CountError();
        return NoProvider, [];
      }
      var resp;
      resp, calls := Dispatch(decision, t, world);
      if resp.None? {
        CountError();
        return AllFailed, calls;
      }
      var priced := Answer(req, resp.value, t);
      reply := Served(priced);
    }

    /** Prices the response and settles it. */
    method Answer(req: ChatRequest, response: ChatResponse, t: Readings) returns (priced: ChatResponse)
      requires Valid()
      modifies cache.Repr, limiter.Repr, tracker, metrics
      ensures Valid()
      ensures fresh(cache.Repr - old(cache.Repr)) && fresh(limiter.Repr - old(limiter.Repr))
      ensures priced == Priced(old(Abs()), req, response)
      ensures Abs() == M.Settle(cfg, plat, old(Abs()), req, priced, t)
    {
      priced := Price(req, response);
      Settle(req, priced, t);
    }

    // ----- Stages ---------------------------------------------------------------------

    method Begin()
      requires Valid()
      modifies metrics
      ensures Valid() && Abs() == Begun(old(Abs()))
    {
      metrics.totalRequests := metrics.totalRequests + 1;
    }

    method CountError()
      requires Valid()
      modifies metrics
      ensures Valid() && Abs() == Failed(old(Abs()))
    {
      metrics.totalErrors := metrics.totalErrors + 1;
    }

    method Admit(req: ChatRequest, t: Readings) returns (denied: Option<LimiterModel.Result>)
      requires Valid()
      modifies limiter.Repr
      ensures Valid() && fresh(limiter.Repr - old(limiter.Repr))
      ensures (Abs(), denied) == M.Admit(cfg, old(Abs()), req, t)
    {
      if req.apiKey == "" {
        return None;
      }
      var estimate := TokenCounter.CountAll(req.messages);
      var rl := limiter.CheckRequest(req.apiKey, estimate, t.created, t.window, t.hint);
      denied := if rl.allowed then None else Some(rl);
    }

    method LookUp(req: ChatRequest, t: Readings) returns (cached: Option<ChatResponse>)
      requires Valid()
      modifies cache.Repr, metrics
      ensures Valid() && cache.Repr == old(cache.Repr)
      ensures (Abs(), cached) == M.LookUp(cfg, plat, old(Abs()), req, t)
    {
      cached := Fetch(req, t);
      Tally(cached.Some?);
    }

    method Fetch(req: ChatRequest, t: Readings) returns (cached: Option<ChatResponse>)
      requires Valid()
      modifies cache.Repr
      ensures Valid() && cache.Repr == old(cache.Repr)
      ensures (Abs(), cached) == M.Fetch(cfg, plat, old(Abs()), req, t)
    {
      cached := cache.Get(req, cfg.cache, t.check, t.touch);
    }

    method Tally(hit: bool)
      requires Valid()
      modifies metrics
      ensures Valid() && Abs() == Tallied(old(Abs()), hit)
    {
      if hit {
        metrics.cacheHits := metrics.cacheHits + 1;
      } else {
        metrics.cacheMisses := metrics.cacheMisses + 1;
      }
    }

    method Pick(req: ChatRequest) returns (d: RouterModel.Decision)
      requires Valid()
      modifies router
      ensures Valid() && (Abs(), d) == M.Pick(cfg, plat, old(Abs()), req)
    {
      d := router.Route(req.model);
    }

    method Dispatch(d: RouterModel.Decision, t: Readings, world: World)
      returns (resp: Option<ChatResponse>, ghost calls: seq<Call>)
      requires Valid() && d.provider in cfg.registry
      modifies router
      ensures Valid()
      ensures var r := M.Dispatch(cfg, old(router.health), d, t.reports, world);
        r.1 == calls && r.2 == resp && Abs() == old(Abs()).(router := old(router.Abs()).(health := r.0))
    {
      resp, calls := CallProviders(d, t.reports, world);
    }

    /** The primary call, then the fallback loop. */
    method CallProviders(d: RouterModel.Decision, at: nat -> int, world: World)
      returns (resp: Option<ChatResponse>, ghost calls: seq<Call>)
      requires d.provider in cfg.registry
      modifies router`health
      ensures (router.health, calls, resp) == M.Dispatch(cfg, old(router.health), d, at, world)
    {
      var r, tries, slept := Retry.WithRetry(world(0), cfg.registry[d.provider].maxRetries);
      match r
      case Returned(response) =>
        router.ReportSuccess(d.provider, response.latencyMs, at(0));
        return Some(response), [Call(d.provider, d.model, true)];
      case Threw(_) =>
        router.ReportFailure(d.provider, at(0));
        resp, calls := CallFallbacks(d.fallbacks, at, world);
        calls := [Call(d.provider, d.model, false)] + calls;
    }

    method CallFallbacks(chain: seq<string>, at: nat -> int, world: World)
      returns (resp: Option<ChatResponse>, ghost calls: seq<Call>)
      modifies router`health
      ensures (router.health, calls, resp) == Fallbacks(cfg, old(router.health), chain, 1, at, world)
    {
      calls := [];
      var made := 1;
      var i := 0;
      assert chain[0..] == chain;
      PrependNothing(Fallbacks(cfg, router.health, chain, 1, at, world));
      while i < |chain|
        invariant 0 <= i <= |chain| && made >= 1
        invariant Fallbacks(cfg, old(router.health), chain, 1, at, world)
          == Prepend(calls, Fallbacks(cfg, router.health, chain[i..], made, at, world))
      {
        var name := chain[i];
        ghost var rest := chain[i..];
        assert rest[0] == name && rest[1..] == chain[i + 1..];
        i := i + 1;
        if name !in cfg.registry || cfg.registry[name].models == [] {
          continue;
        }
        var model := cfg.registry[name].models[0];
        var r, tries, slept := Retry.WithRetry(world(made), cfg.registry[name].maxRetries);
        if r.Returned? {
          var response := r.response.(provider := name);
          router.ReportSuccess(name, response.latencyMs, at(made));
          return Some(response), calls + [Call(name, model, true)];
        }
        router.ReportFailure(name, at(made));
        PrependTwice(calls, [Call(name, model, false)],
                     Fallbacks(cfg, router.health, chain[i..], made + 1, at, world));
        calls := calls + [Call(name, model, false)];
        made := made + 1;
      }
      assert calls + [] == calls;
      resp := None;
    }

    method Price(req: ChatRequest, response: ChatResponse) returns (r: ChatResponse)
      ensures r == Priced(Abs(), req, response)
    {
      r := response;
      var cost := CostModel.EstimateCost(tracker.pricing, r.provider, r.model, r.promptTokens, r.completionTokens);
      r := r.(costUsd := cost);
      r := r.(requestId := req.requestId);
    }

    /** Cost, token charge, metrics and cache store. */
    method Settle(req: ChatRequest, r: ChatResponse, t: Readings)
      requires Valid()
      modifies cache.Repr, limiter.Repr, tracker, metrics
      ensures Valid()
      ensures fresh(cache.Repr - old(cache.Repr)) && fresh(limiter.Repr - old(limiter.Repr))
      ensures Abs() == M.Settle(cfg, plat, old(Abs()), req, r, t)
    {
      Bill(req, r, t);
      Keep(req, r, t);
    }

    method Bill(req: ChatRequest, r: ChatResponse, t: Readings)
      requires Valid()
      modifies limiter.Repr, tracker
      ensures Valid() && fresh(limiter.Repr - old(limiter.Repr))
      ensures Abs() == Charged(cfg, Costed(old(Abs()), req, r), req, r.totalTokens, t)
    {
      RecordCost(req, r);
      ChargeTokens(req, r.totalTokens, t);
    }

    method Keep(req: ChatRequest, r: ChatResponse, t: Readings)
      requires Valid()
      modifies cache.Repr, metrics
      ensures Valid() && fresh(cache.Repr - old(cache.Repr))
      ensures Abs() == Cached(cfg, plat, Observed(old(Abs()), r), req, r, t)
    {
      Observe(r);
      Store(req, r, t);
    }

    method RecordCost(req: ChatRequest, r: ChatResponse)
      requires Valid()
      modifies tracker
      ensures Valid() && Abs() == Costed(old(Abs()), req, r)
    {
      tracker.Record(MetricsOf(req, r));
    }

    method ChargeTokens(req: ChatRequest, tokens: int, t: Readings)
      requires Valid()
      modifies limiter.Repr
      ensures Valid() && fresh(limiter.Repr - old(limiter.Repr))
      ensures Abs() == Charged(cfg, old(Abs()), req, tokens, t)
    {
      if req.apiKey != "" {
        limiter.RecordTokens(req.apiKey, tokens, t.charged);
      }
    }

    method Observe(r: ChatResponse)
      requires Valid()
      modifies metrics
      ensures Valid() && Abs() == Observed(old(Abs()), r)
    {
      metrics.ObserveLatency(r.latencyMs);
      metrics.totalTokens := metrics.totalTokens + r.totalTokens;
    }

    method Store(req: ChatRequest, r: ChatResponse, t: Readings)
      requires Valid()
      modifies cache.Repr
      ensures Valid() && fresh(cache.Repr - old(cache.Repr))
      ensures Abs() == Cached(cfg, plat, old(Abs()), req, r, t)
    {
      cache.Put(req, r, cfg.cache, t.sweep, t.insert);
    }
  }

  lemma PrependNothing<A, B>(rest: (A, seq<Call>, B))
    ensures Prepend([], rest) == rest
  {
    assert [] + rest.1 == rest.1;
  }

  lemma PrependTwice<A, B>(calls: seq<Call>, more: seq<Call>, rest: (A, seq<Call>, B))
    ensures Prepend(calls, (rest.0, more + rest.1, rest.2)) == Prepend(calls + more, rest)
  {
    assert calls + (more + rest.1) == calls + more + rest.1;
  }

  function Prepend<A, B>(calls: seq<Call>, rest: (A, seq<Call>, B)): (A, seq<Call>, B) {
    (rest.0, calls + rest.1, rest.2)
  }
}
