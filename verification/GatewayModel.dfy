/** One chat completion request as a single step over the joint state of the gateway. */
module GatewayModel {
  import opened Types
  import CacheKey
  import CacheModel
  import LimiterModel
  import RouterModel
  import CostModel
  import Health
  import Metrics
  import Retry
  import TokenCounter

  datatype ProviderInfo = ProviderInfo(models: seq<string>, maxRetries: nat)

  /** The configuration, and the registry of providers that were started. */
  datatype Config = Config(
    cache: CacheModel.CacheConfig,
    limits: LimiterModel.LimitConfig,
    router: RouterModel.RouterConfig,
    registry: map<string, ProviderInfo>)

  /** What the runtime library supplies. */
  datatype Platform = Platform(lib: RouterModel.Library, render: real -> string, hash: string -> nat)

  /** The clock readings of one request, in the order they are made; `reports(i)` is that of the report on
      its i-th provider call. */
  datatype Readings = Readings(
    created: int, window: int, hint: int, check: int, touch: int, reports: nat -> int, charged: int, sweep: int,
    insert: int)

  /** What the providers do: attempt j of the request's i-th provider call. */
  type World = nat -> (nat -> Retry.Attempt)

  datatype State = State(
    buckets: map<string, LimiterModel.Bucket>,
    cache: CacheModel.State,
    router: RouterModel.State,
    costs: CostModel.State,
    counters: Metrics.Counters,
    latencies: seq<real>)

  datatype Reply =
    | RateLimited(result: LimiterModel.Result)
    | FromCache(response: ChatResponse)
    | NoProvider
    | AllFailed
    | Served(response: ChatResponse)

  /** One provider call and how it ended. */
  datatype Call = Call(provider: string, model: string, ok: bool)

  // ----- Stages ---------------------------------------------------------------------

  function Key(cfg: Config, plat: Platform, req: ChatRequest): string {
    CacheKey.Key(req, cfg.cache.matchParams, plat.render, plat.hash)
  }

  /** Rate limiting; requests without a key are not limited. */
  function Admit(cfg: Config, s: State, req: ChatRequest, t: Readings): (State, Option<LimiterModel.Result>) {
    if req.apiKey == "" then (s, None)
    else
      var estimate := TokenCounter.CountMessages(req.messages);
      var (buckets, r) := LimiterModel.Check(s.buckets, cfg.limits, req.apiKey, estimate, t.created, t.window, t.hint);
      (s.(buckets := buckets), if r.allowed then None else Some(r))
  }

  function Fetch(cfg: Config, plat: Platform, s: State, req: ChatRequest, t: Readings)
    : (State, Option<ChatResponse>)
  {
    var (cache, hit) :=
      CacheModel.Get(s.cache, cfg.cache.enabled, Key(cfg, plat, req), req.requestId, t.check, t.touch);
    (s.(cache := cache), hit)
  }

  function Tallied(s: State, hit: bool): State {
    s.(counters := if hit then s.counters.(hits := s.counters.hits + 1)
                   else s.counters.(misses := s.counters.misses + 1))
  }

  function LookUp(cfg: Config, plat: Platform, s: State, req: ChatRequest, t: Readings)
    : (State, Option<ChatResponse>)
  {
    var (s1, hit) := Fetch(cfg, plat, s, req, t);
    (Tallied(s1, hit.Some?), hit)
  }

  function Pick(cfg: Config, plat: Platform, s: State, req: ChatRequest): (State, RouterModel.Decision) {
    var (d, idx) := RouterModel.Route(cfg.router, plat.lib, s.router, req.model);
    (s.(router := s.router.(roundRobinIdx := idx)), d)
  }

  type HealthMap = map<string, Health.Health>

  /** The fallback loop: providers that are not registered or have no model are skipped. */
  function Fallbacks(cfg: Config, health: HealthMap, chain: seq<string>, made: nat, at: nat -> int, world: World)
    : (HealthMap, seq<Call>, Option<ChatResponse>)
    decreases chain
  {
    if chain == [] then (health, [], None)
    else
      var name, rest := chain[0], chain[1..];
      if name !in cfg.registry || cfg.registry[name].models == [] then
        Fallbacks(cfg, health, rest, made, at, world)
      else
        var info := cfg.registry[name];
        match Retry.Call(world(made), info.maxRetries)
        case Returned(resp) =>
          (RouterModel.Reported(health, name, Health.Ok(resp.latencyMs), at(made)),
           [Call(name, info.models[0], true)], Some(resp.(provider := name)))
        case Threw(_) =>
          var (h, calls, resp) :=
            Fallbacks(cfg, RouterModel.Reported(health, name, Health.Fail, at(made)), rest, made + 1, at, world);
          (h, [Call(name, info.models[0], false)] + calls, resp)
  }

  /** The primary call, then the fallbacks if it fails. */
  function Dispatch(cfg: Config, health: HealthMap, d: RouterModel.Decision, at: nat -> int, world: World)
    : (HealthMap, seq<Call>, Option<ChatResponse>)
    requires d.provider in cfg.registry
  {
    match Retry.Call(world(0), cfg.registry[d.provider].maxRetries)
    case Returned(resp) =>
      (RouterModel.Reported(health, d.provider, Health.Ok(resp.latencyMs), at(0)),
       [Call(d.provider, d.model, true)], Some(resp))
    case Threw(_) =>
      var (h, calls, resp) :=
        Fallbacks(cfg, RouterModel.Reported(health, d.provider, Health.Fail, at(0)), d.fallbacks, 1, at, world);
      (h, [Call(d.provider, d.model, false)] + calls, resp)
  }

  function Priced(s: State, req: ChatRequest, resp: ChatResponse): ChatResponse {
    resp.(costUsd := CostModel.EstimateCost(s.costs.pricing, resp.provider, resp.model,
                                            resp.promptTokens, resp.completionTokens),
          requestId := req.requestId)
  }

  function MetricsOf(req: ChatRequest, resp: ChatResponse): CostModel.RequestMetrics {
    CostModel.RequestMetrics(resp.requestId, req.apiKey, resp.provider, resp.model, resp.promptTokens,
                             resp.completionTokens, resp.latencyMs, resp.costUsd, false)
  }

  function Costed(s: State, req: ChatRequest, resp: ChatResponse): State {
    s.(costs := CostModel.Record(s.costs, MetricsOf(req, resp)))
  }

  function Charged(cfg: Config, s: State, req: ChatRequest, tokens: int, t: Readings): State {
    if req.apiKey == "" then s
    else s.(buckets := LimiterModel.Record(s.buckets, cfg.limits, req.apiKey, tokens, t.charged))
  }

  function Observed(s: State, resp: ChatResponse): State {
    s.(latencies := Metrics.Observe(s.latencies, resp.latencyMs),
       counters := s.counters.(tokens := s.counters.tokens + resp.totalTokens))
  }

  function Cached(cfg: Config, plat: Platform, s: State, req: ChatRequest, resp: ChatResponse, t: Readings): State
    requires CacheModel.CanStore(cfg.cache)
  {
    s.(cache := CacheModel.Put(s.cache, cfg.cache, Key(cfg, plat, req), resp, req.stream, t.sweep, t.insert))
  }

  /** Cost record, token charge, metrics and cache store of a served response. */
  function Settle(cfg: Config, plat: Platform, s: State, req: ChatRequest, resp: ChatResponse, t: Readings): State
    requires CacheModel.CanStore(cfg.cache)
  {
    Cached(cfg, plat, Observed(Charged(cfg, Costed(s, req, resp), req, resp.totalTokens, t), resp), req, resp, t)
  }

  function Begun(s: State): State {
    s.(counters := s.counters.(requests := s.counters.requests + 1))
  }

  function Failed(s: State): State {
    s.(counters := s.counters.(errors := s.counters.errors + 1))
  }

  /** After a cache miss: route, call, and settle or fail. */
  function Forward(cfg: Config, plat: Platform, s: State, req: ChatRequest, t: Readings, world: World)
    : (State, Reply, seq<Call>)
    requires CacheModel.CanStore(cfg.cache)
  {
    var (s1, d) := Pick(cfg, plat, s, req);
    if d.provider == "" || d.provider !in cfg.registry then (Failed(s1), NoProvider, [])
    else
      var (health, calls, resp) := Dispatch(cfg, s1.router.health, d, t.reports, world);
      var s2 := s1.(router := s1.router.(health := health));
      match resp
      case None => (Failed(s2), AllFailed, calls)
      case Some(r) =>
        var priced := Priced(s2, req, r);
        (Settle(cfg, plat, s2, req, priced, t), Served(priced), calls)
  }

  /** The whole request. */
  function Handle(cfg: Config, plat: Platform, s: State, req: ChatRequest, t: Readings, world: World)
    : (State, Reply, seq<Call>)
    requires CacheModel.CanStore(cfg.cache)
  {
    var (s1, denied) := Admit(cfg, Begun(s), req, t);
    if denied.Some? then (s1, RateLimited(denied.value), [])
    else
      var (s2, hit) := LookUp(cfg, plat, s1, req, t);
      if hit.Some? then (s2, FromCache(hit.value), [])
      else Forward(cfg, plat, s2, req, t, world)
  }
}
