/** The whole gateway over runs of requests: what its parts guarantee together. */
module GatewayRuns {
  import opened Types
  import opened GatewayModel
  import opened Seqs
  import CacheModel
  import RouterModel
  import CostModel
  import CostRuns
  import Metrics

  /** A configured gateway, just started. */
  datatype Deployment = Deployment(cfg: Config, plat: Platform, strategy: RouterModel.Strategy)
  {
    ghost predicate Valid() {
      CacheModel.CanStore(cfg.cache) && plat.lib.Valid()
    }

    function Start(): State {
      State(map[],
            CacheModel.State([], CacheModel.Capacity(cfg.cache), cfg.cache.ttlSeconds, 0, 0, 0, 0.0),
            RouterModel.State(map[], 0, strategy),
            CostModel.State([], map[], cfg.router.pricing),
            Metrics.Counters(0, 0, 0, 0, 0), [])
    }
  }

  /** A request, one whose body is refused (400), or an administrative action between requests. */
  datatype Event =
    | Request(req: ChatRequest, t: Readings, world: World)
    | Malformed
    | CacheCleared
    | StrategySet(strategy: RouterModel.Strategy)
    | PriceSet(model: string, provider: string, pricing: Pricing)

  function Step(g: Deployment, s: State, e: Event): State
    requires g.Valid()
  {
    match e
    case Request(req, t, world) => Handle(g.cfg, g.plat, s, req, t, world).0
    case Malformed => Begun(s)
    case CacheCleared => s.(cache := CacheModel.Clear(s.cache))
    case StrategySet(strategy) => s.(router := s.router.(strategy := strategy))
    case PriceSet(model, provider, pricing) =>
      s.(costs := s.costs.(pricing := s.costs.pricing[PriceKey(Offer(provider, model)) := pricing]))
  }

  function ReplyOf(g: Deployment, s: State, e: Event): Option<Reply>
    requires g.Valid()
  {
    if e.Request? then Some(Handle(g.cfg, g.plat, s, e.req, e.t, e.world).1) else None
  }

  function Run(g: Deployment, es: seq<Event>): State
    requires g.Valid()
  {
    if es == [] then g.Start() else Step(g, Run(g, es[..|es| - 1]), es[|es| - 1])
  }

  /** The answer to the last event of a run. */
  function LastReply(g: Deployment, es: seq<Event>): Option<Reply>
    requires g.Valid() && es != []
  {
    ReplyOf(g, Run(g, es[..|es| - 1]), es[|es| - 1])
  }

  // ----- One request, stage by stage --------------------------------------------------

  predicate Refused(r: Reply) {
    r.RateLimited? || r.NoProvider? || r.AllFailed?
  }

  lemma SettleMoney(g: Deployment, s: State, req: ChatRequest, resp: ChatResponse, t: Readings)
    requires g.Valid()
    ensures var s' := Settle(g.cfg, g.plat, s, req, resp, t);
      s'.costs == CostModel.Record(s.costs, MetricsOf(req, resp)) && s'.cache.savingsUsd == s.cache.savingsUsd
  {}

  lemma PricedAsBilled(s: State, req: ChatRequest, resp: ChatResponse)
    ensures var m := MetricsOf(req, Priced(s, req, resp)); CostModel.Billed(s.costs.pricing, m) == m
  {
    var priced := Priced(s, req, resp);
    CostRuns.BilledAtEstimate(s.costs.pricing, MetricsOf(req, priced));
  }

  ghost predicate MoneyMoved(s: State, req: ChatRequest, r: Reply, s': State) {
    match r
    case Served(resp) =>
      s'.costs == CostModel.Record(s.costs, MetricsOf(req, resp))
      && CostModel.Billed(s.costs.pricing, MetricsOf(req, resp)) == MetricsOf(req, resp)
      && s'.cache.savingsUsd == s.cache.savingsUsd
    case FromCache(resp) =>
      s'.costs == s.costs && s'.cache.savingsUsd == s.cache.savingsUsd + resp.costUsd
    case _ => s'.costs == s.costs && s'.cache.savingsUsd == s.cache.savingsUsd
  }

  lemma ForwardMoney(g: Deployment, s: State, req: ChatRequest, t: Readings, world: World)
    requires g.Valid()
    ensures var (s', r, _) := Forward(g.cfg, g.plat, s, req, t, world); MoneyMoved(s, req, r, s') && !r.FromCache?
  {
    var (s1, d) := Pick(g.cfg, g.plat, s, req);
    if d.provider != "" && d.provider in g.cfg.registry {
      var (health, calls, resp) := Dispatch(g.cfg, s1.router.health, d, t.reports, world);
      if resp.Some? {
        var s2 := s1.(router := s1.router.(health := health));
        PricedAsBilled(s2, req, resp.value);
        SettleMoney(g, s2, req, Priced(s2, req, resp.value), t);
      }
    }
  }

  lemma LookUpMoney(g: Deployment, s: State, req: ChatRequest, t: Readings)
    requires g.Valid()
    ensures var (s', hit) := LookUp(g.cfg, g.plat, s, req, t);
      s'.costs == s.costs
      && s'.cache.savingsUsd == s.cache.savingsUsd + (if hit.Some? then hit.value.costUsd else 0.0)
  {}

  /** What each reply leaves untouched and how it moves the costs and the savings. */
  lemma RequestMoney(g: Deployment, s: State, req: ChatRequest, t: Readings, world: World)
    requires g.Valid()
    ensures var (s', r, _) := Handle(g.cfg, g.plat, s, req, t, world); MoneyMoved(s, req, r, s')
  {
    var (s1, denied) := Admit(g.cfg, Begun(s), req, t);
    assert s1.costs == s.costs && s1.cache == s.cache;
    if denied.None? {
      LookUpMoney(g, s1, req, t);
      ForwardMoney(g, LookUp(g.cfg, g.plat, s1, req, t).0, req, t, world);
    }
  }

  lemma MissKeepsEntries(c: CacheModel.State, enabled: bool, key: string, requestId: string, check: int, touch: int)
    requires CacheModel.Get(c, enabled, key, requestId, check, touch).1.None?
    ensures forall e :: e in CacheModel.Get(c, enabled, key, requestId, check, touch).0.entries ==> e in c.entries
  {
    CacheModel.WithoutSubseq(c.entries, key);
    SubseqMember(CacheModel.Without(c.entries, key), c.entries);
  }

  lemma LookUpKeepsEntries(g: Deployment, s: State, req: ChatRequest, t: Readings)
    requires g.Valid() && LookUp(g.cfg, g.plat, s, req, t).1.None?
    ensures var s' := LookUp(g.cfg, g.plat, s, req, t).0;
      (forall e :: e in s'.cache.entries ==> e in s.cache.entries)
      && s'.latencies == s.latencies && s'.counters.tokens == s.counters.tokens
  {
    MissKeepsEntries(s.cache, g.cfg.cache.enabled, Key(g.cfg, g.plat, req), req.requestId, t.check, t.touch);
  }

  lemma ForwardRefused(g: Deployment, s: State, req: ChatRequest, t: Readings, world: World)
    requires g.Valid() && Refused(Forward(g.cfg, g.plat, s, req, t, world).1)
    ensures var s' := Forward(g.cfg, g.plat, s, req, t, world).0;
      s'.cache == s.cache && s'.latencies == s.latencies && s'.counters.tokens == s.counters.tokens
  {}

  /** Requests answered 429, 502 or 503 neither cost nor save anything, and store nothing. */
  lemma RefusedRequestsAreFree(g: Deployment, s: State, req: ChatRequest, t: Readings, world: World)
    requires g.Valid() && Refused(Handle(g.cfg, g.plat, s, req, t, world).1)
    ensures var s' := Handle(g.cfg, g.plat, s, req, t, world).0;
      s'.costs == s.costs && s'.cache.savingsUsd == s.cache.savingsUsd && s'.latencies == s.latencies
      && s'.counters.tokens == s.counters.tokens
      && forall e :: e in s'.cache.entries ==> e in s.cache.entries
  {
    RequestMoney(g, s, req, t, world);
    var (s1, denied) := Admit(g.cfg, Begun(s), req, t);
    assert s1.cache == s.cache && s1.latencies == s.latencies && s1.counters.tokens == s.counters.tokens;
    if denied.None? {
      LookUpKeepsEntries(g, s1, req, t);
      ForwardRefused(g, LookUp(g.cfg, g.plat, s1, req, t).0, req, t, world);
    }
  }

  // ----- Spend is conserved -------------------------------------------------------------

  function ReplyCost(r: Option<Reply>): real {
    match r
    case Some(Served(resp)) => resp.costUsd
    case Some(FromCache(resp)) => resp.costUsd
    case _ => 0.0
  }

  /** What all successful replies of a run cost, a hit counted at the cost of its stored entry. */
  function CostOfReplies(g: Deployment, es: seq<Event>): real
    requires g.Valid()
  {
    if es == [] then 0.0 else CostOfReplies(g, es[..|es| - 1]) + ReplyCost(LastReply(g, es))
  }

  /** What the cost tracker sees of a run. */
  function CostEvents(g: Deployment, es: seq<Event>): seq<CostRuns.Event>
    requires g.Valid()
  {
    if es == [] then []
    else
      var e, r := es[|es| - 1], LastReply(g, es);
      CostEvents(g, es[..|es| - 1]) +
      match e
      case PriceSet(model, provider, pricing) => [CostRuns.Repriced(PriceKey(Offer(provider, model)), pricing)]
      case Request(req, _, _) => if r.value.Served? then [CostRuns.Recorded(MetricsOf(req, r.value.response))] else []
      case _ => []
  }

  function Recorded(g: Deployment, es: seq<Event>): seq<CostModel.RequestMetrics>
    requires g.Valid()
  {
    CostRuns.AllRecords(g.Start().costs, CostEvents(g, es))
  }

  lemma {:induction false} CostsProject(g: Deployment, es: seq<Event>)
    requires g.Valid()
    ensures Run(g, es).costs == CostRuns.Run(g.Start().costs, CostEvents(g, es))
  {
    if es != [] {
      var before, e := es[..|es| - 1], es[|es| - 1];
      CostsProject(g, before);
      var ops := CostEvents(g, before);
      assert ops + [] == ops;
      match e
      case Request(req, t, world) =>
        RequestMoney(g, Run(g, before), req, t, world);
        if LastReply(g, es).value.Served? {
          assert CostEvents(g, es)[..|ops|] == ops;
        }
      case PriceSet(_, _, _) => assert CostEvents(g, es)[..|ops|] == ops;
      case _ =>
    }
  }

  /** Every served reply is recorded once, as it was priced; nothing else is recorded. */
  lemma RecordedStep(g: Deployment, es: seq<Event>)
    requires g.Valid() && es != []
    ensures var e, r, all := es[|es| - 1], LastReply(g, es), Recorded(g, es[..|es| - 1]);
      Recorded(g, es) == all + (if r.Some? && r.value.Served? then [MetricsOf(e.req, r.value.response)] else [])
  {
    var before, e := es[..|es| - 1], es[|es| - 1];
    var ops, all := CostEvents(g, before), Recorded(g, before);
    assert ops + [] == ops && all + [] == all;
    CostsProject(g, before);
    if e.Request? {
      RequestMoney(g, Run(g, before), e.req, e.t, e.world);
      if LastReply(g, es).value.Served? {
        assert CostEvents(g, es)[..|ops|] == ops;
      }
    } else if e.PriceSet? {
      assert CostEvents(g, es)[..|ops|] == ops;
    }
  }

  lemma TotalStep(all: seq<CostModel.RequestMetrics>, m: CostModel.RequestMetrics)
    ensures CostRuns.Total(all + [m], "") == CostRuns.Total(all, "") + m.costUsd
  {
    assert (all + [m])[..|all|] == all;
  }

  lemma ConservedStep(g: Deployment, es: seq<Event>)
    requires g.Valid() && es != []
    ensures var before := es[..|es| - 1];
      ReplyCost(LastReply(g, es))
        == CostRuns.Total(Recorded(g, es), "") - CostRuns.Total(Recorded(g, before), "")
         + Run(g, es).cache.savingsUsd - Run(g, before).cache.savingsUsd
  {
    var before, e, r := es[..|es| - 1], es[|es| - 1], LastReply(g, es);
    var all := Recorded(g, before);
    RecordedStep(g, es);
    assert all + [] == all;
    if e.Request? {
      RequestMoney(g, Run(g, before), e.req, e.t, e.world);
      if r.value.Served? {
        TotalStep(all, MetricsOf(e.req, r.value.response));
      }
    }
  }

  lemma {:induction false} RepliesConserved(g: Deployment, es: seq<Event>)
    requires g.Valid()
    ensures CostOfReplies(g, es) == CostRuns.Total(Recorded(g, es), "") + Run(g, es).cache.savingsUsd
  {
    if es != [] {
      RepliesConserved(g, es[..|es| - 1]);
      ConservedStep(g, es);
    }
  }

  /** Over any run, what the replies cost is what the tracker recorded plus what the cache saved, the
      tracker's state being that of recording exactly those replies. */
  lemma SpendIsConserved(g: Deployment, es: seq<Event>)
    requires g.Valid()
    ensures Run(g, es).costs == CostRuns.Run(g.Start().costs, CostEvents(g, es))
    ensures CostOfReplies(g, es) == CostRuns.Total(Recorded(g, es), "") + Run(g, es).cache.savingsUsd
  {
    CostsProject(g, es);
    RepliesConserved(g, es);
  }

  /** What an operator sees: the reported total and the cache savings account for every successful reply,
      as long as the bounded history has not dropped a record. */
  lemma ReportedTotalsAddUp(g: Deployment, es: seq<Event>)
    requires g.Valid()
    ensures var s := Run(g, es);
      s.costs.history == CostRuns.LastRecords(Recorded(g, es))
      && (|Recorded(g, es)| <= 100_000 ==>
            CostModel.Summarize(s.costs.history, "").totalUsd + s.cache.savingsUsd == CostOfReplies(g, es))
  {
    CostsProject(g, es);
    CostRuns.HistoryIsSuffix(g.Start().costs, CostEvents(g, es));
    SpendIsConserved(g, es);
    CostRuns.SummaryIsTotal(Run(g, es).costs.history, "");
  }

  /** What the served replies to one API key cost. */
  function ServedCost(g: Deployment, es: seq<Event>, apiKey: string): real
    requires g.Valid()
  {
    if es == [] then 0.0
    else
      var e, r := es[|es| - 1], LastReply(g, es);
      ServedCost(g, es[..|es| - 1], apiKey)
      + (if e.Request? && r.value.Served? && e.req.apiKey == apiKey then r.value.response.costUsd else 0.0)
  }

  lemma SpendStep(s: CostModel.State, m: CostModel.RequestMetrics, apiKey: string)
    requires apiKey != "" && CostModel.Billed(s.pricing, m) == m
    ensures CostModel.Spend(CostModel.Record(s, m), apiKey)
         == CostModel.Spend(s, apiKey) + (if m.apiKey == apiKey then m.costUsd else 0.0)
  {}

  lemma RequestSpend(g: Deployment, s: State, e: Event, apiKey: string)
    requires g.Valid() && apiKey != ""
    ensures var r := ReplyOf(g, s, e);
      CostModel.Spend(Step(g, s, e).costs, apiKey) == CostModel.Spend(s.costs, apiKey)
        + (if e.Request? && r.value.Served? && e.req.apiKey == apiKey then r.value.response.costUsd else 0.0)
  {
    if e.Request? {
      RequestMoney(g, s, e.req, e.t, e.world);
      var r := ReplyOf(g, s, e).value;
      if r.Served? {
        SpendStep(s.costs, MetricsOf(e.req, r.response), apiKey);
      }
    }
  }

  /** The spend reported for a key is exactly what its served replies cost; hits add nothing. */
  lemma {:induction false} SpendPerKey(g: Deployment, es: seq<Event>, apiKey: string)
    requires g.Valid() && apiKey != ""
    ensures CostModel.Spend(Run(g, es).costs, apiKey) == ServedCost(g, es, apiKey)
  {
    if es != [] {
      var before, e := es[..|es| - 1], es[|es| - 1];
      SpendPerKey(g, before, apiKey);
      RequestSpend(g, Run(g, before), e, apiKey);
    }
  }

  // ----- Counters ---------------------------------------------------------------------------

  datatype Kind = Limited | Hit | Miss | Error

  function KindOf(r: Reply): Kind {
    match r
    case RateLimited(_) => Limited
    case FromCache(_) => Hit
    case Served(_) => Miss
    case _ => Error
  }

  function CountReplies(g: Deployment, es: seq<Event>, kind: Kind): nat
    requires g.Valid()
  {
    if es == [] then 0
    else
      var r := LastReply(g, es);
      CountReplies(g, es[..|es| - 1], kind) + (if r.Some? && KindOf(r.value) == kind then 1 else 0)
  }

  function CountMalformed(es: seq<Event>): nat {
    if es == [] then 0 else CountMalformed(es[..|es| - 1]) + (if es[|es| - 1].Malformed? then 1 else 0)
  }

  function LatenciesIn(r: Option<Reply>): (ms: seq<real>)
    ensures |ms| <= 1
  {
    if r.Some? && r.value.Served? then [r.value.response.latencyMs] else []
  }

  /** Latencies of the served replies, in order. */
  function ServedLatencies(g: Deployment, es: seq<Event>): seq<real>
    requires g.Valid()
  {
    if es == [] then [] else ServedLatencies(g, es[..|es| - 1]) + LatenciesIn(LastReply(g, es))
  }

  /** How one answer moves the counters and the latency window. */
  ghost predicate Tallies(s: State, r: Reply, s': State) {
    var c, c' := s.counters, s'.counters;
    && c'.hits == c.hits + (if r.FromCache? then 1 else 0)
    && c'.misses == c.misses + (if r.RateLimited? || r.FromCache? then 0 else 1)
    && c'.errors == c.errors + (if r.NoProvider? || r.AllFailed? then 1 else 0)
    && s'.latencies == if r.Served? then Metrics.Observe(s.latencies, r.response.latencyMs) else s.latencies
  }

  lemma ForwardTallies(g: Deployment, s: State, req: ChatRequest, t: Readings, world: World)
    requires g.Valid()
    ensures var (s', r, _) := Forward(g.cfg, g.plat, Tallied(s, false), req, t, world);
      Tallies(s, r, s') && s'.counters.requests == s.counters.requests && !r.FromCache? && !r.RateLimited?
  {}

  lemma RequestTallies(g: Deployment, s: State, req: ChatRequest, t: Readings, world: World)
    requires g.Valid()
    ensures var (s', r, _) := Handle(g.cfg, g.plat, s, req, t, world);
      Tallies(s, r, s') && s'.counters.requests == s.counters.requests + 1
  {
    var (s1, denied) := Admit(g.cfg, Begun(s), req, t);
    assert s1.latencies == s.latencies && s1.counters == s.counters.(requests := s.counters.requests + 1);
    if denied.None? {
      var (s2, hit) := Fetch(g.cfg, g.plat, s1, req, t);
      ForwardTallies(g, s2, req, t, world);
    }
  }

  ghost predicate AddUp(g: Deployment, es: seq<Event>)
    requires g.Valid()
  {
    var c := Run(g, es).counters;
    && c.requests == CountMalformed(es) + CountReplies(g, es, Limited) + c.hits + c.misses
    && c.hits == CountReplies(g, es, Hit)
    && c.misses == CountReplies(g, es, Miss) + c.errors
    && c.errors == CountReplies(g, es, Error)
  }

  lemma EventTallies(g: Deployment, s: State, e: Event)
    requires g.Valid()
    ensures var r, c, c' := ReplyOf(g, s, e), s.counters, Step(g, s, e).counters;
      if r.None? then c' == c.(requests := c.requests + (if e.Malformed? then 1 else 0))
      else
        var k := KindOf(r.value);
        && c'.requests == c.requests + 1
        && c'.hits == c.hits + (if k == Hit then 1 else 0)
        && c'.misses == c.misses + (if k == Miss || k == Error then 1 else 0)
        && c'.errors == c.errors + (if k == Error then 1 else 0)
  {
    if e.Request? {
      RequestTallies(g, s, e.req, e.t, e.world);
    }
  }

  /** The exported counters add up. */
  lemma {:induction false} CountersAddUp(g: Deployment, es: seq<Event>)
    requires g.Valid()
    ensures AddUp(g, es)
  {
    if es != [] {
      var before, e := es[..|es| - 1], es[|es| - 1];
      CountersAddUp(g, before);
      EventTallies(g, Run(g, before), e);
    }
  }

  lemma EventLatencies(g: Deployment, s: State, e: Event)
    requires g.Valid()
    ensures var ms := LatenciesIn(ReplyOf(g, s, e));
      Step(g, s, e).latencies == if ms == [] then s.latencies else Metrics.Observe(s.latencies, ms[0])
  {
    if e.Request? {
      RequestTallies(g, s, e.req, e.t, e.world);
    }
  }

  lemma WindowMore(all: seq<real>, more: seq<real>)
    requires |more| <= 1
    ensures Metrics.Window(all + more)
         == if more == [] then Metrics.Window(all) else Metrics.Observe(Metrics.Window(all), more[0])
  {
    if more == [] {
      assert all + more == all;
    } else {
      assert (all + more)[..|all|] == all;
    }
  }

  lemma {:induction false} LatenciesProject(g: Deployment, es: seq<Event>)
    requires g.Valid()
    ensures Run(g, es).latencies == Metrics.Window(ServedLatencies(g, es))
  {
    if es != [] {
      var before := es[..|es| - 1];
      LatenciesProject(g, before);
      EventLatencies(g, Run(g, before), es[|es| - 1]);
      WindowMore(ServedLatencies(g, before), LatenciesIn(LastReply(g, es)));
    }
  }

  /** The latency window is a suffix of the latencies of the served replies. */
  lemma LatencyWindow(g: Deployment, es: seq<Event>)
    requires g.Valid()
    ensures var all := ServedLatencies(g, es);
      Run(g, es).latencies == all[|all| - Metrics.WindowSize(|all|)..]
  {
    LatenciesProject(g, es);
    Metrics.WindowIsSuffix(ServedLatencies(g, es));
  }
}
