/** The router as a mutable object: health table, rotation index and strategy. */
module Router {
  import opened Types
  import opened Health
  import opened RouterModel
  import M = RouterModel

  class Router {
    const cfg: RouterConfig
    const lib: Library

    var health: map<string, Health>
    var roundRobinIdx: nat
    var strategy: Strategy

    ghost predicate Valid() {
      lib.Valid()
    }

    ghost function Abs(): State
      reads this
    {
      State(health, roundRobinIdx, strategy)
    }

    constructor (cfg: RouterConfig, lib: Library, strategy: Strategy)
      requires lib.Valid()
      ensures Valid() && this.cfg == cfg && this.lib == lib && Abs() == State(map[], 0, strategy)
    {
      this.cfg, this.lib, this.strategy := cfg, lib, strategy;
      health, roundRobinIdx := map[], 0;
    }

    method Route(model: string) returns (d: Decision)
      requires Valid()
      modifies this`roundRobinIdx
      ensures (d, roundRobinIdx) == M.Route(cfg, lib, old(Abs()), model)
    {
      var resolved := Resolve(cfg, model);
      var colon := Colon(resolved);
      if colon < |resolved| {
        d := RoutePinned(resolved[..colon], resolved[colon + 1..]);
        return;
      }
      match strategy
      case CostOptimized => d := RouteCostOptimized();
      case LatencyOptimized => d := RouteLatencyOptimized();
      case RoundRobin => d := RouteRoundRobin();
      case Failover => d := RouteFailover();
      case Smart => d := RouteSmart();
    }

    method RoutePinned(provider: string, model: string) returns (d: Decision)
      requires Valid()
      ensures d == Decision(provider, model, strategy, 0.0, Others(lib.listing(health.Keys), health, provider))
    {
      var names := lib.listing(health.Keys);
      var fallbacks := [];
      for i := 0 to |names|
        invariant fallbacks == Others(names[..i], health, provider)
      {
        assert names[..i + 1][..i] == names[..i];
        assert names[i] in names;
        if names[i] != provider && health[names[i]].available {
          fallbacks := fallbacks + [names[i]];
        }
      }
      assert names[..|names|] == names;
      d := Decision(provider, model, strategy, 0.0, fallbacks);
    }

    method RouteCostOptimized() returns (d: Decision)
      ensures d == ByCost(cfg, health)
    {
      var best := Best(NO_OFFER, HUGE);
      var ps := cfg.providers;
      for i := 0 to |ps|
        invariant best == Cheapest(Offers(ps[..i], health), cfg.pricing)
      {
        OneMoreProvider(ps, health, i);
        if ps[i].enabled && !(ps[i].name in health && !health[ps[i].name].available) {
          best := CompareModels(ps[i], best, Offers(ps[..i], health));
        }
      }
      assert ps[..|ps|] == ps;
      var cost := best.value;
      var o := best.offer;
      if o.provider == "" {
        o := FindEnabled(o);
      }
      d := Decision(o.provider, o.model, CostOptimized, cost, []);
    }

    /** The inner loop of the cost strategy: the models of one provider. */
    method CompareModels(pc: ProviderConfig, best0: Best, ghost earlier: seq<Offer>) returns (best: Best)
      requires best0 == Cheapest(earlier, cfg.pricing)
      ensures best == Cheapest(earlier + OffersOf(pc, |pc.models|), cfg.pricing)
    {
      best := best0;
      assert earlier + OffersOf(pc, 0) == earlier;
      for j := 0 to |pc.models|
        invariant best == Cheapest(earlier + OffersOf(pc, j), cfg.pricing)
      {
        var o := Offer(pc.name, pc.models[j]);
        OneMoreModel(earlier, pc, j);
        OneMoreCheapest(earlier + OffersOf(pc, j), o, cfg.pricing);
        if PriceKey(o) in cfg.pricing {
          var cost := cfg.pricing[PriceKey(o)].inputPer1k + cfg.pricing[PriceKey(o)].outputPer1k;
          if cost < best.value {
            best := Best(o, cost);
          }
        }
      }
    }

    method FindEnabled(none: Offer) returns (o: Offer)
      requires none.provider == ""
      ensures o == Settle(cfg.providers, none)
    {
      o := none;
      var ps := cfg.providers;
      for i := 0 to |ps|
        invariant o == none && FirstEnabled(ps) == FirstEnabled(ps[i..])
      {
        if ps[i].enabled && ps[i].models != [] {
          return Offer(ps[i].name, ps[i].models[0]);
        }
        assert ps[i..][1..] == ps[i + 1..];
      }
    }

    method RouteLatencyOptimized() returns (d: Decision)
      ensures d == ByLatency(cfg, health)
    {
      var best := Best(NO_OFFER, HUGE);
      var ps := cfg.providers;
      for i := 0 to |ps|
        invariant best == Fastest(ps[..i], health)
      {
        var pc := ps[i];
        assert ps[..i + 1][..i] == ps[..i];
        if pc.enabled {
          var latency := if pc.name in health then health[pc.name].avgLatencyMs else 500.0;
          if !(pc.name in health && !health[pc.name].available) {
            if latency < best.value && pc.models != [] {
              best := Best(Offer(pc.name, pc.models[0]), latency);
            }
          }
        }
      }
      assert ps[..|ps|] == ps;
      d := Decision(best.offer.provider, best.offer.model, LatencyOptimized, 0.0, []);
    }

    /** The loop shared by rotation and failover. */
    method ListAvailable() returns (listed: seq<ProviderConfig>)
      ensures listed == Listed(cfg.providers, health)
    {
      listed := [];
      var ps := cfg.providers;
      for i := 0 to |ps|
        invariant listed == Listed(ps[..i], health)
      {
        assert ps[..i + 1][..i] == ps[..i];
        if ps[i].enabled && ps[i].models != [] {
          if ps[i].name !in health || health[ps[i].name].available {
            listed := listed + [ps[i]];
          }
        }
      }
      assert ps[..|ps|] == ps;
    }

    method RouteRoundRobin() returns (d: Decision)
      modifies this`roundRobinIdx
      ensures (d, roundRobinIdx) == ByRotation(cfg, health, old(roundRobinIdx))
    {
      var available := ListAvailable();
      if available == [] {
        return Decision("", "", RoundRobin, 0.0, []);
      }
      var idx := roundRobinIdx % |available|;
      roundRobinIdx := roundRobinIdx + 1;
      var pc := available[idx];
      assert pc in available;
      d := Decision(pc.name, pc.models[0], RoundRobin, 0.0, []);
    }

    method RouteFailover() returns (d: Decision)
      ensures d == ByFailover(cfg, health)
    {
      var listed := ListAvailable();
      var chain := Names(listed);
      if chain == [] {
        return Decision("", "", Failover, 0.0, []);
      }
      var primary := chain[0];
      chain := chain[1..];
      var model := FindModel(primary);
      d := Decision(primary, model, Failover, 0.0, chain);
    }

    method FindModel(name: string) returns (model: string)
      ensures model == FirstModel(cfg.providers, name)
    {
      var ps := cfg.providers;
      for i := 0 to |ps|
        invariant FirstModel(ps, name) == FirstModel(ps[i..], name)
      {
        if ps[i].name == name && ps[i].models != [] {
          return ps[i].models[0];
        }
        assert ps[i..][1..] == ps[i + 1..];
      }
      model := "";
    }

    method RouteSmart() returns (d: Decision)
      requires Valid()
      ensures d == ByScore(cfg, lib, health)
    {
      var candidates := Collect();
      if candidates == [] {
        SortedLength(lib, candidates);
        return Decision("", "", Smart, 0.0, []);
      }
      SortedLength(lib, candidates);
      candidates := lib.sort(candidates);
      var fallbacks := [];
      var i := 1;
      while i < |candidates| && i < 4
        invariant 1 <= i <= Min(4, |candidates|)
        invariant fallbacks == ProvidersOf(candidates[1..i])
      {
        OneMoreName(candidates, i);
        fallbacks := fallbacks + [candidates[i].offer.provider];
        i := i + 1;
      }
      d := Decision(candidates[0].offer.provider, candidates[0].offer.model, Smart, 0.0, fallbacks);
    }

    method Collect() returns (candidates: seq<Candidate>)
      ensures candidates == Candidates(cfg, health, Offers(cfg.providers, health))
    {
      candidates := [];
      var ps := cfg.providers;
      for i := 0 to |ps|
        invariant candidates == Candidates(cfg, health, Offers(ps[..i], health))
      {
        OneMoreProvider(ps, health, i);
        if ps[i].enabled && !(ps[i].name in health && !health[ps[i].name].available) {
          candidates := CollectModels(ps[i], candidates, Offers(ps[..i], health));
        }
      }
      assert ps[..|ps|] == ps;
    }

    /** The inner loop of the smart strategy: one scored candidate per model of a provider. */
    method CollectModels(pc: ProviderConfig, candidates0: seq<Candidate>, ghost earlier: seq<Offer>)
      returns (candidates: seq<Candidate>)
      requires candidates0 == Candidates(cfg, health, earlier)
      ensures candidates == Candidates(cfg, health, earlier + OffersOf(pc, |pc.models|))
    {
      candidates := candidates0;
      assert earlier + OffersOf(pc, 0) == earlier;
      for j := 0 to |pc.models|
        invariant candidates == Candidates(cfg, health, earlier + OffersOf(pc, j))
      {
        var o := Offer(pc.name, pc.models[j]);
        OneMoreModel(earlier, pc, j);
        OneMoreCandidate(cfg, health, earlier + OffersOf(pc, j), o);
        var score := ScoreOffer(o);
        candidates := candidates + [Candidate(o, score)];
      }
    }

    method ScoreOffer(o: Offer) returns (score: real)
      ensures score == Score(cfg, health, o)
    {
      score := ScoreProvider(o.provider);
      if PriceKey(o) in cfg.pricing {
        var cost := cfg.pricing[PriceKey(o)].inputPer1k + cfg.pricing[PriceKey(o)].outputPer1k;
        score := score - cost * 100.0;
      }
    }

    method ScoreProvider(provider: string) returns (score: real)
      ensures score == BaseScore(cfg, health, provider)
    {
      score := 100.0;
      if provider in health {
        var h := health[provider];
        score := score - h.errorRate * 50.0;
        score := score - (if h.avgLatencyMs / 100.0 < 30.0 then h.avgLatencyMs / 100.0 else 30.0);
        if !h.available {
          score := score - 1000.0;
        }
      }
      assert score == HealthScore(health, provider);
      var ps := cfg.providers;
      for i := 0 to |ps|
        invariant score == HealthScore(health, provider)
        invariant WeightOf(ps, provider) == WeightOf(ps[i..], provider)
      {
        if ps[i].name == provider {
          score := score + (ps[i].weight * 10) as real;
          return;
        }
        assert ps[i..][1..] == ps[i + 1..];
      }
    }

    method ReportSuccess(provider: string, latencyMs: real, now: int)
      modifies this`health
      ensures health == Reported(old(health), provider, Ok(latencyMs), now)
    {
      var h := if provider in health then health[provider] else UNSEEN;
      h := h.(name := provider);
      h := h.(available := true);
      h := h.(requests := h.requests + 1);
      h := h.(lastSuccess := now);
      if h.avgLatencyMs == 0.0 {
        h := h.(avgLatencyMs := latencyMs);
      } else {
        h := h.(avgLatencyMs := h.avgLatencyMs * 0.9 + latencyMs * 0.1);
      }
      h := h.(errorRate := h.errorRate * 0.95);
      health := health[provider := h];
    }

    method ReportFailure(provider: string, now: int)
      modifies this`health
      ensures health == Reported(old(health), provider, Fail, now)
    {
      var h := if provider in health then health[provider] else UNSEEN;
      h := h.(name := provider);
      h := h.(errors := h.errors + 1);
      h := h.(lastError := now);
      h := h.(errorRate := if h.errorRate + 0.1 < 1.0 then h.errorRate + 0.1 else 1.0);
      if h.errorRate > 0.5 {
        h := h.(available := false);
      }
      health := health[provider := h];
    }

    method SetStrategy(s: Strategy)
      modifies this`strategy
      ensures strategy == s
    {
      strategy := s;
    }
  }

  lemma OneMoreName(cs: seq<Candidate>, i: nat)
    requires 1 <= i < |cs|
    ensures ProvidersOf(cs[1..i + 1]) == ProvidersOf(cs[1..i]) + [cs[i].offer.provider]
  {
    assert cs[1..i + 1][..i - 1] == cs[1..i];
  }
}
