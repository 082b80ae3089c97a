/** What the routing strategies guarantee: optimality, health, fairness. */
module Routing {
  import opened Types
  import opened Health
  import opened RouterModel
  import opened Seqs

  // ----- The offers ---------------------------------------------------------------------

  lemma {:induction false} OffersAre(ps: seq<ProviderConfig>, health: map<string, Health>, o: Offer)
    ensures o in Offers(ps, health) <==>
      exists pc :: pc in ps && Open(pc, health) && pc.name == o.provider && o.model in pc.models
  {
    if ps != [] {
      var pc, before := ps[|ps| - 1], ps[..|ps| - 1];
      OffersAre(before, health, o);
      var mine := OffersOf(pc, |pc.models|);
      assert ps == before + [pc];
      if o in mine {
        var i :| 0 <= i < |mine| && mine[i] == o;
        assert pc.models[i] == o.model;
      }
      if pc.name == o.provider && o.model in pc.models {
        var i :| 0 <= i < |pc.models| && pc.models[i] == o.model;
        assert mine[i] == o;
      }
    }
  }

  lemma OffersAreUsable(ps: seq<ProviderConfig>, health: map<string, Health>)
    ensures forall o :: o in Offers(ps, health) ==> Usable(health, o.provider)
  {
    forall o | o in Offers(ps, health) ensures Usable(health, o.provider) {
      OffersAre(ps, health, o);
    }
  }

  // ----- Cost --------------------------------------------------------------------------------

  predicate Affordable(pricing: map<string, Pricing>, o: Offer) {
    Price(pricing, o).Some? && Price(pricing, o).value < HUGE
  }

  /** The best is offer i, which is affordable and strictly cheaper than every priced offer before it. */
  ghost predicate TakenAt(offers: seq<Offer>, pricing: map<string, Pricing>, i: nat, best: Best) {
    i < |offers| && Affordable(pricing, offers[i]) && best == Best(offers[i], Price(pricing, offers[i]).value)
    && forall j :: 0 <= j < i && Price(pricing, offers[j]).Some? ==> Price(pricing, offers[j]).value > best.value
  }

  /** The scan ends with the first of the cheapest priced offers, or with none if nothing costs less than 1e9. */
  lemma {:induction false} CheapestIsMinimal(offers: seq<Offer>, pricing: map<string, Pricing>)
    ensures var best := Cheapest(offers, pricing);
      && (forall o :: o in offers && Price(pricing, o).Some? ==> best.value <= Price(pricing, o).value)
      && (if exists o :: o in offers && Affordable(pricing, o)
          then best.offer in offers && exists i: nat :: TakenAt(offers, pricing, i, best)
          else best == Best(NO_OFFER, HUGE))
  {
    if offers != [] {
      var n := |offers| - 1;
      var before, o := offers[..n], offers[n];
      var best := Cheapest(before, pricing);
      CheapestIsMinimal(before, pricing);
      assert offers == before + [o];
      if Affordable(pricing, o) && Price(pricing, o).value < best.value {
        TakenLast(before, pricing, o, best);
      } else if exists p :: p in before && Affordable(pricing, p) {
        var i: nat :| TakenAt(before, pricing, i, best);
        assert TakenAt(offers, pricing, i, best) && offers[i] in offers;
      }
    }
  }

  lemma TakenLast(before: seq<Offer>, pricing: map<string, Pricing>, o: Offer, best: Best)
    requires forall p :: p in before && Price(pricing, p).Some? ==> best.value <= Price(pricing, p).value
    requires Affordable(pricing, o) && Price(pricing, o).value < best.value
    ensures TakenAt(before + [o], pricing, |before|, Best(o, Price(pricing, o).value))
  {
    assert forall j :: 0 <= j < |before| ==> (before + [o])[j] == before[j] && before[j] in before;
  }

  ghost predicate AnyAffordable(cfg: RouterConfig, health: map<string, Health>) {
    exists o :: o in Offers(cfg.providers, health) && Affordable(cfg.pricing, o)
  }

  /** The cost strategy finds no offer of a provider with a name. */
  predicate OnLastResort(cfg: RouterConfig, health: map<string, Health>) {
    Cheapest(Offers(cfg.providers, health), cfg.pricing).offer.provider == ""
  }

  /** That is when nothing open is priced below 1e9, or the first of the cheapest offers is of a provider
      configured with the empty name; with proper names it is the former alone. */
  lemma OnLastResortExactly(cfg: RouterConfig, health: map<string, Health>)
    ensures var offers := Offers(cfg.providers, health);
      OnLastResort(cfg, health) <==>
        !AnyAffordable(cfg, health)
        || exists i: nat :: TakenAt(offers, cfg.pricing, i, Cheapest(offers, cfg.pricing)) && offers[i].provider == ""
    ensures (forall pc :: pc in cfg.providers ==> pc.name != "") ==>
      (OnLastResort(cfg, health) <==> !AnyAffordable(cfg, health))
  {
    var offers := Offers(cfg.providers, health);
    CheapestIsMinimal(offers, cfg.pricing);
    if AnyAffordable(cfg, health) {
      OffersAre(cfg.providers, health, Cheapest(offers, cfg.pricing).offer);
    }
  }

  /** If some open provider has a priced model, the cost strategy reports the lowest price; the offer it
      takes has that price, unless it is of a provider without a name. */
  lemma CostIsMinimal(cfg: RouterConfig, health: map<string, Health>)
    requires AnyAffordable(cfg, health)
    ensures var d, offers := ByCost(cfg, health), Offers(cfg.providers, health);
      var chosen := Offer(d.provider, d.model);
      && (exists o :: o in offers && Price(cfg.pricing, o) == Some(d.estimatedCost))
      && (forall o :: o in offers && Price(cfg.pricing, o).Some? ==> d.estimatedCost <= Price(cfg.pricing, o).value)
      && (!OnLastResort(cfg, health) ==>
            chosen in offers && Usable(health, d.provider) && Price(cfg.pricing, chosen) == Some(d.estimatedCost))
  {
    var offers := Offers(cfg.providers, health);
    var best := Cheapest(offers, cfg.pricing);
    CheapestIsMinimal(offers, cfg.pricing);
    OffersAre(cfg.providers, health, best.offer);
  }

  /** The provider the cost strategy falls back to without looking at its health. */
  function LastResort(cfg: RouterConfig, health: map<string, Health>): Option<string> {
    var first := FirstEnabled(cfg.providers);
    if OnLastResort(cfg, health) && first.Some? then Some(first.value.provider) else None
  }

  /** The cost strategy is down to its last resort, and that provider is unavailable. */
  ghost predicate LastResortIsDown(cfg: RouterConfig, health: map<string, Health>) {
    var last := LastResort(cfg, health);
    last.Some? && last.value != "" && !Usable(health, last.value)
  }

  /** The cost strategy takes an available provider, its last resort, or none. */
  lemma CostChooses(cfg: RouterConfig, health: map<string, Health>)
    ensures var d, last := ByCost(cfg, health), LastResort(cfg, health);
      d.fallbacks == [] &&
      if last.Some? then d.provider == last.value else d.provider == "" || Usable(health, d.provider)
  {
    if AnyAffordable(cfg, health) {
      CostIsMinimal(cfg, health);
    } else {
      CheapestIsMinimal(Offers(cfg.providers, health), cfg.pricing);
    }
  }

  /** The cost strategy names an unavailable provider exactly then: its last resort ignores health. */
  lemma CostIgnoresHealthExactly(cfg: RouterConfig, health: map<string, Health>)
    ensures Healthy(ByCost(cfg, health), health) <==> !LastResortIsDown(cfg, health)
  {
    CostChooses(cfg, health);
  }

  /** With one provider, enabled and with models, the cost strategy always takes it. */
  lemma OnlyProviderIsChosen(cfg: RouterConfig, health: map<string, Health>)
    requires |cfg.providers| == 1 && cfg.providers[0].enabled && cfg.providers[0].models != []
    ensures ByCost(cfg, health).provider == cfg.providers[0].name
  {
    var offers := Offers(cfg.providers, health);
    var best := Cheapest(offers, cfg.pricing);
    CheapestIsMinimal(offers, cfg.pricing);
    if best.offer in offers {
      OffersAre(cfg.providers, health, best.offer);
      assert best.offer.provider == cfg.providers[0].name;
    }
    assert FirstEnabled(cfg.providers) == Some(Offer(cfg.providers[0].name, cfg.providers[0].models[0]));
  }

  // ----- Latency -----------------------------------------------------------------------------

  ghost predicate Quick(pc: ProviderConfig, health: map<string, Health>) {
    Open(pc, health) && pc.models != [] && Latency(health, pc.name) < HUGE
  }

  /** The latency strategy takes a fastest open provider that has a model, or none if there is none. */
  lemma {:induction false} LatencyIsMinimal(ps: seq<ProviderConfig>, health: map<string, Health>)
    ensures var best := Fastest(ps, health);
      && (forall pc :: pc in ps && Quick(pc, health) ==> best.value <= Latency(health, pc.name))
      && (if exists pc :: pc in ps && Quick(pc, health)
          then (exists pc :: pc in ps && Quick(pc, health) && best.offer == Offer(pc.name, pc.models[0])
                  && best.value == Latency(health, pc.name))
          else best == Best(NO_OFFER, HUGE))
  {
    if ps != [] {
      var before, last := ps[..|ps| - 1], ps[|ps| - 1];
      LatencyIsMinimal(before, health);
      assert ps == before + [last] && last in ps;
      if exists pc :: pc in before && Quick(pc, health) {
        var pc :| pc in before && Quick(pc, health) && Fastest(before, health).offer == Offer(pc.name, pc.models[0])
          && Fastest(before, health).value == Latency(health, pc.name);
        assert pc in ps;
      }
    }
  }

  // ----- Score -----------------------------------------------------------------------------------

  lemma Permutes<T>(a: seq<T>, b: seq<T>, x: T)
    requires multiset(a) == multiset(b)
    ensures x in a <==> x in b
  {
    assert x in a <==> x in multiset(a);
    assert x in b <==> x in multiset(b);
  }

  lemma {:induction false} WeightIsOwn(ps: seq<ProviderConfig>, i: nat)
    requires i < |ps| && forall j :: 0 <= j < i ==> ps[j].name != ps[i].name
    ensures WeightOf(ps, ps[i].name) == ps[i].weight * 10
  {
    if i > 0 {
      assert ps[1..][i - 1] == ps[i];
      assert forall j :: 0 <= j < i - 1 ==> ps[1..][j] == ps[j + 1];
      WeightIsOwn(ps[1..], i - 1);
    }
  }

  /** The score of a priced model of an available provider is the one the design document gives. */
  lemma ScoreMatchesDesign(cfg: RouterConfig, health: map<string, Health>, i: nat, model: string)
    requires i < |cfg.providers| && forall j :: 0 <= j < i ==> cfg.providers[j].name != cfg.providers[i].name
    requires var o := Offer(cfg.providers[i].name, model);
      Price(cfg.pricing, o).Some? && o.provider in health && health[o.provider].available
    ensures var pc := cfg.providers[i];
      var h, o := health[pc.name], Offer(pc.name, model);
      var slow := if h.avgLatencyMs / 100.0 <= 30.0 then h.avgLatencyMs / 100.0 else 30.0;
      Score(cfg, health, o) == 100.0 - h.errorRate * 50.0 - slow + pc.weight as real * 10.0
                               - Price(cfg.pricing, o).value * 100.0
  {
    WeightIsOwn(cfg.providers, i);
    assert (cfg.providers[i].weight * 10) as real == cfg.providers[i].weight as real * 10.0;
  }

  /** The kept candidates in order and the ones left out, together all the candidates. */
  ghost predicate Split(all: seq<Candidate>, kept: seq<Candidate>, left: seq<Candidate>) {
    multiset(all) == multiset(kept) + multiset(left)
    && Descending(kept)
    && forall k, l :: k in kept && l in left ==> k.score >= l.score
  }

  /** The smart strategy keeps the best min(4, n) candidates in score order: the first is the decision,
      the rest are the fallbacks, and nothing left out outscores anything kept. */
  lemma SmartKeepsTheBest(cfg: RouterConfig, lib: Library, health: map<string, Health>)
    requires lib.Valid() && Offers(cfg.providers, health) != []
    ensures var all := Candidates(cfg, health, Offers(cfg.providers, health));
      var d := ByScore(cfg, lib, health);
      exists kept: seq<Candidate>, left: seq<Candidate> :: Split(all, kept, left) && |kept| == Min(4, |all|)
        && kept[0].offer == Offer(d.provider, d.model) && d.fallbacks == ProvidersOf(kept[1..])
  {
    var all := Candidates(cfg, health, Offers(cfg.providers, health));
    var sorted := lib.sort(all);
    CandidatesAre(cfg, health, Offers(cfg.providers, health));
    SortedLength(lib, all);
    var n := Min(4, |sorted|);
    SplitAt(all, sorted, n);
    assert sorted[..n][1..] == sorted[1..n];
  }

  lemma SplitAt(all: seq<Candidate>, sorted: seq<Candidate>, n: nat)
    requires Descending(sorted) && multiset(sorted) == multiset(all) && n <= |sorted|
    ensures Split(all, sorted[..n], sorted[n..])
  {
    assert sorted == sorted[..n] + sorted[n..];
  }

  /** The decision is an offer of an open provider with the highest score of all. */
  lemma SmartIsMaximal(cfg: RouterConfig, lib: Library, health: map<string, Health>)
    requires lib.Valid() && Offers(cfg.providers, health) != []
    ensures var d := ByScore(cfg, lib, health);
      var chosen := Offer(d.provider, d.model);
      chosen in Offers(cfg.providers, health)
      && forall o :: o in Offers(cfg.providers, health) ==> Score(cfg, health, o) <= Score(cfg, health, chosen)
  {
    var offers := Offers(cfg.providers, health);
    var all := Candidates(cfg, health, offers);
    var sorted := lib.sort(all);
    CandidatesAre(cfg, health, offers);
    SortedLength(lib, all);
    Permutes(sorted, all, sorted[0]);
    assert sorted[0] in sorted;
    forall o | o in offers ensures Score(cfg, health, o) <= sorted[0].score {
      var i :| 0 <= i < |offers| && offers[i] == o;
      assert all[i] in all;
      Permutes(sorted, all, all[i]);
      var j :| 0 <= j < |sorted| && sorted[j] == all[i];
      assert Descending(sorted);
    }
  }

  lemma CheaperScoresHigher(cfg: RouterConfig, health: map<string, Health>, s: Offer, c: Offer, base: real)
    requires BaseScore(cfg, health, s.provider) == base == BaseScore(cfg, health, c.provider)
    requires Price(cfg.pricing, s).Some? && Price(cfg.pricing, c).Some?
    ensures Score(cfg, health, c) <= Score(cfg, health, s) <==>
      Price(cfg.pricing, s).value <= Price(cfg.pricing, c).value
  {}

  /** An open offer at the price the cost strategy reports. */
  lemma CostIsOffered(cfg: RouterConfig, health: map<string, Health>) returns (c: Offer)
    requires exists o :: o in Offers(cfg.providers, health) && Affordable(cfg.pricing, o)
    ensures var cost := ByCost(cfg, health).estimatedCost;
      c in Offers(cfg.providers, health) && Price(cfg.pricing, c) == Some(cost)
      && forall o :: o in Offers(cfg.providers, health) && Price(cfg.pricing, o).Some?
           ==> cost <= Price(cfg.pricing, o).value
  {
    CostIsMinimal(cfg, health);
    c :| c in Offers(cfg.providers, health) && Price(cfg.pricing, c) == Some(ByCost(cfg, health).estimatedCost);
  }

  /** With equal base scores and every open model priced below 1e9, smart is as cheap as cost. */
  lemma SmartMeetsCost(cfg: RouterConfig, lib: Library, health: map<string, Health>, base: real)
    requires lib.Valid() && Offers(cfg.providers, health) != []
    requires forall o :: o in Offers(cfg.providers, health) ==>
      BaseScore(cfg, health, o.provider) == base && Affordable(cfg.pricing, o)
    ensures var d := ByScore(cfg, lib, health);
      Price(cfg.pricing, Offer(d.provider, d.model)) == Some(ByCost(cfg, health).estimatedCost)
  {
    var offers := Offers(cfg.providers, health);
    var smart, cost := ByScore(cfg, lib, health), ByCost(cfg, health).estimatedCost;
    var s := Offer(smart.provider, smart.model);
    assert offers[0] in offers;
    var c := CostIsOffered(cfg, health);
    assert s in offers && Score(cfg, health, c) <= Score(cfg, health, s) by {
      SmartIsMaximal(cfg, lib, health);
    }
    CheaperScoresHigher(cfg, health, s, c, base);
  }

  // ----- Health ------------------------------------------------------------------------------------

  /** The decision and its chain name only providers that are available (or unknown) right now. */
  ghost predicate Healthy(d: Decision, health: map<string, Health>) {
    (d.provider != "" ==> Usable(health, d.provider)) && forall f :: f in d.fallbacks ==> Usable(health, f)
  }

  lemma SmartIsHealthy(cfg: RouterConfig, lib: Library, health: map<string, Health>)
    requires lib.Valid()
    ensures Healthy(ByScore(cfg, lib, health), health)
  {
    var offers := Offers(cfg.providers, health);
    var all := Candidates(cfg, health, offers);
    var sorted := lib.sort(all);
    OffersAreUsable(cfg.providers, health);
    CandidatesAre(cfg, health, offers);
    forall i | 0 <= i < |sorted| ensures Usable(health, sorted[i].offer.provider) {
      assert sorted[i] in sorted;
      Permutes(sorted, all, sorted[i]);
      var j :| 0 <= j < |all| && all[j] == sorted[i];
      assert offers[j] in offers;
    }
  }

  lemma LatencyIsHealthy(cfg: RouterConfig, health: map<string, Health>)
    ensures Healthy(ByLatency(cfg, health), health)
  {
    LatencyIsMinimal(cfg.providers, health);
  }

  lemma ListedIsHealthy(cfg: RouterConfig, health: map<string, Health>, idx: nat)
    ensures Healthy(ByRotation(cfg, health, idx).0, health)
    ensures Healthy(ByFailover(cfg, health), health)
  {
    var listed := Listed(cfg.providers, health);
    assert forall i :: 0 <= i < |listed| ==> listed[i] in listed;
    var chain := Names(listed);
    assert forall i :: 0 <= i < |chain| ==> Usable(health, chain[i]);
    assert chain != [] ==> forall f :: f in chain[1..] ==> f in chain;
  }

  lemma {:induction false} OthersAre(names: seq<string>, health: map<string, Health>, provider: string, f: string)
    ensures f in Others(names, health, provider) <==>
      f in names && f != provider && f in health && health[f].available
  {
    if names != [] {
      var before, last := names[..|names| - 1], names[|names| - 1];
      OthersAre(before, health, provider, f);
      assert names == before + [last];
    }
  }

  /** A pinned request keeps its provider whatever its health, and falls back exactly on the other
      providers known to be available. */
  lemma PinnedFallbacks(cfg: RouterConfig, lib: Library, s: State, model: string)
    requires lib.Valid() && Pinned(cfg, model)
    ensures var d := Route(cfg, lib, s, model).0;
      && Resolve(cfg, model) == d.provider + ":" + d.model && ':' !in d.provider
      && forall f :: f in d.fallbacks <==> f != d.provider && f in s.health && s.health[f].available
  {
    var d := Route(cfg, lib, s, model).0;
    forall f ensures f in d.fallbacks <==> f != d.provider && f in s.health && s.health[f].available {
      OthersAre(lib.listing(s.health.Keys), s.health, d.provider, f);
    }
  }

  /** The provider a request is sent to without a look at its health: the one its model is pinned to, or
      the last resort of the cost strategy. */
  function ForcedTo(cfg: RouterConfig, s: State, model: string): Option<string> {
    if Pinned(cfg, model) then
      var resolved := Resolve(cfg, model);
      Some(resolved[..Colon(resolved)])
    else if s.strategy == CostOptimized then LastResort(cfg, s.health)
    else None
  }

  /** Unless its provider is forced, a request is routed to available (or unknown) providers only; the
      chain never names any other. */
  lemma RouteIsForcedOrHealthy(cfg: RouterConfig, lib: Library, s: State, model: string)
    requires lib.Valid()
    ensures var d, forced := Route(cfg, lib, s, model).0, ForcedTo(cfg, s, model);
      && (if forced.Some? then d.provider == forced.value else d.provider == "" || Usable(s.health, d.provider))
      && forall f :: f in d.fallbacks ==> Usable(s.health, f)
  {
    if Pinned(cfg, model) {
      PinnedFallbacks(cfg, lib, s, model);
    } else {
      match s.strategy
      case CostOptimized => CostChooses(cfg, s.health);
      case LatencyOptimized => LatencyIsHealthy(cfg, s.health);
      case RoundRobin => ListedIsHealthy(cfg, s.health, s.roundRobinIdx);
      case Failover => ListedIsHealthy(cfg, s.health, 0);
      case Smart => SmartIsHealthy(cfg, lib, s.health);
    }
  }

  /** A request, pinned or not, is routed to available providers only, chain included, exactly when the
      provider it is forced to, if any, is available. */
  lemma RouteIsHealthyExactly(cfg: RouterConfig, lib: Library, s: State, model: string)
    requires lib.Valid()
    ensures var forced := ForcedTo(cfg, s, model);
      Healthy(Route(cfg, lib, s, model).0, s.health) <==>
        forced.None? || forced.value == "" || Usable(s.health, forced.value)
  {
    RouteIsForcedOrHealthy(cfg, lib, s, model);
  }

  /** An unavailable provider is the one decided on exactly when the request is forced to it, and is never
      in the chain. */
  lemma UnavailableIsForced(cfg: RouterConfig, lib: Library, s: State, model: string, name: string)
    requires lib.Valid() && name != "" && !Usable(s.health, name)
    ensures var d := Route(cfg, lib, s, model).0;
      (d.provider == name <==> ForcedTo(cfg, s, model) == Some(name)) && name !in d.fallbacks
  {
    RouteIsForcedOrHealthy(cfg, lib, s, model);
  }

  /** Only failover and smart build a chain for an unpinned request, and only from two candidates on. */
  lemma ChainExactly(cfg: RouterConfig, lib: Library, s: State, model: string)
    requires lib.Valid() && !Pinned(cfg, model)
    ensures Route(cfg, lib, s, model).0.fallbacks != [] <==>
      (s.strategy == Failover && |Listed(cfg.providers, s.health)| >= 2)
      || (s.strategy == Smart && |Offers(cfg.providers, s.health)| >= 2)
  {
    match s.strategy
    case Smart =>
      var offers := Offers(cfg.providers, s.health);
      CandidatesAre(cfg, s.health, offers);
      SortedLength(lib, Candidates(cfg, s.health, offers));
    case _ =>
  }

  /** A pinned request has a chain exactly when another provider is known to be available. */
  lemma PinnedChainExactly(cfg: RouterConfig, lib: Library, s: State, model: string)
    requires lib.Valid() && Pinned(cfg, model)
    ensures var d := Route(cfg, lib, s, model).0;
      d.fallbacks != [] <==> exists f :: f in s.health && s.health[f].available && f != d.provider
  {
    var d := Route(cfg, lib, s, model).0;
    PinnedFallbacks(cfg, lib, s, model);
    if d.fallbacks != [] {
      SomeMember(d.fallbacks);
    }
  }

  lemma {:induction false} ListedInOrder(ps: seq<ProviderConfig>, health: map<string, Health>)
    ensures Subseq(Listed(ps, health), ps)
  {
    if ps != [] {
      var before, pc := ps[..|ps| - 1], ps[|ps| - 1];
      ListedInOrder(before, health);
      SubseqAppend(Listed(before, health), before, pc);
      assert before + [pc] == ps && Listed(before, health) + [] == Listed(before, health);
    }
  }

  /** Entry i is the first one of that name with models. */
  predicate FirstWithModels(ps: seq<ProviderConfig>, name: string, i: nat) {
    i < |ps| && ps[i].name == name && ps[i].models != []
    && forall j :: 0 <= j < i && ps[j].name == name ==> ps[j].models == []
  }

  lemma {:induction false} FirstModelIs(ps: seq<ProviderConfig>, name: string) returns (i: nat)
    requires exists pc :: pc in ps && pc.name == name && pc.models != []
    ensures FirstWithModels(ps, name, i) && FirstModel(ps, name) == ps[i].models[0]
  {
    if ps[0].name == name && ps[0].models != [] {
      i := 0;
    } else {
      var k := FirstModelIs(ps[1..], name);
      i := k + 1;
      assert forall j :: 1 <= j < i ==> ps[j] == ps[1..][j - 1];
    }
  }

  /** Failover walks the enabled, available providers with models in configuration order: the first is the
      decision, the others are the chain. The model is the first one of the first configuration entry of
      that name with models, which for a name used once is the decision's own entry. */
  lemma FailoverFollowsConfig(cfg: RouterConfig, health: map<string, Health>)
    ensures var d, listed := ByFailover(cfg, health), Listed(cfg.providers, health);
      && Subseq(listed, cfg.providers)
      && (forall pc :: pc in listed <==> pc in cfg.providers && Listable(pc, health))
      && (listed == [] ==> d.provider == "" && d.model == "" && d.fallbacks == [])
      && (listed != [] ==> [d.provider] + d.fallbacks == Names(listed))
      && (listed != [] ==> exists i: nat ::
            FirstWithModels(cfg.providers, d.provider, i) && d.model == cfg.providers[i].models[0])
  {
    var listed := Listed(cfg.providers, health);
    ListedInOrder(cfg.providers, health);
    var chain := Names(listed);
    if chain != [] {
      assert [chain[0]] + chain[1..] == chain;
      assert listed[0] in listed;
      var i := FirstModelIs(cfg.providers, chain[0]);
    }
  }

  // ----- Rotation --------------------------------------------------------------------------------------

  /** What happens to a router between two looks at it. */
  datatype Event = Routed(model: string) | Reports(provider: string, report: Report, at: int)

  function Step(cfg: RouterConfig, lib: Library, s: State, e: Event): State {
    match e
    case Routed(model) => s.(roundRobinIdx := Route(cfg, lib, s, model).1)
    case Reports(provider, report, at) => s.(health := Reported(s.health, provider, report, at))
  }

  function Run(cfg: RouterConfig, lib: Library, s: State, es: seq<Event>): State {
    if es == [] then s else Step(cfg, lib, Run(cfg, lib, s, es[..|es| - 1]), es[|es| - 1])
  }

  /** When the latest report of this kind on a provider was made, 0 if there was none. */
  function LatestAt(es: seq<Event>, name: string, ok: bool): int {
    if es == [] then 0
    else
      var e := es[|es| - 1];
      if e.Reports? && e.provider == name && e.report.Ok? == ok then e.at
      else LatestAt(es[..|es| - 1], name, ok)
  }

  predicate ReportedOn(es: seq<Event>, name: string) {
    exists i :: 0 <= i < |es| && es[i].Reports? && es[i].provider == name
  }

  /** The table has an entry for exactly the providers reported on, each under its own name and with the times
      of its latest success and error. */
  lemma {:induction false} StampsAre(cfg: RouterConfig, lib: Library, s: State, es: seq<Event>, name: string)
    requires s.health == map[]
    ensures var health := Run(cfg, lib, s, es).health;
      (name in health <==> ReportedOn(es, name))
      && (name in health ==>
            health[name].name == name && health[name].lastSuccess == LatestAt(es, name, true)
            && health[name].lastError == LatestAt(es, name, false))
      && (name !in health ==> LatestAt(es, name, true) == 0 == LatestAt(es, name, false))
  {
    if es != [] {
      var before, e := es[..|es| - 1], es[|es| - 1];
      StampsAre(cfg, lib, s, before, name);
      assert ReportedOn(before, name) ==> ReportedOn(es, name) by {
        if ReportedOn(before, name) {
          var i :| 0 <= i < |before| && before[i].Reports? && before[i].provider == name;
          assert es[i] == before[i];
        }
      }
      if ReportedOn(es, name) && !(e.Reports? && e.provider == name) {
        var i :| 0 <= i < |es| && es[i].Reports? && es[i].provider == name;
        assert before[i] == es[i];
      }
    }
  }

  predicate Rotates(cfg: RouterConfig, e: Event) {
    e.Routed? && !Pinned(cfg, e.model)
  }

  /** How often a run routed to position p of the provider list. */
  function Picks(cfg: RouterConfig, lib: Library, s: State, es: seq<Event>, p: nat): nat {
    if es == [] then 0
    else
      var before, e := es[..|es| - 1], es[|es| - 1];
      var t := Run(cfg, lib, s, before);
      var n := |Listed(cfg.providers, t.health)|;
      Picks(cfg, lib, s, before, p)
      + (if Rotates(cfg, e) && n > 0 && t.roundRobinIdx % n == p then 1 else 0)
  }

  /** How many requests of a run were routed by rotation. */
  function Rotations(cfg: RouterConfig, es: seq<Event>): nat {
    if es == [] then 0
    else Rotations(cfg, es[..|es| - 1]) + (if Rotates(cfg, es[|es| - 1]) then 1 else 0)
  }

  /** The list of available providers is `listed` at every step of the run. */
  ghost predicate Steady(cfg: RouterConfig, lib: Library, s: State, es: seq<Event>, listed: seq<ProviderConfig>) {
    Listed(cfg.providers, Run(cfg, lib, s, es).health) == listed
    && (es == [] || Steady(cfg, lib, s, es[..|es| - 1], listed))
  }

  /** The numbers below x that leave remainder p. */
  function Below(x: nat, n: nat, p: nat): int
    requires p < n
  {
    (x + (n - 1 - p)) / n
  }

  lemma BelowAt(q: nat, r: nat, n: nat, p: nat)
    requires p < n && r < n
    ensures Below(n * q + r, n, p) == if r > p then q + 1 else q
  {
    assert n * (q + 1) == n * q + n;
    DivIs(n * q + r + (n - 1 - p), n, if r > p then q + 1 else q);
  }

  lemma BelowStep(x: nat, n: nat, p: nat)
    requires p < n
    ensures Below(x + 1, n, p) == Below(x, n, p) + (if x % n == p then 1 else 0)
  {
    var q, r := x / n, x % n;
    assert x == n * q + r;
    BelowAt(q, r, n, p);
    if r + 1 < n {
      BelowAt(q, r + 1, n, p);
    } else {
      assert n * (q + 1) == n * q + n;
      BelowAt(q + 1, 0, n, p);
    }
  }

  lemma AtLeastOnce(n: int, x: int)
    requires n > 0
    ensures x >= 1 ==> n * x >= n
    ensures x <= -1 ==> n * x <= -n
  {
    if x >= 1 {
      assert n * x == n + n * (x - 1);
    } else if x <= -1 {
      assert n * x == -n + n * (x + 1);
    }
  }

  lemma DivIs(a: int, n: int, q: int)
    requires n > 0 && n * q <= a < n * q + n
    ensures a / n == q
  {
    var k := a / n;
    assert a == n * k + a % n;
    assert n * (k - q) == n * k - n * q;
    AtLeastOnce(n, k - q);
  }

  /** Each rotation advances the index by one, and position p is picked when the index points at it. */
  lemma {:induction false} RunPicks(cfg: RouterConfig, lib: Library, s: State, es: seq<Event>,
                                    listed: seq<ProviderConfig>, p: nat)
    requires s.strategy == RoundRobin && p < |listed| && Steady(cfg, lib, s, es, listed)
    ensures var t := Run(cfg, lib, s, es);
      && t.strategy == RoundRobin && t.roundRobinIdx == s.roundRobinIdx + Rotations(cfg, es)
      && Picks(cfg, lib, s, es, p) == Below(t.roundRobinIdx, |listed|, p) - Below(s.roundRobinIdx, |listed|, p)
  {
    if es != [] {
      var before := es[..|es| - 1];
      RunPicks(cfg, lib, s, before, listed, p);
      BelowStep(Run(cfg, lib, s, before).roundRobinIdx, |listed|, p);
    }
  }

  lemma DivSum(a: nat, m: nat, n: nat)
    requires n > 0
    ensures (a + m) / n == a / n + m / n + (if a % n + m % n < n then 0 else 1)
  {
    var q, k := a / n, m / n;
    var r, l := a % n, m % n;
    assert a == n * q + r && m == n * k + l;
    assert n * (q + k) == n * q + n * k;
    assert n * (q + k + 1) == n * (q + k) + n;
    DivIs(a + m, n, if r + l < n then q + k else q + k + 1);
  }

  lemma DivSpread(a: nat, m: nat, n: nat)
    requires n > 0
    ensures m / n <= (a + m) / n - a / n <= (m + n - 1) / n
  {
    DivSum(a, m, n);
    DivSum(m, n - 1, n);
    DivIs(n - 1, n, 0);
  }

  lemma BelowSpread(x: nat, m: nat, n: nat, p: nat)
    requires p < n
    ensures m / n <= Below(x + m, n, p) - Below(x, n, p) <= (m + n - 1) / n
  {
    var a := x + (n - 1 - p);
    assert x + m + (n - 1 - p) == a + m;
    DivSpread(a, m, n);
  }

  /** While the list of available providers does not change, m rotations pick each of its n positions
      floor(m/n) or ceil(m/n) times, whatever pinned requests and reports come in between. */
  lemma RotationIsFair(cfg: RouterConfig, lib: Library, s: State, es: seq<Event>,
                       listed: seq<ProviderConfig>, p: nat)
    requires s.strategy == RoundRobin && p < |listed| && Steady(cfg, lib, s, es, listed)
    ensures var m, n := Rotations(cfg, es), |listed|;
      m / n <= Picks(cfg, lib, s, es, p) <= (m + n - 1) / n
  {
    RunPicks(cfg, lib, s, es, listed, p);
    BelowSpread(s.roundRobinIdx, Rotations(cfg, es), |listed|, p);
  }

  /** Routing by rotation at an index that points at position p does choose the provider listed there. */
  lemma RotationChooses(cfg: RouterConfig, lib: Library, s: State, model: string)
    requires s.strategy == RoundRobin && !Pinned(cfg, model) && Listed(cfg.providers, s.health) != []
    ensures var listed, d := Listed(cfg.providers, s.health), Route(cfg, lib, s, model).0;
      var pc := listed[s.roundRobinIdx % |listed|];
      pc.models != [] && d.provider == pc.name && d.model == pc.models[0] && d.fallbacks == []
  {
    var listed := Listed(cfg.providers, s.health);
    assert listed[s.roundRobinIdx % |listed|] in listed;
  }
}
