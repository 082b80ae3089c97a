/** The routing decisions as functions of the configuration and the health table. */
module RouterModel {
  import opened Types
  import opened Health

  datatype Strategy = CostOptimized | LatencyOptimized | RoundRobin | Failover | Smart

  datatype ProviderConfig = ProviderConfig(name: string, weight: int, enabled: bool, models: seq<string>)

  datatype RouterConfig = RouterConfig(
    providers: seq<ProviderConfig>,
    pricing: map<string, Pricing>,
    aliases: map<string, string>)

  datatype Decision = Decision(
    provider: string, model: string, strategy: Strategy, estimatedCost: real, fallbacks: seq<string>)

  datatype Candidate = Candidate(offer: Offer, score: real)

  /** The best offer so far; an empty provider name means none. */
  datatype Best = Best(offer: Offer, value: real)

  datatype State = State(health: map<string, Health>, roundRobinIdx: nat, strategy: Strategy)

  const NO_OFFER := Offer("", "")
  const HUGE: real := 1_000_000_000.0

  // ----- What the runtime library provides ------------------------------------------

  ghost predicate Descending(cs: seq<Candidate>) {
    forall i, j :: 0 <= i < j < |cs| ==> cs[i].score >= cs[j].score
  }

  /** `sort` orders candidates by falling score, ties in any way; `listing` is a map's iteration order. */
  datatype Library = Library(sort: seq<Candidate> -> seq<Candidate>, listing: set<string> -> seq<string>)
  {
    ghost predicate Valid() {
      (forall cs :: Descending(sort(cs)) && multiset(sort(cs)) == multiset(cs))
      && (forall names, x :: x in listing(names) <==> x in names)
      && (forall names :: |listing(names)| == |names|)
    }
  }

  // ----- Offers ----------------------------------------------------------------------

  predicate Usable(health: map<string, Health>, name: string) {
    name !in health || health[name].available
  }

  function OffersOf(pc: ProviderConfig, n: nat): (r: seq<Offer>)
    requires n <= |pc.models|
    ensures |r| == n && forall i :: 0 <= i < n ==> r[i] == Offer(pc.name, pc.models[i])
  {
    if n == 0 then [] else OffersOf(pc, n - 1) + [Offer(pc.name, pc.models[n - 1])]
  }

  predicate Open(pc: ProviderConfig, health: map<string, Health>) {
    pc.enabled && Usable(health, pc.name)
  }

  /** Every provider/model pair of an enabled, available provider, in configuration order. */
  function Offers(ps: seq<ProviderConfig>, health: map<string, Health>): seq<Offer> {
    if ps == [] then []
    else
      var pc := ps[|ps| - 1];
      Offers(ps[..|ps| - 1], health) + (if Open(pc, health) then OffersOf(pc, |pc.models|) else [])
  }

  function Price(pricing: map<string, Pricing>, o: Offer): Option<real> {
    if PriceKey(o) in pricing then
      Some(pricing[PriceKey(o)].inputPer1k + pricing[PriceKey(o)].outputPer1k)
    else None
  }

  // ----- Strategies --------------------------------------------------------------------

  function Cheaper(best: Best, o: Offer, pricing: map<string, Pricing>): Best {
    var p := Price(pricing, o);
    if p.Some? && p.value < best.value then Best(o, p.value) else best
  }

  function Cheapest(offers: seq<Offer>, pricing: map<string, Pricing>): Best {
    if offers == [] then Best(NO_OFFER, HUGE)
    else Cheaper(Cheapest(offers[..|offers| - 1], pricing), offers[|offers| - 1], pricing)
  }

  /** The last resort of the cost strategy, which does not look at health. */
  function FirstEnabled(ps: seq<ProviderConfig>): Option<Offer> {
    if ps == [] then None
    else if ps[0].enabled && ps[0].models != [] then Some(Offer(ps[0].name, ps[0].models[0]))
    else FirstEnabled(ps[1..])
  }

  /** The offer the cost strategy settles on. */
  function Settle(ps: seq<ProviderConfig>, best: Offer): Offer {
    if best.provider != "" then best
    else match FirstEnabled(ps)
      case Some(o) => o
      case None => best
  }

  function ByCost(cfg: RouterConfig, health: map<string, Health>): Decision {
    var best := Cheapest(Offers(cfg.providers, health), cfg.pricing);
    var o := Settle(cfg.providers, best.offer);
    Decision(o.provider, o.model, CostOptimized, best.value, [])
  }

  function Latency(health: map<string, Health>, name: string): real {
    if name in health then health[name].avgLatencyMs else 500.0
  }

  function Faster(best: Best, pc: ProviderConfig, health: map<string, Health>): Best {
    if Open(pc, health) && Latency(health, pc.name) < best.value && pc.models != [] then
      Best(Offer(pc.name, pc.models[0]), Latency(health, pc.name))
    else best
  }

  function Fastest(ps: seq<ProviderConfig>, health: map<string, Health>): Best {
    if ps == [] then Best(NO_OFFER, HUGE)
    else Faster(Fastest(ps[..|ps| - 1], health), ps[|ps| - 1], health)
  }

  function ByLatency(cfg: RouterConfig, health: map<string, Health>): Decision {
    var best := Fastest(cfg.providers, health);
    Decision(best.offer.provider, best.offer.model, LatencyOptimized, 0.0, [])
  }

  predicate Listable(pc: ProviderConfig, health: map<string, Health>) {
    pc.enabled && pc.models != [] && Usable(health, pc.name)
  }

  /** The providers the rotation and the failover chain are built from. */
  function Listed(ps: seq<ProviderConfig>, health: map<string, Health>): (r: seq<ProviderConfig>)
    ensures forall pc :: pc in r <==> pc in ps && Listable(pc, health)
  {
    if ps == [] then []
    else
      var pc := ps[|ps| - 1];
      Listed(ps[..|ps| - 1], health) + (if Listable(pc, health) then [pc] else [])
  }

  function ByRotation(cfg: RouterConfig, health: map<string, Health>, idx: nat): (Decision, nat) {
    var listed := Listed(cfg.providers, health);
    if listed == [] then (Decision("", "", RoundRobin, 0.0, []), idx)
    else
      var pc := listed[idx % |listed|];
      assert pc in listed;
      (Decision(pc.name, pc.models[0], RoundRobin, 0.0, []), idx + 1)
  }

  function Names(ps: seq<ProviderConfig>): (r: seq<string>)
    ensures |r| == |ps| && forall i :: 0 <= i < |ps| ==> r[i] == ps[i].name
  {
    if ps == [] then [] else Names(ps[..|ps| - 1]) + [ps[|ps| - 1].name]
  }

  function FirstModel(ps: seq<ProviderConfig>, name: string): string {
    if ps == [] then ""
    else if ps[0].name == name && ps[0].models != [] then ps[0].models[0]
    else FirstModel(ps[1..], name)
  }

  function ByFailover(cfg: RouterConfig, health: map<string, Health>): Decision {
    var chain := Names(Listed(cfg.providers, health));
    if chain == [] then Decision("", "", Failover, 0.0, [])
    else Decision(chain[0], FirstModel(cfg.providers, chain[0]), Failover, 0.0, chain[1..])
  }

  function WeightOf(ps: seq<ProviderConfig>, name: string): int {
    if ps == [] then 0
    else if ps[0].name == name then ps[0].weight * 10
    else WeightOf(ps[1..], name)
  }

  function HealthScore(health: map<string, Health>, name: string): real {
    if name in health then
      var h := health[name];
      var slow := if h.avgLatencyMs / 100.0 < 30.0 then h.avgLatencyMs / 100.0 else 30.0;
      100.0 - h.errorRate * 50.0 - slow - (if h.available then 0.0 else 1000.0)
    else 100.0
  }

  function BaseScore(cfg: RouterConfig, health: map<string, Health>, name: string): real {
    HealthScore(health, name) + WeightOf(cfg.providers, name) as real
  }

  function Score(cfg: RouterConfig, health: map<string, Health>, o: Offer): real {
    var p := Price(cfg.pricing, o);
    BaseScore(cfg, health, o.provider) - (if p.Some? then p.value * 100.0 else 0.0)
  }

  function Candidates(cfg: RouterConfig, health: map<string, Health>, offers: seq<Offer>): seq<Candidate> {
    if offers == [] then []
    else
      var o := offers[|offers| - 1];
      Candidates(cfg, health, offers[..|offers| - 1]) + [Candidate(o, Score(cfg, health, o))]
  }

  function ProvidersOf(cs: seq<Candidate>): (r: seq<string>)
    ensures |r| == |cs| && forall i :: 0 <= i < |cs| ==> r[i] == cs[i].offer.provider
  {
    if cs == [] then [] else ProvidersOf(cs[..|cs| - 1]) + [cs[|cs| - 1].offer.provider]
  }

  function ByScore(cfg: RouterConfig, lib: Library, health: map<string, Health>): Decision {
    var candidates := lib.sort(Candidates(cfg, health, Offers(cfg.providers, health)));
    if candidates == [] then Decision("", "", Smart, 0.0, [])
    else
      Decision(candidates[0].offer.provider, candidates[0].offer.model, Smart, 0.0,
               ProvidersOf(candidates[1..Min(4, |candidates|)]))
  }

  // ----- Aliases --------------------------------------------------------------------------

  function Resolve(cfg: RouterConfig, model: string): string {
    if model in cfg.aliases then cfg.aliases[model] else model
  }

  /** Position of the first ':', or the length of the text. */
  function Colon(s: string): (i: nat)
    ensures i <= |s| && (forall j :: 0 <= j < i ==> s[j] != ':') && (i < |s| ==> s[i] == ':')
  {
    if s == "" || s[0] == ':' then 0
    else
      assert forall j :: 1 <= j < |s| ==> s[j] == s[1..][j - 1];
      1 + Colon(s[1..])
  }

  predicate Pinned(cfg: RouterConfig, model: string) {
    Colon(Resolve(cfg, model)) < |Resolve(cfg, model)|
  }

  /** The listed names that are available and not the pinned provider itself. */
  function Others(names: seq<string>, health: map<string, Health>, provider: string): seq<string> {
    if names == [] then []
    else
      var name := names[|names| - 1];
      Others(names[..|names| - 1], health, provider)
      + (if name != provider && name in health && health[name].available then [name] else [])
  }

  function Pin(cfg: RouterConfig, lib: Library, s: State, model: string): Decision
    requires Pinned(cfg, model)
  {
    var resolved := Resolve(cfg, model);
    var at := Colon(resolved);
    Decision(resolved[..at], resolved[at + 1..], s.strategy, 0.0,
             Others(lib.listing(s.health.Keys), s.health, resolved[..at]))
  }

  /** The decision for a request, and the rotation index after it. */
  function Route(cfg: RouterConfig, lib: Library, s: State, model: string): (Decision, nat) {
    if Pinned(cfg, model) then (Pin(cfg, lib, s, model), s.roundRobinIdx)
    else match s.strategy
      case CostOptimized => (ByCost(cfg, s.health), s.roundRobinIdx)
      case LatencyOptimized => (ByLatency(cfg, s.health), s.roundRobinIdx)
      case RoundRobin => ByRotation(cfg, s.health, s.roundRobinIdx)
      case Failover => (ByFailover(cfg, s.health), s.roundRobinIdx)
      case Smart => (ByScore(cfg, lib, s.health), s.roundRobinIdx)
  }

  // ----- Reports -----------------------------------------------------------------------------

  function HealthOf(health: map<string, Health>, name: string): Health {
    if name in health then health[name] else UNSEEN
  }

  /** The health table after a report made at `at`. */
  function Reported(health: map<string, Health>, name: string, r: Report, at: int): map<string, Health> {
    health[name := Stamped(After(HealthOf(health, name), r), name, r, at)]
  }

  lemma {:induction false} CandidatesAre(cfg: RouterConfig, health: map<string, Health>, offers: seq<Offer>)
    ensures var r := Candidates(cfg, health, offers);
      |r| == |offers|
      && forall i :: 0 <= i < |r| ==> r[i] == Candidate(offers[i], Score(cfg, health, offers[i]))
  {
    if offers != [] {
      CandidatesAre(cfg, health, offers[..|offers| - 1]);
    }
  }

  lemma SortedLength(lib: Library, cs: seq<Candidate>)
    requires lib.Valid()
    ensures |lib.sort(cs)| == |cs|
  {
    assert |multiset(lib.sort(cs))| == |multiset(cs)|;
  }

  // ----- Loop steps: one more provider, one more model --------------------------------------

  lemma OneMoreModel(earlier: seq<Offer>, pc: ProviderConfig, j: nat)
    requires j < |pc.models|
    ensures earlier + OffersOf(pc, j + 1) == earlier + OffersOf(pc, j) + [Offer(pc.name, pc.models[j])]
  {}

  lemma OneMoreProvider(ps: seq<ProviderConfig>, health: map<string, Health>, i: nat)
    requires i < |ps|
    ensures Offers(ps[..i + 1], health)
         == if Open(ps[i], health) then Offers(ps[..i], health) + OffersOf(ps[i], |ps[i].models|)
            else Offers(ps[..i], health)
    ensures Offers(ps[..i], health) + OffersOf(ps[i], 0) == Offers(ps[..i], health)
  {
    assert ps[..i + 1][..i] == ps[..i];
    assert Offers(ps[..i], health) + [] == Offers(ps[..i], health);
  }

  lemma OneMoreCheapest(offers: seq<Offer>, o: Offer, pricing: map<string, Pricing>)
    ensures Cheapest(offers + [o], pricing) == Cheaper(Cheapest(offers, pricing), o, pricing)
  {
    assert (offers + [o])[..|offers|] == offers;
  }

  lemma OneMoreCandidate(cfg: RouterConfig, health: map<string, Health>, offers: seq<Offer>, o: Offer)
    ensures Candidates(cfg, health, offers + [o])
         == Candidates(cfg, health, offers) + [Candidate(o, Score(cfg, health, o))]
  {
    assert (offers + [o])[..|offers|] == offers;
  }
}
