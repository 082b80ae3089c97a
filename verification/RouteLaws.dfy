/** What `Route` decides, strategy by strategy, in terms of the configuration and the health table alone. */
module RouteLaws {
  import opened Types
  import opened Health
  import opened RouterModel
  import opened Routing

  // ----- Aliases and pinned requests --------------------------------------------------------

  /** The configured target of an alias; any other model stands for itself. */
  function Target(cfg: RouterConfig, model: string): string {
    if model in cfg.aliases then cfg.aliases[model] else model
  }

  lemma PinnedIs(cfg: RouterConfig, model: string)
    ensures Pinned(cfg, model) <==> ':' in Target(cfg, model)
  {
    var target := Target(cfg, model);
    assert Resolve(cfg, model) == target;
    if ':' in target {
      var i: nat :| i < |target| && target[i] == ':';
    }
  }

  ghost predicate NoRepeats(names: seq<string>) {
    forall i, j :: 0 <= i < j < |names| ==> names[i] != names[j]
  }

  /** A sequence as long as the set of its members has no repetition. */
  lemma {:induction false} NoRepeatsBySize(names: seq<string>, members: set<string>)
    requires (forall x :: x in names <==> x in members) && |names| == |members|
    ensures NoRepeats(names)
  {
    if names != [] {
      var n := |names| - 1;
      var before, last := names[..n], names[n];
      assert names == before + [last];
      if last in before {
        assert forall x :: x in before <==> x in members;
        SizeAtMost(before, members);
      } else {
        assert forall x :: x in before <==> x in members - {last};
        NoRepeatsBySize(before, members - {last});
      }
    }
  }

  lemma {:induction false} SizeAtMost(names: seq<string>, members: set<string>)
    requires forall x :: x in members ==> x in names
    ensures |members| <= |names|
  {
    if names == [] {
      assert members == {};
    } else {
      var n := |names| - 1;
      assert names == names[..n] + [names[n]];
      SizeAtMost(names[..n], members - {names[n]});
    }
  }

  lemma {:induction false} OthersNoRepeats(names: seq<string>, health: map<string, Health>, provider: string)
    requires NoRepeats(names)
    ensures NoRepeats(Others(names, health, provider))
  {
    if names != [] {
      var n := |names| - 1;
      OthersNoRepeats(names[..n], health, provider);
      OthersAre(names[..n], health, provider, names[n]);
      assert names[n] !in names[..n];
    }
  }

  /** A request is pinned exactly when its model, aliases resolved, has a colon. Then the text before the
      first colon is its provider and the rest its model, and its chain lists the other providers known to
      be available, each once. */
  lemma PinnedRoutes(cfg: RouterConfig, lib: Library, s: State, model: string)
    requires lib.Valid() && ':' in Target(cfg, model)
    ensures var (d, idx) := Route(cfg, lib, s, model);
      && Target(cfg, model) == d.provider + ":" + d.model && ':' !in d.provider
      && d.strategy == s.strategy && d.estimatedCost == 0.0 && idx == s.roundRobinIdx
      && NoRepeats(d.fallbacks)
      && forall f :: f in d.fallbacks <==> f != d.provider && f in s.health && s.health[f].available
  {
    PinnedIs(cfg, model);
    PinnedFallbacks(cfg, lib, s, model);
    var names := lib.listing(s.health.Keys);
    NoRepeatsBySize(names, s.health.Keys);
    OthersNoRepeats(names, s.health, Route(cfg, lib, s, model).0.provider);
  }

  /** The decision names the strategy in force. */
  lemma RouteKeepsStrategy(cfg: RouterConfig, lib: Library, s: State, model: string)
    ensures Route(cfg, lib, s, model).0.strategy == s.strategy
  {}

  // ----- Entries that qualify ------------------------------------------------------------------

  /** Not known to be unavailable. */
  predicate Up(health: map<string, Health>, name: string) {
    name in health ==> health[name].available
  }

  /** Enabled, with models, and not known to be unavailable. */
  predicate Qualifies(pc: ProviderConfig, health: map<string, Health>) {
    pc.enabled && pc.models != [] && Up(health, pc.name)
  }

  /** A provider never called counts as 500 ms. */
  function AverageMs(health: map<string, Health>, name: string): real {
    if name in health then health[name].avgLatencyMs else 500.0
  }

  // ----- Latency -------------------------------------------------------------------------------

  /** Entry i is below 1e9 ms, no qualifying entry is faster, and none before it is as fast. */
  ghost predicate FastestAt(ps: seq<ProviderConfig>, health: map<string, Health>, i: nat) {
    i < |ps| && Qualifies(ps[i], health) && AverageMs(health, ps[i].name) < 1_000_000_000.0
    && forall j :: 0 <= j < |ps| && Qualifies(ps[j], health) ==>
         AverageMs(health, ps[i].name) <= AverageMs(health, ps[j].name)
         && (j < i ==> AverageMs(health, ps[i].name) < AverageMs(health, ps[j].name))
  }

  ghost predicate NoneQuick(ps: seq<ProviderConfig>, health: map<string, Health>) {
    forall j :: 0 <= j < |ps| && Qualifies(ps[j], health) ==> AverageMs(health, ps[j].name) >= 1_000_000_000.0
  }

  lemma {:induction false} FastestIs(ps: seq<ProviderConfig>, health: map<string, Health>) returns (i: nat)
    ensures i <= |ps|
    ensures if i < |ps| then FastestAt(ps, health, i)
              && Fastest(ps, health) == Best(Offer(ps[i].name, ps[i].models[0]), AverageMs(health, ps[i].name))
            else NoneQuick(ps, health) && Fastest(ps, health) == Best(NO_OFFER, HUGE)
  {
    if ps == [] {
      i := 0;
    } else {
      var n := |ps| - 1;
      var before := ps[..n];
      i := FastestIs(before, health);
      assert forall j :: 0 <= j < n ==> before[j] == ps[j];
      var found := i < n;
      if !found || (Qualifies(ps[n], health) && AverageMs(health, ps[n].name) < AverageMs(health, ps[i].name)) {
        i := n;
      }
      if !found && !(Qualifies(ps[n], health) && AverageMs(health, ps[n].name) < HUGE) {
        i := n + 1;
      }
    }
  }

  /** Under the latency strategy an unpinned request goes to the first of the fastest qualifying providers,
      with its first model, or to none exactly when none is below 1e9 ms. */
  lemma LatencyRoutes(cfg: RouterConfig, lib: Library, s: State, model: string) returns (i: nat)
    requires s.strategy == LatencyOptimized && ':' !in Target(cfg, model)
    ensures var (d, idx) := Route(cfg, lib, s, model);
      && i <= |cfg.providers| && d.fallbacks == [] && d.estimatedCost == 0.0 && idx == s.roundRobinIdx
      && if i < |cfg.providers| then FastestAt(cfg.providers, s.health, i)
           && d.provider == cfg.providers[i].name && d.model == cfg.providers[i].models[0]
         else NoneQuick(cfg.providers, s.health) && d.provider == "" && d.model == ""
  {
    PinnedIs(cfg, model);
    i := FastestIs(cfg.providers, s.health);
  }

  // ----- Cost --------------------------------------------------------------------------------------

  /** Model j of entry i, enabled and not known to be unavailable. */
  predicate PairAt(ps: seq<ProviderConfig>, health: map<string, Health>, i: nat, j: nat) {
    i < |ps| && j < |ps[i].models| && Qualifies(ps[i], health)
  }

  /** The sum of the two prices of a model, if it has any. */
  function CostOf(pricing: map<string, Pricing>, provider: string, model: string): Option<real> {
    var key := provider + ":" + model;
    if key in pricing then Some(pricing[key].inputPer1k + pricing[key].outputPer1k) else None
  }

  predicate PricedAt(cfg: RouterConfig, health: map<string, Health>, i: nat, j: nat, cost: real) {
    PairAt(cfg.providers, health, i, j)
    && CostOf(cfg.pricing, cfg.providers[i].name, cfg.providers[i].models[j]) == Some(cost)
  }

  /** The pair comes earlier in the configuration. */
  predicate Earlier(i: nat, j: nat, i': nat, j': nat) {
    i < i' || (i == i' && j < j')
  }

  /** Model j of entry i costs this, less than 1e9, nothing open costs less, and nothing before it as little. */
  ghost predicate CheapestAt(cfg: RouterConfig, health: map<string, Health>, n: nat, k: nat,
                             i: nat, j: nat, cost: real) {
    PricedAt(cfg, health, i, j, cost) && Earlier(i, j, n, k) && cost < 1_000_000_000.0
    && forall i': nat, j': nat, c: real :: PricedAt(cfg, health, i', j', c) && Earlier(i', j', n, k) ==>
         cost <= c && (Earlier(i', j', i, j) ==> cost < c)
  }

  ghost predicate NoneCheap(cfg: RouterConfig, health: map<string, Health>, n: nat, k: nat) {
    forall i': nat, j': nat, c: real :: PricedAt(cfg, health, i', j', c) && Earlier(i', j', n, k) ==>
      c >= 1_000_000_000.0
  }

  /** What the scan has seen: the first n entries, and k models of the next. */
  function Seen(ps: seq<ProviderConfig>, health: map<string, Health>, n: nat, k: nat): seq<Offer>
    requires n <= |ps| && (k > 0 ==> n < |ps| && k <= |ps[n].models|)
  {
    Offers(ps[..n], health) + (if k == 0 then [] else OffersOf(ps[n], k))
  }

  ghost predicate ScanFinds(cfg: RouterConfig, health: map<string, Health>, n: nat, k: nat,
                            best: Best, at: Option<(nat, nat)>) {
    match at
    case Some((i, j)) =>
      CheapestAt(cfg, health, n, k, i, j, best.value)
      && best.offer == Offer(cfg.providers[i].name, cfg.providers[i].models[j])
    case None => NoneCheap(cfg, health, n, k) && best == Best(NO_OFFER, HUGE)
  }

  lemma ScanMore(cfg: RouterConfig, health: map<string, Health>, n: nat, k: nat,
                 best: Best, at: Option<(nat, nat)>) returns (at': Option<(nat, nat)>)
    requires PairAt(cfg.providers, health, n, k) && ScanFinds(cfg, health, n, k, best, at)
    ensures var o := Offer(cfg.providers[n].name, cfg.providers[n].models[k]);
      ScanFinds(cfg, health, n, k + 1, Cheaper(best, o, cfg.pricing), at')
  {
    var o := Offer(cfg.providers[n].name, cfg.providers[n].models[k]);
    var p := CostOf(cfg.pricing, o.provider, o.model);
    assert p == Price(cfg.pricing, o);
    at' := if p.Some? && p.value < best.value then Some((n, k)) else at;
    forall i: nat, j: nat, c: real | PricedAt(cfg, health, i, j, c) && Earlier(i, j, n, k + 1)
      ensures Earlier(i, j, n, k) || (i == n && j == k && p == Some(c))
    {
    }
  }

  /** The models of entry n there are to scan. */
  function ToScan(ps: seq<ProviderConfig>, health: map<string, Health>, n: nat): nat
    requires n < |ps|
  {
    if Qualifies(ps[n], health) then |ps[n].models| else 0
  }

  lemma ScanNext(cfg: RouterConfig, health: map<string, Health>, n: nat, best: Best, at: Option<(nat, nat)>)
    requires n < |cfg.providers| && ScanFinds(cfg, health, n, ToScan(cfg.providers, health, n), best, at)
    ensures ScanFinds(cfg, health, n + 1, 0, best, at)
  {
    var m := ToScan(cfg.providers, health, n);
    assert forall i: nat, j: nat, c: real :: PricedAt(cfg, health, i, j, c) ==>
      (Earlier(i, j, n + 1, 0) <==> Earlier(i, j, n, m));
  }

  lemma SeenNext(ps: seq<ProviderConfig>, health: map<string, Health>, n: nat)
    requires n < |ps|
    ensures Seen(ps, health, n + 1, 0) == Seen(ps, health, n, ToScan(ps, health, n))
  {
    OneMoreProvider(ps, health, n);
    assert Offers(ps[..n + 1], health) + [] == Offers(ps[..n + 1], health);
  }

  lemma SeenMore(ps: seq<ProviderConfig>, health: map<string, Health>, n: nat, k: nat)
    requires n < |ps| && k < |ps[n].models|
    ensures Seen(ps, health, n, k + 1) == Seen(ps, health, n, k) + [Offer(ps[n].name, ps[n].models[k])]
  {}

  lemma {:induction false} ScanIs(cfg: RouterConfig, health: map<string, Health>, n: nat, k: nat)
    returns (at: Option<(nat, nat)>)
    requires n <= |cfg.providers| && (k > 0 ==> PairAt(cfg.providers, health, n, k - 1))
    ensures ScanFinds(cfg, health, n, k, Cheapest(Seen(cfg.providers, health, n, k), cfg.pricing), at)
    decreases n, k
  {
    var ps := cfg.providers;
    if k > 0 {
      var before, o := Seen(ps, health, n, k - 1), Offer(ps[n].name, ps[n].models[k - 1]);
      var found := ScanIs(cfg, health, n, k - 1);
      SeenMore(ps, health, n, k - 1);
      OneMoreCheapest(before, o, cfg.pricing);
      at := ScanMore(cfg, health, n, k - 1, Cheapest(before, cfg.pricing), found);
    } else if n > 0 {
      var m := ToScan(ps, health, n - 1);
      at := ScanIs(cfg, health, n - 1, m);
      SeenNext(ps, health, n - 1);
      ScanNext(cfg, health, n - 1, Cheapest(Seen(ps, health, n - 1, m), cfg.pricing), at);
    } else {
      assert Seen(ps, health, 0, 0) == [];
      at := None;
    }
  }

  /** Entry i is the first that is enabled and has models. */
  predicate FirstUsable(ps: seq<ProviderConfig>, i: nat) {
    i < |ps| && ps[i].enabled && ps[i].models != []
    && forall j :: 0 <= j < i ==> !ps[j].enabled || ps[j].models == []
  }

  lemma {:induction false} FirstEnabledIs(ps: seq<ProviderConfig>) returns (i: nat)
    ensures i <= |ps|
    ensures if i < |ps| then FirstUsable(ps, i) && FirstEnabled(ps) == Some(Offer(ps[i].name, ps[i].models[0]))
            else (forall j :: 0 <= j < |ps| ==> !ps[j].enabled || ps[j].models == []) && FirstEnabled(ps) == None
  {
    if ps == [] || (ps[0].enabled && ps[0].models != []) {
      i := 0;
    } else {
      var k := FirstEnabledIs(ps[1..]);
      i := k + 1;
      assert forall j :: 1 <= j < |ps| ==> ps[j] == ps[1..][j - 1];
    }
  }

  /** Under the cost strategy an unpinned request goes to the first of the cheapest open pairs at its price;
      if nothing open costs less than 1e9, or that pair's provider has no name, to the first enabled entry
      with models, whatever its health. */
  lemma CostRoutes(cfg: RouterConfig, lib: Library, s: State, model: string)
    returns (at: Option<(nat, nat)>, last: nat)
    requires s.strategy == CostOptimized && ':' !in Target(cfg, model)
    ensures var (d, idx) := Route(cfg, lib, s, model);
      var ps := cfg.providers;
      && d.fallbacks == [] && idx == s.roundRobinIdx && last <= |ps|
      && (if at.Some? then CheapestAt(cfg, s.health, |ps|, 0, at.value.0, at.value.1, d.estimatedCost)
          else NoneCheap(cfg, s.health, |ps|, 0) && d.estimatedCost == 1_000_000_000.0)
      && if at.Some? && ps[at.value.0].name != "" then
           d.provider == ps[at.value.0].name && d.model == ps[at.value.0].models[at.value.1]
         else if last < |ps| then FirstUsable(ps, last) && d.provider == ps[last].name && d.model == ps[last].models[0]
         else (forall j :: 0 <= j < |ps| ==> !ps[j].enabled || ps[j].models == []) && d.provider == ""
  {
    PinnedIs(cfg, model);
    at := ScanIs(cfg, s.health, |cfg.providers|, 0);
    last := FirstEnabledIs(cfg.providers);
    assert cfg.providers[..|cfg.providers|] == cfg.providers;
    assert Seen(cfg.providers, s.health, |cfg.providers|, 0) == Offers(cfg.providers, s.health);
  }

  // ----- The order of the offers ----------------------------------------------------------------------

  /** How many pairs these entries offer. */
  function PairCount(ps: seq<ProviderConfig>, health: map<string, Health>): nat {
    if ps == [] then 0
    else PairCount(ps[..|ps| - 1], health) + ToScan(ps, health, |ps| - 1)
  }

  /** Where the pair stands among the offers. */
  ghost predicate StandsAt(ps: seq<ProviderConfig>, offers: seq<Offer>, i: nat, j: nat, k: nat) {
    i < |ps| && j < |ps[i].models| && k < |offers| && offers[k] == Offer(ps[i].name, ps[i].models[j])
  }

  lemma {:induction false} OffersCounted(ps: seq<ProviderConfig>, health: map<string, Health>)
    ensures |Offers(ps, health)| == PairCount(ps, health)
  {
    if ps != [] {
      OffersCounted(ps[..|ps| - 1], health);
    }
  }

  lemma {:induction false} OfferStands(ps: seq<ProviderConfig>, health: map<string, Health>, i: nat, j: nat)
    requires PairAt(ps, health, i, j)
    ensures StandsAt(ps, Offers(ps, health), i, j, PairCount(ps[..i], health) + j)
  {
    var n := |ps| - 1;
    OffersCounted(ps[..n], health);
    if i < n {
      OfferStands(ps[..n], health, i, j);
      assert ps[..n][..i] == ps[..i];
    }
  }

  /** The pairs considered are each open pair once, in configuration order: model j of entry i stands j places
      behind all those of the entries before it, and there are no others. */
  lemma OffersInOrder(ps: seq<ProviderConfig>, health: map<string, Health>)
    ensures |Offers(ps, health)| == PairCount(ps, health)
    ensures forall i: nat, j: nat :: PairAt(ps, health, i, j) ==>
      StandsAt(ps, Offers(ps, health), i, j, PairCount(ps[..i], health) + j)
  {
    OffersCounted(ps, health);
    forall i: nat, j: nat | PairAt(ps, health, i, j)
      ensures StandsAt(ps, Offers(ps, health), i, j, PairCount(ps[..i], health) + j)
    {
      OfferStands(ps, health, i, j);
    }
  }

  // ----- Failover and rotation ----------------------------------------------------------------------

  /** The positions of all qualifying entries, in configuration order. */
  ghost predicate Positions(ps: seq<ProviderConfig>, health: map<string, Health>, at: seq<nat>) {
    && (forall k :: 0 <= k < |at| ==> at[k] < |ps| && Qualifies(ps[at[k]], health))
    && (forall k, l :: 0 <= k < l < |at| ==> at[k] < at[l])
    && (forall i :: 0 <= i < |ps| && Qualifies(ps[i], health) ==> i in at)
  }

  lemma OneMorePosition(ps: seq<ProviderConfig>, health: map<string, Health>, before: seq<nat>) returns (at: seq<nat>)
    requires ps != [] && Positions(ps[..|ps| - 1], health, before)
    ensures at == before + (if Qualifies(ps[|ps| - 1], health) then [|ps| - 1] else [])
    ensures Positions(ps, health, at)
  {
    var n := |ps| - 1;
    at := before + (if Qualifies(ps[n], health) then [n] else []);
    forall i | 0 <= i < |ps| && Qualifies(ps[i], health) ensures i in at {
      if i < n {
        assert ps[..n][i] == ps[i] && i in before;
      }
    }
  }

  /** The listed entries are those at these positions. */
  ghost predicate EntriesAt(ps: seq<ProviderConfig>, at: seq<nat>, listed: seq<ProviderConfig>) {
    |listed| == |at| && forall k :: 0 <= k < |at| ==> at[k] < |ps| && listed[k] == ps[at[k]]
  }

  lemma OneMoreEntry(ps: seq<ProviderConfig>, at: seq<nat>, listed: seq<ProviderConfig>)
    requires ps != [] && EntriesAt(ps[..|ps| - 1], at, listed)
    ensures EntriesAt(ps, at, listed) && EntriesAt(ps, at + [|ps| - 1], listed + [ps[|ps| - 1]])
  {
    assert forall k :: 0 <= k < |at| ==> ps[..|ps| - 1][at[k]] == ps[at[k]];
  }

  lemma {:induction false} ListedIs(ps: seq<ProviderConfig>, health: map<string, Health>) returns (at: seq<nat>)
    ensures Positions(ps, health, at) && EntriesAt(ps, at, Listed(ps, health))
  {
    if ps == [] {
      at := [];
    } else {
      var before := ListedIs(ps[..|ps| - 1], health);
      var listed := Listed(ps[..|ps| - 1], health);
      at := OneMorePosition(ps, health, before);
      OneMoreEntry(ps, before, listed);
      assert before + [] == before && listed + [] == listed;
    }
  }

  /** Under failover an unpinned request goes to the first qualifying entry, with the first model of the first
      entry of its name that has models; the chain is all the other qualifying entries in order. */
  lemma FailoverRoutes(cfg: RouterConfig, lib: Library, s: State, model: string) returns (at: seq<nat>, i: nat)
    requires s.strategy == Failover && ':' !in Target(cfg, model)
    ensures Positions(cfg.providers, s.health, at)
    ensures var (d, idx) := Route(cfg, lib, s, model);
      && d.estimatedCost == 0.0 && idx == s.roundRobinIdx
      && (at == [] ==> d.provider == "" && d.model == "" && d.fallbacks == [])
      && (at != [] ==>
           d.provider == cfg.providers[at[0]].name && |d.fallbacks| == |at| - 1
           && (forall k :: 1 <= k < |at| ==> d.fallbacks[k - 1] == cfg.providers[at[k]].name)
           && FirstWithModels(cfg.providers, d.provider, i) && d.model == cfg.providers[i].models[0])
  {
    PinnedIs(cfg, model);
    at := ListedIs(cfg.providers, s.health);
    i := 0;
    if at != [] {
      assert cfg.providers[at[0]] in cfg.providers;
      i := FirstModelIs(cfg.providers, cfg.providers[at[0]].name);
    }
  }

  /** Under rotation the index picks from the qualifying entries and moves on by one, unless there is none. */
  lemma RotationRoutes(cfg: RouterConfig, lib: Library, s: State, model: string) returns (at: seq<nat>)
    requires s.strategy == RoundRobin && ':' !in Target(cfg, model)
    ensures Positions(cfg.providers, s.health, at)
    ensures var (d, idx) := Route(cfg, lib, s, model);
      && d.fallbacks == [] && d.estimatedCost == 0.0
      && if at == [] then d.provider == "" && d.model == "" && idx == s.roundRobinIdx
         else
           var pc := cfg.providers[at[s.roundRobinIdx % |at|]];
           d.provider == pc.name && d.model == pc.models[0] && idx == s.roundRobinIdx + 1
  {
    PinnedIs(cfg, model);
    at := ListedIs(cfg.providers, s.health);
  }

  // ----- Smart -----------------------------------------------------------------------------------------

  /** Entry w is the first of this name. */
  predicate FirstNamed(ps: seq<ProviderConfig>, name: string, w: nat) {
    w < |ps| && ps[w].name == name && forall j :: 0 <= j < w ==> ps[j].name != name
  }

  /** The score of any pair: 100, less the penalties of a known provider, plus ten times the weight of the
      first entry of its name, less a hundred times its price if it has one. */
  lemma ScoreIs(cfg: RouterConfig, health: map<string, Health>, provider: string, model: string, w: nat)
    requires FirstNamed(cfg.providers, provider, w)
    ensures var penalty := if provider !in health then 0.0
        else
          var h := health[provider];
          h.errorRate * 50.0 + (if h.avgLatencyMs <= 3000.0 then h.avgLatencyMs / 100.0 else 30.0)
          + (if h.available then 0.0 else 1000.0);
      var cost := CostOf(cfg.pricing, provider, model);
      Score(cfg, health, Offer(provider, model))
        == 100.0 - penalty + cfg.providers[w].weight as real * 10.0 - (if cost.Some? then cost.value * 100.0 else 0.0)
  {
    WeightIsOwn(cfg.providers, w);
    assert (cfg.providers[w].weight * 10) as real == cfg.providers[w].weight as real * 10.0;
    assert PriceKey(Offer(provider, model)) == provider + ":" + model;
  }

  lemma OfferedIs(ps: seq<ProviderConfig>, health: map<string, Health>, i: nat, j: nat)
    requires PairAt(ps, health, i, j)
    ensures Offer(ps[i].name, ps[i].models[j]) in Offers(ps, health)
  {
    OffersAre(ps, health, Offer(ps[i].name, ps[i].models[j]));
    assert ps[i] in ps;
  }

  ghost predicate AnyPair(ps: seq<ProviderConfig>, health: map<string, Health>) {
    exists i: nat, j: nat :: PairAt(ps, health, i, j)
  }

  lemma AllOffered(ps: seq<ProviderConfig>, health: map<string, Health>)
    ensures forall i: nat, j: nat :: PairAt(ps, health, i, j) ==> Offer(ps[i].name, ps[i].models[j]) in Offers(ps, health)
  {
    forall i: nat, j: nat | PairAt(ps, health, i, j)
      ensures Offer(ps[i].name, ps[i].models[j]) in Offers(ps, health)
    {
      OfferedIs(ps, health, i, j);
    }
  }

  lemma OfferIsPair(ps: seq<ProviderConfig>, health: map<string, Health>, o: Offer) returns (i: nat, j: nat)
    requires o in Offers(ps, health)
    ensures PairAt(ps, health, i, j) && o == Offer(ps[i].name, ps[i].models[j])
  {
    OffersAre(ps, health, o);
    var pc :| pc in ps && Open(pc, health) && pc.name == o.provider && o.model in pc.models;
    i :| 0 <= i < |ps| && ps[i] == pc;
    j :| 0 <= j < |pc.models| && pc.models[j] == o.model;
  }

  lemma NothingOffered(ps: seq<ProviderConfig>, health: map<string, Health>)
    requires !AnyPair(ps, health)
    ensures Offers(ps, health) == []
  {
    if Offers(ps, health) != [] {
      var i, j := OfferIsPair(ps, health, Offers(ps, health)[0]);
    }
  }

  /** The pair is open and no open pair outscores it. */
  ghost predicate HighestAt(cfg: RouterConfig, health: map<string, Health>, i: nat, j: nat) {
    var ps := cfg.providers;
    PairAt(ps, health, i, j)
    && forall i': nat, j': nat :: PairAt(ps, health, i', j') ==>
         Score(cfg, health, Offer(ps[i'].name, ps[i'].models[j']))
           <= Score(cfg, health, Offer(ps[i].name, ps[i].models[j]))
  }

  lemma ByScoreIs(cfg: RouterConfig, lib: Library, health: map<string, Health>) returns (i: nat, j: nat)
    requires lib.Valid() && AnyPair(cfg.providers, health)
    ensures HighestAt(cfg, health, i, j)
    ensures var d := ByScore(cfg, lib, health);
      d.provider == cfg.providers[i].name && d.model == cfg.providers[i].models[j]
  {
    var d := ByScore(cfg, lib, health);
    AllOffered(cfg.providers, health);
    SmartIsMaximal(cfg, lib, health);
    i, j := OfferIsPair(cfg.providers, health, Offer(d.provider, d.model));
  }

  /** Under smart an unpinned request goes to an open pair that no open pair outscores; if there is none it
      goes nowhere. */
  lemma SmartRoutes(cfg: RouterConfig, lib: Library, s: State, model: string) returns (i: nat, j: nat)
    requires lib.Valid() && s.strategy == Smart && ':' !in Target(cfg, model)
    ensures var (d, idx) := Route(cfg, lib, s, model);
      && d.estimatedCost == 0.0 && idx == s.roundRobinIdx
      && (AnyPair(cfg.providers, s.health) ==>
            HighestAt(cfg, s.health, i, j)
            && d.provider == cfg.providers[i].name && d.model == cfg.providers[i].models[j])
      && (!AnyPair(cfg.providers, s.health) ==> d.provider == "" && d.model == "" && d.fallbacks == [])
  {
    PinnedIs(cfg, model);
    i, j := 0, 0;
    if AnyPair(cfg.providers, s.health) {
      i, j := ByScoreIs(cfg, lib, s.health);
    } else {
      NothingOffered(cfg.providers, s.health);
      SortedLength(lib, []);
    }
  }

  /** Decision and chain are the best min(4, n) candidates in score order, one candidate per open pair. */
  lemma SmartChain(cfg: RouterConfig, lib: Library, s: State, model: string)
    requires lib.Valid() && s.strategy == Smart && ':' !in Target(cfg, model)
    requires Offers(cfg.providers, s.health) != []
    ensures var all := Candidates(cfg, s.health, Offers(cfg.providers, s.health));
      var d := Route(cfg, lib, s, model).0;
      exists kept: seq<Candidate>, left: seq<Candidate> :: Split(all, kept, left) && |kept| == Min(4, |all|)
        && kept[0].offer == Offer(d.provider, d.model) && d.fallbacks == ProvidersOf(kept[1..])
  {
    PinnedIs(cfg, model);
    SmartKeepsTheBest(cfg, lib, s.health);
  }
}
