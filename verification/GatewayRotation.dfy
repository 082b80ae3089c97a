/** Rotation over runs of requests: which requests move it on, and how evenly it picks. */
module GatewayRotation {
  import opened Types
  import opened GatewayModel
  import opened GatewayRuns
  import opened GatewayCalls
  import RouterModel
  import Routing

  /** The providers the rotation picks from in this state. */
  function ListedNow(g: Deployment, s: State): seq<RouterModel.ProviderConfig> {
    RouterModel.Listed(g.cfg.router.providers, s.router.health)
  }

  /** The event is a request routed by rotation: past the limiter, missing the cache, and not pinned. */
  predicate Rotates(g: Deployment, s: State, e: Event) {
    e.Request? && Misses(g, s, e.req, e.t) && !RouterModel.Pinned(g.cfg.router, e.req.model)
    && s.router.strategy == RouterModel.RoundRobin
  }

  // ----- One event -------------------------------------------------------------------------

  lemma ForwardIndex(g: Deployment, s: State, req: ChatRequest, t: Readings, world: World)
    requires g.Valid()
    ensures Forward(g.cfg, g.plat, s, req, t, world).0.router.roundRobinIdx
         == RouterModel.Route(g.cfg.router, g.plat.lib, s.router, req.model).1
  {}

  /** The index moves by one at each such request that finds a provider listed, and at nothing else. */
  lemma IndexStep(g: Deployment, s: State, e: Event)
    requires g.Valid()
    ensures Step(g, s, e).router.roundRobinIdx
         == s.router.roundRobinIdx + (if Rotates(g, s, e) && ListedNow(g, s) != [] then 1 else 0)
  {
    if e.Request? {
      if Misses(g, s, e.req, e.t) {
        RequestForwards(g, s, e.req, e.t, e.world);
        ForwardIndex(g, LookUp(g.cfg, g.plat, Admit(g.cfg, Begun(s), e.req, e.t).0, e.req, e.t).0,
                     e.req, e.t, e.world);
      } else {
        MissingNothing(g, s, e.req, e.t, e.world);
      }
    }
  }

  /** A request routed by rotation calls the provider the index points at, if it is registered, and no other. */
  lemma RotatedCalls(g: Deployment, s: State, e: Event)
    requires g.Valid() && Rotates(g, s, e) && ListedNow(g, s) != []
    ensures var pc := ListedNow(g, s)[s.router.roundRobinIdx % |ListedNow(g, s)|];
      Called(Handle(g.cfg, g.plat, s, e.req, e.t, e.world).2)
        == if pc.name != "" && pc.name in g.cfg.registry then [pc.name] else []
  {
    RequestForwards(g, s, e.req, e.t, e.world);
    ForwardRotated(g, LookUp(g.cfg, g.plat, Admit(g.cfg, Begun(s), e.req, e.t).0, e.req, e.t).0,
                   e.req, e.t, e.world);
  }

  lemma ForwardRotated(g: Deployment, s: State, req: ChatRequest, t: Readings, world: World)
    requires g.Valid() && !RouterModel.Pinned(g.cfg.router, req.model)
    requires s.router.strategy == RouterModel.RoundRobin && ListedNow(g, s) != []
    ensures var pc := ListedNow(g, s)[s.router.roundRobinIdx % |ListedNow(g, s)|];
      Called(Forward(g.cfg, g.plat, s, req, t, world).2)
        == if pc.name != "" && pc.name in g.cfg.registry then [pc.name] else []
  {
    var (s1, d) := Pick(g.cfg, g.plat, s, req);
    Routing.RotationChooses(g.cfg.router, g.plat.lib, s.router, req.model);
    if d.provider != "" && d.provider in g.cfg.registry {
      DispatchCalls(g.cfg, s1.router.health, d, t.reports, world);
      var calls := Dispatch(g.cfg, s1.router.health, d, t.reports, world).1;
      assert Called(calls[1..]) == [];
      assert calls == [calls[0]];
    }
  }

  // ----- Runs --------------------------------------------------------------------------------

  /** What an event finds: whether it rotates, the index, and the providers listed. */
  datatype Look = Look(rotates: bool, index: nat, listed: seq<RouterModel.ProviderConfig>)

  function LookOf(g: Deployment, s: State, e: Event): Look {
    Look(Rotates(g, s, e), s.router.roundRobinIdx, ListedNow(g, s))
  }

  /** The looks of the events of a run after the first n. */
  function Looks(g: Deployment, es: seq<Event>, n: nat): seq<Look>
    requires g.Valid()
  {
    if |es| <= n then []
    else Looks(g, es[..|es| - 1], n) + [LookOf(g, Run(g, es[..|es| - 1]), es[|es| - 1])]
  }

  /** How many requests were routed by rotation. */
  function Rotations(looks: seq<Look>): nat {
    if looks == [] then 0
    else Rotations(looks[..|looks| - 1]) + (if looks[|looks| - 1].rotates then 1 else 0)
  }

  predicate PicksAt(k: Look, p: nat) {
    k.rotates && k.listed != [] && k.index % |k.listed| == p
  }

  /** How many of them picked position p of the list. */
  function Picks(looks: seq<Look>, p: nat): nat {
    if looks == [] then 0
    else Picks(looks[..|looks| - 1], p) + (if PicksAt(looks[|looks| - 1], p) then 1 else 0)
  }

  /** Each look finds the index where the one before it left it, and the last leaves it at `to`. */
  ghost predicate Chained(looks: seq<Look>, to: nat) {
    looks == [] ||
    (var k := looks[|looks| - 1];
     to == k.index + (if k.rotates && k.listed != [] then 1 else 0) && Chained(looks[..|looks| - 1], k.index))
  }

  lemma ChainedSnoc(looks: seq<Look>, k: Look, to: nat)
    requires Chained(looks, k.index) && to == k.index + (if k.rotates && k.listed != [] then 1 else 0)
    ensures Chained(looks + [k], to)
  {
    assert (looks + [k])[..|looks|] == looks;
  }

  lemma {:induction false} LooksAreChained(g: Deployment, es: seq<Event>, n: nat)
    requires g.Valid()
    ensures Chained(Looks(g, es, n), Run(g, es).router.roundRobinIdx)
  {
    if |es| > n {
      var before, e := es[..|es| - 1], es[|es| - 1];
      var s := Run(g, before);
      LooksAreChained(g, before, n);
      IndexStep(g, s, e);
      ChainedSnoc(Looks(g, before, n), LookOf(g, s, e), Step(g, s, e).router.roundRobinIdx);
    }
  }

  /** Position p is picked once for every index in between that points at it. */
  lemma {:induction false} ChainedPicks(looks: seq<Look>, to: nat, listed: seq<RouterModel.ProviderConfig>, p: nat)
    returns (from: nat)
    requires Chained(looks, to) && p < |listed| && forall k :: k in looks ==> k.listed == listed
    ensures to == from + Rotations(looks)
    ensures Picks(looks, p) == Routing.Below(to, |listed|, p) - Routing.Below(from, |listed|, p)
  {
    if looks == [] {
      from := to;
    } else {
      var before, k := looks[..|looks| - 1], looks[|looks| - 1];
      assert k in looks;
      from := ChainedPicks(before, k.index, listed, p);
      Routing.BelowStep(k.index, |listed|, p);
    }
  }

  /** Position p is picked floor(m/size) or ceil(m/size) times by m rotations. */
  ghost predicate Evenly(looks: seq<Look>, size: nat, p: nat)
    requires size > 0
  {
    var m := Rotations(looks); m / size <= Picks(looks, p) <= (m + size - 1) / size
  }

  ghost predicate SameListed(looks: seq<Look>, listed: seq<RouterModel.ProviderConfig>) {
    forall k :: k in looks ==> k.listed == listed
  }

  lemma ChainedIsFair(looks: seq<Look>, to: nat, listed: seq<RouterModel.ProviderConfig>, p: nat)
    requires Chained(looks, to) && p < |listed| && SameListed(looks, listed)
    ensures Evenly(looks, |listed|, p)
  {
    var from := ChainedPicks(looks, to, listed, p);
    Routing.BelowSpread(from, Rotations(looks), |listed|, p);
  }

  /** Over any stretch of any run in which every event finds the same n providers listed, the m requests
      routed by rotation pick each of them floor(m/n) or ceil(m/n) times, whatever hits, refusals, pinned
      requests, other strategies and admin actions come in between. */
  lemma RotationIsFair(g: Deployment, es: seq<Event>, n: nat, listed: seq<RouterModel.ProviderConfig>, p: nat)
    requires g.Valid() && p < |listed| && SameListed(Looks(g, es, n), listed)
    ensures Evenly(Looks(g, es, n), |listed|, p)
  {
    LooksAreChained(g, es, n);
    ChainedIsFair(Looks(g, es, n), Run(g, es).router.roundRobinIdx, listed, p);
  }
}
