/** Which providers a request calls, and what becomes of unavailable ones over runs of requests. */
module GatewayCalls {
  import opened Types
  import opened GatewayModel
  import opened GatewayRuns
  import opened Seqs
  import RouterModel
  import Routing
  import Health
  import Retry

  // ----- Provider calls of one request ----------------------------------------------------

  function Called(calls: seq<Call>): (r: seq<string>)
    ensures |r| == |calls| && forall i :: 0 <= i < |calls| ==> r[i] == calls[i].provider
  {
    if calls == [] then [] else [calls[0].provider] + Called(calls[1..])
  }

  /** The health table after one report per call, in order, the first of them made at at(n). */
  function ReportAll(health: HealthMap, calls: seq<Call>, latencyMs: real, at: nat -> int, n: nat): HealthMap
    decreases calls
  {
    if calls == [] then health
    else
      var c := calls[0];
      var r := if c.ok then Health.Ok(latencyMs) else Health.Fail;
      ReportAll(RouterModel.Reported(health, c.provider, r, at(n)), calls[1..], latencyMs, at, n + 1)
  }

  ghost predicate OnlyLastSucceeds(calls: seq<Call>, ok: bool) {
    (forall i :: 0 <= i < |calls| ==> (calls[i].ok <==> ok && i == |calls| - 1)) && (ok ==> calls != [])
  }

  function LatencyOf(r: Option<ChatResponse>): real {
    if r.Some? then r.value.latencyMs else 0.0
  }

  lemma OneMoreCall(c: Call, calls: seq<Call>, ok: bool)
    requires !c.ok && OnlyLastSucceeds(calls, ok)
    ensures OnlyLastSucceeds([c] + calls, ok) && ([c] + calls)[1..] == calls
  {
    var all := [c] + calls;
    assert forall i :: 1 <= i < |all| ==> all[i] == calls[i - 1];
  }

  /** The providers of the chain that can be called: registered, with at least one model. */
  function Eligible(cfg: Config, chain: seq<string>): seq<string> {
    if chain == [] then []
    else
      (if Callable(cfg, chain[0]) then [chain[0]] else [])
      + Eligible(cfg, chain[1..])
  }

  lemma {:induction false} EligibleInOrder(cfg: Config, chain: seq<string>)
    ensures Subseq(Eligible(cfg, chain), chain)
  {
    if chain != [] {
      var rest := Eligible(cfg, chain[1..]);
      EligibleInOrder(cfg, chain[1..]);
      SubseqPrepend(rest, chain[1..], chain[0]);
      SubseqBoth(rest, chain[1..], chain[0]);
      assert [chain[0]] + chain[1..] == chain && [] + rest == rest;
    }
  }

  /** The answer comes from the last call, under the name it was called by. */
  ghost predicate FromLastCall(calls: seq<Call>, resp: Option<ChatResponse>) {
    resp.Some? ==> calls != [] && resp.value.provider == calls[|calls| - 1].provider
  }

  /** Every call is of a registered provider and asks for the first of its models. */
  ghost predicate AskFirstModels(cfg: Config, calls: seq<Call>) {
    forall c :: c in calls ==>
      c.provider in cfg.registry && cfg.registry[c.provider].models != []
      && c.model == cfg.registry[c.provider].models[0]
  }

  /** These calls, and this answer and health table, are what walking the chain comes to. */
  ghost predicate Walks(cfg: Config, health: HealthMap, chain: seq<string>, at: nat -> int, made: nat,
                        h: HealthMap, calls: seq<Call>, resp: Option<ChatResponse>) {
    && Called(calls) <= Eligible(cfg, chain) && (resp.None? ==> Called(calls) == Eligible(cfg, chain))
    && OnlyLastSucceeds(calls, resp.Some?) && FromLastCall(calls, resp) && AskFirstModels(cfg, calls)
    && h == ReportAll(health, calls, LatencyOf(resp), at, made)
  }

  predicate Callable(cfg: Config, name: string) {
    name in cfg.registry && cfg.registry[name].models != []
  }

  lemma WalkSkips(cfg: Config, health: HealthMap, chain: seq<string>, at: nat -> int, made: nat,
                  h: HealthMap, calls: seq<Call>, resp: Option<ChatResponse>)
    requires chain != [] && !Callable(cfg, chain[0]) && Walks(cfg, health, chain[1..], at, made, h, calls, resp)
    ensures Walks(cfg, health, chain, at, made, h, calls, resp)
  {
    assert [] + Eligible(cfg, chain[1..]) == Eligible(cfg, chain[1..]);
  }

  lemma WalkEnds(cfg: Config, health: HealthMap, chain: seq<string>, at: nat -> int, made: nat, resp: ChatResponse)
    requires chain != [] && Callable(cfg, chain[0]) && resp.provider == chain[0]
    ensures Walks(cfg, health, chain, at, made,
      RouterModel.Reported(health, chain[0], Health.Ok(resp.latencyMs), at(made)),
      [Call(chain[0], cfg.registry[chain[0]].models[0], true)], Some(resp))
  {
    var c := Call(chain[0], cfg.registry[chain[0]].models[0], true);
    assert Called([c]) == [chain[0]] <= Eligible(cfg, chain);
  }

  lemma OneMoreAsked(cfg: Config, c: Call, calls: seq<Call>)
    requires AskFirstModels(cfg, [c]) && AskFirstModels(cfg, calls)
    ensures AskFirstModels(cfg, [c] + calls)
  {
    assert c in [c];
  }

  lemma OneMoreCalled(cfg: Config, c: Call, calls: seq<Call>, chain: seq<string>)
    requires chain != [] && Callable(cfg, chain[0]) && c.provider == chain[0]
    ensures Called([c] + calls) == [chain[0]] + Called(calls)
    ensures Eligible(cfg, chain) == [chain[0]] + Eligible(cfg, chain[1..])
  {
    assert ([c] + calls)[1..] == calls;
  }

  lemma WalkGoesOn(cfg: Config, health: HealthMap, chain: seq<string>, at: nat -> int, made: nat,
                   h: HealthMap, calls: seq<Call>, resp: Option<ChatResponse>)
    requires chain != [] && Callable(cfg, chain[0])
    requires Walks(cfg, RouterModel.Reported(health, chain[0], Health.Fail, at(made)), chain[1..], at, made + 1,
                   h, calls, resp)
    ensures Walks(cfg, health, chain, at, made, h,
      [Call(chain[0], cfg.registry[chain[0]].models[0], false)] + calls, resp)
  {
    var c := Call(chain[0], cfg.registry[chain[0]].models[0], false);
    OneMoreCall(c, calls, resp.Some?);
    OneMoreAsked(cfg, c, calls);
    OneMoreCalled(cfg, c, calls, chain);
    assert FromLastCall([c] + calls, resp);
  }

  lemma {:induction false} FallbackCalls(cfg: Config, health: HealthMap, chain: seq<string>, made: nat,
                                         at: nat -> int, world: World)
    ensures var (h, calls, resp) := Fallbacks(cfg, health, chain, made, at, world);
      Walks(cfg, health, chain, at, made, h, calls, resp)
    decreases chain
  {
    if chain != [] {
      var name, rest := chain[0], chain[1..];
      if !Callable(cfg, name) {
        var (h, calls, resp) := Fallbacks(cfg, health, rest, made, at, world);
        FallbackCalls(cfg, health, rest, made, at, world);
        WalkSkips(cfg, health, chain, at, made, h, calls, resp);
      } else {
        var r := Retry.Call(world(made), cfg.registry[name].maxRetries);
        if r.Returned? {
          WalkEnds(cfg, health, chain, at, made, r.response.(provider := name));
        } else {
          var failed := RouterModel.Reported(health, name, Health.Fail, at(made));
          var (h, calls, resp) := Fallbacks(cfg, failed, rest, made + 1, at, world);
          FallbackCalls(cfg, failed, rest, made + 1, at, world);
          WalkGoesOn(cfg, health, chain, at, made, h, calls, resp);
        }
      }
    }
  }

  /** The calls of a request are the primary, then the callable providers of the chain in order until one
      succeeds, all of them if none does, each fallback asked for its first registered model; all but possibly
      the last fail; the request succeeds exactly when the last does, a fallback's answer under its own name;
      and each call is reported exactly once. */
  lemma DispatchCalls(cfg: Config, health: HealthMap, d: RouterModel.Decision, at: nat -> int, world: World)
    requires d.provider in cfg.registry
    ensures var (h, calls, resp) := Dispatch(cfg, health, d, at, world);
      && calls != [] && calls[0].provider == d.provider && calls[0].model == d.model
      && Called(calls[1..]) <= Eligible(cfg, d.fallbacks)
      && (resp.None? ==> Called(calls[1..]) == Eligible(cfg, d.fallbacks))
      && OnlyLastSucceeds(calls, resp.Some?) && (|calls| > 1 ==> FromLastCall(calls, resp))
      && AskFirstModels(cfg, calls[1..])
      && h == ReportAll(health, calls, LatencyOf(resp), at, 0)
  {
    var r := Retry.Call(world(0), cfg.registry[d.provider].maxRetries);
    if r.Threw? {
      var h := RouterModel.Reported(health, d.provider, Health.Fail, at(0));
      FallbackCalls(cfg, h, d.fallbacks, 1, at, world);
      var (_, calls, resp) := Fallbacks(cfg, h, d.fallbacks, 1, at, world);
      OneMoreCall(Call(d.provider, d.model, false), calls, resp.Some?);
    }
  }

  // ----- Requests that reach the router -----------------------------------------------------

  /** The request gets past the limiter and misses the cache. */
  predicate Misses(g: Deployment, s: State, req: ChatRequest, t: Readings) {
    var (s1, denied) := Admit(g.cfg, Begun(s), req, t);
    denied.None? && LookUp(g.cfg, g.plat, s1, req, t).1.None?
  }

  /** A request that misses the cache is forwarded from a state with the same router. */
  lemma RequestForwards(g: Deployment, s: State, req: ChatRequest, t: Readings, world: World)
    requires g.Valid() && Misses(g, s, req, t)
    ensures var s2 := LookUp(g.cfg, g.plat, Admit(g.cfg, Begun(s), req, t).0, req, t).0;
      s2.router == s.router
      && Handle(g.cfg, g.plat, s, req, t, world) == Forward(g.cfg, g.plat, s2, req, t, world)
  {}

  lemma MissingNothing(g: Deployment, s: State, req: ChatRequest, t: Readings, world: World)
    requires g.Valid() && !Misses(g, s, req, t)
    ensures var (s', _, calls) := Handle(g.cfg, g.plat, s, req, t, world); calls == [] && s'.router == s.router
  {}

  // ----- Every provider's health is that of its own calls -----------------------------------

  /** The reports a request makes on one provider. */
  function ReportsOn(calls: seq<Call>, latencyMs: real, name: string): seq<Health.Report> {
    if calls == [] then []
    else
      (if calls[0].provider != name then []
       else [if calls[0].ok then Health.Ok(latencyMs) else Health.Fail])
      + ReportsOn(calls[1..], latencyMs, name)
  }

  lemma ReportedIsAfter(health: HealthMap, provider: string, r: Health.Report, at: int, name: string)
    ensures var before := Health.Unstamped(RouterModel.HealthOf(health, name));
      Health.Unstamped(RouterModel.HealthOf(RouterModel.Reported(health, provider, r, at), name))
        == if provider == name then Health.Run(before, [r]) else before
  {
    var before := Health.Unstamped(RouterModel.HealthOf(health, name));
    assert Health.Run(before, [r]) == Health.After(Health.Run(before, [r][..0]), r);
  }

  lemma {:induction false} ReportAllIsRun(health: HealthMap, calls: seq<Call>, latencyMs: real,
                                          at: nat -> int, n: nat, name: string)
    ensures Health.Unstamped(RouterModel.HealthOf(ReportAll(health, calls, latencyMs, at, n), name))
         == Health.Run(Health.Unstamped(RouterModel.HealthOf(health, name)), ReportsOn(calls, latencyMs, name))
    decreases calls
  {
    if calls != [] {
      var c, rest := calls[0], ReportsOn(calls[1..], latencyMs, name);
      var r := if c.ok then Health.Ok(latencyMs) else Health.Fail;
      var health' := RouterModel.Reported(health, c.provider, r, at(n));
      ReportedIsAfter(health, c.provider, r, at(n), name);
      ReportAllIsRun(health', calls[1..], latencyMs, at, n + 1, name);
      assert [] + rest == rest;
      Health.RunAppend(Health.Unstamped(RouterModel.HealthOf(health, name)), [r], rest);
    }
  }

  function ServedLatency(r: Reply): real {
    if r.Served? then r.response.latencyMs else 0.0
  }

  /** The reports all requests of a run make on one provider, in order. */
  function AllReportsOn(g: Deployment, es: seq<Event>, name: string): seq<Health.Report>
    requires g.Valid()
  {
    if es == [] then []
    else AllReportsOn(g, es[..|es| - 1], name) + ReportsBy(g, Run(g, es[..|es| - 1]), es[|es| - 1], name)
  }

  function ReportsBy(g: Deployment, s: State, e: Event, name: string): seq<Health.Report>
    requires g.Valid()
  {
    if !e.Request? then []
    else
      var (_, r, calls) := Handle(g.cfg, g.plat, s, e.req, e.t, e.world);
      ReportsOn(calls, ServedLatency(r), name)
  }

  function Unavailable(s: State): set<string> {
    set n | n in s.router.health && !s.router.health[n].available
  }

  function HealthAt(s: State, name: string): Health.Health {
    Health.Unstamped(RouterModel.HealthOf(s.router.health, name))
  }

  lemma ForwardReports(g: Deployment, s: State, req: ChatRequest, t: Readings, world: World, name: string)
    requires g.Valid()
    ensures var (s', r, calls) := Forward(g.cfg, g.plat, s, req, t, world);
      HealthAt(s', name) == Health.Run(HealthAt(s, name), ReportsOn(calls, ServedLatency(r), name))
  {
    var (s1, d) := Pick(g.cfg, g.plat, s, req);
    if d.provider != "" && d.provider in g.cfg.registry {
      var (h, calls, resp) := Dispatch(g.cfg, s1.router.health, d, t.reports, world);
      DispatchCalls(g.cfg, s1.router.health, d, t.reports, world);
      ReportAllIsRun(s1.router.health, calls, LatencyOf(resp), t.reports, 0, name);
    }
  }

  lemma EventReports(g: Deployment, s: State, e: Event, name: string)
    requires g.Valid()
    ensures HealthAt(Step(g, s, e), name) == Health.Run(HealthAt(s, name), ReportsBy(g, s, e, name))
  {
    if e.Request? {
      if Misses(g, s, e.req, e.t) {
        RequestForwards(g, s, e.req, e.t, e.world);
        ForwardReports(g, LookUp(g.cfg, g.plat, Admit(g.cfg, Begun(s), e.req, e.t).0, e.req, e.t).0,
                       e.req, e.t, e.world, name);
      } else {
        MissingNothing(g, s, e.req, e.t, e.world);
      }
    }
  }

  /** Over any run, the health of a provider is that of a history of its own calls, in order. */
  lemma {:induction false} HealthProjects(g: Deployment, es: seq<Event>, name: string)
    requires g.Valid()
    ensures HealthAt(Run(g, es), name) == Health.Run(Health.UNSEEN, AllReportsOn(g, es, name))
  {
    if es != [] {
      var before, e := es[..|es| - 1], es[|es| - 1];
      HealthProjects(g, before, name);
      EventReports(g, Run(g, before), e, name);
      Health.RunAppend(Health.UNSEEN, AllReportsOn(g, before, name), ReportsBy(g, Run(g, before), e, name));
    }
  }

  /** After any run, a provider is unavailable if and only if its last call failed and its error rate, which
      depends on its own calls alone, is above one half. */
  lemma UnavailableExactly(g: Deployment, es: seq<Event>, name: string)
    requires g.Valid()
    ensures var reports := AllReportsOn(g, es, name);
      name in Unavailable(Run(g, es)) <==>
        reports != [] && reports[|reports| - 1].Fail? && Health.Run(Health.UNSEEN, reports).errorRate > 0.5
  {
    var reports := AllReportsOn(g, es, name);
    HealthProjects(g, es, name);
    if reports != [] {
      Health.AvailableExactly(reports);
    }
  }

  // ----- Unavailable providers are left alone ------------------------------------------------

  lemma {:induction false} ReportsTouchCalled(health: HealthMap, calls: seq<Call>, latencyMs: real,
                                             at: nat -> int, n: nat, name: string)
    requires name in health && name !in Called(calls)
    ensures var h := ReportAll(health, calls, latencyMs, at, n); name in h && h[name] == health[name]
    decreases calls
  {
    if calls != [] {
      var c := calls[0];
      var r := if c.ok then Health.Ok(latencyMs) else Health.Fail;
      ReportsTouchCalled(RouterModel.Reported(health, c.provider, r, at(n)), calls[1..], latencyMs, at, n + 1, name);
    }
  }

  lemma ChainSpares(cfg: Config, chain: seq<string>, called: seq<string>, name: string)
    requires called <= Eligible(cfg, chain) && name !in chain
    ensures name !in called
  {
    EligibleInOrder(cfg, chain);
    SubseqMember(Eligible(cfg, chain), chain);
    assert forall i :: 0 <= i < |called| ==> called[i] == Eligible(cfg, chain)[i];
  }

  /** The calls a decision leads to include an unavailable provider only as the decision's own, and a
      provider not called keeps its health. */
  lemma DispatchSpares(cfg: Config, health: HealthMap, d: RouterModel.Decision, at: nat -> int, world: World,
                       name: string)
    requires d.provider in cfg.registry && name in health && name !in d.fallbacks
    ensures var (h, calls, _) := Dispatch(cfg, health, d, at, world);
      (name in Called(calls) <==> name == d.provider)
      && (name != d.provider ==> name in h && h[name] == health[name])
  {
    var (h, calls, resp) := Dispatch(cfg, health, d, at, world);
    DispatchCalls(cfg, health, d, at, world);
    ChainSpares(cfg, d.fallbacks, Called(calls[1..]), name);
    if name != d.provider {
      ReportsTouchCalled(health, calls, LatencyOf(resp), at, 0, name);
    }
  }

  /** An unavailable provider that is called becomes available exactly when the call returns. */
  lemma DispatchRevives(cfg: Config, health: HealthMap, d: RouterModel.Decision, at: nat -> int, world: World)
    requires d.provider in cfg.registry && d.provider in health && !health[d.provider].available
    requires d.provider !in d.fallbacks
    ensures var h := Dispatch(cfg, health, d, at, world).0;
      d.provider in h
      && (h[d.provider].available <==> Retry.Call(world(0), cfg.registry[d.provider].maxRetries).Returned?)
  {
    if Retry.Call(world(0), cfg.registry[d.provider].maxRetries).Threw? {
      var failed := RouterModel.Reported(health, d.provider, Health.Fail, at(0));
      FallbackCalls(cfg, failed, d.fallbacks, 1, at, world);
      var (_, calls, resp) := Fallbacks(cfg, failed, d.fallbacks, 1, at, world);
      EligibleInOrder(cfg, d.fallbacks);
      SubseqMember(Eligible(cfg, d.fallbacks), d.fallbacks);
      ReportsTouchCalled(failed, calls, LatencyOf(resp), at, 1, d.provider);
    }
  }

  /** The request's provider is fixed to `name` without a look at its health, and `name` can be called. */
  predicate Forced(g: Deployment, s: State, req: ChatRequest, name: string) {
    Routing.ForcedTo(g.cfg.router, s.router, req.model) == Some(name) && name != "" && name in g.cfg.registry
  }

  predicate CallReturns(g: Deployment, world: World, name: string)
    requires name in g.cfg.registry
  {
    Retry.Call(world(0), g.cfg.registry[name].maxRetries).Returned?
  }

  /** What a cache miss does to a provider that is unavailable: it is called exactly when the request is
      forced to it, and becomes available exactly when that call returns. */
  ghost predicate ForcedExactly(g: Deployment, s: State, req: ChatRequest, world: World, name: string,
                                s': State, calls: seq<Call>)
    requires name in s.router.health
  {
    && (name in Called(calls) <==> Forced(g, s, req, name))
    && (name in Unavailable(s') <==> !(Forced(g, s, req, name) && CallReturns(g, world, name)))
    && (!Forced(g, s, req, name) ==>
          name in s'.router.health && s'.router.health[name] == s.router.health[name])
  }

  lemma ForwardIsForced(g: Deployment, s: State, req: ChatRequest, t: Readings, world: World, name: string)
    requires g.Valid() && name in Unavailable(s)
    ensures var (s', _, calls) := Forward(g.cfg, g.plat, s, req, t, world);
      ForcedExactly(g, s, req, world, name, s', calls)
  {
    var (s1, d) := Pick(g.cfg, g.plat, s, req);
    Routing.RouteIsForcedOrHealthy(g.cfg.router, g.plat.lib, s.router, req.model);
    if d.provider != "" && d.provider in g.cfg.registry {
      DispatchSpares(g.cfg, s1.router.health, d, t.reports, world, name);
      if name == d.provider {
        DispatchRevives(g.cfg, s1.router.health, d, t.reports, world);
      }
    }
  }

  /** A provider unavailable when a request starts is called if and only if the request misses the cache and
      is forced to that provider; otherwise its health stays as it is. */
  lemma CalledExactly(g: Deployment, s: State, req: ChatRequest, t: Readings, world: World, name: string)
    requires g.Valid() && name in Unavailable(s)
    ensures var (s', _, calls) := Handle(g.cfg, g.plat, s, req, t, world);
      (name in Called(calls) <==> Misses(g, s, req, t) && Forced(g, s, req, name))
      && (name !in Called(calls) ==> name in s'.router.health && s'.router.health[name] == s.router.health[name])
  {
    RequestIsForced(g, s, req, t, world, name);
  }

  lemma RequestIsForced(g: Deployment, s: State, req: ChatRequest, t: Readings, world: World, name: string)
    requires g.Valid() && name in Unavailable(s)
    ensures var (s', _, calls) := Handle(g.cfg, g.plat, s, req, t, world);
      if Misses(g, s, req, t) then ForcedExactly(g, s, req, world, name, s', calls)
      else calls == [] && s'.router == s.router
  {
    var (s1, denied) := Admit(g.cfg, Begun(s), req, t);
    assert s1.router == s.router;
    if denied.None? {
      var (s2, hit) := LookUp(g.cfg, g.plat, s1, req, t);
      assert s2.router == s.router;
      if hit.None? {
        ForwardIsForced(g, s2, req, t, world, name);
      }
    }
  }

  /** The event makes an unavailable provider available again: a request that misses the cache, is forced to
      it, and has its call answered. */
  predicate Revives(g: Deployment, s: State, e: Event, name: string) {
    e.Request? && Misses(g, s, e.req, e.t) && Forced(g, s, e.req, name) && CallReturns(g, e.world, name)
  }

  /** An unavailable provider becomes available by exactly those events. */
  lemma RevivedExactly(g: Deployment, s: State, e: Event, name: string)
    requires g.Valid() && name in Unavailable(s)
    ensures name in Unavailable(Step(g, s, e)) <==> !Revives(g, s, e, name)
  {
    if e.Request? {
      RequestIsForced(g, s, e.req, e.t, e.world, name);
    }
  }

  predicate OutAt(g: Deployment, es: seq<Event>, k: nat, name: string)
    requires g.Valid() && k <= |es|
  {
    name in Unavailable(Run(g, es[..k]))
  }

  predicate RevivedAt(g: Deployment, es: seq<Event>, k: nat, name: string)
    requires g.Valid() && k < |es|
  {
    Revives(g, Run(g, es[..k]), es[k], name)
  }

  lemma RunOneMore(g: Deployment, es: seq<Event>, k: nat)
    requires g.Valid() && k < |es|
    ensures Run(g, es[..k + 1]) == Step(g, Run(g, es[..k]), es[k])
  {
    OneLonger(es, k);
  }

  lemma OutStep(g: Deployment, es: seq<Event>, k: nat, name: string)
    requires g.Valid() && k < |es| && OutAt(g, es, k, name)
    ensures OutAt(g, es, k + 1, name) <==> !RevivedAt(g, es, k, name)
  {
    RunOneMore(g, es, k);
    RevivedExactly(g, Run(g, es[..k]), es[k], name);
  }

  lemma {:induction false} OutUntil(g: Deployment, es: seq<Event>, n: nat, m: nat, name: string)
    requires g.Valid() && n <= m <= |es| && OutAt(g, es, n, name) && NoneRevives(g, es, n, name)
    ensures OutAt(g, es, m, name)
    decreases m - n
  {
    if n < m {
      OutStep(g, es, n, name);
      OutUntil(g, es, n + 1, m, name);
    }
  }

  /** No event from the n-th on revives the provider. */
  ghost predicate NoneRevives(g: Deployment, es: seq<Event>, n: nat, name: string)
    requires g.Valid()
  {
    forall k :: n <= k < |es| ==> !RevivedAt(g, es, k, name)
  }

  /** Over any run, a provider that is unavailable at some point stays so to the end if and only if no later
      event revives it. */
  lemma StaysOutExactly(g: Deployment, es: seq<Event>, n: nat, name: string)
    requires g.Valid() && n <= |es| && OutAt(g, es, n, name)
    ensures (forall k :: n <= k <= |es| ==> OutAt(g, es, k, name)) <==> NoneRevives(g, es, n, name)
  {
    if NoneRevives(g, es, n, name) {
      forall k | n <= k <= |es| ensures OutAt(g, es, k, name) {
        OutUntil(g, es, n, k, name);
      }
    } else {
      var k :| n <= k < |es| && RevivedAt(g, es, k, name);
      if OutAt(g, es, k, name) {
        OutStep(g, es, k, name);
        assert !OutAt(g, es, k + 1, name);
      }
    }
  }

  /** The providers that are unavailable after n events are so after m. */
  ghost predicate GrownBy(g: Deployment, es: seq<Event>, n: nat, m: nat)
    requires g.Valid() && n <= m <= |es|
  {
    forall name :: OutAt(g, es, n, name) ==> OutAt(g, es, m, name)
  }

  /** Nothing that is unavailable at some point of the run is revived there. */
  ghost predicate NeverRevived(g: Deployment, es: seq<Event>, name: string)
    requires g.Valid()
  {
    forall k :: 0 <= k < |es| && OutAt(g, es, k, name) ==> !RevivedAt(g, es, k, name)
  }

  lemma OutNext(g: Deployment, es: seq<Event>, k: nat, name: string)
    requires g.Valid() && k < |es| && NeverRevived(g, es, name) && OutAt(g, es, k, name)
    ensures OutAt(g, es, k + 1, name)
  {
    OutStep(g, es, k, name);
  }

  lemma {:induction false} OutFrom(g: Deployment, es: seq<Event>, n: nat, m: nat, name: string)
    requires g.Valid() && n <= m <= |es| && NeverRevived(g, es, name) && OutAt(g, es, n, name)
    ensures OutAt(g, es, m, name)
    decreases m - n
  {
    if n < m {
      OutNext(g, es, n, name);
      OutFrom(g, es, n + 1, m, name);
    }
  }

  /** The set of unavailable providers only grows over a run if and only if no event of the run revives one
      that is unavailable at that time. */
  lemma UnavailableOnlyGrows(g: Deployment, es: seq<Event>)
    requires g.Valid()
    ensures (forall n, m :: 0 <= n <= m <= |es| ==> GrownBy(g, es, n, m))
       <==> (forall name :: NeverRevived(g, es, name))
  {
    if forall name :: NeverRevived(g, es, name) {
      forall n, m | 0 <= n <= m <= |es| ensures GrownBy(g, es, n, m) {
        forall name | OutAt(g, es, n, name) ensures OutAt(g, es, m, name) {
          OutFrom(g, es, n, m, name);
        }
      }
    } else {
      var name :| !NeverRevived(g, es, name);
      var n :| 0 <= n < |es| && OutAt(g, es, n, name) && RevivedAt(g, es, n, name);
      OutStep(g, es, n, name);
      assert !GrownBy(g, es, n, n + 1);
    }
  }

  /** A request pinned to an unavailable provider calls it alone when it misses the cache, and an answer, be
      it on a retry, puts the provider back however bad its record. */
  lemma PinnedRequestRevives(g: Deployment, s: State, req: ChatRequest, t: Readings, world: World, name: string)
    requires g.Valid() && RouterModel.Pinned(g.cfg.router, req.model) && name in Unavailable(s)
    requires Forced(g, s, req, name) && Misses(g, s, req, t) && CallReturns(g, world, name)
    ensures var (s', _, calls) := Handle(g.cfg, g.plat, s, req, t, world);
      Called(calls) == [name] && name in s'.router.health && s'.router.health[name].available
      && s'.router.health[name].errorRate == s.router.health[name].errorRate * 0.95
  {
    RequestForwards(g, s, req, t, world);
    var s2 := LookUp(g.cfg, g.plat, Admit(g.cfg, Begun(s), req, t).0, req, t).0;
    AnswerRevives(g, s2, req, t, world, name);
  }

  lemma AnswerRevives(g: Deployment, s: State, req: ChatRequest, t: Readings, world: World, name: string)
    requires g.Valid() && Forced(g, s, req, name) && CallReturns(g, world, name) && name in s.router.health
    ensures var (s', _, calls) := Forward(g.cfg, g.plat, s, req, t, world);
      Called(calls) == [name] && name in s'.router.health && s'.router.health[name].available
      && s'.router.health[name].errorRate == s.router.health[name].errorRate * 0.95
  {
    var (s1, d) := Pick(g.cfg, g.plat, s, req);
    Routing.RouteIsForcedOrHealthy(g.cfg.router, g.plat.lib, s.router, req.model);
    assert d.provider == name;
    assert Called([Call(name, d.model, true)]) == [name];
  }

  /** Cost, latency and rotation requests have no chain: they make at most one provider call. */
  lemma AtMostOneCall(g: Deployment, s: State, req: ChatRequest, t: Readings, world: World)
    requires g.Valid() && !RouterModel.Pinned(g.cfg.router, req.model)
    requires !s.router.strategy.Failover? && !s.router.strategy.Smart?
    ensures |Handle(g.cfg, g.plat, s, req, t, world).2| <= 1
  {
    if Misses(g, s, req, t) {
      RequestForwards(g, s, req, t, world);
      ForwardCallsAtMost(g, LookUp(g.cfg, g.plat, Admit(g.cfg, Begun(s), req, t).0, req, t).0, req, t, world);
      Routing.ChainExactly(g.cfg.router, g.plat.lib, s.router, req.model);
    }
  }

  lemma ForwardCallsAtMost(g: Deployment, s: State, req: ChatRequest, t: Readings, world: World)
    requires g.Valid()
    ensures |Forward(g.cfg, g.plat, s, req, t, world).2|
         <= 1 + |RouterModel.Route(g.cfg.router, g.plat.lib, s.router, req.model).0.fallbacks|
  {
    var (s1, d) := Pick(g.cfg, g.plat, s, req);
    if d.provider != "" && d.provider in g.cfg.registry {
      DispatchCalls(g.cfg, s1.router.health, d, t.reports, world);
      EligibleInOrder(g.cfg, d.fallbacks);
      SubseqMember(Eligible(g.cfg, d.fallbacks), d.fallbacks);
    }
  }

  // ----- No provider answers -----------------------------------------------------------------

  function Silence(): World {
    i => j => Retry.Threw("")
  }

  lemma {:induction false} SilenceThrows(made: nat, attempt: nat, maxRetries: nat)
    requires attempt <= maxRetries
    ensures Retry.Outcome(Silence()(made), attempt, maxRetries).Threw?
    decreases maxRetries - attempt
  {
    if attempt < maxRetries {
      SilenceThrows(made, attempt + 1, maxRetries);
    }
  }

  lemma {:induction false} SilentFallbacks(cfg: Config, health: HealthMap, chain: seq<string>, made: nat,
                                           at: nat -> int)
    ensures Fallbacks(cfg, health, chain, made, at, Silence()).2.None?
    decreases chain
  {
    if chain != [] {
      var name, rest := chain[0], chain[1..];
      if !Callable(cfg, name) {
        SilentFallbacks(cfg, health, rest, made, at);
      } else {
        SilenceThrows(made, 0, cfg.registry[name].maxRetries);
        SilentFallbacks(cfg, RouterModel.Reported(health, name, Health.Fail, at(made)), rest, made + 1, at);
      }
    }
  }

  lemma SilentForward(g: Deployment, s: State, req: ChatRequest, t: Readings)
    requires g.Valid()
    ensures !Forward(g.cfg, g.plat, s, req, t, Silence()).1.Served?
  {
    var (s1, d) := Pick(g.cfg, g.plat, s, req);
    if d.provider != "" && d.provider in g.cfg.registry {
      SilenceThrows(0, 0, g.cfg.registry[d.provider].maxRetries);
      SilentFallbacks(g.cfg, RouterModel.Reported(s1.router.health, d.provider, Health.Fail, t.reports(0)),
                      d.fallbacks, 1, t.reports);
    }
  }

  /** Then no request is served, though it may be refused or answered from the cache. */
  lemma SilenceServesNone(g: Deployment, s: State, req: ChatRequest, t: Readings)
    requires g.Valid()
    ensures !Handle(g.cfg, g.plat, s, req, t, Silence()).1.Served?
  {
    if Misses(g, s, req, t) {
      RequestForwards(g, s, req, t, Silence());
      SilentForward(g, LookUp(g.cfg, g.plat, Admit(g.cfg, Begun(s), req, t).0, req, t).0, req, t);
    }
  }

  // ----- The exception is reached -------------------------------------------------------------

  function Repeat(e: Event, count: nat): seq<Event> {
    seq(count, i => e)
  }

  /** As long as the router knows of no provider but p, it sends the model to p alone, whatever p's health. */
  ghost predicate Steers(g: Deployment, model: string, p: string) {
    forall r: RouterModel.State :: r.strategy == g.strategy && r.health.Keys <= {p} ==>
      var d := RouterModel.Route(g.cfg.router, g.plat.lib, r, model).0; d.provider == p && d.fallbacks == []
  }

  /** An unlimited request that is sent to p alone. */
  ghost predicate SentTo(g: Deployment, e: Event, p: string) {
    e.Request? && e.req.apiKey == "" && Steers(g, e.req.model, p) && p != "" && p in g.cfg.registry
  }

  /** The state of a gateway that has seen nothing but k failed calls of p. */
  ghost predicate OnlyFailed(g: Deployment, s: State, p: string, k: nat) {
    s.cache.entries == [] && s.router.strategy == g.strategy && FailedTimes(s.router.health, p, k)
  }

  ghost predicate FailedTimes(health: HealthMap, p: string, k: nat) {
    health.Keys == (if k == 0 then {} else {p})
    && Health.Unstamped(RouterModel.HealthOf(health, p)) == Health.Run(Health.UNSEEN, Health.Fails(k))
  }

  lemma OneMoreFail(health: HealthMap, p: string, at: int, k: nat)
    requires FailedTimes(health, p, k)
    ensures FailedTimes(RouterModel.Reported(health, p, Health.Fail, at), p, k + 1)
  {
    assert Health.Fails(k + 1)[..k] == Health.Fails(k);
  }

  lemma EmptyCacheMisses(g: Deployment, s: State, req: ChatRequest, t: Readings)
    requires g.Valid() && req.apiKey == "" && s.cache.entries == []
    ensures Misses(g, s, req, t)
    ensures LookUp(g.cfg, g.plat, Admit(g.cfg, Begun(s), req, t).0, req, t).0.cache.entries == []
  {}

  lemma FailedDispatch(cfg: Config, health: HealthMap, d: RouterModel.Decision, at: nat -> int, world: World)
    requires d.provider in cfg.registry && d.fallbacks == []
    requires Retry.Call(world(0), cfg.registry[d.provider].maxRetries).Threw?
    ensures var (h, _, resp) := Dispatch(cfg, health, d, at, world);
      resp.None? && h == RouterModel.Reported(health, d.provider, Health.Fail, at(0))
  {}

  lemma FailedForward(g: Deployment, s: State, e: Event, p: string)
    requires g.Valid() && SentTo(g, e, p) && !CallReturns(g, e.world, p)
    requires s.router.strategy == g.strategy && s.router.health.Keys <= {p}
    ensures var s' := Forward(g.cfg, g.plat, s, e.req, e.t, e.world).0;
      s'.cache == s.cache && s'.router.strategy == s.router.strategy
      && s'.router.health == RouterModel.Reported(s.router.health, p, Health.Fail, e.t.reports(0))
  {
    var (s1, d) := Pick(g.cfg, g.plat, s, e.req);
    assert d.provider == p && d.fallbacks == [];
    FailedDispatch(g.cfg, s1.router.health, d, e.t.reports, e.world);
  }

  lemma FailedStep(g: Deployment, s: State, e: Event, p: string, k: nat)
    requires g.Valid() && SentTo(g, e, p) && !CallReturns(g, e.world, p) && OnlyFailed(g, s, p, k)
    ensures OnlyFailed(g, Handle(g.cfg, g.plat, s, e.req, e.t, e.world).0, p, k + 1)
  {
    var s2 := LookUp(g.cfg, g.plat, Admit(g.cfg, Begun(s), e.req, e.t).0, e.req, e.t).0;
    EmptyCacheMisses(g, s, e.req, e.t);
    RequestForwards(g, s, e.req, e.t, e.world);
    FailedForward(g, s2, e, p);
    OneMoreFail(s.router.health, p, e.t.reports(0), k);
  }

  lemma {:induction false} FailedRun(g: Deployment, e: Event, p: string, k: nat)
    requires g.Valid() && SentTo(g, e, p) && !CallReturns(g, e.world, p)
    ensures OnlyFailed(g, Run(g, Repeat(e, k)), p, k)
  {
    if k > 0 {
      FailedRun(g, e, p, k - 1);
      assert Repeat(e, k)[..k - 1] == Repeat(e, k - 1);
      FailedStep(g, Run(g, Repeat(e, k - 1)), e, p, k - 1);
    }
  }

  /** Some runs do reach the exception: after six failed requests to one provider it is unavailable, the next
      request sent to it still calls it, and that call puts it back if and only if it returns. */
  lemma SixFailuresThenCalled(g: Deployment, failing: Event, next: Event, p: string)
    requires g.Valid() && SentTo(g, failing, p) && SentTo(g, next, p) && !CallReturns(g, failing.world, p)
    ensures var s := Run(g, Repeat(failing, 6));
      var (s', _, calls) := Handle(g.cfg, g.plat, s, next.req, next.t, next.world);
      p in Unavailable(s) && Called(calls) == [p] && (p !in Unavailable(s') <==> CallReturns(g, next.world, p))
  {
    var s, req, t := Run(g, Repeat(failing, 6)), next.req, next.t;
    FailedRun(g, failing, p, 6);
    assert p in Unavailable(s) by {
      Health.SixTripFiveDoNot(Health.UNSEEN, []);
    }
    EmptyCacheMisses(g, s, req, t);
    Routing.UnavailableIsForced(g.cfg.router, g.plat.lib, s.router, req.model, p);
    RequestIsForced(g, s, req, t, next.world, p);
    RequestForwards(g, s, req, t, next.world);
    ForwardCallsAtMost(g, LookUp(g.cfg, g.plat, Admit(g.cfg, Begun(s), req, t).0, req, t).0, req, t, next.world);
  }

  /** Pinning sends a model to one provider in this sense. */
  lemma PinnedSteers(g: Deployment, model: string, p: string)
    requires g.Valid() && RouterModel.Pinned(g.cfg.router, model)
    requires var resolved := RouterModel.Resolve(g.cfg.router, model); p == resolved[..RouterModel.Colon(resolved)]
    ensures Steers(g, model, p)
  {
    forall r: RouterModel.State | r.strategy == g.strategy && r.health.Keys <= {p}
      ensures var d := RouterModel.Route(g.cfg.router, g.plat.lib, r, model).0; d.provider == p && d.fallbacks == []
    {
      Routing.PinnedFallbacks(g.cfg.router, g.plat.lib, r, model);
      var d := RouterModel.Route(g.cfg.router, g.plat.lib, r, model).0;
      if d.fallbacks != [] {
        SomeMember(d.fallbacks);
      }
    }
  }

  /** The configuration has one provider, enabled and with models. */
  predicate OnlyProvider(g: Deployment, p: string) {
    var ps := g.cfg.router.providers;
    |ps| == 1 && ps[0].name == p && ps[0].enabled && ps[0].models != []
  }

  /** So does the cost strategy with a single provider. */
  lemma CostSteers(g: Deployment, model: string, p: string)
    requires g.strategy == RouterModel.CostOptimized && OnlyProvider(g, p)
    requires !RouterModel.Pinned(g.cfg.router, model)
    ensures Steers(g, model, p)
  {
    var cfg := g.cfg.router;
    forall r: RouterModel.State | r.strategy == g.strategy && r.health.Keys <= {p}
      ensures var d := RouterModel.Route(cfg, g.plat.lib, r, model).0; d.provider == p && d.fallbacks == []
    {
      Routing.OnlyProviderIsChosen(cfg, r.health);
    }
  }

  /** With one provider under the cost strategy, six failed requests bring the last resort down, and the
      seventh request calls that provider all the same. */
  lemma LastResortIsReached(g: Deployment, failing: Event, next: Event, p: string)
    requires g.Valid() && g.strategy == RouterModel.CostOptimized && OnlyProvider(g, p)
    requires failing.Request? && failing.req.apiKey == "" && !RouterModel.Pinned(g.cfg.router, failing.req.model)
    requires next.Request? && next.req.apiKey == "" && !RouterModel.Pinned(g.cfg.router, next.req.model)
    requires p != "" && p in g.cfg.registry && !CallReturns(g, failing.world, p)
    ensures var s := Run(g, Repeat(failing, 6));
      Routing.LastResortIsDown(g.cfg.router, s.router.health)
      && Called(Handle(g.cfg, g.plat, s, next.req, next.t, next.world).2) == [p]
  {
    CostSteers(g, failing.req.model, p);
    CostSteers(g, next.req.model, p);
    SixFailuresThenCalled(g, failing, next, p);
    FailedRun(g, failing, p, 6);
    var s := Run(g, Repeat(failing, 6));
    Routing.UnavailableIsForced(g.cfg.router, g.plat.lib, s.router, next.req.model, p);
  }

  /** With a model pinned to a provider, six failed requests make it unavailable, and a seventh that is
      answered calls it and puts it back. */
  lemma PinnedIsReached(g: Deployment, failing: Event, next: Event, p: string)
    requires g.Valid() && failing.Request? && next.Request? && next == failing.(world := next.world)
    requires failing.req.apiKey == "" && RouterModel.Pinned(g.cfg.router, failing.req.model)
    requires var resolved := RouterModel.Resolve(g.cfg.router, failing.req.model);
      p == resolved[..RouterModel.Colon(resolved)]
    requires p != "" && p in g.cfg.registry && !CallReturns(g, failing.world, p) && CallReturns(g, next.world, p)
    ensures var six := Repeat(failing, 6);
      p in Unavailable(Run(g, six)) && p !in Unavailable(Run(g, six + [next]))
      && Called(Handle(g.cfg, g.plat, Run(g, six), next.req, next.t, next.world).2) == [p]
  {
    PinnedSteers(g, failing.req.model, p);
    SixFailuresThenCalled(g, failing, next, p);
    assert (Repeat(failing, 6) + [next])[..6] == Repeat(failing, 6);
  }
}
