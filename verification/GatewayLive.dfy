/** The live gateway over runs: what the run theorems say of `Run` holds of the objects. */
module GatewayLive {
  import opened Types
  import opened GatewayModel
  import opened Gateway
  import opened GatewayRuns
  import GatewayTraffic
  import RouterModel
  import CacheModel

  /** One event, on the live objects. */
  method Perform(g: Gateway, ghost d: Deployment, e: Event) returns (reply: Option<Reply>)
    requires g.Valid() && d.cfg == g.cfg && d.plat == g.plat
    modifies g.cache.Repr, g.limiter.Repr, g.router, g.tracker, g.metrics
    ensures g.Valid()
    ensures fresh(g.cache.Repr - old(g.cache.Repr)) && fresh(g.limiter.Repr - old(g.limiter.Repr))
    ensures g.Abs() == Step(d, old(g.Abs()), e) && reply == ReplyOf(d, old(g.Abs()), e)
  {
    match e
    case Request(req, t, world) =>
      var r, calls := g.Handle(req, t, world);
      reply := Some(r);
    case Malformed =>
      g.RejectMalformed();
      reply := None;
    case CacheCleared =>
      g.ClearCache();
      reply := None;
    case StrategySet(strategy) =>
      g.SetStrategy(strategy);
      reply := None;
    case PriceSet(model, provider, pricing) =>
      g.SetPricing(model, provider, pricing);
      reply := None;
  }

  /** A gateway from its start through a run: its objects and its answers are those of the specified run. */
  method Serve(cfg: Config, plat: Platform, strategy: RouterModel.Strategy, startTime: int, es: seq<Event>)
    returns (g: Gateway, replies: seq<Option<Reply>>)
    requires CacheModel.CanStore(cfg.cache) && plat.lib.Valid()
    ensures g.Valid() && g.cfg == cfg && g.plat == plat
    ensures g.Abs() == Run(Deployment(cfg, plat, strategy), es)
    ensures replies == GatewayTraffic.Replies(Deployment(cfg, plat, strategy), es)
  {
    ghost var d := Deployment(cfg, plat, strategy);
    g := new Gateway(cfg, plat, strategy, startTime);
    replies := [];
    for i := 0 to |es|
      invariant g.Valid() && g.cfg == cfg && g.plat == plat
      invariant fresh(g.cache.Repr) && fresh(g.limiter.Repr)
      invariant fresh(g.router) && fresh(g.tracker) && fresh(g.metrics)
      invariant g.Abs() == Run(d, es[..i]) && replies == GatewayTraffic.Replies(d, es[..i])
    {
      assert es[..i + 1][..i] == es[..i];
      var reply := Perform(g, d, es[i]);
      replies := replies + [reply];
    }
    assert es[..|es|] == es;
  }
}
