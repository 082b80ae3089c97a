/** What the other files assume of the runtime library can be met, and their hypotheses on runs too. */
module Witness {
  import opened Types
  import opened GatewayModel
  import opened GatewayRuns
  import GatewayCalls
  import CacheModel
  import LimiterModel
  import RouterModel
  import Routing
  import Metrics

  // ----- Sorting ---------------------------------------------------------------------------

  ghost predicate Falling<T>(s: seq<T>, key: T -> real) {
    forall i, j :: 0 <= i < j < |s| ==> key(s[i]) >= key(s[j])
  }

  function Insert<T>(x: T, s: seq<T>, key: T -> real): seq<T> {
    if s == [] || key(x) >= key(s[0]) then [x] + s else [s[0]] + Insert(x, s[1..], key)
  }

  function Sort<T>(s: seq<T>, key: T -> real): seq<T> {
    if s == [] then [] else Insert(s[0], Sort(s[1..], key), key)
  }

  lemma PrependFalling<T>(x: T, s: seq<T>, key: T -> real)
    requires Falling(s, key) && (s != [] ==> key(x) >= key(s[0]))
    ensures Falling([x] + s, key)
  {
    var all := [x] + s;
    forall i, j | 0 <= i < j < |all| ensures key(all[i]) >= key(all[j]) {
      assert all[j] == s[j - 1] && (j > 1 ==> key(s[0]) >= key(s[j - 1]));
    }
  }

  lemma {:induction false} InsertInserts<T>(x: T, s: seq<T>, key: T -> real)
    ensures multiset(Insert(x, s, key)) == multiset{x} + multiset(s)
  {
    if s != [] && key(x) < key(s[0]) {
      InsertInserts(x, s[1..], key);
      assert s == [s[0]] + s[1..];
    }
  }

  lemma {:induction false} InsertKeepsOrder<T>(x: T, s: seq<T>, key: T -> real)
    requires Falling(s, key)
    ensures Falling(Insert(x, s, key), key)
    ensures Insert(x, s, key) != [] && (Insert(x, s, key)[0] == x || (s != [] && Insert(x, s, key)[0] == s[0]))
  {
    if s == [] || key(x) >= key(s[0]) {
      PrependFalling(x, s, key);
    } else {
      InsertKeepsOrder(x, s[1..], key);
      PrependFalling(s[0], Insert(x, s[1..], key), key);
    }
  }

  lemma {:induction false} SortSorts<T>(s: seq<T>, key: T -> real)
    ensures Falling(Sort(s, key), key) && multiset(Sort(s, key)) == multiset(s)
  {
    if s != [] {
      SortSorts(s[1..], key);
      InsertKeepsOrder(s[0], Sort(s[1..], key), key);
      InsertInserts(s[0], Sort(s[1..], key), key);
      assert s == [s[0]] + s[1..];
    }
  }

  // ----- Listing a set ---------------------------------------------------------------------

  ghost function Listing(names: set<string>): seq<string> {
    if names == {} then [] else var x :| x in names; [x] + Listing(names - {x})
  }

  lemma {:induction false} ListingLists(names: set<string>)
    ensures |Listing(names)| == |names| && forall x :: x in Listing(names) <==> x in names
  {
    if names != {} {
      var x :| x in names && Listing(names) == [x] + Listing(names - {x});
      ListingLists(names - {x});
    }
  }

  // ----- The library -------------------------------------------------------------------------

  ghost function TheLibrary(): RouterModel.Library {
    RouterModel.Library((cs: seq<RouterModel.Candidate>) => Sort(cs, (c: RouterModel.Candidate) => c.score),
                        (names: set<string>) => Listing(names))
  }

  /** An insertion sort and a listing of a set meet the contract the router relies on. */
  lemma LibraryIsValid()
    ensures TheLibrary().Valid()
  {
    var lib, key := TheLibrary(), (c: RouterModel.Candidate) => c.score;
    forall cs: seq<RouterModel.Candidate>
      ensures RouterModel.Descending(lib.sort(cs)) && multiset(lib.sort(cs)) == multiset(cs)
    {
      SortSorts(cs, key);
      assert lib.sort(cs) == Sort(cs, key);
    }
    forall names: set<string>
      ensures |lib.listing(names)| == |names| && forall x :: x in lib.listing(names) <==> x in names
    {
      ListingLists(names);
    }
  }

  /** And an insertion sort meets the one the latency percentile relies on. */
  lemma SortExists()
    ensures exists sort: seq<real> -> seq<real> :: Metrics.Sorts(sort)
  {
    var key := (x: real) => -x;
    var sort := (s: seq<real>) => Sort(s, key);
    forall s: seq<real> ensures Metrics.Ascending(sort(s)) && multiset(sort(s)) == multiset(s) {
      SortSorts(s, key);
      assert sort(s) == Sort(s, key);
    }
    assert Metrics.Sorts(sort);
  }

  // ----- A gateway -----------------------------------------------------------------------------

  /** One provider, priced as by default, under the cost strategy. */
  ghost function SmallGateway(): Deployment {
    var provider := RouterModel.ProviderConfig("groq", 1, true, ["llama-3.1-8b-instant"]);
    Deployment(
      Config(CacheModel.CacheConfig(true, 3600, 100, true), LimiterModel.LimitConfig(60, 100_000),
             RouterModel.RouterConfig([provider], map["groq:llama-3.1-8b-instant" := Pricing(0.00005, 0.00008)], map[]),
             map["groq" := ProviderInfo(["llama-3.1-8b-instant"], 2)]),
      Platform(TheLibrary(), x => "", s => 0), RouterModel.CostOptimized)
  }

  ghost function Ask(world: World): Event {
    Request(ChatRequest("", "", "llama-3.1-8b-instant", [Message("user", "")], 0.7, 1024, false),
            Readings(0, 0, 0, 0, 0, i => 0, 0, 0, 0), world)
  }

  lemma SmallGatewayIsSmall()
    ensures var g := SmallGateway();
      g.Valid() && g.strategy == RouterModel.CostOptimized && GatewayCalls.OnlyProvider(g, "groq")
      && "groq" in g.cfg.registry && !RouterModel.Pinned(g.cfg.router, "llama-3.1-8b-instant")
  {
    LibraryIsValid();
    assert forall i :: 0 <= i < |"llama-3.1-8b-instant"| ==> "llama-3.1-8b-instant"[i] != ':';
  }

  /** Six unanswered requests bring its last resort down, and the next one calls it all the same. */
  lemma SmallGatewayReachesIt(world: World)
    ensures var g, six, next := SmallGateway(), GatewayCalls.Repeat(Ask(GatewayCalls.Silence()), 6), Ask(world);
      g.Valid() && Routing.LastResortIsDown(g.cfg.router, Run(g, six).router.health)
      && GatewayCalls.Called(Handle(g.cfg, g.plat, Run(g, six), next.req, next.t, world).2) == ["groq"]
  {
    var g := SmallGateway();
    SmallGatewayIsSmall();
    GatewayCalls.SilenceThrows(0, 0, g.cfg.registry["groq"].maxRetries);
    CallsItAllTheSame(g, Ask(GatewayCalls.Silence()), Ask(world));
  }

  lemma CallsItAllTheSame(g: Deployment, failing: Event, next: Event)
    requires g.Valid() && g.strategy == RouterModel.CostOptimized && GatewayCalls.OnlyProvider(g, "groq")
    requires failing.Request? && failing.req.apiKey == "" && failing.req.model == "llama-3.1-8b-instant"
    requires next.Request? && next.req.apiKey == "" && next.req.model == "llama-3.1-8b-instant"
    requires "groq" in g.cfg.registry && !RouterModel.Pinned(g.cfg.router, "llama-3.1-8b-instant")
    requires !GatewayCalls.CallReturns(g, failing.world, "groq")
    ensures var s := Run(g, GatewayCalls.Repeat(failing, 6));
      Routing.LastResortIsDown(g.cfg.router, s.router.health)
      && GatewayCalls.Called(Handle(g.cfg, g.plat, s, next.req, next.t, next.world).2) == ["groq"]
  {
    GatewayCalls.LastResortIsReached(g, failing, next, "groq");
  }
}
