/** The gateway's rate limit and cache, seen from the outside over runs of requests. */
module GatewayTraffic {
  import opened Types
  import opened GatewayModel
  import opened GatewayRuns
  import opened Seqs
  import CacheModel
  import CacheRuns
  import LimiterModel
  import LimiterRuns
  import TokenCounter

  // ----- The clock ----------------------------------------------------------------------

  predicate Ordered(t: Readings) {
    t.created <= t.window <= t.hint <= t.check <= t.touch <= t.charged <= t.sweep <= t.insert
  }

  /** The latest clock reading any event of the run may have made. */
  function Clock(es: seq<Event>, start: int): int {
    if es == [] then start
    else if es[|es| - 1].Request? then es[|es| - 1].t.insert
    else Clock(es[..|es| - 1], start)
  }

  /** Requests are handled one after the other and the clock never runs backwards. */
  ghost predicate Timed(es: seq<Event>, start: int) {
    es == [] ||
    (var before, e := es[..|es| - 1], es[|es| - 1];
     Timed(before, start) && (e.Request? ==> Ordered(e.t) && Clock(before, start) <= e.t.created))
  }

  // ----- What the limiter sees ------------------------------------------------------------

  /** The limiter operations of a request with an API key. */
  function OpsOf(req: ChatRequest, t: Readings, r: Reply): (ops: seq<LimiterRuns.Op>)
    ensures 1 <= |ops| <= 2 && ops[0].CheckOp? && ops[0].now == t.window && (|ops| == 2 ==> ops[1].RecordOp?)
  {
    [LimiterRuns.CheckOp(TokenCounter.CountMessages(req.messages), t.created, t.window, t.hint)]
    + (if r.Served? then [LimiterRuns.RecordOp(r.response.totalTokens, t.charged)] else [])
  }

  function LimiterOpsOf(req: ChatRequest, t: Readings, r: Reply): (ops: seq<LimiterRuns.KeyedOp>)
    ensures req.apiKey != "" ==> |ops| == |OpsOf(req, t, r)|
    ensures forall i :: 0 <= i < |ops| ==> i < 2 && ops[i].key == req.apiKey
    ensures req.apiKey != "" ==> forall i :: 0 <= i < |ops| ==> ops[i].op == OpsOf(req, t, r)[i]
  {
    var ops := OpsOf(req, t, r);
    if req.apiKey == "" then []
    else if |ops| == 1 then [LimiterRuns.KeyedOp(req.apiKey, ops[0])]
    else [LimiterRuns.KeyedOp(req.apiKey, ops[0]), LimiterRuns.KeyedOp(req.apiKey, ops[1])]
  }

  function LimiterOps(g: Deployment, es: seq<Event>): seq<LimiterRuns.KeyedOp>
    requires g.Valid()
  {
    if es == [] then []
    else
      var e := es[|es| - 1];
      LimiterOps(g, es[..|es| - 1])
      + (if e.Request? then LimiterOpsOf(e.req, e.t, LastReply(g, es).value) else [])
  }

  lemma ForwardBuckets(g: Deployment, s: State, req: ChatRequest, t: Readings, world: World)
    requires g.Valid()
    ensures var (s', r, _) := Forward(g.cfg, g.plat, s, req, t, world);
      !r.RateLimited? && !r.FromCache? &&
      s'.buckets == if r.Served? && req.apiKey != ""
        then LimiterModel.Record(s.buckets, g.cfg.limits, req.apiKey, r.response.totalTokens, t.charged)
        else s.buckets
  {}

  lemma RequestBuckets(g: Deployment, s: State, req: ChatRequest, t: Readings, world: World)
    requires g.Valid() && req.apiKey != ""
    ensures var (s', r, _) := Handle(g.cfg, g.plat, s, req, t, world);
      var (buckets, result) := LimiterModel.Check(s.buckets, g.cfg.limits, req.apiKey,
        TokenCounter.CountMessages(req.messages), t.created, t.window, t.hint);
      (r.RateLimited? <==> !result.allowed)
      && (r.RateLimited? ==> r.result == result)
      && s'.buckets == if r.Served?
        then LimiterModel.Record(buckets, g.cfg.limits, req.apiKey, r.response.totalTokens, t.charged)
        else buckets
  {
    var (s1, denied) := Admit(g.cfg, Begun(s), req, t);
    var s2 := LookUp(g.cfg, g.plat, s1, req, t).0;
    assert s2.buckets == s1.buckets;
    if denied.None? {
      ForwardBuckets(g, s2, req, t, world);
    }
  }

  lemma AnonymousBuckets(g: Deployment, s: State, req: ChatRequest, t: Readings, world: World)
    requires g.Valid() && req.apiKey == ""
    ensures Handle(g.cfg, g.plat, s, req, t, world).0.buckets == s.buckets
    ensures !Handle(g.cfg, g.plat, s, req, t, world).1.RateLimited?
  {
    ForwardBuckets(g, LookUp(g.cfg, g.plat, Begun(s), req, t).0, req, t, world);
  }

  lemma RunAllSnoc(cfg: LimiterModel.LimitConfig, a: seq<LimiterRuns.KeyedOp>, b: LimiterRuns.KeyedOp)
    ensures LimiterRuns.RunAll(cfg, a + [b]) == LimiterRuns.StepAll(LimiterRuns.RunAll(cfg, a), cfg, b).0
  {
    assert (a + [b])[..|a|] == a;
  }

  /** The one or two limiter operations of a keyed request, applied to the buckets. */
  lemma RunAllRequest(cfg: LimiterModel.LimitConfig, ops: seq<LimiterRuns.KeyedOp>,
                      req: ChatRequest, t: Readings, r: Reply)
    requires req.apiKey != ""
    ensures var checked := LimiterModel.Check(LimiterRuns.RunAll(cfg, ops), cfg, req.apiKey,
        TokenCounter.CountMessages(req.messages), t.created, t.window, t.hint).0;
      LimiterRuns.RunAll(cfg, ops + LimiterOpsOf(req, t, r)) ==
        if r.Served? then LimiterModel.Record(checked, cfg, req.apiKey, r.response.totalTokens, t.charged)
        else checked
  {
    var more := LimiterOpsOf(req, t, r);
    AppendOneByOne(ops, more);
    RunAllSnoc(cfg, ops, more[0]);
    if |more| == 2 {
      RunAllSnoc(cfg, ops + [more[0]], more[1]);
    }
  }

  lemma BucketsStep(g: Deployment, s: State, e: Event, ops: seq<LimiterRuns.KeyedOp>)
    requires g.Valid() && s.buckets == LimiterRuns.RunAll(g.cfg.limits, ops)
    ensures Step(g, s, e).buckets == LimiterRuns.RunAll(g.cfg.limits,
      ops + (if e.Request? then LimiterOpsOf(e.req, e.t, ReplyOf(g, s, e).value) else []))
  {
    assert ops + [] == ops;
    if e.Request? {
      if e.req.apiKey == "" {
        AnonymousBuckets(g, s, e.req, e.t, e.world);
      } else {
        RequestBuckets(g, s, e.req, e.t, e.world);
        RunAllRequest(g.cfg.limits, ops, e.req, e.t, ReplyOf(g, s, e).value);
      }
    }
  }

  /** The buckets are those of the limiter run on its own. */
  lemma {:induction false} BucketsProject(g: Deployment, es: seq<Event>)
    requires g.Valid()
    ensures Run(g, es).buckets == LimiterRuns.RunAll(g.cfg.limits, LimiterOps(g, es))
  {
    if es != [] {
      var before, e := es[..|es| - 1], es[|es| - 1];
      BucketsProject(g, before);
      BucketsStep(g, Run(g, before), e, LimiterOps(g, before));
    }
  }

  /** Requests of one key that got past the limiter at times in [from, to). */
  function Passed(g: Deployment, es: seq<Event>, apiKey: string, from: int, to: int): nat
    requires g.Valid()
  {
    if es == [] then 0
    else
      var e := es[|es| - 1];
      Passed(g, es[..|es| - 1], apiKey, from, to)
      + (if e.Request? && e.req.apiKey == apiKey && !LastReply(g, es).value.RateLimited?
            && from <= e.t.window < to then 1 else 0)
  }

  lemma OnlySnoc(ops: seq<LimiterRuns.KeyedOp>, k: LimiterRuns.KeyedOp, key: string)
    ensures LimiterRuns.Only(ops + [k], key)
         == if k.key == key then LimiterRuns.Only(ops, key) + [k.op] else LimiterRuns.Only(ops, key)
  {
    assert (ops + [k])[..|ops|] == ops;
    assert LimiterRuns.Only(ops, key) + [] == LimiterRuns.Only(ops, key);
  }

  lemma OnlyMore(ops: seq<LimiterRuns.KeyedOp>, req: ChatRequest, t: Readings, r: Reply, apiKey: string)
    requires apiKey != ""
    ensures LimiterRuns.Only(ops + LimiterOpsOf(req, t, r), apiKey)
         == LimiterRuns.Only(ops, apiKey) + (if req.apiKey == apiKey then OpsOf(req, t, r) else [])
  {
    var more := LimiterOpsOf(req, t, r);
    AppendOneByOne(ops, more);
    AppendOneByOne(LimiterRuns.Only(ops, apiKey), if req.apiKey == apiKey then OpsOf(req, t, r) else []);
    if req.apiKey != "" {
      OnlySnoc(ops, more[0], apiKey);
      if |more| == 2 {
        OnlySnoc(ops + [more[0]], more[1], apiKey);
      }
    }
  }

  /** What one event adds to the operations of a key. */
  lemma OnlyStep(g: Deployment, es: seq<Event>, apiKey: string)
    requires g.Valid() && es != [] && apiKey != ""
    ensures var e := es[|es| - 1];
      LimiterRuns.Only(LimiterOps(g, es), apiKey)
        == LimiterRuns.Only(LimiterOps(g, es[..|es| - 1]), apiKey)
         + (if e.Request? && e.req.apiKey == apiKey then OpsOf(e.req, e.t, LastReply(g, es).value) else [])
  {
    var ops, e := LimiterOps(g, es[..|es| - 1]), es[|es| - 1];
    if e.Request? {
      OnlyMore(ops, e.req, e.t, LastReply(g, es).value, apiKey);
    } else {
      assert ops + [] == ops && LimiterRuns.Only(ops, apiKey) + [] == LimiterRuns.Only(ops, apiKey);
    }
  }

  lemma TimedSnoc(ops: seq<LimiterRuns.Op>, op: LimiterRuns.Op, start: int)
    requires LimiterRuns.Timed(ops, start) && LimiterRuns.InOrder(op, LimiterRuns.Now(ops, start))
    ensures LimiterRuns.Timed(ops + [op], start)
    ensures LimiterRuns.Now(ops + [op], start) == LimiterRuns.LastReading(op, LimiterRuns.Now(ops, start))
  {
    assert (ops + [op])[..|ops|] == ops;
  }

  lemma TimedMore(ops: seq<LimiterRuns.Op>, req: ChatRequest, t: Readings, r: Reply, start: int)
    requires LimiterRuns.Timed(ops, start) && LimiterRuns.NoReset(ops)
    requires Ordered(t) && LimiterRuns.Now(ops, start) <= t.created
    ensures var all := ops + OpsOf(req, t, r);
      LimiterRuns.Timed(all, start) && LimiterRuns.NoReset(all) && LimiterRuns.Now(all, start) <= t.insert
  {
    var more := OpsOf(req, t, r);
    AppendOneByOne(ops, more);
    TimedSnoc(ops, more[0], start);
    if |more| == 2 {
      TimedSnoc(ops + [more[0]], more[1], start);
    }
  }

  lemma {:induction false} KeyOpsTimed(g: Deployment, es: seq<Event>, apiKey: string, start: int)
    requires g.Valid() && apiKey != "" && Timed(es, start)
    ensures var ops := LimiterRuns.Only(LimiterOps(g, es), apiKey);
      LimiterRuns.Timed(ops, start) && LimiterRuns.NoReset(ops) && LimiterRuns.Now(ops, start) <= Clock(es, start)
  {
    if es != [] {
      var before, e := es[..|es| - 1], es[|es| - 1];
      KeyOpsTimed(g, before, apiKey, start);
      OnlyStep(g, es, apiKey);
      var ops := LimiterRuns.Only(LimiterOps(g, before), apiKey);
      if e.Request? && e.req.apiKey == apiKey {
        TimedMore(ops, e.req, e.t, LastReply(g, es).value, start);
      } else {
        assert ops + [] == ops;
      }
    }
  }

  lemma AdmittedSnoc(cfg: LimiterModel.LimitConfig, ops: seq<LimiterRuns.Op>, op: LimiterRuns.Op, from: int, to: int)
    ensures LimiterRuns.AdmittedIn(cfg, ops + [op], from, to)
         == LimiterRuns.AdmittedIn(cfg, ops, from, to)
          + (if LimiterRuns.Admitted(LimiterRuns.RunKey(cfg, ops), cfg, op) && from <= op.now < to then 1 else 0)
  {
    assert (ops + [op])[..|ops|] == ops;
  }

  lemma AdmittedMore(cfg: LimiterModel.LimitConfig, ops: seq<LimiterRuns.Op>, more: seq<LimiterRuns.Op>,
                     from: int, to: int)
    requires 1 <= |more| <= 2 && more[0].CheckOp? && (|more| == 2 ==> more[1].RecordOp?)
    ensures LimiterRuns.AdmittedIn(cfg, ops + more, from, to)
        == LimiterRuns.AdmittedIn(cfg, ops, from, to)
         + (if LimiterRuns.Admitted(LimiterRuns.RunKey(cfg, ops), cfg, more[0]) && from <= more[0].now < to
            then 1 else 0)
  {
    AppendOneByOne(ops, more);
    AdmittedSnoc(cfg, ops, more[0], from, to);
    if |more| == 2 {
      AdmittedSnoc(cfg, ops + [more[0]], more[1], from, to);
    }
  }

  /** A request gets past exactly when its key's own bucket admits it. */
  lemma PassedIsAdmitted(g: Deployment, s: State, e: Event, ops: seq<LimiterRuns.KeyedOp>)
    requires g.Valid() && e.Request? && e.req.apiKey != ""
    requires s.buckets == LimiterRuns.RunAll(g.cfg.limits, ops)
    ensures var r := ReplyOf(g, s, e).value;
      !r.RateLimited? <==> LimiterRuns.Admitted(
        LimiterRuns.RunKey(g.cfg.limits, LimiterRuns.Only(ops, e.req.apiKey)), g.cfg.limits, OpsOf(e.req, e.t, r)[0])
  {
    var key, check := e.req.apiKey, OpsOf(e.req, e.t, AllFailed)[0];
    LimiterRuns.BucketsAreIndependent(g.cfg.limits, ops, key);
    RequestBuckets(g, s, e.req, e.t, e.world);
    LimiterRuns.StepAllIsLocal(s.buckets, g.cfg.limits, LimiterRuns.KeyedOp(key, check), key);
  }

  lemma PassedStep(g: Deployment, es: seq<Event>, from: int, to: int)
    requires g.Valid() && es != [] && es[|es| - 1].Request? && es[|es| - 1].req.apiKey != ""
    ensures var before, e, r := es[..|es| - 1], es[|es| - 1], LastReply(g, es).value;
      var ops := LimiterRuns.Only(LimiterOps(g, before), e.req.apiKey);
      LimiterRuns.AdmittedIn(g.cfg.limits, ops + OpsOf(e.req, e.t, r), from, to)
        == LimiterRuns.AdmittedIn(g.cfg.limits, ops, from, to)
         + (if !r.RateLimited? && from <= e.t.window < to then 1 else 0)
  {
    var before, e := es[..|es| - 1], es[|es| - 1];
    BucketsProject(g, before);
    PassedIsAdmitted(g, Run(g, before), e, LimiterOps(g, before));
    AdmittedMore(g.cfg.limits, LimiterRuns.Only(LimiterOps(g, before), e.req.apiKey),
                 OpsOf(e.req, e.t, LastReply(g, es).value), from, to);
  }

  /** The limiter's admissions are the requests not answered 429. */
  lemma {:induction false} PassedAreAdmitted(g: Deployment, es: seq<Event>, apiKey: string, from: int, to: int)
    requires g.Valid() && apiKey != ""
    ensures Passed(g, es, apiKey, from, to)
         == LimiterRuns.AdmittedIn(g.cfg.limits, LimiterRuns.Only(LimiterOps(g, es), apiKey), from, to)
  {
    if es != [] {
      var before, e := es[..|es| - 1], es[|es| - 1];
      PassedAreAdmitted(g, before, apiKey, from, to);
      OnlyStep(g, es, apiKey);
      if e.Request? && e.req.apiKey == apiKey {
        PassedStep(g, es, from, to);
      } else {
        var ops := LimiterRuns.Only(LimiterOps(g, before), apiKey);
        assert ops + [] == ops;
      }
    }
  }

  /** End to end: in any interval, no more of a key's requests than the limiter's exact bound get an answer
      other than 429, whatever other keys, providers and the cache do. */
  lemma KeyTrafficBounded(g: Deployment, es: seq<Event>, apiKey: string, from: int, length: int, start: int)
    requires g.Valid() && apiKey != "" && Timed(es, start)
    ensures Passed(g, es, apiKey, from, from + length) <= LimiterRuns.MostAdmitted(g.cfg.limits, length)
  {
    PassedAreAdmitted(g, es, apiKey, from, from + length);
    KeyOpsTimed(g, es, apiKey, start);
    LimiterRuns.AdmissionsBounded(g.cfg.limits, LimiterRuns.Only(LimiterOps(g, es), apiKey), from, length, start);
  }

  // ----- Tokens per window -----------------------------------------------------------------------

  /** What a key's last served request was admitted with, and what it was charged. */
  datatype Charge = Charge(estimate: nat, tokens: int)

  function LastCharge(g: Deployment, es: seq<Event>, apiKey: string): Option<Charge>
    requires g.Valid()
  {
    if es == [] then None
    else
      var e, r := es[|es| - 1], LastReply(g, es);
      if e.Request? && e.req.apiKey == apiKey && r.value.Served? then
        Some(Charge(TokenCounter.CountMessages(e.req.messages), r.value.response.totalTokens))
      else LastCharge(g, es[..|es| - 1], apiKey)
  }

  /** Nothing is counted in the key's window, or its last served request left the counter above the limit by
      no more than its charge exceeds its estimate. */
  predicate WithinCharge(cfg: LimiterModel.LimitConfig, b: Option<LimiterModel.Bucket>, c: Option<Charge>) {
    match b
    case None => true
    case Some(bucket) =>
      bucket.tpmLimit == cfg.tpm
      && (bucket.tokens == 0 || (c.Some? && bucket.tokens <= cfg.tpm - c.value.estimate + c.value.tokens))
  }

  /** One request of the key: a check, and the charge if it is served. */
  lemma ChargeStep(cfg: LimiterModel.LimitConfig, buckets: map<string, LimiterModel.Bucket>, key: string,
                   estimate: nat, t: Readings, tokens: int, last: Option<Charge>)
    requires estimate > 0 && WithinCharge(cfg, LimiterRuns.At(buckets, key), last)
    ensures var (checked, r) := LimiterModel.Check(buckets, cfg, key, estimate, t.created, t.window, t.hint);
      WithinCharge(cfg, LimiterRuns.At(checked, key), last)
      && (r.allowed ==>
            var charged := LimiterModel.Record(checked, cfg, key, tokens, t.charged);
            WithinCharge(cfg, LimiterRuns.At(charged, key), Some(Charge(estimate, tokens))))
  {}

  lemma {:induction false} EstimateAtLeastTwo(ms: seq<Message>)
    ensures TokenCounter.CountMessages(ms) >= 2
  {
    if ms != [] {
      EstimateAtLeastTwo(ms[..|ms| - 1]);
    }
  }

  /** A request of another key leaves the bucket alone. */
  lemma OthersKeepBucket(g: Deployment, s: State, e: Event, apiKey: string)
    requires g.Valid() && e.Request? && e.req.apiKey != apiKey
    ensures LimiterRuns.At(Step(g, s, e).buckets, apiKey) == LimiterRuns.At(s.buckets, apiKey)
  {
    if e.req.apiKey == "" {
      AnonymousBuckets(g, s, e.req, e.t, e.world);
    } else {
      RequestBuckets(g, s, e.req, e.t, e.world);
    }
  }

  lemma RequestCharge(g: Deployment, s: State, e: Event, last: Option<Charge>)
    requires g.Valid() && e.Request? && e.req.apiKey != ""
    requires WithinCharge(g.cfg.limits, LimiterRuns.At(s.buckets, e.req.apiKey), last)
    ensures var r := ReplyOf(g, s, e).value;
      WithinCharge(g.cfg.limits, LimiterRuns.At(Step(g, s, e).buckets, e.req.apiKey),
        if r.Served? then Some(Charge(TokenCounter.CountMessages(e.req.messages), r.response.totalTokens)) else last)
  {
    var r := ReplyOf(g, s, e).value;
    EstimateAtLeastTwo(e.req.messages);
    RequestBuckets(g, s, e.req, e.t, e.world);
    ChargeStep(g.cfg.limits, s.buckets, e.req.apiKey, TokenCounter.CountMessages(e.req.messages), e.t,
               if r.Served? then r.response.totalTokens else 0, last);
  }

  lemma {:induction false} TokensWithinCharge(g: Deployment, es: seq<Event>, apiKey: string)
    requires g.Valid() && apiKey != ""
    ensures WithinCharge(g.cfg.limits, LimiterRuns.At(Run(g, es).buckets, apiKey), LastCharge(g, es, apiKey))
  {
    if es != [] {
      var before, e := es[..|es| - 1], es[|es| - 1];
      TokensWithinCharge(g, before, apiKey);
      if e.Request? {
        if e.req.apiKey == apiKey {
          RequestCharge(g, Run(g, before), e, LastCharge(g, before, apiKey));
        } else {
          OthersKeepBucket(g, Run(g, before), e, apiKey);
        }
      }
    }
  }

  /** After any run, the tokens counted in a key's window exceed its limit by less than the tokens of the one
      reply last served to it, whatever the providers report. */
  lemma TokensBounded(g: Deployment, es: seq<Event>, apiKey: string)
    requires g.Valid() && apiKey != "" && apiKey in Run(g, es).buckets
    ensures var tokens, last := Run(g, es).buckets[apiKey].tokens, LastCharge(g, es, apiKey);
      tokens == 0
      || (last.Some? && last.value.estimate >= 2
          && tokens <= g.cfg.limits.tpm - last.value.estimate + last.value.tokens)
  {
    TokensWithinCharge(g, es, apiKey);
    ChargedAtLeastTwo(g, es, apiKey);
  }

  lemma {:induction false} ChargedAtLeastTwo(g: Deployment, es: seq<Event>, apiKey: string)
    requires g.Valid()
    ensures var last := LastCharge(g, es, apiKey); last.Some? ==> last.value.estimate >= 2
  {
    if es != [] {
      ChargedAtLeastTwo(g, es[..|es| - 1], apiKey);
      if es[|es| - 1].Request? {
        EstimateAtLeastTwo(es[|es| - 1].req.messages);
      }
    }
  }

  // ----- What the cache sees ------------------------------------------------------------------

  /** At most a lookup and a store, read at these times. */
  predicate ReadAt(ops: seq<CacheRuns.Op>, t: Readings) {
    |ops| <= 2
    && (|ops| >= 1 ==> ops[0].Get? && ops[0].check == t.check && ops[0].touch == t.touch)
    && (|ops| == 2 ==> ops[1].Put? && ops[1].sweep == t.sweep && ops[1].insert == t.insert)
  }

  function CacheOpsOf(g: Deployment, req: ChatRequest, t: Readings, r: Reply): (ops: seq<CacheRuns.Op>)
    ensures ReadAt(ops, t)
  {
    var key, cc := Key(g.cfg, g.plat, req), g.cfg.cache;
    if r.RateLimited? then []
    else
      var get := CacheRuns.Get(key, req.requestId, t.check, t.touch);
      if r.Served? && !req.stream then
        [get, CacheRuns.Put(key, r.response, CacheModel.Capacity(cc), cc.ttlSeconds, t.sweep, t.insert)]
      else [get]
  }

  function EventOps(g: Deployment, e: Event, r: Option<Reply>): seq<CacheRuns.Op> {
    match e
    case Request(req, t, _) => if r.Some? then CacheOpsOf(g, req, t, r.value) else []
    case CacheCleared => [CacheRuns.Clear]
    case _ => []
  }

  function CacheOps(g: Deployment, es: seq<Event>): seq<CacheRuns.Op>
    requires g.Valid()
  {
    if es == [] then []
    else CacheOps(g, es[..|es| - 1]) + EventOps(g, es[|es| - 1], LastReply(g, es))
  }

  lemma ForwardCache(g: Deployment, s: State, req: ChatRequest, t: Readings, world: World)
    requires g.Valid()
    ensures var (s', r, _) := Forward(g.cfg, g.plat, s, req, t, world);
      !r.RateLimited? && !r.FromCache? &&
      s'.cache == if r.Served?
        then CacheModel.Put(s.cache, g.cfg.cache, Key(g.cfg, g.plat, req), r.response, req.stream, t.sweep, t.insert)
        else s.cache
  {}

  /** A request looks up the cache unless it is limited, and stores what it is served. */
  lemma RequestCache(g: Deployment, s: State, req: ChatRequest, t: Readings, world: World)
    requires g.Valid() && g.cfg.cache.enabled
    ensures var (s', r, _) := Handle(g.cfg, g.plat, s, req, t, world);
      var key := Key(g.cfg, g.plat, req);
      var (cache, hit) := CacheModel.Lookup(s.cache, key, req.requestId, t.check, t.touch);
      if r.RateLimited? then s'.cache == s.cache
      else
        (r.FromCache? <==> hit.Some?) && (r.FromCache? ==> Some(r.response) == hit)
        && s'.cache == if r.Served?
          then CacheModel.Put(cache, g.cfg.cache, key, r.response, req.stream, t.sweep, t.insert)
          else cache
  {
    var (s1, denied) := Admit(g.cfg, Begun(s), req, t);
    if denied.None? {
      ForwardCache(g, LookUp(g.cfg, g.plat, s1, req, t).0, req, t, world);
    }
  }

  lemma CacheSnoc(s0: CacheModel.State, ops: seq<CacheRuns.Op>, op: CacheRuns.Op)
    requires CacheRuns.Legal(ops) && (op.Put? ==> op.limit >= 1)
    ensures CacheRuns.Legal(ops + [op])
    ensures CacheRuns.Run(s0, ops + [op]) == CacheRuns.Apply(CacheRuns.Run(s0, ops), op)
  {
    assert (ops + [op])[..|ops|] == ops;
  }

  lemma CacheMore(g: Deployment, s0: CacheModel.State, ops: seq<CacheRuns.Op>, req: ChatRequest, t: Readings, r: Reply)
    requires g.Valid() && g.cfg.cache.enabled && CacheRuns.Legal(ops) && !r.RateLimited?
    ensures var all, key := ops + CacheOpsOf(g, req, t, r), Key(g.cfg, g.plat, req);
      var cache := CacheModel.Lookup(CacheRuns.Run(s0, ops), key, req.requestId, t.check, t.touch).0;
      CacheRuns.Legal(all)
      && CacheRuns.Run(s0, all) ==
        if r.Served? then CacheModel.Put(cache, g.cfg.cache, key, r.response, req.stream, t.sweep, t.insert)
        else cache
  {
    var more := CacheOpsOf(g, req, t, r);
    AppendOneByOne(ops, more);
    CacheSnoc(s0, ops, more[0]);
    if |more| == 2 {
      CacheSnoc(s0, ops + [more[0]], more[1]);
    }
  }

  lemma CacheStep(g: Deployment, s: State, e: Event, s0: CacheModel.State, ops: seq<CacheRuns.Op>)
    requires g.Valid() && g.cfg.cache.enabled && CacheRuns.Legal(ops) && s.cache == CacheRuns.Run(s0, ops)
    ensures var all := ops + EventOps(g, e, ReplyOf(g, s, e));
      CacheRuns.Legal(all) && Step(g, s, e).cache == CacheRuns.Run(s0, all)
  {
    assert ops + [] == ops;
    if e.Request? {
      RequestCache(g, s, e.req, e.t, e.world);
      var r := ReplyOf(g, s, e).value;
      if !r.RateLimited? {
        CacheMore(g, s0, ops, e.req, e.t, r);
      }
    } else if e.CacheCleared? {
      CacheSnoc(s0, ops, CacheRuns.Clear);
    }
  }

  /** The cache is that of the cache run on its own. */
  lemma {:induction false} CacheProjects(g: Deployment, es: seq<Event>)
    requires g.Valid() && g.cfg.cache.enabled
    ensures CacheRuns.Legal(CacheOps(g, es))
    ensures Run(g, es).cache == CacheRuns.Run(g.Start().cache, CacheOps(g, es))
  {
    if es != [] {
      var before, e := es[..|es| - 1], es[|es| - 1];
      CacheProjects(g, before);
      CacheStep(g, Run(g, before), e, g.Start().cache, CacheOps(g, before));
    }
  }

  lemma CacheTimedSnoc(ops: seq<CacheRuns.Op>, op: CacheRuns.Op, start: int)
    requires CacheRuns.Timed(ops, start) && CacheRuns.InOrder(op, CacheRuns.Now(ops, start))
    ensures CacheRuns.Timed(ops + [op], start)
    ensures CacheRuns.Now(ops + [op], start) == CacheRuns.LastReading(op, CacheRuns.Now(ops, start))
  {
    assert (ops + [op])[..|ops|] == ops;
  }

  lemma CacheTimedRequest(ops: seq<CacheRuns.Op>, more: seq<CacheRuns.Op>, t: Readings, start: int)
    requires CacheRuns.Timed(ops, start) && Ordered(t) && CacheRuns.Now(ops, start) <= t.created && ReadAt(more, t)
    ensures CacheRuns.Timed(ops + more, start) && CacheRuns.Now(ops + more, start) <= t.insert
  {
    AppendOneByOne(ops, more);
    if more != [] {
      CacheTimedSnoc(ops, more[0], start);
      if |more| == 2 {
        CacheTimedSnoc(ops + [more[0]], more[1], start);
      }
    }
  }

  lemma CacheTimedMore(g: Deployment, ops: seq<CacheRuns.Op>, e: Event, r: Option<Reply>, start: int, now: int)
    requires CacheRuns.Timed(ops, start) && CacheRuns.Now(ops, start) <= now
    requires e.Request? ==> Ordered(e.t) && now <= e.t.created
    ensures var all := ops + EventOps(g, e, r);
      CacheRuns.Timed(all, start) && CacheRuns.Now(all, start) <= if e.Request? then e.t.insert else now
  {
    assert ops + [] == ops;
    if e.Request? && r.Some? {
      CacheTimedRequest(ops, CacheOpsOf(g, e.req, e.t, r.value), e.t, start);
    } else if e.CacheCleared? {
      CacheTimedSnoc(ops, CacheRuns.Clear, start);
    }
  }

  lemma {:induction false} CacheOpsTimed(g: Deployment, es: seq<Event>, start: int)
    requires g.Valid() && Timed(es, start)
    ensures CacheRuns.Timed(CacheOps(g, es), start) && CacheRuns.Now(CacheOps(g, es), start) <= Clock(es, start)
  {
    if es != [] {
      var before := es[..|es| - 1];
      CacheOpsTimed(g, before, start);
      CacheTimedMore(g, CacheOps(g, before), es[|es| - 1], LastReply(g, es), start, Clock(before, start));
    }
  }

  // ----- Where a cached answer comes from ----------------------------------------------------

  /** The reply to each event of the run. */
  function Replies(g: Deployment, es: seq<Event>): (rs: seq<Option<Reply>>)
    requires g.Valid()
    ensures |rs| == |es|
  {
    if es == [] then [] else Replies(g, es[..|es| - 1]) + [LastReply(g, es)]
  }

  /** Event i of the run was served by a provider, and the response was stored under `key`. */
  predicate Stores(g: Deployment, es: seq<Event>, rs: seq<Option<Reply>>, i: nat, key: string)
    requires |rs| == |es|
  {
    i < |es| && es[i].Request? && !es[i].req.stream && Key(g.cfg, g.plat, es[i].req) == key
    && rs[i].Some? && rs[i].value.Served?
  }

  /** No event after i clears the cache or stores another response under `key`. */
  ghost predicate LatestSince(g: Deployment, es: seq<Event>, rs: seq<Option<Reply>>, i: nat, key: string)
    requires |rs| == |es|
  {
    forall j :: i < j < |es| ==> !es[j].CacheCleared? && !Stores(g, es, rs, j, key)
  }

  lemma LatestPutSnoc(ops: seq<CacheRuns.Op>, op: CacheRuns.Op, key: string)
    ensures CacheRuns.LatestPut(ops + [op], key)
         == if op.Put? && op.key == key then Some(CacheRuns.RecordOf(op))
            else if op.Clear? then None else CacheRuns.LatestPut(ops, key)
  {
    assert (ops + [op])[..|ops|] == ops;
  }

  lemma LatestPutMore(g: Deployment, ops: seq<CacheRuns.Op>, e: Event, r: Option<Reply>, key: string)
    requires e.Request? ==> r.Some?
    ensures var all := ops + EventOps(g, e, r);
      CacheRuns.LatestPut(all, key) ==
        if e.CacheCleared? then None
        else if e.Request? && r.value.Served? && !e.req.stream && Key(g.cfg, g.plat, e.req) == key then
          Some(CacheRuns.Record(r.value.response, e.t.insert + g.cfg.cache.ttlSeconds * 1_000_000_000))
        else CacheRuns.LatestPut(ops, key)
  {
    var more := EventOps(g, e, r);
    AppendOneByOne(ops, more);
    assert ops + [] == ops;
    if more != [] {
      LatestPutSnoc(ops, more[0], key);
      if |more| == 2 {
        LatestPutSnoc(ops + [more[0]], more[1], key);
      }
    }
  }

  lemma LatestSinceSnoc(g: Deployment, es: seq<Event>, rs: seq<Option<Reply>>, i: nat, key: string)
    requires es != [] && |rs| == |es| && i < |es| - 1
    requires LatestSince(g, es[..|es| - 1], rs[..|rs| - 1], i, key)
    requires !es[|es| - 1].CacheCleared? && !Stores(g, es, rs, |es| - 1, key)
    ensures LatestSince(g, es, rs, i, key)
  {
    var n := |es| - 1;
    forall j | i < j < |es| ensures !es[j].CacheCleared? && !Stores(g, es, rs, j, key) {
      if j < n {
        assert es[..n][j] == es[j] && rs[..n][j] == rs[j];
      }
    }
  }

  /** The latest stored record of a key is the latest response served for it. */
  lemma {:induction false} LatestPutWasServed(g: Deployment, es: seq<Event>, key: string) returns (i: nat)
    requires g.Valid() && CacheRuns.LatestPut(CacheOps(g, es), key).Some?
    ensures var rec, rs := CacheRuns.LatestPut(CacheOps(g, es), key).value, Replies(g, es);
      Stores(g, es, rs, i, key) && rec.response == rs[i].value.response && LatestSince(g, es, rs, i, key)
      && rec.expiresAt == es[i].t.insert + g.cfg.cache.ttlSeconds * 1_000_000_000
  {
    var before, e, r := es[..|es| - 1], es[|es| - 1], LastReply(g, es);
    var rs := Replies(g, es);
    assert rs[..|rs| - 1] == Replies(g, before) && rs[|rs| - 1] == r;
    LatestPutMore(g, CacheOps(g, before), e, r, key);
    if e.Request? && r.value.Served? && !e.req.stream && Key(g.cfg, g.plat, e.req) == key {
      i := |es| - 1;
    } else {
      i := LatestPutWasServed(g, before, key);
      LatestSinceSnoc(g, es, rs, i, key);
    }
  }

  /** A request answered from the cache gets the latest response some earlier request with the same cache
      key was served, not cleared since and not older than the TTL, changed only in its request id,
      its latency and its cache flag. */
  lemma HitWasServedBefore(g: Deployment, es: seq<Event>, start: int) returns (i: nat)
    requires g.Valid() && g.cfg.cache.enabled && Timed(es, start)
    requires es != [] && es[|es| - 1].Request? && LastReply(g, es).value.FromCache?
    ensures var before, e := es[..|es| - 1], es[|es| - 1];
      var key, rs := Key(g.cfg, g.plat, e.req), Replies(g, before);
      && Stores(g, before, rs, i, key) && LatestSince(g, before, rs, i, key)
      && LastReply(g, es).value.response == CacheModel.Mark(rs[i].value.response, e.req.requestId)
      && e.t.check <= before[i].t.insert + g.cfg.cache.ttlSeconds * 1_000_000_000
  {
    var before, e := es[..|es| - 1], es[|es| - 1];
    var key, ops, s0 := Key(g.cfg, g.plat, e.req), CacheOps(g, before), g.Start().cache;
    CacheProjects(g, before);
    CacheOpsTimed(g, before, start);
    RequestCache(g, Run(g, before), e.req, e.t, e.world);
    CacheRuns.HitsExactly(s0, ops, key, e.req.requestId, e.t.check, e.t.touch, start);
    CacheRuns.RetainedIsLatest(s0, ops, key);
    i := LatestPutWasServed(g, before, key);
  }
}
