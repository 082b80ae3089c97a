/** What a request costs, and what the cost tracker remembers. */
module CostModel {
  import opened Types

  const MAX_HISTORY: nat := 100_000

  datatype RequestMetrics = RequestMetrics(
    requestId: string,
    apiKey: string,
    provider: string,
    model: string,
    promptTokens: int,
    completionTokens: int,
    latencyMs: real,
    costUsd: real,
    cacheHit: bool)

  datatype Summary = Summary(
    totalUsd: real,
    cacheSavingsUsd: real,
    totalRequests: nat,
    cachedRequests: nat,
    byProvider: map<string, real>,
    byModel: map<string, real>)

  datatype State = State(
    history: seq<RequestMetrics>,
    spendByKey: map<string, real>,
    pricing: map<string, Pricing>)

  const DEFAULT_PRICING := Pricing(0.002, 0.002)

  function GetPricing(pricing: map<string, Pricing>, provider: string, model: string): Pricing {
    var key := PriceKey(Offer(provider, model));
    if key in pricing then pricing[key] else DEFAULT_PRICING
  }

  function EstimateCost(pricing: map<string, Pricing>, provider: string, model: string,
                        inputTokens: int, outputTokens: int): real
  {
    var key := PriceKey(Offer(provider, model));
    if key !in pricing then (inputTokens + outputTokens) as real * 0.002 / 1000.0
    else
      var inCost := (inputTokens as real / 1000.0) * pricing[key].inputPer1k;
      var outCost := (outputTokens as real / 1000.0) * pricing[key].outputPer1k;
      inCost + outCost
  }

  /** The record as stored: priced models are billed again, others keep the cost they came with. */
  function Billed(pricing: map<string, Pricing>, m: RequestMetrics): RequestMetrics {
    if PriceKey(Offer(m.provider, m.model)) in pricing then
      m.(costUsd := EstimateCost(pricing, m.provider, m.model, m.promptTokens, m.completionTokens))
    else m
  }

  function Add(m: map<string, real>, key: string, x: real): map<string, real> {
    m[key := (if key in m then m[key] else 0.0) + x]
  }

  function Record(s: State, metrics: RequestMetrics): State {
    var m := Billed(s.pricing, metrics);
    s.(spendByKey := if m.apiKey != "" then Add(s.spendByKey, m.apiKey, m.costUsd) else s.spendByKey,
       history := (if |s.history| >= MAX_HISTORY then s.history[1..] else s.history) + [m])
  }

  function Spend(s: State, apiKey: string): real {
    if apiKey in s.spendByKey then s.spendByKey[apiKey] else 0.0
  }

  /** An empty key asks for everything. */
  predicate Asked(apiKey: string, m: RequestMetrics) {
    apiKey == "" || m.apiKey == apiKey
  }

  const NO_SPEND := Summary(0.0, 0.0, 0, 0, map[], map[])

  function Counted(s: Summary, m: RequestMetrics): Summary {
    Summary(
      s.totalUsd + m.costUsd,
      s.cacheSavingsUsd + (if m.cacheHit then m.costUsd else 0.0),
      s.totalRequests + 1,
      s.cachedRequests + (if m.cacheHit then 1 else 0),
      Add(s.byProvider, m.provider, m.costUsd),
      Add(s.byModel, m.model, m.costUsd))
  }

  function Summarize(history: seq<RequestMetrics>, apiKey: string): Summary {
    if history == [] then NO_SPEND
    else
      var s, m := Summarize(history[..|history| - 1], apiKey), history[|history| - 1];
      if Asked(apiKey, m) then Counted(s, m) else s
  }
}
