/** The cost tracker as a mutable object. */
module CostTracker {
  import opened Types
  import opened CostModel
  import M = CostModel

  class CostTracker {
    var history: seq<RequestMetrics>
    var spendByKey: map<string, real>
    var pricing: map<string, Pricing>

    ghost function Abs(): M.State
      reads this
    {
      M.State(history, spendByKey, pricing)
    }

    constructor (pricing: map<string, Pricing>)
      ensures Abs() == M.State([], map[], pricing)
    {
      this.pricing := pricing;
      history, spendByKey := [], map[];
    }

    method Record(metrics: RequestMetrics)
      modifies this
      ensures Abs() == M.Record(old(Abs()), metrics)
    {
      var m := metrics;
      var key := m.provider + ":" + m.model;
      if key in pricing {
        var inCost := (m.promptTokens as real / 1000.0) * pricing[key].inputPer1k;
        var outCost := (m.completionTokens as real / 1000.0) * pricing[key].outputPer1k;
        m := m.(costUsd := inCost + outCost);
      }
      assert key == PriceKey(Offer(m.provider, m.model));
      assert m == Billed(pricing, metrics);
      if m.apiKey != "" {
        spendByKey := Add(spendByKey, m.apiKey, m.costUsd);
      }
      if |history| >= MAX_HISTORY {
        history := history[1..];
      }
      history := history + [m];
    }

    method GetSummary(apiKey: string) returns (s: Summary)
      ensures s == Summarize(history, apiKey)
    {
      s := NO_SPEND;
      for i := 0 to |history|
        invariant s == Summarize(history[..i], apiKey)
      {
        var m := history[i];
        assert history[..i + 1][..i] == history[..i];
        if apiKey == "" || m.apiKey == apiKey {
          s := s.(totalUsd := s.totalUsd + m.costUsd);
          s := s.(totalRequests := s.totalRequests + 1);
          if m.cacheHit {
            s := s.(cachedRequests := s.cachedRequests + 1);
            s := s.(cacheSavingsUsd := s.cacheSavingsUsd + m.costUsd);
          }
          s := s.(byProvider := Add(s.byProvider, m.provider, m.costUsd));
          s := s.(byModel := Add(s.byModel, m.model, m.costUsd));
        }
      }
      assert history[..|history|] == history;
    }

    /** The last `limit` records; the original is undefined for a negative limit. */
    method GetRecent(limit: nat) returns (recent: seq<RequestMetrics>)
      ensures recent == history[|history| - (if limit <= |history| then limit else |history|)..]
    {
      var start := if |history| - limit > 0 then |history| - limit else 0;
      recent := history[start..];
    }

    method SetPricing(model: string, provider: string, price: Pricing)
      modifies this`pricing
      ensures pricing == old(pricing)[provider + ":" + model := price]
    {
      pricing := pricing[provider + ":" + model := price];
    }
  }
}
