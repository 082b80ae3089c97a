/** The cost tracker over whole runs: what the history holds and how its sums relate. */
module CostRuns {
  import opened Types
  import opened CostModel

  datatype Event = Recorded(metrics: RequestMetrics) | Repriced(key: string, pricing: Pricing)

  function Step(s: State, e: Event): State {
    match e
    case Recorded(m) => Record(s, m)
    case Repriced(key, p) => s.(pricing := s.pricing[key := p])
  }

  function Run(s0: State, es: seq<Event>): State {
    if es == [] then s0 else Step(Run(s0, es[..|es| - 1]), es[|es| - 1])
  }

  predicate Empty(s: State) {
    s.history == [] && s.spendByKey == map[]
  }

  /** Every record of a run as it was billed, oldest first. */
  function AllRecords(s0: State, es: seq<Event>): seq<RequestMetrics> {
    if es == [] then []
    else
      var before, e := es[..|es| - 1], es[|es| - 1];
      AllRecords(s0, before) + (if e.Recorded? then [Billed(Run(s0, before).pricing, e.metrics)] else [])
  }

  function LastRecords(all: seq<RequestMetrics>): seq<RequestMetrics> {
    if |all| > 100_000 then all[|all| - 100_000..] else all
  }

  /** The history is exactly the last 100000 records, in order. */
  lemma {:induction false} HistoryIsSuffix(s0: State, es: seq<Event>)
    requires Empty(s0)
    ensures Run(s0, es).history == LastRecords(AllRecords(s0, es))
  {
    if es != [] {
      var before, e := es[..|es| - 1], es[|es| - 1];
      HistoryIsSuffix(s0, before);
      var all := AllRecords(s0, before);
      if e.Recorded? {
        var m := Billed(Run(s0, before).pricing, e.metrics);
        if |all| >= MAX_HISTORY {
          assert LastRecords(all) == all[|all| - MAX_HISTORY..];
          assert LastRecords(all + [m]) == (all + [m])[|all| + 1 - MAX_HISTORY..];
          assert LastRecords(all)[1..] == all[|all| + 1 - MAX_HISTORY..];
        }
      } else {
        assert all + [] == all;
      }
    }
  }

  // ----- Sums ---------------------------------------------------------------------------

  /** What the records that satisfy the query cost together. */
  function Total(records: seq<RequestMetrics>, apiKey: string): real {
    if records == [] then 0.0
    else
      var before, m := records[..|records| - 1], records[|records| - 1];
      Total(before, apiKey) + (if Asked(apiKey, m) then m.costUsd else 0.0)
  }

  /** The running spend of a key is what all its records cost, including those the history has dropped. */
  lemma {:induction false} SpendIsTotal(s0: State, es: seq<Event>, apiKey: string)
    requires Empty(s0) && apiKey != ""
    ensures Spend(Run(s0, es), apiKey) == Total(AllRecords(s0, es), apiKey)
  {
    if es != [] {
      var before, e := es[..|es| - 1], es[|es| - 1];
      SpendIsTotal(s0, before, apiKey);
      var all := AllRecords(s0, before);
      if e.Recorded? {
        var m := Billed(Run(s0, before).pricing, e.metrics);
        assert (all + [m])[..|all|] == all;
      } else {
        assert all + [] == all;
      }
    }
  }

  lemma {:induction false} SummaryIsTotal(history: seq<RequestMetrics>, apiKey: string)
    ensures Summarize(history, apiKey).totalUsd == Total(history, apiKey)
  {
    if history != [] {
      SummaryIsTotal(history[..|history| - 1], apiKey);
    }
  }

  lemma {:induction false} TotalConcat(a: seq<RequestMetrics>, b: seq<RequestMetrics>, apiKey: string)
    ensures Total(a + b, apiKey) == Total(a, apiKey) + Total(b, apiKey)
  {
    if b == [] {
      assert a + b == a;
    } else {
      assert (a + b)[..|a + b| - 1] == a + b[..|b| - 1];
      TotalConcat(a, b[..|b| - 1], apiKey);
    }
  }

  lemma {:induction false} TotalNotNegative(records: seq<RequestMetrics>, apiKey: string)
    requires forall m :: m in records ==> m.costUsd >= 0.0
    ensures Total(records, apiKey) >= 0.0
  {
    if records != [] {
      assert records[|records| - 1] in records;
      assert forall m :: m in records[..|records| - 1] ==> m in records;
      TotalNotNegative(records[..|records| - 1], apiKey);
    }
  }

  /** A key's summary never exceeds its spend, and equals it until the first record is dropped. */
  lemma SummaryWithinSpend(s0: State, es: seq<Event>, apiKey: string)
    requires Empty(s0) && apiKey != ""
    requires forall m :: m in AllRecords(s0, es) ==> m.costUsd >= 0.0
    ensures var s := Run(s0, es);
      var total := Summarize(s.history, apiKey).totalUsd;
      total <= Spend(s, apiKey)
      && (|AllRecords(s0, es)| <= 100_000 ==> total == Spend(s, apiKey))
  {
    var all := AllRecords(s0, es);
    var kept := LastRecords(all);
    var dropped := all[..|all| - |kept|];
    HistoryIsSuffix(s0, es);
    SpendIsTotal(s0, es, apiKey);
    SummaryIsTotal(kept, apiKey);
    assert all == dropped + kept;
    TotalConcat(dropped, kept, apiKey);
    assert forall m :: m in dropped ==> m in all;
    TotalNotNegative(dropped, apiKey);
  }

  // ----- Grouped sums ----------------------------------------------------------------------

  ghost function SumOver(m: map<string, real>, keys: set<string>): real
    requires keys <= m.Keys
  {
    if keys == {} then 0.0 else var k :| k in keys; m[k] + SumOver(m, keys - {k})
  }

  /** The order in which the keys are added up does not matter. */
  lemma {:induction false} SumAnyOrder(m: map<string, real>, keys: set<string>, x: string)
    requires keys <= m.Keys && x in keys
    ensures SumOver(m, keys) == m[x] + SumOver(m, keys - {x})
  {
    var k :| k in keys && SumOver(m, keys) == m[k] + SumOver(m, keys - {k});
    if k != x {
      SumAnyOrder(m, keys - {k}, x);
      SumAnyOrder(m, keys - {x}, k);
      assert keys - {k} - {x} == keys - {x} - {k};
    }
  }

  lemma {:induction false} SumSame(m: map<string, real>, m': map<string, real>, keys: set<string>)
    requires keys <= m.Keys && keys <= m'.Keys && forall k :: k in keys ==> m[k] == m'[k]
    ensures SumOver(m, keys) == SumOver(m', keys)
  {
    if keys != {} {
      var k :| k in keys;
      SumAnyOrder(m, keys, k);
      SumAnyOrder(m', keys, k);
      SumSame(m, m', keys - {k});
    }
  }

  lemma SumAdd(m: map<string, real>, key: string, x: real)
    ensures SumOver(Add(m, key, x), Add(m, key, x).Keys) == SumOver(m, m.Keys) + x
  {
    var m' := Add(m, key, x);
    var rest := m.Keys - {key};
    assert m'.Keys - {key} == rest;
    SumAnyOrder(m', m'.Keys, key);
    SumSame(m, m', rest);
    if key in m {
      SumAnyOrder(m, m.Keys, key);
    } else {
      assert rest == m.Keys;
    }
  }

  /** In any summary the amounts by provider add up to the total, and so do those by model. */
  lemma {:induction false} GroupsAddUp(history: seq<RequestMetrics>, apiKey: string)
    ensures var s := Summarize(history, apiKey);
      SumOver(s.byProvider, s.byProvider.Keys) == s.totalUsd
      && SumOver(s.byModel, s.byModel.Keys) == s.totalUsd
  {
    if history != [] {
      var before, m := history[..|history| - 1], history[|history| - 1];
      GroupsAddUp(before, apiKey);
      if Asked(apiKey, m) {
        var s := Summarize(before, apiKey);
        SumAdd(s.byProvider, m.provider, m.costUsd);
        SumAdd(s.byModel, m.model, m.costUsd);
      }
    }
  }

  // ----- What a summary reports ---------------------------------------------------------------

  /** How many records satisfy the condition. */
  function CountWhere(records: seq<RequestMetrics>, keep: RequestMetrics -> bool): nat {
    if records == [] then 0
    else CountWhere(records[..|records| - 1], keep) + (if keep(records[|records| - 1]) then 1 else 0)
  }

  /** What they cost together. */
  function CostWhere(records: seq<RequestMetrics>, keep: RequestMetrics -> bool): real {
    if records == [] then 0.0
    else
      var m := records[|records| - 1];
      CostWhere(records[..|records| - 1], keep) + (if keep(m) then m.costUsd else 0.0)
  }

  function AskedFor(apiKey: string): RequestMetrics -> bool {
    (m: RequestMetrics) => apiKey == "" || m.apiKey == apiKey
  }

  function CachedFor(apiKey: string): RequestMetrics -> bool {
    (m: RequestMetrics) => (apiKey == "" || m.apiKey == apiKey) && m.cacheHit
  }

  function ProviderOf(m: RequestMetrics): string {
    m.provider
  }

  function ModelOf(m: RequestMetrics): string {
    m.model
  }

  function InGroup(keep: RequestMetrics -> bool, group: RequestMetrics -> string, k: string): RequestMetrics -> bool {
    (m: RequestMetrics) => keep(m) && group(m) == k
  }

  /** The map holds, for each value of `group` among the records kept, what those records cost. */
  ghost predicate Groups(records: seq<RequestMetrics>, keep: RequestMetrics -> bool,
                         group: RequestMetrics -> string, sums: map<string, real>) {
    forall k: string ::
      (k in sums <==> exists m :: m in records && keep(m) && group(m) == k)
      && (k in sums ==> sums[k] == CostWhere(records, InGroup(keep, group, k)))
  }

  lemma {:induction false} NoneWhere(records: seq<RequestMetrics>, keep: RequestMetrics -> bool)
    requires forall m :: m in records ==> !keep(m)
    ensures CostWhere(records, keep) == 0.0
  {
    if records != [] {
      assert records == records[..|records| - 1] + [records[|records| - 1]];
      NoneWhere(records[..|records| - 1], keep);
    }
  }

  lemma WhereMore(before: seq<RequestMetrics>, m: RequestMetrics, keep: RequestMetrics -> bool)
    ensures CountWhere(before + [m], keep) == CountWhere(before, keep) + (if keep(m) then 1 else 0)
    ensures CostWhere(before + [m], keep) == CostWhere(before, keep) + (if keep(m) then m.costUsd else 0.0)
  {
    assert (before + [m])[..|before|] == before;
  }

  lemma GroupMore(before: seq<RequestMetrics>, m: RequestMetrics, keep: RequestMetrics -> bool,
                  group: RequestMetrics -> string, sums: map<string, real>)
    requires Groups(before, keep, group, sums)
    ensures Groups(before + [m], keep, group, if keep(m) then Add(sums, group(m), m.costUsd) else sums)
  {
    var all, sums' := before + [m], if keep(m) then Add(sums, group(m), m.costUsd) else sums;
    assert m in all && forall x :: x in all <==> x in before || x == m;
    forall k: string
      ensures k in sums' <==> exists x :: x in all && keep(x) && group(x) == k
      ensures k in sums' ==> sums'[k] == CostWhere(all, InGroup(keep, group, k))
    {
      WhereMore(before, m, InGroup(keep, group, k));
      if k !in sums {
        NoneWhere(before, InGroup(keep, group, k));
      }
    }
  }

  /** Everything a summary reports, in terms of the records its key asks for: how many there are and what
      they cost, the same for the cached ones, and what those of each provider and each model cost. */
  lemma {:induction false} SummaryIs(history: seq<RequestMetrics>, apiKey: string)
    ensures var s, asked, cached := Summarize(history, apiKey), AskedFor(apiKey), CachedFor(apiKey);
      && s.totalUsd == CostWhere(history, asked) && s.totalRequests == CountWhere(history, asked)
      && s.cacheSavingsUsd == CostWhere(history, cached) && s.cachedRequests == CountWhere(history, cached)
      && Groups(history, asked, ProviderOf, s.byProvider) && Groups(history, asked, ModelOf, s.byModel)
  {
    if history != [] {
      var before, m := history[..|history| - 1], history[|history| - 1];
      var s := Summarize(before, apiKey);
      SummaryIs(before, apiKey);
      assert history == before + [m];
      WhereMore(before, m, AskedFor(apiKey));
      WhereMore(before, m, CachedFor(apiKey));
      GroupMore(before, m, AskedFor(apiKey), ProviderOf, s.byProvider);
      GroupMore(before, m, AskedFor(apiKey), ModelOf, s.byModel);
    }
  }

  // ----- Prices --------------------------------------------------------------------------------

  /** Estimates are linear in the price that `get_pricing` reports, the default price included. */
  lemma EstimateUsesPricing(pricing: map<string, Pricing>, provider: string, model: string, i: int, o: int)
    ensures var p := GetPricing(pricing, provider, model);
      EstimateCost(pricing, provider, model, i, o)
        == i as real / 1000.0 * p.inputPer1k + o as real / 1000.0 * p.outputPer1k
  {
    assert (i + o) as real == i as real + o as real;
  }

  /** What is stored: a priced model at its two prices, any other at the cost it came with. */
  lemma BilledIs(pricing: map<string, Pricing>, m: RequestMetrics)
    ensures var key := m.provider + ":" + m.model;
      Billed(pricing, m) == m.(costUsd :=
        if key in pricing then
          m.promptTokens as real / 1000.0 * pricing[key].inputPer1k
          + m.completionTokens as real / 1000.0 * pricing[key].outputPer1k
        else m.costUsd)
  {
    assert PriceKey(Offer(m.provider, m.model)) == m.provider + ":" + m.model;
  }

  /** Recording at the estimated cost bills exactly the estimate, whether or not the model is priced. */
  lemma BilledAtEstimate(pricing: map<string, Pricing>, m: RequestMetrics)
    requires m.costUsd == EstimateCost(pricing, m.provider, m.model, m.promptTokens, m.completionTokens)
    ensures Billed(pricing, m) == m
  {}
}
