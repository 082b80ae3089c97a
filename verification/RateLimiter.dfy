/** The rate limiter as a mutable object: buckets are created on demand and changed in place. */
module RateLimiter {
  import opened Types
  import M = LimiterModel

  class Bucket {
    var rpmLimit: int
    var tpmLimit: int
    var requestsCount: int
    var tokensCount: int
    var windowStart: int

    constructor (cfg: M.LimitConfig, created: int)
      ensures Value() == M.NewBucket(cfg, created)
    {
      rpmLimit, tpmLimit := cfg.rpm, cfg.tpm;
      requestsCount, tokensCount := 0, 0;
      windowStart := created;
    }

    ghost function Value(): M.Bucket
      reads this
    {
      M.Bucket(rpmLimit, tpmLimit, requestsCount, tokensCount, windowStart)
    }

    method ResetIfExpired(now: int)
      modifies this
      ensures Value() == M.ResetIfExpired(old(Value()), now)
    {
      var elapsed := M.WholeSeconds(now - windowStart);
      if elapsed >= 60 {
        requestsCount := 0;
        tokensCount := 0;
        windowStart := now;
      }
    }

    method AddTokens(tokens: int)
      modifies this
      ensures Value() == old(Value()).(tokens := old(Value()).tokens + tokens)
    {
      tokensCount := tokensCount + tokens;
    }

    method Check(estimatedTokens: int, now: int, later: int) returns (r: M.Result)
      modifies this
      ensures (Value(), r) == M.CheckBucket(old(Value()), estimatedTokens, now, later)
    {
      ResetIfExpired(now);
      var rpm, tpm := rpmLimit - requestsCount, tpmLimit - tokensCount;
      if requestsCount >= rpmLimit {
        var elapsed := M.WholeSeconds(later - windowStart);
        return M.Result(false, rpm, tpm, if 1 < 60 - elapsed then 60 - elapsed else 1);
      }
      if estimatedTokens > 0 && tokensCount + estimatedTokens > tpmLimit {
        var elapsed := M.WholeSeconds(later - windowStart);
        return M.Result(false, rpm, tpm, if 1 < 60 - elapsed then 60 - elapsed else 1);
      }
      requestsCount := requestsCount + 1;
      r := M.Result(true, rpm, tpm, 0);
    }
  }

  class RateLimiter {
    const cfg: M.LimitConfig
    var buckets: map<string, Bucket>

    ghost var Contents: map<string, M.Bucket>
    ghost var Repr: set<object>

    /** No two keys share a bucket object. */
    ghost predicate Valid()
      reads this, Repr
      ensures Valid() ==> this in Repr
    {
      && this in Repr
      && (forall k :: k in buckets ==> buckets[k] in Repr)
      && (forall j, k :: j in buckets && k in buckets && j != k ==> buckets[j] != buckets[k])
      && buckets.Keys == Contents.Keys
      && (forall k :: k in buckets ==> buckets[k].Value() == Contents[k])
    }

    constructor (cfg: M.LimitConfig)
      ensures Valid() && fresh(Repr) && Contents == map[] && this.cfg == cfg
    {
      this.cfg := cfg;
      buckets, Contents, Repr := map[], map[], {this};
    }

    method GetBucket(apiKey: string, created: int) returns (b: Bucket)
      requires Valid()
      modifies this
      ensures Valid() && fresh(Repr - old(Repr)) && old(Repr) <= Repr
      ensures apiKey in buckets && buckets[apiKey] == b
      ensures Contents == old(Contents)[apiKey := M.GetBucket(old(Contents), cfg, apiKey, created)]
    {
      if apiKey !in buckets {
        b := new Bucket(cfg, created);
        buckets := buckets[apiKey := b];
        Contents := Contents[apiKey := b.Value()];
        Repr := Repr + {b};
      } else {
        b := buckets[apiKey];
      }
    }

    method CheckRequest(apiKey: string, estimatedTokens: int, created: int, now: int, later: int)
      returns (r: M.Result)
      requires Valid()
      modifies Repr
      ensures Valid() && fresh(Repr - old(Repr))
      ensures (Contents, r) == M.Check(old(Contents), cfg, apiKey, estimatedTokens, created, now, later)
    {
      var bucket := GetBucket(apiKey, created);
      ghost var before := bucket.Value();
      r := bucket.Check(estimatedTokens, now, later);
      Overwrite(old(Contents), apiKey, before, bucket.Value());
      Contents := Contents[apiKey := bucket.Value()];
    }

    method RecordTokens(apiKey: string, tokens: int, created: int)
      requires Valid()
      modifies Repr
      ensures Valid() && fresh(Repr - old(Repr))
      ensures Contents == M.Record(old(Contents), cfg, apiKey, tokens, created)
    {
      var bucket := GetBucket(apiKey, created);
      ghost var before := bucket.Value();
      bucket.AddTokens(tokens);
      Overwrite(old(Contents), apiKey, before, bucket.Value());
      Contents := Contents[apiKey := bucket.Value()];
    }

    method Reset(apiKey: string)
      requires Valid()
      modifies this
      ensures Valid() && Repr == old(Repr) && Contents == old(Contents) - {apiKey}
    {
      buckets := buckets - {apiKey};
      Contents := Contents - {apiKey};
    }
  }

  lemma Overwrite(m: map<string, M.Bucket>, key: string, x: M.Bucket, y: M.Bucket)
    ensures m[key := x][key := y] == m[key := y]
  {}
}
