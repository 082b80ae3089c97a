/** The fixed-window rate limiter as functions on buckets. */
module LimiterModel {
  import opened Types

  const WINDOW_SEC: int := 60
  const WINDOW: int := WINDOW_SEC * NANOS

  datatype LimitConfig = LimitConfig(rpm: int, tpm: int)

  datatype Bucket = Bucket(rpmLimit: int, tpmLimit: int, requests: int, tokens: int, windowStart: int)

  datatype Result = Result(allowed: bool, remainingRpm: int, remainingTpm: int, retryAfterSec: int)

  /** Whole seconds in a duration, truncated toward zero. */
  function WholeSeconds(d: int): int {
    if d >= 0 then d / NANOS else -((-d) / NANOS)
  }

  function NewBucket(cfg: LimitConfig, created: int): Bucket {
    Bucket(cfg.rpm, cfg.tpm, 0, 0, created)
  }

  function ResetIfExpired(b: Bucket, now: int): Bucket {
    if WholeSeconds(now - b.windowStart) >= WINDOW_SEC then b.(requests := 0, tokens := 0, windowStart := now)
    else b
  }

  function RetryAfter(b: Bucket, now: int): int {
    var left := WINDOW_SEC - WholeSeconds(now - b.windowStart);
    if 1 < left then left else 1
  }

  predicate OverRpm(b: Bucket) {
    b.requests >= b.rpmLimit
  }

  predicate OverTpm(b: Bucket, estimate: int) {
    estimate > 0 && b.tokens + estimate > b.tpmLimit
  }

  /** Admission of one request: `now` is the reading of the window check, `later` that of the retry hint. */
  function CheckBucket(b0: Bucket, estimate: int, now: int, later: int): (Bucket, Result) {
    var b := ResetIfExpired(b0, now);
    var rpm, tpm := b.rpmLimit - b.requests, b.tpmLimit - b.tokens;
    if OverRpm(b) || OverTpm(b, estimate) then (b, Result(false, rpm, tpm, RetryAfter(b, later)))
    else (b.(requests := b.requests + 1), Result(true, rpm, tpm, 0))
  }

  function GetBucket(buckets: map<string, Bucket>, cfg: LimitConfig, key: string, created: int): Bucket {
    if key in buckets then buckets[key] else NewBucket(cfg, created)
  }

  function Check(buckets: map<string, Bucket>, cfg: LimitConfig, key: string, estimate: int,
                 created: int, now: int, later: int): (map<string, Bucket>, Result)
  {
    var (b, r) := CheckBucket(GetBucket(buckets, cfg, key, created), estimate, now, later);
    (buckets[key := b], r)
  }

  function Record(buckets: map<string, Bucket>, cfg: LimitConfig, key: string, tokens: int, created: int)
    : map<string, Bucket>
  {
    var b := GetBucket(buckets, cfg, key, created);
    buckets[key := b.(tokens := b.tokens + tokens)]
  }
}
