/** The rate limiter over whole runs: admissions in any interval, the retry hint, and key independence. */
module LimiterRuns {
  import opened Types
  import opened LimiterModel

  /** One operation on one key, with its clock readings. */
  datatype Op =
    | CheckOp(estimate: int, created: int, now: int, later: int)
    | RecordOp(tokens: int, created: int)
    | ResetOp

  function BucketOf(b: Option<Bucket>, cfg: LimitConfig, created: int): Bucket {
    match b
    case Some(bucket) => bucket
    case None => NewBucket(cfg, created)
  }

  /** One operation on the bucket of one key, and the answer if it is a check. */
  function Step(b: Option<Bucket>, cfg: LimitConfig, op: Op): (Option<Bucket>, Option<Result>) {
    match op
    case CheckOp(estimate, created, now, later) =>
      var (b', r) := CheckBucket(BucketOf(b, cfg, created), estimate, now, later);
      (Some(b'), Some(r))
    case RecordOp(tokens, created) =>
      var b' := BucketOf(b, cfg, created);
      (Some(b'.(tokens := b'.tokens + tokens)), None)
    case ResetOp => (None, None)
  }

  function RunKey(cfg: LimitConfig, ops: seq<Op>): Option<Bucket> {
    if ops == [] then None else Step(RunKey(cfg, ops[..|ops| - 1]), cfg, ops[|ops| - 1]).0
  }

  function Answers(cfg: LimitConfig, ops: seq<Op>): seq<Option<Result>> {
    if ops == [] then []
    else
      var before := ops[..|ops| - 1];
      Answers(cfg, before) + [Step(RunKey(cfg, before), cfg, ops[|ops| - 1]).1]
  }

  // ----- The clock ------------------------------------------------------------

  function LastReading(op: Op, before: int): int {
    match op
    case CheckOp(_, _, _, later) => later
    case RecordOp(_, created) => created
    case ResetOp => before
  }

  function Now(ops: seq<Op>, start: int): int {
    if ops == [] then start else LastReading(ops[|ops| - 1], Now(ops[..|ops| - 1], start))
  }

  predicate InOrder(op: Op, before: int) {
    match op
    case CheckOp(_, created, now, later) => before <= created <= now <= later
    case RecordOp(_, created) => before <= created
    case ResetOp => true
  }

  ghost predicate Timed(ops: seq<Op>, start: int) {
    ops == [] || (Timed(ops[..|ops| - 1], start) && InOrder(ops[|ops| - 1], Now(ops[..|ops| - 1], start)))
  }

  ghost predicate NoReset(ops: seq<Op>) {
    forall i :: 0 <= i < |ops| ==> !ops[i].ResetOp?
  }

  // ----- One check ----------------------------------------------------------------

  /** A check is admitted exactly when both remaining budgets it reports cover it, and a denial's hint is
      between one second and a full window. */
  lemma AdmittedWithinBudget(b: Option<Bucket>, cfg: LimitConfig, op: Op)
    requires op.CheckOp? && op.created <= op.now <= op.later
    requires b.Some? ==> b.value.windowStart <= op.now
    ensures var (b', r) := (Step(b, cfg, op).0.value, Step(b, cfg, op).1.value);
      && (r.allowed <==> r.remainingRpm > 0 && (op.estimate <= 0 || op.estimate <= r.remainingTpm))
      && b'.requests == b'.rpmLimit - r.remainingRpm + (if r.allowed then 1 else 0)
      && b'.tokens == b'.tpmLimit - r.remainingTpm
      && (if r.allowed then r.retryAfterSec == 0 else 1 <= r.retryAfterSec <= 60)
  {}

  // ----- Admissions in an interval ---------------------------------------------

  predicate Admitted(b: Option<Bucket>, cfg: LimitConfig, op: Op) {
    op.CheckOp? && Step(b, cfg, op).1.value.allowed
  }

  /** Requests admitted at times in [from, to), the admission time being the window check's reading. */
  function AdmittedIn(cfg: LimitConfig, ops: seq<Op>, from: int, to: int): nat {
    if ops == [] then 0
    else
      var op, before := ops[|ops| - 1], ops[..|ops| - 1];
      AdmittedIn(cfg, before, from, to)
      + (if Admitted(RunKey(cfg, before), cfg, op) && from <= op.now < to then 1 else 0)
  }

  function AdmittedSince(cfg: LimitConfig, ops: seq<Op>, from: int): nat {
    if ops == [] then 0
    else
      var op, before := ops[|ops| - 1], ops[..|ops| - 1];
      AdmittedSince(cfg, before, from)
      + (if Admitted(RunKey(cfg, before), cfg, op) && from <= op.now then 1 else 0)
  }

  function CeilDiv(a: int, b: int): int
    requires b > 0
  {
    if a <= 0 then 0 else (a + b - 1) / b
  }

  lemma CeilDivMonotone(a: int, a': int)
    requires a <= a'
    ensures 0 <= CeilDiv(a, WINDOW) <= CeilDiv(a', WINDOW)
    ensures a > 0 ==> CeilDiv(a, WINDOW) >= 1
    ensures a >= -WINDOW ==> CeilDiv(a + WINDOW, WINDOW) >= (if a >= 0 then 1 + CeilDiv(a, WINDOW) else 0)
  {}

  lemma Times(x: int, y: int, limit: int)
    requires 0 <= limit && x <= y
    ensures limit * x <= limit * y && limit * (1 + x) == limit + limit * x
  {}

  /** What one window admits at most; a negative limit admits nothing, like 0. */
  function Budget(cfg: LimitConfig): nat {
    if cfg.rpm > 0 then cfg.rpm else 0
  }

  /** The counter is within its limit, and older windows admitted at most `limit` each. */
  ghost predicate Bounded(b: Option<Bucket>, cfg: LimitConfig, since: nat, from: int, now: int) {
    match b
    case None => since == 0
    case Some(bucket) =>
      && bucket.rpmLimit == cfg.rpm && bucket.windowStart <= now
      && 0 <= bucket.requests <= Budget(cfg)
      && since <= bucket.requests + Budget(cfg) * CeilDiv(bucket.windowStart - from, WINDOW)
      && (from >= bucket.windowStart + WINDOW ==> since == 0)
  }

  lemma WindowElapsed(now: int, windowStart: int)
    requires windowStart <= now
    ensures WholeSeconds(now - windowStart) >= WINDOW_SEC <==> now - windowStart >= WINDOW
  {}

  /** Starting a window late enough turns the current window into one more older window. */
  lemma ResetKeepsBound(b: Bucket, cfg: LimitConfig, since: nat, from: int, before: int, now: int)
    requires before <= now && Bounded(Some(b), cfg, since, from, before)
    ensures Bounded(Some(ResetIfExpired(b, now)), cfg, since, from, now)
  {
    WindowElapsed(now, b.windowStart);
    if now - b.windowStart >= WINDOW {
      var age := b.windowStart - from;
      CeilDivMonotone(age + WINDOW, now - from);
      if age >= 0 {
        CeilDivMonotone(age, age);
        Times(1 + CeilDiv(age, WINDOW), CeilDiv(now - from, WINDOW), Budget(cfg));
        Times(CeilDiv(age, WINDOW), CeilDiv(age, WINDOW), Budget(cfg));
      } else if age > -WINDOW {
        CeilDivMonotone(age + WINDOW, age + WINDOW);
        Times(1, CeilDiv(now - from, WINDOW), Budget(cfg));
        assert CeilDiv(age, WINDOW) == 0;
      } else {
        Times(0, CeilDiv(now - from, WINDOW), Budget(cfg));
      }
    }
  }

  lemma StepKeepsBound(b: Option<Bucket>, cfg: LimitConfig, op: Op, since: nat, from: int, now: int)
    requires !op.ResetOp? && InOrder(op, now) && Bounded(b, cfg, since, from, now)
    ensures var n := if Admitted(b, cfg, op) && from <= op.now then 1 else 0;
      Bounded(Step(b, cfg, op).0, cfg, since + n, from, LastReading(op, now))
  {
    var bucket := BucketOf(b, cfg, op.created);
    Times(0, CeilDiv(bucket.windowStart - from, WINDOW), Budget(cfg));
    CeilDivMonotone(bucket.windowStart - from, bucket.windowStart - from);
    assert Bounded(Some(bucket), cfg, since, from, op.created);
    if op.CheckOp? {
      ResetKeepsBound(bucket, cfg, since, from, op.created, op.now);
      var renewed := ResetIfExpired(bucket, op.now);
      WindowElapsed(op.now, bucket.windowStart);
      assert op.now < renewed.windowStart + WINDOW;
    }
  }

  lemma {:induction false} RunBounded(cfg: LimitConfig, ops: seq<Op>, from: int, start: int)
    requires NoReset(ops) && Timed(ops, start)
    ensures Bounded(RunKey(cfg, ops), cfg, AdmittedSince(cfg, ops, from), from, Now(ops, start))
  {
    if ops != [] {
      var op, before := ops[|ops| - 1], ops[..|ops| - 1];
      RunBounded(cfg, before, from, start);
      StepKeepsBound(RunKey(cfg, before), cfg, op, AdmittedSince(cfg, before, from), from, Now(before, start));
    }
  }

  lemma {:induction false} InIsSince(cfg: LimitConfig, ops: seq<Op>, from: int, to: int)
    ensures AdmittedIn(cfg, ops, from, to) <= AdmittedSince(cfg, ops, from)
  {
    if ops != [] {
      InIsSince(cfg, ops[..|ops| - 1], from, to);
    }
  }

  /** The most an interval of this length admits: one window's worth more than its length less one instant
      spans. */
  function MostAdmitted(cfg: LimitConfig, length: int): nat {
    if length <= 0 then 0 else (1 + CeilDiv(length - 1, WINDOW)) * Budget(cfg)
  }

  lemma WithinMost(cfg: LimitConfig, since: int, requests: int, age: int, length: int)
    requires requests <= Budget(cfg) && age <= length - 1 && length >= 1
    requires since <= requests + Budget(cfg) * CeilDiv(age, WINDOW)
    ensures since <= MostAdmitted(cfg, length)
  {
    CeilDivMonotone(age, length - 1);
    Times(CeilDiv(age, WINDOW), CeilDiv(length - 1, WINDOW), Budget(cfg));
  }

  /** No interval of any run admits more, however long the run. */
  lemma {:induction false} AdmissionsBounded(cfg: LimitConfig, ops: seq<Op>, from: int, length: int, start: int)
    requires NoReset(ops) && Timed(ops, start)
    ensures AdmittedIn(cfg, ops, from, from + length) <= MostAdmitted(cfg, length)
  {
    if ops != [] {
      var op, before := ops[|ops| - 1], ops[..|ops| - 1];
      if Admitted(RunKey(cfg, before), cfg, op) && from <= op.now < from + length {
        RunBounded(cfg, ops, from, start);
        InIsSince(cfg, ops, from, from + length);
        var b := RunKey(cfg, ops).value;
        assert b.windowStart <= op.now by {
          RunBounded(cfg, before, from, start);
        }
        WithinMost(cfg, AdmittedSince(cfg, ops, from), b.requests, b.windowStart - from, length);
      } else {
        AdmissionsBounded(cfg, before, from, length, start);
      }
    }
  }

  /** In particular, no 60-second interval admits more than two windows' worth. */
  lemma AtMostTwoWindows(cfg: LimitConfig, ops: seq<Op>, from: int, start: int)
    requires cfg.rpm >= 0 && NoReset(ops) && Timed(ops, start)
    ensures AdmittedIn(cfg, ops, from, from + 60_000_000_000) <= 2 * cfg.rpm
  {
    AdmissionsBounded(cfg, ops, from, WINDOW, start);
    assert CeilDiv(WINDOW - 1, WINDOW) == 1;
  }

  // ----- The bound is reached ---------------------------------------------------

  /** In a window of its own the check is admitted. */
  predicate Fits(cfg: LimitConfig, estimate: int) {
    cfg.rpm >= 1 && estimate <= (if cfg.tpm > 0 then cfg.tpm else 0)
  }

  /** `count` checks at the same instant. */
  function Burst(count: nat, estimate: int, at: int): seq<Op> {
    seq(count, i => CheckOp(estimate, at, at, at))
  }

  /** The bucket as a check at this time finds it. */
  function Seen(cfg: LimitConfig, ops: seq<Op>, at: int): Bucket
    requires RunKey(cfg, ops).Some?
  {
    ResetIfExpired(RunKey(cfg, ops).value, at)
  }

  /** A check in a window with room is admitted and counted. */
  lemma OneAdmitted(cfg: LimitConfig, before: seq<Op>, estimate: int, at: int, from: int, to: int)
    requires RunKey(cfg, before).Some? && from <= at < to
    requires !OverRpm(Seen(cfg, before, at)) && !OverTpm(Seen(cfg, before, at), estimate)
    ensures var ops, b := before + [CheckOp(estimate, at, at, at)], Seen(cfg, before, at);
      RunKey(cfg, ops).Some? && Seen(cfg, ops, at) == b.(requests := b.requests + 1)
      && AdmittedIn(cfg, ops, from, to) == AdmittedIn(cfg, before, from, to) + 1
  {
    var ops := before + [CheckOp(estimate, at, at, at)];
    assert ops[..|ops| - 1] == before;
  }

  lemma {:induction false} BurstAdmitted(cfg: LimitConfig, before: seq<Op>, count: nat, estimate: int, at: int,
                                         from: int, to: int)
    requires RunKey(cfg, before).Some? && from <= at < to && !OverTpm(Seen(cfg, before, at), estimate)
    requires Seen(cfg, before, at).requests + count <= Seen(cfg, before, at).rpmLimit
    ensures var ops, b := before + Burst(count, estimate, at), Seen(cfg, before, at);
      RunKey(cfg, ops).Some? && Seen(cfg, ops, at) == b.(requests := b.requests + count)
      && AdmittedIn(cfg, ops, from, to) == AdmittedIn(cfg, before, from, to) + count
  {
    if count == 0 {
      assert before + Burst(count, estimate, at) == before;
    } else {
      var fewer := before + Burst(count - 1, estimate, at);
      BurstAdmitted(cfg, before, count - 1, estimate, at, from, to);
      OneAdmitted(cfg, fewer, estimate, at, from, to);
      assert before + Burst(count, estimate, at) == fewer + [CheckOp(estimate, at, at, at)];
    }
  }

  lemma {:induction false} BurstTimed(before: seq<Op>, count: nat, estimate: int, at: int, start: int)
    requires Timed(before, start) && NoReset(before) && Now(before, start) <= at
    ensures var ops := before + Burst(count, estimate, at);
      Timed(ops, start) && NoReset(ops) && Now(ops, start) <= at
  {
    var ops := before + Burst(count, estimate, at);
    if count == 0 {
      assert ops == before;
    } else {
      BurstTimed(before, count - 1, estimate, at, start);
      assert ops[..|ops| - 1] == before + Burst(count - 1, estimate, at);
    }
  }

  /** An operation at time 0 that creates the bucket and is not itself an admission: a token record, or a
      check that the token limit denies. */
  predicate OnlyCreates(cfg: LimitConfig, first: Op) {
    Step(None, cfg, first).0 == Some(NewBucket(cfg, 0)) && !Admitted(None, cfg, first)
    && InOrder(first, 0) && LastReading(first, 0) == 0 && !first.ResetOp?
  }

  lemma JustCreated(cfg: LimitConfig, first: Op, from: int, to: int)
    requires OnlyCreates(cfg, first)
    ensures RunKey(cfg, [first]) == Some(NewBucket(cfg, 0)) && AdmittedIn(cfg, [first], from, to) == 0
    ensures Timed([first], 0) && NoReset([first]) && Now([first], 0) == 0
  {
    assert [first][..0] == [];
    assert RunKey(cfg, []) == None && AdmittedIn(cfg, [], from, to) == 0;
    assert Now([], 0) == 0 && Timed([], 0);
  }

  /** When burst i is made: at the last instant of the first window, then at the first of each later one. */
  function BurstAt(i: nat): nat {
    if i == 0 then WINDOW - 1 else i * WINDOW
  }

  /** A bucket created at 0, then k bursts that use up one window's budget each. */
  function Bursts(cfg: LimitConfig, first: Op, estimate: int, k: nat): seq<Op> {
    if k == 0 then [first]
    else Bursts(cfg, first, estimate, k - 1) + Burst(Budget(cfg), estimate, BurstAt(k - 1))
  }

  /** The bucket after k bursts: its window is that of the last burst, its requests used up, its tokens not. */
  ghost predicate UsedUp(cfg: LimitConfig, b: Option<Bucket>, k: nat) {
    b.Some? && b.value == Bucket(cfg.rpm, cfg.tpm, if k == 0 then 0 else Budget(cfg), 0,
                                 if k <= 1 then 0 else (k - 1) * WINDOW)
  }

  /** The next burst finds a window with no admissions yet. */
  lemma NextBurst(cfg: LimitConfig, b: Option<Bucket>, k: nat)
    requires UsedUp(cfg, b, k)
    ensures ResetIfExpired(b.value, BurstAt(k)) == Bucket(cfg.rpm, cfg.tpm, 0, 0, if k == 0 then 0 else k * WINDOW)
  {
    WindowElapsed(BurstAt(k), b.value.windowStart);
  }

  /** A burst leaves the bucket as the next check at the same time finds it. */
  lemma BurstLeaves(cfg: LimitConfig, before: seq<Op>, count: nat, estimate: int, at: int)
    requires count > 0 && RunKey(cfg, before).Some?
    ensures var ops := before + Burst(count, estimate, at);
      RunKey(cfg, ops).Some? && RunKey(cfg, ops).value == Seen(cfg, ops, at)
  {
    var ops, check := before + Burst(count, estimate, at), CheckOp(estimate, at, at, at);
    assert ops[..|ops| - 1] == before + Burst(count - 1, estimate, at) && ops[|ops| - 1] == check;
  }

  lemma OneMoreBurst(cfg: LimitConfig, before: seq<Op>, estimate: int, k: nat, to: int)
    requires Fits(cfg, estimate) && UsedUp(cfg, RunKey(cfg, before), k) && BurstAt(k) < to
    ensures var ops := before + Burst(Budget(cfg), estimate, BurstAt(k));
      UsedUp(cfg, RunKey(cfg, ops), k + 1)
      && AdmittedIn(cfg, ops, WINDOW - 1, to) == AdmittedIn(cfg, before, WINDOW - 1, to) + cfg.rpm
  {
    NextBurst(cfg, RunKey(cfg, before), k);
    BurstAdmitted(cfg, before, cfg.rpm, estimate, BurstAt(k), WINDOW - 1, to);
    BurstLeaves(cfg, before, cfg.rpm, estimate, BurstAt(k));
  }

  lemma LaterBurst(i: nat)
    ensures i > 0 ==> BurstAt(i - 1) < BurstAt(i)
  {}

  function Product(n: nat, x: nat): nat {
    if n == 0 then 0 else Product(n - 1, x) + x
  }

  lemma {:induction false} ProductIs(n: nat, x: nat)
    ensures Product(n, x) == n * x
  {
    if n > 0 {
      ProductIs(n - 1, x);
      assert n * x == (n - 1) * x + x;
    }
  }

  lemma {:induction false} BurstsAdmitted(cfg: LimitConfig, first: Op, estimate: int, k: nat, to: int)
    requires OnlyCreates(cfg, first) && Fits(cfg, estimate) && (k > 0 ==> BurstAt(k - 1) < to)
    ensures UsedUp(cfg, RunKey(cfg, Bursts(cfg, first, estimate, k)), k)
    ensures AdmittedIn(cfg, Bursts(cfg, first, estimate, k), WINDOW - 1, to) == Product(k, cfg.rpm)
  {
    if k == 0 {
      JustCreated(cfg, first, WINDOW - 1, to);
    } else {
      LaterBurst(k - 1);
      BurstsAdmitted(cfg, first, estimate, k - 1, to);
      OneMoreBurst(cfg, Bursts(cfg, first, estimate, k - 1), estimate, k - 1, to);
    }
  }

  lemma {:induction false} BurstsTimed(cfg: LimitConfig, first: Op, estimate: int, k: nat)
    requires OnlyCreates(cfg, first)
    ensures var ops := Bursts(cfg, first, estimate, k);
      Timed(ops, 0) && NoReset(ops) && Now(ops, 0) <= if k == 0 then 0 else BurstAt(k - 1)
  {
    if k == 0 {
      JustCreated(cfg, first, 0, 0);
    } else {
      BurstsTimed(cfg, first, estimate, k - 1);
      BurstTimed(Bursts(cfg, first, estimate, k - 1), Budget(cfg), estimate, BurstAt(k - 1), 0);
    }
  }

  /** How many bursts fall into an interval of this length that starts with the first one. */
  function BurstsIn(length: int): nat {
    if length <= 0 then 0 else 1 + CeilDiv(length - 1, WINDOW)
  }

  /** The bound is reached from any operation that only creates the bucket, by any checks that fit. */
  lemma BoundReachedFrom(cfg: LimitConfig, first: Op, estimate: int, length: int)
    requires OnlyCreates(cfg, first) && Fits(cfg, estimate) && length >= 1
    ensures var ops := Bursts(cfg, first, estimate, BurstsIn(length));
      Timed(ops, 0) && NoReset(ops)
      && AdmittedIn(cfg, ops, WINDOW - 1, WINDOW - 1 + length) == MostAdmitted(cfg, length)
  {
    var c := CeilDiv(length - 1, WINDOW);
    BurstsTimed(cfg, first, estimate, 1 + c);
    assert c * WINDOW < length - 1 + WINDOW;
    BurstsAdmitted(cfg, first, estimate, 1 + c, WINDOW - 1 + length);
    ProductIs(1 + c, cfg.rpm);
  }

  /** The bound is exact: for every limit and every length some legal run admits just as many. */
  lemma BoundReached(cfg: LimitConfig, length: int)
    requires cfg.rpm >= 1 && length >= 1
    ensures var ops := Bursts(cfg, RecordOp(0, 0), 0, BurstsIn(length));
      Timed(ops, 0) && NoReset(ops)
      && AdmittedIn(cfg, ops, WINDOW - 1, WINDOW - 1 + length) == MostAdmitted(cfg, length)
  {
    BoundReachedFrom(cfg, RecordOp(0, 0), 0, length);
  }

  /** In particular some run admits twice the limit within 60 seconds. */
  lemma TwoWindowsReached(cfg: LimitConfig)
    requires cfg.rpm >= 1
    ensures var ops := Bursts(cfg, RecordOp(0, 0), 0, 2);
      Timed(ops, 0) && NoReset(ops)
      && AdmittedIn(cfg, ops, WINDOW - 1, WINDOW - 1 + 60_000_000_000) == 2 * cfg.rpm
  {
    assert CeilDiv(WINDOW - 1, WINDOW) == 1;
    BoundReached(cfg, WINDOW);
  }

  // ----- What the counters count ---------------------------------------------------

  /** Requests admitted by the operations from index i on. */
  function AdmittedFrom(cfg: LimitConfig, ops: seq<Op>, i: nat): nat {
    if |ops| <= i then 0
    else
      var op, before := ops[|ops| - 1], ops[..|ops| - 1];
      AdmittedFrom(cfg, before, i) + (if Admitted(RunKey(cfg, before), cfg, op) then 1 else 0)
  }

  /** Tokens recorded by the operations from index i on. */
  function TokensFrom(ops: seq<Op>, i: nat): int {
    if |ops| <= i then 0
    else
      var op := ops[|ops| - 1];
      TokensFrom(ops[..|ops| - 1], i) + (if op.RecordOp? then op.tokens else 0)
  }

  /** The operation that opened the current window: it created the bucket or found the last window over. */
  predicate Opens(op: Op, windowStart: int) {
    match op
    case CheckOp(_, created, now, _) => windowStart == created || windowStart == now
    case RecordOp(_, created) => windowStart == created
    case ResetOp => false
  }

  /** The counters hold exactly the admissions and tokens since the operation that opened the window. */
  lemma {:induction false} CountersCountWindow(cfg: LimitConfig, ops: seq<Op>) returns (i: nat)
    requires RunKey(cfg, ops).Some?
    ensures var b := RunKey(cfg, ops).value;
      i < |ops| && Opens(ops[i], b.windowStart)
      && b.requests == AdmittedFrom(cfg, ops, i) && b.tokens == TokensFrom(ops, i)
  {
    var op, before := ops[|ops| - 1], ops[..|ops| - 1];
    var b0 := RunKey(cfg, before);
    if b0.None? || (op.CheckOp? && ResetIfExpired(b0.value, op.now) != b0.value) {
      i := |ops| - 1;
      assert |before| <= i;
    } else {
      i := CountersCountWindow(cfg, before);
      assert before[i] == ops[i];
    }
  }

  // ----- The retry hint -----------------------------------------------------------

  /** Reachable buckets: limits from the configuration, a window that started in the past. */
  lemma {:induction false} RunWindow(cfg: LimitConfig, ops: seq<Op>, start: int)
    requires Timed(ops, start)
    ensures var b := RunKey(cfg, ops);
      b.Some? ==> b.value.rpmLimit == cfg.rpm && b.value.tpmLimit == cfg.tpm && b.value.windowStart <= Now(ops, start)
  {
    if ops != [] {
      RunWindow(cfg, ops[..|ops| - 1], start);
    }
  }

  /** No operation of the run reads the clock at or after `end`. */
  ghost predicate Before(ops: seq<Op>, end: int) {
    forall i :: 0 <= i < |ops| ==> match ops[i]
      case CheckOp(_, _, now, _) => now < end
      case RecordOp(tokens, _) => tokens >= 0
      case ResetOp => false
  }

  /** Within one window the counters only grow. */
  lemma {:induction false} CountersGrow(cfg: LimitConfig, first: seq<Op>, more: seq<Op>, start: int)
    requires Timed(first + more, start) && RunKey(cfg, first).Some?
    requires Before(more, RunKey(cfg, first).value.windowStart + WINDOW)
    requires Now(first, start) >= RunKey(cfg, first).value.windowStart
    ensures var b, b' := RunKey(cfg, first).value, RunKey(cfg, first + more);
      && b'.Some? && b'.value.windowStart == b.windowStart
      && b'.value.rpmLimit == b.rpmLimit && b'.value.tpmLimit == b.tpmLimit
      && b'.value.requests >= b.requests && b'.value.tokens >= b.tokens
      && Now(first + more, start) >= b.windowStart
  {
    var ops := first + more;
    if more == [] {
      assert ops == first;
    } else {
      var fewer := more[..|more| - 1];
      assert ops[..|ops| - 1] == first + fewer && ops[|ops| - 1] == more[|more| - 1];
      assert forall i :: 0 <= i < |fewer| ==> fewer[i] == more[i];
      CountersGrow(cfg, first, fewer, start);
      if more[|more| - 1].CheckOp? {
        WindowElapsed(more[|more| - 1].now, RunKey(cfg, first).value.windowStart);
      }
    }
  }

  /** A denied check stays denied for the rest of its window, whatever is checked or recorded meanwhile. */
  lemma DeniedUntilWindowEnd(cfg: LimitConfig, ops: seq<Op>, denied: Op, more: seq<Op>, again: Op, start: int)
    requires denied.CheckOp? && again.CheckOp? && again.estimate == denied.estimate
    requires Timed(ops + [denied] + more + [again], start)
    requires !Step(RunKey(cfg, ops), cfg, denied).1.value.allowed
    requires var end := Step(RunKey(cfg, ops), cfg, denied).0.value.windowStart + WINDOW;
      again.now < end && Before(more, end)
    ensures !Step(RunKey(cfg, ops + [denied] + more), cfg, again).1.value.allowed
  {
    var first := ops + [denied];
    var all := first + more + [again];
    assert all[..|all| - 1] == first + more && all[|all| - 1] == again;
    assert first[..|first| - 1] == ops && first[|first| - 1] == denied;
    TimedPrefix(first, more, start);
    RunWindow(cfg, first, start);
    CountersGrow(cfg, first, more, start);
    var b := RunKey(cfg, first + more).value;
    WindowElapsed(again.now, b.windowStart);
  }

  lemma {:induction false} TimedPrefix(first: seq<Op>, more: seq<Op>, start: int)
    requires Timed(first + more, start)
    ensures Timed(first, start)
  {
    if more == [] {
      assert first + more == first;
    } else {
      var ops := first + more;
      assert ops[..|ops| - 1] == first + more[..|more| - 1];
      TimedPrefix(first, more[..|more| - 1], start);
    }
  }

  /** The hint is enough: the next check of the key is admitted once that many seconds have passed. */
  lemma RetryAfterSuffices(cfg: LimitConfig, ops: seq<Op>, denied: Op, again: Op, start: int)
    requires denied.CheckOp? && again.CheckOp? && Timed(ops + [denied] + [again], start)
    requires Fits(cfg, again.estimate)
    requires var r := Step(RunKey(cfg, ops), cfg, denied).1.value;
      !r.allowed && again.now >= denied.later + r.retryAfterSec * 1_000_000_000
    ensures Step(RunKey(cfg, ops + [denied]), cfg, again).1.value.allowed
  {
    var first := ops + [denied];
    assert (first + [again])[..|first|] == first;
    assert first[..|first| - 1] == ops && first[|first| - 1] == denied;
    RunWindow(cfg, first, start);
    var b := RunKey(cfg, first).value;
    assert b.windowStart <= denied.later by {
      TimedPrefix(ops, [denied], start);
      RunWindow(cfg, ops, start);
    }
    var elapsed := denied.later - b.windowStart;
    assert WholeSeconds(elapsed) * NANOS <= elapsed < (WholeSeconds(elapsed) + 1) * NANOS;
    WindowElapsed(again.now, b.windowStart);
  }

  /** The hint is exact: retried after a positive whole number of seconds with nothing in between,
      the same check is admitted if and only if that number is at least the hint. */
  lemma RetryAfterExact(cfg: LimitConfig, ops: seq<Op>, denied: Op, again: Op, seconds: int, start: int)
    requires denied.CheckOp? && again.CheckOp? && Timed(ops + [denied] + [again], start)
    requires again.estimate == denied.estimate && Fits(cfg, denied.estimate)
    requires !Step(RunKey(cfg, ops), cfg, denied).1.value.allowed
    requires seconds >= 1 && again.now == denied.later + seconds * 1_000_000_000
    ensures Step(RunKey(cfg, ops + [denied]), cfg, again).1.value.allowed
       <==> seconds >= Step(RunKey(cfg, ops), cfg, denied).1.value.retryAfterSec
  {
    var r := Step(RunKey(cfg, ops), cfg, denied).1.value;
    if seconds >= r.retryAfterSec {
      RetryAfterSuffices(cfg, ops, denied, again, start);
    } else {
      var first := ops + [denied];
      assert (first + [again])[..|first|] == first;
      assert first[..|first| - 1] == ops && first[|first| - 1] == denied;
      RunWindow(cfg, first, start);
      var b := RunKey(cfg, first).value;
      assert b.windowStart <= denied.later by {
        TimedPrefix(ops, [denied], start);
        RunWindow(cfg, ops, start);
      }
      var elapsed := denied.later - b.windowStart;
      assert elapsed < (WholeSeconds(elapsed) + 1) * NANOS;
      assert first + [] == first;
      DeniedUntilWindowEnd(cfg, ops, denied, [], again, start);
    }
  }

  // ----- Independence of keys -----------------------------------------------------

  datatype KeyedOp = KeyedOp(key: string, op: Op)

  function StepAll(m: map<string, Bucket>, cfg: LimitConfig, k: KeyedOp): (map<string, Bucket>, Option<Result>) {
    match k.op
    case CheckOp(estimate, created, now, later) =>
      var (m', r) := Check(m, cfg, k.key, estimate, created, now, later);
      (m', Some(r))
    case RecordOp(tokens, created) => (Record(m, cfg, k.key, tokens, created), None)
    case ResetOp => (m - {k.key}, None)
  }

  function RunAll(cfg: LimitConfig, ops: seq<KeyedOp>): map<string, Bucket> {
    if ops == [] then map[] else StepAll(RunAll(cfg, ops[..|ops| - 1]), cfg, ops[|ops| - 1]).0
  }

  /** What one key is told in an interleaved run. */
  function AnswersTo(cfg: LimitConfig, ops: seq<KeyedOp>, key: string): seq<Option<Result>> {
    if ops == [] then []
    else
      var k, before := ops[|ops| - 1], ops[..|ops| - 1];
      AnswersTo(cfg, before, key)
      + (if k.key == key then [StepAll(RunAll(cfg, before), cfg, k).1] else [])
  }

  /** The run with every other key's operations deleted. */
  function Only(ops: seq<KeyedOp>, key: string): seq<Op> {
    if ops == [] then []
    else
      var k := ops[|ops| - 1];
      Only(ops[..|ops| - 1], key) + (if k.key == key then [k.op] else [])
  }

  function At(m: map<string, Bucket>, key: string): Option<Bucket> {
    if key in m then Some(m[key]) else None
  }

  /** Only a key's own operations change its bucket. */
  lemma StepAllIsLocal(m: map<string, Bucket>, cfg: LimitConfig, k: KeyedOp, key: string)
    ensures At(StepAll(m, cfg, k).0, key) == if k.key == key then Step(At(m, key), cfg, k.op).0 else At(m, key)
    ensures k.key == key ==> StepAll(m, cfg, k).1 == Step(At(m, key), cfg, k.op).1
  {}

  lemma {:induction false} BucketsAreIndependent(cfg: LimitConfig, ops: seq<KeyedOp>, key: string)
    ensures At(RunAll(cfg, ops), key) == RunKey(cfg, Only(ops, key))
  {
    if ops != [] {
      var k, before := ops[|ops| - 1], ops[..|ops| - 1];
      BucketsAreIndependent(cfg, before, key);
      StepAllIsLocal(RunAll(cfg, before), cfg, k, key);
      var only := Only(before, key);
      assert (only + [k.op])[..|only|] == only && only + [] == only;
    }
  }

  /** Every key is told exactly what it would be told alone. */
  lemma {:induction false} KeysAreIndependent(cfg: LimitConfig, ops: seq<KeyedOp>, key: string)
    ensures AnswersTo(cfg, ops, key) == Answers(cfg, Only(ops, key))
  {
    if ops != [] {
      var k, before := ops[|ops| - 1], ops[..|ops| - 1];
      KeysAreIndependent(cfg, before, key);
      BucketsAreIndependent(cfg, before, key);
      StepAllIsLocal(RunAll(cfg, before), cfg, k, key);
      var only := Only(before, key);
      if k.key == key {
        assert (only + [k.op])[..|only|] == only;
      } else {
        assert only + [] == only;
      }
    }
  }
}
