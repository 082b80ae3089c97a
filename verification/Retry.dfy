/** The retry wrapper around every outbound provider call. */
module Retry {
  import opened Types

  /** One outbound attempt: a response, or the message of the exception it throws. */
  datatype Attempt = Returned(response: ChatResponse) | Threw(error: string)

  function Pow2(k: nat): (p: nat)
    ensures p >= 1
  {
    if k == 0 then 1 else 2 * Pow2(k - 1)
  }

  ghost predicate FirstSuccess(fn: nat -> Attempt, k: nat) {
    fn(k).Returned? && forall i :: 0 <= i < k ==> fn(i).Threw?
  }

  ghost predicate AllThrow(fn: nat -> Attempt, n: nat) {
    forall i :: 0 <= i < n ==> fn(i).Threw?
  }

  /** The outcome of the call: the first success, or else the last failure. */
  function Outcome(fn: nat -> Attempt, attempt: nat, maxRetries: nat): Attempt
    requires attempt <= maxRetries
    decreases maxRetries - attempt
  {
    if fn(attempt).Returned? || attempt == maxRetries then fn(attempt)
    else Outcome(fn, attempt + 1, maxRetries)
  }

  function Call(fn: nat -> Attempt, maxRetries: nat): Attempt {
    Outcome(fn, 0, maxRetries)
  }

  /** Runs `fn` until it returns or max_retries + 1 attempts have failed, sleeping between attempts. */
  method WithRetry(fn: nat -> Attempt, maxRetries: nat) returns (r: Attempt, tries: nat, sleptMs: nat)
    ensures r == Call(fn, maxRetries)
    ensures r.Returned? ==>
      tries <= maxRetries + 1 && tries > 0 && FirstSuccess(fn, tries - 1) && r == fn(tries - 1)
      && sleptMs == 100 * (Pow2(tries - 1) - 1)
    ensures r.Threw? ==>
      tries == maxRetries + 1 && AllThrow(fn, tries) && r == fn(maxRetries)
      && sleptMs == 100 * (Pow2(maxRetries) - 1)
  {
    r := Threw("");
    sleptMs := 0;
    var attempt := 0;
    while attempt <= maxRetries
      invariant 0 <= attempt <= maxRetries + 1
      invariant AllThrow(fn, attempt)
      invariant attempt > 0 ==> r == fn(attempt - 1)
      invariant attempt <= maxRetries ==> Call(fn, maxRetries) == Outcome(fn, attempt, maxRetries)
      invariant attempt == maxRetries + 1 ==> r == Call(fn, maxRetries)
      invariant sleptMs == 100 * (Pow2(if attempt <= maxRetries then attempt else maxRetries) - 1)
    {
      r := fn(attempt);
      if r.Returned? {
        return r, attempt + 1, sleptMs;
      }
      if attempt < maxRetries {
        var delayMs := 100 * Pow2(attempt);
        sleptMs := sleptMs + delayMs;
      }
      attempt := attempt + 1;
    }
    tries := attempt;
  }

  /** Some attempt within the retries returns. */
  ghost predicate Returns(fn: nat -> Attempt, maxRetries: nat) {
    exists j: nat :: j <= maxRetries && fn(j).Returned?
  }

  lemma {:induction false} OutcomeFrom(fn: nat -> Attempt, attempt: nat, maxRetries: nat) returns (k: nat)
    requires attempt <= maxRetries && AllThrow(fn, attempt)
    ensures attempt <= k <= maxRetries && Outcome(fn, attempt, maxRetries) == fn(k)
    ensures if fn(k).Returned? then FirstSuccess(fn, k) else AllThrow(fn, maxRetries + 1) && k == maxRetries
    decreases maxRetries - attempt
  {
    if fn(attempt).Returned? || attempt == maxRetries {
      k := attempt;
    } else {
      k := OutcomeFrom(fn, attempt + 1, maxRetries);
    }
  }

  /** A call returns exactly when an attempt within its retries does, and then with the first that does;
      otherwise with the last failure. */
  lemma CallIs(fn: nat -> Attempt, maxRetries: nat) returns (k: nat)
    ensures k <= maxRetries && Call(fn, maxRetries) == fn(k)
    ensures Call(fn, maxRetries).Returned? <==> Returns(fn, maxRetries)
    ensures if fn(k).Returned? then FirstSuccess(fn, k) else k == maxRetries
  {
    k := OutcomeFrom(fn, 0, maxRetries);
  }

  lemma {:induction false} Pow2Monotone(a: nat, b: nat)
    requires a <= b
    ensures Pow2(a) <= Pow2(b)
  {
    if a < b {
      Pow2Monotone(a, b - 1);
    }
  }

  /** Every delay fits a signed 32-bit integer exactly when at most 25 retries are configured. */
  lemma DelaysFitExactly(maxRetries: nat)
    ensures (forall attempt :: 0 <= attempt < maxRetries ==> 100 * Pow2(attempt) < 0x8000_0000)
       <==> maxRetries <= 25
  {
    Pow2At24();
    forall attempt | 0 <= attempt < maxRetries ensures maxRetries <= 25 ==> 100 * Pow2(attempt) < 0x8000_0000 {
      if attempt <= 24 {
        Pow2Monotone(attempt, 24);
      }
    }
    assert Pow2(25) == 2 * Pow2(24);
  }

  lemma Pow2At24()
    ensures Pow2(24) == 0x100_0000
  {
    assert Pow2(8) == 256;
    assert Pow2(16) == 65536;
  }
}
