/** When a failed read is tried again: the backoff it waits, what the jitter adds,
    and exactly when there is no further attempt. */
module RetryLaws {
  import opened Common
  import opened ReadRequests
  import RateBudget

  /** The backoff starts at the initial one and doubles up to the maximum; after
      the sixty-fourth attempt it stays. */
  lemma BackoffDoubles(policy: RetryPolicy, attempt: nat)
    requires policy.Valid()
    ensures Backoff(policy, 0) == policy.initialBackoff
    ensures Backoff(policy, attempt + 1) ==
              if attempt < 63 then Smaller(2 * Backoff(policy, attempt), policy.maximumBackoff)
              else Backoff(policy, attempt)
  {
    if attempt < 63 {
      var product := policy.initialBackoff * Power2(attempt);
      assert policy.initialBackoff * Power2(attempt + 1) == 2 * product by {
        assert Power2(attempt + 1) == 2 * Power2(attempt);
      }
    }
  }

  /** The span is the configured share of the backoff, rounded down; the hash picks
      a delay in it, and the ends are reached. */
  lemma JitterIsPickedByHash(policy: RetryPolicy, attempt: nat, failure: Failure, hash: nat)
    requires policy.Valid() && !failure.InvalidResponse? && !failure.Permanent?
    requires failure.RateLimited? ==> failure.retryAfter.None?
    ensures var backoff := Backoff(policy, attempt);
            var span, delay := JitterSpan(policy, backoff), DelayMs(policy, attempt, failure, hash);
            && span * 10_000 <= backoff * policy.jitterBps < (span + 1) * 10_000 && span <= backoff
            && delay == Some(Smaller(backoff - span + hash % (2 * span + 1), U64_MAX))
  {
    BackoffIsBounded(policy, attempt);
    JitterIsAShare(Backoff(policy, attempt), policy.jitterBps);
    hide Backoff;
  }

  /** There is no further attempt after the last one allowed, after the lifetime,
      when the failure is final, or when the wait is none or would outlast the
      request. */
  lemma RetryStopsWhen(policy: RetryPolicy, r: Request, failure: Failure, now: nat, hash: nat)
    requires policy.Valid()
    ensures var spent := r.attempt + 1 >= policy.maximumAttempts || now >= r.createdAt + policy.maximumLifetime;
            var final := failure.InvalidResponse? || failure.Permanent? || failure == RateLimited(Some(0));
            var delay := DelayMs(policy, r.attempt, failure, hash);
            && (delay.None? <==> final)
            && (Retry(policy, r, failure, now, hash) ==
                  if spent then Err(RetryExhausted)
                  else if final then Err(if failure.InvalidResponse? then ResponseInvalid else PermanentFailure)
                  else if delay.value == 0 || now + delay.value >= r.expiresAt
                          || now + delay.value > r.createdAt + policy.maximumLifetime || now + delay.value > U64_MAX
                       then Err(RetryExhausted)
                       else Ok(r.(attempt := r.attempt + 1, notBefore := now + delay.value)))
  {
    DelayIsWithinJitter(policy, r.attempt, failure, hash);
    hide DelayMs;
  }

  /** Only full jitter can bring a delay down to nothing, which ends the retries. */
  lemma DelayIsNothingWhen(policy: RetryPolicy, attempt: nat, failure: Failure, hash: nat)
    requires policy.Valid()
    ensures DelayMs(policy, attempt, failure, hash) == Some(0) <==>
              && !failure.InvalidResponse? && !failure.Permanent?
              && (failure.RateLimited? ==> failure.retryAfter.None?)
              && policy.jitterBps == 10_000 && hash % (2 * Backoff(policy, attempt) + 1) == 0
  {
    BackoffIsBounded(policy, attempt);
    FullShare(Backoff(policy, attempt), policy.jitterBps);
    if !failure.InvalidResponse? && !failure.Permanent? && (failure.RateLimited? ==> failure.retryAfter.None?) {
      JitterIsPickedByHash(policy, attempt, failure, hash);
    }
    hide Backoff;
  }

  lemma FullShare(backoff: nat, jitterBps: nat)
    requires backoff > 0 && jitterBps <= 10_000
    ensures backoff * jitterBps / 10_000 <= backoff
    ensures backoff * jitterBps / 10_000 == backoff <==> jitterBps == 10_000
  {
    if jitterBps < 10_000 {
      assert backoff * jitterBps < backoff * 10_000;
    }
  }
}
