/** The token bucket pool by pool: what a refill adds, when a charge is made, and
    what it takes. */
module BudgetLaws {
  import opened Common
  import opened RateBudget

  /** Every pool starts full: the total, the total less the reserve, the source
      weight, and what the source leaves of the normal weight. */
  lemma NewBucketIsFull(limits: Limits, now: nat, pool: Pool)
    requires limits.Valid()
    ensures var b := NewBucket(limits, now);
            && b.weights.Of(pool) == (match pool
                                      case TotalPool => limits.totalWeight
                                      case NormalPool => limits.totalWeight - limits.reservedWeight
                                      case SourcePool => limits.sourceWeight
                                      case EnrichmentPool =>
                                        limits.totalWeight - limits.reservedWeight - limits.sourceWeight)
            && b.units.Of(pool) == b.weights.Of(pool) * limits.windowMs && b.consumed.Of(pool) == 0
            && b.windowMs == limits.windowMs && b.lastRefill == b.windowStart == now
  {
  }

  /** Each millisecond since the last refill adds a pool's weight in units, up to
      its capacity; an accounting window that is over starts again from nothing. */
  lemma RefillAddsByTime(b: Bucket, now: nat, pool: Pool)
    requires Sound(b)
    ensures var after := Refill(b, now);
            var elapsed := if now <= b.lastRefill then 0 else now - b.lastRefill;
            && after.units.Of(pool) ==
                 Smaller(b.units.Of(pool) + b.weights.Of(pool) * elapsed, b.weights.Of(pool) * b.windowMs)
            && after.lastRefill == b.lastRefill + elapsed
            && (var over := elapsed > 0 && now >= b.windowStart + b.windowMs;
                && after.consumed.Of(pool) == (if over then 0 else b.consumed.Of(pool))
                && after.windowStart == if over then now else b.windowStart)
  {
    UnitsFitCapacity(b, pool);
    CapacityOf(b, pool);
    TopUpOf(b, Elapsed(now, b.lastRefill), pool);
    hide TopUp;
  }

  lemma CapacityOf(b: Bucket, pool: Pool)
    requires Sound(b)
    ensures b.capacity.Of(pool) == b.weights.Of(pool) * b.windowMs
  {
  }

  lemma TopUpOf(b: Bucket, elapsed: nat, pool: Pool)
    ensures TopUp(b, elapsed).Of(pool) ==
              Smaller(b.units.Of(pool) + b.weights.Of(pool) * elapsed, b.capacity.Of(pool))
  {
  }

  /** A pool has the weight left, in its window and in units. */
  predicate Covers(b: Bucket, weight: nat, pool: Pool) {
    b.consumed.Of(pool) + weight <= b.weights.Of(pool) && weight * b.windowMs <= b.units.Of(pool)
  }

  /** A charge is made exactly when every pool it draws on covers it. */
  lemma ChargedWhen(b: Bucket, kind: BudgetClass, weight: nat, now: nat)
    requires Sound(b)
    ensures Outcome(b, kind, weight, now) == Charged <==>
              forall pool: Pool :: Draws(kind, pool) ==> Covers(Refill(b, now), weight, pool)
  {
    var ready := Refill(b, now);
    RefillIsSound(b, now);
    hide Refill;
    UnitsFitCapacity(ready, TotalPool);
    UnitsFitCapacity(ready, NormalPool);
    UnitsFitCapacity(ready, SourcePool);
    UnitsFitCapacity(ready, EnrichmentPool);
    forall pool: Pool | Decide(ready, kind, weight) == Charged && Draws(kind, pool)
      ensures Covers(ready, weight, pool)
    {
    }
    if forall pool: Pool :: Draws(kind, pool) ==> Covers(ready, weight, pool) {
      assert Covers(ready, weight, TotalPool);
      assert kind != Critical ==> Covers(ready, weight, NormalPool);
      assert kind == SourcePolling ==> Covers(ready, weight, SourcePool);
      assert kind == Normal ==> Covers(ready, weight, EnrichmentPool);
    }
  }

  /** A charge takes its weight from each pool it draws on, in units and in the
      window's count, and from no other; a refusal takes nothing. */
  lemma ChargeTakesItsWeight(b: Bucket, kind: BudgetClass, weight: nat, now: nat, pool: Pool)
    requires Sound(b)
    ensures var ready, after := Refill(b, now), Charge(b, kind, weight, now);
            var taken := if Outcome(b, kind, weight, now) == Charged && Draws(kind, pool) then weight else 0;
            && after.units.Of(pool) == ready.units.Of(pool) - taken * b.windowMs
            && after.consumed.Of(pool) == ready.consumed.Of(pool) + taken
            && after.weights == b.weights && after.windowMs == b.windowMs
            && after.lastRefill == ready.lastRefill && after.windowStart == ready.windowStart
  {
    ElapsedRefill(b, now, pool);
    hide Refill, Sound;
  }
}
