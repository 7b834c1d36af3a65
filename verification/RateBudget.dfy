/** The weighted token bucket of `crates/copytrade-core/src/scheduler.rs`: four
    pools of budget units, refilled by elapsed time, with a count of what each
    accounting window has consumed. */
module RateBudget {
  import opened Common

  datatype Pool = TotalPool | NormalPool | SourcePool | EnrichmentPool

  datatype BudgetClass = Normal | SourcePolling | Critical

  datatype Decision = Charged | Insufficient | Overweight

  /** One figure for each pool. */
  datatype Pools = Pools(total: nat, normal: nat, source: nat, enrichment: nat) {
    function Of(pool: Pool): nat {
      match pool
      case TotalPool => total
      case NormalPool => normal
      case SourcePool => source
      case EnrichmentPool => enrichment
    }
  }

  /** Which pools a charge of this kind draws on. */
  predicate Draws(kind: BudgetClass, pool: Pool) {
    match pool
    case TotalPool => true
    case NormalPool => kind != Critical
    case SourcePool => kind == SourcePolling
    case EnrichmentPool => kind == Normal
  }

  datatype Limits = Limits(totalWeight: nat, reservedWeight: nat, sourceWeight: nat, windowMs: nat) {
    predicate Valid() {
      && 0 < totalWeight
      && reservedWeight < totalWeight
      && 0 < windowMs
      && 0 < sourceWeight < totalWeight - reservedWeight
    }

    /** Weight per window, which is also the units refilled each millisecond. */
    function Weights(): Pools
      requires Valid()
    {
      var normal := totalWeight - reservedWeight;
      Pools(totalWeight, normal, sourceWeight, normal - sourceWeight)
    }
  }

  datatype Bucket = Bucket(
    weights: Pools, windowMs: nat, capacity: Pools, units: Pools, lastRefill: nat,
    windowStart: nat, consumed: Pools)

  function Scale(weights: Pools, factor: nat): Pools {
    Pools(weights.total * factor, weights.normal * factor, weights.source * factor, weights.enrichment * factor)
  }

  function NewBucket(limits: Limits, now: nat): Bucket
    requires limits.Valid()
  {
    var capacity := Scale(limits.Weights(), limits.windowMs);
    Bucket(limits.Weights(), limits.windowMs, capacity, capacity, now, now, Pools(0, 0, 0, 0))
  }

  // ------------------------------------------------------------- operations

  function Elapsed(now: nat, since: nat): nat {
    if now < since then 0 else now - since
  }

  function CappedSum(x: nat, y: nat, cap: nat): nat {
    if x + y < cap then x + y else cap
  }

  function TopUp(b: Bucket, elapsed: nat): Pools {
    var added := Scale(b.weights, elapsed);
    Pools(
      CappedSum(b.units.total, added.total, b.capacity.total),
      CappedSum(b.units.normal, added.normal, b.capacity.normal),
      CappedSum(b.units.source, added.source, b.capacity.source),
      CappedSum(b.units.enrichment, added.enrichment, b.capacity.enrichment))
  }

  function Refill(b: Bucket, now: nat): Bucket {
    var elapsed := Elapsed(now, b.lastRefill);
    if elapsed == 0 then b
    else
      var topped := b.(units := TopUp(b, elapsed), lastRefill := now);
      if Elapsed(now, b.windowStart) >= b.windowMs
      then topped.(windowStart := now, consumed := Pools(0, 0, 0, 0))
      else topped
  }

  predicate ExceedsAny(kind: BudgetClass, amounts: Pools, limits: Pools) {
    || amounts.total > limits.total
    || (kind != Critical && amounts.normal > limits.normal)
    || (kind == SourcePolling && amounts.source > limits.source)
    || (kind == Normal && amounts.enrichment > limits.enrichment)
  }

  function Same(x: nat): Pools {
    Pools(x, x, x, x)
  }

  function Plus(a: Pools, x: nat): Pools {
    Pools(a.total + x, a.normal + x, a.source + x, a.enrichment + x)
  }

  /** The decision on a bucket that has just been refilled. */
  function Decide(b: Bucket, kind: BudgetClass, weight: nat): Decision {
    var requested := weight * b.windowMs;
    if ExceedsAny(kind, Same(requested), b.capacity) then Overweight
    else if ExceedsAny(kind, Plus(b.consumed, weight), b.weights) then Insufficient
    else if ExceedsAny(kind, Same(requested), b.units) then Insufficient
    else Charged
  }

  function Less(a: Pools, kind: BudgetClass, x: nat): Pools
    requires !ExceedsAny(kind, Same(x), a)
  {
    Pools(
      a.total - x,
      if kind != Critical then a.normal - x else a.normal,
      if kind == SourcePolling then a.source - x else a.source,
      if kind == Normal then a.enrichment - x else a.enrichment)
  }

  function More(a: Pools, kind: BudgetClass, x: nat): Pools {
    Pools(
      a.total + x,
      if kind != Critical then a.normal + x else a.normal,
      if kind == SourcePolling then a.source + x else a.source,
      if kind == Normal then a.enrichment + x else a.enrichment)
  }

  function Debit(b: Bucket, kind: BudgetClass, weight: nat): Bucket
    requires Decide(b, kind, weight) == Charged
  {
    b.(units := Less(b.units, kind, weight * b.windowMs), consumed := More(b.consumed, kind, weight))
  }

  function Charge(b: Bucket, kind: BudgetClass, weight: nat, now: nat): Bucket {
    var ready := Refill(b, now);
    if Decide(ready, kind, weight) == Charged then Debit(ready, kind, weight) else ready
  }

  function Outcome(b: Bucket, kind: BudgetClass, weight: nat, now: nat): Decision {
    Decide(Refill(b, now), kind, weight)
  }

  // -------------------------------------------------------------- invariant

  predicate AtMost(a: Pools, b: Pools) {
    a.total <= b.total && a.normal <= b.normal && a.source <= b.source && a.enrichment <= b.enrichment
  }

  /** What every bucket made from valid limits keeps. */
  ghost predicate Sound(b: Bucket) {
    && b.windowMs > 0
    && b.capacity == Scale(b.weights, b.windowMs)
    && b.weights.normal == b.weights.source + b.weights.enrichment
    && b.weights.normal <= b.weights.total
    && AtMost(b.units, b.capacity)
    && AtMost(b.consumed, b.weights)
    && b.units.source + b.units.enrichment <= b.units.normal
    && b.consumed.normal == b.consumed.source + b.consumed.enrichment
    && b.consumed.normal <= b.consumed.total
    && b.windowStart <= b.lastRefill
  }

  lemma NewBucketIsSound(limits: Limits, now: nat)
    requires limits.Valid()
    ensures Sound(NewBucket(limits, now))
  {
  }

  /** The weight only critical charges may use. */
  function Reserve(b: Bucket): nat
    requires b.weights.normal <= b.weights.total
  {
    b.weights.total - b.weights.normal
  }

  lemma ScaleSplits(whole: nat, a: nat, b: nat, factor: nat)
    requires whole == a + b
    ensures whole * factor == a * factor + b * factor
  {
  }

  /** Refilling, with every product named. */
  lemma Portions(b: Bucket, factor: nat)
    requires b.weights.normal == b.weights.source + b.weights.enrichment && b.weights.normal <= b.weights.total
    ensures var added := Scale(b.weights, factor);
            && added.normal == added.source + added.enrichment
            && added.total == added.normal + Reserve(b) * factor
  {
  }

  lemma RefillIsSound(b: Bucket, now: nat)
    requires Sound(b)
    ensures Sound(Refill(b, now))
  {
    Portions(b, b.windowMs);
    Portions(b, Elapsed(now, b.lastRefill));
    hide Scale;
  }

  lemma DebitIsSound(b: Bucket, kind: BudgetClass, weight: nat)
    requires Sound(b) && Decide(b, kind, weight) == Charged
    ensures Sound(Debit(b, kind, weight))
  {
  }

  lemma ChargeIsSound(b: Bucket, kind: BudgetClass, weight: nat, now: nat)
    requires Sound(b)
    ensures Sound(Charge(b, kind, weight, now))
  {
    hide Sound, Decide;
    RefillIsSound(b, now);
    if Decide(Refill(b, now), kind, weight) == Charged {
      DebitIsSound(Refill(b, now), kind, weight);
    }
  }

  // ------------------------------------------------------------------- runs

  datatype Op = Poll(now: nat) | Request(kind: BudgetClass, weight: nat, now: nat)

  function Step(b: Bucket, op: Op): Bucket {
    match op
    case Poll(now) => Refill(b, now)
    case Request(kind, weight, now) => Charge(b, kind, weight, now)
  }

  /** The weight an operation took from a pool. */
  function Taken(b: Bucket, op: Op, pool: Pool): nat {
    if op.Request? && Outcome(b, op.kind, op.weight, op.now) == Charged && Draws(op.kind, pool) then op.weight else 0
  }

  function Run(b: Bucket, ops: seq<Op>): Bucket
    decreases |ops|
  {
    if ops == [] then b else Run(Step(b, ops[0]), ops[1..])
  }

  function TakenInRun(b: Bucket, ops: seq<Op>, pool: Pool): nat
    decreases |ops|
  {
    if ops == [] then 0 else Taken(b, ops[0], pool) + TakenInRun(Step(b, ops[0]), ops[1..], pool)
  }

  lemma {:induction false} RunIsSound(b: Bucket, ops: seq<Op>)
    requires Sound(b)
    ensures Sound(Run(b, ops))
    decreases |ops|
  {
    if ops != [] {
      hide Sound, Step;
      StepIsSound(b, ops[0]);
      RunIsSound(Step(b, ops[0]), ops[1..]);
    }
  }

  lemma StepIsSound(b: Bucket, op: Op)
    requires Sound(b)
    ensures Sound(Step(b, op))
  {
    match op
    case Poll(now) => RefillIsSound(b, now);
    case Request(kind, weight, now) => ChargeIsSound(b, kind, weight, now);
  }

  /** Units are not ordered like counts: a critical charge takes from the total
      alone, and nothing here holds it to the reserve. */
  lemma CriticalChargesMayUncoverNormalUnits()
    ensures Limits(10, 2, 4, 1).Valid()
    ensures var b := NewBucket(Limits(10, 2, 4, 1), 0);
            && Outcome(b, Critical, 5, 0) == Charged
            && Run(b, [Request(Critical, 5, 0)]).units == Pools(5, 8, 4, 4)
  {
    var b := NewBucket(Limits(10, 2, 4, 1), 0);
    assert Run(b, [Request(Critical, 5, 0)]) == Run(Step(b, Request(Critical, 5, 0)), []);
  }

  // ------------------------------------------------------------- overweight

  /** A pool that the charge draws on is too small for it. */
  predicate TooHeavy(weights: Pools, kind: BudgetClass, weight: nat) {
    exists pool: Pool :: Draws(kind, pool) && weight > weights.Of(pool)
  }

  lemma ScalesAlike(weight: nat, limit: nat, windowMs: nat)
    requires windowMs > 0
    ensures weight * windowMs > limit * windowMs <==> weight > limit
  {
  }

  lemma OverweightWhen(b: Bucket, kind: BudgetClass, weight: nat)
    requires Sound(b)
    ensures Decide(b, kind, weight) == Overweight <==> TooHeavy(b.weights, kind, weight)
  {
    ScalesAlike(weight, b.weights.total, b.windowMs);
    ScalesAlike(weight, b.weights.normal, b.windowMs);
    ScalesAlike(weight, b.weights.source, b.windowMs);
    ScalesAlike(weight, b.weights.enrichment, b.windowMs);
    TooHeavyIsExceeding(b.weights, kind, weight);
    hide TooHeavy;
  }

  lemma TooHeavyIsExceeding(weights: Pools, kind: BudgetClass, weight: nat)
    ensures TooHeavy(weights, kind, weight) <==> ExceedsAny(kind, Same(weight), weights)
  {
    if ExceedsAny(kind, Same(weight), weights) {
      var pool := if weight > weights.total then TotalPool
                  else if weight > weights.normal && kind != Critical then NormalPool
                  else if kind == SourcePolling then SourcePool else EnrichmentPool;
      assert Draws(kind, pool) && weight > weights.Of(pool);
    }
  }

  /** The overweight answer does not depend on what has happened: a charge gets it
      always or never. */
  lemma OverweightIsForGood(b: Bucket, ops: seq<Op>, kind: BudgetClass, weight: nat, now: nat)
    requires Sound(b)
    ensures Outcome(Run(b, ops), kind, weight, now) == Overweight <==> TooHeavy(b.weights, kind, weight)
  {
    hide Sound, Refill, Decide, TooHeavy, Run;
    RunIsSound(b, ops);
    RefillIsSound(Run(b, ops), now);
    RateEnvelope(b, ops, TotalPool);
    ElapsedRefill(Run(b, ops), now, TotalPool);
    OverweightWhen(Refill(Run(b, ops), now), kind, weight);
  }

  // ---------------------------------------------------------- rate envelope

  /** What is left in a pool and what was taken from it is at most what it held
      and what the elapsed time refilled. */
  predicate Enveloped(b: Bucket, after: Bucket, taken: nat, pool: Pool) {
    && after.lastRefill >= b.lastRefill && after.weights == b.weights && after.windowMs == b.windowMs
    && after.units.Of(pool) + taken * b.windowMs <=
         b.units.Of(pool) + (after.lastRefill - b.lastRefill) * b.weights.Of(pool)
  }

  /** One operation: what it leaves and what it takes is at most what was there
      and what the elapsed time refilled. */
  lemma StepEnvelope(b: Bucket, op: Op, pool: Pool)
    requires Sound(b)
    ensures Enveloped(b, Step(b, op), Taken(b, op, pool), pool)
  {
    var ready := Refill(b, op.now);
    ElapsedRefill(b, op.now, pool);
    hide Refill, Scale;
    if op.Request? && Decide(ready, op.kind, op.weight) == Charged {
      var after := Debit(ready, op.kind, op.weight);
      assert after.units.Of(pool) ==
             ready.units.Of(pool) - if Draws(op.kind, pool) then op.weight * ready.windowMs else 0;
    }
  }

  lemma ElapsedRefill(b: Bucket, now: nat, pool: Pool)
    ensures var after := Refill(b, now);
            && after.lastRefill >= b.lastRefill && after.weights == b.weights && after.windowMs == b.windowMs
            && after.capacity == b.capacity
            && after.units.Of(pool) <= b.units.Of(pool) + (after.lastRefill - b.lastRefill) * b.weights.Of(pool)
  {
  }

  /** Over any part of any run, the weight charged to a pool is at most what the
      pool held and what the elapsed time refilled, so at most its capacity and
      that refill. */
  lemma {:induction false} RateEnvelope(b: Bucket, ops: seq<Op>, pool: Pool)
    requires Sound(b)
    ensures Enveloped(b, Run(b, ops), TakenInRun(b, ops, pool), pool)
    ensures b.units.Of(pool) <= b.weights.Of(pool) * b.windowMs
    decreases |ops|
  {
    hide Step, Taken, Sound, Enveloped, Run, TakenInRun;
    UnitsFitCapacity(b, pool);
    RunUnfolds(b, ops, pool);
    if ops == [] {
      NothingIsEnveloped(b, pool);
    } else {
      StepIsSound(b, ops[0]);
      StepEnvelope(b, ops[0], pool);
      var next := Step(b, ops[0]);
      RateEnvelope(next, ops[1..], pool);
      EnvelopesChain(b, next, Run(next, ops[1..]), Taken(b, ops[0], pool), TakenInRun(next, ops[1..], pool), pool);
    }
  }

  lemma RunUnfolds(b: Bucket, ops: seq<Op>, pool: Pool)
    ensures ops == [] ==> Run(b, ops) == b && TakenInRun(b, ops, pool) == 0
    ensures ops != [] ==>
              var next := Step(b, ops[0]);
              && Run(b, ops) == Run(next, ops[1..])
              && TakenInRun(b, ops, pool) == Taken(b, ops[0], pool) + TakenInRun(next, ops[1..], pool)
  {
  }

  lemma UnitsFitCapacity(b: Bucket, pool: Pool)
    requires Sound(b)
    ensures b.units.Of(pool) <= b.weights.Of(pool) * b.windowMs
  {
  }

  lemma NothingIsEnveloped(b: Bucket, pool: Pool)
    ensures Enveloped(b, b, 0, pool)
  {
  }

  lemma EnvelopesChain(b: Bucket, next: Bucket, after: Bucket, t1: nat, t2: nat, pool: Pool)
    requires Enveloped(b, next, t1, pool) && Enveloped(next, after, t2, pool)
    ensures Enveloped(b, after, t1 + t2, pool)
  {
    EnvelopesAdd(b.units.Of(pool), next.units.Of(pool), after.units.Of(pool), t1, t2,
      next.lastRefill - b.lastRefill, after.lastRefill - next.lastRefill, b.weights.Of(pool), b.windowMs);
  }

  lemma EnvelopesAdd(u0: nat, u1: nat, u2: nat, t1: nat, t2: nat, e1: nat, e2: nat, rate: nat, window: nat)
    requires u1 + t1 * window <= u0 + e1 * rate
    requires u2 + t2 * window <= u1 + e2 * rate
    ensures u2 + (t1 + t2) * window <= u0 + (e1 + e2) * rate
  {
  }

  // ------------------------------------------------------ accounting windows

  lemma StepInWindow(b: Bucket, op: Op, pool: Pool)
    requires Sound(b)
    ensures var after := Step(b, op);
            && after.windowStart >= b.windowStart
            && (after.windowStart == b.windowStart ==>
                  after.consumed.Of(pool) == b.consumed.Of(pool) + Taken(b, op, pool))
  {
  }

  /** Until the accounting window restarts, the count of each pool grows by
      exactly what was charged to it, and never beyond the pool's weight. */
  lemma {:induction false} WindowConsumption(b: Bucket, ops: seq<Op>, pool: Pool)
    requires Sound(b)
    ensures Run(b, ops).windowStart >= b.windowStart
    ensures Run(b, ops).windowStart == b.windowStart ==>
              Run(b, ops).consumed.Of(pool) == b.consumed.Of(pool) + TakenInRun(b, ops, pool) <= b.weights.Of(pool)
    decreases |ops|
  {
    if ops != [] {
      var next := Step(b, ops[0]);
      StepIsSound(b, ops[0]);
      StepInWindow(b, ops[0], pool);
      StepEnvelope(b, ops[0], pool);
      WindowConsumption(next, ops[1..], pool);
    }
  }

  // ----------------------------------------------------------------- polling

  lemma TopUpTwice(b: Bucket, e1: nat, e2: nat)
    ensures TopUp(b.(units := TopUp(b, e1)), e2) == TopUp(b, e1 + e2)
  {
  }

  lemma RefillTwice(b: Bucket, first: nat, second: nat)
    requires first <= second
    ensures Refill(Refill(b, first), second).units == Refill(b, second).units
    ensures Refill(Refill(b, first), second).lastRefill == Refill(b, second).lastRefill
  {
    if b.lastRefill < first < second {
      var e1, e2 := first - b.lastRefill, second - first;
      TopUpTwice(b, e1, e2);
      TopUpReads(Refill(b, first), b.(units := TopUp(b, e1)), e2);
      hide TopUp;
    }
  }

  lemma TopUpReads(a: Bucket, b: Bucket, elapsed: nat)
    requires a.units == b.units && a.weights == b.weights && a.capacity == b.capacity
    ensures TopUp(a, elapsed) == TopUp(b, elapsed)
  {
  }

  /** Polling the bucket any number of times on the way leaves every balance as
      one refill at the end would. */
  lemma {:induction false} PollingIsHarmless(b: Bucket, polls: seq<Op>, now: nat)
    requires Sound(b) && forall i :: 0 <= i < |polls| ==> polls[i].Poll? && polls[i].now <= now
    ensures Refill(Run(b, polls), now).units == Refill(b, now).units
    decreases |polls|
  {
    if polls != [] {
      RefillIsSound(b, polls[0].now);
      PollingIsHarmless(Refill(b, polls[0].now), polls[1..], now);
      RefillTwice(b, polls[0].now, now);
    }
  }

  // ------------------------------------------------------- reserve isolation

  /** A bucket of the reserved weight alone, refilled alongside. */
  function RefillReserve(b: Bucket, reserve: nat, now: nat): nat
    requires b.weights.normal <= b.weights.total
  {
    CappedSum(reserve, Reserve(b) * Elapsed(now, b.lastRefill), Reserve(b) * b.windowMs)
  }

  predicate CriticalCharged(b: Bucket, op: Op) {
    op.Request? && op.kind == Critical && Outcome(b, Critical, op.weight, op.now) == Charged
  }

  /** A critical charge that is made could also be made from the reserve. */
  predicate FitsReserve(b: Bucket, reserve: nat, op: Op)
    requires b.weights.normal <= b.weights.total
  {
    CriticalCharged(b, op) ==> op.weight * b.windowMs <= RefillReserve(b, reserve, op.now)
  }

  function StepReserve(b: Bucket, reserve: nat, op: Op): nat
    requires b.weights.normal <= b.weights.total && FitsReserve(b, reserve, op)
  {
    RefillReserve(b, reserve, op.now) - if CriticalCharged(b, op) then op.weight * b.windowMs else 0
  }

  predicate ReserveRespected(b: Bucket, reserve: nat, ops: seq<Op>)
    requires Sound(b)
    decreases |ops|
  {
    ops == [] ||
    (&& FitsReserve(b, reserve, ops[0])
     && (StepIsSound(b, ops[0]);
         ReserveRespected(Step(b, ops[0]), StepReserve(b, reserve, ops[0]), ops[1..])))
  }

  function ReserveAfter(b: Bucket, reserve: nat, ops: seq<Op>): nat
    requires Sound(b) && ReserveRespected(b, reserve, ops)
    decreases |ops|
  {
    if ops == [] then reserve
    else
      StepIsSound(b, ops[0]);
      ReserveAfter(Step(b, ops[0]), StepReserve(b, reserve, ops[0]), ops[1..])
  }

  /** The reserve stands clear of everything the normal pools could take. */
  ghost predicate Isolated(b: Bucket, reserve: nat)
    requires b.weights.normal <= b.weights.total
  {
    b.units.normal + reserve <= b.units.total && reserve <= Reserve(b) * b.windowMs
  }

  lemma RefillIsolates(b: Bucket, reserve: nat, now: nat)
    requires Sound(b) && Isolated(b, reserve)
    ensures Isolated(Refill(b, now), RefillReserve(b, reserve, now))
  {
    Portions(b, b.windowMs);
    Portions(b, Elapsed(now, b.lastRefill));
    hide Scale;
  }

  lemma StepIsolates(b: Bucket, reserve: nat, op: Op)
    requires Sound(b) && Isolated(b, reserve) && FitsReserve(b, reserve, op)
    ensures Step(b, op).weights == b.weights
    ensures Isolated(Step(b, op), StepReserve(b, reserve, op))
  {
    RefillIsolates(b, reserve, op.now);
    ElapsedRefill(b, op.now, TotalPool);
    hide Refill, RefillReserve, Sound;
  }

  /** While every critical charge fits the reserve, no other traffic touches it. */
  lemma {:induction false} RunIsolates(b: Bucket, reserve: nat, ops: seq<Op>)
    requires Sound(b) && Isolated(b, reserve) && ReserveRespected(b, reserve, ops)
    ensures Run(b, ops).weights == b.weights
    ensures Isolated(Run(b, ops), ReserveAfter(b, reserve, ops))
    decreases |ops|
  {
    if ops != [] {
      StepIsSound(b, ops[0]);
      StepIsolates(b, reserve, ops[0]);
      hide Isolated, Step, FitsReserve, StepReserve;
      RunIsolates(Step(b, ops[0]), StepReserve(b, reserve, ops[0]), ops[1..]);
    }
  }

  /** A critical request within the reserve's units, and within the reserved
      weight of the accounting window, is charged. */
  lemma ReserveIsNeverRefused(b: Bucket, reserve: nat, weight: nat, now: nat)
    requires Sound(b) && Isolated(b, reserve)
    requires weight * b.windowMs <= RefillReserve(b, reserve, now)
    requires var ready := Refill(b, now); ready.consumed.total - ready.consumed.normal + weight <= Reserve(b)
    ensures Outcome(b, Critical, weight, now) == Charged
  {
    RefillIsolates(b, reserve, now);
    RefillIsSound(b, now);
    ElapsedRefill(b, now, TotalPool);
    hide Refill, RefillReserve, Scale;
  }

  /** From a new bucket, through any traffic that respects the reserve. */
  lemma ReserveIsolation(limits: Limits, start: nat, ops: seq<Op>, weight: nat, now: nat)
    requires limits.Valid()
    requires (NewBucketIsSound(limits, start);
              ReserveRespected(NewBucket(limits, start), limits.reservedWeight * limits.windowMs, ops))
    requires var b := Run(NewBucket(limits, start), ops);
             var ready := Refill(b, now);
             && b.weights.normal <= b.weights.total
             && weight * b.windowMs <=
                  RefillReserve(
                    b, ReserveAfter(NewBucket(limits, start), limits.reservedWeight * limits.windowMs, ops), now)
             && ready.consumed.total - ready.consumed.normal + weight <= limits.reservedWeight
    ensures Outcome(Run(NewBucket(limits, start), ops), Critical, weight, now) == Charged
  {
    NewBucketIsSound(limits, start);
    var b, reserve := NewBucket(limits, start), limits.reservedWeight * limits.windowMs;
    ScaleSplits(limits.totalWeight, limits.Weights().normal, limits.reservedWeight, limits.windowMs);
    assert Isolated(b, reserve);
    RunIsSound(b, ops);
    RunIsolates(b, reserve, ops);
    ReserveIsNeverRefused(Run(b, ops), ReserveAfter(b, reserve, ops), weight, now);
  }

  // ------------------------------------------------------------ the bucket

  class WeightedTokenBucket {
    const weights: Pools
    const windowMs: nat
    const capacity: Pools
    var units: Pools
    var lastRefill: nat
    var windowStart: nat
    var consumed: Pools

    ghost function Value(): Bucket
      reads this
    {
      Bucket(weights, windowMs, capacity, units, lastRefill, windowStart, consumed)
    }

    ghost predicate Valid()
      reads this
    {
      Sound(Value())
    }

    constructor (limits: Limits, now: nat)
      requires limits.Valid()
      ensures Valid() && Value() == NewBucket(limits, now)
    {
      weights, windowMs := limits.Weights(), limits.windowMs;
      capacity, units := Scale(limits.Weights(), limits.windowMs), Scale(limits.Weights(), limits.windowMs);
      lastRefill, windowStart, consumed := now, now, Pools(0, 0, 0, 0);
      new;
      NewBucketIsSound(limits, now);
    }

    static method New(limits: Limits, now: nat) returns (r: Result<WeightedTokenBucket, ()>)
      ensures r.Ok? <==> limits.Valid()
      ensures r.Ok? ==> fresh(r.value) && r.value.Valid() && r.value.Value() == NewBucket(limits, now)
    {
      if !limits.Valid() {
        return Err(());
      }
      var bucket := new WeightedTokenBucket(limits, now);
      r := Ok(bucket);
    }

    method RefillTo(now: nat)
      requires Valid()
      modifies this
      ensures Valid() && Value() == Refill(old(Value()), now)
    {
      RefillIsSound(Value(), now);
      hide Scale, Sound;
      var elapsed := Elapsed(now, lastRefill);
      if elapsed == 0 {
        return;
      }
      var added := Scale(weights, elapsed);
      units := Pools(
        CappedSum(units.total, added.total, capacity.total),
        CappedSum(units.normal, added.normal, capacity.normal),
        CappedSum(units.source, added.source, capacity.source),
        CappedSum(units.enrichment, added.enrichment, capacity.enrichment));
      lastRefill := now;
      if Elapsed(now, windowStart) >= windowMs {
        windowStart, consumed := now, Pools(0, 0, 0, 0);
      }
    }

    method Take(kind: BudgetClass, weight: nat)
      requires Decide(Value(), kind, weight) == Charged
      modifies `units, `consumed
      ensures Value() == Debit(old(Value()), kind, weight)
    {
      var requested := weight * windowMs;
      units := units.(total := units.total - requested);
      consumed := consumed.(total := consumed.total + weight);
      if kind != Critical {
        units := units.(normal := units.normal - requested);
        consumed := consumed.(normal := consumed.normal + weight);
      }
      match kind {
        case SourcePolling =>
          units := units.(source := units.source - requested);
          consumed := consumed.(source := consumed.source + weight);
        case Normal =>
          units := units.(enrichment := units.enrichment - requested);
          consumed := consumed.(enrichment := consumed.enrichment + weight);
        case Critical =>
      }
    }

    method TryCharge(kind: BudgetClass, weight: nat, now: nat) returns (decision: Decision)
      requires Valid()
      modifies this
      ensures Valid() && Value() == Charge(old(Value()), kind, weight, now)
      ensures decision == Outcome(old(Value()), kind, weight, now)
    {
      ChargeIsSound(Value(), kind, weight, now);
      RefillTo(now);
      hide Sound, Refill, Scale, Debit, ExceedsAny;
      var requested := weight * windowMs;
      if ExceedsAny(kind, Same(requested), capacity) {
        return Overweight;
      }
      if ExceedsAny(kind, Plus(consumed, weight), weights) {
        return Insufficient;
      }
      if ExceedsAny(kind, Same(requested), units) {
        return Insufficient;
      }
      Take(kind, weight);
      decision := Charged;
    }
  }
}
