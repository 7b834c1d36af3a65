/** Read requests of `crates/copytrade-core/src/scheduler.rs`: the policy that
    admits them, the orders they are compared by, and their retries. */
module ReadRequests {
  import opened Common
  import RateBudget

  datatype ReadKind =
    | SourceState | MarketMids | ExchangeMetadata | OrderBook | FollowerState | FollowerOpenOrders
  {
    predicate PermitsReservedBudget() {
      FollowerState? || FollowerOpenOrders?
    }

    function Rank(): nat {
      match this
      case SourceState => 0
      case MarketMids => 1
      case ExchangeMetadata => 2
      case OrderBook => 3
      case FollowerState => 4
      case FollowerOpenOrders => 5
    }
  }

  datatype Subject = Candidate(id: Text) | Follower(id: Text) | Asset(id: Text) | Market {
    function Rank(): nat {
      match this
      case Candidate(_) => 0
      case Follower(_) => 1
      case Asset(_) => 2
      case Market => 3
    }

    function Name(): Text {
      if Market? then [] else id
    }
  }

  datatype Key = Key(subject: Subject, kind: ReadKind)

  datatype Priority = Low | Normal | High | Critical {
    function Rank(): nat {
      match this
      case Low => 0
      case Normal => 1
      case High => 2
      case Critical => 3
    }
  }

  datatype Tier = Active | Inactive

  datatype Request = Request(
    key: Key, kind: ReadKind, candidateId: Option<Text>, tier: Option<Tier>, weight: nat,
    priority: Priority, budgetClass: RateBudget.BudgetClass,
    createdAt: nat, notBefore: nat, expiresAt: nat, attempt: nat)

  const U64_MAX: nat := 0xffff_ffff_ffff_ffff

  // ------------------------------------------------------------------ policy

  datatype Policy = Policy(
    limits: RateBudget.Limits, maxConcurrency: nat, queueCapacity: nat,
    endpointWeights: map<ReadKind, nat>, tierTargets: map<Tier, nat>)
  {
    predicate Valid() {
      && limits.Valid()
      && 0 < maxConcurrency && 0 < queueCapacity
      && Targeted(tierTargets)
      && (forall k: ReadKind ::
            k in endpointWeights && 0 < endpointWeights[k] <= limits.totalWeight - limits.reservedWeight)
    }
  }

  /** The bucket of a policy, which is checked as a whole. */
  method NewBudget(policy: Policy, now: nat) returns (r: Result<RateBudget.WeightedTokenBucket, ()>)
    ensures r.Ok? <==> policy.Valid()
    ensures r.Ok? ==>
              && fresh(r.value) && r.value.Valid() && r.value.Value() == RateBudget.NewBucket(policy.limits, now)
              && r.value.Value().units == RateBudget.Scale(policy.limits.Weights(), policy.limits.windowMs)
  {
    if !policy.Valid() {
      return Err(());
    }
    r := RateBudget.WeightedTokenBucket.New(policy.limits, now);
  }

  datatype ScheduleOutcome =
    | Enqueued | ReplacedOlder | SuccessorRecorded | RejectedOlder
    | RejectedQueueFull | RejectedInvalid | RejectedOverweight | Expired

  function CandidateOf(subject: Subject): Option<Text> {
    if subject.Candidate? then Some(subject.id) else None
  }

  /** What the policy asks of a request, whatever the time. */
  predicate Admissible(policy: Policy, r: Request) {
    && r.kind in policy.endpointWeights
    && r.kind == r.key.kind
    && 0 < r.weight == policy.endpointWeights[r.kind]
    && r.createdAt <= r.notBefore
    && r.createdAt < r.expiresAt
    && (r.budgetClass == RateBudget.Critical ==> r.kind.PermitsReservedBudget())
    && (r.kind == SourceState <==> r.budgetClass == RateBudget.SourcePolling)
    && r.candidateId == CandidateOf(r.key.subject)
    && (r.kind == SourceState <==> r.tier.Some?)
  }

  function ValidateRequest(policy: Policy, r: Request, now: nat): Option<ScheduleOutcome>
    requires policy.Valid()
  {
    if !Admissible(policy, r) then Some(RejectedInvalid)
    else if r.expiresAt <= now then Some(Expired)
    else if r.weight > policy.limits.totalWeight ||
            (r.budgetClass != RateBudget.Critical
                && r.weight > policy.limits.totalWeight - policy.limits.reservedWeight)
    then Some(RejectedOverweight)
    else None
  }

  /** Under a valid policy scheduling never answers that a request is overweight. */
  lemma NoRequestIsOverweight(policy: Policy, r: Request, now: nat)
    requires policy.Valid()
    ensures ValidateRequest(policy, r, now) != Some(RejectedOverweight)
  {
  }

  /** The budget may: a policy weighs its endpoints against the whole normal
      capacity, not against the pool their class draws on. A request it admits is
      answered overweight after any run of the budget, and so never charged,
      exactly when that pool is smaller than its weight. */
  lemma AdmittedIsOverweightWhen(policy: Policy, r: Request, start: nat, ops: seq<RateBudget.Op>, now: nat)
    requires policy.Valid() && Admissible(policy, r)
    ensures var weights, bucket := policy.limits.Weights(), RateBudget.NewBucket(policy.limits, start);
            RateBudget.Outcome(RateBudget.Run(bucket, ops), r.budgetClass, r.weight, now) == RateBudget.Overweight
            <==>
              || (r.budgetClass == RateBudget.SourcePolling && r.weight > weights.source)
              || (r.budgetClass == RateBudget.Normal && r.weight > weights.enrichment)
  {
    var b := RateBudget.NewBucket(policy.limits, start);
    RateBudget.NewBucketIsSound(policy.limits, start);
    RateBudget.OverweightIsForGood(b, ops, r.budgetClass, r.weight, now);
    RateBudget.TooHeavyIsExceeding(b.weights, r.budgetClass, r.weight);
    assert r.weight <= policy.limits.totalWeight - policy.limits.reservedWeight;
    hide RateBudget.Outcome, RateBudget.TooHeavy;
  }

  /** Source reads of weight five against a source pool of three. */
  function HeavySources(): Policy {
    Policy(
      RateBudget.Limits(10, 2, 3, 1), 1, 1,
      map[SourceState := 5, MarketMids := 1, ExchangeMetadata := 1, OrderBook := 1, FollowerState := 1,
          FollowerOpenOrders := 1],
      map[Active := 1, Inactive := 1])
  }

  function HeavyPoll(): Request {
    Request(Key(Candidate([1]), SourceState), SourceState, Some([1]), Some(Active), 5,
            Normal, RateBudget.SourcePolling, 0, 0, 1, 0)
  }

  lemma HeavyPollIsAdmittedAndNeverCharged(ops: seq<RateBudget.Op>, now: nat)
    ensures HeavySources().Valid() && ValidateRequest(HeavySources(), HeavyPoll(), 0) == None
    ensures RateBudget.Outcome(
              RateBudget.Run(RateBudget.NewBucket(HeavySources().limits, 0), ops), RateBudget.SourcePolling, 5, now)
              == RateBudget.Overweight
  {
    var policy := HeavySources();
    forall k: ReadKind ensures k in policy.endpointWeights && 0 < policy.endpointWeights[k] <= 8 {
      match k
      case SourceState => case MarketMids => case ExchangeMetadata =>
      case OrderBook => case FollowerState => case FollowerOpenOrders =>
    }
    forall t: Tier ensures t in policy.tierTargets && policy.tierTargets[t] > 0 {
      match t
      case Active => case Inactive =>
    }
    AdmittedIsOverweightWhen(policy, HeavyPoll(), 0, ops, now);
    hide RateBudget.Outcome, RateBudget.Run;
  }

  predicate IsNewer(incoming: Request, existing: Request) {
    incoming.createdAt > existing.createdAt ||
    (incoming.createdAt == existing.createdAt && incoming.attempt > existing.attempt)
  }

  // --------------------------------------------------------------- orderings

  datatype Ordering = Before | Same | After {
    function Then(next: Ordering): Ordering {
      if Same? then next else this
    }

    function Reverse(): Ordering {
      match this
      case Before => After
      case Same => Same
      case After => Before
    }
  }

  function CompareNat(a: nat, b: nat): Ordering {
    if a < b then Before else if a == b then Same else After
  }

  function CompareText(a: Text, b: Text): Ordering {
    if a == b then Same else if TextLess(a, b) then Before else After
  }

  function CompareKey(a: Key, b: Key): Ordering {
    CompareNat(a.subject.Rank(), b.subject.Rank())
      .Then(CompareText(a.subject.Name(), b.subject.Name()))
      .Then(CompareNat(a.kind.Rank(), b.kind.Rank()))
  }

  /** How much a queued request is worth keeping: `Before` is worth less. */
  function CompareValue(a: Request, b: Request): Ordering {
    CompareNat(a.priority.Rank(), b.priority.Rank())
      .Then(CompareNat(b.expiresAt, a.expiresAt))
      .Then(CompareNat(b.createdAt, a.createdAt))
  }

  function CountOf(counts: map<Tier, nat>, tier: Tier): nat {
    if tier in counts then counts[tier] else 0
  }

  predicate Targeted(targets: map<Tier, nat>) {
    forall t: Tier :: t in targets && targets[t] > 0
  }

  /** Which tier is further behind its target. */
  function CompareFairness(a: Tier, b: Tier, counts: map<Tier, nat>, targets: map<Tier, nat>): Ordering
    requires Targeted(targets)
  {
    CompareNat(CountOf(counts, a) * targets[b], CountOf(counts, b) * targets[a])
  }

  function CompareUrgency(a: Request, b: Request): Ordering {
    CompareNat(a.expiresAt, b.expiresAt)
      .Then(CompareNat(a.createdAt, b.createdAt))
      .Then(CompareKey(a.key, b.key))
  }

  /** The order in which eligible requests are tried. */
  function CompareDispatch(a: Request, b: Request, counts: map<Tier, nat>, targets: map<Tier, nat>): Ordering
    requires Targeted(targets)
  {
    var fairness :=
      if a.tier.Some? && b.tier.Some? then CompareFairness(a.tier.value, b.tier.value, counts, targets) else Same;
    CompareNat(b.priority.Rank(), a.priority.Rank()).Then(fairness).Then(CompareUrgency(a, b))
  }

  lemma CompareKeyIsTotal(a: Key, b: Key)
    ensures CompareKey(a, b) == CompareKey(b, a).Reverse()
    ensures CompareKey(a, b) == Same <==> a == b
  {
    TextLessIsTotal(a.subject.Name(), b.subject.Name());
    TextLessIsStrict(a.subject.Name(), b.subject.Name());
  }

  lemma CompareKeyIsTransitive(a: Key, b: Key, c: Key)
    requires CompareKey(a, b) == Before && CompareKey(b, c) == Before
    ensures CompareKey(a, c) == Before
  {
    var x, y, z := a.subject.Name(), b.subject.Name(), c.subject.Name();
    TextLessIsTotal(x, y);
    TextLessIsTotal(y, z);
    TextLessIsStrict(x, z);
    TextLessIsStrict(x, y);
    if TextLess(x, y) && TextLess(y, z) { TextLessIsTransitive(x, y, z); }
  }

  /** The first key in iteration order of the queue's maps. */
  predicate IsLeastKey(least: Key, keys: set<Key>) {
    least in keys && forall k :: k in keys ==> CompareKey(least, k) != After
  }

  lemma {:induction false} LeastKeyExists(keys: set<Key>)
    requires keys != {}
    ensures exists least :: IsLeastKey(least, keys)
    decreases |keys|
  {
    hide CompareKey;
    var k :| k in keys;
    var rest := keys - {k};
    CompareKeyIsTotal(k, k);
    if rest == {} {
      assert keys == {k};
      assert IsLeastKey(k, keys);
    } else {
      LeastKeyExists(rest);
      var l :| IsLeastKey(l, rest);
      CompareKeyIsTotal(k, l);
      if CompareKey(k, l) == Before {
        forall j | j in keys ensures CompareKey(k, j) != After {
          if j != k {
            assert j in rest;
            CompareKeyIsTotal(l, j);
            if j != l { CompareKeyIsTransitive(k, l, j); }
          }
        }
        assert IsLeastKey(k, keys);
      } else {
        assert forall j :: j in keys ==> j == k || j in rest;
        assert IsLeastKey(l, keys);
      }
    }
  }

  lemma LeastKeyIsUnique(a: Key, b: Key, keys: set<Key>)
    requires IsLeastKey(a, keys) && IsLeastKey(b, keys)
    ensures a == b
  {
    hide CompareKey;
    CompareKeyIsTotal(a, b);
  }

  function LeastKey(keys: set<Key>): (least: Key)
    requires keys != {}
    ensures IsLeastKey(least, keys)
  {
    LeastKeyExists(keys);
    assert forall a, b :: IsLeastKey(a, keys) && IsLeastKey(b, keys) ==> a == b by {
      forall a, b | IsLeastKey(a, keys) && IsLeastKey(b, keys) ensures a == b { LeastKeyIsUnique(a, b, keys); }
    }
    var least :| least in keys && IsLeastKey(least, keys);
    least
  }

  lemma CompareUrgencyIsTransitive(a: Request, b: Request, c: Request)
    requires CompareUrgency(a, b) == Before && CompareUrgency(b, c) == Before
    ensures CompareUrgency(a, c) == Before
  {
    hide CompareKey;
    if CompareKey(a.key, b.key) == Before && CompareKey(b.key, c.key) == Before {
      CompareKeyIsTransitive(a.key, b.key, c.key);
    }
  }

  /** Both tiers have received the same share of their targets. */
  predicate Balanced(counts: map<Tier, nat>, targets: map<Tier, nat>)
    requires Targeted(targets)
  {
    CountOf(counts, Active) * targets[Inactive] == CountOf(counts, Inactive) * targets[Active]
  }

  /** Two tiers leave one comparison to make. */
  lemma OneFairness(a: Tier, b: Tier, counts: map<Tier, nat>, targets: map<Tier, nat>)
    requires Targeted(targets)
    ensures CompareFairness(a, b, counts, targets) ==
            var gap := CompareFairness(Active, Inactive, counts, targets);
            if a == b then Same else if a == Active then gap else gap.Reverse()
    ensures Balanced(counts, targets) <==> CompareFairness(Active, Inactive, counts, targets) == Same
  {
  }

  ghost predicate TransitiveAt(a: Request, b: Request, c: Request, counts: map<Tier, nat>, targets: map<Tier, nat>)
    requires Targeted(targets)
  {
    CompareDispatch(a, b, counts, targets) == Before && CompareDispatch(b, c, counts, targets) == Before ==>
      CompareDispatch(a, c, counts, targets) == Before
  }

  /** Three requests that one priority does not mix tiered with untiered. */
  predicate Unmixed(a: Request, b: Request, c: Request) {
    a.priority == b.priority == c.priority ==>
      (a.tier.Some? && b.tier.Some? && c.tier.Some?) || (a.tier.None? && b.tier.None? && c.tier.None?)
  }

  lemma UnmixedIsTransitive(a: Request, b: Request, c: Request, counts: map<Tier, nat>, targets: map<Tier, nat>)
    requires Targeted(targets)
    requires Unmixed(a, b, c) || Balanced(counts, targets)
    ensures TransitiveAt(a, b, c, counts, targets)
  {
    if CompareUrgency(a, b) == Before && CompareUrgency(b, c) == Before {
      CompareUrgencyIsTransitive(a, b, c);
    }
    if a.tier.Some? && b.tier.Some? { OneFairness(a.tier.value, b.tier.value, counts, targets); }
    if b.tier.Some? && c.tier.Some? { OneFairness(b.tier.value, c.tier.value, counts, targets); }
    if a.tier.Some? && c.tier.Some? { OneFairness(a.tier.value, c.tier.value, counts, targets); }
    hide CompareUrgency, CompareFairness, Balanced;
  }

  function PollOf(id: Text, tier: Tier, expiresAt: nat): Request {
    Request(Key(Candidate(id), SourceState), SourceState, Some(id), Some(tier), 1,
            Normal, RateBudget.SourcePolling, 0, 0, expiresAt, 0)
  }

  function MidsUntil(expiresAt: nat): Request {
    Request(Key(Market, MarketMids), MarketMids, None, None, 1, Normal, RateBudget.Normal, 0, 0, expiresAt, 0)
  }

  /** After one dispatch from the active tier three requests stand in a circle. */
  lemma MixedRequestsStandInACircle()
    ensures var counts, targets := map[Active := 1], map[Active := 1, Inactive := 1];
            var a, b, c := PollOf([1], Active, 1), MidsUntil(2), PollOf([2], Inactive, 3);
            && Targeted(targets)
            && CompareDispatch(a, b, counts, targets) == Before
            && CompareDispatch(b, c, counts, targets) == Before
            && CompareDispatch(c, a, counts, targets) == Before
  {
    var targets := map[Active := 1, Inactive := 1];
    forall t: Tier ensures t in targets && targets[t] > 0 {
      assert t == Active || t == Inactive;
    }
  }

  /** The dispatch comparator is an order exactly while the tiers are balanced:
      otherwise an untiered request can stand between two tiered ones of its
      priority that are the other way round. */
  lemma DispatchOrderIsTransitiveWhen(counts: map<Tier, nat>, targets: map<Tier, nat>)
    requires Targeted(targets)
    ensures (forall a, b, c :: TransitiveAt(a, b, c, counts, targets)) <==> Balanced(counts, targets)
  {
    if Balanced(counts, targets) {
      forall a, b, c ensures TransitiveAt(a, b, c, counts, targets) {
        UnmixedIsTransitive(a, b, c, counts, targets);
      }
    } else {
      var ahead := if CompareFairness(Active, Inactive, counts, targets) == Before then Inactive else Active;
      var behind := if ahead == Active then Inactive else Active;
      var a, b, c := PollOf([1], ahead, 1), MidsUntil(2), PollOf([2], behind, 3);
      assert CompareDispatch(a, b, counts, targets) == Before;
      assert CompareDispatch(b, c, counts, targets) == Before;
      assert CompareDispatch(a, c, counts, targets) == After;
      assert !TransitiveAt(a, b, c, counts, targets);
    }
  }

  // ------------------------------------------------------------------ retries

  datatype Failure =
    | RateLimited(retryAfter: Option<nat>) | Timeout | Transport | Server | InvalidResponse | Permanent

  datatype RetryPolicy = RetryPolicy(
    initialBackoff: nat, maximumBackoff: nat, maximumAttempts: nat, maximumLifetime: nat, jitterBps: nat)
  {
    predicate Valid() {
      && 0 < initialBackoff <= maximumBackoff <= U64_MAX
      && 0 < maximumAttempts
      && 0 < maximumLifetime
      && jitterBps <= 10_000
    }
  }

  function Power2(n: nat): nat {
    if n == 0 then 1 else 2 * Power2(n - 1)
  }

  /** Doubling from the initial backoff, saturating at the maximum. */
  function Backoff(policy: RetryPolicy, attempt: nat): nat {
    var shift := if attempt < 63 then attempt else 63;
    var product := policy.initialBackoff * Power2(shift);
    var saturated := if product > U64_MAX then U64_MAX else product;
    if saturated < policy.maximumBackoff then saturated else policy.maximumBackoff
  }

  /** `hash` is the deterministic hash of the key and the next attempt. */
  function DelayMs(policy: RetryPolicy, attempt: nat, failure: Failure, hash: nat): Option<nat> {
    if failure.InvalidResponse? || failure.Permanent? then None
    else if failure.RateLimited? && failure.retryAfter.Some? then
      if failure.retryAfter.value > 0 then failure.retryAfter else None
    else
      var backoff := Backoff(policy, attempt);
      Some(Jittered(backoff, JitterSpan(policy, backoff), hash))
  }

  function JitterSpan(policy: RetryPolicy, backoff: nat): nat {
    backoff * policy.jitterBps / 10_000
  }

  function Jittered(backoff: nat, span: nat, hash: nat): nat {
    if span == 0 then (if backoff > 1 then backoff else 1)
    else
      var base := if backoff < span then 0 else backoff - span;
      var delayed := base + hash % (2 * span + 1);
      if delayed < U64_MAX then delayed else U64_MAX
  }

  lemma JitteredIsNear(backoff: nat, span: nat, hash: nat)
    requires 0 < backoff <= U64_MAX && span <= backoff
    ensures backoff - span <= Jittered(backoff, span, hash) <= backoff + span
  {
  }

  lemma BackoffIsBounded(policy: RetryPolicy, attempt: nat)
    requires policy.Valid()
    ensures 0 < Backoff(policy, attempt) <= policy.maximumBackoff
  {
    var shift := if attempt < 63 then attempt else 63;
    Power2IsPositive(shift);
    assert policy.initialBackoff * Power2(shift) > 0;
  }

  lemma {:induction false} Power2IsPositive(n: nat)
    ensures Power2(n) > 0
  {
    if n > 0 { Power2IsPositive(n - 1); }
  }

  lemma JitterIsAShare(backoff: nat, jitterBps: nat)
    requires jitterBps <= 10_000
    ensures backoff * jitterBps / 10_000 <= backoff
  {
  }

  /** A computed delay stays within its jitter of a backoff that stays within
      the configured maximum; a delay the server asked for is kept. */
  lemma DelayIsWithinJitter(policy: RetryPolicy, attempt: nat, failure: Failure, hash: nat)
    requires policy.Valid()
    ensures var backoff, delay := Backoff(policy, attempt), DelayMs(policy, attempt, failure, hash);
            var span := JitterSpan(policy, backoff);
            && 0 < backoff <= policy.maximumBackoff
            && (delay.None? <==> failure.InvalidResponse? || failure.Permanent? || failure == RateLimited(Some(0)))
            && (delay.Some? && failure.RateLimited? && failure.retryAfter.Some? ==> delay == failure.retryAfter)
            && (delay.Some? && !(failure.RateLimited? && failure.retryAfter.Some?) ==>
                  backoff - span <= delay.value <= backoff + span)
  {
    BackoffIsBounded(policy, attempt);
    JitterIsAShare(Backoff(policy, attempt), policy.jitterBps);
    JitteredIsNear(Backoff(policy, attempt), JitterSpan(policy, Backoff(policy, attempt)), hash);
    hide Backoff, Jittered;
  }

  datatype ExecutionOutcome =
    | CompletedFresh | CompletedButStale | Superseded | RetryScheduled | RetryExhausted
    | ResponseInvalid | PermanentFailure

  /** The request to schedule again, or why there is none. */
  function Retry(
    policy: RetryPolicy, r: Request, failure: Failure, now: nat, hash: nat): Result<Request, ExecutionOutcome>
  {
    if r.attempt + 1 >= policy.maximumAttempts then Err(RetryExhausted)
    else if RateBudget.Elapsed(now, r.createdAt) >= policy.maximumLifetime then Err(RetryExhausted)
    else
      var delay := DelayMs(policy, r.attempt, failure, hash);
      if delay.None? then Err(if failure.InvalidResponse? then ResponseInvalid else PermanentFailure)
      else
        var notBefore := now + delay.value;
        if notBefore > U64_MAX || notBefore <= now || notBefore >= r.expiresAt ||
           RateBudget.Elapsed(notBefore, r.createdAt) > policy.maximumLifetime
        then Err(RetryExhausted)
        else Ok(r.(attempt := r.attempt + 1, notBefore := notBefore))
  }

  /** A retry is the same request one attempt later, strictly in the future,
      before its expiry and inside its lifetime, and no attempt reaches the
      maximum. */
  lemma RetryIsBounded(policy: RetryPolicy, r: Request, failure: Failure, now: nat, hash: nat)
    requires policy.Valid() && r.createdAt <= now
    requires Retry(policy, r, failure, now, hash).Ok?
    ensures var again := Retry(policy, r, failure, now, hash).value;
            && again == r.(attempt := r.attempt + 1, notBefore := again.notBefore)
            && again.attempt < policy.maximumAttempts
            && now < again.notBefore < r.expiresAt
            && again.notBefore <= r.createdAt + policy.maximumLifetime
            && IsNewer(again, r)
  {
  }

  /** Retrying under any failures, times and hashes must stop. */
  datatype Attempt = Attempt(failure: Failure, now: nat, hash: nat)

  predicate RetriesAll(policy: RetryPolicy, r: Request, attempts: seq<Attempt>)
    decreases |attempts|
  {
    attempts == [] ||
    var again := Retry(policy, r, attempts[0].failure, attempts[0].now, attempts[0].hash);
    again.Ok? && RetriesAll(policy, again.value, attempts[1..])
  }

  lemma {:induction false} RetriesStop(policy: RetryPolicy, r: Request, attempts: seq<Attempt>)
    requires RetriesAll(policy, r, attempts)
    ensures attempts != [] ==> r.attempt + |attempts| < policy.maximumAttempts
    decreases |attempts|
  {
    if attempts != [] {
      var again := Retry(policy, r, attempts[0].failure, attempts[0].now, attempts[0].hash).value;
      RetriesStop(policy, again, attempts[1..]);
    }
  }
}
