/** `RequestScheduler` of `crates/copytrade-core/src/scheduler.rs`. Every call is
    one atomic step; the clock it reads is a parameter. */
module ReadScheduler {
  import opened Common
  import opened ReadRequests
  import opened QueueMachine
  import opened DispatchOrder
  import RateBudget

  class ScheduledDispatch {
    const request: Request
    var active: bool

    constructor (r: Request)
      ensures request == r && active
    {
      request, active := r, true;
    }
  }

  datatype Response = Response(receivedAt: nat, validUntil: nat, payloadValid: bool)

  /** Fresh is a valid payload received after the request was made, still valid,
      for a request that has not expired. */
  function Grade(r: Request, response: Response, now: nat): (outcome: ExecutionOutcome)
    ensures outcome == ResponseInvalid <==> !response.payloadValid
    ensures outcome == CompletedFresh <==>
              && response.payloadValid && response.receivedAt >= r.createdAt
              && response.validUntil >= response.receivedAt && response.validUntil >= now && r.expiresAt > now
    ensures outcome in {ResponseInvalid, CompletedFresh, CompletedButStale}
  {
    if !response.payloadValid then ResponseInvalid
    else if r.createdAt <= response.receivedAt <= response.validUntil && now <= response.validUntil && now < r.expiresAt
    then CompletedFresh
    else CompletedButStale
  }

  // ------------------------------------------------------- the least valued

  lemma ValueOrder(a: Request, b: Request, c: Request)
    ensures CompareValue(a, b) == CompareValue(b, a).Reverse()
    ensures CompareValue(a, b) != After && CompareValue(b, c) != After ==> CompareValue(a, c) != After
    ensures CompareValue(a, b) == Before && CompareValue(b, c) != After ==> CompareValue(a, c) == Before
  {
  }

  /** Worth less, or as much and with no later key. */
  predicate NoLater(a: Request, b: Request) {
    CompareValue(a, b) == Before || (CompareValue(a, b) == Same && CompareKey(a.key, b.key) != After)
  }

  /** The first of the least-valued non-critical entries, in key order. */
  ghost predicate LowestOf(requests: map<Key, Request>, lowest: Option<Request>) {
    match lowest
    case None => forall k :: k in requests ==> requests[k].priority == Critical
    case Some(r) =>
      && r.key in requests && requests[r.key] == r && r.priority != Critical
      && forall k :: k in requests && requests[k].priority != Critical ==> NoLater(r, requests[k])
  }

  method FindLowest(requests: map<Key, Request>) returns (lowest: Option<Request>)
    requires forall k :: k in requests ==> requests[k].key == k
    ensures LowestOf(requests, lowest)
  {
    hide CompareValue, CompareKey, NoLater;
    lowest := None;
    var rest := requests.Keys;
    while rest != {}
      invariant rest <= requests.Keys
      invariant lowest.None? ==> forall k :: k in requests && k !in rest ==> requests[k].priority == Critical
      invariant lowest.Some? ==>
        && lowest.value.key in requests && requests[lowest.value.key] == lowest.value
        && lowest.value.priority != Critical
        && (forall k :: k in rest ==> CompareKey(lowest.value.key, k) == Before)
        && forall k :: k in requests && k !in rest && requests[k].priority != Critical ==>
             NoLater(lowest.value, requests[k])
      decreases rest
    {
      var key := LeastKey(rest);
      rest := rest - {key};
      var r := requests[key];
      if r.priority != Critical && (lowest.None? || CompareValue(r, lowest.value) == Before) {
        forall k | k in rest ensures CompareKey(key, k) == Before { CompareKeyIsTotal(key, k); }
        forall k | k in requests && k !in rest && requests[k].priority != Critical ensures NoLater(r, requests[k]) {
          if k == key { NoLaterThanItself(r); } else { LowerThanAll(r, lowest.value, requests[k]); }
        }
        lowest := Some(r);
      } else if r.priority != Critical {
        NotLower(lowest.value, r);
      }
    }
  }

  lemma NoLaterThanItself(r: Request)
    ensures NoLater(r, r)
  {
  }

  lemma LowerThanAll(r: Request, lowest: Request, other: Request)
    requires CompareValue(r, lowest) == Before && NoLater(lowest, other)
    ensures NoLater(r, other)
  {
    ValueOrder(r, lowest, other);
    hide CompareKey, CompareValue;
  }

  lemma NotLower(lowest: Request, r: Request)
    requires CompareValue(r, lowest) != Before && CompareKey(lowest.key, r.key) == Before
    ensures NoLater(lowest, r)
  {
    ValueOrder(r, lowest, r);
    hide CompareKey, CompareValue;
  }

  /** `min_by` over the pending entries and then the successors. */
  lemma LowestIsFirstToGo(q: Queue, a: Option<Request>, b: Option<Request>, lowest: Request, fromSuccessors: bool)
    requires LowestOf(q.pending, a) && LowestOf(q.successors, b) && (a.Some? || b.Some?)
    requires fromSuccessors == (a.None? || (b.Some? && CompareValue(b.value, a.value) == Before))
    requires lowest == if fromSuccessors then b.value else a.value
    ensures FirstToGo(q, lowest) && (Pends(q, lowest) <==> !fromSuccessors)
  {
    hide CompareValue, CompareKey;
    if a.Some? && b.Some? { ValueOrder(b.value, a.value, b.value); }
    if a.Some? { ValueOrder(a.value, a.value, a.value); }
    forall other | Evictable(q, other)
      ensures CompareValue(lowest, other) != After
      ensures CompareValue(lowest, other) == Same ==> LookedAtFirst(q, lowest, other)
    {
      if a.Some? && b.Some? {
        ValueOrder(a.value, b.value, other);
        ValueOrder(b.value, a.value, other);
      }
    }
  }

  // ------------------------------------------------------------ the scheduler

  class RequestScheduler {
    const policy: Policy
    const retryPolicy: RetryPolicy
    const budget: RateBudget.WeightedTokenBucket
    var pending: map<Key, Request>
    var inFlight: set<Key>
    var successors: map<Key, Request>
    var windowCount: map<Tier, nat>
    var windowStart: nat
    var freePermits: nat
    /** The handle of each request in flight. */
    ghost var dispatches: map<Key, ScheduledDispatch>

    ghost function Waiting(): Queue
      reads this
    {
      Queue(pending, inFlight, successors, windowCount, windowStart)
    }

    ghost function State(): Machine
      reads this, budget
    {
      Machine(Waiting(), budget.Value(), freePermits)
    }

    ghost predicate Handles()
      reads this, dispatches.Values
    {
      && dispatches.Keys == inFlight
      && forall k :: k in dispatches ==> dispatches[k].active && dispatches[k].request.key == k
    }

    ghost predicate Valid()
      reads this, budget, dispatches.Values
    {
      && policy.Valid() && retryPolicy.Valid()
      && budget.Valid() && Sound(policy, State())
      && Handles()
    }

    constructor (policy: Policy, retryPolicy: RetryPolicy, now: nat)
      requires policy.Valid() && retryPolicy.Valid()
      ensures Valid() && State() == Start(policy, now) && this.policy == policy && fresh(budget)
    {
      this.policy, this.retryPolicy := policy, retryPolicy;
      budget := new RateBudget.WeightedTokenBucket(policy.limits, now);
      pending, inFlight, successors := map[], {}, map[];
      windowCount, windowStart, freePermits := map[], 0, policy.maxConcurrency;
      dispatches := map[];
    }

    static method New(policy: Policy, retryPolicy: RetryPolicy, now: nat) returns (r: Result<RequestScheduler, ()>)
      ensures r.Ok? <==> policy.Valid() && retryPolicy.Valid()
      ensures r.Ok? ==>
                && fresh(r.value) && fresh(r.value.budget) && r.value.Valid()
                && r.value.policy == policy && r.value.State() == Start(policy, now)
    {
      if !policy.Valid() || !retryPolicy.Valid() {
        return Err(());
      }
      var scheduler := new RequestScheduler(policy, retryPolicy, now);
      r := Ok(scheduler);
    }

    method PurgeExpired(now: nat)
      modifies this
      ensures Waiting() == Purge(old(Waiting()), now)
      ensures freePermits == old(freePermits) && dispatches == old(dispatches)
    {
      pending := map k | k in pending && pending[k].expiresAt > now :: pending[k];
      successors := map k | k in successors && successors[k].expiresAt > now :: successors[k];
    }

    /** The minimum by value over the pending entries and then the successors. */
    method FindFirstToGo() returns (victim: Option<Request>, fromSuccessors: bool)
      requires OwnKeys(policy, pending) && OwnKeys(policy, successors)
      ensures victim.None? ==> NothingToGo(Waiting())
      ensures victim.Some? ==>
                FirstToGo(Waiting(), victim.value) && (Pends(Waiting(), victim.value) <==> !fromSuccessors)
      ensures victim.Some? && fromSuccessors ==> Waiting().Holds(victim.value)
    {
      hide CompareValue, LowestOf, FirstToGo, Pends, NothingToGo;
      var a := FindLowest(pending);
      var b := FindLowest(successors);
      fromSuccessors := a.None? || (b.Some? && CompareValue(b.value, a.value) == Before);
      if a.None? && b.None? {
        NothingEvictable(Waiting());
        return None, fromSuccessors;
      }
      victim := Some(if fromSuccessors then b.value else a.value);
      LowestIsFirstToGo(Waiting(), a, b, victim.value, fromSuccessors);
      WhereFound(successors, b);
    }

    method Evict(victim: Request, fromSuccessors: bool)
      requires Pends(Waiting(), victim) <==> !fromSuccessors
      requires fromSuccessors ==> Waiting().Holds(victim)
      modifies `pending, `successors
      ensures Evicts(old(Waiting()), victim, Waiting())
    {
      if fromSuccessors {
        successors := successors - {victim.key};
      } else {
        pending := pending - {victim.key};
      }
    }

    method MakeQueueRoom(incoming: Request) returns (ok: bool)
      requires OwnKeys(policy, pending) && OwnKeys(policy, successors)
      modifies this
      ensures ok ==> RoomMade(old(Waiting()), policy.queueCapacity, incoming, Waiting())
      ensures !ok ==> NoRoom(old(Waiting()), policy.queueCapacity, incoming) && Waiting() == old(Waiting())
      ensures freePermits == old(freePermits) && dispatches == old(dispatches)
    {
      hide CompareValue, FirstToGo, Pends, Evictable, OwnKeys, Evicts, NothingToGo, NoRoom;
      ghost var before := Waiting();
      if |pending| + |successors| < policy.queueCapacity {
        return true;
      }
      var victim, fromSuccessors := FindFirstToGo();
      if victim.None? {
        NoneToGo(before, policy.queueCapacity, incoming);
        return false;
      }
      var lowest := victim.value;
      if CompareValue(incoming, lowest) != After {
        FirstIsLeast(before, lowest);
        LessThanAll(before, policy.queueCapacity, incoming, lowest);
        return false;
      }
      Evict(lowest, fromSuccessors);
      EvictionMakesRoom(before, policy.queueCapacity, incoming, lowest, Waiting());
      ok := true;
    }

    method RefreshQueue(now: nat)
      modifies this
      ensures Waiting() == Refresh(old(Waiting()), policy.limits.windowMs, now)
      ensures freePermits == old(freePermits) && dispatches == old(dispatches) && inFlight == old(inFlight)
    {
      hide Purge;
      PurgeKeepsFlight(Waiting(), now);
      PurgeExpired(now);
      if RateBudget.Elapsed(now, windowStart) >= policy.limits.windowMs {
        windowStart, windowCount := now, map[];
      }
    }

    method Schedule(r: Request, now: nat) returns (outcome: ScheduleOutcome)
      requires Valid()
      modifies this
      ensures Valid() && dispatches == old(dispatches) && inFlight == old(inFlight)
      ensures Takes(policy, old(State()), Scheduled(r, now, outcome), State())
    {
      ghost var start := State();
      var refused := ValidateRequest(policy, r, now);
      if refused.Some? {
        RefusalTaken(policy, start, r, now);
        return refused.value;
      }
      hide Sound, Purge, Admissible, AdmitStep, QueueSound, OwnKeys, Takes, Refresh;
      RefreshedKeys(policy, start, now);
      RefreshQueue(now);
      outcome := Admit(r);
      ScheduleTaken(policy, start, r, now, outcome, State());
    }

    method Admit(r: Request) returns (outcome: ScheduleOutcome)
      requires OwnKeys(policy, pending) && OwnKeys(policy, successors)
      modifies this
      ensures AdmitStep(policy, old(Waiting()), r, outcome, Waiting())
      ensures freePermits == old(freePermits) && dispatches == old(dispatches) && inFlight == old(inFlight)
    {
      hide RoomMade, NoRoom, OwnKeys;
      ghost var q := Waiting();
      if r.key in inFlight && r.key in successors {
        if !IsNewer(r, successors[r.key]) {
          return RejectedOlder;
        }
        successors := successors[r.key := r];
        return SuccessorRecorded;
      }
      if r.key !in inFlight && r.key in pending {
        if !IsNewer(r, pending[r.key]) {
          return RejectedOlder;
        }
        pending := pending[r.key := r];
        return ReplacedOlder;
      }
      var ok := MakeQueueRoom(r);
      if !ok {
        return RejectedQueueFull;
      }
      ghost var room := Waiting();
      RoomKeepsFlight(q, policy.queueCapacity, r, room);
      if r.key in inFlight {
        successors := successors[r.key := r];
        outcome := SuccessorRecorded;
      } else {
        pending := pending[r.key := r];
        outcome := Enqueued;
      }
      assert RoomMade(q, policy.queueCapacity, r, room) && Joins(room, r, outcome, Waiting());
    }

    method CollectEligible(now: nat) returns (rs: seq<Request>)
      requires OwnKeys(policy, pending)
      ensures forall r :: r in rs <==> Eligible(Waiting(), r, now)
      ensures DistinctKeys(rs)
      ensures forall i, j :: 0 <= i < j < |rs| ==> CompareKey(rs[i].key, rs[j].key) == Before
    {
      hide CompareKey;
      rs := [];
      var rest := pending.Keys;
      while rest != {}
        invariant rest <= pending.Keys
        invariant forall r :: r in rs <==> Eligible(Waiting(), r, now) && r.key !in rest
        invariant DistinctKeys(rs)
        invariant forall i, k :: 0 <= i < |rs| && k in rest ==> CompareKey(rs[i].key, k) == Before
        invariant forall i, j :: 0 <= i < j < |rs| ==> CompareKey(rs[i].key, rs[j].key) == Before
        decreases rest
      {
        var key := LeastKey(rest);
        rest := rest - {key};
        forall k | k in rest ensures CompareKey(key, k) == Before { CompareKeyIsTotal(key, k); }
        if pending[key].notBefore <= now {
          assert forall r :: r in rs ==> r.key != key;
          assert forall i :: 0 <= i < |rs| ==> rs[i] in rs;
          rs := rs + [pending[key]];
        }
      }
    }

    /** Charges the first request in order that the budget can afford. */
    method ChargeFirst(ordered: seq<Request>, now: nat) returns (index: nat)
      requires budget.Valid()
      modifies budget
      ensures budget.Valid() && index <= |ordered|
      ensures var ready := RateBudget.Refill(old(budget.Value()), now);
              && (forall j :: 0 <= j < index ==> !Affordable(ready, ordered[j]))
              && (index < |ordered| ==>
                    && Affordable(ready, ordered[index])
                    && budget.Value() == RateBudget.Debit(ready, ordered[index].budgetClass, ordered[index].weight))
              && (index == |ordered| ==> budget.Value() == if ordered == [] then old(budget.Value()) else ready)
    {
      hide RateBudget.Decide, RateBudget.Debit, RateBudget.Refill;
      ghost var ready := RateBudget.Refill(budget.Value(), now);
      RefillAgain(budget.Value(), now);
      index := 0;
      while index < |ordered|
        invariant budget.Valid() && index <= |ordered|
        invariant budget.Value() == if index == 0 then old(budget.Value()) else ready
        invariant forall j :: 0 <= j < index ==> !Affordable(ready, ordered[j])
      {
        var decision := budget.TryCharge(ordered[index].budgetClass, ordered[index].weight, now);
        if decision == RateBudget.Charged {
          return;
        }
        index := index + 1;
      }
    }

    method TakeOff(r: Request) returns (dispatch: ScheduledDispatch)
      requires r.key in pending && freePermits > 0 && Handles()
      modifies this
      ensures Waiting() == Dispatch(old(Waiting()), r) && freePermits == old(freePermits) - 1
      ensures fresh(dispatch) && dispatch.request == r && Handles() && dispatches == old(dispatches)[r.key := dispatch]
    {
      pending := pending - {r.key};
      inFlight := inFlight + {r.key};
      if r.tier.Some? {
        windowCount := windowCount[r.tier.value := CountOf(windowCount, r.tier.value) + 1];
      }
      freePermits := freePermits - 1;
      dispatch := new ScheduledDispatch(r);
      dispatches := dispatches[r.key := dispatch];
    }

    method Choose(now: nat) returns (chosen: Option<Request>)
      requires policy.Valid() && budget.Valid() && OwnKeys(policy, pending)
      modifies budget
      ensures budget.Valid()
      ensures Choice(policy, Waiting(), old(budget.Value()), now, chosen, budget.Value())
      ensures chosen.Some? && OrderedEligible(Waiting(), now, policy.tierTargets) ==>
                Highest(Waiting(), now, RateBudget.Refill(old(budget.Value()), now), chosen.value)
    {
      hide OrderedEligible, FirstAffordable, Affordable, Eligible, RateBudget.Sound, RateBudget.Debit,
        RateBudget.Refill, DistinctKeys, OwnKeys, Sort, Highest;
      var eligible := CollectEligible(now);
      var ordered := Sort(eligible, windowCount, policy.tierTargets);
      SortKeepsElements(eligible, windowCount, policy.tierTargets);
      SomeOrNone(Waiting(), now, ordered);
      ghost var ready := RateBudget.Refill(budget.Value(), now);
      var index := ChargeFirst(ordered, now);
      if index == |ordered| {
        NoneAffordable(Waiting(), now, ready, ordered);
        chosen := None;
      } else {
        assert ordered[index] in ordered;
        ChosenIsFirst(Waiting(), now, policy.tierTargets, ready, eligible, index);
        if OrderedEligible(Waiting(), now, policy.tierTargets) {
          FirstIsHighest(Waiting(), now, policy.tierTargets, ready, ordered[index]);
        }
        chosen := Some(ordered[index]);
      }
    }

    method BeginNext(now: nat) returns (dispatch: ScheduledDispatch?)
      requires Valid()
      modifies this, budget
      ensures Valid()
      ensures Takes(policy, old(State()), Began(now, if dispatch == null then None else Some(dispatch.request)),
                State())
      ensures dispatch != null ==> fresh(dispatch) && dispatches == old(dispatches)[dispatch.request.key := dispatch]
      ensures dispatch == null ==> dispatches == old(dispatches)
    {
      hide Sound, Purge, Choice, Dispatch, OwnKeys, RateBudget.Sound;
      ghost var start := State();
      dispatch := null;
      if freePermits == 0 {
        return;
      }
      PurgedKeys(policy, start, now);
      PurgeExpired(now);
      PurgeKeepsFlight(start.queue, now);
      var chosen := Choose(now);
      if chosen.Some? {
        ChosenIsPending(policy, Waiting(), start.budget, now, chosen.value, budget.Value());
        dispatch := TakeOff(chosen.value);
      }
      StepIsSound(policy, start, Began(now, chosen), State());
    }

    /** Gives back the key and the permit, once; says whether a successor took
        the place. */
    method ReleaseDispatch(dispatch: ScheduledDispatch) returns (superseded: bool)
      requires Valid()
      requires dispatch.active ==> dispatch.request.key in dispatches && dispatches[dispatch.request.key] == dispatch
      modifies this, dispatch
      ensures Valid() && !dispatch.active
      ensures old(dispatch.active) ==>
                && dispatches == old(dispatches) - {dispatch.request.key}
                && Takes(policy, old(State()), Released(dispatch.request.key, superseded), State())
      ensures !old(dispatch.active) ==> !superseded && State() == old(State()) && dispatches == old(dispatches)
    {
      if !dispatch.active {
        return false;
      }
      hide Sound, Release, Takes;
      ghost var start := State();
      superseded := GiveBack(dispatch.request.key);
      dispatch.active := false;
      ReleaseTaken(policy, start, dispatch.request.key, superseded, State());
    }

    method GiveBack(key: Key) returns (superseded: bool)
      modifies this
      ensures Waiting() == Release(old(Waiting()), key) && freePermits == old(freePermits) + 1
      ensures superseded == (key in old(successors)) && dispatches == old(dispatches) - {key}
    {
      inFlight := inFlight - {key};
      superseded := key in successors;
      if superseded {
        pending := pending[key := successors[key]];
        successors := successors - {key};
      }
      freePermits := freePermits + 1;
      dispatches := dispatches - {key};
    }

    method Finish(dispatch: ScheduledDispatch, result: Result<Response, Failure>, now: nat, retriedAt: nat, hash: nat)
      returns (outcome: ExecutionOutcome)
      requires Valid()
      requires dispatch.active && dispatch.request.key in dispatches && dispatches[dispatch.request.key] == dispatch
      modifies this, dispatch
      ensures Valid() && !dispatch.active && dispatches == old(dispatches) - {dispatch.request.key}
      ensures FinishStep(policy, retryPolicy, old(State()), dispatch.request, result, now, retriedAt, hash, outcome,
                State())
    {
      hide Sound, Release, Retry, Grade, ScheduleStep;
      var r := dispatch.request;
      ghost var start := State();
      var superseded := ReleaseDispatch(dispatch);
      ghost var mid := State();
      assert Takes(policy, start, Released(r.key, superseded), mid);
      if superseded {
        return Superseded;
      }
      match result {
        case Ok(response) =>
          outcome := Grade(r, response, now);
        case Err(failure) =>
          if failure.InvalidResponse? {
            return ResponseInvalid;
          }
          if failure.Permanent? {
            return PermanentFailure;
          }
          var again := Retry(retryPolicy, r, failure, now, hash);
          if again.Err? {
            return again.error;
          }
          var scheduled := Schedule(again.value, retriedAt);
          assert Takes(policy, mid, Scheduled(again.value, retriedAt, scheduled), State());
          outcome := if Accepted(scheduled) then RetryScheduled else RetryExhausted;
      }
    }
  }

  predicate Accepted(outcome: ScheduleOutcome) {
    outcome == Enqueued || outcome == ReplacedOlder || outcome == SuccessorRecorded
  }

  /** Finishing releases; without a successor it grades a response, or schedules
      the retry of a failure. */
  ghost predicate FinishStep(
    policy: Policy, retryPolicy: RetryPolicy, before: Machine, r: Request, result: Result<Response, Failure>,
    now: nat, retriedAt: nat, hash: nat, outcome: ExecutionOutcome, after: Machine)
    requires policy.Valid()
  {
    exists superseded, mid :: Takes(policy, before, Released(r.key, superseded), mid) &&
      if superseded then outcome == Superseded && after == mid
      else match result
        case Ok(response) => outcome == Grade(r, response, now) && after == mid
        case Err(InvalidResponse) => outcome == ResponseInvalid && after == mid
        case Err(Permanent) => outcome == PermanentFailure && after == mid
        case Err(failure) =>
          match Retry(retryPolicy, r, failure, now, hash)
          case Err(why) => outcome == why && after == mid
          case Ok(again) =>
            exists scheduled :: Takes(policy, mid, Scheduled(again, retriedAt, scheduled), after) &&
              outcome == if Accepted(scheduled) then RetryScheduled else RetryExhausted
  }

  lemma RefusalTaken(policy: Policy, start: Machine, r: Request, now: nat)
    requires policy.Valid() && ValidateRequest(policy, r, now).Some?
    ensures Takes(policy, start, Scheduled(r, now, ValidateRequest(policy, r, now).value), start)
  {
  }

  lemma ScheduleTaken(
    policy: Policy, start: Machine, r: Request, now: nat, outcome: ScheduleOutcome, after: Machine)
    requires policy.Valid() && Sound(policy, start) && ValidateRequest(policy, r, now).None?
    requires AdmitStep(policy, Refresh(start.queue, policy.limits.windowMs, now), r, outcome, after.queue)
    requires after == start.(queue := after.queue)
    ensures Takes(policy, start, Scheduled(r, now, outcome), after) && Sound(policy, after)
  {
    hide Sound, AdmitStep, Refresh, Admissible;
    StepIsSound(policy, start, Scheduled(r, now, outcome), after);
  }

  lemma ReleaseTaken(policy: Policy, start: Machine, key: Key, superseded: bool, after: Machine)
    requires policy.Valid() && Sound(policy, start) && key in start.queue.inFlight
    requires superseded == (key in start.queue.successors)
    requires after == start.(queue := Release(start.queue, key), freePermits := start.freePermits + 1)
    ensures Takes(policy, start, Released(key, superseded), after) && Sound(policy, after)
  {
    hide Sound, Release;
    StepIsSound(policy, start, Released(key, superseded), after);
  }

  lemma EvictionMakesRoom(before: Queue, capacity: nat, incoming: Request, victim: Request, after: Queue)
    requires before.Queued() >= capacity && FirstToGo(before, victim) && CompareValue(incoming, victim) == After
    requires Evicts(before, victim, after)
    ensures RoomMade(before, capacity, incoming, after)
  {
    hide FirstToGo, CompareValue, Evicts;
  }

  lemma RefillAgain(b: RateBudget.Bucket, now: nat)
    ensures RateBudget.Refill(RateBudget.Refill(b, now), now) == RateBudget.Refill(b, now)
  {
  }

  lemma RefreshedKeys(policy: Policy, m: Machine, now: nat)
    requires Sound(policy, m)
    ensures var q := Refresh(m.queue, policy.limits.windowMs, now);
            OwnKeys(policy, q.pending) && OwnKeys(policy, q.successors)
  {
  }

  lemma PurgedKeys(policy: Policy, m: Machine, now: nat)
    requires Sound(policy, m)
    ensures OwnKeys(policy, Purge(m.queue, now).pending)
  {
  }

  lemma PurgeKeepsFlight(q: Queue, now: nat)
    ensures Purge(q, now).inFlight == q.inFlight
  {
  }

  lemma ChosenIsPending(
    policy: Policy, q: Queue, budget: RateBudget.Bucket, now: nat, r: Request, charged: RateBudget.Bucket)
    requires policy.Valid() && Choice(policy, q, budget, now, Some(r), charged)
    ensures r.key in q.pending
  {
  }

  lemma SomeOrNone(q: Queue, now: nat, ordered: seq<Request>)
    requires forall r :: r in ordered <==> Eligible(q, r, now)
    ensures ordered != [] <==> exists r :: Eligible(q, r, now)
  {
    if ordered != [] { assert ordered[0] in ordered; }
  }

  lemma NoneAffordable(q: Queue, now: nat, ready: RateBudget.Bucket, ordered: seq<Request>)
    requires forall r :: r in ordered <==> Eligible(q, r, now)
    requires forall j :: 0 <= j < |ordered| ==> !Affordable(ready, ordered[j])
    ensures forall r :: Eligible(q, r, now) ==> !Affordable(ready, r)
  {
  }

  lemma ChosenIsFirst(
    q: Queue, now: nat, targets: map<Tier, nat>, ready: RateBudget.Bucket, eligible: seq<Request>, index: nat)
    requires Targeted(targets)
    requires forall r :: r in eligible <==> Eligible(q, r, now)
    requires DistinctKeys(eligible)
    requires var ordered := Sort(eligible, q.windowCount, targets);
             index < |ordered| && forall j :: 0 <= j < index ==> !Affordable(ready, ordered[j])
    ensures var r := Sort(eligible, q.windowCount, targets)[index];
            OrderedEligible(q, now, targets) ==> FirstAffordable(q, now, targets, ready, r)
  {
    hide Affordable, Eligible, CompareDispatch, TransitiveAt;
    var ordered := Sort(eligible, q.windowCount, targets);
    SortKeepsElements(eligible, q.windowCount, targets);
    if OrderedEligible(q, now, targets) {
      SortSorts(eligible, q.windowCount, targets);
      hide Sort;
      forall other | Eligible(q, other, now) && Affordable(ready, other) && other != ordered[index]
        ensures CompareDispatch(ordered[index], other, q.windowCount, targets) == Before
      {
        assert other in ordered;
        var j :| 0 <= j < |ordered| && ordered[j] == other;
        assert index < j;
      }
    }
  }

  lemma RoomKeepsFlight(before: Queue, capacity: nat, incoming: Request, after: Queue)
    requires RoomMade(before, capacity, incoming, after)
    ensures after.inFlight == before.inFlight
  {
  }

  ghost predicate NothingToGo(q: Queue) {
    forall r :: !Evictable(q, r)
  }

  lemma NothingEvictable(q: Queue)
    requires LowestOf(q.pending, None) && LowestOf(q.successors, None)
    ensures NothingToGo(q)
  {
  }

  lemma NoneToGo(q: Queue, capacity: nat, incoming: Request)
    requires q.Queued() >= capacity && NothingToGo(q)
    ensures NoRoom(q, capacity, incoming)
  {
  }

  lemma FirstIsLeast(q: Queue, r: Request)
    requires FirstToGo(q, r)
    ensures LeastValued(q, r)
  {
  }

  lemma LessThanAll(q: Queue, capacity: nat, incoming: Request, lowest: Request)
    requires q.Queued() >= capacity && LeastValued(q, lowest) && CompareValue(incoming, lowest) != After
    ensures NoRoom(q, capacity, incoming)
  {
  }

  lemma WhereFound(requests: map<Key, Request>, lowest: Option<Request>)
    requires LowestOf(requests, lowest)
    ensures lowest.Some? ==> lowest.value.key in requests && requests[lowest.value.key] == lowest.value
  {
  }
}
