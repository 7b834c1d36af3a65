/** What each call on the read scheduler of `crates/copytrade-core/src/scheduler.rs`
    may do to its queue, budget and permits, and what holds over every
    interleaving of such calls. */
module QueueMachine {
  import opened Common
  import opened ReadRequests
  import RateBudget

  datatype Queue = Queue(
    pending: map<Key, Request>, inFlight: set<Key>, successors: map<Key, Request>,
    windowCount: map<Tier, nat>, windowStart: nat)
  {
    function Queued(): nat {
      |pending| + |successors|
    }

    /** `r` waits in the queue, in either role. */
    predicate Holds(r: Request) {
      (r.key in pending && pending[r.key] == r) || (r.key in successors && successors[r.key] == r)
    }
  }

  datatype Machine = Machine(queue: Queue, budget: RateBudget.Bucket, freePermits: nat)

  /** A call, with the time it read and what it answered. */
  datatype Step =
    | Scheduled(request: Request, now: nat, outcome: ScheduleOutcome)
    | Began(now: nat, chosen: Option<Request>)
    | Released(key: Key, superseded: bool)

  // -------------------------------------------------------------- transitions

  function Unexpired(requests: map<Key, Request>, now: nat): map<Key, Request> {
    map k | k in requests && requests[k].expiresAt > now :: requests[k]
  }

  function Purge(q: Queue, now: nat): Queue {
    q.(pending := Unexpired(q.pending, now), successors := Unexpired(q.successors, now))
  }

  function RollWindow(q: Queue, windowMs: nat, now: nat): Queue {
    if RateBudget.Elapsed(now, q.windowStart) >= windowMs then q.(windowStart := now, windowCount := map[]) else q
  }

  predicate Evictable(q: Queue, r: Request) {
    q.Holds(r) && r.priority != Critical
  }

  ghost predicate LeastValued(q: Queue, r: Request) {
    Evictable(q, r) && forall other :: Evictable(q, other) ==> CompareValue(r, other) != After
  }

  /** Waits as pending, not as a successor. */
  predicate Pends(q: Queue, r: Request) {
    r.key in q.pending && q.pending[r.key] == r
  }

  /** Pending entries are looked at before successors, and each in key order. */
  predicate LookedAtFirst(q: Queue, a: Request, b: Request) {
    if Pends(q, a) then Pends(q, b) ==> CompareKey(a.key, b.key) != After
    else !Pends(q, b) && CompareKey(a.key, b.key) != After
  }

  /** The entry that gives way: of the least-valued ones, the one looked at first. */
  ghost predicate FirstToGo(q: Queue, r: Request) {
    && LeastValued(q, r)
    && forall other :: Evictable(q, other) && CompareValue(r, other) == Same ==> LookedAtFirst(q, r, other)
  }

  function WithoutPending(q: Queue, key: Key): Queue {
    q.(pending := q.pending - {key})
  }

  function WithoutSuccessor(q: Queue, key: Key): Queue {
    q.(successors := q.successors - {key})
  }

  ghost predicate Evicts(before: Queue, r: Request, after: Queue) {
    if Pends(before, r) then after == WithoutPending(before, r.key)
    else before.Holds(r) && after == WithoutSuccessor(before, r.key)
  }

  /** Room for one more: there was some, or the first of the least-valued
      non-critical entries gave way to a strictly more valuable one. */
  ghost predicate RoomMade(before: Queue, capacity: nat, incoming: Request, after: Queue) {
    if before.Queued() < capacity then after == before
    else
      exists victim ::
        FirstToGo(before, victim) && CompareValue(incoming, victim) == After && Evicts(before, victim, after)
  }

  /** No room: full of entries that must not, or need not, give way. */
  ghost predicate NoRoom(q: Queue, capacity: nat, incoming: Request) {
    q.Queued() >= capacity && forall r :: Evictable(q, r) ==> CompareValue(incoming, r) != After
  }

  function WithPending(q: Queue, r: Request): Queue {
    q.(pending := q.pending[r.key := r])
  }

  function WithSuccessor(q: Queue, r: Request): Queue {
    q.(successors := q.successors[r.key := r])
  }

  /** A new entry waits as the successor of a request in flight, or as pending. */
  predicate Joins(room: Queue, r: Request, outcome: ScheduleOutcome, after: Queue) {
    if r.key in room.inFlight
    then outcome == SuccessorRecorded && after == WithSuccessor(room, r)
    else outcome == Enqueued && after == WithPending(room, r)
  }

  /** A valid request meets a purged queue. */
  ghost predicate AdmitStep(policy: Policy, q: Queue, r: Request, outcome: ScheduleOutcome, after: Queue) {
    if r.key in q.inFlight && r.key in q.successors then
      if IsNewer(r, q.successors[r.key])
      then outcome == SuccessorRecorded && after == WithSuccessor(q, r)
      else outcome == RejectedOlder && after == q
    else if r.key !in q.inFlight && r.key in q.pending then
      if IsNewer(r, q.pending[r.key])
      then outcome == ReplacedOlder && after == WithPending(q, r)
      else outcome == RejectedOlder && after == q
    else if outcome == RejectedQueueFull then NoRoom(q, policy.queueCapacity, r) && after == q
    else exists room :: RoomMade(q, policy.queueCapacity, r, room) && Joins(room, r, outcome, after)
  }

  function Refresh(q: Queue, windowMs: nat, now: nat): Queue {
    RollWindow(Purge(q, now), windowMs, now)
  }

  ghost predicate ScheduleStep(
    policy: Policy, before: Queue, r: Request, now: nat, outcome: ScheduleOutcome, after: Queue)
    requires policy.Valid()
  {
    var refused := ValidateRequest(policy, r, now);
    if refused.Some? then outcome == refused.value && after == before
    else AdmitStep(policy, Refresh(before, policy.limits.windowMs, now), r, outcome, after)
  }

  predicate Eligible(q: Queue, r: Request, now: nat) {
    r.key in q.pending && q.pending[r.key] == r && r.notBefore <= now
  }

  predicate Affordable(ready: RateBudget.Bucket, r: Request) {
    RateBudget.Decide(ready, r.budgetClass, r.weight) == RateBudget.Charged
  }

  function Dispatch(q: Queue, r: Request): Queue {
    q.(pending := q.pending - {r.key},
       inFlight := q.inFlight + {r.key},
       windowCount := if r.tier.None? then q.windowCount
                      else q.windowCount[r.tier.value := CountOf(q.windowCount, r.tier.value) + 1])
  }

  /** Among these requests the dispatch comparator is an order. */
  ghost predicate OrderedEligible(q: Queue, now: nat, targets: map<Tier, nat>)
    requires Targeted(targets)
  {
    forall a, b, c :: Eligible(q, a, now) && Eligible(q, b, now) && Eligible(q, c, now) ==>
      TransitiveAt(a, b, c, q.windowCount, targets)
  }

  /** Nothing affordable comes before `r`. */
  ghost predicate FirstAffordable(q: Queue, now: nat, targets: map<Tier, nat>, ready: RateBudget.Bucket, r: Request)
    requires Targeted(targets)
  {
    forall other :: Eligible(q, other, now) && Affordable(ready, other) && other != r ==>
      CompareDispatch(r, other, q.windowCount, targets) == Before
  }

  /** Which eligible request is charged and taken, if any. */
  ghost predicate Choice(
    policy: Policy, q: Queue, budget: RateBudget.Bucket, now: nat, chosen: Option<Request>, charged: RateBudget.Bucket)
    requires policy.Valid()
  {
    var ready := RateBudget.Refill(budget, now);
    if !exists r :: Eligible(q, r, now) then chosen.None? && charged == budget
    else match chosen
      case None => (forall r :: Eligible(q, r, now) ==> !Affordable(ready, r)) && charged == ready
      case Some(r) =>
        && Eligible(q, r, now) && Affordable(ready, r)
        && (OrderedEligible(q, now, policy.tierTargets) ==> FirstAffordable(q, now, policy.tierTargets, ready, r))
        && charged == RateBudget.Debit(ready, r.budgetClass, r.weight)
  }

  ghost predicate BeginStep(policy: Policy, before: Machine, now: nat, chosen: Option<Request>, after: Machine)
    requires policy.Valid()
  {
    if before.freePermits == 0 then chosen.None? && after == before
    else
      var q := Purge(before.queue, now);
      && Choice(policy, q, before.budget, now, chosen, after.budget)
      && after == if chosen.None? then before.(queue := q, budget := after.budget)
                  else Machine(Dispatch(q, chosen.value), after.budget, before.freePermits - 1)
  }

  function Release(q: Queue, key: Key): Queue {
    var released := q.(inFlight := q.inFlight - {key});
    if key in q.successors
    then released.(pending := q.pending[key := q.successors[key]], successors := q.successors - {key})
    else released
  }

  ghost predicate Takes(policy: Policy, before: Machine, step: Step, after: Machine)
    requires policy.Valid()
  {
    match step
    case Scheduled(r, now, outcome) =>
      ScheduleStep(policy, before.queue, r, now, outcome, after.queue) && after == before.(queue := after.queue)
    case Began(now, chosen) => BeginStep(policy, before, now, chosen, after)
    case Released(key, superseded) =>
      && key in before.queue.inFlight
      && superseded == (key in before.queue.successors)
      && after == before.(queue := Release(before.queue, key), freePermits := before.freePermits + 1)
  }

  // --------------------------------------------------------------- invariants

  ghost predicate OwnKeys(policy: Policy, requests: map<Key, Request>) {
    forall k :: k in requests ==> requests[k].key == k && Admissible(policy, requests[k])
  }

  /** What every reachable queue keeps. */
  ghost predicate QueueSound(policy: Policy, q: Queue) {
    && q.pending.Keys !! q.inFlight
    && q.successors.Keys <= q.inFlight
    && OwnKeys(policy, q.pending) && OwnKeys(policy, q.successors)
    && q.Queued() <= policy.queueCapacity
  }

  ghost predicate Sound(policy: Policy, m: Machine) {
    QueueSound(policy, m.queue) && |m.queue.inFlight| + m.freePermits == policy.maxConcurrency
  }

  function Start(policy: Policy, now: nat): Machine
    requires policy.Valid()
  {
    Machine(Queue(map[], {}, map[], map[], 0), RateBudget.NewBucket(policy.limits, now), policy.maxConcurrency)
  }

  lemma SubmapIsSmaller(m: map<Key, Request>, n: map<Key, Request>)
    requires m.Keys <= n.Keys
    ensures |m| <= |n|
  {
    assert m.Keys + (n.Keys - m.Keys) == n.Keys;
    assert |n.Keys| == |m.Keys| + |n.Keys - m.Keys|;
  }

  lemma InsertGrows(m: map<Key, Request>, k: Key, r: Request)
    ensures |m[k := r]| == |m| + if k in m then 0 else 1
  {
  }

  lemma RemoveShrinks(m: map<Key, Request>, k: Key)
    requires k in m
    ensures |m - {k}| == |m| - 1
  {
  }

  lemma PurgeIsSound(policy: Policy, q: Queue, now: nat)
    requires QueueSound(policy, q)
    ensures QueueSound(policy, Purge(q, now))
  {
    SubmapIsSmaller(Unexpired(q.pending, now), q.pending);
    SubmapIsSmaller(Unexpired(q.successors, now), q.successors);
  }

  lemma PendingJoins(policy: Policy, q: Queue, r: Request)
    requires QueueSound(policy, q) && Admissible(policy, r) && r.key !in q.inFlight
    requires r.key in q.pending || q.Queued() < policy.queueCapacity
    ensures QueueSound(policy, WithPending(q, r))
  {
  }

  lemma SuccessorJoins(policy: Policy, q: Queue, r: Request)
    requires QueueSound(policy, q) && Admissible(policy, r) && r.key in q.inFlight
    requires r.key in q.successors || q.Queued() < policy.queueCapacity
    ensures QueueSound(policy, WithSuccessor(q, r))
  {
  }

  lemma PendingLeaves(policy: Policy, q: Queue, key: Key)
    requires QueueSound(policy, q) && key in q.pending
    ensures QueueSound(policy, WithoutPending(q, key)) && WithoutPending(q, key).Queued() < policy.queueCapacity
  {
  }

  lemma SuccessorLeaves(policy: Policy, q: Queue, key: Key)
    requires QueueSound(policy, q) && key in q.successors
    ensures QueueSound(policy, WithoutSuccessor(q, key)) && WithoutSuccessor(q, key).Queued() < policy.queueCapacity
  {
  }

  lemma EvictionIsSound(policy: Policy, q: Queue, victim: Request, room: Queue)
    requires QueueSound(policy, q) && Evicts(q, victim, room)
    ensures QueueSound(policy, room) && room.Queued() < policy.queueCapacity && room.inFlight == q.inFlight
  {
    hide QueueSound;
    if victim.key in q.pending && room == WithoutPending(q, victim.key) {
      PendingLeaves(policy, q, victim.key);
    } else {
      SuccessorLeaves(policy, q, victim.key);
    }
  }

  /** Which entry gives way is determined: no two queues can come of it. */
  lemma RoomIsDetermined(policy: Policy, q: Queue, incoming: Request, one: Queue, other: Queue)
    requires QueueSound(policy, q)
    requires RoomMade(q, policy.queueCapacity, incoming, one) && RoomMade(q, policy.queueCapacity, incoming, other)
    ensures one == other
  {
    hide QueueSound, FirstToGo, Evicts;
    if q.Queued() >= policy.queueCapacity {
      var a :| FirstToGo(q, a) && CompareValue(incoming, a) == After && Evicts(q, a, one);
      var b :| FirstToGo(q, b) && CompareValue(incoming, b) == After && Evicts(q, b, other);
      FirstToGoIsUnique(q, a, b);
      EvictionIsDetermined(q, a, one, other);
    }
  }

  lemma EvictionIsDetermined(q: Queue, r: Request, one: Queue, other: Queue)
    requires Evicts(q, r, one) && Evicts(q, r, other)
    ensures one == other
  {
  }

  lemma FirstToGoIsUnique(q: Queue, a: Request, b: Request)
    requires FirstToGo(q, a) && FirstToGo(q, b)
    ensures a == b
  {
    ValuesReverse(a, b);
    CompareKeyIsTotal(a.key, b.key);
    hide CompareKey, CompareValue;
  }

  lemma ValuesReverse(a: Request, b: Request)
    ensures CompareValue(a, b) == CompareValue(b, a).Reverse()
  {
  }

  lemma RoomIsSound(policy: Policy, q: Queue, incoming: Request, room: Queue)
    requires QueueSound(policy, q) && RoomMade(q, policy.queueCapacity, incoming, room)
    ensures QueueSound(policy, room) && room.Queued() < policy.queueCapacity && room.inFlight == q.inFlight
  {
    hide QueueSound, FirstToGo, Evicts;
    if q.Queued() >= policy.queueCapacity {
      var victim :| FirstToGo(q, victim) && CompareValue(incoming, victim) == After && Evicts(q, victim, room);
      EvictionIsSound(policy, q, victim, room);
    }
  }

  lemma JoinIsSound(policy: Policy, room: Queue, r: Request, outcome: ScheduleOutcome, after: Queue)
    requires QueueSound(policy, room) && room.Queued() < policy.queueCapacity && Admissible(policy, r)
    requires Joins(room, r, outcome, after)
    ensures QueueSound(policy, after) && after.inFlight == room.inFlight
  {
    hide QueueSound, Admissible;
    if r.key in room.inFlight {
      SuccessorJoins(policy, room, r);
    } else {
      PendingJoins(policy, room, r);
    }
  }

  lemma AdmitIsSound(policy: Policy, q: Queue, r: Request, outcome: ScheduleOutcome, after: Queue)
    requires QueueSound(policy, q) && Admissible(policy, r) && AdmitStep(policy, q, r, outcome, after)
    ensures QueueSound(policy, after) && after.inFlight == q.inFlight
  {
    hide RoomMade, NoRoom, QueueSound, Joins, Admissible;
    if r.key in q.inFlight && r.key in q.successors {
      SuccessorJoins(policy, q, r);
    } else if r.key !in q.inFlight && r.key in q.pending {
      PendingJoins(policy, q, r);
    } else if outcome != RejectedQueueFull {
      var room :| RoomMade(q, policy.queueCapacity, r, room) && Joins(room, r, outcome, after);
      RoomIsSound(policy, q, r, room);
      JoinIsSound(policy, room, r, outcome, after);
    }
  }

  lemma RefreshIsSound(policy: Policy, q: Queue, now: nat)
    requires QueueSound(policy, q)
    ensures QueueSound(policy, Refresh(q, policy.limits.windowMs, now))
    ensures Refresh(q, policy.limits.windowMs, now).inFlight == q.inFlight
  {
    PurgeIsSound(policy, q, now);
  }

  lemma ScheduleIsSound(policy: Policy, before: Queue, r: Request, now: nat, outcome: ScheduleOutcome, after: Queue)
    requires policy.Valid() && QueueSound(policy, before)
    requires ScheduleStep(policy, before, r, now, outcome, after)
    ensures QueueSound(policy, after) && after.inFlight == before.inFlight
  {
    hide QueueSound, AdmitStep, Refresh, Admissible;
    if ValidateRequest(policy, r, now).None? {
      RefreshIsSound(policy, before, now);
      AdmitIsSound(policy, Refresh(before, policy.limits.windowMs, now), r, outcome, after);
    }
  }

  lemma DispatchIsSound(policy: Policy, q: Queue, r: Request)
    requires QueueSound(policy, q) && r.key in q.pending
    ensures QueueSound(policy, Dispatch(q, r))
    ensures |Dispatch(q, r).inFlight| == |q.inFlight| + 1
  {
  }

  lemma BeginIsSound(policy: Policy, before: Machine, now: nat, chosen: Option<Request>, after: Machine)
    requires policy.Valid() && Sound(policy, before) && BeginStep(policy, before, now, chosen, after)
    ensures Sound(policy, after)
  {
    PurgeIsSound(policy, before.queue, now);
    assert Purge(before.queue, now).inFlight == before.queue.inFlight;
    hide OrderedEligible, FirstAffordable, Purge, QueueSound;
    if chosen.Some? {
      DispatchIsSound(policy, Purge(before.queue, now), chosen.value);
      hide Dispatch;
    }
  }

  lemma ReleaseIsSound(policy: Policy, q: Queue, key: Key)
    requires QueueSound(policy, q) && key in q.inFlight
    ensures QueueSound(policy, Release(q, key))
    ensures |Release(q, key).inFlight| == |q.inFlight| - 1
  {
    if key in q.successors {
      InsertGrows(q.pending, key, q.successors[key]);
      RemoveShrinks(q.successors, key);
    }
  }

  /** Every call keeps the queue sound: pending and in-flight keys are disjoint,
      successors belong to requests in flight, every entry is admissible and
      under its own key, the queue fits its capacity, and permits are conserved. */
  lemma StepIsSound(policy: Policy, before: Machine, step: Step, after: Machine)
    requires policy.Valid() && Sound(policy, before) && Takes(policy, before, step, after)
    ensures Sound(policy, after)
  {
    hide QueueSound, ScheduleStep, BeginStep, Release;
    match step
    case Scheduled(r, now, outcome) => ScheduleIsSound(policy, before.queue, r, now, outcome, after.queue);
    case Began(now, chosen) => BeginIsSound(policy, before, now, chosen, after);
    case Released(key, _) => ReleaseIsSound(policy, before.queue, key);
  }

  // --------------------------------------------------------------------- runs

  /** A run: consecutive machines, each a step from the one before. */
  ghost predicate Path(policy: Policy, machines: seq<Machine>, steps: seq<Step>)
    requires policy.Valid()
  {
    |machines| == |steps| + 1 &&
    forall i :: 0 <= i < |steps| ==> Takes(policy, machines[i], steps[i], machines[i + 1])
  }

  lemma {:induction false} RunStaysSound(policy: Policy, machines: seq<Machine>, steps: seq<Step>)
    requires policy.Valid() && Path(policy, machines, steps) && Sound(policy, machines[0])
    ensures forall i :: 0 <= i < |machines| ==> Sound(policy, machines[i])
    decreases |steps|
  {
    hide Sound, Takes;
    if steps != [] {
      var n := |steps| - 1;
      RunStaysSound(policy, machines[..n + 1], steps[..n]);
      assert machines[..n + 1][n] == machines[n];
      StepIsSound(policy, machines[n], steps[n], machines[n + 1]);
      forall i | 0 <= i < |machines| ensures Sound(policy, machines[i]) {
        if i <= n { assert machines[..n + 1][i] == machines[i]; }
      }
    }
  }

  /** From an empty scheduler, through any interleaving of calls. */
  lemma EveryRunIsSound(policy: Policy, now: nat, machines: seq<Machine>, steps: seq<Step>)
    requires policy.Valid() && Path(policy, machines, steps) && machines[0] == Start(policy, now)
    ensures forall i :: 0 <= i < |machines| ==> Sound(policy, machines[i])
  {
    RunStaysSound(policy, machines, steps);
  }

  // --------------------------------------------------------- charging, once each

  /** What a step asks of the budget. */
  ghost function BudgetOps(before: Machine, step: Step): seq<RateBudget.Op> {
    match step
    case Began(now, Some(r)) => [RateBudget.Request(r.budgetClass, r.weight, now)]
    case Began(now, None) =>
      if before.freePermits > 0 && exists r :: Eligible(Purge(before.queue, now), r, now)
      then [RateBudget.Poll(now)] else []
    case _ => []
  }

  function DispatchedBy(step: Step, pool: RateBudget.Pool): nat {
    if step.Began? && step.chosen.Some? && RateBudget.Draws(step.chosen.value.budgetClass, pool)
    then step.chosen.value.weight else 0
  }

  function DispatchedWeight(steps: seq<Step>, pool: RateBudget.Pool): nat {
    if steps == [] then 0 else DispatchedBy(steps[0], pool) + DispatchedWeight(steps[1..], pool)
  }

  lemma StepSpends(policy: Policy, before: Machine, step: Step, after: Machine, pool: RateBudget.Pool)
    requires policy.Valid() && Takes(policy, before, step, after)
    ensures after.budget == RateBudget.Run(before.budget, BudgetOps(before, step))
    ensures RateBudget.TakenInRun(before.budget, BudgetOps(before, step), pool) == DispatchedBy(step, pool)
  {
  }

  ghost function AllOps(machines: seq<Machine>, steps: seq<Step>): seq<RateBudget.Op>
    requires |machines| == |steps| + 1
    decreases |steps|
  {
    if steps == [] then [] else BudgetOps(machines[0], steps[0]) + AllOps(machines[1..], steps[1..])
  }

  lemma {:induction false} RunsConcatenate(
    b: RateBudget.Bucket, first: seq<RateBudget.Op>, then_: seq<RateBudget.Op>, pool: RateBudget.Pool)
    ensures RateBudget.Run(b, first + then_) == RateBudget.Run(RateBudget.Run(b, first), then_)
    ensures RateBudget.TakenInRun(b, first + then_, pool) ==
            RateBudget.TakenInRun(b, first, pool) + RateBudget.TakenInRun(RateBudget.Run(b, first), then_, pool)
    decreases |first|
  {
    hide RateBudget.Step, RateBudget.Taken;
    if first == [] {
      assert first + then_ == then_;
    } else {
      assert (first + then_)[1..] == first[1..] + then_;
      RunsConcatenate(RateBudget.Step(b, first[0]), first[1..], then_, pool);
    }
  }

  /** Through any run the budget is charged exactly the weights dispatched. */
  lemma {:induction false} DispatchesAreChargedOnce(
    policy: Policy, machines: seq<Machine>, steps: seq<Step>, pool: RateBudget.Pool)
    requires policy.Valid() && Path(policy, machines, steps)
    ensures machines[|steps|].budget == RateBudget.Run(machines[0].budget, AllOps(machines, steps))
    ensures RateBudget.TakenInRun(machines[0].budget, AllOps(machines, steps), pool) == DispatchedWeight(steps, pool)
    decreases |steps|
  {
    hide Takes, BudgetOps, DispatchedBy, RateBudget.Step, RateBudget.Taken;
    if steps != [] {
      var rest := machines[1..];
      assert Path(policy, rest, steps[1..]) by {
        forall i | 0 <= i < |steps[1..]| ensures Takes(policy, rest[i], steps[1..][i], rest[i + 1]) {
          assert Takes(policy, machines[i + 1], steps[i + 1], machines[i + 2]);
        }
      }
      StepSpends(policy, machines[0], steps[0], machines[1], pool);
      DispatchesAreChargedOnce(policy, rest, steps[1..], pool);
      RunsConcatenate(machines[0].budget, BudgetOps(machines[0], steps[0]), AllOps(rest, steps[1..]), pool);
      assert rest[|steps[1..]|] == machines[|steps|];
    }
  }

  /** The scheduler dispatches no faster than its budget refills: over any run
      the weight of the requests dispatched from a pool, in budget units, is at
      most that pool's capacity and what the elapsed time refilled. */
  lemma DispatchRateIsBounded(policy: Policy, machines: seq<Machine>, steps: seq<Step>, pool: RateBudget.Pool)
    requires policy.Valid() && Path(policy, machines, steps) && RateBudget.Sound(machines[0].budget)
    ensures var b, end := machines[0].budget, machines[|steps|].budget;
            && end.lastRefill >= b.lastRefill
            && DispatchedWeight(steps, pool) * b.windowMs <=
                 b.weights.Of(pool) * b.windowMs + (end.lastRefill - b.lastRefill) * b.weights.Of(pool)
  {
    DispatchesAreChargedOnce(policy, machines, steps, pool);
    RateBudget.RateEnvelope(machines[0].budget, AllOps(machines, steps), pool);
  }

  // ---------------------------------------------------------- weighted fairness

  /** The tiers' shares of their targets differ by at most one dispatch. */
  predicate Fair(counts: map<Tier, nat>, targets: map<Tier, nat>)
    requires Targeted(targets)
  {
    var a := CountOf(counts, Active) * targets[Inactive];
    var i := CountOf(counts, Inactive) * targets[Active];
    var larger := if targets[Active] < targets[Inactive] then targets[Inactive] else targets[Active];
    a <= i + larger && i <= a + larger
  }

  /** Everything eligible is a source read of one priority, and both tiers wait. */
  ghost predicate Contested(q: Queue, now: nat, priority: Priority) {
    && (forall r :: Eligible(q, r, now) ==> r.tier.Some? && r.priority == priority)
    && (forall t: Tier :: exists r :: Eligible(q, r, now) && r.tier == Some(t))
  }

  lemma ContestedIsOrdered(policy: Policy, q: Queue, now: nat, priority: Priority)
    requires policy.Valid() && Contested(q, now, priority)
    ensures OrderedEligible(q, now, policy.tierTargets)
  {
    hide Eligible, TransitiveAt;
    forall a, b, c | Eligible(q, a, now) && Eligible(q, b, now) && Eligible(q, c, now)
      ensures TransitiveAt(a, b, c, q.windowCount, policy.tierTargets)
    {
      UnmixedIsTransitive(a, b, c, q.windowCount, policy.tierTargets);
    }
  }

  /** Source reads all cost the same, so the first in order is the one chosen. */
  lemma SourceReadsCostTheSame(policy: Policy, q: Queue, ready: RateBudget.Bucket, now: nat, r: Request, other: Request)
    requires QueueSound(policy, q) && Eligible(q, r, now) && Eligible(q, other, now)
    requires r.tier.Some? && other.tier.Some? && Affordable(ready, r)
    ensures Affordable(ready, other)
  {
  }

  /** No request that could be charged has a higher priority than the first. */
  ghost predicate Highest(q: Queue, now: nat, ready: RateBudget.Bucket, r: Request) {
    forall other :: Eligible(q, other, now) && Affordable(ready, other) ==>
      other.priority.Rank() <= r.priority.Rank()
  }

  lemma FirstIsHighest(q: Queue, now: nat, targets: map<Tier, nat>, ready: RateBudget.Bucket, r: Request)
    requires Targeted(targets) && FirstAffordable(q, now, targets, ready, r)
    ensures Highest(q, now, ready, r)
  {
    hide Eligible, Affordable;
  }

  lemma AboutTheChoice(policy: Policy, before: Machine, now: nat, r: Request, after: Machine)
    requires policy.Valid() && BeginStep(policy, before, now, Some(r), after)
    ensures var q, ready := Purge(before.queue, now), RateBudget.Refill(before.budget, now);
            && Eligible(q, r, now) && Affordable(ready, r)
            && (OrderedEligible(q, now, policy.tierTargets) ==> FirstAffordable(q, now, policy.tierTargets, ready, r))
            && q.windowCount == before.queue.windowCount
            && (r.tier.Some? ==>
                  after.queue.windowCount == q.windowCount[r.tier.value := CountOf(q.windowCount, r.tier.value) + 1])
  {
  }

  lemma FirstIsNoLessFair(policy: Policy, q: Queue, ready: RateBudget.Bucket, now: nat, r: Request, priority: Priority)
    requires policy.Valid() && QueueSound(policy, q) && Contested(q, now, priority)
    requires Eligible(q, r, now) && Affordable(ready, r) && FirstAffordable(q, now, policy.tierTargets, ready, r)
    ensures r.tier.Some?
    ensures CompareFairness(r.tier.value, OtherTier(r.tier.value), q.windowCount, policy.tierTargets) != After
  {
    hide QueueSound, Affordable, CompareUrgency;
    assert r.tier.Some?;
    var behind := OtherTier(r.tier.value);
    var rival :| Eligible(q, rival, now) && rival.tier == Some(behind);
    assert rival.tier.value == behind;
    SourceReadsCostTheSame(policy, q, ready, now, r, rival);
    hide Eligible, CompareFairness;
    assert rival.tier.value != r.tier.value;
    assert CompareDispatch(r, rival, q.windowCount, policy.tierTargets) == Before;
  }

  function OtherTier(t: Tier): (other: Tier)
    ensures other != t
  {
    if t == Active then Inactive else Active
  }

  lemma ChosenTierIsBehind(policy: Policy, before: Machine, now: nat, r: Request, after: Machine, priority: Priority)
    requires policy.Valid() && Sound(policy, before) && BeginStep(policy, before, now, Some(r), after)
    requires Contested(Purge(before.queue, now), now, priority)
    ensures r.tier.Some?
    ensures CompareFairness(r.tier.value, OtherTier(r.tier.value), before.queue.windowCount, policy.tierTargets)
              != After
    ensures after.queue.windowCount ==
            before.queue.windowCount[r.tier.value := CountOf(before.queue.windowCount, r.tier.value) + 1]
  {
    hide BeginStep, QueueSound, Contested, FirstAffordable, OrderedEligible, Purge, CompareFairness, Affordable,
      Eligible, RateBudget.Refill, CountOf;
    AboutTheChoice(policy, before, now, r, after);
    PurgeIsSound(policy, before.queue, now);
    var q, ready := Purge(before.queue, now), RateBudget.Refill(before.budget, now);
    ContestedIsOrdered(policy, q, now, priority);
    FirstIsNoLessFair(policy, q, ready, now, r, priority);
  }

  lemma CountingStaysFair(counts: map<Tier, nat>, targets: map<Tier, nat>, mine: Tier)
    requires Targeted(targets) && Fair(counts, targets)
    requires CompareFairness(mine, OtherTier(mine), counts, targets) != After
    ensures Fair(counts[mine := CountOf(counts, mine) + 1], targets)
  {
    RateBudget.ScaleSplits(CountOf(counts, mine) + 1, CountOf(counts, mine), 1, targets[OtherTier(mine)]);
  }

  lemma StepStaysFair(policy: Policy, before: Machine, step: Step, after: Machine)
    requires policy.Valid() && Sound(policy, before) && Takes(policy, before, step, after)
    requires Fair(before.queue.windowCount, policy.tierTargets)
    requires step.Began? && step.chosen.Some? ==>
               exists priority :: Contested(Purge(before.queue, step.now), step.now, priority)
    ensures Fair(after.queue.windowCount, policy.tierTargets)
  {
    hide Sound, BeginStep, ScheduleStep, Contested, Purge, Release;
    if step.Began? && step.chosen.Some? {
      hide Fair, CompareFairness;
      var priority :| Contested(Purge(before.queue, step.now), step.now, priority);
      ChosenTierIsBehind(policy, before, step.now, step.chosen.value, after, priority);
      CountingStaysFair(before.queue.windowCount, policy.tierTargets, step.chosen.value.tier.value);
    } else {
      CountsOtherwise(policy, before, step, after);
    }
  }

  lemma CountsOtherwise(policy: Policy, before: Machine, step: Step, after: Machine)
    requires policy.Valid() && Takes(policy, before, step, after)
    requires !(step.Began? && step.chosen.Some?)
    ensures after.queue.windowCount == before.queue.windowCount || after.queue.windowCount == map[]
  {
    hide BeginStep, ScheduleStep;
    match step
    case Scheduled(r, now, outcome) => ScheduleCounts(policy, before.queue, r, now, outcome, after.queue);
    case Began(now, _) => IdleCounts(policy, before, now, after);
    case Released(_, _) =>
  }

  lemma IdleCounts(policy: Policy, before: Machine, now: nat, after: Machine)
    requires policy.Valid() && BeginStep(policy, before, now, None, after)
    ensures after.queue.windowCount == before.queue.windowCount
  {
  }

  lemma ScheduleCounts(policy: Policy, before: Queue, r: Request, now: nat, outcome: ScheduleOutcome, after: Queue)
    requires policy.Valid() && ScheduleStep(policy, before, r, now, outcome, after)
    ensures after.windowCount == before.windowCount || after.windowCount == map[]
  {
    hide RoomMade, NoRoom, Joins;
    if ValidateRequest(policy, r, now).None? {
      var q := Refresh(before, policy.limits.windowMs, now);
      assert q.windowCount == before.windowCount || q.windowCount == map[];
      hide Refresh;
      if exists room :: RoomMade(q, policy.queueCapacity, r, room) && Joins(room, r, outcome, after) {
        var room :| RoomMade(q, policy.queueCapacity, r, room) && Joins(room, r, outcome, after);
        RoomCounts(q, policy.queueCapacity, r, room, outcome, after);
      }
    }
  }

  lemma RoomCounts(q: Queue, capacity: nat, r: Request, room: Queue, outcome: ScheduleOutcome, after: Queue)
    requires RoomMade(q, capacity, r, room) && Joins(room, r, outcome, after)
    ensures after.windowCount == q.windowCount
  {
  }

  /** While both tiers stay backlogged with source reads of one priority, the
      dispatch counts stay within one dispatch of their targets' ratio, across
      any number of dispatches and window clears. */
  lemma {:induction false} DispatchesAreFair(policy: Policy, machines: seq<Machine>, steps: seq<Step>)
    requires policy.Valid() && Path(policy, machines, steps) && Sound(policy, machines[0])
    requires Fair(machines[0].queue.windowCount, policy.tierTargets)
    requires forall i :: 0 <= i < |steps| && steps[i].Began? && steps[i].chosen.Some? ==>
               exists priority :: Contested(Purge(machines[i].queue, steps[i].now), steps[i].now, priority)
    ensures Fair(machines[|steps|].queue.windowCount, policy.tierTargets)
    decreases |steps|
  {
    hide Takes, Sound, Fair, Contested, Purge;
    if steps != [] {
      var n := |steps| - 1;
      var earlier, firstSteps := machines[..n + 1], steps[..n];
      assert Path(policy, earlier, firstSteps) by {
        forall i | 0 <= i < n ensures Takes(policy, earlier[i], firstSteps[i], earlier[i + 1]) {
          assert Takes(policy, machines[i], steps[i], machines[i + 1]);
        }
      }
      DispatchesAreFair(policy, earlier, firstSteps);
      RunStaysSound(policy, machines, steps);
      assert Takes(policy, machines[n], steps[n], machines[n + 1]);
      StepStaysFair(policy, machines[n], steps[n], machines[n + 1]);
    }
  }
}
