/** What the scheduler's queue does with a request, in terms of priorities, expiry
    and creation times: which is dispatched, which gives way, and what is left. */
module DispatchLaws {
  import opened Common
  import opened ReadRequests
  import opened QueueMachine
  import RateBudget

  // ------------------------------------------------------------------ orders

  /** From critical down to low. */
  predicate AtLeast(p: Priority, q: Priority) {
    match p
    case Critical => true
    case High => !q.Critical?
    case Normal => q.Normal? || q.Low?
    case Low => q.Low?
  }

  /** Expires sooner, or was created sooner, or comes first by key. */
  predicate MoreUrgent(a: Request, b: Request) {
    || a.expiresAt < b.expiresAt
    || (a.expiresAt == b.expiresAt && a.createdAt < b.createdAt)
    || (a.expiresAt == b.expiresAt && a.createdAt == b.createdAt && CompareKey(a.key, b.key) == Before)
  }

  /** The tier has received less of its target than the other has. */
  predicate FurtherBehind(a: Tier, b: Tier, counts: map<Tier, nat>, targets: map<Tier, nat>)
    requires Targeted(targets)
  {
    CountOf(counts, a) * targets[b] < CountOf(counts, b) * targets[a]
  }

  /** What decides between two requests of one priority. */
  predicate FirstOfItsPriority(a: Request, b: Request, counts: map<Tier, nat>, targets: map<Tier, nat>)
    requires Targeted(targets)
  {
    if a.tier.Some? && b.tier.Some? && a.tier != b.tier then
      || FurtherBehind(a.tier.value, b.tier.value, counts, targets)
      || (!FurtherBehind(b.tier.value, a.tier.value, counts, targets) && MoreUrgent(a, b))
    else MoreUrgent(a, b)
  }

  /** The comparator puts the higher priority first; within one, the tier further
      behind its target where the tiers differ, and else the more urgent request. */
  lemma DispatchOrderIs(a: Request, b: Request, counts: map<Tier, nat>, targets: map<Tier, nat>)
    requires Targeted(targets)
    ensures CompareDispatch(a, b, counts, targets) == Before <==>
              (if a.priority == b.priority then FirstOfItsPriority(a, b, counts, targets)
               else AtLeast(a.priority, b.priority))
  {
    hide CompareKey;
    if a.tier.Some? && b.tier.Some? { OneFairness(a.tier.value, b.tier.value, counts, targets); }
  }

  /** Worth less in a full queue: of lower priority, or expiring later, or created
      later. */
  predicate WorthLess(a: Request, b: Request) {
    || (a.priority != b.priority && AtLeast(b.priority, a.priority))
    || (a.priority == b.priority && a.expiresAt > b.expiresAt)
    || (a.priority == b.priority && a.expiresAt == b.expiresAt && a.createdAt > b.createdAt)
  }

  lemma ValueOrderIs(a: Request, b: Request)
    ensures CompareValue(a, b) == Before <==> WorthLess(a, b)
    ensures CompareValue(a, b) == After <==> WorthLess(b, a)
  {
  }

  /** A retry or a later read of the same key. */
  predicate Newer(a: Request, b: Request) {
    a.createdAt > b.createdAt || (a.createdAt == b.createdAt && a.attempt > b.attempt)
  }

  // ---------------------------------------------------------------- dispatch

  /** Waits, is due, and has not expired. */
  predicate Due(q: Queue, r: Request, now: nat) {
    r.key in q.pending && q.pending[r.key] == r && r.notBefore <= now < r.expiresAt
  }

  lemma EligibleIsDue(q: Queue, r: Request, now: nat)
    ensures Eligible(Purge(q, now), r, now) <==> Due(q, r, now)
  {
  }

  /** What is dispatched was due, and comes before every other due request that the
      budget affords, wherever the comparator is an order on them. */
  lemma DispatchTakesTheFirst(policy: Policy, before: Machine, now: nat, r: Request, after: Machine, other: Request)
    requires policy.Valid() && BeginStep(policy, before, now, Some(r), after)
    ensures Due(before.queue, r, now)
    ensures OrderedEligible(Purge(before.queue, now), now, policy.tierTargets) && other != r
            && Due(before.queue, other, now) && Affordable(RateBudget.Refill(before.budget, now), other) ==>
              && AtLeast(r.priority, other.priority)
              && (r.priority == other.priority ==>
                    FirstOfItsPriority(r, other, before.queue.windowCount, policy.tierTargets))
  {
    hide Affordable, CompareDispatch, OrderedEligible, RateBudget.Refill, RateBudget.Debit, FirstOfItsPriority,
      AtLeast, Eligible, Due, BeginStep;
    AboutTheChoice(policy, before, now, r, after);
    EligibleIsDue(before.queue, r, now);
    EligibleIsDue(before.queue, other, now);
    DispatchOrderIs(r, other, before.queue.windowCount, policy.tierTargets);
    PriorityIsTotal(r.priority, other.priority);
  }

  lemma PriorityIsTotal(p: Priority, q: Priority)
    ensures p == q ==> AtLeast(p, q)
  {
  }

  /** Nothing is dispatched only without a permit, or when the budget affords no
      request that is due; the queue then only loses what has expired. */
  lemma NothingDispatchedWhen(policy: Policy, before: Machine, now: nat, after: Machine)
    requires policy.Valid() && BeginStep(policy, before, now, None, after)
    ensures before.freePermits == 0 ||
            forall r :: Due(before.queue, r, now) ==> !Affordable(RateBudget.Refill(before.budget, now), r)
    ensures after.freePermits == before.freePermits
    ensures after.queue == if before.freePermits == 0 then before.queue else Purge(before.queue, now)
  {
    hide Affordable, Eligible, Due, OrderedEligible, FirstAffordable, RateBudget.Refill;
    forall r ensures Eligible(Purge(before.queue, now), r, now) <==> Due(before.queue, r, now) {
      EligibleIsDue(before.queue, r, now);
    }
  }

  ghost predicate Lives(requests: map<Key, Request>, k: Key, now: nat) {
    k in requests && requests[k].expiresAt > now
  }

  /** Exactly the live entries of `before`, under the keys of which `keeps` holds. */
  ghost predicate Left(before: map<Key, Request>, after: map<Key, Request>, now: nat, keeps: Key -> bool) {
    forall k ::
      && (k in after <==> Lives(before, k, now) && keeps(k))
      && (k in after ==> after[k] == before[k])
  }

  /** A dispatch takes one request from the pending entries into flight, with one
      permit, and its weight from the budget; expired entries go, the others
      stay; its tier is counted once more. */
  lemma DispatchMovesOne(policy: Policy, before: Machine, now: nat, r: Request, after: Machine, t: Tier)
    requires policy.Valid() && BeginStep(policy, before, now, Some(r), after)
    ensures Left(before.queue.pending, after.queue.pending, now, k => k != r.key)
    ensures Left(before.queue.successors, after.queue.successors, now, k => true)
    ensures after.queue.inFlight == before.queue.inFlight + {r.key}
    ensures after.freePermits == before.freePermits - 1 && after.queue.windowStart == before.queue.windowStart
    ensures CountOf(after.queue.windowCount, t) ==
            CountOf(before.queue.windowCount, t) + if r.tier == Some(t) then 1 else 0
  {
    hide OrderedEligible, FirstAffordable, Affordable, RateBudget.Refill, RateBudget.Debit;
  }

  /** Releasing a key gives back its permit and lets its successor wait in its
      place; every other entry stays. */
  lemma ReleaseMovesOne(policy: Policy, before: Machine, key: Key, superseded: bool, after: Machine, k: Key)
    requires policy.Valid() && Takes(policy, before, Released(key, superseded), after)
    ensures key in before.queue.inFlight && after.queue.inFlight == before.queue.inFlight - {key}
    ensures superseded <==> key in before.queue.successors
    ensures after.freePermits == before.freePermits + 1 && after.budget == before.budget
    ensures k != key ==>
              && (k in after.queue.pending <==> k in before.queue.pending)
              && (k in after.queue.pending ==> after.queue.pending[k] == before.queue.pending[k])
              && (k in after.queue.successors <==> k in before.queue.successors)
              && (k in after.queue.successors ==> after.queue.successors[k] == before.queue.successors[k])
    ensures key !in after.queue.successors
    ensures superseded ==> key in after.queue.pending && after.queue.pending[key] == before.queue.successors[key]
    ensures !superseded ==>
              && (key in after.queue.pending <==> key in before.queue.pending)
              && (key in after.queue.pending ==> after.queue.pending[key] == before.queue.pending[key])
    ensures after.queue.windowCount == before.queue.windowCount
  {
  }

  // ------------------------------------------------------------- scheduling

  /** Why a request is not looked at: the policy does not admit it, or it has
      expired. Its kind decides its weight, its class and whether it has a tier. */
  lemma RefusedWhen(policy: Policy, r: Request, now: nat)
    requires policy.Valid()
    ensures var admitted :=
              && r.kind == r.key.kind && r.weight == policy.endpointWeights[r.kind]
              && r.createdAt <= r.notBefore && r.createdAt < r.expiresAt
              && (r.budgetClass == RateBudget.Critical ==> r.kind in {FollowerState, FollowerOpenOrders})
              && (r.budgetClass == RateBudget.SourcePolling <==> r.kind == SourceState)
              && (r.tier.Some? <==> r.kind == SourceState)
              && r.candidateId == (if r.key.subject.Candidate? then Some(r.key.subject.id) else None);
            ValidateRequest(policy, r, now) ==
              if !admitted then Some(RejectedInvalid) else if r.expiresAt <= now then Some(Expired) else None
  {
    NoRequestIsOverweight(policy, r, now);
  }

  /** Where a request waits: behind the one of its key in flight, or as pending. */
  function Waiting(q: Queue, key: Key): map<Key, Request> {
    if key in q.inFlight then q.successors else q.pending
  }

  /** An entry of the same key is replaced exactly by a newer request; otherwise
      the request is refused as older and nothing changes. */
  lemma SameKeyKeepsTheNewer(policy: Policy, q: Queue, r: Request, outcome: ScheduleOutcome, after: Queue)
    requires AdmitStep(policy, q, r, outcome, after) && r.key in Waiting(q, r.key)
    ensures outcome in {RejectedOlder, ReplacedOlder, SuccessorRecorded}
    ensures outcome == RejectedOlder <==> !Newer(r, Waiting(q, r.key)[r.key])
    ensures outcome == RejectedOlder ==> after == q
    ensures outcome == ReplacedOlder ==> r.key !in q.inFlight && after == q.(pending := q.pending[r.key := r])
    ensures outcome == SuccessorRecorded ==> r.key in q.inFlight && after == q.(successors := q.successors[r.key := r])
  {
    hide RoomMade, NoRoom;
  }

  /** The entry that gave way: not critical, worth less than what came in, and no
      other non-critical entry was worth less than it. */
  ghost predicate GaveWay(q: Queue, incoming: Request, victim: Request) {
    && q.Holds(victim) && !victim.priority.Critical? && WorthLess(victim, incoming)
    && forall other :: q.Holds(other) && !other.priority.Critical? ==> !WorthLess(other, victim)
  }

  ghost predicate SomethingGaveWay(q: Queue, incoming: Request, after: Queue) {
    exists victim ::
      GaveWay(q, incoming, victim) && OnlyGoes(q, victim, after)
  }

  /** The queue without this one entry. */
  predicate OnlyGoes(q: Queue, victim: Request, after: Queue) {
    && after.inFlight == q.inFlight && after.windowCount == q.windowCount && after.windowStart == q.windowStart
    && if victim.key in q.pending && q.pending[victim.key] == victim
       then after.pending == q.pending - {victim.key} && after.successors == q.successors
       else after.pending == q.pending && after.successors == q.successors - {victim.key}
  }

  lemma EvictedGoes(q: Queue, victim: Request, after: Queue)
    requires Evicts(q, victim, after)
    ensures OnlyGoes(q, victim, after)
  {
  }

  /** Every non-critical entry is worth as much as what came in. */
  ghost predicate NothingWorthLess(q: Queue, incoming: Request) {
    forall other :: q.Holds(other) && !other.priority.Critical? ==> !WorthLess(other, incoming)
  }

  lemma VictimGaveWay(q: Queue, incoming: Request, victim: Request)
    requires FirstToGo(q, victim) && CompareValue(incoming, victim) == After
    ensures GaveWay(q, incoming, victim)
  {
    hide CompareValue, WorthLess, LookedAtFirst;
    ValueOrderIs(incoming, victim);
    forall other | q.Holds(other) && !other.priority.Critical? ensures !WorthLess(other, victim) {
      assert Evictable(q, other);
      ValueOrderIs(victim, other);
    }
  }

  lemma RoomWasMade(policy: Policy, q: Queue, incoming: Request, after: Queue)
    requires RoomMade(q, policy.queueCapacity, incoming, after)
    ensures if q.Queued() < policy.queueCapacity then after == q else SomethingGaveWay(q, incoming, after)
  {
    hide FirstToGo, CompareValue, GaveWay, Evicts, OnlyGoes;
    if q.Queued() >= policy.queueCapacity {
      var victim :| FirstToGo(q, victim) && CompareValue(incoming, victim) == After && Evicts(q, victim, after);
      VictimGaveWay(q, incoming, victim);
      EvictedGoes(q, victim, after);
    }
  }

  lemma NoRoomWhen(q: Queue, capacity: nat, incoming: Request)
    requires NoRoom(q, capacity, incoming)
    ensures q.Queued() >= capacity && NothingWorthLess(q, incoming)
  {
    hide CompareValue, WorthLess;
    forall other | q.Holds(other) && !other.priority.Critical? ensures !WorthLess(other, incoming) {
      assert Evictable(q, other);
      ValueOrderIs(incoming, other);
    }
  }

  /** A request of a new key joins a queue with room as it is. A full queue makes
      room exactly when some non-critical entry is worth less; a least such entry
      goes, and nothing else does. */
  lemma NewKeyNeedsRoom(policy: Policy, q: Queue, r: Request, outcome: ScheduleOutcome, after: Queue)
    requires AdmitStep(policy, q, r, outcome, after) && r.key !in Waiting(q, r.key)
    ensures outcome == RejectedQueueFull <==> q.Queued() >= policy.queueCapacity && NothingWorthLess(q, r)
    ensures outcome == RejectedQueueFull ==> after == q
    ensures outcome != RejectedQueueFull ==>
              exists room ::
                && (if q.Queued() < policy.queueCapacity then room == q else SomethingGaveWay(q, r, room))
                && if r.key in q.inFlight
                   then outcome == SuccessorRecorded && after == room.(successors := room.successors[r.key := r])
                   else outcome == Enqueued && after == room.(pending := room.pending[r.key := r])
  {
    hide RoomMade, NoRoom, SomethingGaveWay, NothingWorthLess;
    if outcome == RejectedQueueFull {
      if NoRoom(q, policy.queueCapacity, r) { NoRoomWhen(q, policy.queueCapacity, r); }
    } else {
      var room :| RoomMade(q, policy.queueCapacity, r, room) && Joins(room, r, outcome, after);
      RoomWasMade(policy, q, r, room);
      if q.Queued() >= policy.queueCapacity { SomethingWorthLess(q, r, room); }
      RoomKeepsKeysInFlight(policy, q, r, room);
    }
  }

  lemma SomethingWorthLess(q: Queue, r: Request, room: Queue)
    requires SomethingGaveWay(q, r, room)
    ensures !NothingWorthLess(q, r)
  {
    hide WorthLess;
  }

  lemma RoomKeepsKeysInFlight(policy: Policy, q: Queue, r: Request, room: Queue)
    requires RoomMade(q, policy.queueCapacity, r, room)
    ensures room.inFlight == q.inFlight
  {
    hide FirstToGo, CompareValue;
  }

  /** Before a valid request is looked at, what has expired leaves the queue, and a
      fairness window that is over starts again from nothing. */
  lemma RefreshingClears(before: Queue, windowMs: nat, now: nat)
    requires windowMs > 0
    ensures var after := Refresh(before, windowMs, now);
            && Left(before.pending, after.pending, now, k => true)
            && Left(before.successors, after.successors, now, k => true) && after.inFlight == before.inFlight
            && (if now >= before.windowStart + windowMs then after.windowStart == now && after.windowCount == map[]
                else after.windowStart == before.windowStart && after.windowCount == before.windowCount)
  {
  }
}
