/** `crates/copytrade-core/src/lifecycle.rs`: the reconciliation state machine of
    one order, and the registry of all of them. */
module Lifecycle {
  import opened Common

  type Timestamp = nat
  type Cloid = nat
  type OrderRef = Text
  type Reason = Text

  const U32_SIZE: nat := 0x1_0000_0000

  datatype PlannedAction = PlannedAction(
    decisionId: nat, targetVersion: nat, asset: Text, isBuy: bool, roundedNotional: real,
    reduceOnly: bool, actionOrdinal: nat, retryGeneration: nat, cloid: Cloid)

  datatype State =
    | DecisionConstructed(decisionId: nat)
    | RiskValidated(decisionId: nat)
    | ActionPlanned(action: PlannedAction)
    | AwaitingFutureSubmission(action: PlannedAction)
    | SubmissionUnknown(action: PlannedAction, firstUnknownAt: Timestamp, attempts: nat, confirmations: seq<Timestamp>)
    | ReconciledNotFound(action: PlannedAction)
    | ReconciledOpen(action: PlannedAction, orderRef: OrderRef)
    | ReconciledPartiallyFilled(action: PlannedAction, orderRef: OrderRef, filled: real)
    | ReconciledFilled(action: PlannedAction, orderRef: OrderRef, filled: real)
    | ReconciledCancelled(action: PlannedAction, knownRef: Option<OrderRef>)
    | ReconciledRejected(action: PlannedAction, reason: Reason)
  {
    function Action(): Option<PlannedAction> {
      if DecisionConstructed? || RiskValidated? then None else Some(action)
    }

    predicate IsTerminal() {
      ReconciledNotFound? || ReconciledFilled? || ReconciledCancelled? || ReconciledRejected?
    }

    function KnownRef(): Option<OrderRef> {
      if ReconciledOpen? || ReconciledPartiallyFilled? || ReconciledFilled? then Some(orderRef)
      else if ReconciledCancelled? then knownRef
      else None
    }

    function KnownFill(): Option<real> {
      if ReconciledPartiallyFilled? || ReconciledFilled? then Some(filled) else None
    }
  }

  datatype Observation =
    | NotFound(observedAt: Timestamp)
    | Open(orderRef: OrderRef, originalQuantity: real, remainingQuantity: real, observedAt: Timestamp)
    | Filled(orderRef: OrderRef, filledQuantity: real, observedAt: Timestamp)
    | Cancelled(orderRef: OrderRef, filledQuantity: real, observedAt: Timestamp)
    | Rejected(reason: Reason, observedAt: Timestamp)

  datatype Event =
    | Validate(decisionId: nat)
    | Plan(action: PlannedAction)
    | AwaitSubmission
    | SubmissionBecameUnknown(observedAt: Timestamp)
    | Observed(observation: Observation)

  datatype Policy = Policy(
    requiredConfirmations: nat, minimumInterval: nat, maximumAttempts: nat, maximumLifetime: nat)
  {
    predicate Valid() {
      && 0 < requiredConfirmations <= maximumAttempts < U32_SIZE
      && 0 < minimumInterval
      && 0 < maximumLifetime
    }
  }

  datatype TransitionError =
    | InvalidTransition
    | InvalidObservation
    | ReconciliationAttemptLimit
    | UnknownLifetimeExceeded
    | ReconciliationConflict
    | InvalidPolicy

  type Transition = Result<State, TransitionError>

  // ------------------------------------------------------------ transitions

  function ApplyEvent(current: State, event: Event, policy: Policy): Transition {
    if !policy.Valid() then Err(InvalidPolicy) else
    match (current, event)
    case (DecisionConstructed(id), Validate(eventId)) =>
      if id == eventId then Ok(RiskValidated(id)) else Err(InvalidTransition)
    case (RiskValidated(id), Validate(eventId)) =>
      if id == eventId then Ok(current) else Err(InvalidTransition)
    case (RiskValidated(id), Plan(action)) =>
      if id == action.decisionId then Ok(ActionPlanned(action)) else Err(InvalidTransition)
    case (ActionPlanned(planned), Plan(action)) =>
      if planned == action then Ok(current) else Err(InvalidTransition)
    case (ActionPlanned(action), AwaitSubmission) => Ok(AwaitingFutureSubmission(action))
    case (AwaitingFutureSubmission(_), AwaitSubmission) => Ok(current)
    case (AwaitingFutureSubmission(action), SubmissionBecameUnknown(at)) => Ok(SubmissionUnknown(action, at, 0, []))
    case (SubmissionUnknown(_, first, _, _), SubmissionBecameUnknown(at)) =>
      if first == at then Ok(current) else Err(InvalidTransition)
    case (_, Observed(observation)) => ApplyObservation(current, observation, policy)
    case (_, _) => Err(InvalidTransition)
  }

  function ApplyObservation(current: State, observation: Observation, policy: Policy): Transition {
    match current
    case SubmissionUnknown(action, first, _, _) =>
      if observation.observedAt < first then Err(InvalidObservation)
      else if observation.NotFound? then ConfirmNotFound(current, observation.observedAt, policy)
      else PositiveState(action, observation)
    case ReconciledNotFound(action) =>
      if observation.NotFound? then Ok(current) else PositiveState(action, observation)
    case ReconciledOpen(_, _) => ReconcileKnownPositive(current, observation)
    case ReconciledPartiallyFilled(_, _, _) => ReconcileKnownPositive(current, observation)
    case ReconciledFilled(_, _, _) => ReconcileKnownPositive(current, observation)
    case ReconciledCancelled(_, _) => ReconcileKnownPositive(current, observation)
    case ReconciledRejected(_, reason) =>
      if observation.NotFound? || (observation.Rejected? && observation.reason == reason) then Ok(current)
      else Err(ReconciliationConflict)
    case _ => Err(InvalidTransition)
  }

  /** One more observation that the exchange does not know the order. The
      confirmation count is compared after a cast to 32 bits. */
  function ConfirmNotFound(current: State, at: Timestamp, policy: Policy): Transition
    requires current.SubmissionUnknown? && current.firstUnknownAt <= at
  {
    var seen := current.confirmations;
    if at - current.firstUnknownAt > policy.maximumLifetime then Err(UnknownLifetimeExceeded)
    else if seen != [] && seen[|seen| - 1] == at then Ok(current)
    else if current.attempts >= policy.maximumAttempts then Err(ReconciliationAttemptLimit)
    else if seen != [] && SaturatingGap(at, seen[|seen| - 1]) < policy.minimumInterval then Err(InvalidObservation)
    else if (|seen| + 1) % U32_SIZE >= policy.requiredConfirmations then Ok(ReconciledNotFound(current.action))
    else Ok(current.(attempts := current.attempts + 1, confirmations := seen + [at]))
  }

  function SaturatingGap(later: Timestamp, earlier: Timestamp): nat {
    if later < earlier then 0 else later - earlier
  }

  function PositiveState(action: PlannedAction, observation: Observation): Transition {
    match observation
    case Open(ref, original, remaining, _) =>
      if original <= 0.0 || remaining < 0.0 || remaining > original then Err(InvalidObservation)
      else if original - remaining == 0.0 then Ok(ReconciledOpen(action, ref))
      else Ok(ReconciledPartiallyFilled(action, ref, original - remaining))
    case Filled(ref, filled, _) =>
      if filled <= 0.0 then Err(InvalidObservation) else Ok(ReconciledFilled(action, ref, filled))
    case Cancelled(ref, filled, _) =>
      if filled < 0.0 then Err(InvalidObservation) else Ok(ReconciledCancelled(action, Some(ref)))
    case Rejected(reason, _) => Ok(ReconciledRejected(action, reason))
    case NotFound(_) => Err(InvalidObservation)
  }

  function ReconcileKnownPositive(current: State, observation: Observation): Transition
    requires current.Action().Some?
  {
    if observation.NotFound? then Ok(current)
    else if observation.Rejected? then Err(ReconciliationConflict)
    else if current.KnownRef().Some? && current.KnownRef().value != observation.orderRef
    then Err(ReconciliationConflict)
    else
      var candidate := PositiveState(current.action, observation);
      if candidate.Err? then candidate
      else if candidate.value == current then Ok(current)
      else match current
        case ReconciledOpen(_, _) => candidate
        case ReconciledPartiallyFilled(_, _, filled) =>
          if candidate.value.KnownFill().Some? && candidate.value.filled >= filled then candidate
          else if candidate.value.ReconciledCancelled? then candidate
          else Err(ReconciliationConflict)
        case ReconciledFilled(_, _, _) => Err(ReconciliationConflict)
        case ReconciledCancelled(_, _) => Err(ReconciliationConflict)
        case _ => Err(InvalidTransition)
  }

  // ------------------------------------------------------------------- runs

  /** The state after a run of events; an event that fails changes nothing. */
  function Run(start: State, events: seq<Event>, policy: Policy): State {
    if events == [] then start
    else
      var before := Run(start, events[..|events| - 1], policy);
      var r := ApplyEvent(before, events[|events| - 1], policy);
      if r.Ok? then r.value else before
  }

  /** What a run can never undo. */
  ghost predicate Advances(earlier: State, later: State) {
    && (earlier.Action().Some? ==> later.Action() == earlier.Action())
    && (earlier.KnownRef().Some? ==> later.KnownRef() == earlier.KnownRef())
    && (earlier.KnownFill().Some? ==>
          later.ReconciledCancelled? ||
          (later.KnownFill().Some? && later.KnownFill().value >= earlier.KnownFill().value))
    && (earlier.ReconciledFilled? || earlier.ReconciledCancelled? || earlier.ReconciledRejected? ==> later == earlier)
  }

  lemma StepAdvances(s: State, event: Event, policy: Policy)
    ensures ApplyEvent(s, event, policy).Ok? ==> Advances(s, ApplyEvent(s, event, policy).value)
  {
  }

  /** Along any run, from any state: the action and a known order reference
      never change, a known fill never falls, and filled, cancelled and rejected
      orders stay as they are. */
  lemma {:induction false} RunAdvances(start: State, events: seq<Event>, policy: Policy)
    ensures Advances(start, Run(start, events, policy))
    decreases |events|
  {
    if events != [] {
      RunAdvances(start, events[..|events| - 1], policy);
      StepAdvances(Run(start, events[..|events| - 1], policy), events[|events| - 1], policy);
    }
  }

  // ---------------------------------------------------------- not-found runs

  predicate BeforeSubmission(s: State) {
    s.DecisionConstructed? || s.RiskValidated? || s.ActionPlanned? || s.AwaitingFutureSubmission?
  }

  /** Confirmations far enough apart, all within the lifetime of the unknown. */
  ghost predicate Spaced(times: seq<Timestamp>, first: Timestamp, policy: Policy) {
    && (forall i :: 0 <= i < |times| ==> first <= times[i] <= first + policy.maximumLifetime)
    && (forall i, j :: 0 <= i < j < |times| ==> times[i] + policy.minimumInterval <= times[j])
  }

  /** `times` are the times of some not-found observations of the run, in order. */
  ghost predicate SeenInOrder(times: seq<Timestamp>, events: seq<Event>)
    decreases |events|
  {
    times == [] ||
    (events != [] &&
     var earlier := events[..|events| - 1];
     || SeenInOrder(times, earlier)
     || (events[|events| - 1] == Observed(NotFound(times[|times| - 1])) && SeenInOrder(times[..|times| - 1], earlier)))
  }

  /** The confirmations a not-found conclusion rests on. */
  ghost predicate Confirmed(times: seq<Timestamp>, first: Timestamp, events: seq<Event>, policy: Policy) {
    && |times| == policy.requiredConfirmations
    && Spaced(times, first, policy)
    && SeenInOrder(times, events)
    && SubmissionBecameUnknown(first) in events
  }

  /** What is known of an order that was followed from before its submission. */
  ghost predicate Followed(s: State, events: seq<Event>, policy: Policy) {
    && (s.SubmissionUnknown? ==>
          && s.attempts == |s.confirmations| < policy.requiredConfirmations
          && Spaced(s.confirmations, s.firstUnknownAt, policy)
          && SeenInOrder(s.confirmations, events)
          && SubmissionBecameUnknown(s.firstUnknownAt) in events)
    && (s.ReconciledNotFound? ==> exists times, first :: Confirmed(times, first, events, policy))
  }

  lemma SeenLonger(times: seq<Timestamp>, earlier: seq<Event>, event: Event)
    requires SeenInOrder(times, earlier)
    ensures SeenInOrder(times, earlier + [event])
  {
  }

  lemma SeenGrows(times: seq<Timestamp>, earlier: seq<Event>, at: Timestamp)
    requires SeenInOrder(times, earlier)
    ensures SeenInOrder(times + [at], earlier + [Observed(NotFound(at))])
  {
  }

  lemma FollowedLonger(s: State, earlier: seq<Event>, event: Event, policy: Policy)
    requires Followed(s, earlier, policy)
    ensures Followed(s, earlier + [event], policy)
  {
    hide Spaced, SeenInOrder;
    if s.SubmissionUnknown? {
      SeenLonger(s.confirmations, earlier, event);
    }
    if s.ReconciledNotFound? {
      var times, first :| Confirmed(times, first, earlier, policy);
      SeenLonger(times, earlier, event);
      assert Confirmed(times, first, earlier + [event], policy);
    }
  }

  lemma ConfirmationCounts(s: State, at: Timestamp, policy: Policy)
    requires policy.Valid() && s.SubmissionUnknown? && s.firstUnknownAt <= at
    requires s.attempts == |s.confirmations| < policy.requiredConfirmations
    requires ConfirmNotFound(s, at, policy).Ok? && ConfirmNotFound(s, at, policy).value != s
    ensures var times := s.confirmations + [at];
            ConfirmNotFound(s, at, policy).value ==
              if |times| == policy.requiredConfirmations then ReconciledNotFound(s.action)
              else SubmissionUnknown(s.action, s.firstUnknownAt, |times|, times)
    ensures var seen := s.confirmations;
            && at <= s.firstUnknownAt + policy.maximumLifetime
            && (seen != [] ==> seen[|seen| - 1] + policy.minimumInterval <= at)
  {
    assert (|s.confirmations| + 1) % U32_SIZE == |s.confirmations| + 1;
  }

  lemma FollowedConfirmation(s: State, earlier: seq<Event>, at: Timestamp, policy: Policy)
    requires policy.Valid() && Followed(s, earlier, policy) && s.SubmissionUnknown? && s.firstUnknownAt <= at
    requires ConfirmNotFound(s, at, policy).Ok? && ConfirmNotFound(s, at, policy).value != s
    ensures Followed(ConfirmNotFound(s, at, policy).value, earlier + [Observed(NotFound(at))], policy)
  {
    hide SeenInOrder, Spaced, ConfirmNotFound;
    ConfirmationCounts(s, at, policy);
    var events := earlier + [Observed(NotFound(at))];
    var times := s.confirmations + [at];
    SeenGrows(s.confirmations, earlier, at);
    SpacedGrows(s.confirmations, at, s.firstUnknownAt, policy);
    assert SubmissionBecameUnknown(s.firstUnknownAt) in events;
    if ConfirmNotFound(s, at, policy).value.ReconciledNotFound? {
      assert Confirmed(times, s.firstUnknownAt, events, policy);
    }
  }

  lemma SpacedGrows(seen: seq<Timestamp>, at: Timestamp, first: Timestamp, policy: Policy)
    requires policy.Valid() && Spaced(seen, first, policy) && first <= at <= first + policy.maximumLifetime
    requires seen == [] || seen[|seen| - 1] + policy.minimumInterval <= at
    ensures Spaced(seen + [at], first, policy)
  {
  }

  /** The only steps that enter, or change, the states this is about. */
  lemma WaysIn(s: State, event: Event, policy: Policy)
    requires ApplyEvent(s, event, policy).Ok? && ApplyEvent(s, event, policy).value != s
    ensures var t := ApplyEvent(s, event, policy).value;
            t.SubmissionUnknown? || t.ReconciledNotFound? ==>
              || (s.AwaitingFutureSubmission? && event.SubmissionBecameUnknown? &&
                  t == SubmissionUnknown(s.action, event.observedAt, 0, []))
              || (s.SubmissionUnknown? && event.Observed? && event.observation.NotFound? &&
                  s.firstUnknownAt <= event.observation.observedAt &&
                  ConfirmNotFound(s, event.observation.observedAt, policy) == Ok(t))
  {
  }

  lemma FollowedStep(s: State, earlier: seq<Event>, event: Event, policy: Policy)
    requires policy.Valid() && Followed(s, earlier, policy)
    ensures var r := ApplyEvent(s, event, policy);
            Followed(if r.Ok? then r.value else s, earlier + [event], policy)
  {
    var r := ApplyEvent(s, event, policy);
    if r.Err? || r.value == s {
      FollowedLonger(s, earlier, event, policy);
    } else {
      WaysIn(s, event, policy);
      hide ApplyEvent, ConfirmNotFound;
      if s.SubmissionUnknown? && (r.value.SubmissionUnknown? || r.value.ReconciledNotFound?) {
        FollowedConfirmation(s, earlier, event.observation.observedAt, policy);
      } else {
        assert event in earlier + [event];
      }
    }
  }

  lemma LimitIsNotMet(s: State, event: Event, policy: Policy)
    requires policy.Valid() && (s.SubmissionUnknown? ==> s.attempts < policy.requiredConfirmations)
    ensures ApplyEvent(s, event, policy) != Err(ReconciliationAttemptLimit)
  {
  }

  lemma {:induction false} RunIsFollowed(start: State, events: seq<Event>, policy: Policy)
    requires policy.Valid() && BeforeSubmission(start)
    ensures Followed(Run(start, events, policy), events, policy)
    decreases |events|
  {
    if events != [] {
      var earlier := events[..|events| - 1];
      RunIsFollowed(start, earlier, policy);
      FollowedStep(Run(start, earlier, policy), earlier, events[|events| - 1], policy);
      assert events == earlier + [events[|events| - 1]];
    }
  }

  /** An order is concluded not found only on the required number of not-found
      observations, in order, spaced by the minimum interval and inside the
      lifetime of an unknown submission that the run reported. */
  lemma NotFoundIsConfirmed(start: State, events: seq<Event>, policy: Policy)
    requires policy.Valid() && BeforeSubmission(start)
    requires Run(start, events, policy).ReconciledNotFound?
    ensures exists times, first :: Confirmed(times, first, events, policy)
  {
    RunIsFollowed(start, events, policy);
  }

  /** No run ever meets the attempt limit. */
  lemma AttemptLimitIsUnreachable(start: State, events: seq<Event>, event: Event, policy: Policy)
    requires BeforeSubmission(start)
    ensures ApplyEvent(Run(start, events, policy), event, policy) != Err(ReconciliationAttemptLimit)
  {
    if policy.Valid() {
      RunIsFollowed(start, events, policy);
      LimitIsNotMet(Run(start, events, policy), event, policy);
    }
  }

  function NotFoundAt(times: seq<Timestamp>): (events: seq<Event>)
    ensures |events| == |times|
  {
    seq(|times|, i requires 0 <= i < |times| => Observed(NotFound(times[i])))
  }

  lemma ConfirmationStep(action: PlannedAction, first: Timestamp, seen: seq<Timestamp>, at: Timestamp, policy: Policy)
    requires policy.Valid() && Spaced(seen + [at], first, policy) && |seen| < policy.requiredConfirmations
    ensures ApplyEvent(SubmissionUnknown(action, first, |seen|, seen), Observed(NotFound(at)), policy) ==
            Ok(if |seen| + 1 == policy.requiredConfirmations then ReconciledNotFound(action)
               else SubmissionUnknown(action, first, |seen| + 1, seen + [at]))
  {
    var times := seen + [at];
    assert times[|seen|] == at;
    if seen != [] { assert times[|seen| - 1] + policy.minimumInterval <= times[|seen|]; }
    assert (|seen| + 1) % U32_SIZE == |seen| + 1;
  }

  /** Conversely, that many such observations are enough: the order is concluded
      not found at the last of them and not before. */
  lemma {:induction false} ConfirmationsConclude(
    action: PlannedAction, first: Timestamp, times: seq<Timestamp>, policy: Policy)
    requires policy.Valid() && Spaced(times, first, policy) && |times| <= policy.requiredConfirmations
    ensures Run(SubmissionUnknown(action, first, 0, []), NotFoundAt(times), policy) ==
            if |times| == policy.requiredConfirmations then ReconciledNotFound(action)
            else SubmissionUnknown(action, first, |times|, times)
    decreases |times|
  {
    if times != [] {
      var earlier, at := times[..|times| - 1], times[|times| - 1];
      hide ApplyEvent, Spaced;
      assert earlier + [at] == times;
      SpacedEarlier(times, first, policy);
      ConfirmationsConclude(action, first, earlier, policy);
      ConfirmationStep(action, first, earlier, at, policy);
      assert NotFoundAt(times)[..|times| - 1] == NotFoundAt(earlier);
    }
  }

  lemma SpacedEarlier(times: seq<Timestamp>, first: Timestamp, policy: Policy)
    requires Spaced(times, first, policy) && times != []
    ensures Spaced(times[..|times| - 1], first, policy)
  {
  }
}
