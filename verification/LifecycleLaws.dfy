/** What the events of one order lead to: when each is accepted, and the state it
    leaves the order in. */
module LifecycleLaws {
  import opened Common
  import opened Lifecycle

  /** A report the exchange can make of an order it knows. */
  predicate Plausible(o: Observation) {
    match o
    case Open(_, original, remaining, _) => 0.0 <= remaining <= original && original > 0.0
    case Filled(_, filled, _) => filled > 0.0
    case Cancelled(_, filled, _) => filled >= 0.0
    case _ => true
  }

  /** The state says what was reported: open orders are filled by what is no longer
      remaining, filled ones by what was reported. */
  predicate Agrees(s: State, o: Observation) {
    match o
    case Open(ref, original, remaining, _) =>
      && s.KnownRef() == Some(ref)
      && (if remaining == original then s.ReconciledOpen?
          else s.ReconciledPartiallyFilled? && s.filled + remaining == original)
    case Filled(ref, filled, _) => s.ReconciledFilled? && s.orderRef == ref && s.filled == filled
    case Cancelled(ref, _, _) => s.ReconciledCancelled? && s.knownRef == Some(ref)
    case Rejected(reason, _) => s.ReconciledRejected? && s.reason == reason
    case NotFound(_) => true
  }

  /** The exchange has said something of the order. */
  predicate Known(s: State) {
    s.ReconciledOpen? || s.ReconciledPartiallyFilled? || s.ReconciledFilled? || s.ReconciledCancelled?
  }

  predicate SameRef(s: State, o: Observation) {
    (o.Open? || o.Filled? || o.Cancelled?) && (s.KnownRef().Some? ==> s.KnownRef() == Some(o.orderRef))
  }

  /** A further report of a known order goes on from what was known. */
  predicate GoesOn(s: State, o: Observation) {
    && SameRef(s, o)
    && match s
       case ReconciledOpen(_, _) => true
       case ReconciledPartiallyFilled(_, _, filled) =>
         || o.Cancelled?
         || (o.Filled? && o.filledQuantity >= filled)
         || (o.Open? && o.remainingQuantity != o.originalQuantity
             && o.originalQuantity - o.remainingQuantity >= filled)
       case ReconciledFilled(_, _, filled) => o.Filled? && o.filledQuantity == filled
       case ReconciledCancelled(_, ref) => o.Cancelled? && ref.Some?
       case _ => false
  }

  /** When a report other than not-found is accepted: of an unknown submission from
      the time it became unknown, of an order not found at any time, and of a known
      order when it goes on from what was known. */
  lemma ReportIsAcceptedWhen(s: State, o: Observation, policy: Policy)
    requires policy.Valid() && !o.NotFound?
    ensures ApplyEvent(s, Observed(o), policy).Ok? <==>
              || (s.SubmissionUnknown? && o.observedAt >= s.firstUnknownAt && Plausible(o))
              || (s.ReconciledNotFound? && Plausible(o))
              || (Known(s) && Plausible(o) && GoesOn(s, o))
              || (s.ReconciledRejected? && o.Rejected? && o.reason == s.reason)
    ensures ApplyEvent(s, Observed(o), policy) == Err(InvalidTransition) <==> BeforeSubmission(s)
    ensures ApplyEvent(s, Observed(o), policy) == Err(InvalidObservation) <==>
              || (s.SubmissionUnknown? && (o.observedAt < s.firstUnknownAt || !Plausible(o)))
              || (s.ReconciledNotFound? && !Plausible(o))
              || (Known(s) && SameRef(s, o) && !Plausible(o))
    ensures ApplyEvent(s, Observed(o), policy) == Err(ReconciliationConflict) <==>
              || (Known(s) && (!SameRef(s, o) || (Plausible(o) && !GoesOn(s, o))))
              || (s.ReconciledRejected? && !(o.Rejected? && o.reason == s.reason))
  {
  }

  /** An accepted report leaves the order in the state it reports, with the fill
      that it implies, and the action it had. */
  lemma OrderIsAsReported(s: State, o: Observation, policy: Policy)
    requires !o.NotFound? && ApplyEvent(s, Observed(o), policy).Ok?
    ensures var after := ApplyEvent(s, Observed(o), policy).value;
            Agrees(after, o) && s.Action().Some? && after.Action() == s.Action()
  {
  }

  /** Not being found changes nothing once the exchange has said something of the
      order, or it was concluded that it does not know it. */
  lemma NotFoundIsIgnoredWhen(s: State, at: Timestamp, policy: Policy)
    requires policy.Valid() && !s.SubmissionUnknown?
    ensures ApplyEvent(s, Observed(NotFound(at)), policy) ==
              if BeforeSubmission(s) then Err(InvalidTransition) else Ok(s)
  {
  }

  /** Of an unknown submission that a run has followed, a not-found observation is
      refused before the unknown and after its lifetime; the last confirmation over
      again changes nothing, one too soon after it is refused; any other is one
      more confirmation, and the last one needed concludes. */
  lemma NotFoundCountsWhen(s: State, events: seq<Event>, at: Timestamp, policy: Policy)
    requires policy.Valid() && s.SubmissionUnknown? && Followed(s, events, policy)
    ensures var r := ApplyEvent(s, Observed(NotFound(at)), policy);
            var n := |s.confirmations|;
            && (r == Err(UnknownLifetimeExceeded) <==> at > s.firstUnknownAt + policy.maximumLifetime)
            && (r == Err(InvalidObservation) <==>
                  || at < s.firstUnknownAt
                  || (at <= s.firstUnknownAt + policy.maximumLifetime && n > 0 && at != s.confirmations[n - 1]
                      && at < s.confirmations[n - 1] + policy.minimumInterval))
            && (r.Ok? ==>
                  r.value ==
                    if n > 0 && at == s.confirmations[n - 1] then s
                    else if n + 1 == policy.requiredConfirmations then ReconciledNotFound(s.action)
                    else SubmissionUnknown(s.action, s.firstUnknownAt, n + 1, s.confirmations + [at]))
            && (r.Err? ==> r.error in {UnknownLifetimeExceeded, InvalidObservation})
  {
    hide Spaced, SeenInOrder;
    assert (|s.confirmations| + 1) % U32_SIZE == |s.confirmations| + 1;
  }

  /** Up to the submission: a decision is validated, its own action planned, and the
      submission awaited and then unknown; each step may come again, and no step
      comes out of its order. */
  lemma StepsToSubmission(s: State, event: Event, policy: Policy)
    requires policy.Valid() && !event.Observed?
    ensures var r := ApplyEvent(s, event, policy);
            && (r.Ok? <==>
                  match event
                  case Validate(id) => (s.DecisionConstructed? || s.RiskValidated?) && s.decisionId == id
                  case Plan(action) =>
                    (s.RiskValidated? && s.decisionId == action.decisionId) || (s.ActionPlanned? && s.action == action)
                  case AwaitSubmission => s.ActionPlanned? || s.AwaitingFutureSubmission?
                  case SubmissionBecameUnknown(at) =>
                    s.AwaitingFutureSubmission? || (s.SubmissionUnknown? && s.firstUnknownAt == at))
            && (r.Ok? ==>
                  match event
                  case Validate(id) => r.value == RiskValidated(id)
                  case Plan(action) => r.value == ActionPlanned(action)
                  case AwaitSubmission => r.value == AwaitingFutureSubmission(s.action)
                  case SubmissionBecameUnknown(at) =>
                    r.value == if s.SubmissionUnknown? then s else SubmissionUnknown(s.action, at, 0, []))
            && (r.Err? ==> r.error == InvalidTransition)
  {
  }

  function DecisionOf(s: State): nat {
    if s.Action().Some? then s.Action().value.decisionId else s.decisionId
  }

  /** Along any run the order stays that of the decision it was constructed for. */
  lemma {:induction false} RunKeepsTheDecision(start: State, events: seq<Event>, policy: Policy)
    ensures DecisionOf(Run(start, events, policy)) == DecisionOf(start)
    decreases |events|
  {
    if events != [] {
      RunKeepsTheDecision(start, events[..|events| - 1], policy);
      var s := Run(start, events[..|events| - 1], policy);
      StepAdvances(s, events[|events| - 1], policy);
    }
  }

  /** The last report accepted of a run, whatever came after it and was refused, is
      what the order's state says. */
  lemma {:induction false} RunEndsAsReported(start: State, events: seq<Event>, i: nat, policy: Policy)
    requires policy.Valid() && i < |events| && events[i].Observed? && !events[i].observation.NotFound?
    requires ApplyEvent(Run(start, events[..i], policy), events[i], policy).Ok?
    requires forall j :: i < j < |events| && events[j].Observed? && !events[j].observation.NotFound? ==>
               ApplyEvent(Run(start, events[..j], policy), events[j], policy).Err?
    ensures Agrees(Run(start, events, policy), events[i].observation)
    ensures Known(Run(start, events, policy)) || Run(start, events, policy).ReconciledRejected?
    decreases |events|
  {
    hide ApplyEvent;
    var n := |events| - 1;
    if i == n {
      OrderIsAsReported(Run(start, events[..n], policy), events[n].observation, policy);
    } else {
      var earlier := events[..n];
      assert earlier[..i] == events[..i] && earlier[i] == events[i];
      forall j | i < j < |earlier| && earlier[j].Observed? && !earlier[j].observation.NotFound?
        ensures ApplyEvent(Run(start, earlier[..j], policy), earlier[j], policy).Err?
      {
        assert earlier[..j] == events[..j] && earlier[j] == events[j];
      }
      RunEndsAsReported(start, earlier, i, policy);
      var s := Run(start, earlier, policy);
      if events[n].Observed? {
        if events[n].observation.NotFound? { NotFoundIsIgnoredWhen(s, events[n].observation.observedAt, policy); }
      } else {
        StepsToSubmission(s, events[n], policy);
      }
    }
  }
}
