/** `crates/copytrade-observer/src/production_state.rs`: signer events, delivered in
    any order and any number of times, applied in sequence through a reorder
    buffer. */
module ProductionState {
  import opened Common
  import Ledger
  import opened LiveTrading

  const U64_MAX := 0xFFFF_FFFF_FFFF_FFFF

  type u64 = x: int | 0 <= x <= U64_MAX

  const MAXIMUM_REORDER_WINDOW := 256

  datatype IntentState =
    | Planned | Persisted | Sent | AcceptedBySigner | SubmissionIsUnknown | AcknowledgedByExchange
    | PartiallyFilled | Filled | Cancelled | Rejected | Superseded | IntentReconciled | IntentAuthorizedNotSubmitted

  datatype Payload =
    | IntentAccepted(cloid: Text, durableSequence: u64)
    | SubmissionStarted(cloid: Text)
    | SubmissionUnknown(cloid: Text)
    | OrderAcknowledged(cloid: Text, orderId: Text)
    | OrderRejected(cloid: Text, reason: Text)
    | OrderCancelled(cloid: Text, filledQuantity: real)
    | OrderPartiallyFilled(cloid: Text, orderId: Text, filledQuantity: real)
    | FillReport(fill: Fill)
    | FundingReport(funding: Funding)
    | PositionSnapshot(positions: map<Text, real>, observedAt: u64)
    | EquitySnapshot(equity: real, observedAt: u64)
    | Reconciled(cloid: Text)
    | AuthorizedNotSubmitted(cloid: Text)

  datatype SignerEvent = SignerEvent(signer: Text, sequence: u64, eventHash: Text, payload: Payload)

  datatype ApplyError =
    | EventHashMismatch
    | SequenceIdentityConflict
    | SequenceRegression
    | ReorderWindowExhausted
    | UnknownIntent
    | LedgerRefused(error: Ledger.LedgerError)

  datatype Application =
    | Applied(highest: u64)
    | AlreadyApplied(highest: u64)
    | Buffered(missing: u64)

  /** Everything but the reorder buffer. */
  datatype Core = Core(
    live: Live, intents: map<Text, IntentState>, highest: u64, appliedHashes: map<u64, Text>, blockedAssets: set<Text>,
    assetsRequiringReplan: set<Text>, positionMismatches: map<Text, (real, real)>, equityMismatch: Option<(real, real)>)

  datatype State = State(core: Core, buffer: map<u64, SignerEvent>)

  /** `canonical_payload_hash`: the encoding may fail, and nothing else is assumed
      of it. */
  type Hasher = Payload -> Option<Text>

  function NewCore(live: Live): Core {
    Core(live, map[], 0, map[], {}, {}, map[], None)
  }

  // ---------------------------------------------------------- one event's effect

  function WithIntent(c: Core, cloid: Text, intent: IntentState): Result<Core, ApplyError> {
    if cloid !in c.intents then Err(UnknownIntent) else Ok(c.(intents := c.intents[cloid := intent]))
  }

  function AfterFill(c: Core, f: Fill): Result<Core, ApplyError> {
    var r := FillOutcome(c.live, f);
    if r.Err? then Err(LedgerRefused(r.error))
    else if r.value.result.FillAlreadyApplied? then Ok(c)
    else
      var known := WithIntent(c.(live := r.value.state), f.identity.cloid, PartiallyFilled);
      if known.Err? then known
      else Ok(known.value.(assetsRequiringReplan := c.assetsRequiringReplan + {f.asset}))
  }

  function AfterFunding(c: Core, e: Funding): Result<Core, ApplyError> {
    var r := FundingOutcome(c.live, e);
    if r.Err? then Err(LedgerRefused(r.error))
    else if r.value.result.FundingAlreadyApplied? then Ok(c)
    else Ok(c.(live := r.value.state, assetsRequiringReplan := c.assetsRequiringReplan + {e.asset}))
  }

  function Mismatches(local: map<Text, real>, exchange: map<Text, real>): map<Text, (real, real)> {
    map a | a in local.Keys + exchange.Keys && Ledger.Position(local, a) != Ledger.Position(exchange, a) ::
      (Ledger.Position(local, a), Ledger.Position(exchange, a))
  }

  function AfterPositions(c: Core, exchange: map<Text, real>): Core {
    var mismatches := Mismatches(c.live.book.positions, exchange);
    c.(positionMismatches := mismatches, blockedAssets := mismatches.Keys)
  }

  function AfterEquity(c: Core, equity: real): Result<Core, ApplyError> {
    var local := c.live.currentEquity;
    if local != equity then Ok(c.(equityMismatch := Some((local, equity))))
    else
      var r := EquityOutcome(c.live, equity);
      if r.Err? then Err(LedgerRefused(r.error)) else Ok(c.(equityMismatch := None, live := r.value))
  }

  function Effect(c: Core, p: Payload): Result<Core, ApplyError> {
    match p
    case IntentAccepted(cloid, _) => Ok(c.(intents := c.intents[cloid := AcceptedBySigner]))
    case SubmissionStarted(cloid) => WithIntent(c, cloid, Sent)
    case SubmissionUnknown(cloid) => WithIntent(c, cloid, SubmissionIsUnknown)
    case OrderAcknowledged(cloid, _) => WithIntent(c, cloid, AcknowledgedByExchange)
    case OrderRejected(cloid, _) => WithIntent(c, cloid, Rejected)
    case OrderCancelled(cloid, _) => WithIntent(c, cloid, Cancelled)
    case OrderPartiallyFilled(cloid, _, _) => WithIntent(c, cloid, PartiallyFilled)
    case FillReport(f) => AfterFill(c, f)
    case FundingReport(e) => AfterFunding(c, e)
    case PositionSnapshot(positions, _) => Ok(AfterPositions(c, positions))
    case EquitySnapshot(equity, _) => AfterEquity(c, equity)
    case Reconciled(cloid) => WithIntent(c, cloid, IntentReconciled)
    case AuthorizedNotSubmitted(cloid) => WithIntent(c, cloid, IntentAuthorizedNotSubmitted)
  }

  function Contiguous(c: Core, e: SignerEvent): Result<Core, ApplyError> {
    var r := Effect(c, e.payload);
    if r.Err? then r
    else Ok(r.value.(appliedHashes := r.value.appliedHashes[e.sequence := e.eventHash], highest := e.sequence))
  }

  // --------------------------------------------------------------- one delivery

  /** A delivery's answer, and the state it leaves behind even when it fails. */
  datatype Step = Step(state: State, result: Result<Application, ApplyError>)

  function Drain(s: State): Step
    decreases |s.buffer|
  {
    if s.core.highest == U64_MAX then Step(s, Err(SequenceRegression))
    else
      var next: u64 := s.core.highest + 1;
      if next !in s.buffer then Step(s, Ok(Applied(s.core.highest)))
      else
        var rest := s.buffer - {next};
        var r := Contiguous(s.core, s.buffer[next]);
        if r.Err? then Step(State(s.core, rest), Err(r.error))
        else
          assert rest.Keys == s.buffer.Keys - {next};
          Drain(State(r.value, rest))
  }

  lemma DrainStops(s: State)
    ensures s.core.highest == U64_MAX ==> Drain(s) == Step(s, Err(SequenceRegression))
    ensures s.core.highest < U64_MAX && s.core.highest + 1 !in s.buffer ==>
              Drain(s) == Step(s, Ok(Applied(s.core.highest)))
  {
  }

  lemma DrainGoesOn(s: State, next: u64)
    requires next == s.core.highest + 1 && next in s.buffer
    ensures var rest, r := s.buffer - {next}, Contiguous(s.core, s.buffer[next]);
            Drain(s) == if r.Ok? then Drain(State(r.value, rest)) else Step(State(s.core, rest), Err(r.error))
  {
    hide Contiguous;
  }

  function Hold(s: State, e: SignerEvent, missing: u64): Step {
    if |s.buffer| >= MAXIMUM_REORDER_WINDOW then Step(s, Err(ReorderWindowExhausted))
    else if e.sequence in s.buffer then
      Step(s, if s.buffer[e.sequence].eventHash != e.eventHash then Err(SequenceIdentityConflict)
          else Ok(Buffered(missing)))
    else Step(s.(buffer := s.buffer[e.sequence := e]), Ok(Buffered(missing)))
  }

  function Deliver(hash: Hasher, s: State, e: SignerEvent): Step {
    if hash(e.payload) != Some(e.eventHash) then Step(s, Err(EventHashMismatch))
    else if e.sequence in s.core.appliedHashes then
      Step(s, if s.core.appliedHashes[e.sequence] == e.eventHash then Ok(AlreadyApplied(s.core.highest))
              else Err(SequenceIdentityConflict))
    else if e.sequence <= s.core.highest then Step(s, Err(SequenceRegression))
    else if e.sequence != s.core.highest + 1 then Hold(s, e, s.core.highest + 1)
    else
      var r := Contiguous(s.core, e);
      if r.Err? then Step(s, Err(r.error)) else Drain(State(r.value, s.buffer))
  }

  function Run(hash: Hasher, live: Live, deliveries: seq<SignerEvent>): State {
    if deliveries == [] then State(NewCore(live), map[])
    else
      var n := |deliveries| - 1;
      Deliver(hash, Run(hash, live, deliveries[..n]), deliveries[n]).state
  }

  // ----------------------------------------------------------- every reachable state

  /** The applied sequences are exactly the first ones, and the trading state
      accounts for its money. */
  ghost predicate Contiguously(c: Core) {
    && (forall k: u64 :: k in c.appliedHashes <==> 1 <= k <= c.highest)
    && Consistent(c.live) && Accounts(c.live)
  }

  ghost predicate BuffersAbove(s: State, bound: int) {
    && (forall k :: k in s.buffer ==> k > bound && s.buffer[k].sequence == k)
    && |s.buffer| <= MAXIMUM_REORDER_WINDOW
  }

  ghost predicate WellFormed(s: State) {
    Contiguously(s.core) && BuffersAbove(s, s.core.highest + 1)
  }

  predicate IsLargest(k: u64, keys: set<u64>) {
    k in keys && forall j :: j in keys ==> j <= k
  }

  /** What `load` accepts. */
  ghost predicate Loadable(s: State) {
    && |s.buffer| <= MAXIMUM_REORDER_WINDOW
    && forall k: u64 :: IsLargest(k, s.core.appliedHashes.Keys) ==> k == s.core.highest
  }

  lemma WellFormedIsLoadable(s: State)
    requires WellFormed(s)
    ensures Loadable(s)
  {
    hide Consistent, Accounts;
    forall k: u64 | IsLargest(k, s.core.appliedHashes.Keys) ensures k == s.core.highest {
      assert s.core.highest >= 1 ==> s.core.highest in s.core.appliedHashes;
    }
  }

  lemma EffectKeepsAccounts(c: Core, p: Payload)
    requires Consistent(c.live) && Accounts(c.live) && Effect(c, p).Ok?
    ensures var after := Effect(c, p).value;
            && Consistent(after.live) && Accounts(after.live)
            && after.highest == c.highest && after.appliedHashes == c.appliedHashes
  {
    hide Consistent, Accounts, FillOutcome, FundingOutcome, EquityOutcome, Mismatches;
    match p
    case FillReport(f) => FillKeepsAccounts(c.live, f);
    case FundingReport(e) => FundingKeepsAccounts(c.live, e);
    case EquitySnapshot(equity, _) =>
      if c.live.currentEquity == equity { EquityKeepsAccounts(c.live, equity); }
    case _ =>
  }

  lemma ContiguousAdvances(c: Core, e: SignerEvent)
    requires Contiguously(c) && e.sequence == c.highest + 1 && Contiguous(c, e).Ok?
    ensures Contiguously(Contiguous(c, e).value) && Contiguous(c, e).value.highest == e.sequence
  {
    hide Consistent, Accounts, Effect;
    EffectKeepsAccounts(c, e.payload);
  }

  lemma OneBufferedLess(s: State, next: u64)
    requires BuffersAbove(s, s.core.highest) && next in s.buffer && next == s.core.highest + 1
    ensures |s.buffer - {next}| == |s.buffer| - 1
    ensures forall k :: k in s.buffer - {next} ==> k > next && s.buffer[k].sequence == k
  {
  }

  lemma {:induction false} DrainKeepsWellFormed(s: State)
    requires Contiguously(s.core) && BuffersAbove(s, s.core.highest)
    ensures WellFormed(Drain(s).state)
    ensures Drain(s).state.core.highest >= s.core.highest
    decreases |s.buffer|
  {
    hide Contiguously, Contiguous, Drain;
    DrainStops(s);
    if s.core.highest < U64_MAX {
      var next: u64 := s.core.highest + 1;
      if next in s.buffer {
        DrainGoesOn(s, next);
        OneBufferedLess(s, next);
        var r := Contiguous(s.core, s.buffer[next]);
        if r.Ok? {
          ContiguousAdvances(s.core, s.buffer[next]);
          DrainKeepsWellFormed(State(r.value, s.buffer - {next}));
        }
      }
    }
  }

  lemma DeliverKeepsWellFormed(hash: Hasher, s: State, e: SignerEvent)
    requires WellFormed(s)
    ensures WellFormed(Deliver(hash, s, e).state)
    ensures Deliver(hash, s, e).state.core.highest >= s.core.highest
  {
    hide Contiguously, Contiguous, Drain;
    if e.sequence == s.core.highest + 1 && Contiguous(s.core, e).Ok? {
      ContiguousAdvances(s.core, e);
      DrainKeepsWellFormed(State(Contiguous(s.core, e).value, s.buffer));
    }
  }

  /** Over every run of deliveries, failures in mid-drain among them: the applied
      sequences are exactly 1 to the highest, what is buffered lies beyond the
      first missing one and under its own sequence, at most 256 events are
      buffered, the trading state satisfies the money identity, and `load` would
      accept the state. */
  lemma {:induction false} EveryRunIsWellFormed(hash: Hasher, live: Live, deliveries: seq<SignerEvent>)
    requires Consistent(live) && Accounts(live)
    ensures WellFormed(Run(hash, live, deliveries)) && Loadable(Run(hash, live, deliveries))
  {
    hide WellFormed, Deliver, Loadable, Consistent, Accounts;
    if deliveries == [] {
      NewIsWellFormed(live);
    } else {
      var n := |deliveries| - 1;
      EveryRunIsWellFormed(hash, live, deliveries[..n]);
      DeliverKeepsWellFormed(hash, Run(hash, live, deliveries[..n]), deliveries[n]);
    }
    WellFormedIsLoadable(Run(hash, live, deliveries));
  }

  lemma NewIsWellFormed(live: Live)
    requires Consistent(live) && Accounts(live)
    ensures WellFormed(State(NewCore(live), map[]))
  {
  }

  /** A failed delivery that applied nothing changed nothing. */
  lemma FailureChangesNothing(hash: Hasher, s: State, e: SignerEvent)
    requires WellFormed(s) && Deliver(hash, s, e).result.Err?
    requires Deliver(hash, s, e).state.core.highest == s.core.highest
    ensures Deliver(hash, s, e).state == s
  {
    hide Contiguously, Contiguous, Drain;
    if e.sequence == s.core.highest + 1 && Contiguous(s.core, e).Ok? {
      ContiguousAdvances(s.core, e);
      DrainKeepsWellFormed(State(Contiguous(s.core, e).value, s.buffer));
    }
  }

  /** Draining fails at the end of the sequence numbers, or at an event that the
      state it reached refuses. */
  ghost predicate FailedAt(before: State, step: Step) {
    var highest := step.state.core.highest;
    if highest == U64_MAX then step.result == Err(SequenceRegression)
    else
      var next: u64 := highest + 1;
      && next in before.buffer && next !in step.state.buffer
      && Contiguous(step.state.core, before.buffer[next]).Err?
      && step.result == Err(Contiguous(step.state.core, before.buffer[next]).error)
  }

  lemma {:induction false} DrainFailsAt(s: State)
    requires Drain(s).result.Err?
    ensures FailedAt(s, Drain(s))
    decreases |s.buffer|
  {
    hide Contiguous, Drain;
    DrainStops(s);
    if s.core.highest < U64_MAX {
      var next: u64 := s.core.highest + 1;
      DrainGoesOn(s, next);
      assert (s.buffer - {next}).Keys == s.buffer.Keys - {next};
      var r := Contiguous(s.core, s.buffer[next]);
      if r.Ok? { DrainFailsAt(State(r.value, s.buffer - {next})); }
    }
  }

  /** A delivery that failed although it had advanced failed in mid-drain: the
      event it failed on was buffered before and is gone, so it must be delivered
      again. */
  lemma FailureInMidDrainDropsItsEvent(hash: Hasher, s: State, e: SignerEvent)
    requires Deliver(hash, s, e).result.Err?
    requires Deliver(hash, s, e).state.core.highest != s.core.highest
    ensures FailedAt(s, Deliver(hash, s, e))
  {
    hide Contiguous, Drain;
    if e.sequence == s.core.highest + 1 && Contiguous(s.core, e).Ok? {
      DrainFailsAt(State(Contiguous(s.core, e).value, s.buffer));
    }
  }

  // ------------------------------------------- delivery order does not matter

  /** The events of a stream applied one after the other. */
  function InOrder(live: Live, stream: seq<SignerEvent>, n: nat): Result<Core, ApplyError>
    requires n <= |stream|
  {
    if n == 0 then Ok(NewCore(live))
    else
      var before := InOrder(live, stream, n - 1);
      if before.Err? then before else Contiguous(before.value, stream[n - 1])
  }

  /** One fixed, valid event for each sequence number, and no failure in order. */
  ghost predicate GoodStream(hash: Hasher, live: Live, stream: seq<SignerEvent>) {
    && |stream| < U64_MAX
    && (forall i :: 0 <= i < |stream| ==>
        stream[i].sequence == i + 1 && hash(stream[i].payload) == Some(stream[i].eventHash))
    && InOrder(live, stream, |stream|).Ok?
  }

  /** The sequence numbers of the deliveries that were not refused. */
  function Accepted(hash: Hasher, live: Live, deliveries: seq<SignerEvent>): set<u64> {
    if deliveries == [] then {}
    else
      var n := |deliveries| - 1;
      var before := Run(hash, live, deliveries[..n]);
      Accepted(hash, live, deliveries[..n]) +
        if Deliver(hash, before, deliveries[n]).result.Ok? then {deliveries[n].sequence} else {}
  }

  predicate UpTo(p: u64, accepted: set<u64>) {
    forall k: u64 :: 1 <= k <= p ==> k in accepted
  }

  /** `p` is the longest unbroken run of accepted sequence numbers. */
  predicate LongestPrefix(p: u64, accepted: set<u64>) {
    UpTo(p, accepted) && forall k: u64 :: k == p + 1 ==> k !in accepted
  }

  function Beyond(stream: seq<SignerEvent>, accepted: set<u64>, p: u64): map<u64, SignerEvent> {
    map k | k in accepted && p < k <= |stream| :: stream[k - 1]
  }

  /** The state that the accepted deliveries determine, whatever their order. */
  ghost predicate Determined(live: Live, stream: seq<SignerEvent>, accepted: set<u64>, s: State) {
    && s.core.highest <= |stream|
    && LongestPrefix(s.core.highest, accepted)
    && InOrder(live, stream, s.core.highest) == Ok(s.core)
    && s.buffer == Beyond(stream, accepted, s.core.highest)
    && forall k :: k in accepted ==> 1 <= k <= |stream|
  }

  lemma {:induction false} InOrderSucceeds(live: Live, stream: seq<SignerEvent>, n: nat, m: nat)
    requires n <= m <= |stream| && InOrder(live, stream, m).Ok?
    ensures InOrder(live, stream, n).Ok?
  {
    if n < m { InOrderSucceeds(live, stream, n, m - 1); }
  }

  lemma {:induction false} InOrderApplied(hash: Hasher, live: Live, stream: seq<SignerEvent>, n: nat)
    requires GoodStream(hash, live, stream) && n <= |stream|
    ensures InOrder(live, stream, n).Ok?
    ensures var c := InOrder(live, stream, n).value;
            && c.highest == n
            && (forall k: u64 :: k in c.appliedHashes <==> 1 <= k <= n)
            && forall k: u64 :: k in c.appliedHashes ==> c.appliedHashes[k] == stream[k - 1].eventHash
  {
    hide Effect;
    InOrderSucceeds(live, stream, n, |stream|);
    if n > 0 {
      InOrderApplied(hash, live, stream, n - 1);
      EffectKeepsSequence(InOrder(live, stream, n - 1).value, stream[n - 1].payload);
    }
  }

  lemma EffectKeepsSequence(c: Core, p: Payload)
    requires Effect(c, p).Ok?
    ensures Effect(c, p).value.highest == c.highest && Effect(c, p).value.appliedHashes == c.appliedHashes
  {
  }

  lemma {:induction false} DrainFollowsTheStream(
    hash: Hasher, live: Live, stream: seq<SignerEvent>, accepted: set<u64>, s: State)
    requires GoodStream(hash, live, stream) && s.core.highest <= |stream|
    requires InOrder(live, stream, s.core.highest) == Ok(s.core) && UpTo(s.core.highest, accepted)
    requires s.buffer == Beyond(stream, accepted, s.core.highest)
    requires forall k :: k in accepted ==> 1 <= k <= |stream|
    ensures Drain(s).result.Ok? && Determined(live, stream, accepted, Drain(s).state)
    decreases |s.buffer|
  {
    hide Contiguous, Drain, GoodStream, InOrder, Beyond;
    GoodStreamIsShort(hash, live, stream);
    var next: u64 := s.core.highest + 1;
    DrainStops(s);
    NextBeyond(stream, accepted, s.core.highest);
    if next in s.buffer {
      DrainGoesOn(s, next);
      InOrderApplied(hash, live, stream, next);
      OneMoreInOrder(live, stream, s.core.highest);
      OneBeyondLess(stream, accepted, s.core.highest);
      DrainFollowsTheStream(
        hash, live, stream, accepted, State(Contiguous(s.core, s.buffer[next]).value, s.buffer - {next}));
    }
  }

  lemma GoodStreamIsShort(hash: Hasher, live: Live, stream: seq<SignerEvent>)
    requires GoodStream(hash, live, stream)
    ensures |stream| < U64_MAX
  {
  }

  lemma NextBeyond(stream: seq<SignerEvent>, accepted: set<u64>, p: u64)
    requires p < U64_MAX && forall k :: k in accepted ==> 1 <= k <= |stream|
    ensures var next: u64 := p + 1;
            (next in Beyond(stream, accepted, p) <==> next in accepted) && (next in accepted ==> next <= |stream|)
  {
  }

  lemma OneBeyondLess(stream: seq<SignerEvent>, accepted: set<u64>, p: u64)
    requires p + 1 <= |stream| && p < U64_MAX
    ensures var next: u64 := p + 1;
            next in Beyond(stream, accepted, p) ==>
              && Beyond(stream, accepted, p)[next] == stream[p]
              && Beyond(stream, accepted, p) - {next} == Beyond(stream, accepted, next)
              && |Beyond(stream, accepted, next)| < |Beyond(stream, accepted, p)|
  {
  }

  /** One delivery from the stream: refused only for want of room, and then
      without effect; otherwise the state is again the one determined. */
  lemma DeliveryFollowsTheStream(
    hash: Hasher, live: Live, stream: seq<SignerEvent>, accepted: set<u64>, s: State, e: SignerEvent)
    requires GoodStream(hash, live, stream) && Determined(live, stream, accepted, s) && e in stream
    ensures var step := Deliver(hash, s, e);
            if step.result.Ok? then Determined(live, stream, accepted + {e.sequence}, step.state)
            else step == Step(s, Err(ReorderWindowExhausted)) && |s.buffer| >= MAXIMUM_REORDER_WINDOW
  {
    hide GoodStream, Determined, Deliver;
    if e.sequence <= s.core.highest {
      LateDelivery(hash, live, stream, accepted, s, e);
      assert accepted + {e.sequence} == accepted;
    } else if e.sequence == s.core.highest + 1 {
      NextDelivery(hash, live, stream, accepted, s, e);
    } else {
      EarlyDelivery(hash, live, stream, accepted, s, e);
    }
  }

  lemma EventOfStream(hash: Hasher, live: Live, stream: seq<SignerEvent>, e: SignerEvent)
    requires GoodStream(hash, live, stream) && e in stream
    ensures |stream| < U64_MAX && 1 <= e.sequence <= |stream| && stream[e.sequence - 1] == e
    ensures hash(e.payload) == Some(e.eventHash)
  {
    hide InOrder;
  }

  lemma LateDelivery(
    hash: Hasher, live: Live, stream: seq<SignerEvent>, accepted: set<u64>, s: State, e: SignerEvent)
    requires GoodStream(hash, live, stream) && Determined(live, stream, accepted, s) && e in stream
    requires e.sequence <= s.core.highest
    ensures Deliver(hash, s, e) == Step(s, Ok(AlreadyApplied(s.core.highest))) && e.sequence in accepted
  {
    hide GoodStream, InOrder, Contiguous, Beyond;
    EventOfStream(hash, live, stream, e);
    InOrderApplied(hash, live, stream, s.core.highest);
  }

  lemma NextDelivery(
    hash: Hasher, live: Live, stream: seq<SignerEvent>, accepted: set<u64>, s: State, e: SignerEvent)
    requires GoodStream(hash, live, stream) && Determined(live, stream, accepted, s) && e in stream
    requires e.sequence == s.core.highest + 1
    ensures Deliver(hash, s, e).result.Ok?
    ensures Determined(live, stream, accepted + {e.sequence}, Deliver(hash, s, e).state)
  {
    hide GoodStream, Contiguous, Drain, Beyond, InOrder, Hold;
    EventOfStream(hash, live, stream, e);
    InOrderApplied(hash, live, stream, s.core.highest);
    InOrderApplied(hash, live, stream, e.sequence);
    OneMoreInOrder(live, stream, s.core.highest);
    BeyondTheNext(stream, accepted, s.core.highest, e.sequence);
    DrainFollowsTheStream(hash, live, stream, accepted + {e.sequence}, State(Contiguous(s.core, e).value, s.buffer));
  }

  lemma OneMoreInOrder(live: Live, stream: seq<SignerEvent>, n: nat)
    requires n < |stream| && InOrder(live, stream, n).Ok?
    ensures InOrder(live, stream, n + 1) == Contiguous(InOrder(live, stream, n).value, stream[n])
  {
    hide Contiguous;
  }

  lemma BeyondTheNext(stream: seq<SignerEvent>, accepted: set<u64>, p: u64, next: u64)
    requires next == p + 1 && next !in accepted
    ensures Beyond(stream, accepted + {next}, next) == Beyond(stream, accepted, p)
  {
  }

  lemma BeyondOneMore(stream: seq<SignerEvent>, accepted: set<u64>, p: u64, k: u64)
    requires p < k <= |stream|
    ensures Beyond(stream, accepted + {k}, p) == Beyond(stream, accepted, p)[k := stream[k - 1]]
    ensures k in Beyond(stream, accepted, p) <==> k in accepted
    ensures k in accepted ==> Beyond(stream, accepted, p)[k] == stream[k - 1]
  {
  }

  lemma EarlyDelivery(
    hash: Hasher, live: Live, stream: seq<SignerEvent>, accepted: set<u64>, s: State, e: SignerEvent)
    requires GoodStream(hash, live, stream) && Determined(live, stream, accepted, s) && e in stream
    requires e.sequence > s.core.highest + 1
    ensures var step := Deliver(hash, s, e);
            if step.result.Ok? then Determined(live, stream, accepted + {e.sequence}, step.state)
            else step == Step(s, Err(ReorderWindowExhausted)) && |s.buffer| >= MAXIMUM_REORDER_WINDOW
  {
    hide GoodStream, InOrder, Beyond, Contiguous, Drain;
    EventOfStream(hash, live, stream, e);
    InOrderApplied(hash, live, stream, s.core.highest);
    BeyondOneMore(stream, accepted, s.core.highest, e.sequence);
    if e.sequence in accepted { assert accepted + {e.sequence} == accepted; }
  }

  /** Whatever is delivered of a good stream, in any order and with any
      duplicates: the highest sequence is the longest accepted prefix, the buffer
      is exactly the accepted rest, and everything else is what applying that
      prefix in order gives. */
  lemma {:induction false} DeliveriesDetermineTheState(
    hash: Hasher, live: Live, stream: seq<SignerEvent>, deliveries: seq<SignerEvent>)
    requires GoodStream(hash, live, stream) && forall e :: e in deliveries ==> e in stream
    ensures Determined(live, stream, Accepted(hash, live, deliveries), Run(hash, live, deliveries))
  {
    hide GoodStream, Deliver, Determined;
    if deliveries == [] {
      NothingDelivered(live, stream);
    } else {
      var n := |deliveries| - 1;
      DeliveriesDetermineTheState(hash, live, stream, deliveries[..n]);
      var accepted := Accepted(hash, live, deliveries[..n]);
      DeliveryFollowsTheStream(hash, live, stream, accepted, Run(hash, live, deliveries[..n]), deliveries[n]);
      assert accepted + {} == accepted;
    }
  }

  lemma NothingDelivered(live: Live, stream: seq<SignerEvent>)
    ensures Determined(live, stream, {}, State(NewCore(live), map[]))
  {
  }

  lemma PrefixIsLongest(p: u64, q: u64, accepted: set<u64>)
    requires LongestPrefix(p, accepted) && UpTo(q, accepted)
    ensures q <= p
  {
    var next := if p < U64_MAX then p + 1 else p;
    var beyond := next in accepted;
  }

  lemma DeterminedIsUnique(live: Live, stream: seq<SignerEvent>, accepted: set<u64>, s: State, t: State)
    requires Determined(live, stream, accepted, s) && Determined(live, stream, accepted, t)
    ensures s == t
  {
    hide UpTo, Beyond, InOrder;
    PrefixIsLongest(s.core.highest, t.core.highest, accepted);
    PrefixIsLongest(t.core.highest, s.core.highest, accepted);
  }

  /** Two ways of delivering a good stream that were refused nothing, or refused
      the same, end in the same state. */
  lemma DeliveryOrderIsIrrelevant(
    hash: Hasher, live: Live, stream: seq<SignerEvent>, one: seq<SignerEvent>, other: seq<SignerEvent>)
    requires GoodStream(hash, live, stream)
    requires forall e :: e in one || e in other ==> e in stream
    requires Accepted(hash, live, one) == Accepted(hash, live, other)
    ensures Run(hash, live, one) == Run(hash, live, other)
  {
    hide GoodStream, Determined, Run, Accepted;
    DeliveriesDetermineTheState(hash, live, stream, one);
    DeliveriesDetermineTheState(hash, live, stream, other);
    DeterminedIsUnique(live, stream, Accepted(hash, live, one), Run(hash, live, one), Run(hash, live, other));
  }

  /** Once every event has been accepted, the stream has been applied in order
      and nothing is buffered. */
  lemma CompleteDeliveryAppliesTheStream(
    hash: Hasher, live: Live, stream: seq<SignerEvent>, deliveries: seq<SignerEvent>)
    requires GoodStream(hash, live, stream) && forall e :: e in deliveries ==> e in stream
    requires forall e :: e in stream ==> e.sequence in Accepted(hash, live, deliveries)
    ensures Run(hash, live, deliveries) == State(InOrder(live, stream, |stream|).value, map[])
  {
    hide Deliver, InOrder, Accepted, Run;
    DeliveriesDetermineTheState(hash, live, stream, deliveries);
    forall k: u64 | 1 <= k <= |stream| ensures k in Accepted(hash, live, deliveries) {
      assert stream[k - 1] in stream;
    }
    PrefixIsLongest(Run(hash, live, deliveries).core.highest, |stream|, Accepted(hash, live, deliveries));
  }

  // ------------------------------------------ streams that may fail on the way

  /** One fixed event for each sequence number, whatever applying it does. */
  ghost predicate Numbered(stream: seq<SignerEvent>) {
    |stream| < U64_MAX && forall i :: 0 <= i < |stream| ==> stream[i].sequence == i + 1
  }

  /** The state is the in-order application of the first events, and holds back
      only events of the stream beyond a gap, under their own numbers. */
  ghost predicate Follows(live: Live, stream: seq<SignerEvent>, s: State, gap: nat) {
    && s.core.highest <= |stream|
    && InOrder(live, stream, s.core.highest) == Ok(s.core)
    && forall k :: k in s.buffer ==> s.core.highest + gap < k <= |stream| && s.buffer[k] == stream[k - 1]
  }

  lemma {:induction false} InOrderCounts(live: Live, stream: seq<SignerEvent>, n: nat)
    requires Numbered(stream) && n <= |stream| && InOrder(live, stream, n).Ok?
    ensures InOrder(live, stream, n).value.highest == n
  {
    hide Effect;
    if n > 0 { InOrderCounts(live, stream, n - 1); }
  }

  lemma {:induction false} DrainFollows(live: Live, stream: seq<SignerEvent>, s: State)
    requires Numbered(stream) && Follows(live, stream, s, 0)
    ensures Follows(live, stream, Drain(s).state, 1)
    decreases |s.buffer|
  {
    hide Contiguous, Drain, InOrder;
    DrainStops(s);
    if s.core.highest < U64_MAX && s.core.highest + 1 in s.buffer {
      var next: u64 := s.core.highest + 1;
      DrainGoesOn(s, next);
      OneMoreInOrder(live, stream, s.core.highest);
      assert (s.buffer - {next}).Keys == s.buffer.Keys - {next};
      var r := Contiguous(s.core, s.buffer[next]);
      if r.Ok? {
        InOrderCounts(live, stream, next);
        DrainFollows(live, stream, State(r.value, s.buffer - {next}));
      }
    }
  }

  lemma EventOfNumbered(stream: seq<SignerEvent>, e: SignerEvent)
    requires Numbered(stream) && e in stream
    ensures 1 <= e.sequence <= |stream| && stream[e.sequence - 1] == e
  {
  }

  lemma DeliveryFollows(hash: Hasher, live: Live, stream: seq<SignerEvent>, s: State, e: SignerEvent)
    requires Numbered(stream) && Follows(live, stream, s, 1) && e in stream
    ensures Follows(live, stream, Deliver(hash, s, e).state, 1)
  {
    hide Contiguous, Drain, InOrder;
    EventOfNumbered(stream, e);
    if e.sequence == s.core.highest + 1 && Contiguous(s.core, e).Ok? {
      OneMoreInOrder(live, stream, s.core.highest);
      InOrderCounts(live, stream, e.sequence);
      DrainFollows(live, stream, State(Contiguous(s.core, e).value, s.buffer));
    }
  }

  /** Whether or not the stream fails on the way, every run of its deliveries is
      where applying some first part of it in order leads, holding back only later
      events of the stream. So a redelivery after a failure meets that state. */
  lemma {:induction false} EveryRunFollowsTheStream(
    hash: Hasher, live: Live, stream: seq<SignerEvent>, deliveries: seq<SignerEvent>)
    requires Numbered(stream) && forall e :: e in deliveries ==> e in stream
    ensures Follows(live, stream, Run(hash, live, deliveries), 1)
  {
    hide Deliver, Numbered;
    if deliveries != [] {
      var n := |deliveries| - 1;
      hide Follows;
      EveryRunFollowsTheStream(hash, live, stream, deliveries[..n]);
      DeliveryFollows(hash, live, stream, Run(hash, live, deliveries[..n]), deliveries[n]);
    }
  }

  /** And no run passes the first event that fails in order. */
  lemma RunsStopAtTheFirstFailure(
    hash: Hasher, live: Live, stream: seq<SignerEvent>, deliveries: seq<SignerEvent>, n: nat)
    requires Numbered(stream) && forall e :: e in deliveries ==> e in stream
    requires n <= |stream| && InOrder(live, stream, n).Err?
    ensures Run(hash, live, deliveries).core.highest < n
  {
    EveryRunFollowsTheStream(hash, live, stream, deliveries);
    var highest := Run(hash, live, deliveries).core.highest;
    if n <= highest {
      InOrderSucceeds(live, stream, n, highest);
      assert false;
    }
  }

  // -------------------------------------------- when no delivery is refused

  function Delivered(deliveries: seq<SignerEvent>): set<u64> {
    set e | e in deliveries :: e.sequence
  }

  /** No event is sent more than 256 sequence numbers ahead of the longest prefix
      sent before it. */
  ghost predicate Windowed(deliveries: seq<SignerEvent>) {
    forall i, p: u64 :: 0 <= i < |deliveries| && LongestPrefix(p, Delivered(deliveries[..i])) ==>
      deliveries[i].sequence <= p + MAXIMUM_REORDER_WINDOW
  }

  ghost predicate Near(accepted: set<u64>, p: u64) {
    forall k :: k in accepted ==> k <= p + MAXIMUM_REORDER_WINDOW
  }

  lemma {:induction false} AtMostAsMany(keys: set<u64>, low: int, n: nat)
    requires forall k :: k in keys ==> low < k <= low + n
    ensures |keys| <= n
    decreases n
  {
    if n == 0 {
      assert keys == {};
    } else {
      var fewer := set k | k in keys && k != low + n;
      AtMostAsMany(fewer, low, n - 1);
      if low + n in keys {
        assert keys == fewer + {low + n};
      } else {
        assert keys == fewer;
      }
    }
  }

  lemma NearLeavesRoom(live: Live, stream: seq<SignerEvent>, accepted: set<u64>, s: State)
    requires Determined(live, stream, accepted, s) && Near(accepted, s.core.highest)
    ensures |s.buffer| < MAXIMUM_REORDER_WINDOW
  {
    hide InOrder;
    var p := s.core.highest;
    forall k | k in s.buffer ensures p + 1 < k <= p + MAXIMUM_REORDER_WINDOW {
      assert k in accepted;
    }
    AtMostAsMany(s.buffer.Keys, p + 1, MAXIMUM_REORDER_WINDOW - 1);
    assert |s.buffer.Keys| == |s.buffer|;
  }

  lemma PrefixGrows(p: u64, accepted: set<u64>, k: u64, q: u64)
    requires LongestPrefix(p, accepted) && LongestPrefix(q, accepted + {k})
    ensures p <= q
  {
    assert UpTo(p, accepted + {k});
    PrefixIsLongest(q, p, accepted + {k});
  }

  lemma DeterminedPrefix(live: Live, stream: seq<SignerEvent>, accepted: set<u64>, s: State)
    requires Determined(live, stream, accepted, s)
    ensures LongestPrefix(s.core.highest, accepted)
  {
  }

  lemma OneMoreDelivered(deliveries: seq<SignerEvent>)
    requires deliveries != []
    ensures var n := |deliveries| - 1;
            Delivered(deliveries) == Delivered(deliveries[..n]) + {deliveries[n].sequence}
  {
    var n := |deliveries| - 1;
    assert deliveries == deliveries[..n] + [deliveries[n]];
    assert forall e :: e in deliveries <==> e in deliveries[..n] || e == deliveries[n];
  }

  lemma WindowedPrefix(deliveries: seq<SignerEvent>)
    requires deliveries != [] && Windowed(deliveries)
    ensures Windowed(deliveries[..|deliveries| - 1])
  {
    hide LongestPrefix, Delivered;
    var before := deliveries[..|deliveries| - 1];
    forall i, p: u64 | 0 <= i < |before| && LongestPrefix(p, Delivered(before[..i]))
      ensures before[i].sequence <= p + MAXIMUM_REORDER_WINDOW
    {
      assert before[..i] == deliveries[..i];
    }
  }

  lemma LastIsWithinWindow(deliveries: seq<SignerEvent>, p: u64)
    requires deliveries != [] && Windowed(deliveries)
    requires LongestPrefix(p, Delivered(deliveries[..|deliveries| - 1]))
    ensures deliveries[|deliveries| - 1].sequence <= p + MAXIMUM_REORDER_WINDOW
  {
  }

  /** Within the window nothing is refused, whatever the order. */
  lemma {:induction false} WindowedDeliveriesAreAccepted(
    hash: Hasher, live: Live, stream: seq<SignerEvent>, deliveries: seq<SignerEvent>)
    requires GoodStream(hash, live, stream) && forall e :: e in deliveries ==> e in stream
    requires Windowed(deliveries)
    ensures Accepted(hash, live, deliveries) == Delivered(deliveries)
    ensures Near(Delivered(deliveries), Run(hash, live, deliveries).core.highest)
  {
    hide GoodStream, Deliver, Determined, Windowed, LongestPrefix, Delivered;
    if deliveries == [] {
      NothingToAccept();
    } else {
      var n := |deliveries| - 1;
      WindowedPrefix(deliveries);
      WindowedDeliveriesAreAccepted(hash, live, stream, deliveries[..n]);
      OneMoreDelivered(deliveries);
      var before, after := Run(hash, live, deliveries[..n]), Run(hash, live, deliveries);
      DeliveriesDetermineTheState(hash, live, stream, deliveries[..n]);
      DeliveriesDetermineTheState(hash, live, stream, deliveries);
      NearLeavesRoom(live, stream, Delivered(deliveries[..n]), before);
      DeliveryFollowsTheStream(hash, live, stream, Delivered(deliveries[..n]), before, deliveries[n]);
      DeterminedPrefix(live, stream, Delivered(deliveries[..n]), before);
      DeterminedPrefix(live, stream, Delivered(deliveries), after);
      LastIsWithinWindow(deliveries, before.core.highest);
      PrefixGrows(before.core.highest, Delivered(deliveries[..n]), deliveries[n].sequence, after.core.highest);
    }
  }

  lemma NothingToAccept()
    ensures Delivered([]) == {}
  {
  }

  /** So a stream sent completely, within the window and with any duplicates, ends
      in its in-order application. */
  lemma WindowedDeliveryAppliesTheStream(
    hash: Hasher, live: Live, stream: seq<SignerEvent>, deliveries: seq<SignerEvent>)
    requires GoodStream(hash, live, stream) && Windowed(deliveries)
    requires forall e :: e in deliveries <==> e in stream
    ensures Run(hash, live, deliveries) == State(InOrder(live, stream, |stream|).value, map[])
  {
    hide GoodStream, Windowed, Accepted, Run, InOrder;
    GoodStreamSucceeds(hash, live, stream);
    WindowedDeliveriesAreAccepted(hash, live, stream, deliveries);
    CompleteDeliveryAppliesTheStream(hash, live, stream, deliveries);
  }

  lemma GoodStreamSucceeds(hash: Hasher, live: Live, stream: seq<SignerEvent>)
    requires GoodStream(hash, live, stream)
    ensures InOrder(live, stream, |stream|).Ok?
  {
  }

  // ---------------------------------------------------------- the mutable state

  lemma EffectOfReports(c: Core, p: Payload)
    ensures p.FillReport? ==> Effect(c, p) == AfterFill(c, p.fill)
    ensures p.FundingReport? ==> Effect(c, p) == AfterFunding(c, p.funding)
    ensures p.PositionSnapshot? ==> Effect(c, p) == Ok(AfterPositions(c, p.positions))
    ensures p.EquitySnapshot? ==> Effect(c, p) == AfterEquity(c, p.equity)
  {
  }

  lemma ReplaysKeepTheState(s: Live, f: Fill)
    ensures FillOutcome(s, f).Ok? && FillOutcome(s, f).value.result.FillAlreadyApplied? ==>
              FillOutcome(s, f).value.state == s
  {
  }

  lemma FundingReplaysKeepTheState(s: Live, e: Funding)
    ensures FundingOutcome(s, e).Ok? && FundingOutcome(s, e).value.result.FundingAlreadyApplied? ==>
              FundingOutcome(s, e).value.state == s
  {
  }

  class ProductionTradingState {
    var live: LiveTradingState
    var intents: map<Text, IntentState>
    var highest: u64
    var appliedHashes: map<u64, Text>
    var buffer: map<u64, SignerEvent>
    var blockedAssets: set<Text>
    var assetsRequiringReplan: set<Text>
    var positionMismatches: map<Text, (real, real)>
    var equityMismatch: Option<(real, real)>

    function CoreContents(): Core
      reads this, live, live.ledger
    {
      Core(live.Contents(), intents, highest, appliedHashes, blockedAssets, assetsRequiringReplan, positionMismatches,
          equityMismatch)
    }

    function Contents(): State
      reads this, live, live.ledger
    {
      State(CoreContents(), buffer)
    }

    constructor (trading: LiveTradingState)
      ensures live == trading && Contents() == State(NewCore(trading.Contents()), map[])
    {
      live, intents, highest, appliedHashes, buffer := trading, map[], 0, map[], map[];
      blockedAssets, assetsRequiringReplan, positionMismatches, equityMismatch := {}, {}, map[], None;
    }

    constructor Clone(other: ProductionTradingState)
      ensures fresh(live) && fresh(live.ledger) && Contents() == other.Contents()
    {
      live := new LiveTradingState.Clone(other.live);
      intents, highest, appliedHashes, buffer := other.intents, other.highest, other.appliedHashes, other.buffer;
      blockedAssets, assetsRequiringReplan := other.blockedAssets, other.assetsRequiringReplan;
      positionMismatches, equityMismatch := other.positionMismatches, other.equityMismatch;
    }

    method RequireIntent(cloid: Text, intent: IntentState) returns (r: Result<(), ApplyError>)
      modifies `intents
      ensures var outcome := WithIntent(old(CoreContents()), cloid, intent);
              && r == (if outcome.Ok? then Ok(()) else Err(outcome.error))
              && (outcome.Ok? ==> CoreContents() == outcome.value)
    {
      if cloid !in intents {
        return Err(UnknownIntent);
      }
      intents := intents[cloid := intent];
      r := Ok(());
    }

    method ReportFill(f: Fill) returns (r: Result<(), ApplyError>)
      modifies `intents, `assetsRequiringReplan, live
      ensures (live.ledger == old(live.ledger) || fresh(live.ledger))
      ensures var outcome := AfterFill(old(CoreContents()), f);
              && r == (if outcome.Ok? then Ok(()) else Err(outcome.error))
              && (outcome.Ok? ==> CoreContents() == outcome.value)
    {
      hide FillOutcome;
      ReplaysKeepTheState(live.Contents(), f);
      var applied := live.ApplyExchangeFill(f);
      if applied.Err? {
        return Err(LedgerRefused(applied.error));
      }
      if applied.value.Accounted? {
        var known := RequireIntent(f.identity.cloid, PartiallyFilled);
        if known.Err? {
          return known;
        }
        assetsRequiringReplan := assetsRequiringReplan + {f.asset};
      }
      r := Ok(());
    }

    method ReportFunding(e: Funding) returns (r: Result<(), ApplyError>)
      modifies `assetsRequiringReplan, live
      ensures (live.ledger == old(live.ledger) || fresh(live.ledger))
      ensures var outcome := AfterFunding(old(CoreContents()), e);
              && r == (if outcome.Ok? then Ok(()) else Err(outcome.error))
              && (outcome.Ok? ==> CoreContents() == outcome.value)
    {
      hide FundingOutcome;
      FundingReplaysKeepTheState(live.Contents(), e);
      var applied := live.ApplyFundingEvent(e);
      if applied.Err? {
        return Err(LedgerRefused(applied.error));
      }
      if applied.value.FundingAccounted? {
        assetsRequiringReplan := assetsRequiringReplan + {e.asset};
      }
      r := Ok(());
    }

    /** Compares the positions under some assets, adding what differs to what was
        found before. */
    method ComparePositions(assets: set<Text>, local: map<Text, real>, exchange: map<Text, real>)
      requires blockedAssets == positionMismatches.Keys
      requires forall a :: a in positionMismatches ==>
                positionMismatches[a] == (Ledger.Position(local, a), Ledger.Position(exchange, a))
      modifies `positionMismatches, `blockedAssets
      ensures blockedAssets == positionMismatches.Keys
      ensures forall a :: a in positionMismatches <==>
                a in old(positionMismatches)
                    || (a in assets && Ledger.Position(local, a) != Ledger.Position(exchange, a))
      ensures forall a :: a in positionMismatches ==>
                positionMismatches[a] == (Ledger.Position(local, a), Ledger.Position(exchange, a))
    {
      hide Ledger.Position;
      var rest := assets;
      while rest != {}
        invariant rest <= assets && blockedAssets == positionMismatches.Keys
        invariant forall a :: a in positionMismatches <==>
                    a in old(positionMismatches)
                        || (a in assets - rest && Ledger.Position(local, a) != Ledger.Position(exchange, a))
        invariant forall a :: a in positionMismatches ==>
                    positionMismatches[a] == (Ledger.Position(local, a), Ledger.Position(exchange, a))
      {
        var a := Least(rest);
        var localValue, exchangeValue := Ledger.Position(local, a), Ledger.Position(exchange, a);
        if localValue != exchangeValue {
          positionMismatches := positionMismatches[a := (localValue, exchangeValue)];
          blockedAssets := blockedAssets + {a};
        }
        rest := rest - {a};
      }
    }

    method ReportPositions(exchange: map<Text, real>)
      modifies `positionMismatches, `blockedAssets
      ensures CoreContents() == AfterPositions(old(CoreContents()), exchange)
      ensures forall a ::
                var local, other := Ledger.Position(live.ledger.positions, a), Ledger.Position(exchange, a);
                && (a in blockedAssets <==> local != other) && (a in positionMismatches <==> local != other)
                && (a in positionMismatches ==> positionMismatches[a] == (local, other))
    {
      var local := live.ledger.positions;
      positionMismatches, blockedAssets := map[], {};
      ComparePositions(local.Keys, local, exchange);
      ComparePositions(exchange.Keys, local, exchange);
      assert positionMismatches == Mismatches(local, exchange);
    }

    method ReportEquity(equity: real) returns (r: Result<(), ApplyError>)
      modifies `equityMismatch, live
      ensures live.ledger == old(live.ledger) && live.currentEquity == old(live.currentEquity)
      ensures equityMismatch ==
                if old(live.currentEquity) == equity then None else Some((old(live.currentEquity), equity))
      ensures var outcome := AfterEquity(old(CoreContents()), equity);
              && r == (if outcome.Ok? then Ok(()) else Err(outcome.error))
              && (outcome.Ok? ==> CoreContents() == outcome.value)
    {
      var local := live.currentEquity;
      equityMismatch := if local != equity then Some((local, equity)) else None;
      if local == equity {
        var reconciled := live.ReconcileEquity(equity);
        if reconciled.Err? {
          return Err(LedgerRefused(reconciled.error));
        }
      }
      r := Ok(());
    }

    /** The payloads that only move an intent to its next state. */
    method PerformIntent(p: Payload) returns (r: Result<(), ApplyError>)
      requires !p.FillReport? && !p.FundingReport? && !p.PositionSnapshot? && !p.EquitySnapshot?
      modifies `intents
      ensures var outcome := Effect(old(CoreContents()), p);
              && r == (if outcome.Ok? then Ok(()) else Err(outcome.error))
              && (outcome.Ok? ==> CoreContents() == outcome.value)
    {
      hide WithIntent;
      match p
      case IntentAccepted(cloid, _) =>
        intents := intents[cloid := AcceptedBySigner];
        r := Ok(());
      case SubmissionStarted(cloid) => r := RequireIntent(cloid, Sent);
      case SubmissionUnknown(cloid) => r := RequireIntent(cloid, SubmissionIsUnknown);
      case OrderAcknowledged(cloid, _) => r := RequireIntent(cloid, AcknowledgedByExchange);
      case OrderRejected(cloid, _) => r := RequireIntent(cloid, Rejected);
      case OrderCancelled(cloid, _) => r := RequireIntent(cloid, Cancelled);
      case OrderPartiallyFilled(cloid, _, _) => r := RequireIntent(cloid, PartiallyFilled);
      case Reconciled(cloid) => r := RequireIntent(cloid, IntentReconciled);
      case AuthorizedNotSubmitted(cloid) => r := RequireIntent(cloid, IntentAuthorizedNotSubmitted);
    }

    method Perform(p: Payload) returns (r: Result<(), ApplyError>)
      modifies this, live
      ensures live == old(live) && buffer == old(buffer) && (live.ledger == old(live.ledger) || fresh(live.ledger))
      ensures var outcome := Effect(old(CoreContents()), p);
              && r == (if outcome.Ok? then Ok(()) else Err(outcome.error))
              && (outcome.Ok? ==> CoreContents() == outcome.value)
    {
      hide Effect;
      EffectOfReports(CoreContents(), p);
      match p
      case FillReport(f) => r := ReportFill(f);
      case FundingReport(e) => r := ReportFunding(e);
      case PositionSnapshot(positions, _) =>
        ReportPositions(positions);
        r := Ok(());
      case EquitySnapshot(equity, _) => r := ReportEquity(equity);
      case _ => r := PerformIntent(p);
    }

    method CopyFrom(next: ProductionTradingState)
      modifies this
      ensures live == next.live && Contents() == old(next.Contents())
    {
      live, intents, highest, appliedHashes, buffer := next.live, next.intents, next.highest, next.appliedHashes,
          next.buffer;
      blockedAssets, assetsRequiringReplan := next.blockedAssets, next.assetsRequiringReplan;
      positionMismatches, equityMismatch := next.positionMismatches, next.equityMismatch;
    }

    /** Applies the next event to a copy, and takes the copy over when it
        succeeds. */
    method ApplyContiguous(e: SignerEvent) returns (r: Result<(), ApplyError>)
      modifies this
      ensures live == old(live) || (fresh(live) && fresh(live.ledger))
      ensures var outcome := Contiguous(old(CoreContents()), e);
              && r == (if outcome.Ok? then Ok(()) else Err(outcome.error))
              && Contents() == if outcome.Ok? then State(outcome.value, old(buffer)) else old(Contents())
    {
      hide Effect;
      var next := new ProductionTradingState.Clone(this);
      var performed := next.Perform(e.payload);
      if performed.Err? {
        return performed;
      }
      next.appliedHashes := next.appliedHashes[e.sequence := e.eventHash];
      next.highest := e.sequence;
      CopyFrom(next);
      r := Ok(());
    }

    method DrainBuffer() returns (r: Result<Application, ApplyError>)
      modifies this
      ensures live == old(live) || (fresh(live) && fresh(live.ledger))
      ensures Contents() == Drain(old(Contents())).state
      ensures r == Drain(old(Contents())).result
    {
      hide Contiguous, Drain;
      while true
        invariant live == old(live) || (fresh(live) && fresh(live.ledger))
        invariant Drain(Contents()) == Drain(old(Contents()))
        decreases |buffer|
      {
        DrainStops(Contents());
        if highest == U64_MAX {
          return Err(SequenceRegression);
        }
        var next: u64 := highest + 1;
        if next !in buffer {
          return Ok(Applied(highest));
        }
        DrainGoesOn(Contents(), next);
        var event := buffer[next];
        assert (buffer - {next}).Keys == buffer.Keys - {next};
        buffer := buffer - {next};
        var applied := ApplyContiguous(event);
        if applied.Err? {
          return Err(applied.error);
        }
      }
    }

    method HoldBack(e: SignerEvent, missing: u64) returns (r: Result<Application, ApplyError>)
      modifies `buffer
      ensures Contents() == Hold(old(Contents()), e, missing).state
      ensures r == Hold(old(Contents()), e, missing).result
    {
      if |buffer| >= MAXIMUM_REORDER_WINDOW {
        return Err(ReorderWindowExhausted);
      }
      if e.sequence in buffer {
        if buffer[e.sequence].eventHash != e.eventHash {
          return Err(SequenceIdentityConflict);
        }
      } else {
        buffer := buffer[e.sequence := e];
      }
      r := Ok(Buffered(missing));
    }

    method ApplyReconciliationEvent(hash: Hasher, e: SignerEvent) returns (r: Result<Application, ApplyError>)
      modifies this
      ensures Contents() == Deliver(hash, old(Contents()), e).state
      ensures r == Deliver(hash, old(Contents()), e).result
    {
      hide Contiguous, Drain, Hold;
      var expected := hash(e.payload);
      if expected.None? || expected.value != e.eventHash {
        return Err(EventHashMismatch);
      }
      if e.sequence in appliedHashes {
        return if appliedHashes[e.sequence] == e.eventHash then Ok(AlreadyApplied(highest))
            else Err(SequenceIdentityConflict);
      }
      if e.sequence <= highest {
        return Err(SequenceRegression);
      }
      var next: u64 := highest + 1;
      if e.sequence != next {
        r := HoldBack(e, next);
        return;
      }
      var applied := ApplyContiguous(e);
      if applied.Err? {
        return Err(applied.error);
      }
      r := DrainBuffer();
    }
  }
}
