/** What applying a stream of signer events in order leaves behind, part by part:
    the trading state, the intents, what is blocked, and what is to be replanned. */
module StreamEffects {
  import opened Common
  import Ledger
  import LiveTrading
  import opened ProductionState

  type Live = LiveTrading.Live

  // ------------------------------------------------------------- one event

  /** The intent an event moves, and where to. A fill moves its intent only when it
      is new. */
  datatype Move = Move(cloid: Text, target: IntentState)

  function MoveOf(live: Live, p: Payload): Option<Move> {
    match p
    case IntentAccepted(cloid, _) => Some(Move(cloid, AcceptedBySigner))
    case SubmissionStarted(cloid) => Some(Move(cloid, Sent))
    case SubmissionUnknown(cloid) => Some(Move(cloid, SubmissionIsUnknown))
    case OrderAcknowledged(cloid, _) => Some(Move(cloid, AcknowledgedByExchange))
    case OrderRejected(cloid, _) => Some(Move(cloid, Rejected))
    case OrderCancelled(cloid, _) => Some(Move(cloid, Cancelled))
    case OrderPartiallyFilled(cloid, _, _) => Some(Move(cloid, PartiallyFilled))
    case FillReport(f) =>
      if f.identity in live.appliedFills then None else Some(Move(f.identity.cloid, PartiallyFilled))
    case Reconciled(cloid) => Some(Move(cloid, IntentReconciled))
    case AuthorizedNotSubmitted(cloid) => Some(Move(cloid, IntentAuthorizedNotSubmitted))
    case _ => None
  }

  predicate Moves(live: Live, p: Payload, cloid: Text) {
    MoveOf(live, p).Some? && MoveOf(live, p).value.cloid == cloid
  }

  /** The asset of a fill or funding event that is not a replay. */
  predicate Trades(live: Live, p: Payload, asset: Text) {
    match p
    case FillReport(f) => f.asset == asset && f.identity !in live.appliedFills
    case FundingReport(e) => e.asset == asset && e.eventId !in live.appliedFunding
    case _ => false
  }

  lemma FillIsNew(live: Live, f: LiveTrading.Fill)
    requires LiveTrading.FillOutcome(live, f).Ok?
    ensures LiveTrading.FillOutcome(live, f).value.result.FillAlreadyApplied? <==> f.identity in live.appliedFills
    ensures f.identity in live.appliedFills ==> LiveTrading.FillOutcome(live, f).value.state == live
  {
    hide LiveTrading.Posted, LiveTrading.ValidFill;
  }

  lemma FundingIsNew(live: Live, e: LiveTrading.Funding)
    requires LiveTrading.FundingOutcome(live, e).Ok?
    ensures LiveTrading.FundingOutcome(live, e).value.result.FundingAlreadyApplied? <==>
              e.eventId in live.appliedFunding
    ensures e.eventId in live.appliedFunding ==> LiveTrading.FundingOutcome(live, e).value.state == live
  {
  }

  lemma ReportsAreNew(live: Live, p: Payload)
    ensures p.FillReport? && LiveTrading.FillOutcome(live, p.fill).Ok? ==>
              && var step := LiveTrading.FillOutcome(live, p.fill).value;
                 && (step.result.FillAlreadyApplied? <==> p.fill.identity in live.appliedFills)
                 && (p.fill.identity in live.appliedFills ==> step.state == live)
    ensures p.FundingReport? && LiveTrading.FundingOutcome(live, p.funding).Ok? ==>
              && var step := LiveTrading.FundingOutcome(live, p.funding).value;
                 && (step.result.FundingAlreadyApplied? <==> p.funding.eventId in live.appliedFunding)
                 && (p.funding.eventId in live.appliedFunding ==> step.state == live)
  {
    hide LiveTrading.FillOutcome, LiveTrading.FundingOutcome;
    if p.FillReport? && LiveTrading.FillOutcome(live, p.fill).Ok? { FillIsNew(live, p.fill); }
    if p.FundingReport? && LiveTrading.FundingOutcome(live, p.funding).Ok? { FundingIsNew(live, p.funding); }
  }

  /** An event moves the one intent it names, which must be known unless the event
      is its acceptance. */
  lemma EventMovesItsIntent(c: Core, p: Payload, cloid: Text)
    requires Effect(c, p).Ok?
    ensures var after := Effect(c, p).value;
            && (cloid in after.intents <==> cloid in c.intents || (p.IntentAccepted? && p.cloid == cloid))
            && (Moves(c.live, p, cloid) ==>
                  cloid in after.intents && after.intents[cloid] == MoveOf(c.live, p).value.target)
            && (!Moves(c.live, p, cloid) && cloid in c.intents ==> after.intents[cloid] == c.intents[cloid])
  {
    hide LiveTrading.FillOutcome, LiveTrading.FundingOutcome, LiveTrading.EquityOutcome, Mismatches;
    ReportsAreNew(c.live, p);
  }

  /** The one refusal that is not the ledger's: an event other than an acceptance
      names an unknown intent. */
  lemma UnknownIntentWhen(c: Core, p: Payload)
    ensures Effect(c, p) == Err(UnknownIntent) <==>
              && MoveOf(c.live, p).Some? && !p.IntentAccepted? && MoveOf(c.live, p).value.cloid !in c.intents
              && (p.FillReport? ==> LiveTrading.FillOutcome(c.live, p.fill).Ok?)
    ensures Effect(c, p).Err? && Effect(c, p).error != UnknownIntent ==>
              Effect(c, p).error.LedgerRefused? && (p.FillReport? || p.FundingReport? || p.EquitySnapshot?)
  {
    hide LiveTrading.FillOutcome, LiveTrading.FundingOutcome, LiveTrading.EquityOutcome, Mismatches;
    ReportsAreNew(c.live, p);
  }

  /** Only a position snapshot blocks or releases assets: it blocks exactly those
      whose local and exchange positions differ, and records both. */
  lemma SnapshotBlocksWhatDiffers(c: Core, p: Payload, asset: Text)
    requires Effect(c, p).Ok?
    ensures var after := Effect(c, p).value;
            if p.PositionSnapshot? then
              var local, exchange := Ledger.Position(c.live.book.positions, asset), Ledger.Position(p.positions, asset);
              && (asset in after.blockedAssets <==> local != exchange)
              && (asset in after.positionMismatches <==> local != exchange)
              && (asset in after.positionMismatches ==> after.positionMismatches[asset] == (local, exchange))
            else after.blockedAssets == c.blockedAssets && after.positionMismatches == c.positionMismatches
  {
    hide LiveTrading.FillOutcome, LiveTrading.FundingOutcome, LiveTrading.EquityOutcome;
  }

  /** Only an equity snapshot says whether the equity differs; it records both
      figures, and on a consistent state takes over neither. */
  lemma SnapshotComparesEquity(c: Core, p: Payload)
    requires Effect(c, p).Ok?
    ensures var after := Effect(c, p).value;
            after.equityMismatch ==
              if !p.EquitySnapshot? then c.equityMismatch
              else if c.live.currentEquity == p.equity then None else Some((c.live.currentEquity, p.equity))
    ensures p.EquitySnapshot? && LiveTrading.Loadable(c.live) ==> Effect(c, p).value.live == c.live
  {
    hide LiveTrading.FillOutcome, LiveTrading.FundingOutcome, Mismatches;
  }

  /** Assets are marked for replanning by new fills and funding, and by nothing
      else. */
  lemma TradesAreReplanned(c: Core, p: Payload, asset: Text)
    requires Effect(c, p).Ok?
    ensures asset in Effect(c, p).value.assetsRequiringReplan <==>
              asset in c.assetsRequiringReplan || Trades(c.live, p, asset)
  {
    hide LiveTrading.FillOutcome, LiveTrading.FundingOutcome, LiveTrading.EquityOutcome, Mismatches;
    ReportsAreNew(c.live, p);
  }

  /** What an event is to the trading state. */
  function OperationOf(p: Payload): Option<LiveTrading.Operation> {
    match p
    case FillReport(f) => Some(LiveTrading.ExchangeFill(f))
    case FundingReport(e) => Some(LiveTrading.FundingEvent(e))
    case _ => None
  }

  /** Fills and funding reach the trading state, which accepts them; nothing else
      does. */
  lemma OnlyTradesReachTheState(c: Core, p: Payload)
    requires Effect(c, p).Ok? && LiveTrading.Loadable(c.live)
    ensures var op := OperationOf(p);
            if op.None? then Effect(c, p).value.live == c.live
            else LiveTrading.Outcome(c.live, op.value) == Ok(Effect(c, p).value.live)
  {
    hide LiveTrading.FillOutcome, LiveTrading.FundingOutcome, LiveTrading.EquityOutcome, Mismatches;
    ReportsAreNew(c.live, p);
    SnapshotComparesEquity(c, p);
  }

  // ------------------------------------------------------- the whole stream

  /** Where the first events of a stream lead, in order. */
  ghost predicate Stands(live: Live, stream: seq<SignerEvent>, n: nat, c: Core) {
    n <= |stream| && InOrder(live, stream, n) == Ok(c)
  }

  lemma StandsBefore(live: Live, stream: seq<SignerEvent>, n: nat, c: Core) returns (before: Core)
    requires Stands(live, stream, n, c) && n > 0
    ensures n <= |stream| && Stands(live, stream, n - 1, before) && Effect(before, stream[n - 1].payload).Ok?
    ensures var after := Effect(before, stream[n - 1].payload).value;
            && c.live == after.live && c.intents == after.intents && c.blockedAssets == after.blockedAssets
            && c.positionMismatches == after.positionMismatches && c.equityMismatch == after.equityMismatch
            && c.assetsRequiringReplan == after.assetsRequiringReplan
  {
    hide Effect;
    before := InOrder(live, stream, n - 1).value;
  }

  lemma StandsAtOnce(live: Live, stream: seq<SignerEvent>, n: nat, c: Core, d: Core)
    requires Stands(live, stream, n, c) && Stands(live, stream, n, d)
    ensures c == d
  {
    hide InOrder;
  }

  lemma StandsAtFirst(live: Live, stream: seq<SignerEvent>, c: Core)
    requires Stands(live, stream, 0, c)
    ensures c == NewCore(live)
  {
  }

  /** The last event of its kind among the first of a stream. */
  ghost predicate IsLast(stream: seq<SignerEvent>, i: nat, n: nat, kind: Payload -> bool) {
    i < n <= |stream| && kind(stream[i].payload) && forall j :: i < j < n ==> !kind(stream[j].payload)
  }

  function IsPositions(): Payload -> bool {
    (p: Payload) => p.PositionSnapshot?
  }

  function IsEquity(): Payload -> bool {
    (p: Payload) => p.EquitySnapshot?
  }

  /** After any part of a stream, what is blocked is what differed at its last
      position snapshot, from the positions at that point. */
  lemma {:induction false} BlockedSinceTheLastSnapshot(
    live: Live, stream: seq<SignerEvent>, i: nat, at: Core, n: nat, c: Core, asset: Text)
    requires IsLast(stream, i, n, IsPositions()) && Stands(live, stream, i, at) && Stands(live, stream, n, c)
    ensures var local, exchange := Ledger.Position(at.live.book.positions, asset),
                                   Ledger.Position(stream[i].payload.positions, asset);
            && (asset in c.blockedAssets <==> local != exchange)
            && (asset in c.positionMismatches <==> local != exchange)
            && (asset in c.positionMismatches ==> c.positionMismatches[asset] == (local, exchange))
    decreases n
  {
    hide Effect, Stands;
    var before := StandsBefore(live, stream, n, c);
    SnapshotBlocksWhatDiffers(before, stream[n - 1].payload, asset);
    if i == n - 1 {
      StandsAtOnce(live, stream, i, at, before);
    } else {
      BlockedSinceTheLastSnapshot(live, stream, i, at, n - 1, before, asset);
    }
  }

  /** The equity mismatch is that of the last equity snapshot. */
  lemma {:induction false} EquityComparedLast(
    live: Live, stream: seq<SignerEvent>, i: nat, at: Core, n: nat, c: Core)
    requires IsLast(stream, i, n, IsEquity()) && Stands(live, stream, i, at) && Stands(live, stream, n, c)
    ensures var local, exchange := at.live.currentEquity, stream[i].payload.equity;
            c.equityMismatch == if local == exchange then None else Some((local, exchange))
    decreases n
  {
    hide Effect, Stands;
    var before := StandsBefore(live, stream, n, c);
    SnapshotComparesEquity(before, stream[n - 1].payload);
    if i == n - 1 {
      StandsAtOnce(live, stream, i, at, before);
    } else {
      EquityComparedLast(live, stream, i, at, n - 1, before);
    }
  }

  /** Without such a snapshot nothing is blocked, and no equity differs. */
  lemma {:induction false} NothingComparedYet(live: Live, stream: seq<SignerEvent>, n: nat, c: Core)
    requires Stands(live, stream, n, c)
    ensures (forall j :: 0 <= j < n ==> !stream[j].payload.PositionSnapshot?) ==>
              c.blockedAssets == {} && c.positionMismatches == map[]
    ensures (forall j :: 0 <= j < n ==> !stream[j].payload.EquitySnapshot?) ==> c.equityMismatch == None
  {
    hide Effect, Stands;
    if n == 0 {
      StandsAtFirst(live, stream, c);
    } else {
      var before := StandsBefore(live, stream, n, c);
      SnapshotBlocksWhatDiffers(before, stream[n - 1].payload, []);
      SnapshotComparesEquity(before, stream[n - 1].payload);
      NothingComparedYet(live, stream, n - 1, before);
    }
  }

  /** The intents known are those whose acceptance was applied. */
  lemma {:induction false} KnownIntentsWereAccepted(
    live: Live, stream: seq<SignerEvent>, n: nat, c: Core, cloid: Text)
    requires Stands(live, stream, n, c)
    ensures cloid in c.intents <==>
              exists i :: 0 <= i < n && stream[i].payload.IntentAccepted? && stream[i].payload.cloid == cloid
  {
    hide Effect, Stands;
    if n == 0 {
      StandsAtFirst(live, stream, c);
    } else {
      var before := StandsBefore(live, stream, n, c);
      EventMovesItsIntent(before, stream[n - 1].payload, cloid);
      KnownIntentsWereAccepted(live, stream, n - 1, before, cloid);
    }
  }

  /** No event from one place up to another moves the intent. */
  ghost predicate Unmoved(live: Live, stream: seq<SignerEvent>, first: nat, n: nat, cloid: Text) {
    forall j, d :: first <= j < n && j < |stream| && Stands(live, stream, j, d) ==>
      !Moves(d.live, stream[j].payload, cloid)
  }

  /** An intent is in the state that the last event to move it leads to. */
  lemma {:induction false} IntentIsWhereItWasMoved(
    live: Live, stream: seq<SignerEvent>, i: nat, at: Core, n: nat, c: Core, cloid: Text)
    requires i < n && Stands(live, stream, i, at) && Stands(live, stream, n, c)
    requires Moves(at.live, stream[i].payload, cloid) && Unmoved(live, stream, i + 1, n, cloid)
    ensures cloid in c.intents && c.intents[cloid] == MoveOf(at.live, stream[i].payload).value.target
    decreases n
  {
    hide Effect, Stands, Moves, MoveOf;
    var before := StandsBefore(live, stream, n, c);
    EventMovesItsIntent(before, stream[n - 1].payload, cloid);
    if i == n - 1 {
      StandsAtOnce(live, stream, i, at, before);
    } else {
      IntentIsWhereItWasMoved(live, stream, i, at, n - 1, before, cloid);
    }
  }

  ghost predicate TradedAt(live: Live, stream: seq<SignerEvent>, i: nat, asset: Text) {
    exists d :: Stands(live, stream, i, d) && i < |stream| && Trades(d.live, stream[i].payload, asset)
  }

  /** To be replanned are the assets some new fill or funding event was for. */
  lemma {:induction false} ReplannedWereTraded(live: Live, stream: seq<SignerEvent>, n: nat, c: Core, asset: Text)
    requires Stands(live, stream, n, c)
    ensures asset in c.assetsRequiringReplan <==> exists i :: 0 <= i < n && TradedAt(live, stream, i, asset)
  {
    hide Effect, Stands, Trades;
    if n == 0 {
      StandsAtFirst(live, stream, c);
    } else {
      var before := StandsBefore(live, stream, n, c);
      TradesAreReplanned(before, stream[n - 1].payload, asset);
      ReplannedWereTraded(live, stream, n - 1, before, asset);
      TradedAtLast(live, stream, n - 1, before, asset);
    }
  }

  lemma TradedAtLast(live: Live, stream: seq<SignerEvent>, i: nat, c: Core, asset: Text)
    requires Stands(live, stream, i, c) && i < |stream|
    ensures TradedAt(live, stream, i, asset) <==> Trades(c.live, stream[i].payload, asset)
  {
    hide InOrder, Trades;
  }

  /** The operations a stream brings to the trading state. */
  function Operations(stream: seq<SignerEvent>): seq<LiveTrading.Operation> {
    if stream == [] then []
    else
      var n := |stream| - 1;
      Operations(stream[..n]) +
      match OperationOf(stream[n].payload)
      case None => []
      case Some(op) => [op]
  }

  lemma OneMoreOperation(starting: real, ops: seq<LiveTrading.Operation>, op: LiveTrading.Operation, after: Live)
    requires LiveTrading.Outcome(LiveTrading.Run(starting, ops), op) == Ok(after)
    ensures LiveTrading.Run(starting, ops + [op]) == after
  {
    hide LiveTrading.Outcome;
    assert (ops + [op])[..|ops|] == ops;
  }

  /** The trading state behind a stream is that of a run of its fills and funding
      events alone, so everything proved of such runs holds of it. */
  lemma {:induction false} StreamIsATradingRun(
    starting: real, earlier: seq<LiveTrading.Operation>, stream: seq<SignerEvent>, n: nat, c: Core)
    requires starting > 0.0 && Stands(LiveTrading.Run(starting, earlier), stream, n, c)
    ensures c.live == LiveTrading.Run(starting, earlier + Operations(stream[..n]))
  {
    hide Effect, Stands, LiveTrading.After, LiveTrading.Outcome, LiveTrading.Loadable;
    var live := LiveTrading.Run(starting, earlier);
    if n == 0 {
      StandsAtFirst(live, stream, c);
      assert earlier + Operations(stream[..0]) == earlier;
    } else {
      var before := StandsBefore(live, stream, n, c);
      StreamIsATradingRun(starting, earlier, stream, n - 1, before);
      LiveTrading.EveryRunAccounts(starting, earlier + Operations(stream[..n - 1]));
      OnlyTradesReachTheState(before, stream[n - 1].payload);
      assert stream[..n][..n - 1] == stream[..n - 1] && stream[..n][n - 1] == stream[n - 1];
      match OperationOf(stream[n - 1].payload)
      case None =>
        assert earlier + Operations(stream[..n]) == earlier + Operations(stream[..n - 1]);
      case Some(op) =>
        OneMoreOperation(starting, earlier + Operations(stream[..n - 1]), op, c.live);
        assert earlier + Operations(stream[..n]) == earlier + Operations(stream[..n - 1]) + [op];
    }
  }

  // ------------------------------------------------------------ the answers

  /** Draining answers with the highest sequence it left, which nothing buffered
      follows. */
  lemma {:induction false} DrainAnswers(s: State)
    requires Drain(s).result.Ok?
    ensures Drain(s).result.value == Applied(Drain(s).state.core.highest)
    ensures Drain(s).state.core.highest + 1 !in Drain(s).state.buffer
    decreases |s.buffer|
  {
    hide Contiguous, Drain;
    DrainStops(s);
    if s.core.highest < U64_MAX && s.core.highest + 1 in s.buffer {
      var next: u64 := s.core.highest + 1;
      DrainGoesOn(s, next);
      assert (s.buffer - {next}).Keys == s.buffer.Keys - {next};
      DrainAnswers(State(Contiguous(s.core, s.buffer[next]).value, s.buffer - {next}));
    }
  }

  /** What an accepted delivery answers: the sequence reached, that it was reached
      before, or the first one missing while the event is held back. */
  lemma AnswersSayWhatHappened(hash: Hasher, s: State, e: SignerEvent)
    requires WellFormed(s) && Deliver(hash, s, e).result.Ok?
    ensures var after := Deliver(hash, s, e).state;
            match Deliver(hash, s, e).result.value
            case Applied(n) => e.sequence == s.core.highest + 1 <= n == after.core.highest && n + 1 !in after.buffer
            case AlreadyApplied(n) => 1 <= e.sequence <= n == s.core.highest && after == s
            case Buffered(n) =>
              && n == s.core.highest + 1 < e.sequence && after.core == s.core && e.sequence in after.buffer
              && after.buffer[e.sequence].eventHash == e.eventHash
  {
    hide Contiguous, Drain, LiveTrading.Consistent, LiveTrading.Accounts;
    if e.sequence == s.core.highest + 1 {
      var r := Contiguous(s.core, e);
      DrainAnswers(State(r.value, s.buffer));
      ContiguousAdvances(s.core, e);
      DrainKeepsWellFormed(State(r.value, s.buffer));
    }
  }

  /** Which delivery is refused before anything is applied, and as what. */
  lemma RefusalsSayWhy(hash: Hasher, s: State, e: SignerEvent)
    requires WellFormed(s) && e.sequence != s.core.highest + 1
    ensures var r := Deliver(hash, s, e).result;
            var genuine := hash(e.payload) == Some(e.eventHash);
            && (r == Err(EventHashMismatch) <==> !genuine)
            && (r == Err(SequenceRegression) <==> genuine && e.sequence == 0)
            && (r == Err(ReorderWindowExhausted) <==>
                  genuine && e.sequence > s.core.highest + 1 && |s.buffer| == MAXIMUM_REORDER_WINDOW)
            && (r == Err(SequenceIdentityConflict) <==>
                  && genuine
                  && (|| (1 <= e.sequence <= s.core.highest && s.core.appliedHashes[e.sequence] != e.eventHash)
                      || (e.sequence in s.buffer && |s.buffer| < MAXIMUM_REORDER_WINDOW
                          && s.buffer[e.sequence].eventHash != e.eventHash)))
            && Deliver(hash, s, e).state.core == s.core
  {
    hide LiveTrading.Consistent, LiveTrading.Accounts;
  }

  // ------------------------------------------------- whatever was delivered

  /** Whatever was delivered of a stream, in any order, with failures among it:
      what is blocked differed at the last position snapshot applied, and the
      trading state is that of the fills and funding applied. */
  lemma DeliveriesBlockWhatDiffers(
    hash: Hasher, live: Live, stream: seq<SignerEvent>, deliveries: seq<SignerEvent>, i: nat, asset: Text)
    requires Numbered(stream) && forall e :: e in deliveries ==> e in stream
    requires IsLast(stream, i, Run(hash, live, deliveries).core.highest, IsPositions())
    ensures i < |stream| && stream[i].payload.PositionSnapshot? && InOrder(live, stream, i).Ok?
    ensures var local, exchange := Ledger.Position(InOrder(live, stream, i).value.live.book.positions, asset),
                                   Ledger.Position(stream[i].payload.positions, asset);
            asset in Run(hash, live, deliveries).core.blockedAssets <==> local != exchange
  {
    hide InOrder, Run, Numbered;
    EveryRunFollowsTheStream(hash, live, stream, deliveries);
    var c := Run(hash, live, deliveries).core;
    InOrderSucceeds(live, stream, i, c.highest);
    BlockedSinceTheLastSnapshot(live, stream, i, InOrder(live, stream, i).value, c.highest, c, asset);
  }

  lemma DeliveriesAreATradingRun(
    hash: Hasher, starting: real, stream: seq<SignerEvent>, deliveries: seq<SignerEvent>)
    requires starting > 0.0 && Numbered(stream) && forall e :: e in deliveries ==> e in stream
    ensures var c := Run(hash, LiveTrading.Initial(starting), deliveries).core;
            c.highest <= |stream| && c.live == LiveTrading.Run(starting, Operations(stream[..c.highest]))
  {
    hide InOrder, Run, Numbered;
    var live := LiveTrading.Initial(starting);
    EveryRunFollowsTheStream(hash, live, stream, deliveries);
    var c := Run(hash, live, deliveries).core;
    assert LiveTrading.Run(starting, []) == live;
    StreamIsATradingRun(starting, [], stream, c.highest, c);
    assert [] + Operations(stream[..c.highest]) == Operations(stream[..c.highest]);
  }
}
