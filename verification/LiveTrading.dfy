/** `crates/copytrade-core/src/live_trading.rs`: exchange fills and funding applied
    exactly once to the episode book and to the three equities derived from it. */
module LiveTrading {
  import opened Common
  import opened Ledger

  datatype FillIdentity = FillIdentity(orderId: Text, tradeId: Text, cloid: Text)

  datatype Liquidity = Maker | Taker | UnknownLiquidity

  datatype Fill = Fill(
    identity: FillIdentity, decision: Text, targetVersion: nat, rootCloid: Text, parentCloid: Option<Text>,
    continuationGeneration: nat, asset: Text, side: Side, reduceOnly: bool, filledQuantity: real,
    averageFillPrice: real, submittedLimitPrice: real, feeAmount: real, exchangeClosedPnl: real, feeAsset: Text,
    liquidity: Liquidity, referencePrice: real, occurredAt: nat, decidedAt: nat, equityAfter: real, sourceHash: Text)

  datatype Funding = Funding(eventId: Text, asset: Text, amount: real, occurredAt: nat, sourceHash: Text)

  /** A journal entry: the fill, and the state it led to. */
  datatype FillAccounting = FillAccounting(
    fill: Fill, slippage: real, positionBefore: real, positionAfter: real,
    currentEquity: real, settledEquity: real, deploymentEquity: real)

  datatype FundingAccounting = FundingAccounting(
    event: Funding, currentEquity: real, settledEquity: real, deploymentEquity: real)

  datatype FillResult = Accounted(accounting: FillAccounting, episode: Option<ClosedEpisode>) | FillAlreadyApplied

  datatype FundingResult = FundingAccounted(accounting: FundingAccounting) | FundingAlreadyApplied

  datatype Live = Live(
    startingEquity: real, currentEquity: real, settledEquity: real, deploymentEquity: real, book: Book,
    appliedFills: set<FillIdentity>, appliedFunding: set<Text>,
    fillEvents: seq<FillAccounting>, fundingEvents: seq<FundingAccounting>,
    verifiedFills: seq<Fill>, verifiedFunding: seq<Funding>, pendingGross: map<Text, real>)

  function Initial(starting: real): Live {
    Live(starting, starting, starting, starting, EMPTY_BOOK, {}, {}, [], [], [], [], map[])
  }

  // --------------------------------------------------------------- operations

  predicate ValidFill(f: Fill) {
    && f.asset != [] && f.filledQuantity > 0.0 && f.averageFillPrice > 0.0 && f.submittedLimitPrice > 0.0
    && f.feeAsset != [] && f.referencePrice > 0.0 && f.equityAfter > 0.0 && f.occurredAt >= f.decidedAt
    && (f.identity.cloid == f.rootCloid || f.continuationGeneration > 0)
    && (f.continuationGeneration > 0 ==> f.parentCloid.Some?)
  }

  function Slippage(f: Fill): real {
    Product(Abs(f.averageFillPrice - f.referencePrice), f.filledQuantity)
  }

  function SignedQuantity(f: Fill): real {
    match f.side
    case Buy => f.filledQuantity
    case Sell => -f.filledQuantity
  }

  function ExecutionOf(f: Fill, before: real): Execution {
    Execution(
      f.asset, f.side, f.decision, f.identity.cloid, f.decidedAt, before, f.filledQuantity, Some(f.averageFillPrice),
      before + SignedQuantity(f), f.feeAmount, 0.0, Slippage(f))
  }

  /** What a fill does to the book, to the settled equity, and to the exchange
      profit waiting for its episode to close. */
  datatype Posting = Posting(book: Book, settled: real, pending: map<Text, real>, episode: Option<ClosedEpisode>)

  function Posted(s: Live, f: Fill): Result<Posting, LedgerError> {
    var r := Applied(s.book, ExecutionOf(f, Position(s.book.positions, f.asset)), f.occurredAt);
    var gross := Position(s.pendingGross, f.asset) + f.exchangeClosedPnl;
    if r.Err? then Err(r.error)
    else if |r.value.closed| <= |s.book.closed| then
      Ok(Posting(r.value, s.settledEquity, s.pendingGross[f.asset := gross], None))
    else
      var reconciled := Reconciled(r.value, f.asset, gross);
      if reconciled.Err? then Err(reconciled.error)
      else
        var episode := reconciled.value.closed[|reconciled.value.closed| - 1];
        Ok(Posting(reconciled.value, s.settledEquity + episode.netPnl, s.pendingGross - {f.asset}, Some(episode)))
  }

  datatype FillStep = FillStep(state: Live, result: FillResult)

  function WithFill(s: Live, f: Fill, p: Posting): FillStep {
    var before := Position(s.book.positions, f.asset);
    var deployment := Min(f.equityAfter, p.settled);
    var entry := FillAccounting(f, Slippage(f), before, before + SignedQuantity(f), f.equityAfter, p.settled,
        deployment);
    FillStep(
      s.(currentEquity := f.equityAfter, settledEquity := p.settled, deploymentEquity := deployment, book := p.book,
         appliedFills := s.appliedFills + {f.identity}, fillEvents := s.fillEvents + [entry],
         verifiedFills := s.verifiedFills + [f], pendingGross := p.pending),
      Accounted(entry, p.episode))
  }

  function FillOutcome(s: Live, f: Fill): Result<FillStep, LedgerError> {
    if !ValidFill(f) then Err(InvalidLiveEvent)
    else if f.identity in s.appliedFills then
      if f in s.verifiedFills then Ok(FillStep(s, FillAlreadyApplied)) else Err(InvalidLiveEvent)
    else
      var p := Posted(s, f);
      if p.Err? then Err(p.error)
      else if f.equityAfter <= 0.0 || p.value.settled <= 0.0 then Err(InvalidLiveEvent)
      else Ok(WithFill(s, f, p.value))
  }

  datatype FundingStep = FundingStep(state: Live, result: FundingResult)

  function WithFunding(s: Live, e: Funding, book: Book): FundingStep {
    var current := s.currentEquity + e.amount;
    var deployment := Min(current, s.settledEquity);
    var entry := FundingAccounting(e, current, s.settledEquity, deployment);
    FundingStep(
      s.(currentEquity := current, deploymentEquity := deployment, book := book,
         appliedFunding := s.appliedFunding + {e.eventId}, fundingEvents := s.fundingEvents + [entry],
         verifiedFunding := s.verifiedFunding + [e]),
      FundingAccounted(entry))
  }

  function FundingOutcome(s: Live, e: Funding): Result<FundingStep, LedgerError> {
    if e.asset == [] then Err(InvalidLiveEvent)
    else if e.eventId in s.appliedFunding then
      if e in s.verifiedFunding then Ok(FundingStep(s, FundingAlreadyApplied)) else Err(InvalidLiveEvent)
    else
      var book := Funded(s.book, e.asset, -e.amount);
      if book.Err? then Err(book.error)
      else if s.currentEquity + e.amount <= 0.0 then Err(InvalidLiveEvent)
      else Ok(WithFunding(s, e, book.value))
  }

  function EquityOutcome(s: Live, equity: real): Result<Live, LedgerError> {
    if equity <= 0.0 then Err(InvalidLiveEvent)
    else Ok(s.(currentEquity := equity, deploymentEquity := Min(equity, s.settledEquity)))
  }

  // --------------------------------------------------------------- invariants

  function Identities(events: seq<FillAccounting>): set<FillIdentity> {
    set e | e in events :: e.fill.identity
  }

  function EventIds(events: seq<FundingAccounting>): set<Text> {
    set e | e in events :: e.event.eventId
  }

  /** What `load` accepts. */
  ghost predicate Loadable(s: Live) {
    && s.startingEquity > 0.0 && s.currentEquity > 0.0 && s.settledEquity > 0.0
    && s.deploymentEquity == Min(s.currentEquity, s.settledEquity)
    && |Identities(s.fillEvents)| == |s.fillEvents| && Identities(s.fillEvents) == s.appliedFills
    && |EventIds(s.fundingEvents)| == |s.fundingEvents| && EventIds(s.fundingEvents) == s.appliedFunding
  }

  /** The journals hold exactly the fills and funding events applied. */
  ghost predicate Journalled(s: Live) {
    && s.verifiedFills == seq(|s.fillEvents|, i requires 0 <= i < |s.fillEvents| => s.fillEvents[i].fill)
    && s.verifiedFunding == seq(|s.fundingEvents|, i requires 0 <= i < |s.fundingEvents| => s.fundingEvents[i].event)
  }

  ghost predicate Consistent(s: Live) {
    && Sound(s.book) && DistinctIds(s.book)
    && s.pendingGross.Keys <= s.book.open.Keys
    && Loadable(s) && Journalled(s)
  }

  // ------------------------------------------------------------------- money

  function CostsBy(open: map<Text, OpenEpisode>): map<Text, real> {
    map a | a in open :: OpenCosts(open[a])
  }

  /** What one fill is worth to the settled equity, once its episode closes. */
  function Worth(f: Fill): real {
    f.exchangeClosedPnl - f.feeAmount - Product(Abs(f.averageFillPrice - f.referencePrice), f.filledQuantity)
  }

  function Worths(fills: seq<Fill>): real {
    if fills == [] then 0.0 else Worths(fills[..|fills| - 1]) + Worth(fills[|fills| - 1])
  }

  function Amounts(events: seq<Funding>): real {
    if events == [] then 0.0 else Amounts(events[..|events| - 1]) + events[|events| - 1].amount
  }

  ghost function Claims(settled: real, pending: map<Text, real>, book: Book): real {
    settled + Total(pending) - Total(CostsBy(book.open))
  }

  /** Settled equity, with what the open episodes have pending and less what they
      have cost, is the starting equity and what the distinct fills and funding
      events were worth. */
  ghost predicate Accounts(s: Live) {
    Claims(s.settledEquity, s.pendingGross, s.book) ==
        s.startingEquity + Worths(s.verifiedFills) + Amounts(s.verifiedFunding)
  }

  function CostAt(open: map<Text, OpenEpisode>, asset: Text): real {
    if asset in open then OpenCosts(open[asset]) else 0.0
  }

  function ClosedCosts(c: ClosedEpisode): real {
    c.fees + c.funding + c.slippage
  }

  /** An execution touches only its own asset, closes at most one episode, and
      its costs end up there or in that episode. */
  lemma CostsFollowTheFill(b: Book, e: Execution, closedAt: nat)
    requires Applied(b, e, closedAt).Ok? && e.filled != 0.0 && Sound(b)
    ensures var after := Applied(b, e, closedAt).value;
            && after.open - {e.asset} == b.open - {e.asset}
            && (if |after.closed| <= |b.closed| then
                  && after.closed == b.closed && e.asset in after.open
                  && CostAt(after.open, e.asset) == CostAt(b.open, e.asset) + Costs(e)
                else
                  && |after.closed| == |b.closed| + 1 && after.closed[..|b.closed|] == b.closed
                  && after.closed[|b.closed|].asset == e.asset
                  && CostAt(after.open, e.asset) + ClosedCosts(after.closed[|b.closed|]) ==
                      CostAt(b.open, e.asset) + Costs(e))
  {
    hide Product, Ratio, Balanced;
    var price := e.averagePrice.value;
    if SameDirection(Position(b.positions, e.asset), Delta(e)) {
      CostsOfWhole(e);
    } else {
      var fraction := Ratio(Closing(b.open[e.asset], e), Abs(Delta(e)));
      WholeIsOne(Abs(Delta(e)));
      CostsOfWhole(e);
      TwoShares(e.fees, fraction);
      TwoShares(e.funding, fraction);
      TwoShares(e.slippage, fraction);
    }
  }

  lemma CostsOfWhole(e: Execution)
    ensures Product(e.fees, 1.0) == e.fees && Product(e.funding, 1.0) == e.funding
              && Product(e.slippage, 1.0) == e.slippage
  {
  }

  lemma CostsElsewhere(open: map<Text, OpenEpisode>, asset: Text)
    ensures Total(CostsBy(open)) == Total(CostsBy(open - {asset})) + CostAt(open, asset)
  {
    if asset in open {
      assert CostsBy(open - {asset}) == CostsBy(open) - {asset};
      TotalSplit(CostsBy(open), asset);
    } else {
      assert open - {asset} == open;
    }
  }

  lemma PendingWithout(pending: map<Text, real>, asset: Text)
    ensures Total(pending - {asset}) == Total(pending) - Position(pending, asset)
  {
    if asset in pending { TotalSplit(pending, asset); } else { assert pending - {asset} == pending; }
  }

  // -------------------------------------------------------- one fill's effect

  lemma ReconcilingKeepsBook(b: Book, asset: Text, gross: real)
    requires Reconciled(b, asset, gross).Ok?
    ensures var after := Reconciled(b, asset, gross).value;
            && after.open == b.open && after.positions == b.positions && |after.closed| == |b.closed|
            && (Sound(b) ==> Sound(after)) && (DistinctIds(b) ==> DistinctIds(after))
            && after.closed[|b.closed| - 1].netPnl == gross - ClosedCosts(b.closed[|b.closed| - 1])
  {
  }

  /** On a sound book the ledger never refuses a valid fill. */
  lemma LedgerAccepts(b: Book, f: Fill)
    requires Sound(b) && ValidFill(f)
    ensures var e := ExecutionOf(f, Position(b.positions, f.asset));
            Applied(b, e, f.occurredAt).Ok? && e.filled != 0.0
  {
  }

  lemma ClaimsOfPosting(
    b: Book, after: Book, pending: map<Text, real>, asset: Text, settled: real, gross: real,
    costs: real, closedCosts: real)
    requires after.open - {asset} == b.open - {asset}
    requires CostAt(after.open, asset) + closedCosts == CostAt(b.open, asset) + costs
    ensures Claims(settled + Position(pending, asset) + gross - closedCosts, pending - {asset}, after) ==
              Claims(settled, pending, b) + gross - costs
    ensures closedCosts == 0.0 ==>
              Claims(settled, pending[asset := Position(pending, asset) + gross], after) ==
                  Claims(settled, pending, b) + gross - costs
  {
    CostsElsewhere(after.open, asset);
    CostsElsewhere(b.open, asset);
    PendingWithout(pending, asset);
    TotalInsert(pending, asset, Position(pending, asset) + gross);
    hide Total, CostsBy, CostAt;
  }

  lemma PostingFollows(s: Live, f: Fill)
    requires Consistent(s) && ValidFill(f)
    ensures Posted(s, f).Ok?
    ensures var p := Posted(s, f).value;
            && Sound(p.book) && DistinctIds(p.book) && p.pending.Keys <= p.book.open.Keys
            && Claims(p.settled, p.pending, p.book) == Claims(s.settledEquity, s.pendingGross, s.book) + Worth(f)
            && Position(p.book.positions, f.asset) == Position(s.book.positions, f.asset) + SignedQuantity(f)
  {
    hide Sound, DistinctIds, Loadable, Journalled, Applied, CostAt, ClosedCosts, Claims, Product, Abs;
    var e := ExecutionOf(f, Position(s.book.positions, f.asset));
    LedgerAccepts(s.book, f);
    ApplyingKeepsSound(s.book, e, f.occurredAt);
    ApplyingKeepsIds(s.book, e, f.occurredAt);
    CostsFollowTheFill(s.book, e, f.occurredAt);
    var after := Applied(s.book, e, f.occurredAt).value;
    var gross := Position(s.pendingGross, f.asset) + f.exchangeClosedPnl;
    if |after.closed| <= |s.book.closed| {
      ClaimsOfPosting(s.book, after, s.pendingGross, f.asset, s.settledEquity, f.exchangeClosedPnl, Costs(e), 0.0);
      PendingStaysOpen(s.book.open, after.open, s.pendingGross, f.asset, gross);
    } else {
      ReconcilingKeepsBook(after, f.asset, gross);
      ClaimsOfPosting(s.book, after, s.pendingGross, f.asset, s.settledEquity, f.exchangeClosedPnl, Costs(e),
                      ClosedCosts(after.closed[|s.book.closed|]));
      ClaimsIgnoreTheRest(Posted(s, f).value.settled, s.pendingGross - {f.asset}, after,
          Reconciled(after, f.asset, gross).value);
      PendingStaysOpen(s.book.open, after.open, s.pendingGross, f.asset, gross);
    }
  }

  lemma ClaimsIgnoreTheRest(settled: real, pending: map<Text, real>, b: Book, after: Book)
    requires b.open == after.open
    ensures Claims(settled, pending, b) == Claims(settled, pending, after)
  {
  }

  lemma PendingStaysOpen(
    before: map<Text, OpenEpisode>, after: map<Text, OpenEpisode>, pending: map<Text, real>, asset: Text, gross: real)
    requires pending.Keys <= before.Keys && after - {asset} == before - {asset}
    ensures (pending - {asset}).Keys <= after.Keys
    ensures asset in after ==> (pending[asset := gross]).Keys <= after.Keys
  {
    forall a | a in pending && a != asset ensures a in after {
      assert a in before - {asset};
      assert a in after - {asset};
    }
  }

  // ------------------------------------------------------------ journals grow

  lemma OneMoreIdentity(events: seq<FillAccounting>, entry: FillAccounting)
    ensures Identities(events + [entry]) == Identities(events) + {entry.fill.identity}
  {
    assert forall e :: e in events + [entry] <==> e in events || e == entry;
  }

  lemma OneMoreFill(s: Live, f: Fill, p: Posting)
    requires Loadable(s) && Journalled(s) && f.identity !in s.appliedFills
    requires f.equityAfter > 0.0 && p.settled > 0.0
    ensures Loadable(WithFill(s, f, p).state) && Journalled(WithFill(s, f, p).state)
  {
    hide Slippage, Identities;
    OneMoreIdentity(s.fillEvents, WithFill(s, f, p).state.fillEvents[|s.fillEvents|]);
  }

  lemma OneMoreFunding(s: Live, e: Funding, book: Book)
    requires Loadable(s) && Journalled(s) && e.eventId !in s.appliedFunding && s.currentEquity + e.amount > 0.0
    ensures Loadable(WithFunding(s, e, book).state) && Journalled(WithFunding(s, e, book).state)
  {
    var after := WithFunding(s, e, book).state;
    var entry := after.fundingEvents[|s.fundingEvents|];
    assert EventIds(after.fundingEvents) == EventIds(s.fundingEvents) + {e.eventId} by {
      assert forall x :: x in after.fundingEvents <==> x in s.fundingEvents || x == entry;
      assert entry in after.fundingEvents;
    }
  }

  lemma WorthsOneMore(fills: seq<Fill>, f: Fill)
    ensures Worths(fills + [f]) == Worths(fills) + Worth(f)
  {
  }

  lemma AmountsOneMore(events: seq<Funding>, e: Funding)
    ensures Amounts(events + [e]) == Amounts(events) + e.amount
  {
  }

  // ------------------------------------------------------------- single steps

  lemma FilledAccounts(s: Live, f: Fill, p: Posting)
    requires Consistent(s) && Accounts(s) && f.identity !in s.appliedFills && f.equityAfter > 0.0 && p.settled > 0.0
    requires Sound(p.book) && DistinctIds(p.book) && p.pending.Keys <= p.book.open.Keys
    requires Claims(p.settled, p.pending, p.book) == Claims(s.settledEquity, s.pendingGross, s.book) + Worth(f)
    ensures Consistent(WithFill(s, f, p).state) && Accounts(WithFill(s, f, p).state)
  {
    hide Sound, DistinctIds, Loadable, Journalled, Claims, Worth, Worths, Amounts, Slippage;
    OneMoreFill(s, f, p);
    WorthsOneMore(s.verifiedFills, f);
  }

  lemma FillKeepsAccounts(s: Live, f: Fill)
    requires Consistent(s) && Accounts(s) && FillOutcome(s, f).Ok?
    ensures Consistent(FillOutcome(s, f).value.state) && Accounts(FillOutcome(s, f).value.state)
  {
    hide Consistent, Accounts, Posted, Sound, DistinctIds, Claims, Worth, WithFill;
    if f.identity !in s.appliedFills {
      PostingFollows(s, f);
      FilledAccounts(s, f, Posted(s, f).value);
    }
  }

  lemma FundingClaims(settled: real, pending: map<Text, real>, b: Book, asset: Text, cost: real)
    requires asset in b.open
    ensures Claims(settled, pending, Funded(b, asset, cost).value) == Claims(settled, pending, b) - cost
    ensures Funded(b, asset, cost).value.open.Keys == b.open.Keys
  {
    var after := Funded(b, asset, cost).value.open;
    CostsElsewhere(b.open, asset);
    CostsElsewhere(after, asset);
    assert after - {asset} == b.open - {asset};
  }

  lemma FundedAccounts(s: Live, e: Funding, book: Book)
    requires Consistent(s) && Accounts(s) && e.eventId !in s.appliedFunding && s.currentEquity + e.amount > 0.0
    requires Sound(book) && DistinctIds(book) && book.open.Keys == s.book.open.Keys
    requires Claims(s.settledEquity, s.pendingGross, book) == Claims(s.settledEquity, s.pendingGross, s.book) + e.amount
    ensures Consistent(WithFunding(s, e, book).state) && Accounts(WithFunding(s, e, book).state)
  {
    hide Sound, DistinctIds, Loadable, Journalled, Claims, Worths, Amounts;
    OneMoreFunding(s, e, book);
    AmountsOneMore(s.verifiedFunding, e);
  }

  lemma ConsistentBook(s: Live)
    requires Consistent(s)
    ensures Sound(s.book) && DistinctIds(s.book)
  {
  }

  lemma FundingKeepsAccounts(s: Live, e: Funding)
    requires Consistent(s) && Accounts(s) && FundingOutcome(s, e).Ok?
    ensures Consistent(FundingOutcome(s, e).value.state) && Accounts(FundingOutcome(s, e).value.state)
  {
    hide Consistent, Accounts, Sound, DistinctIds, Claims, Funded, WithFunding;
    if e.eventId !in s.appliedFunding {
      ConsistentBook(s);
      FundedWhen(s.book, e.asset, -e.amount);
      FundingKeepsSound(s.book, e.asset, -e.amount);
      FundingClaims(s.settledEquity, s.pendingGross, s.book, e.asset, -e.amount);
      FundedAccounts(s, e, Funded(s.book, e.asset, -e.amount).value);
    }
  }

  lemma EquityKeepsAccounts(s: Live, equity: real)
    requires Consistent(s) && Accounts(s) && EquityOutcome(s, equity).Ok?
    ensures Consistent(EquityOutcome(s, equity).value) && Accounts(EquityOutcome(s, equity).value)
  {
  }

  // ---------------------------------------------------------------- whole runs

  datatype Operation = ExchangeFill(fill: Fill) | FundingEvent(event: Funding) | EquityReading(equity: real)

  function Outcome(s: Live, op: Operation): Result<Live, LedgerError> {
    match op
    case ExchangeFill(f) =>
      var r := FillOutcome(s, f);
      if r.Ok? then Ok(r.value.state) else Err(r.error)
    case FundingEvent(e) =>
      var r := FundingOutcome(s, e);
      if r.Ok? then Ok(r.value.state) else Err(r.error)
    case EquityReading(equity) => EquityOutcome(s, equity)
  }

  function After(s: Live, op: Operation): Live {
    var r := Outcome(s, op);
    if r.Ok? then r.value else s
  }

  function Run(starting: real, ops: seq<Operation>): Live {
    if ops == [] then Initial(starting) else After(Run(starting, ops[..|ops| - 1]), ops[|ops| - 1])
  }

  lemma StepKeepsAccounts(s: Live, op: Operation)
    requires Consistent(s) && Accounts(s)
    ensures Consistent(After(s, op)) && Accounts(After(s, op))
  {
    hide Consistent, Accounts, FillOutcome, FundingOutcome, EquityOutcome;
    if Outcome(s, op).Ok? {
      match op
      case ExchangeFill(f) => FillKeepsAccounts(s, f);
      case FundingEvent(e) => FundingKeepsAccounts(s, e);
      case EquityReading(equity) => EquityKeepsAccounts(s, equity);
    }
  }

  lemma InitialAccounts(starting: real)
    requires starting > 0.0
    ensures Consistent(Initial(starting)) && Accounts(Initial(starting))
  {
  }

  /** The money identity, over every run of fills, funding events and equity
      readings, with duplicates, conflicts and failures among them; `load` accepts
      every state such a run reaches. */
  lemma {:induction false} EveryRunAccounts(starting: real, ops: seq<Operation>)
    requires starting > 0.0
    ensures Consistent(Run(starting, ops)) && Accounts(Run(starting, ops))
  {
    if ops == [] {
      InitialAccounts(starting);
    } else {
      EveryRunAccounts(starting, ops[..|ops| - 1]);
      hide Consistent, Accounts, After;
      StepKeepsAccounts(Run(starting, ops[..|ops| - 1]), ops[|ops| - 1]);
    }
  }

  // ------------------------------------------------------------- exactly once

  /** The settled equity that a fill leads to: a fill that closes an episode adds
      the profit pending for it and its own, less what the episode has cost and
      what the fill costs in proportion to the quantity it closes. */
  function SettledAfter(s: Live, f: Fill): real {
    var before := Position(s.book.positions, f.asset);
    if !Closes(before, before + SignedQuantity(f)) || f.filledQuantity == 0.0 then s.settledEquity
    else
      s.settledEquity + Position(s.pendingGross, f.asset) + f.exchangeClosedPnl - CostAt(s.book.open, f.asset)
        - Product(f.feeAmount + Slippage(f), Ratio(Abs(before), f.filledQuantity))
  }

  lemma PostedSettles(s: Live, f: Fill)
    requires Consistent(s) && ValidFill(f)
    ensures Posted(s, f).Ok? && Posted(s, f).value.settled == SettledAfter(s, f)
  {
    hide Applied, Sound, DistinctIds, Loadable, Journalled, Slippage, Product, Ratio;
    PostingFollows(s, f);
    var before := Position(s.book.positions, f.asset);
    var e := ExecutionOf(f, before);
    LedgerAccepts(s.book, f);
    CostsFollowTheFill(s.book, e, f.occurredAt);
    ClosingRealisesTheSpread(s.book, e, f.occurredAt);
    if Closes(before, before + SignedQuantity(f)) { ClosingCosts(s.book, e, f.occurredAt); }
  }

  /** A fill is refused only when it is invalid, when its identity was applied
      with another payload, or when it would leave no settled equity; the ledger
      itself never refuses one. */
  lemma FillIsRefusedWhen(s: Live, f: Fill)
    requires Consistent(s)
    ensures ValidFill(f) ==> Posted(s, f).Ok?
    ensures FillOutcome(s, f).Err? <==>
              || f.asset == [] || f.feeAsset == [] || f.filledQuantity <= 0.0
              || f.averageFillPrice <= 0.0 || f.submittedLimitPrice <= 0.0 || f.referencePrice <= 0.0
              || f.equityAfter <= 0.0 || f.occurredAt < f.decidedAt
              || (f.identity.cloid != f.rootCloid && f.continuationGeneration == 0)
              || (f.parentCloid.None? && f.continuationGeneration > 0)
              || (f.identity in s.appliedFills && f !in s.verifiedFills)
              || (f.identity !in s.appliedFills && SettledAfter(s, f) <= 0.0)
    ensures FillOutcome(s, f).Err? ==> FillOutcome(s, f).error == InvalidLiveEvent
  {
    hide Consistent, Posted, SettledAfter;
    if ValidFill(f) { PostedSettles(s, f); }
  }

  /** A fill moves the settled equity exactly when it brings its position to zero
      or past it, and then by the closed episode's net profit, in which the
      exchange's own profit stands for the modelled one. */
  lemma SettledEquityMovesOnlyOnClose(s: Live, f: Fill)
    requires Consistent(s) && FillOutcome(s, f).Ok? && FillOutcome(s, f).value.result.Accounted?
    ensures var step := FillOutcome(s, f).value;
            var before := Position(s.book.positions, f.asset);
            var after := before + SignedQuantity(f);
            var closes := Closes(before, after);
            var episode := step.result.episode;
            && step.state.currentEquity == f.equityAfter && Position(step.state.book.positions, f.asset) == after
            && (episode.Some? <==> closes)
            && step.state.settledEquity == s.settledEquity + (if closes then episode.value.netPnl else 0.0)
            && (closes ==>
                  && episode.value.realizedPnl == Position(s.pendingGross, f.asset) + f.exchangeClosedPnl
                  && episode.value.netPnl ==
                       episode.value.realizedPnl - episode.value.fees - episode.value.funding - episode.value.slippage
                  && f.asset !in step.state.pendingGross)
  {
    hide Applied, Sound, DistinctIds, Loadable, Journalled, ValidFill, Slippage;
    assert f.identity !in s.appliedFills;
    var e := ExecutionOf(f, Position(s.book.positions, f.asset));
    LedgerAccepts(s.book, f);
    CostsFollowTheFill(s.book, e, f.occurredAt);
    ClosingRealisesTheSpread(s.book, e, f.occurredAt);
    PostingFollows(s, f);
  }

  ghost predicate HasFill(s: Live, f: Fill) {
    ValidFill(f) && f in s.verifiedFills && f.identity in s.appliedFills
  }

  ghost predicate HasFunding(s: Live, e: Funding) {
    e.asset != [] && e in s.verifiedFunding && e.eventId in s.appliedFunding
  }

  lemma FillsStay(s: Live, op: Operation)
    ensures forall f :: HasFill(s, f) ==> HasFill(After(s, op), f)
    ensures forall e :: HasFunding(s, e) ==> HasFunding(After(s, op), e)
    ensures op.ExchangeFill? && Outcome(s, op).Ok? && op.fill.identity !in s.appliedFills ==>
              HasFill(After(s, op), op.fill)
    ensures op.FundingEvent? && Outcome(s, op).Ok? && op.event.eventId !in s.appliedFunding ==>
              HasFunding(After(s, op), op.event)
  {
  }

  ghost predicate AllHeld(s: Live) {
    && (forall f :: f in s.verifiedFills ==> HasFill(s, f))
    && (forall e :: e in s.verifiedFunding ==> HasFunding(s, e))
  }

  lemma AllHeldIsKept(s: Live, op: Operation)
    requires AllHeld(s)
    ensures AllHeld(After(s, op))
  {
  }

  /** The state after the first operations of a run. */
  function At(starting: real, ops: seq<Operation>, i: nat): Live
    requires i <= |ops|
  {
    Run(starting, ops[..i])
  }

  lemma AtOneMore(starting: real, ops: seq<Operation>, i: nat)
    requires i < |ops|
    ensures At(starting, ops, i + 1) == After(At(starting, ops, i), ops[i])
  {
    assert ops[..i + 1][..i] == ops[..i];
  }

  lemma {:induction false} EveryRunHolds(starting: real, ops: seq<Operation>)
    ensures AllHeld(Run(starting, ops))
    decreases |ops|
  {
    hide AllHeld, After;
    if ops == [] {
      assert AllHeld(Initial(starting)) by { InitialHolds(starting); }
    } else {
      EveryRunHolds(starting, ops[..|ops| - 1]);
      AllHeldIsKept(Run(starting, ops[..|ops| - 1]), ops[|ops| - 1]);
    }
  }

  lemma InitialHolds(starting: real)
    ensures AllHeld(Initial(starting))
  {
  }

  lemma {:induction false} HeldForGood(starting: real, ops: seq<Operation>, i: nat, f: Fill)
    requires i <= |ops| && HasFill(At(starting, ops, i), f)
    ensures HasFill(Run(starting, ops), f)
    decreases |ops| - i
  {
    hide HasFill, After;
    if i == |ops| {
      assert ops[..i] == ops;
    } else {
      AtOneMore(starting, ops, i);
      FillsStay(At(starting, ops, i), ops[i]);
      HeldForGood(starting, ops, i + 1, f);
    }
  }

  lemma {:induction false} FundingHeldForGood(starting: real, ops: seq<Operation>, i: nat, e: Funding)
    requires i <= |ops| && HasFunding(At(starting, ops, i), e)
    ensures HasFunding(Run(starting, ops), e)
    decreases |ops| - i
  {
    hide HasFunding, After;
    if i == |ops| {
      assert ops[..i] == ops;
    } else {
      AtOneMore(starting, ops, i);
      FillsStay(At(starting, ops, i), ops[i]);
      FundingHeldForGood(starting, ops, i + 1, e);
    }
  }

  lemma FillIsHeldAfter(s: Live, op: Operation)
    requires AllHeld(s) && op.ExchangeFill? && Outcome(s, op).Ok?
    ensures HasFill(After(s, op), op.fill)
  {
  }

  lemma FundingIsHeldAfter(s: Live, op: Operation)
    requires AllHeld(s) && op.FundingEvent? && Outcome(s, op).Ok?
    ensures HasFunding(After(s, op), op.event)
  {
  }

  /** Exactly once: a fill accepted anywhere in a run is answered as already
      applied at its end, which changes nothing; and the journal holds no two
      fills of one identity. The same is true of funding events. */
  lemma AcceptedFillsAreAppliedOnce(starting: real, ops: seq<Operation>, i: nat)
    requires starting > 0.0 && i < |ops| && ops[i].ExchangeFill? && Outcome(At(starting, ops, i), ops[i]).Ok?
    ensures var s := Run(starting, ops);
            && FillOutcome(s, ops[i].fill) == Ok(FillStep(s, FillAlreadyApplied))
            && forall j, k :: 0 <= j < k < |s.verifiedFills| ==>
                s.verifiedFills[j].identity != s.verifiedFills[k].identity
  {
    hide Outcome, After, Consistent, AllHeld;
    EveryRunHolds(starting, ops[..i]);
    FillIsHeldAfter(At(starting, ops, i), ops[i]);
    AtOneMore(starting, ops, i);
    HeldForGood(starting, ops, i + 1, ops[i].fill);
    EveryRunAccounts(starting, ops);
    JournalIsDistinct(Run(starting, ops));
  }

  lemma AcceptedFundingIsAppliedOnce(starting: real, ops: seq<Operation>, i: nat)
    requires starting > 0.0 && i < |ops| && ops[i].FundingEvent? && Outcome(At(starting, ops, i), ops[i]).Ok?
    ensures var s := Run(starting, ops);
            && FundingOutcome(s, ops[i].event) == Ok(FundingStep(s, FundingAlreadyApplied))
            && forall j, k :: 0 <= j < k < |s.verifiedFunding| ==>
                s.verifiedFunding[j].eventId != s.verifiedFunding[k].eventId
  {
    hide Outcome, After, Consistent, AllHeld;
    EveryRunHolds(starting, ops[..i]);
    FundingIsHeldAfter(At(starting, ops, i), ops[i]);
    AtOneMore(starting, ops, i);
    FundingHeldForGood(starting, ops, i + 1, ops[i].event);
    EveryRunAccounts(starting, ops);
    JournalIsDistinct(Run(starting, ops));
  }

  ghost function Image<T, K>(s: seq<T>, key: T -> K): set<K> {
    set x | x in s :: key(x)
  }

  lemma ImageOneMore<T, K>(s: seq<T>, x: T, key: T -> K)
    ensures Image(s + [x], key) == Image(s, key) + {key(x)}
  {
  }

  /** A sequence with as many keys as elements repeats none. */
  lemma {:induction false} AsManyAsDistinct<T, K>(s: seq<T>, key: T -> K)
    ensures |Image(s, key)| <= |s|
    ensures |Image(s, key)| == |s| ==> forall j, k :: 0 <= j < k < |s| ==> key(s[j]) != key(s[k])
  {
    if s != [] {
      var front, last := s[..|s| - 1], s[|s| - 1];
      AsManyAsDistinct(front, key);
      assert s == front + [last];
      ImageOneMore(front, last, key);
      forall j | 0 <= j < |front| ensures key(s[j]) in Image(front, key) {
        assert s[j] == front[j] && front[j] in front;
      }
      hide Image;
    }
  }

  lemma JournalIsDistinct(s: Live)
    requires Consistent(s)
    ensures forall j, k :: 0 <= j < k < |s.verifiedFills| ==> s.verifiedFills[j].identity != s.verifiedFills[k].identity
    ensures forall j, k :: 0 <= j < k < |s.verifiedFunding| ==>
              s.verifiedFunding[j].eventId != s.verifiedFunding[k].eventId
  {
    hide Sound, DistinctIds;
    var fillKey := (e: FillAccounting) => e.fill.identity;
    var fundingKey := (e: FundingAccounting) => e.event.eventId;
    AsManyAsDistinct(s.fillEvents, fillKey);
    AsManyAsDistinct(s.fundingEvents, fundingKey);
    assert Image(s.fillEvents, fillKey) == Identities(s.fillEvents);
    assert Image(s.fundingEvents, fundingKey) == EventIds(s.fundingEvents);
  }

  lemma StepJournalsOnlyItsFill(s: Live, op: Operation, f: Fill)
    requires f in After(s, op).verifiedFills && f !in s.verifiedFills
    ensures op == ExchangeFill(f) && Outcome(s, op).Ok?
  {
  }

  /** Nothing else is journalled: every fill in the journal was accepted at some
      step of the run. */
  lemma {:induction false} JournalHoldsOnlyAcceptedFills(starting: real, ops: seq<Operation>, f: Fill)
    requires f in Run(starting, ops).verifiedFills
    ensures exists i :: 0 <= i < |ops| && ops[i] == ExchangeFill(f) && Outcome(At(starting, ops, i), ops[i]).Ok?
    decreases |ops|
  {
    if ops != [] {
      hide After, Outcome;
      var n := |ops| - 1;
      if f in Run(starting, ops[..n]).verifiedFills {
        JournalHoldsOnlyAcceptedFills(starting, ops[..n], f);
        var i :| 0 <= i < n && ops[i] == ExchangeFill(f) && Outcome(At(starting, ops[..n], i), ops[i]).Ok?;
        assert ops[..n][..i] == ops[..i];
        assert Outcome(At(starting, ops, i), ops[i]).Ok?;
      } else {
        StepJournalsOnlyItsFill(Run(starting, ops[..n]), ops[n], f);
        assert Outcome(At(starting, ops, n), ops[n]).Ok?;
      }
    }
  }

  // --------------------------------------------------------- the mutable state

  class LiveTradingState {
    var startingEquity: real
    var currentEquity: real
    var settledEquity: real
    var deploymentEquity: real
    var ledger: EpisodeBook
    var appliedFills: set<FillIdentity>
    var appliedFunding: set<Text>
    var fillEvents: seq<FillAccounting>
    var fundingEvents: seq<FundingAccounting>
    var verifiedFills: seq<Fill>
    var verifiedFunding: seq<Funding>
    var pendingGross: map<Text, real>

    function Contents(): Live
      reads this, ledger
    {
      Live(startingEquity, currentEquity, settledEquity, deploymentEquity, ledger.Contents(), appliedFills,
          appliedFunding,
           fillEvents, fundingEvents, verifiedFills, verifiedFunding, pendingGross)
    }

    constructor Start(starting: real)
      ensures fresh(ledger) && Contents() == Initial(starting)
    {
      startingEquity, currentEquity, settledEquity, deploymentEquity := starting, starting, starting, starting;
      ledger := new EpisodeBook();
      appliedFills, appliedFunding, fillEvents, fundingEvents := {}, {}, [], [];
      verifiedFills, verifiedFunding, pendingGross := [], [], map[];
    }

    static method New(starting: real) returns (r: Result<LiveTradingState, LedgerError>)
      ensures r.Ok? <==> starting > 0.0
      ensures r.Ok? ==> fresh(r.value) && fresh(r.value.ledger) && r.value.Contents() == Initial(starting)
      ensures r.Err? ==> r.error == InvalidLiveEvent
    {
      if starting <= 0.0 {
        return Err(InvalidLiveEvent);
      }
      var state := new LiveTradingState.Start(starting);
      r := Ok(state);
    }

    constructor Clone(other: LiveTradingState)
      ensures fresh(ledger) && Contents() == other.Contents()
    {
      startingEquity, currentEquity := other.startingEquity, other.currentEquity;
      settledEquity, deploymentEquity := other.settledEquity, other.deploymentEquity;
      ledger := new EpisodeBook.Clone(other.ledger);
      appliedFills, appliedFunding := other.appliedFills, other.appliedFunding;
      fillEvents, fundingEvents := other.fillEvents, other.fundingEvents;
      verifiedFills, verifiedFunding, pendingGross := other.verifiedFills, other.verifiedFunding, other.pendingGross;
    }

    method RecomputeDeployment()
      modifies `deploymentEquity
      ensures deploymentEquity == Min(currentEquity, settledEquity)
    {
      deploymentEquity := Min(currentEquity, settledEquity);
    }

    method ReconcileEquity(equity: real) returns (r: Result<(), LedgerError>)
      modifies `currentEquity, `deploymentEquity
      ensures var outcome := EquityOutcome(old(Contents()), equity);
              && r == (if outcome.Ok? then Ok(()) else Err(outcome.error))
              && Contents() == if outcome.Ok? then outcome.value else old(Contents())
    {
      if equity <= 0.0 {
        return Err(InvalidLiveEvent);
      }
      currentEquity := equity;
      RecomputeDeployment();
      r := Ok(());
    }

    /** The ledger and pending profit of a fill, posted to a copy of the ledger. */
    method Post(f: Fill) returns (r: Result<(EpisodeBook, Posting), LedgerError>)
      ensures var outcome := Posted(Contents(), f);
              if outcome.Ok? then
                r.Ok? && fresh(r.value.0) && r.value.1 == outcome.value && r.value.0.Contents() == outcome.value.book
              else r == Err(outcome.error)
    {
      hide Applied, Reconciled, Slippage;
      var next := new EpisodeBook.Clone(ledger);
      var before := if f.asset in next.positions then next.positions[f.asset] else 0.0;
      var closedBefore := |next.closed|;
      var applied := next.Apply(ExecutionOf(f, before), f.occurredAt);
      if applied.Err? {
        return Err(applied.error);
      }
      var gross := (if f.asset in pendingGross then pendingGross[f.asset] else 0.0) + f.exchangeClosedPnl;
      if |next.closed| <= closedBefore {
        return Ok((next, Posting(next.Contents(), settledEquity, pendingGross[f.asset := gross], None)));
      }
      ghost var applying := next.Contents();
      var reconciled := next.ReconcileLastGross(f.asset, gross);
      if reconciled.Err? {
        return Err(reconciled.error);
      }
      ReconcilingKeepsBook(applying, f.asset, gross);
      var episode := next.closed[|next.closed| - 1];
      r := Ok((next, Posting(next.Contents(), settledEquity + episode.netPnl, pendingGross - {f.asset},
          Some(episode))));
    }

    method CommitFill(f: Fill, next: EpisodeBook, posting: Posting) returns (r: FillResult)
      requires next.Contents() == posting.book
      modifies this
      ensures ledger == next
      ensures Contents() == WithFill(old(Contents()), f, posting).state
      ensures r == WithFill(old(Contents()), f, posting).result
    {
      hide Slippage, SignedQuantity, Min, Position;
      var before := Position(ledger.positions, f.asset);
      ledger, pendingGross := next, posting.pending;
      currentEquity, settledEquity := f.equityAfter, posting.settled;
      RecomputeDeployment();
      var entry := FillAccounting(
        f, Slippage(f), before, before + SignedQuantity(f), currentEquity, settledEquity, deploymentEquity);
      appliedFills := appliedFills + {f.identity};
      fillEvents := fillEvents + [entry];
      verifiedFills := verifiedFills + [f];
      r := Accounted(entry, posting.episode);
    }

    method ApplyExchangeFill(f: Fill) returns (r: Result<FillResult, LedgerError>)
      modifies this
      ensures ledger == old(ledger) || fresh(ledger)
      ensures var outcome := FillOutcome(old(Contents()), f);
              && r == (if outcome.Ok? then Ok(outcome.value.result) else Err(outcome.error))
              && Contents() == if outcome.Ok? then outcome.value.state else old(Contents())
    {
      hide Posted, WithFill, ValidFill;
      if !ValidFill(f) {
        return Err(InvalidLiveEvent);
      }
      if f.identity in appliedFills {
        return if f in verifiedFills then Ok(FillAlreadyApplied) else Err(InvalidLiveEvent);
      }
      var posted := Post(f);
      if posted.Err? {
        return Err(posted.error);
      }
      var (next, posting) := posted.value;
      if f.equityAfter <= 0.0 || posting.settled <= 0.0 {
        return Err(InvalidLiveEvent);
      }
      var result := CommitFill(f, next, posting);
      r := Ok(result);
    }

    method CommitFunding(e: Funding, next: EpisodeBook) returns (r: FundingResult)
      modifies this
      ensures ledger == next
      ensures Contents() == WithFunding(old(Contents()), e, next.Contents()).state
      ensures r == WithFunding(old(Contents()), e, next.Contents()).result
    {
      hide Min;
      ledger := next;
      currentEquity := currentEquity + e.amount;
      RecomputeDeployment();
      var entry := FundingAccounting(e, currentEquity, settledEquity, deploymentEquity);
      appliedFunding := appliedFunding + {e.eventId};
      fundingEvents := fundingEvents + [entry];
      verifiedFunding := verifiedFunding + [e];
      r := FundingAccounted(entry);
    }

    method ApplyFundingEvent(e: Funding) returns (r: Result<FundingResult, LedgerError>)
      modifies this
      ensures ledger == old(ledger) || fresh(ledger)
      ensures var outcome := FundingOutcome(old(Contents()), e);
              && r == (if outcome.Ok? then Ok(outcome.value.result) else Err(outcome.error))
              && Contents() == if outcome.Ok? then outcome.value.state else old(Contents())
      ensures r.Ok? ==>
                && currentEquity == old(currentEquity) + (if r.value.FundingAccounted? then e.amount else 0.0)
                && settledEquity == old(settledEquity)
    {
      hide Funded;
      if e.asset == [] {
        return Err(InvalidLiveEvent);
      }
      if e.eventId in appliedFunding {
        return if e in verifiedFunding then Ok(FundingAlreadyApplied) else Err(InvalidLiveEvent);
      }
      var next := new EpisodeBook.Clone(ledger);
      var funded := next.ApplyFunding(e.asset, -e.amount);
      if funded.Err? {
        return Err(funded.error);
      }
      if currentEquity + e.amount <= 0.0 {
        return Err(InvalidLiveEvent);
      }
      var result := CommitFunding(e, next);
      r := Ok(result);
    }
  }
}
