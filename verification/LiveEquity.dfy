/** What an accepted fill or funding event leaves in the trading state, and where
    the current equity of a whole run comes from. */
module LiveEquity {
  import opened Common
  import Ledger
  import EpisodeLaws
  import opened LiveTrading

  // ---------------------------------------------------------------- one step

  /** A funding event is refused without an asset, when its identifier was applied
      with another payload, without an open episode, or when it would leave no
      equity. */
  lemma FundingIsRefusedWhen(s: Live, e: Funding)
    ensures FundingOutcome(s, e).Err? <==>
              || e.asset == []
              || (e.eventId in s.appliedFunding && e !in s.verifiedFunding)
              || (e.eventId !in s.appliedFunding && (e.asset !in s.book.open || s.currentEquity + e.amount <= 0.0))
    ensures FundingOutcome(s, e) == Err(Ledger.PositionDivergence) <==>
              e.asset != [] && e.eventId !in s.appliedFunding && e.asset !in s.book.open
    ensures FundingOutcome(s, e).Err? ==>
              FundingOutcome(s, e).error in {Ledger.PositionDivergence, Ledger.InvalidLiveEvent}
  {
    hide WithFunding;
  }

  /** A new funding event moves the current equity by its amount, and the funding
      of the open episode the other way; settled equity, pending profit, positions
      and closed episodes stay. */
  lemma FundingReachesEquity(s: Live, e: Funding)
    requires e.eventId !in s.appliedFunding && FundingOutcome(s, e).Ok?
    ensures var after := FundingOutcome(s, e).value.state;
            && after.currentEquity == s.currentEquity + e.amount && after.settledEquity == s.settledEquity
            && after.deploymentEquity == Min(s.currentEquity + e.amount, s.settledEquity)
            && after.pendingGross == s.pendingGross && after.startingEquity == s.startingEquity
            && after.book.positions == s.book.positions && after.book.closed == s.book.closed
            && after.book.open.Keys == s.book.open.Keys && e.asset in s.book.open
            && (forall a :: a in s.book.open && a != e.asset ==> after.book.open[a] == s.book.open[a])
            && after.book.open[e.asset].funding == s.book.open[e.asset].funding - e.amount
    ensures var step := FundingOutcome(s, e).value;
            && step.state.fundingEvents == s.fundingEvents + [FundingAccounting(
                 e, step.state.currentEquity, step.state.settledEquity, step.state.deploymentEquity)]
            && step.result == FundingAccounted(step.state.fundingEvents[|s.fundingEvents|])
  {
  }

  /** A new fill is journalled with the positions before and after it, its distance
      from the reference price, and the three equities it leads to. */
  lemma FillIsJournalled(s: Live, f: Fill)
    requires Consistent(s) && f.identity !in s.appliedFills && FillOutcome(s, f).Ok?
    ensures var step := FillOutcome(s, f).value;
            && step.state.fillEvents == s.fillEvents + [FillAccounting(
                 f, Abs(f.averageFillPrice - f.referencePrice) * f.filledQuantity,
                 Ledger.Position(s.book.positions, f.asset), Ledger.Position(step.state.book.positions, f.asset),
                 step.state.currentEquity, step.state.settledEquity, step.state.deploymentEquity)]
            && step.result.Accounted? && step.result.accounting == step.state.fillEvents[|s.fillEvents|]
            && step.state.currentEquity == f.equityAfter
            && step.state.deploymentEquity == Min(f.equityAfter, step.state.settledEquity)
            && step.state.startingEquity == s.startingEquity
  {
    EpisodeLaws.ProductIsExact(Abs(f.averageFillPrice - f.referencePrice), f.filledQuantity);
    hide Posted, Ledger.Sound, Ledger.DistinctIds, Loadable, Journalled, Ledger.Product;
    PostingFollows(s, f);
  }

  lemma PositionIsHeld(s: Live, asset: Text)
    requires Consistent(s)
    ensures asset in s.book.open <==> Ledger.Position(s.book.positions, asset) != 0.0
  {
  }

  /** From no position, a fill opens an episode of its own decision and identity at
      its price, which bears its fee and its slippage. */
  lemma FillOpensAnEpisode(s: Live, f: Fill)
    requires Consistent(s) && f.identity !in s.appliedFills && FillOutcome(s, f).Ok?
    requires Ledger.Position(s.book.positions, f.asset) == 0.0
    ensures var after := FillOutcome(s, f).value.state.book;
            && f.asset in after.open && after.closed == s.book.closed
            && after.open[f.asset] == Ledger.OpenEpisode(
                 Ledger.EpisodeId(f.asset, f.decision, f.identity.cloid, s.book.nextSequence), f.asset, f.decidedAt,
                 f.decision, if f.side.Buy? then f.filledQuantity else -f.filledQuantity, f.averageFillPrice,
                 f.averageFillPrice * f.filledQuantity, 0.0, 0.0, f.feeAmount, 0.0,
                 Abs(f.averageFillPrice - f.referencePrice) * f.filledQuantity)
  {
    hide Ledger.Sound, Ledger.DistinctIds, Loadable, Journalled, Ledger.Product;
    EpisodeLaws.ProductIsExact(Abs(f.averageFillPrice - f.referencePrice), f.filledQuantity);
    EpisodeLaws.ProductIsExact(f.filledQuantity, f.averageFillPrice);
    Ledger.WholeShare(f.feeAmount);
    Ledger.WholeShare(0.0);
    Ledger.WholeShare(Slippage(f));
    assert f.asset !in s.book.open by { PositionIsHeld(s, f.asset); }
    var e := ExecutionOf(f, 0.0);
    assert Ledger.Applied(s.book, e, f.occurredAt).value.open[f.asset] ==
           Ledger.Opened(e, f.averageFillPrice, SignedQuantity(f), 1.0, s.book.nextSequence);
  }

  /** What a fill closes is the episode that was open, at the time of the fill. */
  lemma FillClosesItsEpisode(s: Live, f: Fill)
    requires Consistent(s) && f.identity !in s.appliedFills && FillOutcome(s, f).Ok?
    requires FillOutcome(s, f).value.result.Accounted? && FillOutcome(s, f).value.result.episode.Some?
    ensures var step := FillOutcome(s, f).value;
            var last := step.result.episode.value;
            && f.asset in s.book.open && step.state.book.closed == s.book.closed + [last]
            && last.id == s.book.open[f.asset].id && last.openedAt == s.book.open[f.asset].openedAt
            && last.closedAt == f.occurredAt
  {
    hide Ledger.Sound, Ledger.DistinctIds, Loadable, Journalled, Slippage, Ledger.Applied;
    var e := ExecutionOf(f, Ledger.Position(s.book.positions, f.asset));
    LedgerAccepts(s.book, f);
    CostsFollowTheFill(s.book, e, f.occurredAt);
    Ledger.ClosingRealisesTheSpread(s.book, e, f.occurredAt);
    EpisodeLaws.ClosingRealisesWhatWasHeld(s.book, e, f.occurredAt);
  }

  /** The exchange's profit on a fill waits under its asset until the episode
      closes; what waits for other assets stays. */
  lemma ProfitWaitsForItsEpisode(s: Live, f: Fill, asset: Text)
    requires Consistent(s) && f.identity !in s.appliedFills && FillOutcome(s, f).Ok?
    ensures var after := FillOutcome(s, f).value.state;
            var before := Ledger.Position(s.book.positions, f.asset);
            var closes := Ledger.Closes(before, Ledger.Position(after.book.positions, f.asset));
            Ledger.Position(after.pendingGross, asset) ==
              if asset != f.asset then Ledger.Position(s.pendingGross, asset)
              else if closes then 0.0 else Ledger.Position(s.pendingGross, asset) + f.exchangeClosedPnl
  {
    hide Ledger.Sound, Ledger.DistinctIds, Loadable, Journalled, Slippage, Ledger.Applied, Ledger.Closes;
    PostingFollows(s, f);
    SettledEquityMovesOnlyOnClose(s, f);
  }

  // ---------------------------------------------------------------- whole runs

  /** An accepted operation with which the exchange reports an equity. */
  predicate GivesFigure(s: Live, op: Operation) {
    && Outcome(s, op).Ok?
    && match op
       case ExchangeFill(f) => f.identity !in s.appliedFills
       case FundingEvent(_) => false
       case EquityReading(_) => true
  }

  function Figure(op: Operation): real
    requires !op.FundingEvent?
  {
    match op
    case ExchangeFill(f) => f.equityAfter
    case EquityReading(equity) => equity
  }

  /** The amount of a funding event accepted for the first time. */
  function NewFunding(s: Live, op: Operation): real {
    if op.FundingEvent? && op.event.eventId !in s.appliedFunding && Outcome(s, op).Ok? then op.event.amount else 0.0
  }

  /** What the operations from one place of a run up to another were funded. */
  function FundedBetween(starting: real, ops: seq<Operation>, first: nat, end: nat): real
    requires end <= |ops|
  {
    if end <= first then 0.0
    else FundedBetween(starting, ops, first, end - 1) + NewFunding(At(starting, ops, end - 1), ops[end - 1])
  }

  ghost predicate NoFigureFrom(starting: real, ops: seq<Operation>, first: nat) {
    forall j :: first <= j < |ops| ==> !GivesFigure(At(starting, ops, j), ops[j])
  }

  lemma EquityAfterStep(s: Live, op: Operation)
    ensures var after := After(s, op).currentEquity;
            after == if GivesFigure(s, op) then Figure(op) else s.currentEquity + NewFunding(s, op)
  {
    hide Posted, ValidFill, Ledger.Funded, Slippage;
  }

  lemma {:induction false} FundedSince(starting: real, ops: seq<Operation>, first: nat, end: nat)
    requires first <= end <= |ops| && NoFigureFrom(starting, ops, first)
    ensures At(starting, ops, end).currentEquity ==
              At(starting, ops, first).currentEquity + FundedBetween(starting, ops, first, end)
    decreases end
  {
    hide After, GivesFigure, NewFunding, At;
    if first < end {
      FundedSince(starting, ops, first, end - 1);
      AtOneMore(starting, ops, end - 1);
      EquityAfterStep(At(starting, ops, end - 1), ops[end - 1]);
    }
  }

  /** Over every run, the current equity is the exchange's last figure (a fill's or
      a reading's) and the amounts of the funding events accepted since. */
  lemma EquityIsTheLastFigureAndFunding(starting: real, ops: seq<Operation>, i: nat)
    requires i < |ops| && GivesFigure(At(starting, ops, i), ops[i]) && NoFigureFrom(starting, ops, i + 1)
    ensures Run(starting, ops).currentEquity == Figure(ops[i]) + FundedBetween(starting, ops, i + 1, |ops|)
  {
    hide After, GivesFigure;
    EquityAfterStep(At(starting, ops, i), ops[i]);
    AtOneMore(starting, ops, i);
    FundedSince(starting, ops, i + 1, |ops|);
    assert ops[..|ops|] == ops;
  }

  /** Before the first figure, that is the starting equity and those amounts. */
  lemma EquityBeforeAnyFigure(starting: real, ops: seq<Operation>)
    requires NoFigureFrom(starting, ops, 0)
    ensures Run(starting, ops).currentEquity == starting + FundedBetween(starting, ops, 0, |ops|)
  {
    hide After;
    FundedSince(starting, ops, 0, |ops|);
    assert ops[..|ops|] == ops && ops[..0] == [];
  }

  // ------------------------------------------------------------- the journal

  /** The entry holds a fill accepted in this state, the positions around it, and
      the equities it led to. */
  ghost predicate Records(x: FillAccounting, before: Live, op: Operation) {
    && op == ExchangeFill(x.fill) && Outcome(before, op).Ok?
    && var after := Outcome(before, op).value;
       && x.currentEquity == after.currentEquity && x.settledEquity == after.settledEquity
       && x.deploymentEquity == after.deploymentEquity
       && x.positionBefore == Ledger.Position(before.book.positions, x.fill.asset)
       && x.positionAfter == Ledger.Position(after.book.positions, x.fill.asset)
  }

  lemma NewEntryRecords(s: Live, op: Operation, x: FillAccounting)
    requires Consistent(s) && x in After(s, op).fillEvents && x !in s.fillEvents
    ensures Records(x, s, op)
  {
    hide Posted, Consistent, ValidFill, WithFunding, Ledger.Funded, Slippage;
    if op.ExchangeFill? && op.fill.identity !in s.appliedFills && FillOutcome(s, op.fill).Ok? {
      FillIsJournalled(s, op.fill);
    } else {
      NoEntryOtherwise(s, op);
      assert false;
    }
  }

  lemma NoEntryOtherwise(s: Live, op: Operation)
    ensures (op.ExchangeFill? && op.fill.identity !in s.appliedFills && FillOutcome(s, op.fill).Ok?)
            || After(s, op).fillEvents == s.fillEvents
  {
    hide Posted, ValidFill, Ledger.Funded, Slippage;
  }

  /** Every entry of the journal records one step of the run. */
  lemma {:induction false} JournalRecordsTheRun(starting: real, ops: seq<Operation>, x: FillAccounting)
    requires starting > 0.0 && x in Run(starting, ops).fillEvents
    ensures exists i :: 0 <= i < |ops| && Records(x, At(starting, ops, i), ops[i])
    decreases |ops|
  {
    if ops != [] {
      hide After, Records, Consistent;
      var n := |ops| - 1;
      if x in Run(starting, ops[..n]).fillEvents {
        JournalRecordsTheRun(starting, ops[..n], x);
        var i :| 0 <= i < n && Records(x, At(starting, ops[..n], i), ops[..n][i]);
        assert ops[..n][..i] == ops[..i];
        assert Records(x, At(starting, ops, i), ops[i]);
      } else {
        EveryRunAccounts(starting, ops[..n]);
        NewEntryRecords(Run(starting, ops[..n]), ops[n], x);
        assert Records(x, At(starting, ops, n), ops[n]);
      }
    }
  }
}
