/** What an accepted execution does to the episode behind its asset, in terms of
    the position before and after it, its price and its quantity. */
module EpisodeLaws {
  import opened Common
  import opened Ledger

  /** Fills something, on a sound book that accepts it. */
  ghost predicate Fills(b: Book, e: Execution, closedAt: nat) {
    Sound(b) && Applied(b, e, closedAt).Ok? && e.filled != 0.0
  }

  /** The position becomes smaller and stays on its side. */
  predicate Lessens(before: real, after: real) {
    0.0 < after < before || before < after < 0.0
  }

  predicate Grows(before: real, after: real) {
    0.0 < before < after || after < before < 0.0
  }

  predicate SameEpisode(was: OpenEpisode, next: OpenEpisode) {
    next.id == was.id && next.asset == was.asset && next.openedAt == was.openedAt && next.decision == was.decision
  }

  /** One unit's profit when what is held at an average is closed at a price. */
  function Spread(held: real, average: real, price: real): real {
    if held > 0.0 then price - average else average - price
  }

  /** An accepted execution has a price when it fills something, and is as large as
      the change of its position. */
  lemma AcceptedWhen(b: Book, e: Execution, closedAt: nat)
    requires Sound(b)
    ensures var change := match e.side case Buy => e.filled case Sell => -e.filled;
            Applied(b, e, closedAt).Ok? <==>
              && Position(b.positions, e.asset) == e.positionBefore
              && e.positionBefore + change == e.positionAfter
              && (e.filled != 0.0 ==> e.averagePrice.Some?)
    ensures Applied(b, e, closedAt) == Err(MissingFillPrice) <==>
              Position(b.positions, e.asset) == e.positionBefore && e.filled != 0.0 && e.averagePrice.None?
    ensures Applied(b, e, closedAt).Err? ==> Applied(b, e, closedAt).error in {MissingFillPrice, PositionDivergence}
    ensures e.filled == 0.0 && Applied(b, e, closedAt).Ok? ==> Applied(b, e, closedAt).value == b
  {
    hide Grown, Flipped, Balanced;
  }

  /** An execution touches one asset. */
  lemma OthersStay(b: Book, e: Execution, closedAt: nat)
    requires Fills(b, e, closedAt)
    ensures var after := Applied(b, e, closedAt).value;
            && after.open - {e.asset} == b.open - {e.asset}
            && after.positions - {e.asset} == b.positions - {e.asset}
            && Position(after.positions, e.asset) == e.positionAfter
            && (e.asset in after.open <==> e.positionAfter != 0.0)
            && (e.asset in after.open ==> after.open[e.asset].quantity == e.positionAfter)
            && |b.closed| <= |after.closed| && after.closed[..|b.closed|] == b.closed
  {
    hide Product, Ratio, Balanced;
  }

  /** Reducing a position, long or short, keeps the average entry and the entry
      notional, and realises the spread on what it filled. */
  lemma ReducingRealisesTheSpread(b: Book, e: Execution, closedAt: nat)
    requires Fills(b, e, closedAt) && Lessens(e.positionBefore, e.positionAfter)
    ensures var after := Applied(b, e, closedAt).value;
            && e.averagePrice.Some? && e.asset in b.open && e.asset in after.open
            && after.closed == b.closed && after.nextSequence == b.nextSequence
            && var was, next, price := b.open[e.asset], after.open[e.asset], e.averagePrice.value;
               && SameEpisode(was, next) && next.quantity == e.positionAfter
               && next.averageEntry == was.averageEntry && next.entryNotional == was.entryNotional
               && next.realizedPnl ==
                    was.realizedPnl + Spread(e.positionBefore, was.averageEntry, price) * Abs(e.filled)
               && next.exitNotional == was.exitNotional + price * Abs(e.filled)
  {
    hide Ratio, Balanced;
  }

  /** Enlarging a position realises nothing; its average entry is the mean of what
      was held and what was filled, by quantity. */
  lemma EnlargingAverages(b: Book, e: Execution, closedAt: nat)
    requires Fills(b, e, closedAt) && Grows(e.positionBefore, e.positionAfter)
    ensures var after := Applied(b, e, closedAt).value;
            && e.averagePrice.Some? && e.asset in b.open && e.asset in after.open
            && after.closed == b.closed && after.nextSequence == b.nextSequence
            && var was, next, price := b.open[e.asset], after.open[e.asset], e.averagePrice.value;
               && SameEpisode(was, next) && next.quantity == e.positionAfter
               && next.averageEntry * Abs(e.positionAfter) ==
                    was.averageEntry * Abs(e.positionBefore) + price * Abs(e.filled)
               && next.entryNotional == was.entryNotional + price * Abs(e.filled)
               && next.exitNotional == was.exitNotional && next.realizedPnl == was.realizedPnl
  {
    hide Balanced;
    var was, price := b.open[e.asset], e.averagePrice.value;
    DivideThenMultiply(Product(Abs(was.quantity), was.averageEntry) + Product(Abs(Delta(e)), price),
                       Abs(was.quantity) + Abs(Delta(e)));
  }

  /** What a new episode starts as: bought or sold at one price, nothing closed,
      and the next number in its identifier. */
  ghost predicate IsNew(o: OpenEpisode, e: Execution, sequence: nat) {
    && o.id == EpisodeId(e.asset, e.decision, e.cloid, sequence)
    && o.asset == e.asset && o.openedAt == e.decidedAt && o.decision == e.decision
    && o.quantity == e.positionAfter && Some(o.averageEntry) == e.averagePrice
    && o.entryNotional == o.averageEntry * Abs(e.positionAfter) && o.exitNotional == 0.0 && o.realizedPnl == 0.0
  }

  /** From no position a new episode is opened, and nothing is closed. */
  lemma OpeningStartsAnEpisode(b: Book, e: Execution, closedAt: nat)
    requires Fills(b, e, closedAt) && e.positionBefore == 0.0
    ensures var after := Applied(b, e, closedAt).value;
            && e.asset !in b.open && e.asset in after.open && IsNew(after.open[e.asset], e, b.nextSequence)
            && after.closed == b.closed && after.nextSequence == b.nextSequence + 1
  {
    hide Ratio, Balanced;
  }

  lemma ProductIsExact(x: real, y: real)
    ensures Product(x, y) == x * y
  {
  }

  /** Bringing a position to zero or past it closes its episode at the fill's
      price, the spread on all that was held being realised. */
  lemma ClosingRealisesWhatWasHeld(b: Book, e: Execution, closedAt: nat)
    requires Fills(b, e, closedAt) && Closes(e.positionBefore, e.positionAfter)
    ensures var after := Applied(b, e, closedAt).value;
            && e.averagePrice.Some? && e.asset in b.open && |after.closed| == |b.closed| + 1
            && var was, last, price := b.open[e.asset], after.closed[|b.closed|], e.averagePrice.value;
               && last.id == was.id && last.asset == was.asset && last.decision == was.decision
               && last.openedAt == was.openedAt && last.closedAt == closedAt
               && last.entryNotional == was.entryNotional
               && last.exitNotional == was.exitNotional + price * Abs(e.positionBefore)
               && last.realizedPnl ==
                    was.realizedPnl + Spread(e.positionBefore, was.averageEntry, price) * Abs(e.positionBefore)
               && last.netPnl == last.realizedPnl - last.fees - last.funding - last.slippage
  {
    hide Product, Ratio, Balanced, Shrunk, Finished, Reduced, Opened;
    var was, price := b.open[e.asset], e.averagePrice.value;
    ShrinkingCloses(b, e, price, closedAt);
    FinishedIs(was, e, price, Ratio(Abs(was.quantity), Abs(Delta(e))), closedAt);
  }

  lemma ShrinkingCloses(b: Book, e: Execution, price: real, closedAt: nat)
    requires Delta(e) != 0.0 && e.asset in b.open && Abs(b.open[e.asset].quantity) <= Abs(Delta(e))
    ensures var was := b.open[e.asset];
            var less := Reduced(was, e, price, Abs(was.quantity), Ratio(Abs(was.quantity), Abs(Delta(e))));
            Shrunk(b, e, price, closedAt).closed == b.closed + [Finished(less, closedAt)]
  {
    hide Product, Ratio, Finished;
  }

  lemma FinishedIs(o: OpenEpisode, e: Execution, price: real, fraction: real, closedAt: nat)
    ensures var last := Finished(Reduced(o, e, price, Abs(o.quantity), fraction), closedAt);
            && last.id == o.id && last.asset == o.asset && last.decision == o.decision
            && last.openedAt == o.openedAt && last.closedAt == closedAt && last.entryNotional == o.entryNotional
            && last.exitNotional == o.exitNotional + price * Abs(o.quantity)
            && (o.quantity != 0.0 ==>
                  last.realizedPnl == o.realizedPnl + Spread(o.quantity, o.averageEntry, price) * Abs(o.quantity))
            && last.netPnl == last.realizedPnl - last.fees - last.funding - last.slippage
  {
    hide Ratio;
    ProductIsExact(Spread(o.quantity, o.averageEntry, price), Abs(o.quantity));
    ProductIsExact(price, Abs(o.quantity));
    hide Product, Abs;
  }

  /** Past zero a new episode is opened with what is left; at zero none is. */
  lemma FlippingStartsAnEpisode(b: Book, e: Execution, closedAt: nat)
    requires Fills(b, e, closedAt) && Closes(e.positionBefore, e.positionAfter)
    ensures var after := Applied(b, e, closedAt).value;
            if e.positionAfter == 0.0 then e.asset !in after.open && after.nextSequence == b.nextSequence
            else
              && e.asset in after.open && IsNew(after.open[e.asset], e, b.nextSequence)
              && after.nextSequence == b.nextSequence + 1
  {
    hide Product, Ratio, Balanced;
    assert e.averagePrice.Some?;
    ProductIsExact(Abs(e.positionAfter), e.averagePrice.value);
  }

  // ------------------------------------------------------ costs, kind by kind

  datatype Kind = Fees | FundingPaid | Slippage

  function OfExecution(kind: Kind, e: Execution): real {
    match kind
    case Fees => e.fees
    case FundingPaid => e.funding
    case Slippage => e.slippage
  }

  function OfOpen(kind: Kind, o: OpenEpisode): real {
    match kind
    case Fees => o.fees
    case FundingPaid => o.funding
    case Slippage => o.slippage
  }

  function OfClosed(kind: Kind, c: ClosedEpisode): real {
    match kind
    case Fees => c.fees
    case FundingPaid => c.funding
    case Slippage => c.slippage
  }

  function PerAsset(kind: Kind, open: map<Text, OpenEpisode>): map<Text, real> {
    map a | a in open :: OfOpen(kind, open[a])
  }

  function OfAllClosed(kind: Kind, closed: seq<ClosedEpisode>): real {
    if closed == [] then 0.0
    else OfAllClosed(kind, closed[..|closed| - 1]) + OfClosed(kind, closed[|closed| - 1])
  }

  /** One kind of cost over every episode there ever was. */
  ghost function Borne(kind: Kind, b: Book): real {
    OfAllClosed(kind, b.closed) + Total(PerAsset(kind, b.open))
  }

  function At(kind: Kind, open: map<Text, OpenEpisode>, asset: Text): real {
    if asset in open then OfOpen(kind, open[asset]) else 0.0
  }

  lemma CostOfSteps(kind: Kind, o: OpenEpisode, e: Execution, price: real, quantity: real, fraction: real)
    ensures quantity != 0.0 ==>
              OfOpen(kind, Enlarged(o, e, price, quantity)) == OfOpen(kind, o) + Product(OfExecution(kind, e), 1.0)
    ensures OfOpen(kind, Reduced(o, e, price, quantity, fraction)) ==
              OfOpen(kind, o) + Product(OfExecution(kind, e), fraction)
    ensures forall sequence ::
              OfOpen(kind, Opened(e, price, quantity, fraction, sequence)) == Product(OfExecution(kind, e), fraction)
  {
    hide Product, Ratio, Abs;
  }

  lemma CostOfFinished(kind: Kind, o: OpenEpisode, closedAt: nat)
    ensures OfClosed(kind, Finished(o, closedAt)) == OfOpen(kind, o)
  {
  }

  lemma GrowingBears(kind: Kind, b: Book, e: Execution, price: real)
    requires Delta(e) != 0.0
    ensures At(kind, Grown(b, e, price).open, e.asset) == At(kind, b.open, e.asset) + OfExecution(kind, e)
    ensures Grown(b, e, price).closed == b.closed
  {
    hide Enlarged, Opened, OfOpen, OfExecution, Product;
    WholeShare(OfExecution(kind, e));
    if e.asset in b.open {
      CostOfSteps(kind, b.open[e.asset], e, price, Delta(e), 1.0);
    } else {
      var any: OpenEpisode := Opened(e, price, Delta(e), 1.0, 0);
      CostOfSteps(kind, any, e, price, Delta(e), 1.0);
    }
  }

  /** One kind of cost of the episode last closed, if that is new. */
  function Newly(kind: Kind, before: seq<ClosedEpisode>, after: seq<ClosedEpisode>): real {
    if |after| == |before| || after == [] then 0.0 else OfClosed(kind, after[|after| - 1])
  }

  lemma ShrinkingBears(kind: Kind, b: Book, e: Execution, price: real, closedAt: nat)
    requires Delta(e) != 0.0 && e.asset in b.open
    ensures var after := Shrunk(b, e, price, closedAt);
            var part := Product(OfExecution(kind, e), Ratio(Closing(b.open[e.asset], e), Abs(Delta(e))));
            && At(kind, after.open, e.asset) + Newly(kind, b.closed, after.closed) == At(kind, b.open, e.asset) + part
            && |after.closed| <= |b.closed| + 1 && |b.closed| <= |after.closed|
            && after.closed[..|b.closed|] == b.closed
  {
    hide Closing, OfOpen, OfClosed, OfExecution, Product, Ratio, Reduced, Finished;
    var o := b.open[e.asset];
    var fraction := Ratio(Closing(o, e), Abs(Delta(e)));
    CostOfSteps(kind, o, e, price, Closing(o, e), fraction);
    CostOfFinished(kind, Reduced(o, e, price, Closing(o, e), fraction), closedAt);
  }

  lemma FlippingBears(kind: Kind, b: Book, e: Execution, price: real, closedAt: nat)
    requires Delta(e) != 0.0 && e.asset in b.open
    ensures var after := Flipped(b, e, price, closedAt);
            && At(kind, after.open, e.asset) + Newly(kind, b.closed, after.closed) ==
                 At(kind, b.open, e.asset) + OfExecution(kind, e)
            && |after.closed| <= |b.closed| + 1 && |b.closed| <= |after.closed|
            && after.closed[..|b.closed|] == b.closed
  {
    hide OfOpen, OfClosed, OfExecution, Product, Ratio, Shrunk, Opened, Closing, Newly;
    var o := b.open[e.asset];
    var fill, closing := Abs(Delta(e)), Closing(o, e);
    var cost := OfExecution(kind, e);
    ShrinkingBears(kind, b, e, price, closedAt);
    if fill - closing == 0.0 {
      WholeIsOne(fill);
      WholeShare(cost);
    } else {
      TwoShares(cost, Ratio(closing, fill));
      OverfillCloses(b, e, price, closedAt);
      CostOfSteps(kind, o, e, price, if Delta(e) >= 0.0 then fill - closing else -(fill - closing),
        1.0 - Ratio(closing, fill));
    }
  }

  /** A fill's cost ends up whole with the episodes of its asset. */
  lemma CostIsBorne(kind: Kind, b: Book, e: Execution, closedAt: nat)
    requires Fills(b, e, closedAt)
    ensures var after := Applied(b, e, closedAt).value;
            && At(kind, after.open, e.asset) + Newly(kind, b.closed, after.closed) ==
                 At(kind, b.open, e.asset) + OfExecution(kind, e)
            && |after.closed| <= |b.closed| + 1 && |b.closed| <= |after.closed|
            && after.closed[..|b.closed|] == b.closed
  {
    hide Grown, Flipped, Sound, At, OfExecution;
    var price := e.averagePrice.value;
    if SameDirection(Position(b.positions, e.asset), Delta(e)) {
      GrowingBears(kind, b, e, price);
    } else {
      FlippingBears(kind, b, e, price, closedAt);
    }
  }

  lemma BorneElsewhere(kind: Kind, open: map<Text, OpenEpisode>, asset: Text)
    ensures Total(PerAsset(kind, open)) == Total(PerAsset(kind, open - {asset})) + At(kind, open, asset)
  {
    if asset in open {
      assert PerAsset(kind, open - {asset}) == PerAsset(kind, open) - {asset};
      TotalSplit(PerAsset(kind, open), asset);
    } else {
      assert open - {asset} == open;
    }
  }

  lemma FillingBears(kind: Kind, b: Book, e: Execution, closedAt: nat)
    requires Fills(b, e, closedAt)
    ensures Borne(kind, Applied(b, e, closedAt).value) == Borne(kind, b) + OfExecution(kind, e)
  {
    hide Applied, Sound, PerAsset, Total;
    var after := Applied(b, e, closedAt).value;
    CostIsBorne(kind, b, e, closedAt);
    OthersStay(b, e, closedAt);
    BorneElsewhere(kind, b.open, e.asset);
    BorneElsewhere(kind, after.open, e.asset);
    OneMoreClosed(kind, b.closed, after.closed);
    hide OfOpen, OfExecution, OfClosed, At, OfAllClosed, Newly;
  }

  lemma OneMoreClosed(kind: Kind, before: seq<ClosedEpisode>, after: seq<ClosedEpisode>)
    requires |before| <= |after| <= |before| + 1 && after[..|before|] == before
    ensures OfAllClosed(kind, after) == OfAllClosed(kind, before) + Newly(kind, before, after)
  {
    if |after| == |before| { assert after == before; }
  }

  lemma FundingBears(kind: Kind, b: Book, asset: Text, cost: real)
    requires asset in b.open
    ensures Borne(kind, Funded(b, asset, cost).value) == Borne(kind, b) + if kind.FundingPaid? then cost else 0.0
  {
    var after := Funded(b, asset, cost).value;
    assert after.open - {asset} == b.open - {asset};
    BorneElsewhere(kind, b.open, asset);
    BorneElsewhere(kind, after.open, asset);
    hide Total, PerAsset;
  }

  /** One kind of cost over the accepted events of a run. */
  function Charged(kind: Kind, events: seq<Event>): real {
    if events == [] then 0.0
    else
      var before, last := Run(events[..|events| - 1]), events[|events| - 1];
      Charged(kind, events[..|events| - 1]) +
        if Outcome(before, last).Err? then 0.0
        else match last
             case Fill(e, _) => if e.filled == 0.0 then 0.0 else OfExecution(kind, e)
             case Funding(_, cost) => if kind.FundingPaid? then cost else 0.0
  }

  lemma NothingBorne(kind: Kind)
    ensures Borne(kind, EMPTY_BOOK) == 0.0
  {
  }

  /** Fees, funding and slippage are each conserved: over every run, what all
      episodes have cost of one kind is what the accepted events charged of it. */
  lemma {:induction false} EveryRunBearsEachCost(kind: Kind, events: seq<Event>)
    ensures Borne(kind, Run(events)) == Charged(kind, events)
  {
    if events == [] {
      NothingBorne(kind);
    } else {
      var before, last := Run(events[..|events| - 1]), events[|events| - 1];
      EveryRunBearsEachCost(kind, events[..|events| - 1]);
      EveryRunConserves(events[..|events| - 1]);
      RunOneMore(events);
      hide Run, Sound, DistinctIds, Booked, Applied, Agrees, Funded, Borne, OfExecution, CashFlows;
      if Outcome(before, last).Ok? {
        match last
        case Fill(e, closedAt) =>
          if e.filled != 0.0 { FillingBears(kind, before, e, closedAt); } else { AcceptedWhen(before, e, closedAt); }
        case Funding(asset, cost) =>
          FundedWhen(before, asset, cost);
          FundingBears(kind, before, asset, cost);
      }
    }
  }
}
