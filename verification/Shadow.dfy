/** `crates/copytrade-core/src/shadow.rs`: pricing a marketable
    immediate-or-cancel order against visible depth, and walking that depth to
    model its execution. */
module Shadow {
  import opened Common

  datatype Side = Buy | Sell

  datatype DepthLevel = DepthLevel(price: real, quantity: real)

  datatype Snapshot = Snapshot(observedAt: nat, midpoint: real, bids: seq<DepthLevel>, asks: seq<DepthLevel>)

  datatype ShadowError =
    | InvalidInput
    | InvalidBook
    | SnapshotTooEarly
    | ArithmeticOverflow

  datatype PricingMode = CompleteVisibleDepth | BoundedReferenceFallback

  datatype IocPlan = IocPlan(
    limitPrice: real,
    requestedQuantity: real,
    visibleExecutableQuantity: real,
    worstRequiredDepthPrice: Option<real>,
    pricingMode: PricingMode)

  datatype ExecutionInput = ExecutionInput(
    side: Side,
    decisionTimestamp: nat,
    decisionSnapshot: Snapshot,
    evaluationSnapshot: Snapshot,
    configuredLatency: nat,
    limitPrice: real,
    quantity: real,
    takerFeeRate: real,
    positionBefore: real)

  datatype Execution = Execution(
    filledQuantity: real,
    averageFillPrice: Option<real>,
    unfilledRemainder: real,
    filledNotional: real,
    fees: real,
    slippage: real,
    positionAfter: real)

  const TIMESTAMP_LIMIT: nat := 0x1_0000_0000_0000_0000

  // ------------------------------------------------------------------- books

  ghost predicate PositiveDepth(levels: seq<DepthLevel>) {
    forall i :: 0 <= i < |levels| ==> levels[i].price > 0.0 && levels[i].quantity > 0.0
  }

  /** `a` is a strictly better price to trade at than `b`. */
  predicate Better(side: Side, a: real, b: real) {
    match side
    case Buy => a < b
    case Sell => a > b
  }

  predicate WithinLimit(side: Side, price: real, limit: real) {
    !Better(side, limit, price)
  }

  /** Strictly worsening prices away from the top of the book. */
  ghost predicate StrictlyWorsening(side: Side, levels: seq<DepthLevel>) {
    forall i, j :: 0 <= i < j < |levels| ==> Better(side, levels[i].price, levels[j].price)
  }

  ghost predicate ValidSide(side: Side, levels: seq<DepthLevel>) {
    PositiveDepth(levels) && StrictlyWorsening(side, levels)
  }

  ghost predicate ValidBook(snapshot: Snapshot) {
    ValidSide(Buy, snapshot.asks) && ValidSide(Sell, snapshot.bids)
  }

  function Executable(side: Side, snapshot: Snapshot): seq<DepthLevel> {
    match side
    case Buy => snapshot.asks
    case Sell => snapshot.bids
  }

  /** The source compares neighbouring levels only. */
  predicate NeighboursWorsen(side: Side, levels: seq<DepthLevel>) {
    forall i :: 0 <= i < |levels| - 1 ==> Better(side, levels[i].price, levels[i + 1].price)
  }

  predicate AnyNonPositive(levels: seq<DepthLevel>) {
    exists i :: 0 <= i < |levels| && (levels[i].price <= 0.0 || levels[i].quantity <= 0.0)
  }

  lemma {:induction false} NeighboursDecideOrder(side: Side, levels: seq<DepthLevel>)
    ensures NeighboursWorsen(side, levels) <==> StrictlyWorsening(side, levels)
  {
    if NeighboursWorsen(side, levels) && |levels| > 1 {
      var init := levels[..|levels| - 1];
      assert NeighboursWorsen(side, init);
      NeighboursDecideOrder(side, init);
      forall i, j | 0 <= i < j < |levels| ensures Better(side, levels[i].price, levels[j].price) {
        if j < |init| {
          assert levels[i] == init[i] && levels[j] == init[j];
        } else if i < j - 1 {
          assert levels[i] == init[i] && levels[j - 1] == init[j - 1];
          assert Better(side, init[i].price, init[j - 1].price);
          assert Better(side, levels[j - 1].price, levels[j].price);
        }
      }
    }
    if StrictlyWorsening(side, levels) {
      forall i | 0 <= i < |levels| - 1 ensures Better(side, levels[i].price, levels[i + 1].price) {
      }
    }
  }

  function ValidateBook(snapshot: Snapshot): (r: Result<(), ShadowError>)
    ensures r.Ok? <==> ValidBook(snapshot)
    ensures r.Err? ==> r.error == InvalidBook
  {
    NeighboursDecideOrder(Sell, snapshot.bids);
    NeighboursDecideOrder(Buy, snapshot.asks);
    if AnyNonPositive(snapshot.bids) || AnyNonPositive(snapshot.asks) then Err(InvalidBook)
    else if !NeighboursWorsen(Sell, snapshot.bids) then Err(InvalidBook)
    else if !NeighboursWorsen(Buy, snapshot.asks) then Err(InvalidBook)
    else Ok(())
  }

  // ------------------------------------------- reference meaning of depth

  /** Everything a side offers at a price within the limit, wherever it stands
      in the book. */
  function DepthWithin(side: Side, levels: seq<DepthLevel>, limit: real): real {
    if levels == [] then 0.0
    else (if WithinLimit(side, levels[0].price, limit) then levels[0].quantity else 0.0)
         + DepthWithin(side, levels[1..], limit)
  }

  function TotalDepth(levels: seq<DepthLevel>): real {
    if levels == [] then 0.0 else levels[0].quantity + TotalDepth(levels[1..])
  }

  /** One way of taking quantity from a book: how much from each level. */
  ghost predicate Allocation(levels: seq<DepthLevel>, taken: seq<real>) {
    |taken| == |levels| && forall i :: 0 <= i < |levels| ==> 0.0 <= taken[i] <= levels[i].quantity
  }

  ghost function Quantity(taken: seq<real>): real {
    if taken == [] then 0.0 else taken[0] + Quantity(taken[1..])
  }

  function Notional(quantity: real, price: real): real {
    quantity * price
  }

  /** What an allocation costs on a buy, or earns on a sell. */
  ghost function Value(levels: seq<DepthLevel>, taken: seq<real>): real
    requires |taken| == |levels|
  {
    if levels == [] then 0.0 else Notional(taken[0], levels[0].price) + Value(levels[1..], taken[1..])
  }

  // -------------------------------------------------------- the greedy walk

  /** What the execution loop takes from each level. */
  function Walk(side: Side, levels: seq<DepthLevel>, limit: real, quantity: real): (taken: seq<real>)
    ensures |taken| == |levels|
  {
    if levels == [] then []
    else if !WithinLimit(side, levels[0].price, limit) || quantity == 0.0 then seq(|levels|, _ => 0.0)
    else
      var here := Min(quantity, levels[0].quantity);
      [here] + Walk(side, levels[1..], limit, quantity - here)
  }

  lemma {:induction false} Nothing(levels: seq<DepthLevel>, taken: seq<real>)
    requires |taken| == |levels| && forall i :: 0 <= i < |taken| ==> taken[i] == 0.0
    ensures Quantity(taken) == 0.0 && Value(levels, taken) == 0.0
  {
    if levels != [] {
      Nothing(levels[1..], taken[1..]);
    }
  }

  lemma {:induction false} NoDepthBeyondLimit(side: Side, levels: seq<DepthLevel>, limit: real)
    requires ValidSide(side, levels)
    requires levels != [] ==> !WithinLimit(side, levels[0].price, limit)
    ensures DepthWithin(side, levels, limit) == 0.0
  {
    if |levels| > 1 {
      assert Better(side, levels[0].price, levels[1].price);
      NoDepthBeyondLimit(side, levels[1..], limit);
    }
  }

  lemma {:induction false} DepthIsNonNegative(side: Side, levels: seq<DepthLevel>, limit: real)
    requires PositiveDepth(levels)
    ensures DepthWithin(side, levels, limit) >= 0.0
  {
    if levels != [] {
      DepthIsNonNegative(side, levels[1..], limit);
    }
  }

  /** The walk is an allocation; it fills the smaller of the request and the
      whole depth within the limit. */
  lemma {:induction false} WalkFillsWhatIsThere(side: Side, levels: seq<DepthLevel>, limit: real, quantity: real)
    requires ValidSide(side, levels) && quantity >= 0.0
    ensures Allocation(levels, Walk(side, levels, limit, quantity))
    ensures Quantity(Walk(side, levels, limit, quantity)) == Min(quantity, DepthWithin(side, levels, limit))
  {
    var taken := Walk(side, levels, limit, quantity);
    if levels != [] {
      DepthIsNonNegative(side, levels, limit);
      if !WithinLimit(side, levels[0].price, limit) {
        NoDepthBeyondLimit(side, levels, limit);
        Nothing(levels, taken);
      } else if quantity == 0.0 {
        Nothing(levels, taken);
      } else {
        var here := Min(quantity, levels[0].quantity);
        WalkFillsWhatIsThere(side, levels[1..], limit, quantity - here);
        DepthIsNonNegative(side, levels[1..], limit);
        assert taken[1..] == Walk(side, levels[1..], limit, quantity - here);
      }
    }
  }

  // ------------------------------------------------------------- optimality

  /** `taken` is everything better than `margin` and nothing worse. */
  ghost predicate CutAt(side: Side, levels: seq<DepthLevel>, taken: seq<real>, margin: real) {
    && Allocation(levels, taken)
    && forall i :: 0 <= i < |levels| ==>
         && (Better(side, levels[i].price, margin) ==> taken[i] == levels[i].quantity)
         && (Better(side, margin, levels[i].price) ==> taken[i] == 0.0)
  }

  lemma ExchangeOne(side: Side, price: real, margin: real, cut: real, other: real, available: real)
    requires 0.0 <= other <= available
    requires Better(side, price, margin) ==> cut == available
    requires Better(side, margin, price) ==> cut == 0.0
    ensures NoBetterThan(side, (other - cut) * price, other - cut, margin)
  {
    var d := other - cut;
    if price == margin {
    } else if Better(side, price, margin) {
      assert d <= 0.0;
      if side == Buy { assert d * (price - margin) >= 0.0; } else { assert d * (price - margin) <= 0.0; }
    } else {
      assert d >= 0.0;
      if side == Buy { assert d * (price - margin) >= 0.0; } else { assert d * (price - margin) <= 0.0; }
    }
    assert d * (price - margin) == d * price - d * margin;
  }

  /** `value` is at least as good as `quantity` units at the margin. */
  ghost predicate NoBetterThan(side: Side, value: real, quantity: real, margin: real) {
    match side
    case Buy => value >= quantity * margin
    case Sell => value <= quantity * margin
  }

  lemma NoBetterThanAdds(side: Side, v: real, q: real, w: real, p: real, margin: real)
    requires NoBetterThan(side, v, q, margin) && NoBetterThan(side, w, p, margin)
    ensures NoBetterThan(side, v + w, q + p, margin)
  {
  }

  /** The extra value another allocation has over `cut`, level by level. */
  ghost function ExtraValue(levels: seq<DepthLevel>, cut: seq<real>, other: seq<real>): real
    requires |cut| == |levels| == |other|
  {
    if levels == [] then 0.0
    else Notional(other[0] - cut[0], levels[0].price) + ExtraValue(levels[1..], cut[1..], other[1..])
  }

  lemma {:induction false} ExtraValueIsTheDifference(levels: seq<DepthLevel>, cut: seq<real>, other: seq<real>)
    requires |cut| == |levels| == |other|
    ensures ExtraValue(levels, cut, other) == Value(levels, other) - Value(levels, cut)
  {
    if levels != [] {
      ExtraValueIsTheDifference(levels[1..], cut[1..], other[1..]);
      DistributeDifference(other[0], cut[0], levels[0].price);
    }
  }

  /** Against any other allocation, a cut is at least as good once the
      difference in quantity is priced at the margin. */
  lemma {:induction false} CutBeatsMargin(
    side: Side, levels: seq<DepthLevel>, cut: seq<real>, other: seq<real>, margin: real)
    requires CutAt(side, levels, cut, margin) && Allocation(levels, other)
    ensures NoBetterThan(side, ExtraValue(levels, cut, other), Quantity(other) - Quantity(cut), margin)
  {
    if levels != [] {
      CutBeatsMargin(side, levels[1..], cut[1..], other[1..], margin);
      ExchangeOne(side, levels[0].price, margin, cut[0], other[0], levels[0].quantity);
      NoBetterThanAdds(side, (other[0] - cut[0]) * levels[0].price, other[0] - cut[0],
        ExtraValue(levels[1..], cut[1..], other[1..]), Quantity(other[1..]) - Quantity(cut[1..]), margin);
    }
  }

  /** Where the walk stops: at its limit, or at the level that completed it. */
  lemma {:induction false} WalkIsACut(side: Side, levels: seq<DepthLevel>, limit: real, quantity: real)
    returns (margin: real)
    requires ValidSide(side, levels) && quantity > 0.0
    ensures CutAt(side, levels, Walk(side, levels, limit, quantity), margin)
    ensures margin == limit || exists i :: 0 <= i < |levels| && levels[i].price == margin
  {
    WalkFillsWhatIsThere(side, levels, limit, quantity);
    var taken := Walk(side, levels, limit, quantity);
    margin := limit;
    if levels != [] && WithinLimit(side, levels[0].price, limit) {
      var here := Min(quantity, levels[0].quantity);
      var rest := Walk(side, levels[1..], limit, quantity - here);
      assert taken == [here] + rest;
      if quantity <= levels[0].quantity {
        margin := levels[0].price;
        forall i | 1 <= i < |levels| ensures taken[i] == 0.0 {
          assert taken[i] == rest[i - 1];
        }
      } else {
        margin := WalkIsACut(side, levels[1..], limit, quantity - here);
        forall i | 1 <= i < |levels|
          ensures Better(side, levels[i].price, margin) ==> taken[i] == levels[i].quantity
          ensures Better(side, margin, levels[i].price) ==> taken[i] == 0.0
        {
          assert levels[i] == levels[1..][i - 1] && taken[i] == rest[i - 1];
        }
        if margin != limit {
          var i :| 0 <= i < |levels[1..]| && levels[1..][i].price == margin;
          assert levels[i + 1].price == margin;
        }
      }
    } else if levels != [] {
      forall i | 0 <= i < |levels| ensures taken[i] == 0.0 && !Better(side, levels[i].price, margin) {
        if i > 0 { assert Better(side, levels[0].price, levels[i].price); }
      }
    }
  }

  lemma CutIsOptimal(side: Side, levels: seq<DepthLevel>, cut: seq<real>, other: seq<real>, margin: real)
    requires CutAt(side, levels, cut, margin) && Allocation(levels, other)
    requires Quantity(other) == Quantity(cut)
    ensures side == Buy ==> Value(levels, cut) <= Value(levels, other)
    ensures side == Sell ==> Value(levels, cut) >= Value(levels, other)
  {
    assert |cut| == |levels| == |other|;
    hide CutAt, Allocation, Quantity, Value, ExtraValue, NoBetterThan;
    CutBeatsMargin(side, levels, cut, other, margin);
    ExtraValueIsTheDifference(levels, cut, other);
    NoneForNothing(side, ExtraValue(levels, cut, other), margin);
  }

  lemma NoneForNothing(side: Side, value: real, margin: real)
    requires NoBetterThan(side, value, 0.0, margin)
    ensures side == Buy ==> value >= 0.0
    ensures side == Sell ==> value <= 0.0
  {
  }

  /** No other way of taking the filled quantity from the book costs less on a
      buy or earns more on a sell. */
  lemma GreedyWalkIsOptimal(side: Side, levels: seq<DepthLevel>, limit: real, quantity: real, other: seq<real>)
    requires ValidSide(side, levels) && quantity > 0.0
    requires Allocation(levels, other)
    requires Quantity(other) == Quantity(Walk(side, levels, limit, quantity))
    ensures side == Buy ==> Value(levels, Walk(side, levels, limit, quantity)) <= Value(levels, other)
    ensures side == Sell ==> Value(levels, Walk(side, levels, limit, quantity)) >= Value(levels, other)
  {
    var margin := WalkIsACut(side, levels, limit, quantity);
    CutIsOptimal(side, levels, Walk(side, levels, limit, quantity), other, margin);
  }

  // ------------------------------------------------------ shadow execution

  predicate RejectedInput(input: ExecutionInput) {
    input.quantity <= 0.0 || input.limitPrice <= 0.0 || input.takerFeeRate < 0.0 ||
    input.decisionSnapshot.midpoint <= 0.0
  }

  ghost predicate ExecutionAccepted(input: ExecutionInput) {
    && input.quantity > 0.0 && input.limitPrice > 0.0 && input.takerFeeRate >= 0.0
    && input.decisionSnapshot.midpoint > 0.0
    && ValidBook(input.decisionSnapshot)
    && ValidBook(input.evaluationSnapshot)
    && input.decisionTimestamp + input.configuredLatency < TIMESTAMP_LIMIT
    && input.decisionTimestamp + input.configuredLatency <= input.evaluationSnapshot.observedAt
  }

  /** What an accepted execution reports, said of the book rather than of the
      walk: the quantity is all there is within the limit up to the request, and
      its notional is the best any allocation of that quantity could have. */
  ghost predicate Executed(input: ExecutionInput, e: Execution) {
    var levels := Executable(input.side, input.evaluationSnapshot);
    && e.filledQuantity == Min(input.quantity, DepthWithin(input.side, levels, input.limitPrice))
    && e.filledQuantity + e.unfilledRemainder == input.quantity
    && BestNotional(input.side, levels, e.filledQuantity, e.filledNotional)
    && (e.averageFillPrice.None? <==> e.filledQuantity == 0.0)
    && (e.averageFillPrice.Some? ==> e.averageFillPrice.value * e.filledQuantity == e.filledNotional)
    && e.fees == e.filledNotional * input.takerFeeRate
    && var atMidpoint := e.filledQuantity * input.decisionSnapshot.midpoint;
       match input.side
       case Buy =>
         e.slippage == e.filledNotional - atMidpoint && e.positionAfter == input.positionBefore + e.filledQuantity
       case Sell =>
         e.slippage == atMidpoint - e.filledNotional && e.positionAfter == input.positionBefore - e.filledQuantity
  }

  function Signed(side: Side, x: real): real {
    match side
    case Buy => x
    case Sell => -x
  }

  /** Some allocation of `quantity` has this notional, and none is better. */
  ghost predicate BestNotional(side: Side, levels: seq<DepthLevel>, quantity: real, notional: real) {
    && (exists taken :: Allocation(levels, taken) && Quantity(taken) == quantity && Value(levels, taken) == notional)
    && (forall other :: Allocation(levels, other) && Quantity(other) == quantity ==>
          (side == Buy ==> notional <= Value(levels, other)) &&
          (side == Sell ==> notional >= Value(levels, other)))
  }

  lemma WalkHasBestNotional(side: Side, levels: seq<DepthLevel>, limit: real, quantity: real)
    requires ValidSide(side, levels) && quantity > 0.0
    ensures var taken := Walk(side, levels, limit, quantity);
            BestNotional(side, levels, Quantity(taken), Value(levels, taken))
  {
    var taken := Walk(side, levels, limit, quantity);
    WalkFillsWhatIsThere(side, levels, limit, quantity);
    forall other | Allocation(levels, other) && Quantity(other) == Quantity(taken)
      ensures side == Buy ==> Value(levels, taken) <= Value(levels, other)
      ensures side == Sell ==> Value(levels, taken) >= Value(levels, other)
    {
      GreedyWalkIsOptimal(side, levels, limit, quantity, other);
    }
  }

  /** The loop over executable levels. */
  method WalkDepth(side: Side, levels: seq<DepthLevel>, limit: real, quantity: real)
    returns (filled: real, fillValue: real, remaining: real)
    requires ValidSide(side, levels) && quantity > 0.0
    ensures filled == Quantity(Walk(side, levels, limit, quantity))
    ensures fillValue == Value(levels, Walk(side, levels, limit, quantity))
    ensures filled + remaining == quantity
  {
    hide Value, Notional;
    ghost var taken := Walk(side, levels, limit, quantity);
    remaining, filled, fillValue := quantity, 0.0, 0.0;
    var i := 0;
    assert levels[i..] == levels;
    while i < |levels|
      invariant 0 <= i <= |levels|
      invariant remaining >= 0.0 && filled + remaining == quantity
      invariant filled + Quantity(Walk(side, levels[i..], limit, remaining)) == Quantity(taken)
      invariant fillValue + Value(levels[i..], Walk(side, levels[i..], limit, remaining)) == Value(levels, taken)
    {
      var level := levels[i];
      assert levels[i..][0] == level && levels[i..][1..] == levels[i + 1..];
      if !WithinLimit(side, level.price, limit) || remaining == 0.0 {
        Nothing(levels[i..], Walk(side, levels[i..], limit, remaining));
        return;
      }
      WalkStep(side, levels[i..], limit, remaining);
      var here := Min(remaining, level.quantity);
      filled := filled + here;
      fillValue := fillValue + Notional(here, level.price);
      remaining := remaining - here;
      i := i + 1;
    }
    Nothing(levels[i..], Walk(side, levels[i..], limit, remaining));
  }

  lemma WalkStep(side: Side, levels: seq<DepthLevel>, limit: real, quantity: real)
    requires levels != [] && WithinLimit(side, levels[0].price, limit) && quantity != 0.0
    ensures var here := Min(quantity, levels[0].quantity);
            var rest := Walk(side, levels[1..], limit, quantity - here);
            && Quantity(Walk(side, levels, limit, quantity)) == here + Quantity(rest)
            && Value(levels, Walk(side, levels, limit, quantity)) ==
                Notional(here, levels[0].price) + Value(levels[1..], rest)
  {
  }

  /** Average price, fees, slippage and resulting position of a finished walk. */
  function Report(input: ExecutionInput, filled: real, fillValue: real, remaining: real): Execution {
    var average := if filled == 0.0 then None else Some(fillValue / filled);
    var slippage := if average.None? then 0.0
                    else Signed(input.side, average.value - input.decisionSnapshot.midpoint) * filled;
    Execution(filled, average, remaining, fillValue, fillValue * input.takerFeeRate, slippage,
              input.positionBefore + Signed(input.side, filled))
  }

  lemma ReportIsFaithful(input: ExecutionInput)
    requires ExecutionAccepted(input)
    ensures var levels := Executable(input.side, input.evaluationSnapshot);
            var taken := Walk(input.side, levels, input.limitPrice, input.quantity);
            Executed(input, Report(input, Quantity(taken), Value(levels, taken), input.quantity - Quantity(taken)))
  {
    hide Executed, Report;
    var levels := Executable(input.side, input.evaluationSnapshot);
    var taken := Walk(input.side, levels, input.limitPrice, input.quantity);
    WalkFillsWhatIsThere(input.side, levels, input.limitPrice, input.quantity);
    WalkHasBestNotional(input.side, levels, input.limitPrice, input.quantity);
    EmptyAllocation(levels, taken);
    ReportArithmetic(input, Quantity(taken), Value(levels, taken));
  }

  lemma ReportArithmetic(input: ExecutionInput, filled: real, fillValue: real)
    requires filled == 0.0 ==> fillValue == 0.0
    requires var levels := Executable(input.side, input.evaluationSnapshot);
             && filled == Min(input.quantity, DepthWithin(input.side, levels, input.limitPrice))
             && BestNotional(input.side, levels, filled, fillValue)
    ensures Executed(input, Report(input, filled, fillValue, input.quantity - filled))
  {
  }

  method ExecuteShadowIoc(input: ExecutionInput) returns (r: Result<Execution, ShadowError>)
    ensures r.Ok? <==> ExecutionAccepted(input)
    ensures r.Ok? ==> Executed(input, r.value)
    ensures RejectedInput(input) ==> r == Err(InvalidInput)
    ensures !RejectedInput(input) && !(ValidBook(input.decisionSnapshot) && ValidBook(input.evaluationSnapshot)) ==>
              r == Err(InvalidBook)
    ensures !RejectedInput(input) && ValidBook(input.decisionSnapshot) && ValidBook(input.evaluationSnapshot) ==>
              var expectedAt := input.decisionTimestamp + input.configuredLatency;
              && (r == Err(ArithmeticOverflow) <==> expectedAt >= TIMESTAMP_LIMIT)
              && (r == Err(SnapshotTooEarly) <==>
                    input.evaluationSnapshot.observedAt < expectedAt < TIMESTAMP_LIMIT)
  {
    if RejectedInput(input) {
      return Err(InvalidInput);
    }
    var decisionBook := ValidateBook(input.decisionSnapshot);
    if decisionBook.Err? {
      return Err(decisionBook.error);
    }
    var evaluationBook := ValidateBook(input.evaluationSnapshot);
    if evaluationBook.Err? {
      return Err(evaluationBook.error);
    }
    var expectedAt := input.decisionTimestamp + input.configuredLatency;
    if expectedAt >= TIMESTAMP_LIMIT {
      return Err(ArithmeticOverflow);
    }
    if input.evaluationSnapshot.observedAt < expectedAt {
      return Err(SnapshotTooEarly);
    }
    var filled, fillValue, remaining :=
      WalkDepth(input.side, Executable(input.side, input.evaluationSnapshot), input.limitPrice, input.quantity);
    ReportIsFaithful(input);
    r := Ok(Report(input, filled, fillValue, remaining));
  }

  lemma {:induction false} EmptyAllocation(levels: seq<DepthLevel>, taken: seq<real>)
    requires Allocation(levels, taken)
    ensures Quantity(taken) >= 0.0
    ensures Quantity(taken) == 0.0 ==> Value(levels, taken) == 0.0
  {
    if levels != [] {
      EmptyAllocation(levels[1..], taken[1..]);
    }
  }

  // -------------------------------------------------------------- planning

  /** Moves a price to the tick grid, towards the more aggressive side. */
  function RoundPriceOutward(value: real, tick: real, side: Side): (r: Result<real, ShadowError>)
    ensures r.Ok? <==> value > 0.0 && tick > 0.0
    ensures r.Ok? ==> OnGridOutward(value, tick, side, r.value)
  {
    if value <= 0.0 || tick <= 0.0 then Err(InvalidInput)
    else
      var units := match side
        case Buy => Ceiling(value / tick)
        case Sell => (value / tick).Floor;
      DivideThenMultiply(value, tick);
      GridBounds(value / tick, value, tick);
      Ok(GridPoint(units, tick))
  }

  ghost predicate OnGridOutward(value: real, tick: real, side: Side, rounded: real) {
    && OnGrid(rounded, tick)
    && (side == Buy ==> value <= rounded < value + tick)
    && (side == Sell ==> value - tick < rounded <= value)
  }

  /** The price of the level at which the book first covers the request. */
  function WorstRequired(levels: seq<DepthLevel>, quantity: real): Option<real> {
    if levels == [] then None
    else if levels[0].quantity >= quantity then Some(levels[0].price)
    else WorstRequired(levels[1..], quantity - levels[0].quantity)
  }

  /** `price` is the least aggressive limit whose depth covers the request. */
  ghost predicate LeastSufficient(side: Side, levels: seq<DepthLevel>, quantity: real, price: real) {
    && (exists i :: 0 <= i < |levels| && levels[i].price == price)
    && DepthWithin(side, levels, price) >= quantity
    && forall limit :: Better(side, limit, price) ==> DepthWithin(side, levels, limit) < quantity
  }

  lemma {:induction false} WorstRequiredIsLeastSufficient(side: Side, levels: seq<DepthLevel>, quantity: real)
    requires ValidSide(side, levels) && quantity > 0.0
    ensures WorstRequired(levels, quantity).Some? <==> TotalDepth(levels) >= quantity
    ensures WorstRequired(levels, quantity).Some? ==>
              LeastSufficient(side, levels, quantity, WorstRequired(levels, quantity).value)
  {
    if levels != [] {
      var first, rest := levels[0], levels[1..];
      TotalDepthIsNonNegative(rest);
      if first.quantity >= quantity {
        DepthIsNonNegative(side, rest, first.price);
        forall limit | Better(side, limit, first.price) ensures DepthWithin(side, levels, limit) < quantity {
          NoDepthBeyondLimit(side, levels, limit);
        }
      } else {
        WorstRequiredIsLeastSufficient(side, rest, quantity - first.quantity);
        var worst := WorstRequired(rest, quantity - first.quantity);
        if worst.Some? {
          var i :| 0 <= i < |rest| && rest[i].price == worst.value;
          assert levels[i + 1].price == worst.value && Better(side, first.price, worst.value);
          forall limit | Better(side, limit, worst.value) ensures DepthWithin(side, levels, limit) < quantity {
            assert DepthWithin(side, rest, limit) < quantity - first.quantity;
          }
        }
      }
    }
  }

  lemma {:induction false} TotalDepthIsNonNegative(levels: seq<DepthLevel>)
    requires PositiveDepth(levels)
    ensures TotalDepth(levels) >= 0.0
  {
    if levels != [] {
      TotalDepthIsNonNegative(levels[1..]);
    }
  }

  lemma {:induction false} DepthGrowsWithLimit(side: Side, levels: seq<DepthLevel>, tight: real, loose: real)
    requires PositiveDepth(levels) && !Better(side, loose, tight)
    ensures DepthWithin(side, levels, tight) <= DepthWithin(side, levels, loose)
  {
    if levels != [] {
      DepthGrowsWithLimit(side, levels[1..], tight, loose);
    }
  }

  /** Depth of the leading levels within the limit. */
  function LeadingDepth(side: Side, levels: seq<DepthLevel>, limit: real): real {
    if levels == [] || !WithinLimit(side, levels[0].price, limit) then 0.0
    else levels[0].quantity + LeadingDepth(side, levels[1..], limit)
  }

  /** In an ordered book the leading levels are all there is within the limit. */
  lemma {:induction false} LeadingDepthIsAll(side: Side, levels: seq<DepthLevel>, limit: real)
    requires ValidSide(side, levels)
    ensures LeadingDepth(side, levels, limit) == DepthWithin(side, levels, limit)
  {
    if levels != [] {
      if WithinLimit(side, levels[0].price, limit) {
        LeadingDepthIsAll(side, levels[1..], limit);
      } else {
        NoDepthBeyondLimit(side, levels, limit);
      }
    }
  }

  predicate RejectedPlan(quantity: real, reference: real, cushion: real, maximumSlippage: real, tick: real) {
    quantity <= 0.0 || reference <= 0.0 || cushion < 0.0 || maximumSlippage < 0.0 || tick <= 0.0
  }

  /** A price moved by a fraction towards the more aggressive side. */
  function Aggressive(side: Side, price: real, fraction: real): real {
    match side
    case Buy => price * (1.0 + fraction)
    case Sell => price * (1.0 - fraction)
  }

  /** The limit before rounding: from the worst required level, or else from the
      reference. */
  function RawLimit(side: Side, worst: Option<real>, reference: real, cushion: real, maximumSlippage: real): real {
    if worst.Some? then Aggressive(side, worst.value, cushion) else Aggressive(side, reference, maximumSlippage)
  }

  lemma AggressiveIsNoBetter(side: Side, price: real, fraction: real)
    requires price > 0.0 && fraction >= 0.0
    ensures !Better(side, Aggressive(side, price, fraction), price)
  {
  }

  /** What a plan promises about the book it was made for. */
  ghost predicate PlannedFor(
    side: Side, quantity: real, snapshot: Snapshot, reference: real, cushion: real,
    maximumSlippage: real, tick: real, plan: IocPlan)
  {
    var levels := Executable(side, snapshot);
    var worst := plan.worstRequiredDepthPrice;
    && plan.requestedQuantity == quantity
    && (plan.pricingMode == CompleteVisibleDepth <==> TotalDepth(levels) >= quantity)
    && (plan.pricingMode == CompleteVisibleDepth <==> worst.Some?)
    && (worst.Some? ==> LeastSufficient(side, levels, quantity, worst.value))
    && RawLimit(side, worst, reference, cushion, maximumSlippage) > 0.0
    && OnGridOutward(RawLimit(side, worst, reference, cushion, maximumSlippage), tick, side, plan.limitPrice)
    && plan.visibleExecutableQuantity == Min(quantity, DepthWithin(side, levels, plan.limitPrice))
    && (plan.pricingMode == CompleteVisibleDepth ==> plan.visibleExecutableQuantity == quantity)
  }

  method FindWorstRequired(levels: seq<DepthLevel>, quantity: real) returns (worst: Option<real>)
    ensures worst == WorstRequired(levels, quantity)
  {
    var visible := 0.0;
    worst := None;
    var i := 0;
    assert levels[i..] == levels;
    while i < |levels|
      invariant 0 <= i <= |levels| && worst.None?
      invariant WorstRequired(levels[i..], quantity - visible) == WorstRequired(levels, quantity)
    {
      assert levels[i..][0] == levels[i] && levels[i..][1..] == levels[i + 1..];
      visible := visible + levels[i].quantity;
      if visible >= quantity {
        return Some(levels[i].price);
      }
      i := i + 1;
    }
  }

  method PlanMarketableIoc(
    side: Side, quantity: real, snapshot: Snapshot, reference: real, cushion: real,
    maximumSlippage: real, tick: real)
    returns (r: Result<IocPlan, ShadowError>)
    ensures quantity <= 0.0 || reference <= 0.0 || cushion < 0.0 || maximumSlippage < 0.0 || tick <= 0.0 ==>
              r == Err(InvalidInput)
    ensures !RejectedPlan(quantity, reference, cushion, maximumSlippage, tick) && !ValidBook(snapshot) ==>
              r == Err(InvalidBook)
    ensures r.Ok? ==> ValidBook(snapshot) && quantity > 0.0 && tick > 0.0
    ensures r.Ok? ==> PlannedFor(side, quantity, snapshot, reference, cushion, maximumSlippage, tick, r.value)
    ensures !RejectedPlan(quantity, reference, cushion, maximumSlippage, tick) && ValidBook(snapshot) ==>
              (r.Ok? <==>
                && Aggressive(side, reference, maximumSlippage) > 0.0
                && forall p :: LeastSufficient(side, Executable(side, snapshot), quantity, p) ==>
                     Aggressive(side, p, cushion) > 0.0)
  {
    if RejectedPlan(quantity, reference, cushion, maximumSlippage, tick) {
      return Err(InvalidInput);
    }
    var book := ValidateBook(snapshot);
    if book.Err? {
      return Err(book.error);
    }
    var levels := Executable(side, snapshot);
    var worst := FindWorstRequired(levels, quantity);
    WorstRequiredIsLeastSufficient(side, levels, quantity);
    LeastSufficientIsUnique(side, levels, quantity, worst);
    var maximumLimit := RoundPriceOutward(Aggressive(side, reference, maximumSlippage), tick, side);
    if maximumLimit.Err? {
      return Err(maximumLimit.error);
    }
    var limit := maximumLimit.value;
    var mode := BoundedReferenceFallback;
    if worst.Some? {
      var depthLimit := RoundPriceOutward(Aggressive(side, worst.value, cushion), tick, side);
      if depthLimit.Err? {
        return Err(depthLimit.error);
      }
      limit, mode := depthLimit.value, CompleteVisibleDepth;
      AggressiveIsNoBetter(side, worst.value, cushion);
      DepthGrowsWithLimit(side, levels, worst.value, limit);
    }
    LeadingDepthIsAll(side, levels, limit);
    r := Ok(IocPlan(limit, quantity, Min(LeadingDepth(side, levels, limit), quantity), worst, mode));
  }

  lemma LeastSufficientIsUnique(side: Side, levels: seq<DepthLevel>, quantity: real, worst: Option<real>)
    requires ValidSide(side, levels) && quantity > 0.0
    requires worst == WorstRequired(levels, quantity)
    ensures forall p :: LeastSufficient(side, levels, quantity, p) <==> worst == Some(p)
  {
    WorstRequiredIsLeastSufficient(side, levels, quantity);
    forall p | LeastSufficient(side, levels, quantity, p) ensures worst == Some(p) {
      DepthIsAtMostTotal(side, levels, p);
      assert !Better(side, p, worst.value) && !Better(side, worst.value, p);
    }
  }

  lemma {:induction false} DepthIsAtMostTotal(side: Side, levels: seq<DepthLevel>, limit: real)
    requires PositiveDepth(levels)
    ensures DepthWithin(side, levels, limit) <= TotalDepth(levels)
  {
    if levels != [] {
      DepthIsAtMostTotal(side, levels[1..], limit);
    }
  }

  // -------------------------------------------- planner against executor

  /** A plan executed at its own limit on its own snapshot fills exactly what it
      said was visible: all of the request from complete depth, less than the
      request from the fallback. */
  lemma PlannerPredictsExecutor(
    input: ExecutionInput, reference: real, cushion: real, maximumSlippage: real, tick: real,
    plan: IocPlan, e: Execution)
    requires PlannedFor(input.side, input.quantity, input.evaluationSnapshot, reference, cushion, maximumSlippage,
              tick, plan)
    requires input.limitPrice == plan.limitPrice
    requires ExecutionAccepted(input) && Executed(input, e)
    ensures e.filledQuantity == plan.visibleExecutableQuantity
    ensures plan.pricingMode == CompleteVisibleDepth ==> e.unfilledRemainder == 0.0
    ensures plan.pricingMode == BoundedReferenceFallback ==> e.unfilledRemainder > 0.0
  {
    hide BestNotional;
    DepthIsAtMostTotal(input.side, Executable(input.side, input.evaluationSnapshot), input.limitPrice);
  }

  /** The executor takes only positive limits. Rounding a sale down gives one
      exactly when the raw price is at least a tick. */
  lemma PlannedLimitIsPositiveWhen(raw: real, tick: real, side: Side, limit: real)
    requires raw > 0.0 && tick > 0.0 && RoundPriceOutward(raw, tick, side) == Ok(limit)
    ensures limit > 0.0 <==> side == Buy || raw >= tick
  {
    var units :| GridPoint(units, tick) == limit;
    if side == Sell {
      if units >= 1 { GridOrder(0, units, tick); GridAtLeastOne(units, tick); } else { GridOrder(units, 1, tick); }
      if units < 0 { GridOrder(units, 0, tick); }
    }
  }

  lemma GridAtLeastOne(units: int, tick: real)
    requires tick > 0.0 && units >= 1
    ensures GridPoint(units, tick) >= tick
  {
  }

  /** The price from which the cushion leads to the bound. */
  function Edge(side: Side, bound: real, cushion: real): real {
    match side
    case Buy => if 1.0 + cushion > 0.0 then bound / (1.0 + cushion) else 0.0
    case Sell => if 1.0 - cushion > 0.0 then bound / (1.0 - cushion) else 0.0
  }

  /** A limit is not capped by the reference bound. It stays within it exactly
      when the book is too shallow for the request, or has all of the request at
      prices that the cushion keeps within the bound. */
  lemma CompleteDepthIsWithinBoundWhen(
    side: Side, quantity: real, snapshot: Snapshot, reference: real, cushion: real,
    maximumSlippage: real, tick: real, plan: IocPlan, bound: real)
    requires !RejectedPlan(quantity, reference, cushion, maximumSlippage, tick) && ValidBook(snapshot)
    requires PlannedFor(side, quantity, snapshot, reference, cushion, maximumSlippage, tick, plan)
    requires RoundPriceOutward(Aggressive(side, reference, maximumSlippage), tick, side) == Ok(bound)
    ensures var levels := Executable(side, snapshot);
            WithinLimit(side, plan.limitPrice, bound) <==>
              TotalDepth(levels) < quantity || DepthWithin(side, levels, Edge(side, bound, cushion)) >= quantity
  {
    hide Aggressive, Edge, OnGrid;
    var levels, edge, worst := Executable(side, snapshot), Edge(side, bound, cushion), plan.worstRequiredDepthPrice;
    OutwardStaysInside(RawLimit(side, worst, reference, cushion, maximumSlippage), tick, side, plan.limitPrice, bound);
    if worst.Some? {
      RequiredLevelIsPositive(side, levels, quantity, worst.value);
      EdgeLeadsToBound(side, worst.value, cushion, bound);
      if WithinLimit(side, worst.value, edge) { DepthGrowsWithLimit(side, levels, worst.value, edge); }
    }
  }

  lemma RequiredLevelIsPositive(side: Side, levels: seq<DepthLevel>, quantity: real, price: real)
    requires PositiveDepth(levels) && LeastSufficient(side, levels, quantity, price)
    ensures price > 0.0
  {
  }

  lemma EdgeLeadsToBound(side: Side, price: real, cushion: real, bound: real)
    requires price > 0.0 && cushion >= 0.0 && Aggressive(side, price, cushion) > 0.0
    ensures WithinLimit(side, Aggressive(side, price, cushion), bound) <==>
            WithinLimit(side, price, Edge(side, bound, cushion))
  {
    var factor := if side == Buy then 1.0 + cushion else 1.0 - cushion;
    if factor <= 0.0 {
      SignOfProduct(price, factor, Aggressive(side, price, cushion));
      assert false;
    }
    var edge := Edge(side, bound, cushion);
    DivideThenMultiply(bound, factor);
    var product := Aggressive(side, price, cushion);
    hide Aggressive, Edge;
    if price < edge { ProductOrder(price, edge, factor, product, bound); }
    if edge < price { ProductOrder(edge, price, factor, bound, product); }
  }

  lemma SignOfProduct(x: real, y: real, product: real)
    requires x > 0.0 && y <= 0.0 && product == x * y
    ensures product <= 0.0
  {
  }

  /** A grid price that bounds a raw price also bounds its outward rounding. */
  lemma OutwardStaysInside(raw: real, tick: real, side: Side, rounded: real, bound: real)
    requires tick > 0.0 && OnGridOutward(raw, tick, side, rounded) && OnGrid(bound, tick)
    ensures WithinLimit(side, rounded, bound) <==> WithinLimit(side, raw, bound)
  {
    var n :| GridPoint(n, tick) == rounded;
    var k :| GridPoint(k, tick) == bound;
    GridNeighbours(n, k, tick);
    GridNeighbours(k, n, tick);
  }

  lemma GridNeighbours(n: int, k: int, tick: real)
    requires tick > 0.0
    ensures GridPoint(n, tick) > GridPoint(k, tick) ==> GridPoint(n, tick) >= GridPoint(k, tick) + tick
  {
    if n > k {
      if n > k + 1 { GridOrder(k + 1, n, tick); }
      DistributeSum(k as real, 1.0, tick);
    } else if n < k {
      GridOrder(n, k, tick);
    }
  }

  /** A book far from the reference, and the plan made for it: it pays 200
      against a bound of 101. */
  lemma CompleteDepthExceedsReferenceBound()
    ensures var book := Snapshot(0, 100.0, [], [DepthLevel(200.0, 1.0)]);
            var plan := IocPlan(200.0, 1.0, 1.0, Some(200.0), CompleteVisibleDepth);
            && !RejectedPlan(1.0, 100.0, 0.0, 0.01, 1.0) && ValidBook(book)
            && PlannedFor(Buy, 1.0, book, 100.0, 0.0, 0.01, 1.0, plan)
            && RoundPriceOutward(Aggressive(Buy, 100.0, 0.01), 1.0, Buy) == Ok(101.0)
            && !WithinLimit(Buy, plan.limitPrice, 101.0)
  {
    var levels := [DepthLevel(200.0, 1.0)];
    assert forall limit :: DepthWithin(Buy, levels, limit) == if limit < 200.0 then 0.0 else 1.0;
    assert levels[0].price == 200.0;
    assert GridPoint(200, 1.0) == 200.0;
  }
}
