/** `project_and_validate_portfolio` of `crates/copytrade-core/src/portfolio_risk.rs`. */
module PortfolioRisk {
  import opened Common
  import opened PortfolioRanges
  import opened TargetShaping
  import opened RiskStaging

  datatype Projection = Projection(
    constrainedTargets: map<Asset, real>,
    proposedDeltas: map<Asset, real>,
    roundedDeltas: map<Asset, real>,
    ranges: map<Asset, Range>,
    maximumGross: real, minimumNet: real, maximumNet: real)

  // --------------------------------------------------------------- validation

  const MIN_RISK_SCALE: real := 0.025
  const MAX_RISK_SCALE: real := 0.10

  predicate GoodScalars(input: Input) {
    && input.currentEquity > 0.0
    && input.curveLeverage > 0.0
    && MIN_RISK_SCALE <= input.globalRiskScale <= MAX_RISK_SCALE
    && 0.0 <= input.maxSingleAssetPct <= 1.0
    && 0.0 <= input.maxNetPct <= 1.0
  }

  predicate HasGoodRules(input: Input, a: Asset) {
    a in input.rules && PositiveRules(input.rules[a])
  }

  function ValidateInput(input: Input): (r: Result<(), Violation>)
    ensures r.Ok? <==>
      && GoodScalars(input) && input.filledComplete && input.openComplete
      && forall a :: a in Assets(input) ==> HasGoodRules(input, a)
  {
    if !GoodScalars(input) then Err(InvalidInput)
    else if !input.filledComplete then Err(IncompleteFilledPositionState)
    else if !input.openComplete then Err(IncompleteOpenOrderState)
    else
      var bad := set a | a in Assets(input) && !HasGoodRules(input, a);
      if bad == {} then assert forall a :: a in Assets(input) ==> a !in bad; Ok(())
      else
        var first := Least(bad);
        assert first in bad;
        if first !in input.rules then Err(MissingMarketRules(first)) else Err(InvalidInput)
  }

  function CapsOf(input: Input): Caps {
    Caps(
      input.currentEquity * input.maxSingleAssetPct,
      input.currentEquity * input.curveLeverage * input.globalRiskScale,
      input.currentEquity * input.maxNetPct)
  }

  lemma CapsAreNonNegative(input: Input)
    requires GoodScalars(input)
    ensures var caps := CapsOf(input); caps.asset >= 0.0 && caps.gross > 0.0 && caps.net >= 0.0
  {
  }

  lemma CapsAreShares(input: Input)
    ensures CapsOf(input).asset == input.currentEquity * input.maxSingleAssetPct
    ensures CapsOf(input).gross == input.currentEquity * input.curveLeverage * input.globalRiskScale
    ensures CapsOf(input).net == input.currentEquity * input.maxNetPct
  {
  }

  /** Valid, with every open order known. */
  ghost predicate Accepted(input: Input) {
    ValidateInput(input).Ok? && forall o :: o in input.openOrders ==> Known(o)
  }

  /** Every asset that may be traded has a mark that a sale can be rounded at. */
  ghost predicate MarksAtLeastTick(input: Input) {
    forall a :: a in Assets(input) && a in input.rules ==> input.rules[a].markPrice >= input.rules[a].priceTick
  }

  function PortfolioOf(input: Input): Portfolio {
    Portfolio(input.filledPositions, Assets(input),
      map a | a in Assets(input) :: Exposure(OpenTotal(input.openOrders, Buy, a), OpenTotal(input.openOrders, Sell, a)))
  }

  lemma {:induction false} OpenTotalsAreNonNegative(orders: seq<OpenOrder>, side: OrderSide, a: Asset)
    requires forall o :: o in orders ==> Known(o)
    ensures OpenTotal(orders, side, a) >= 0.0
  {
    if orders != [] {
      assert orders[|orders| - 1] in orders;
      OpenTotalsAreNonNegative(orders[..|orders| - 1], side, a);
    }
  }

  lemma PortfolioIsSound(input: Input)
    requires Accepted(input)
    ensures Sound(PortfolioOf(input))
  {
    forall a | a in Assets(input)
      ensures OpenTotal(input.openOrders, Buy, a) >= 0.0 && OpenTotal(input.openOrders, Sell, a) >= 0.0
    {
      OpenTotalsAreNonNegative(input.openOrders, Buy, a);
      OpenTotalsAreNonNegative(input.openOrders, Sell, a);
    }
  }

  // ---------------------------------------------------------- final validation

  /** A delta that only reduces what is already filled, and does not enlarge
      the asset's worst exposure. */
  predicate OnlyReduces(p: Portfolio, ranges: map<Asset, Range>, a: Asset, delta: real)
    requires a in ranges && a in p.assets
  {
    var filled := Get(p.filled, a);
    && filled != 0.0
    && (delta > 0.0) != (filled > 0.0)
    && Abs(delta) <= Abs(filled)
    && Magnitude(ranges[a]) <= Magnitude(AssetRange(p, a, 0.0))
  }

  /** Trades back part or all of what is filled, or nothing. */
  predicate Reverses(filled: real, delta: real) {
    delta == 0.0 || (filled != 0.0 && (delta > 0.0) != (filled > 0.0) && Abs(delta) <= Abs(filled))
  }

  ghost predicate OnlyReverses(p: Portfolio, deltas: Deltas) {
    forall a :: a in deltas ==> Reverses(Get(p.filled, a), deltas[a])
  }

  /** What a portfolio already over a cap is still allowed to do. */
  ghost predicate NoWorseThanBaseline(p: Portfolio, ranges: map<Asset, Range>, deltas: Deltas)
    requires ranges.Keys == deltas.Keys == p.assets
  {
    && (forall a :: a in deltas && deltas[a] != 0.0 ==> OnlyReduces(p, ranges, a, deltas[a]))
    && Gross(ranges) <= Gross(Baseline(p))
    && WorstNet(ranges) <= WorstNet(Baseline(p))
  }

  ghost predicate AssetsWithin(ranges: map<Asset, Range>, caps: Caps) {
    forall a :: a in ranges ==> Magnitude(ranges[a]) <= caps.asset
  }

  method CheckCaps(ranges: map<Asset, Range>, caps: Caps) returns (r: Result<(), Violation>)
    ensures r.Ok? <==> WithinCaps(ranges, caps)
    ensures r.Err? ==>
      match r.error
      case AssetCapExceeded(a) => IsLeast(a, set b | b in ranges && Magnitude(ranges[b]) > caps.asset)
      case GrossCapExceeded(projected, cap) =>
        projected == Gross(ranges) > cap == caps.gross && AssetsWithin(ranges, caps)
      case NetCapExceeded =>
        WorstNet(ranges) > caps.net && Gross(ranges) <= caps.gross && AssetsWithin(ranges, caps)
      case _ => false
  {
    hide Magnitude, Gross, MinimumNet, MaximumNet;
    var gross, minimum, maximum := RangeMetrics(ranges);
    var over := set a | a in ranges && Magnitude(ranges[a]) > caps.asset;
    if over != {} {
      var first := Least(over);
      assert first in over;
      return Err(AssetCapExceeded(first));
    }
    assert forall a :: a in ranges ==> a !in over;
    if gross > caps.gross {
      return Err(GrossCapExceeded(gross, caps.gross));
    }
    if Worst(minimum, maximum) > caps.net {
      return Err(NetCapExceeded);
    }
    r := Ok(());
  }

  method CheckNoWorse(p: Portfolio, ranges: map<Asset, Range>, deltas: Deltas) returns (r: Result<(), Violation>)
    requires ranges.Keys == deltas.Keys == p.assets
    ensures r.Ok? <==> NoWorseThanBaseline(p, ranges, deltas)
    ensures r.Err? ==>
      match r.error
      case ExistingRiskIncreased(a) => a in deltas && deltas[a] != 0.0 && !OnlyReduces(p, ranges, a, deltas[a])
      case GrossCapExceeded(projected, cap) => projected == Gross(ranges) && cap == Gross(Baseline(p))
      case _ => false
  {
    hide Magnitude, Gross, MinimumNet, MaximumNet, OnlyReduces, Baseline;
    var increasing := set a | a in deltas && deltas[a] != 0.0 && !OnlyReduces(p, ranges, a, deltas[a]);
    if increasing != {} {
      var first := Least(increasing);
      assert first in increasing;
      return Err(ExistingRiskIncreased(first));
    }
    assert forall a :: a in deltas ==> a !in increasing;
    var gross, minimum, maximum := RangeMetrics(ranges);
    var baseGross, baseMinimum, baseMaximum := RangeMetrics(Baseline(p));
    if gross > baseGross || Worst(minimum, maximum) > Worst(baseMinimum, baseMaximum) {
      return Err(GrossCapExceeded(gross, baseGross));
    }
    r := Ok(());
  }

  method ValidateFinalRanges(p: Portfolio, ranges: map<Asset, Range>, deltas: Deltas, caps: Caps)
    returns (r: Result<(), Violation>)
    requires ranges.Keys == deltas.Keys == p.assets
    ensures WithinCaps(Points(p.filled), caps) ==> (r.Ok? <==> WithinCaps(ranges, caps))
    ensures !WithinCaps(Points(p.filled), caps) ==> (r.Ok? <==> NoWorseThanBaseline(p, ranges, deltas))
  {
    hide WithinCaps, NoWorseThanBaseline, Points;
    var filled := CheckCaps(Points(p.filled), caps);
    if filled.Ok? {
      r := CheckCaps(ranges, caps);
    } else {
      r := CheckNoWorse(p, ranges, deltas);
    }
  }

  // --------------------------------------------------------------- projection

  function Proposed(p: Portfolio, constrained: map<Asset, real>, a: Asset): real {
    Get(constrained, a) - Get(p.filled, a) - (Lookup(p.open, a).buy - Lookup(p.open, a).sell)
  }

  ghost predicate RoundedTo(input: Input, proposed: Deltas, rounded: Deltas) {
    && proposed.Keys == rounded.Keys
    && forall a :: a in proposed ==> a in input.rules && RoundDelta(proposed[a], input.rules[a]) == Ok(rounded[a])
  }

  /** A sale at a mark below one tick, which has no price on the grid. */
  predicate SellsBelowTick(input: Input, p: Portfolio, constrained: map<Asset, real>, a: Asset) {
    Proposed(p, constrained, a) < 0.0 && a in input.rules && input.rules[a].markPrice < input.rules[a].priceTick
  }

  /** What is filled, what is still to be bought and sold, and the deltas add up to
      the targets. */
  ghost predicate ReachTargets(p: Portfolio, deltas: Deltas, targets: map<Asset, real>) {
    forall a :: a in p.assets ==>
      && a in deltas
      && Get(p.filled, a) + Lookup(p.open, a).buy - Lookup(p.open, a).sell + deltas[a] == Get(targets, a)
  }

  lemma ProposedReach(p: Portfolio, deltas: Deltas, targets: map<Asset, real>)
    requires deltas == map a | a in p.assets :: Proposed(p, targets, a)
    ensures ReachTargets(p, deltas, targets)
  {
    hide Get, Lookup;
  }

  method ProposeDeltas(input: Input, p: Portfolio, constrained: map<Asset, real>)
    returns (r: Result<(Deltas, Deltas), Violation>)
    requires forall a :: a in p.assets ==> HasGoodRules(input, a)
    ensures r.Ok? ==>
      && r.value.0 == (map a | a in p.assets :: Proposed(p, constrained, a))
      && RoundedTo(input, r.value.0, r.value.1)
    ensures r.Ok? ==> ReachTargets(p, r.value.0, constrained)
    ensures r.Ok? <==> forall a :: a in p.assets ==> !SellsBelowTick(input, p, constrained, a)
    ensures r.Err? ==> r.error == ArithmeticOverflow
  {
    hide RoundDelta, Shrunk, Proposed, ReachTargets;
    var proposed: Deltas, rounded: Deltas := map[], map[];
    var rest := p.assets;
    while rest != {}
      invariant rest <= p.assets
      invariant proposed == map a | a in p.assets && a !in rest :: Proposed(p, constrained, a)
      invariant RoundedTo(input, proposed, rounded)
      invariant forall a :: a in p.assets && a !in rest ==> !SellsBelowTick(input, p, constrained, a)
      decreases rest
    {
      var a := Least(rest);
      assert a in p.assets && HasGoodRules(input, a);
      rest := rest - {a};
      var delta := Proposed(p, constrained, a);
      var one := RoundDelta(delta, input.rules[a]);
      RoundDeltaIsInward(delta, input.rules[a]);
      if one.Err? {
        return Err(one.error);
      }
      proposed, rounded := proposed[a := delta], rounded[a := one.value];
    }
    ProposedReach(p, proposed, constrained);
    r := Ok((proposed, rounded));
  }

  /** Exact multiplication. */
  function Times(): (real, real) -> real {
    (x: real, y: real) => x * y
  }

  lemma TimesIsExact()
    ensures Exact(Times())
  {
  }

  /** The constrained targets keep their sign, do not grow, and meet all caps. */
  ghost predicate Constrained(input: Input, c: map<Asset, real>) {
    var caps := CapsOf(input);
    && c.Keys == Assets(input)
    && (forall a :: a in c ==> Shrunk(c[a], Get(input.targets, a)) && Abs(c[a]) <= caps.asset)
    && TotalAbs(c) <= caps.gross
    && Abs(Total(c)) <= caps.net
  }

  /** Clamped, scaled to the gross cap, and scaled to the net cap. */
  ghost function ShapedTargets(input: Input): map<Asset, real> {
    var caps := CapsOf(input);
    NetScaled(GrossScaled(Clamped(input.targets, Assets(input), caps.asset), caps.gross), caps.net)
  }

  /** One factor to the gross cap, then one factor on the heavier side to the
      net cap; each only when needed. */
  ghost predicate ScaledTwice(clamped: map<Asset, real>, c: map<Asset, real>, caps: Caps) {
    exists scaled ::
      && (TotalAbs(clamped) <= caps.gross ==> scaled == clamped)
      && (TotalAbs(clamped) > caps.gross ==>
          TotalAbs(scaled) == caps.gross && exists s :: AllScaled(clamped, scaled, s))
      && (Abs(Total(scaled)) <= caps.net ==> c == scaled)
      && (Total(scaled) > caps.net ==> Total(c) == caps.net && exists s :: c == ScaledOneSide(scaled, true, s))
      && (Total(scaled) < -caps.net ==> Total(c) == -caps.net && exists s :: c == ScaledOneSide(scaled, false, s))
  }

  method ConstrainTargets(input: Input) returns (c: map<Asset, real>)
    requires GoodScalars(input)
    ensures Constrained(input, c)
    ensures ScaledTwice(Clamped(input.targets, Assets(input), CapsOf(input).asset), c, CapsOf(input))
    ensures c == ShapedTargets(input)
  {
    hide GrossScaled, NetScaled, Shrunk, Exact, ScaledOneSide, CapsOf, Assets, Clamped, AllScaled, AllShrunk,
        TotalAbs, Constrained;
    CapsAreNonNegative(input);
    TimesIsExact();
    var caps := CapsOf(input);
    var clamped := Clamped(input.targets, Assets(input), caps.asset);
    var scaled := ScaleTargetsToGrossCap(clamped, caps.gross, Times());
    c := EnforceTargetNetCap(scaled.value, caps.net);
    ShapedIsScaledTwice(clamped, scaled.value, c, caps);
    ShapedIsConstrained(input, clamped, scaled.value, c);
  }

  lemma ShapedIsConstrained(
    input: Input, clamped: map<Asset, real>, scaled: map<Asset, real>, c: map<Asset, real>)
    requires GoodScalars(input) && clamped == Clamped(input.targets, Assets(input), CapsOf(input).asset)
    requires AllShrunk(scaled, clamped) && AllShrunk(c, scaled)
    requires TotalAbs(scaled) <= CapsOf(input).gross && Abs(Total(c)) <= CapsOf(input).net
    ensures Constrained(input, c)
  {
    CapsAreNonNegative(input);
    hide CapsOf, Assets, Shrunk, Clamp, GoodScalars;
    AllShrunkIsTransitive(c, scaled, clamped);
    ShrinkingLowersGross(c, scaled);
    hide TotalAbs, Abs;
    forall a | a in c ensures Shrunk(c[a], Get(input.targets, a)) && Abs(c[a]) <= CapsOf(input).asset {
      ClampedShrinks(c[a], Get(input.targets, a), CapsOf(input).asset);
    }
  }

  lemma ShapedIsScaledTwice(clamped: map<Asset, real>, scaled: map<Asset, real>, c: map<Asset, real>, caps: Caps)
    requires TotalAbs(clamped) <= caps.gross ==> scaled == clamped
    requires TotalAbs(clamped) > caps.gross ==>
              TotalAbs(scaled) == caps.gross && exists s :: AllScaled(clamped, scaled, s)
    requires Abs(Total(scaled)) <= caps.net ==> c == scaled
    requires Total(scaled) > caps.net ==> Total(c) == caps.net && exists s :: c == ScaledOneSide(scaled, true, s)
    requires Total(scaled) < -caps.net ==> Total(c) == -caps.net && exists s :: c == ScaledOneSide(scaled, false, s)
    ensures ScaledTwice(clamped, c, caps)
  {
  }

  lemma ClampedShrinks(after: real, before: real, cap: real)
    requires cap >= 0.0 && Shrunk(after, Clamp(before, cap))
    ensures Shrunk(after, before) && Abs(after) <= cap
  {
  }

  // ----------------------------------------------------------- the whole method

  /** The full rounded vector if its ranges meet the caps, its staged part
      otherwise. */
  ghost function ChosenDeltas(p: Portfolio, rounded: Deltas, caps: Caps): Deltas
    requires Sound(p)
  {
    if WithinCaps(RangesWith(p, rounded), caps) then rounded
    else KeptIsStaged(p, rounded); Prune(p, Kept(p, rounded), rounded)
  }

  function RoundedOne(input: Input, a: Asset, delta: real): real {
    var rounded := if a in input.rules then RoundDelta(delta, input.rules[a]) else Err(MissingMarketRules(a));
    if rounded.Ok? then rounded.value else 0.0
  }

  /** The rounded deltas, wherever rounding succeeds. */
  ghost function RoundedDeltas(input: Input): Deltas {
    var p := PortfolioOf(input);
    map a | a in p.assets :: RoundedOne(input, a, Proposed(p, ShapedTargets(input), a))
  }

  /** The action an input leads to. */
  ghost function ActionFor(input: Input): Deltas
    requires Accepted(input)
  {
    PortfolioIsSound(input);
    ChosenDeltas(PortfolioOf(input), RoundedDeltas(input), CapsOf(input))
  }

  /** What the final validation lets through. */
  ghost predicate Validated(input: Input, r: Projection) {
    if WithinCaps(Points(input.filledPositions), CapsOf(input)) then WithinCaps(r.ranges, CapsOf(input))
    else
      && r.ranges.Keys == r.roundedDeltas.Keys == PortfolioOf(input).assets
      && NoWorseThanBaseline(PortfolioOf(input), r.ranges, r.roundedDeltas)
  }

  ghost predicate Faithful(input: Input, r: Projection)
    requires Accepted(input)
  {
    PortfolioIsSound(input);
    var p, caps := PortfolioOf(input), CapsOf(input);
    && Constrained(input, r.constrainedTargets)
    && ScaledTwice(Clamped(input.targets, Assets(input), caps.asset), r.constrainedTargets, caps)
    && r.proposedDeltas == (map a | a in p.assets :: Proposed(p, r.constrainedTargets, a))
    && r.constrainedTargets == ShapedTargets(input)
    && RoundedTo(input, r.proposedDeltas, RoundedDeltas(input))
    && r.roundedDeltas == ActionFor(input)
    && r.ranges == RangesWith(p, r.roundedDeltas)
    && r.maximumGross == Gross(r.ranges) && r.minimumNet == MinimumNet(r.ranges) && r.maximumNet == MaximumNet(r.ranges)
  }

  /** Filling every open order and every proposed delta ends at the constrained
      targets, for each asset that is held, targeted or still in an open order. */
  ghost predicate EndsAtTargets(input: Input, r: Projection) {
    forall a :: a in input.filledPositions || a in input.targets || InOpenOrder(input, a) ==>
      && a in r.proposedDeltas && a in r.constrainedTargets
      && Get(input.filledPositions, a) + OpenTotal(input.openOrders, Buy, a) - OpenTotal(input.openOrders, Sell, a)
           + r.proposedDeltas[a] == r.constrainedTargets[a]
  }

  predicate InOpenOrder(input: Input, a: Asset) {
    exists o :: o in input.openOrders && o.lifecycle != CancelConfirmed && o.asset == a
  }

  lemma ProposedFillsTheGap(input: Input, c: map<Asset, real>, a: Asset)
    requires a in Assets(input)
    ensures a in PortfolioOf(input).assets
    ensures Proposed(PortfolioOf(input), c, a) ==
              Get(c, a) - Get(input.filledPositions, a)
                - OpenTotal(input.openOrders, Buy, a) + OpenTotal(input.openOrders, Sell, a)
  {
    hide OpenTotal, Get;
  }

  lemma NamedAssets(input: Input, a: Asset)
    requires a in input.filledPositions || a in input.targets || InOpenOrder(input, a)
    ensures a in Assets(input)
  {
  }

  lemma FaithfulEndsAtTargets(input: Input, r: Projection)
    requires Accepted(input) && Faithful(input, r)
    ensures EndsAtTargets(input, r)
  {
    hide Accepted, ScaledTwice, RoundedTo, ActionFor, RangesWith, ShapedTargets, OpenTotal, RoundedDeltas, Proposed,
      Assets, PortfolioOf, CapsOf, InOpenOrder, Gross, MinimumNet, MaximumNet, Clamped, Total, Shrunk;
    forall a | a in input.filledPositions || a in input.targets || InOpenOrder(input, a)
      ensures a in r.proposedDeltas && a in r.constrainedTargets
      ensures Get(input.filledPositions, a) + OpenTotal(input.openOrders, Buy, a)
                - OpenTotal(input.openOrders, Sell, a) + r.proposedDeltas[a] == r.constrainedTargets[a]
    {
      NamedAssets(input, a);
      ProposedFillsTheGap(input, r.constrainedTargets, a);
    }
  }

  lemma {:induction false} NotTraded(orders: seq<OpenOrder>, side: OrderSide, a: Asset)
    requires forall o :: o in orders && o.lifecycle != CancelConfirmed ==> o.asset != a
    ensures OpenTotal(orders, side, a) == 0.0
  {
    if orders != [] {
      assert orders[|orders| - 1] in orders;
      NotTraded(orders[..|orders| - 1], side, a);
    }
  }

  lemma OpenOfPortfolioDescribes(input: Input)
    ensures Describes(PortfolioOf(input).open, input.openOrders)
  {
    forall a ensures Lookup(PortfolioOf(input).open, a) ==
                     Exposure(OpenTotal(input.openOrders, Buy, a), OpenTotal(input.openOrders, Sell, a))
    {
      if a !in Assets(input) {
        NotTraded(input.openOrders, Buy, a);
        NotTraded(input.openOrders, Sell, a);
      }
    }
  }

  lemma BaselineCoversFilled(input: Input, caps: Caps)
    requires Accepted(input) && WithinCaps(Baseline(PortfolioOf(input)), caps)
    ensures WithinCaps(Points(input.filledPositions), caps)
  {
    var p := PortfolioOf(input);
    PortfolioIsSound(input);
    var base := Baseline(p);
    assert base.Keys == p.assets;
    forall a | a in base ensures base[a].minimum <= Get(p.filled, a) <= base[a].maximum {
      RangesOfOne(p, map[], a);
      OpenIsNonNegative(p, a);
    }
    hide Baseline, WithinCaps, PortfolioOf;
    assert input.filledPositions.Keys <= p.assets by { FilledAreAssets(input); }
    FilledAreNoWorse(p.filled, base, caps);
  }

  lemma FilledAreAssets(input: Input)
    ensures PortfolioOf(input).filled == input.filledPositions
              && input.filledPositions.Keys <= PortfolioOf(input).assets
  {
  }

  lemma SameMetricsSameCaps(a: map<Asset, Range>, b: map<Asset, Range>, caps: Caps)
    requires Magnitudes(a) == Magnitudes(b) && WorstNet(a) <= WorstNet(b) && WithinCaps(b, caps)
    ensures WithinCaps(a, caps)
  {
    hide Magnitude, WorstNet;
    forall k | k in a ensures Magnitude(a[k]) <= caps.asset {
      assert k in Magnitudes(a) && Magnitudes(a)[k] == Magnitudes(b)[k];
    }
  }

  /** When no action is within the caps, so is the chosen action. */
  lemma ChosenIsWithinCaps(p: Portfolio, rounded: Deltas, caps: Caps)
    requires Sound(p) && WithinCaps(Baseline(p), caps)
    ensures WithinCaps(RangesWith(p, ChosenDeltas(p, rounded, caps)), caps)
  {
    hide WithinCaps, Sound, Prune, RangesWith, Baseline, Kept, StagedFrom;
    if !WithinCaps(RangesWith(p, rounded), caps) {
      KeptIsStaged(p, rounded);
      PruningRestoresTheBaseline(p, Kept(p, rounded), rounded);
      SameMetricsSameCaps(RangesWith(p, ChosenDeltas(p, rounded, caps)), Baseline(p), caps);
    }
  }

  lemma ChosenKeys(p: Portfolio, rounded: Deltas, caps: Caps)
    requires Sound(p) && rounded.Keys == p.assets
    ensures ChosenDeltas(p, rounded, caps).Keys == p.assets
  {
    hide WithinCaps, Sound, Prune, RangesWith, Baseline, Kept;
    KeptIsStaged(p, rounded);
    PruningRestoresTheBaseline(p, Kept(p, rounded), rounded);
  }

  /** Any action within the caps means no action is, too. */
  lemma ActionOnlyWidens(p: Portfolio, deltas: Deltas, caps: Caps)
    requires Sound(p) && WithinCaps(RangesWith(p, deltas), caps)
    ensures WithinCaps(Baseline(p), caps)
  {
    hide WithinCaps, Sound;
    BaselineIsInside(p, deltas);
    hide RangesWith, Baseline, Inside;
    InsideCapsToo(Baseline(p), RangesWith(p, deltas), caps);
  }

  method ChooseDeltas(p: Portfolio, rounded: Deltas, caps: Caps) returns (chosen: Deltas)
    requires Sound(p)
    ensures chosen == ChosenDeltas(p, rounded, caps)
  {
    hide Sound, Prune, Kept, StagedFrom, RangesWith, Baseline, WithinCaps;
    var check := CheckCaps(RangesWith(p, rounded), caps);
    if check.Ok? {
      chosen := rounded;
    } else {
      chosen := StageRiskReducingDeltas(p, rounded);
    }
  }

  /** From filled positions beyond a cap the staged action is no worse than
      doing nothing exactly when each of its deltas trades back what is filled. */
  lemma BeyondCapsSucceedsWhen(p: Portfolio, rounded: Deltas, caps: Caps)
    requires Sound(p) && rounded.Keys == p.assets && !WithinCaps(Baseline(p), caps)
    ensures var chosen := ChosenDeltas(p, rounded, caps);
            && RangesWith(p, chosen).Keys == chosen.Keys == p.assets
            && (NoWorseThanBaseline(p, RangesWith(p, chosen), chosen) <==> OnlyReverses(p, chosen))
  {
    hide WithinCaps, Sound, Prune, RangesWith, Kept, StagedFrom, Gross, WorstNet, OnlyReduces, Reverses;
    if WithinCaps(RangesWith(p, rounded), caps) { ActionOnlyWidens(p, rounded, caps); }
    KeptIsStaged(p, rounded);
    PruningRestoresTheBaseline(p, Kept(p, rounded), rounded);
    ChosenKeys(p, rounded, caps);
    var chosen := ChosenDeltas(p, rounded, caps);
    RangeKeys(p, chosen);
    forall a | a in chosen && chosen[a] != 0.0
      ensures OnlyReduces(p, RangesWith(p, chosen), a, chosen[a]) <==> Reverses(Get(p.filled, a), chosen[a])
    {
      ReducingIsReversing(p, chosen, a);
    }
    assert forall a :: a in chosen && chosen[a] == 0.0 ==> Reverses(Get(p.filled, a), chosen[a]) by {
      NothingReverses();
    }
  }

  lemma NothingReverses()
    ensures forall filled :: Reverses(filled, 0.0)
  {
  }

  lemma ReducingIsReversing(p: Portfolio, deltas: Deltas, a: Asset)
    requires Magnitudes(RangesWith(p, deltas)) == Magnitudes(Baseline(p))
    requires a in deltas && deltas.Keys == p.assets && deltas[a] != 0.0
    ensures a in RangesWith(p, deltas)
    ensures OnlyReduces(p, RangesWith(p, deltas), a, deltas[a]) <==> Reverses(Get(p.filled, a), deltas[a])
  {
    hide Magnitude, AssetRange, Get;
    RangeKeys(p, deltas);
    RangeKeys(p, map[]);
    RangesOfOne(p, deltas, a);
    hide RangesWith;
    assert Magnitudes(RangesWith(p, deltas))[a] == Magnitudes(Baseline(p))[a];
  }

  /** Every sale can be rounded. */
  ghost predicate NoSaleBelowTick(input: Input) {
    forall a :: a in Assets(input) ==> !SellsBelowTick(input, PortfolioOf(input), ShapedTargets(input), a)
  }

  /** From within the caps, doing nothing stays there; from beyond a cap, the
      action only trades back what is filled. */
  ghost predicate ActionIsSafe(input: Input)
    requires Accepted(input)
  {
    if WithinCaps(Points(input.filledPositions), CapsOf(input))
    then WithinCaps(Baseline(PortfolioOf(input)), CapsOf(input))
    else OnlyReverses(PortfolioOf(input), ActionFor(input))
  }

  /** The projection. It succeeds exactly for accepted inputs of which every sale
      can be rounded and the action is safe: from filled positions within the
      caps, when taking no action would stay within them, and then its own ranges
      do; from filled positions beyond a cap, when its action only trades back what
      is filled, and then it makes nothing worse. */
  method ProjectAndValidatePortfolio(input: Input) returns (r: Result<Projection, Violation>)
    ensures r.Ok? <==> Accepted(input) && NoSaleBelowTick(input) && ActionIsSafe(input)
    ensures r.Ok? ==> Faithful(input, r.value) && Validated(input, r.value) && EndsAtTargets(input, r.value)
    ensures ValidateInput(input).Err? ==> r == Err(ValidateInput(input).error)
    ensures ValidateInput(input).Ok? && !Accepted(input) ==>
              exists i ::
                && 0 <= i < |input.openOrders| && !Known(input.openOrders[i])
                && (forall j :: 0 <= j < i ==> Known(input.openOrders[j]))
                && r == Err(OrderError(input.openOrders[i]))
    ensures Accepted(input) && !NoSaleBelowTick(input) ==> r == Err(ArithmeticOverflow)
    ensures Accepted(input) && MarksAtLeastTick(input) && WithinCaps(Points(input.filledPositions), CapsOf(input)) ==>
              (r.Ok? <==> WithinCaps(Baseline(PortfolioOf(input)), CapsOf(input)))
    ensures Accepted(input) && MarksAtLeastTick(input) && !WithinCaps(Points(input.filledPositions), CapsOf(input)) ==>
              (r.Ok? <==> OnlyReverses(PortfolioOf(input), ActionFor(input)))
    ensures Accepted(input) && MarksAtLeastTick(input) && WithinCaps(Baseline(PortfolioOf(input)), CapsOf(input)) ==>
              r.Ok? && WithinCaps(r.value.ranges, CapsOf(input))
  {
    hide WithinCaps, NoWorseThanBaseline, Constrained, ScaledTwice, RoundedTo, CapsOf, HasGoodRules, GoodScalars,
      Sound, RangesWith, Baseline, ChosenDeltas, Gross, MinimumNet, MaximumNet, Points, Proposed, Known, Describes,
      ShapedTargets, RoundedDeltas, OnlyReverses, MarksAtLeastTick, SellsBelowTick, EndsAtTargets, ReachTargets;
    var valid := ValidateInput(input);
    if valid.Err? {
      return Err(valid.error);
    }
    var open := ActiveOpenExposure(input.openOrders);
    if open.Err? {
      return Err(open.error);
    }
    var caps := CapsOf(input);
    var p := Portfolio(input.filledPositions, Assets(input), map a | a in Assets(input) :: Lookup(open.value, a));
    DescribedPortfolio(input, open.value);
    PortfolioIsSound(input);
    hide PortfolioOf, Assets;
    var constrained := ConstrainTargets(input);
    var deltas := ProposeDeltas(input, p, constrained);
    if deltas.Err? {
      MarksAllowSales(input);
      return Err(deltas.error);
    }
    RoundedIsRounded(input, deltas.value.0, deltas.value.1);
    var chosen := ChooseDeltas(p, deltas.value.1, caps);
    ChosenKeys(p, deltas.value.1, caps);
    RangeKeys(p, chosen);
    var ranges := RangesWith(p, chosen);
    var gross, minimum, maximum := RangeMetrics(ranges);
    var final := ValidateFinalRanges(p, ranges, chosen, caps);
    SafeBaseline(input, p, deltas.value.1, caps);
    if !WithinCaps(Points(input.filledPositions), caps) { BeyondCapsSucceedsWhen(p, deltas.value.1, caps); }
    if final.Err? {
      return Err(final.error);
    }
    r := Ok(Projection(constrained, deltas.value.0, chosen, ranges, gross, minimum, maximum));
    FaithfulEndsAtTargets(input, r.value);
  }

  lemma RoundedIsRounded(input: Input, proposed: Deltas, rounded: Deltas)
    requires proposed ==
              (map a | a in PortfolioOf(input).assets :: Proposed(PortfolioOf(input), ShapedTargets(input), a))
    requires RoundedTo(input, proposed, rounded)
    ensures rounded == RoundedDeltas(input) && rounded.Keys == PortfolioOf(input).assets
  {
    hide PortfolioOf, Proposed, ShapedTargets, RoundDelta;
  }

  // ------------------------------------- inputs that are accepted beyond caps

  /** Beyond the caps it is enough that every rounded delta that staging would
      keep trades back what is filled; which of them pruning drops is no matter. */
  lemma BeyondCapsSucceedsIf(p: Portfolio, rounded: Deltas, caps: Caps)
    requires Sound(p) && rounded.Keys == p.assets && !WithinCaps(Baseline(p), caps)
    requires forall a :: a in p.assets && Reduces(p, a, rounded[a]) ==> Reverses(Get(p.filled, a), rounded[a])
    ensures OnlyReverses(p, ChosenDeltas(p, rounded, caps))
  {
    hide WithinCaps, Sound, Prune, RangesWith, Kept, Gross, WorstNet, Reverses, Reduces, Baseline;
    if WithinCaps(RangesWith(p, rounded), caps) { ActionOnlyWidens(p, rounded, caps); }
    KeptIsStaged(p, rounded);
    PruningRestoresTheBaseline(p, Kept(p, rounded), rounded);
    NothingReverses();
    var chosen := ChosenDeltas(p, rounded, caps);
    forall a | a in chosen ensures Reverses(Get(p.filled, a), chosen[a]) {
      assert chosen[a] == 0.0 || (chosen[a] == Get(rounded, a) && Reduces(p, a, chosen[a]));
    }
  }

  /** No order may still trade. */
  predicate NothingOpen(input: Input) {
    forall o :: o in input.openOrders ==> o.lifecycle == CancelConfirmed
  }

  predicate SameSide(x: real, y: real) {
    (x >= 0.0 && y >= 0.0) || (x <= 0.0 && y <= 0.0)
  }

  /** No target lies across zero from what is filled. */
  ghost predicate NoTargetAcrossZero(input: Input) {
    forall a :: a in Assets(input) ==> SameSide(Get(input.filledPositions, a), Get(input.targets, a))
  }

  lemma AddingWorsens(filled: real, delta: real)
    requires SameSide(filled, delta) && delta != 0.0
    ensures var nothing := Exposure(0.0, 0.0);
            Magnitude(RangeOf(filled, nothing, delta)) > Magnitude(RangeOf(filled, nothing, 0.0))
  {
  }

  lemma OppositeStepIsPartial(filled: real, target: real, shaped: real, delta: real)
    requires SameSide(filled, target) && Shrunk(shaped, target) && Shrunk(delta, shaped - filled)
    requires !SameSide(filled, delta)
    ensures Reverses(filled, delta)
  {
  }

  /** A rounded step towards such a target either adds to the exposure or trades
      back no more than is filled. */
  lemma StepTowardsTarget(filled: real, target: real, shaped: real, delta: real)
    requires SameSide(filled, target) && Shrunk(shaped, target) && Shrunk(delta, shaped - filled)
    requires var nothing := Exposure(0.0, 0.0);
             Magnitude(RangeOf(filled, nothing, delta)) <= Magnitude(RangeOf(filled, nothing, 0.0))
    ensures Reverses(filled, delta)
  {
    hide Shrunk, SameSide, Magnitude, RangeOf, Reverses;
    NothingReverses();
    if delta != 0.0 {
      if SameSide(filled, delta) {
        AddingWorsens(filled, delta);
      } else {
        OppositeStepIsPartial(filled, target, shaped, delta);
      }
    }
  }

  lemma ShapedShrinks(input: Input, a: Asset)
    requires GoodScalars(input) && a in Assets(input)
    ensures a in ShapedTargets(input) && Shrunk(ShapedTargets(input)[a], Get(input.targets, a))
  {
    hide GrossScaled, NetScaled, Shrunk, Clamp, CapsOf, Assets, GoodScalars;
    CapsAreNonNegative(input);
    var caps := CapsOf(input);
    var clamped := Clamped(input.targets, Assets(input), caps.asset);
    GrossScaledShrinks(clamped, caps.gross);
    NetScaledShrinks(GrossScaled(clamped, caps.gross), caps.net);
    AllShrunkIsTransitive(ShapedTargets(input), GrossScaled(clamped, caps.gross), clamped);
    ClampedShrinks(ShapedTargets(input)[a], Get(input.targets, a), caps.asset);
  }

  lemma RoundedShrinks(input: Input, a: Asset, delta: real)
    requires HasGoodRules(input, a)
    ensures Shrunk(RoundedOne(input, a, delta), delta)
  {
    RoundDeltaIsInward(delta, input.rules[a]);
    hide RoundDelta;
  }

  lemma NothingOpenTrades(input: Input, a: Asset)
    requires NothingOpen(input)
    ensures Lookup(PortfolioOf(input).open, a) == Exposure(0.0, 0.0)
  {
    NotTraded(input.openOrders, Buy, a);
    NotTraded(input.openOrders, Sell, a);
  }

  lemma ReducingStepReverses(input: Input, a: Asset)
    requires Accepted(input) && NothingOpen(input) && NoTargetAcrossZero(input) && a in Assets(input)
    requires a in RoundedDeltas(input) && Reduces(PortfolioOf(input), a, RoundedDeltas(input)[a])
    ensures Reverses(Get(input.filledPositions, a), RoundedDeltas(input)[a])
  {
    hide Shrunk, RoundedOne, ShapedTargets, Magnitude, RangeOf, SameSide, Reverses, Known;
    NothingOpenTrades(input, a);
    ShapedShrinks(input, a);
    var filled, shaped := Get(input.filledPositions, a), ShapedTargets(input)[a];
    RoundedShrinks(input, a, shaped - filled);
    StepTowardsTarget(filled, Get(input.targets, a), shaped, RoundedDeltas(input)[a]);
  }

  lemma RestingRange(filled: real, a: Asset)
    ensures Get(map[], a) == 0.0
    ensures RangeOf(filled, Exposure(0.0, 0.0), 0.0) == Range(filled, filled)
  {
  }

  lemma RestingBaseline(input: Input)
    requires NothingOpen(input)
    ensures Baseline(PortfolioOf(input)) == Points(Padded(input.filledPositions, Assets(input)))
  {
    hide Assets, Lookup, Get, RangeOf, NothingOpen;
    var p := PortfolioOf(input);
    var base, points := Baseline(p), Points(Padded(input.filledPositions, Assets(input)));
    assert base.Keys == Assets(input) == points.Keys;
    forall a | a in Assets(input) ensures base[a] == points[a] {
      NothingOpenTrades(input, a);
      RestingRange(Get(input.filledPositions, a), a);
    }
  }

  /** With nothing open and no target across zero the action is always safe, from
      within the caps or from however far beyond them: an accepted input of which
      every sale can be rounded is projected. */
  lemma RestingPortfolioIsProjected(input: Input)
    requires Accepted(input) && NothingOpen(input) && NoTargetAcrossZero(input)
    ensures ActionIsSafe(input)
  {
    hide WithinCaps, Points, Baseline, Padded, CapsOf, ChosenDeltas, Reverses, Reduces, OnlyReverses, NothingOpen,
      NoTargetAcrossZero, Known, GoodScalars, Assets, HasGoodRules, RoundedOne;
    var p, caps := PortfolioOf(input), CapsOf(input);
    PortfolioIsSound(input);
    RestingBaseline(input);
    FilledAreAssets(input);
    CapsAreNonNegative(input);
    if WithinCaps(Points(input.filledPositions), caps) {
      FilledWithinCaps(input.filledPositions, Assets(input), caps);
    } else {
      if WithinCaps(Baseline(p), caps) { BaselineCoversFilled(input, caps); }
      forall a | a in p.assets && Reduces(p, a, RoundedDeltas(input)[a])
        ensures Reverses(Get(p.filled, a), RoundedDeltas(input)[a])
      {
        ReducingStepReverses(input, a);
      }
      BeyondCapsSucceedsIf(p, RoundedDeltas(input), caps);
    }
  }

  // ---------------------------------- an input that is refused beyond its caps

  /** Ten short against a cap of five, and a target five long. */
  function ShortTen(a: Asset): Input {
    Input(10.0, 10.0, 0.1, 0.5, 1.0, map[a := -10.0], true, [], true, map[a := 5.0],
        map[a := MarketRules(1.0, 1.0, 1.0)])
  }

  function ShortTenPortfolio(a: Asset): Portfolio {
    Portfolio(map[a := -10.0], {a}, map[a := Exposure(0.0, 0.0)])
  }

  lemma ShortTenIsAccepted(a: Asset)
    ensures Accepted(ShortTen(a)) && MarksAtLeastTick(ShortTen(a))
    ensures CapsOf(ShortTen(a)) == Caps(5.0, 10.0, 10.0)
    ensures PortfolioOf(ShortTen(a)) == ShortTenPortfolio(a)
  {
    assert Assets(ShortTen(a)) == {a};
    assert PortfolioOf(ShortTen(a)).open == map[a := Exposure(0.0, 0.0)];
  }

  lemma ShortTenTargets(a: Asset)
    ensures ShapedTargets(ShortTen(a)) == map[a := 5.0]
  {
    var input := ShortTen(a);
    ShortTenIsAccepted(a);
    assert Clamped(input.targets, Assets(input), 5.0) == map[a := 5.0];
    assert Absolutes(map[a := 5.0]) == map[a := 5.0];
    TotalOfOne(a, 5.0);
    hide CapsOf, Assets, Clamped, Total, Absolutes, Positives, Negatives;
  }

  lemma FifteenRoundsToItself()
    ensures RoundDelta(15.0, MarketRules(1.0, 1.0, 1.0)) == Ok(15.0)
  {
  }

  lemma ShortTenDeltas(a: Asset)
    ensures RoundedDeltas(ShortTen(a)) == map[a := 15.0]
  {
    ShortTenIsAccepted(a);
    ShortTenTargets(a);
    FifteenRoundsToItself();
    hide PortfolioOf, ShapedTargets, RoundDelta;
    assert Proposed(PortfolioOf(ShortTen(a)), map[a := 5.0], a) == 15.0;
  }

  lemma OneRange(a: Asset, r: Range)
    ensures Gross(map[a := r]) == Magnitude(r) && WorstNet(map[a := r]) == Worst(r.minimum, r.maximum)
  {
    TotalOfOne(a, Magnitude(r));
    TotalOfOne(a, r.minimum);
    TotalOfOne(a, r.maximum);
    assert Magnitudes(map[a := r]) == map[a := Magnitude(r)];
    assert Minimums(map[a := r]) == map[a := r.minimum];
    assert Maximums(map[a := r]) == map[a := r.maximum];
  }

  lemma ShortTenOpen(a: Asset)
    ensures var p := ShortTenPortfolio(a);
            && Sound(p) && Get(p.filled, a) == -10.0 && Lookup(p.open, a) == Exposure(0.0, 0.0)
            && Points(p.filled) == map[a := Range(-10.0, -10.0)]
  {
    assert Points(map[a := -10.0]) == map[a := Range(-10.0, -10.0)];
  }

  lemma OneAsset(p: Portfolio, deltas: Deltas, a: Asset)
    requires p.assets == {a}
    ensures RangesWith(p, deltas) == map[a := RangeOf(Get(p.filled, a), Lookup(p.open, a), Get(deltas, a))]
  {
    hide RangeOf, Get, Lookup;
  }

  lemma ShortTenRanges(a: Asset)
    ensures var p := ShortTenPortfolio(a);
            && Sound(p) && Points(p.filled) == Baseline(p) == map[a := Range(-10.0, -10.0)]
            && RangesWith(p, map[a := 15.0]) == map[a := Range(-10.0, 5.0)]
  {
    hide RangesWith, Points, Lookup, Sound;
    var p := ShortTenPortfolio(a);
    ShortTenOpen(a);
    OneAsset(p, map[], a);
    OneAsset(p, map[a := 15.0], a);
  }

  lemma ShortTenKeeps(a: Asset)
    ensures Kept(ShortTenPortfolio(a), map[a := 15.0]) == map[a := 15.0]
  {
    var p := ShortTenPortfolio(a);
    assert Magnitude(AssetRange(p, a, 15.0)) == 10.0 == Magnitude(AssetRange(p, a, 0.0));
    hide Magnitude, AssetRange;
    assert Kept(p, map[a := 15.0]) == map[a := 15.0];
  }

  lemma OneOverCap(a: Asset, r: Range, caps: Caps)
    requires Magnitude(r) > caps.asset
    ensures !WithinCaps(map[a := r], caps)
  {
    hide Magnitude, Gross, WorstNet;
    assert a in map[a := r];
  }

  lemma ShortTenAction(a: Asset)
    ensures var p, caps := ShortTenPortfolio(a), Caps(5.0, 10.0, 10.0);
            && Sound(p) && !WithinCaps(Points(p.filled), caps)
            && ChosenDeltas(p, map[a := 15.0], caps) == map[a := 15.0]
  {
    hide RangesWith, Baseline, Kept, Gross, MinimumNet, MaximumNet, StagedFrom, Prune, WithinCaps, Points,
      ShortTenPortfolio, Sound, WorstNet;
    var p, deltas, caps := ShortTenPortfolio(a), map[a := 15.0], Caps(5.0, 10.0, 10.0);
    ShortTenRanges(a);
    ShortTenKeeps(a);
    OneRange(a, Range(-10.0, 5.0));
    OneRange(a, Range(-10.0, -10.0));
    OneOverCap(a, Range(-10.0, -10.0), caps);
    OneOverCap(a, Range(-10.0, 5.0), caps);
    KeptIsStaged(p, deltas);
    PruneIsDone(p, deltas, deltas);
  }

  /** The purchase of fifteen leaves the worst exposure at ten, so staging keeps
      it whole; but it trades back more than is filled, so nothing is projected. */
  lemma ReversalPastZeroIsRefused(a: Asset)
    ensures var input := ShortTen(a);
            && Accepted(input) && MarksAtLeastTick(input)
            && !WithinCaps(Points(input.filledPositions), CapsOf(input))
            && ActionFor(input) == map[a := 15.0]
            && !OnlyReverses(PortfolioOf(input), ActionFor(input))
  {
    ShortTenIsAccepted(a);
    ShortTenDeltas(a);
    ShortTenAction(a);
    hide Accepted, MarksAtLeastTick, CapsOf, RoundedDeltas, ChosenDeltas, WithinCaps, Points, PortfolioOf;
    var deltas := ActionFor(ShortTen(a));
    assert a in deltas && !Reverses(-10.0, deltas[a]);
  }

  lemma DescribedPortfolio(input: Input, open: map<Asset, Exposure>)
    requires Describes(open, input.openOrders)
    ensures Portfolio(input.filledPositions, Assets(input), map a | a in Assets(input) :: Lookup(open, a)) ==
              PortfolioOf(input)
  {
  }

  lemma RangeKeys(p: Portfolio, deltas: Deltas)
    ensures RangesWith(p, deltas).Keys == p.assets
  {
  }

  lemma MarksAllowSales(input: Input)
    ensures MarksAtLeastTick(input) ==> NoSaleBelowTick(input)
  {
  }

  lemma SafeBaseline(input: Input, p: Portfolio, rounded: Deltas, caps: Caps)
    requires Accepted(input) && p == PortfolioOf(input) && Sound(p)
    ensures WithinCaps(Baseline(p), caps) ==>
              WithinCaps(Points(input.filledPositions), caps)
                  && WithinCaps(RangesWith(p, ChosenDeltas(p, rounded, caps)), caps)
    ensures WithinCaps(RangesWith(p, ChosenDeltas(p, rounded, caps)), caps) ==> WithinCaps(Baseline(p), caps)
  {
    hide WithinCaps, Sound, Baseline, RangesWith, ChosenDeltas, PortfolioOf, Points, Accepted;
    if WithinCaps(Baseline(p), caps) {
      BaselineCoversFilled(input, caps);
      ChosenIsWithinCaps(p, rounded, caps);
    }
    if WithinCaps(RangesWith(p, ChosenDeltas(p, rounded, caps)), caps) {
      ActionOnlyWidens(p, ChosenDeltas(p, rounded, caps), caps);
    }
  }

  /** Hence, from filled positions within the caps, a projection that is returned
      keeps every asset, the gross and the net within them whatever fraction of
      each open order and each delta fills. */
  lemma ProjectionIsSoundForEveryOutcome(input: Input, r: Projection, o: Outcome)
    requires Accepted(input) && Faithful(input, r) && Validated(input, r)
    requires WithinCaps(Points(input.filledPositions), CapsOf(input))
    requires Possible(o, input.openOrders, Assets(input))
    ensures |o.orders| == |input.openOrders| && o.deltas.Keys == Assets(input)
    ensures var e := FinalExposures(input.filledPositions, input.openOrders, Assets(input), r.roundedDeltas, o);
            && (forall a :: a in e ==> Abs(e[a]) <= input.currentEquity * input.maxSingleAssetPct)
            && Total(map a | a in e :: Abs(e[a])) <= input.currentEquity * input.curveLeverage * input.globalRiskScale
            && Abs(Total(e)) <= input.currentEquity * input.maxNetPct
  {
    hide CapsOf, WithinCaps, Describes, FinalExposures, Known, Points, Possible, Constrained, ScaledTwice, RoundedTo,
      ShapedTargets, RoundedDeltas, ActionFor, Gross, MinimumNet, MaximumNet, Proposed;
    PossibleShape(o, input.openOrders, Assets(input));
    CapsAreShares(input);
    OpenOfPortfolioDescribes(input);
    EveryOutcomeIsWithinCaps(
      input.filledPositions, input.openOrders, PortfolioOf(input).open, Assets(input), r.roundedDeltas, o,
      CapsOf(input));
  }
}
