/** `crates/copytrade-core/src/portfolio_risk.rs`: cutting a target vector down to
    the asset, gross and net caps, and rounding the resulting deltas. */
module TargetShaping {
  import opened Common
  import opened PortfolioRanges

  type Targets = map<Asset, real>

  function Absolutes(m: Targets): Targets {
    map a | a in m :: Abs(m[a])
  }

  function Positives(m: Targets): Targets {
    map a | a in m :: Max(m[a], 0.0)
  }

  function Negatives(m: Targets): Targets {
    map a | a in m :: Max(-m[a], 0.0)
  }

  ghost function TotalAbs(m: Targets): real {
    Total(Absolutes(m))
  }

  /** `after` keeps the sign of `before`, or is zero, and is no larger. */
  predicate Shrunk(after: real, before: real) {
    (before >= 0.0 && 0.0 <= after <= before) || (before <= 0.0 && before <= after <= 0.0)
  }

  ghost predicate AllShrunk(after: Targets, before: Targets) {
    after.Keys == before.Keys && forall a :: a in after ==> Shrunk(after[a], before[a])
  }

  lemma AllShrunkIsTransitive(a: Targets, b: Targets, c: Targets)
    requires AllShrunk(a, b) && AllShrunk(b, c)
    ensures AllShrunk(a, c)
  {
  }

  lemma ShrinkingLowersGross(after: Targets, before: Targets)
    requires AllShrunk(after, before)
    ensures TotalAbs(after) <= TotalAbs(before)
  {
    TotalMonotone(Absolutes(after), Absolutes(before));
  }

  lemma TwoSides(m: Targets)
    ensures Total(m) == Total(Positives(m)) - Total(Negatives(m))
    ensures Total(Positives(m)) >= 0.0 && Total(Negatives(m)) >= 0.0
  {
    var negated := map a | a in m :: -Negatives(m)[a];
    TotalAdd(m, Positives(m), negated);
    var zero := map a | a in m :: 0.0;
    TotalAdd(zero, Negatives(m), negated);
    TotalAdd(zero, zero, zero);
    TotalMonotone(zero, Positives(m));
    TotalMonotone(zero, Negatives(m));
  }

  // -------------------------------------------------------------------- clamp

  /** What is within the cap stays; the rest is cut to it, on its own side. */
  function Clamp(x: real, cap: real): (r: real)
    ensures Abs(x) <= cap ==> r == x
    ensures Abs(x) > cap >= 0.0 ==> Abs(r) == cap && (r >= 0.0 || x < 0.0) && (r <= 0.0 || x > 0.0)
  {
    Max(-cap, Min(cap, x))
  }

  function Clamped(targets: Targets, assets: set<Asset>, cap: real): Targets {
    map a | a in assets :: Clamp(Get(targets, a), cap)
  }

  // -------------------------------------------------------------- gross scaling

  /** The largest target, the first by name among equals. */
  ghost predicate IsLargest(a: Asset, targets: Targets) {
    && a in targets && targets[a] != 0.0
    && forall b :: b in targets ==>
         Abs(targets[b]) < Abs(targets[a]) || (Abs(targets[b]) == Abs(targets[a]) && TextAtMost(a, b))
  }

  method FindLargest(targets: Targets) returns (largest: Option<Asset>)
    ensures largest.None? <==> forall a :: a in targets ==> targets[a] == 0.0
    ensures largest.Some? ==> IsLargest(largest.value, targets)
  {
    largest := None;
    var rest := targets.Keys;
    while rest != {}
      invariant rest <= targets.Keys
      invariant largest.None? ==> forall a :: a in targets && a !in rest ==> targets[a] == 0.0
      invariant largest.Some? ==>
        && largest.value in targets && targets[largest.value] != 0.0 && largest.value !in rest
        && (forall b :: b in rest ==> TextAtMost(largest.value, b))
        && forall b :: b in targets && b !in rest ==>
             Abs(targets[b]) < Abs(targets[largest.value]) ||
             (Abs(targets[b]) == Abs(targets[largest.value]) && TextAtMost(largest.value, b))
      decreases rest
    {
      var a := Least(rest);
      rest := rest - {a};
      if targets[a] != 0.0 && (largest.None? || Abs(targets[a]) > Abs(targets[largest.value])) {
        largest := Some(a);
      }
    }
  }

  /** Takes a residual off the largest target, whatever left the sum above the
      cap. */
  method TrimGrossResidual(targets: Targets, cap: real) returns (r: Result<Targets, Violation>)
    ensures TotalAbs(targets) <= cap ==> r == Ok(targets)
    ensures r.Ok? ==> TotalAbs(r.value) <= cap && AllShrunk(r.value, targets)
    ensures r.Ok? && TotalAbs(targets) > cap ==>
              TotalAbs(r.value) == cap && exists a :: IsLargest(a, targets) && r.value == targets[a := r.value[a]]
    ensures r.Ok? <==>
              TotalAbs(targets) <= cap || exists a :: a in targets && Abs(targets[a]) >= TotalAbs(targets) - cap
  {
    var gross := SumValues(Absolutes(targets));
    if gross <= cap {
      return Ok(targets);
    }
    var residual := gross - cap;
    var largest := FindLargest(targets);
    if largest.None? {
      return Err(ArithmeticOverflow);
    }
    var a := largest.value;
    if Abs(targets[a]) < residual {
      return Err(ArithmeticOverflow);
    }
    var reduced := if targets[a] > 0.0 then targets[a] - residual else targets[a] + residual;
    assert Absolutes(targets[a := reduced]) == Absolutes(targets)[a := Abs(reduced)];
    TotalInsert(Absolutes(targets), a, Abs(reduced));
    r := Ok(targets[a := reduced]);
    assert r.value == targets[a := r.value[a]];
  }

  ghost predicate Exact(multiply: (real, real) -> real) {
    forall x, y :: multiply(x, y) == x * y
  }

  /** The loop over every target, with whatever product the decimals give. */
  method MultiplyAll(targets: Targets, scale: real, multiply: (real, real) -> real) returns (scaled: Targets)
    ensures scaled == map a | a in targets :: multiply(targets[a], scale)
  {
    scaled := map[];
    var rest := targets.Keys;
    while rest != {}
      invariant rest <= targets.Keys
      invariant scaled == map a | a in targets && a !in rest :: multiply(targets[a], scale)
      decreases rest
    {
      var a := Least(rest);
      rest := rest - {a};
      scaled := scaled[a := multiply(targets[a], scale)];
    }
  }

  /** Every target by the one factor that meets the cap, when there is need. */
  ghost function GrossScaled(targets: Targets, cap: real): Targets {
    var gross := TotalAbs(targets);
    if gross <= cap || gross == 0.0 then targets else map a | a in targets :: targets[a] * (cap / gross)
  }

  /** Scales every target by one factor to the gross cap. Whatever the products
      round to, a success is within the cap; with exact products it always
      succeeds, by scaling alone. */
  method ScaleTargetsToGrossCap(targets: Targets, cap: real, multiply: (real, real) -> real)
    returns (r: Result<Targets, Violation>)
    ensures TotalAbs(targets) <= cap ==> r == Ok(targets)
    ensures r.Ok? && cap >= 0.0 ==> TotalAbs(r.value) <= cap && r.value.Keys == targets.Keys
    ensures Exact(multiply) && cap >= 0.0 ==> r.Ok? && AllShrunk(r.value, targets)
    ensures Exact(multiply) && cap >= 0.0 && TotalAbs(targets) > cap ==>
              TotalAbs(r.value) == cap && AllScaled(targets, r.value, cap / TotalAbs(targets))
    ensures Exact(multiply) && cap >= 0.0 ==> r == Ok(GrossScaled(targets, cap))
  {
    hide Exact;
    var gross := SumValues(Absolutes(targets));
    if gross <= cap || gross == 0.0 {
      return Ok(targets);
    }
    var scale := cap / gross;
    var scaled := MultiplyAll(targets, scale, multiply);
    if Exact(multiply) && cap >= 0.0 {
      ExactScalingMeetsCap(targets, scaled, gross, cap, multiply);
      ScaledIsGrossScaled(targets, scaled, cap);
    }
    r := TrimGrossResidual(scaled, cap);
  }

  ghost predicate AllScaled(before: Targets, after: Targets, scale: real) {
    after.Keys == before.Keys && forall a :: a in before ==> Scaled(before[a], after[a], scale)
  }

  lemma ScaledIsGrossScaled(targets: Targets, scaled: Targets, cap: real)
    requires 0.0 <= cap < TotalAbs(targets) && AllScaled(targets, scaled, cap / TotalAbs(targets))
    ensures scaled == GrossScaled(targets, cap)
  {
    hide TotalAbs;
  }

  lemma ScalingShrinks(x: real, y: real, scale: real)
    requires 0.0 <= scale <= 1.0 && Scaled(x, y, scale)
    ensures Shrunk(y, x) && Scaled(Abs(x), Abs(y), scale)
  {
  }

  lemma ScaledVectorShrinks(before: Targets, after: Targets, scale: real)
    requires 0.0 <= scale <= 1.0 && AllScaled(before, after, scale)
    ensures AllShrunk(after, before) && Scaled(TotalAbs(before), TotalAbs(after), scale)
  {
    hide Scaled, Shrunk;
    forall a | a in before
      ensures Shrunk(after[a], before[a]) && Scaled(Absolutes(before)[a], Absolutes(after)[a], scale)
    {
      ScalingShrinks(before[a], after[a], scale);
    }
    TotalScaled(Absolutes(before), Absolutes(after), scale);
  }

  lemma QuotientIsFraction(part: real, whole: real)
    requires 0.0 <= part <= whole && whole > 0.0
    ensures 0.0 <= part / whole <= 1.0 && Scaled(whole, part, part / whole)
  {
  }

  lemma ExactScalingMeetsCap(targets: Targets, scaled: Targets, gross: real, cap: real, multiply: (real, real) -> real)
    requires gross == TotalAbs(targets) && 0.0 <= cap < gross && Exact(multiply)
    requires scaled == map a | a in targets :: multiply(targets[a], cap / gross)
    ensures AllScaled(targets, scaled, cap / gross) && AllShrunk(scaled, targets) && TotalAbs(scaled) == cap
  {
    QuotientIsFraction(cap, gross);
    var scale := cap / gross;
    forall a | a in targets ensures Scaled(targets[a], scaled[a], scale) {
      assert multiply(targets[a], scale) == targets[a] * scale;
    }
    hide Exact;
    ScaledVectorShrinks(targets, scaled, scale);
    SameProduct(gross, TotalAbs(scaled), cap, scale);
  }

  lemma GrossScaledShrinks(targets: Targets, cap: real)
    requires cap >= 0.0
    ensures AllShrunk(GrossScaled(targets, cap), targets)
  {
    hide TotalAbs, Shrunk;
    var gross := TotalAbs(targets);
    if gross <= cap || gross == 0.0 {
      ShrunkToItself(targets);
    } else {
      QuotientIsFraction(cap, gross);
      ScaledVectorShrinks(targets, GrossScaled(targets, cap), cap / gross);
    }
  }

  lemma ShrunkToItself(targets: Targets)
    ensures AllShrunk(targets, targets)
  {
  }

  lemma NetScaledShrinks(targets: Targets, cap: real)
    requires cap >= 0.0
    ensures AllShrunk(NetScaled(targets, cap), targets)
  {
    hide ScaledOneSide, Positives, Negatives, AllShrunk;
    TwoSides(targets);
    ShrunkToItself(targets);
    var positive, negative := Total(Positives(targets)), Total(Negatives(targets));
    if Total(targets) > cap && positive != 0.0 {
      var scale := (negative + cap) / positive;
      SideMeetsCap(targets, true, positive, negative + cap, scale, ScaledOneSide(targets, true, scale));
    } else if Total(targets) < -cap && negative != 0.0 {
      var scale := (positive + cap) / negative;
      SideMeetsCap(targets, false, negative, positive + cap, scale, ScaledOneSide(targets, false, scale));
    }
  }

  lemma SameProduct(x: real, y: real, z: real, factor: real)
    requires Scaled(x, y, factor) && Scaled(x, z, factor)
    ensures y == z
  {
  }

  // ---------------------------------------------------------------- net scaling

  predicate OnSide(x: real, positive: bool) {
    if positive then x > 0.0 else x < 0.0
  }

  function SideScaled(x: real, positive: bool, scale: real): real {
    if OnSide(x, positive) then x * scale else x
  }

  function ScaledOneSide(targets: Targets, positive: bool, scale: real): Targets {
    map a | a in targets :: SideScaled(targets[a], positive, scale)
  }

  /** Scales the targets of one sign and leaves the others. */
  method ScaleSide(targets: Targets, positive: bool, scale: real) returns (scaled: Targets)
    ensures scaled == ScaledOneSide(targets, positive, scale)
  {
    hide SideScaled;
    scaled := map[];
    var rest := targets.Keys;
    while rest != {}
      invariant rest <= targets.Keys
      invariant scaled == map a | a in targets && a !in rest :: SideScaled(targets[a], positive, scale)
      decreases rest
    {
      var a := Least(rest);
      rest := rest - {a};
      scaled := scaled[a := SideScaled(targets[a], positive, scale)];
    }
  }

  ghost function Side(m: Targets, positive: bool): Targets {
    if positive then Positives(m) else Negatives(m)
  }

  lemma SideScalesOne(x: real, positive: bool, scale: real, y: real)
    requires 0.0 <= scale <= 1.0 && y == SideScaled(x, positive, scale)
    ensures Shrunk(y, x)
    ensures positive ==> Scaled(Max(x, 0.0), Max(y, 0.0), scale) && Max(-y, 0.0) == Max(-x, 0.0)
    ensures !positive ==> Scaled(Max(-x, 0.0), Max(-y, 0.0), scale) && Max(y, 0.0) == Max(x, 0.0)
  {
    if OnSide(x, positive) { ScalingShrinks(x, y, scale); }
  }

  lemma ScaledSideTotals(targets: Targets, positive: bool, scale: real, scaled: Targets)
    requires 0.0 <= scale <= 1.0
    requires scaled == ScaledOneSide(targets, positive, scale)
    ensures AllShrunk(scaled, targets)
    ensures Scaled(Total(Side(targets, positive)), Total(Side(scaled, positive)), scale)
    ensures Side(scaled, !positive) == Side(targets, !positive)
  {
    hide Shrunk, Scaled, Max, SideScaled;
    forall a | a in targets
      ensures Shrunk(scaled[a], targets[a])
      ensures Scaled(Side(targets, positive)[a], Side(scaled, positive)[a], scale)
      ensures Side(scaled, !positive)[a] == Side(targets, !positive)[a]
    {
      SideScalesOne(targets[a], positive, scale, scaled[a]);
    }
    TotalScaled(Side(targets, positive), Side(scaled, positive), scale);
  }

  /** The heavier side by the one factor that meets the cap, when there is need. */
  ghost function NetScaled(targets: Targets, cap: real): Targets {
    var positive, negative := Total(Positives(targets)), Total(Negatives(targets));
    if Total(targets) > cap && positive != 0.0 then ScaledOneSide(targets, true, (negative + cap) / positive)
    else if Total(targets) < -cap && negative != 0.0 then ScaledOneSide(targets, false, (positive + cap) / negative)
    else targets
  }

  /** Scales the heavier side until the net meets its cap. */
  method EnforceTargetNetCap(targets: Targets, cap: real) returns (r: Targets)
    ensures cap >= 0.0 ==> AllShrunk(r, targets) && Abs(Total(r)) <= cap
    ensures cap >= 0.0 && Total(targets) > cap ==>
              Total(r) == cap && exists scale :: r == ScaledOneSide(targets, true, scale)
    ensures cap >= 0.0 && Total(targets) < -cap ==>
              Total(r) == -cap && exists scale :: r == ScaledOneSide(targets, false, scale)
    ensures Abs(Total(targets)) <= cap ==> r == targets
    ensures r == NetScaled(targets, cap)
  {
    hide ScaledOneSide, Positives, Negatives;
    var positive := SumValues(Positives(targets));
    var negative := SumValues(Negatives(targets));
    TwoSides(targets);
    var net := positive - negative;
    if net > cap && positive != 0.0 {
      var scale := (negative + cap) / positive;
      r := ScaleSide(targets, true, scale);
      if cap >= 0.0 {
        SideMeetsCap(targets, true, positive, negative + cap, scale, r);
      }
    } else if net < -cap && negative != 0.0 {
      var scale := (positive + cap) / negative;
      r := ScaleSide(targets, false, scale);
      if cap >= 0.0 {
        SideMeetsCap(targets, false, negative, positive + cap, scale, r);
      }
    } else {
      r := targets;
    }
  }

  lemma SideMeetsCap(targets: Targets, positive: bool, whole: real, allowed: real, scale: real, scaled: Targets)
    requires whole == Total(Side(targets, positive)) && 0.0 <= allowed <= whole && whole > 0.0
    requires scale == allowed / whole
    requires scaled == ScaledOneSide(targets, positive, scale)
    ensures AllShrunk(scaled, targets)
    ensures Side(scaled, !positive) == Side(targets, !positive)
    ensures Total(Side(scaled, positive)) == allowed
    ensures Total(scaled) == if positive then allowed - Total(Negatives(targets))
              else Total(Positives(targets)) - allowed
  {
    QuotientIsFraction(allowed, whole);
    ScaledSideTotals(targets, positive, scale, scaled);
    SameProduct(whole, Total(Side(scaled, positive)), allowed, scale);
    TwoSides(scaled);
  }

  // ------------------------------------------------------------------- rounding

  function CheckedDivide(x: real, y: real): Result<real, Violation> {
    if y == 0.0 then Err(ArithmeticOverflow) else Ok(x / y)
  }

  function RoundDownToStep(value: real, step: real): Result<real, Violation> {
    var units := CheckedDivide(value, step);
    if units.Err? then units else Ok(GridPoint(units.value.Floor, step))
  }

  function RoundUpToStep(value: real, step: real): Result<real, Violation> {
    var units := CheckedDivide(value, step);
    if units.Err? then units else Ok(GridPoint(Ceiling(units.value), step))
  }

  /** A delta as whole size steps at a price. */
  function RoundAtPrice(delta: real, price: real, sizeStep: real): Result<real, Violation> {
    var quantity := CheckedDivide(Abs(delta), price);
    if quantity.Err? then quantity
    else
      var steps := RoundDownToStep(quantity.value, sizeStep);
      if steps.Err? then steps
      else
        var notional := steps.value * price;
        Ok(if delta > 0.0 then notional else -notional)
  }

  /** A delta is sized at the price its action will carry: the mark, moved to
      the grid against the trade. */
  function RoundDelta(delta: real, rules: MarketRules): Result<real, Violation> {
    if delta == 0.0 then Ok(0.0)
    else
      var price := if delta > 0.0 then RoundUpToStep(rules.markPrice, rules.priceTick)
                   else RoundDownToStep(rules.markPrice, rules.priceTick);
      if price.Err? then price else RoundAtPrice(delta, price.value, rules.sizeStep)
  }

  predicate PositiveRules(rules: MarketRules) {
    rules.markPrice > 0.0 && rules.priceTick > 0.0 && rules.sizeStep > 0.0
  }

  lemma RoundedToStep(value: real, step: real)
    requires step > 0.0 && value >= 0.0
    ensures RoundDownToStep(value, step).Ok? && RoundUpToStep(value, step).Ok?
    ensures 0.0 <= RoundDownToStep(value, step).value <= value < RoundDownToStep(value, step).value + step
    ensures value <= RoundUpToStep(value, step).value
    ensures RoundDownToStep(value, step).value > 0.0 <==> value >= step
  {
    DivideThenMultiply(value, step);
    GridBounds(value / step, value, step);
    FloorSign(value, step, value / step);
  }

  lemma FloorSign(value: real, step: real, units: real)
    requires step > 0.0 && value >= 0.0 && units * step == value
    ensures GridPoint(units.Floor, step) >= 0.0
    ensures GridPoint(units.Floor, step) > 0.0 <==> value >= step
  {
  }

  lemma RoundAtPriceIsInward(delta: real, price: real, sizeStep: real)
    requires price > 0.0 && sizeStep > 0.0
    ensures RoundAtPrice(delta, price, sizeStep).Ok?
    ensures Shrunk(RoundAtPrice(delta, price, sizeStep).value, delta)
  {
  }

  /** Rounding a delta never turns it round or enlarges it. It fails exactly for
      a sale at a mark below one tick. */
  lemma RoundDeltaIsInward(delta: real, rules: MarketRules)
    requires PositiveRules(rules)
    ensures RoundDelta(delta, rules).Ok? <==> !(delta < 0.0 && rules.markPrice < rules.priceTick)
    ensures RoundDelta(delta, rules).Err? ==> RoundDelta(delta, rules).error == ArithmeticOverflow
    ensures RoundDelta(delta, rules).Ok? ==> Shrunk(RoundDelta(delta, rules).value, delta)
  {
    RoundedToStep(rules.markPrice, rules.priceTick);
    hide RoundDownToStep, RoundUpToStep;
    if delta != 0.0 {
      var price := if delta > 0.0 then RoundUpToStep(rules.markPrice, rules.priceTick).value
                   else RoundDownToStep(rules.markPrice, rules.priceTick).value;
      if price > 0.0 {
        RoundAtPriceIsInward(delta, price, rules.sizeStep);
        hide RoundAtPrice;
      }
    }
  }

  /** The grid price next to the mark, against the trade. */
  ghost predicate NextPrice(delta: real, rules: MarketRules, price: real) {
    && OnGrid(price, rules.priceTick) && price > 0.0
    && (delta > 0.0 ==> price - rules.priceTick < rules.markPrice <= price)
    && (delta < 0.0 ==> price <= rules.markPrice < price + rules.priceTick)
  }

  /** As many whole size steps at a price as the delta pays for. */
  ghost predicate MostSteps(delta: real, price: real, sizeStep: real, rounded: real) {
    && (exists quantity ::
          OnGrid(quantity, sizeStep) && rounded == (if delta > 0.0 then quantity else -quantity) * price)
    && (delta > 0.0 ==> 0.0 <= rounded <= delta < rounded + sizeStep * price)
    && (delta < 0.0 ==> rounded - sizeStep * price < delta <= rounded <= 0.0)
  }

  ghost predicate RoundedWell(delta: real, rules: MarketRules, rounded: real) {
    if delta == 0.0 then rounded == 0.0
    else exists price :: NextPrice(delta, rules, price) && MostSteps(delta, price, rules.sizeStep, rounded)
  }

  lemma MostStepsAre(delta: real, price: real, sizeStep: real, quantity: real, wanted: real)
    requires price > 0.0 && OnGrid(quantity, sizeStep) && 0.0 <= quantity <= wanted < quantity + sizeStep
    requires wanted * price == Abs(delta)
    ensures MostSteps(delta, price, sizeStep, (if delta > 0.0 then quantity else -quantity) * price)
  {
    hide OnGrid;
    PaysFor(quantity, wanted, sizeStep, price);
  }

  lemma StepsAreTheMost(delta: real, price: real, sizeStep: real)
    requires price > 0.0 && sizeStep > 0.0 && delta != 0.0
    ensures RoundAtPrice(delta, price, sizeStep).Ok?
    ensures MostSteps(delta, price, sizeStep, RoundAtPrice(delta, price, sizeStep).value)
  {
    hide MostSteps;
    var wanted := Abs(delta) / price;
    DivideThenMultiply(Abs(delta), price);
    QuotientIsNonNegative(Abs(delta), price);
    RoundedToStep(wanted, sizeStep);
    RoundedIsOnGrid(wanted, sizeStep);
    hide RoundDownToStep, OnGrid, Abs;
    var quantity := RoundDownToStep(wanted, sizeStep).value;
    MostStepsAre(delta, price, sizeStep, quantity, wanted);
    NegatedProduct(quantity, price);
    assert RoundAtPrice(delta, price, sizeStep).value == (if delta > 0.0 then quantity else -quantity) * price;
  }

  lemma NegatedProduct(quantity: real, price: real)
    ensures (-quantity) * price == -(quantity * price)
  {
  }

  lemma QuotientIsNonNegative(x: real, y: real)
    requires x >= 0.0 && y > 0.0
    ensures x / y >= 0.0
  {
  }

  lemma RoundedIsOnGrid(value: real, step: real)
    requires RoundDownToStep(value, step).Ok?
    ensures OnGrid(RoundDownToStep(value, step).value, step)
  {
  }

  lemma PaysFor(quantity: real, wanted: real, sizeStep: real, price: real)
    requires price > 0.0 && 0.0 <= quantity <= wanted < quantity + sizeStep
    ensures 0.0 <= quantity * price <= wanted * price < quantity * price + sizeStep * price
    ensures (-quantity) * price == -(quantity * price)
  {
  }

  lemma PriceIsNext(delta: real, rules: MarketRules, price: real)
    requires PositiveRules(rules) && delta != 0.0 && !(delta < 0.0 && rules.markPrice < rules.priceTick)
    requires Ok(price) == if delta > 0.0 then RoundUpToStep(rules.markPrice, rules.priceTick)
                          else RoundDownToStep(rules.markPrice, rules.priceTick)
    ensures NextPrice(delta, rules, price)
  {
    var units := rules.markPrice / rules.priceTick;
    DivideThenMultiply(rules.markPrice, rules.priceTick);
    GridBounds(units, rules.markPrice, rules.priceTick);
    RoundedToStep(rules.markPrice, rules.priceTick);
    assert GridPoint(if delta > 0.0 then Ceiling(units) else units.Floor, rules.priceTick) == price;
    hide GridPoint;
  }

  /** A rounded delta is as many whole size steps as the delta pays for at the next
      grid price against the trade: less than one step short of it. */
  lemma RoundDeltaIsNearest(delta: real, rules: MarketRules)
    requires PositiveRules(rules) && RoundDelta(delta, rules).Ok?
    ensures RoundedWell(delta, rules, RoundDelta(delta, rules).value)
  {
    hide NextPrice, MostSteps, RoundUpToStep, RoundDownToStep, RoundAtPrice;
    RoundDeltaIsInward(delta, rules);
    if delta != 0.0 {
      var price := (if delta > 0.0 then RoundUpToStep(rules.markPrice, rules.priceTick)
                    else RoundDownToStep(rules.markPrice, rules.priceTick)).value;
      PriceIsNext(delta, rules, price);
      NextIsPositive(delta, rules, price);
      StepsAreTheMost(delta, price, rules.sizeStep);
    }
  }

  lemma NextIsPositive(delta: real, rules: MarketRules, price: real)
    requires NextPrice(delta, rules, price)
    ensures price > 0.0
  {
  }
}
