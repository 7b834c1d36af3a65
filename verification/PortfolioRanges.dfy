/** `crates/copytrade-core/src/portfolio_risk.rs`: inputs, the exposure an
    unresolved portfolio may end at, and what its projected ranges bound. */
module PortfolioRanges {
  import opened Common

  type Asset = Text

  datatype OrderSide = Buy | Sell

  datatype OrderLifecycle = Acknowledged | CancelRequested | CancelConfirmed | SubmissionUnknown | Unknown

  datatype OpenOrder = OpenOrder(
    asset: Asset, side: Option<OrderSide>, notional: Option<real>, lifecycle: OrderLifecycle)

  datatype MarketRules = MarketRules(markPrice: real, priceTick: real, sizeStep: real)

  datatype Range = Range(minimum: real, maximum: real)

  datatype Input = Input(
    currentEquity: real, curveLeverage: real, globalRiskScale: real,
    maxSingleAssetPct: real, maxNetPct: real,
    filledPositions: map<Asset, real>, filledComplete: bool,
    openOrders: seq<OpenOrder>, openComplete: bool,
    targets: map<Asset, real>, rules: map<Asset, MarketRules>)

  datatype Violation =
    | InvalidInput
    | MissingMarketRules(asset: Asset)
    | IncompleteFilledPositionState
    | IncompleteOpenOrderState
    | UnknownOpenOrderState(asset: Asset)
    | ArithmeticOverflow
    | AssetCapExceeded(asset: Asset)
    | GrossCapExceeded(projected: real, cap: real)
    | NetCapExceeded
    | ExistingRiskIncreased(asset: Asset)

  /** A missing entry counts as zero. */
  function Get(m: map<Asset, real>, a: Asset): real {
    if a in m then m[a] else 0.0
  }

  function Assets(input: Input): set<Asset> {
    input.filledPositions.Keys + input.targets.Keys +
    set o | o in input.openOrders && o.lifecycle != CancelConfirmed :: o.asset
  }

  // -------------------------------------------------------------- open orders

  datatype Exposure = Exposure(buy: real, sell: real)

  function Lookup(open: map<Asset, Exposure>, a: Asset): Exposure {
    if a in open then open[a] else Exposure(0.0, 0.0)
  }

  predicate Known(o: OpenOrder) {
    o.lifecycle == CancelConfirmed ||
    (o.lifecycle != Unknown && o.side.Some? && o.notional.Some? && o.notional.value >= 0.0)
  }

  /** What one order may still buy, or sell, of an asset. */
  function MayTrade(o: OpenOrder, side: OrderSide, a: Asset): real {
    if o.lifecycle != CancelConfirmed && o.asset == a && o.side == Some(side) && o.notional.Some?
    then o.notional.value
    else 0.0
  }

  function OpenTotal(orders: seq<OpenOrder>, side: OrderSide, a: Asset): real {
    if orders == [] then 0.0 else OpenTotal(orders[..|orders| - 1], side, a) + MayTrade(orders[|orders| - 1], side, a)
  }

  ghost predicate Describes(open: map<Asset, Exposure>, orders: seq<OpenOrder>) {
    forall a :: Lookup(open, a) == Exposure(OpenTotal(orders, Buy, a), OpenTotal(orders, Sell, a))
  }

  lemma OneMoreOrder(open: map<Asset, Exposure>, orders: seq<OpenOrder>, o: OpenOrder, entry: Exposure)
    requires Describes(open, orders)
    requires var was := Lookup(open, o.asset);
             entry == Exposure(was.buy + MayTrade(o, Buy, o.asset), was.sell + MayTrade(o, Sell, o.asset))
    ensures Describes(open[o.asset := entry], orders + [o])
    ensures o.lifecycle == CancelConfirmed ==> Describes(open, orders + [o])
  {
    assert (orders + [o])[..|orders|] == orders;
    forall a, side ensures OpenTotal(orders + [o], side, a) == OpenTotal(orders, side, a) + MayTrade(o, side, a) {
    }
  }

  function OrderError(o: OpenOrder): Violation {
    if o.lifecycle != Unknown && o.side.Some? && o.notional.Some? then InvalidInput else UnknownOpenOrderState(o.asset)
  }

  method ActiveOpenExposure(orders: seq<OpenOrder>) returns (r: Result<map<Asset, Exposure>, Violation>)
    ensures r.Ok? <==> forall o :: o in orders ==> Known(o)
    ensures r.Ok? ==> Describes(r.value, orders)
    ensures r.Err? ==> exists i :: 0 <= i < |orders| && !Known(orders[i]) && r.error == OrderError(orders[i]) &&
                         forall j :: 0 <= j < i ==> Known(orders[j])
  {
    var open: map<Asset, Exposure> := map[];
    var i := 0;
    while i < |orders|
      invariant 0 <= i <= |orders|
      invariant forall j :: 0 <= j < i ==> Known(orders[j])
      invariant Describes(open, orders[..i])
    {
      var o := orders[i];
      assert orders[..i + 1][..i] == orders[..i] && orders[..i + 1][i] == o;
      if o.lifecycle != CancelConfirmed {
        if o.lifecycle == Unknown || o.side.None? || o.notional.None? || o.notional.value < 0.0 {
          assert o in orders && !Known(o);
          return Err(OrderError(o));
        }
        var entry := Lookup(open, o.asset);
        match o.side.value {
          case Buy => entry := entry.(buy := entry.buy + o.notional.value);
          case Sell => entry := entry.(sell := entry.sell + o.notional.value);
        }
        OneMoreOrder(open, orders[..i], o, entry);
        open := open[o.asset := entry];
      } else {
        OneMoreOrder(open, orders[..i], o, Lookup(open, o.asset));
      }
      assert orders[..i + 1] == orders[..i] + [o];
      i := i + 1;
    }
    assert orders[..i] == orders;
    r := Ok(open);
  }

  // ------------------------------------------------------------------- ranges

  function RangeOf(filled: real, open: Exposure, delta: real): Range {
    Range(filled - open.sell - Max(-delta, 0.0), filled + open.buy + Max(delta, 0.0))
  }

  function ProjectedRanges(
    filled: map<Asset, real>, assets: set<Asset>, open: map<Asset, Exposure>,
    deltas: map<Asset, real>): map<Asset, Range>
  {
    map a | a in assets :: RangeOf(Get(filled, a), Lookup(open, a), Get(deltas, a))
  }

  function Magnitude(r: Range): real {
    Max(Abs(r.minimum), Abs(r.maximum))
  }

  function Magnitudes(ranges: map<Asset, Range>): map<Asset, real> {
    map a | a in ranges :: Magnitude(ranges[a])
  }

  function Minimums(ranges: map<Asset, Range>): map<Asset, real> {
    map a | a in ranges :: ranges[a].minimum
  }

  function Maximums(ranges: map<Asset, Range>): map<Asset, real> {
    map a | a in ranges :: ranges[a].maximum
  }

  ghost function Gross(ranges: map<Asset, Range>): real {
    Total(Magnitudes(ranges))
  }

  ghost function MinimumNet(ranges: map<Asset, Range>): real {
    Total(Minimums(ranges))
  }

  ghost function MaximumNet(ranges: map<Asset, Range>): real {
    Total(Maximums(ranges))
  }

  function Worst(minimum: real, maximum: real): real {
    Max(Abs(minimum), Abs(maximum))
  }

  ghost function WorstNet(ranges: map<Asset, Range>): real {
    Worst(MinimumNet(ranges), MaximumNet(ranges))
  }

  method SumValues(m: map<Asset, real>) returns (sum: real)
    ensures sum == Total(m)
  {
    sum := 0.0;
    var rest := m;
    while rest != map[]
      invariant sum + Total(rest) == Total(m)
      decreases |rest|
    {
      var a := Least(rest.Keys);
      TotalSplit(rest, a);
      sum := sum + rest[a];
      rest := rest - {a};
    }
  }

  method RangeMetrics(ranges: map<Asset, Range>) returns (gross: real, minimumNet: real, maximumNet: real)
    ensures gross == Gross(ranges) && minimumNet == MinimumNet(ranges) && maximumNet == MaximumNet(ranges)
  {
    gross := SumValues(Magnitudes(ranges));
    minimumNet := SumValues(Minimums(ranges));
    maximumNet := SumValues(Maximums(ranges));
  }

  datatype Caps = Caps(asset: real, gross: real, net: real)

  ghost predicate WithinCaps(ranges: map<Asset, Range>, caps: Caps) {
    && (forall a :: a in ranges ==> Magnitude(ranges[a]) <= caps.asset)
    && Gross(ranges) <= caps.gross
    && WorstNet(ranges) <= caps.net
  }

  /** Every range of `inner` lies in the range of `outer` for the same asset. */
  ghost predicate Inside(inner: map<Asset, Range>, outer: map<Asset, Range>) {
    && inner.Keys == outer.Keys
    && forall a :: a in inner ==>
         && outer[a].minimum <= inner[a].minimum
         && inner[a].minimum <= inner[a].maximum
         && inner[a].maximum <= outer[a].maximum
  }

  lemma InsideIsNoWorse(inner: map<Asset, Range>, outer: map<Asset, Range>)
    requires Inside(inner, outer)
    ensures forall a :: a in inner ==> Magnitude(inner[a]) <= Magnitude(outer[a])
    ensures Gross(inner) <= Gross(outer)
    ensures MinimumNet(outer) <= MinimumNet(inner) <= MaximumNet(inner) <= MaximumNet(outer)
    ensures WorstNet(inner) <= WorstNet(outer)
  {
    TotalMonotone(Magnitudes(inner), Magnitudes(outer));
    TotalMonotone(Minimums(outer), Minimums(inner));
    TotalMonotone(Minimums(inner), Maximums(inner));
    TotalMonotone(Maximums(inner), Maximums(outer));
  }

  lemma InsideCapsToo(inner: map<Asset, Range>, outer: map<Asset, Range>, caps: Caps)
    requires Inside(inner, outer) && WithinCaps(outer, caps)
    ensures WithinCaps(inner, caps)
  {
    InsideIsNoWorse(inner, outer);
  }

  // ----------------------------------------------------------------- outcomes

  /** How the portfolio resolves: the fraction each open order and each proposed
      delta ends up filled. */
  datatype Outcome = Outcome(orders: seq<real>, deltas: map<Asset, real>)

  predicate Fraction(x: real) {
    0.0 <= x <= 1.0
  }

  ghost predicate Possible(o: Outcome, orders: seq<OpenOrder>, assets: set<Asset>) {
    && |o.orders| == |orders| && (forall i :: 0 <= i < |orders| ==> Fraction(o.orders[i]))
    && o.deltas.Keys == assets && (forall a :: a in assets ==> Fraction(o.deltas[a]))
  }

  function Part(whole: real, fraction: real): real {
    whole * fraction
  }

  /** What one order adds to an asset's exposure when it fills whole: every order
      not known to be cancelled may still fill. */
  function WholeFill(o: OpenOrder, a: Asset): real {
    match o
    case OpenOrder(asset, Some(side), Some(notional), lifecycle) =>
      if asset != a || lifecycle.CancelConfirmed? then 0.0 else if side.Buy? then notional else -notional
    case _ => 0.0
  }

  /** What the open orders add to an asset's exposure when they fill so far. */
  function OrderFills(orders: seq<OpenOrder>, fills: seq<real>, a: Asset): real
    requires |fills| == |orders|
  {
    if orders == [] then 0.0
    else
      var n := |orders| - 1;
      OrderFills(orders[..n], fills[..n], a) + Part(WholeFill(orders[n], a), fills[n])
  }

  function FinalExposure(filled: real, orders: seq<OpenOrder>, delta: real, o: Outcome, a: Asset): real
    requires |o.orders| == |orders| && a in o.deltas
  {
    filled + OrderFills(orders, o.orders, a) + Part(delta, o.deltas[a])
  }

  lemma PartIsBetween(whole: real, fraction: real)
    requires Fraction(fraction)
    ensures whole >= 0.0 ==> 0.0 <= Part(whole, fraction) <= whole
    ensures whole <= 0.0 ==> whole <= Part(whole, fraction) <= 0.0
  {
  }

  lemma {:induction false} OrderFillsAreBounded(orders: seq<OpenOrder>, fills: seq<real>, a: Asset)
    requires |fills| == |orders| && forall i :: 0 <= i < |orders| ==> Known(orders[i]) && Fraction(fills[i])
    ensures -OpenTotal(orders, Sell, a) <= OrderFills(orders, fills, a) <= OpenTotal(orders, Buy, a)
  {
    if orders != [] {
      var n := |orders| - 1;
      OrderFillsAreBounded(orders[..n], fills[..n], a);
      hide Part;
      PartIsBetween(WholeFill(orders[n], a), fills[n]);
    }
  }

  /** The exposures a portfolio ends at. */
  function FinalExposures(
    filled: map<Asset, real>, orders: seq<OpenOrder>, assets: set<Asset>, deltas: map<Asset, real>,
    o: Outcome): map<Asset, real>
    requires |o.orders| == |orders| && assets <= o.deltas.Keys
  {
    map a | a in assets :: FinalExposure(Get(filled, a), orders, Get(deltas, a), o, a)
  }

  /** Exposures as ranges of one point each. */
  function Points(m: map<Asset, real>): map<Asset, Range> {
    map a | a in m :: Range(m[a], m[a])
  }

  lemma PointAndRange(
    filled: map<Asset, real>, orders: seq<OpenOrder>, open: map<Asset, Exposure>, assets: set<Asset>,
    deltas: map<Asset, real>, o: Outcome)
    requires |o.orders| == |orders| && assets <= o.deltas.Keys
    ensures var points := Points(FinalExposures(filled, orders, assets, deltas, o));
            var ranges := ProjectedRanges(filled, assets, open, deltas);
            && points.Keys == assets == ranges.Keys
            && forall a :: a in assets ==>
                 var e := FinalExposure(Get(filled, a), orders, Get(deltas, a), o, a);
                 points[a] == Range(e, e) && ranges[a] == RangeOf(Get(filled, a), Lookup(open, a), Get(deltas, a))
  {
    hide FinalExposure, RangeOf, Get, Lookup;
  }

  lemma PossibleShape(o: Outcome, orders: seq<OpenOrder>, assets: set<Asset>)
    requires Possible(o, orders, assets)
    ensures |o.orders| == |orders| && o.deltas.Keys == assets
  {
  }

  /** Whatever the open orders and the deltas end up filling, every asset ends
      inside its projected range. */
  lemma RangesBoundEveryOutcome(
    filled: map<Asset, real>, orders: seq<OpenOrder>, open: map<Asset, Exposure>, assets: set<Asset>,
    deltas: map<Asset, real>, o: Outcome)
    requires Possible(o, orders, assets) && Describes(open, orders)
    requires forall order :: order in orders ==> Known(order)
    ensures |o.orders| == |orders| && o.deltas.Keys == assets
    ensures Inside(Points(FinalExposures(filled, orders, assets, deltas, o)),
              ProjectedRanges(filled, assets, open, deltas))
  {
    hide Possible, Describes, FinalExposures, FinalExposure, Points, ProjectedRanges, RangeOf, Get, Lookup, Known;
    PossibleShape(o, orders, assets);
    PointAndRange(filled, orders, open, assets, deltas, o);
    forall a | a in assets
      ensures var e, r := FinalExposure(Get(filled, a), orders, Get(deltas, a), o, a),
                          RangeOf(Get(filled, a), Lookup(open, a), Get(deltas, a));
              r.minimum <= e <= r.maximum
    {
      RangeBoundsOutcome(filled, orders, open, assets, deltas, o, a);
    }
  }

  lemma RangeBoundsOutcome(
    filled: map<Asset, real>, orders: seq<OpenOrder>, open: map<Asset, Exposure>, assets: set<Asset>,
    deltas: map<Asset, real>, o: Outcome, a: Asset)
    requires Possible(o, orders, assets) && Describes(open, orders) && a in assets
    requires forall order :: order in orders ==> Known(order)
    ensures var e, r := FinalExposure(Get(filled, a), orders, Get(deltas, a), o, a),
                        RangeOf(Get(filled, a), Lookup(open, a), Get(deltas, a));
            r.minimum <= e <= r.maximum
  {
    hide Part, OrderFills, OpenTotal, Known;
    OrderFillsAreBounded(orders, o.orders, a);
    PartIsBetween(Get(deltas, a), o.deltas[a]);
  }

  /** Hence ranges within the caps keep every outcome within them: each asset,
      the gross exposure and the net exposure. */
  lemma EveryOutcomeIsWithinCaps(
    filled: map<Asset, real>, orders: seq<OpenOrder>, open: map<Asset, Exposure>, assets: set<Asset>,
    deltas: map<Asset, real>, o: Outcome, caps: Caps)
    requires Possible(o, orders, assets) && Describes(open, orders)
    requires forall order :: order in orders ==> Known(order)
    requires WithinCaps(ProjectedRanges(filled, assets, open, deltas), caps)
    ensures var e := FinalExposures(filled, orders, assets, deltas, o);
            && (forall a :: a in e ==> Abs(e[a]) <= caps.asset)
            && Total(map a | a in e :: Abs(e[a])) <= caps.gross
            && Abs(Total(e)) <= caps.net
  {
    hide FinalExposures, ProjectedRanges;
    var e := FinalExposures(filled, orders, assets, deltas, o);
    RangesBoundEveryOutcome(filled, orders, open, assets, deltas, o);
    InsideCapsToo(Points(e), ProjectedRanges(filled, assets, open, deltas), caps);
    PointMetrics(e);
    forall a | a in e ensures Abs(e[a]) <= caps.asset {
      assert a in Points(e) && Magnitude(Points(e)[a]) == Abs(e[a]);
    }
  }

  lemma PointMetrics(m: map<Asset, real>)
    ensures Gross(Points(m)) == Total(map a | a in m :: Abs(m[a]))
    ensures MinimumNet(Points(m)) == MaximumNet(Points(m)) == Total(m)
  {
    assert Magnitudes(Points(m)) == map a | a in m :: Abs(m[a]);
    assert Minimums(Points(m)) == m;
    assert Maximums(Points(m)) == m;
  }

  // ----------------------------------------------------- filled against baseline

  function Padded(m: map<Asset, real>, keys: set<Asset>): map<Asset, real> {
    map a | a in keys :: Get(m, a)
  }

  lemma PadOne(m: map<Asset, real>, keys: set<Asset>, a: Asset)
    requires a in keys && a !in m
    ensures Total(Padded(m, keys)) == Total(Padded(m, keys - {a}))
  {
    assert Padded(m, keys) == Padded(m, keys - {a})[a := 0.0];
    hide Padded;
    TotalInsert(Padded(m, keys - {a}), a, 0.0);
    PadKeys(m, keys - {a});
  }

  lemma PadKeys(m: map<Asset, real>, keys: set<Asset>)
    ensures Padded(m, keys).Keys == keys
  {
  }

  /** Zeros do not change a total. */
  lemma {:induction false} PaddingAddsNothing(m: map<Asset, real>, keys: set<Asset>)
    requires m.Keys <= keys
    ensures Total(Padded(m, keys)) == Total(m)
    decreases |keys|
  {
    if m.Keys == keys {
      assert Padded(m, keys) == m;
    } else {
      var a :| a in keys && a !in m;
      hide Padded;
      PaddingAddsNothing(m, keys - {a});
      PadOne(m, keys, a);
    }
  }

  lemma PointsOfPadded(filled: map<Asset, real>, keys: set<Asset>)
    requires filled.Keys <= keys
    ensures Gross(Points(Padded(filled, keys))) == Gross(Points(filled))
    ensures MinimumNet(Points(Padded(filled, keys))) == MinimumNet(Points(filled))
    ensures MaximumNet(Points(Padded(filled, keys))) == MaximumNet(Points(filled))
  {
    var padded := Padded(filled, keys);
    var sizes := map a | a in filled :: Abs(filled[a]);
    assert Padded(sizes, keys) == map a | a in padded :: Abs(padded[a]);
    PaddingAddsNothing(filled, keys);
    PaddingAddsNothing(sizes, keys);
    hide Gross, MinimumNet, MaximumNet, Padded, Points;
    PointMetrics(filled);
    PointMetrics(padded);
  }

  lemma PointsInside(filled: map<Asset, real>, ranges: map<Asset, Range>)
    requires forall a :: a in ranges ==> ranges[a].minimum <= Get(filled, a) <= ranges[a].maximum
    ensures Inside(Points(Padded(filled, ranges.Keys)), ranges)
  {
  }

  lemma PaddedPoint(filled: map<Asset, real>, keys: set<Asset>, a: Asset)
    requires a in filled && a in keys
    ensures a in Points(Padded(filled, keys)) && a in Points(filled)
    ensures Points(Padded(filled, keys))[a] == Points(filled)[a]
  {
  }

  lemma PaddedWithinCaps(filled: map<Asset, real>, keys: set<Asset>, caps: Caps)
    requires filled.Keys <= keys && WithinCaps(Points(Padded(filled, keys)), caps)
    ensures WithinCaps(Points(filled), caps)
  {
    PointsOfPadded(filled, keys);
    hide Padded, Magnitude, Gross, MinimumNet, MaximumNet, Worst;
    forall a | a in Points(filled) ensures Magnitude(Points(filled)[a]) <= caps.asset {
      PaddedPoint(filled, keys, a);
    }
  }

  lemma FilledWithinCaps(filled: map<Asset, real>, keys: set<Asset>, caps: Caps)
    requires filled.Keys <= keys && caps.asset >= 0.0 && WithinCaps(Points(filled), caps)
    ensures WithinCaps(Points(Padded(filled, keys)), caps)
  {
    hide Gross, MinimumNet, MaximumNet, Worst;
    PointsOfPadded(filled, keys);
    var padded := Points(Padded(filled, keys));
    forall a | a in padded ensures Magnitude(padded[a]) <= caps.asset {
      if a in filled { PaddedPoint(filled, keys, a); assert a in Points(filled); }
    }
  }

  /** Ranges around every filled position bound the filled positions' metrics. */
  lemma FilledAreNoWorse(filled: map<Asset, real>, ranges: map<Asset, Range>, caps: Caps)
    requires filled.Keys <= ranges.Keys
    requires forall a :: a in ranges ==> ranges[a].minimum <= Get(filled, a) <= ranges[a].maximum
    requires WithinCaps(ranges, caps)
    ensures WithinCaps(Points(filled), caps)
  {
    hide Get, Padded, Points, Inside, WithinCaps;
    PointsInside(filled, ranges);
    InsideCapsToo(Points(Padded(filled, ranges.Keys)), ranges, caps);
    PaddedWithinCaps(filled, ranges.Keys, caps);
  }
}
