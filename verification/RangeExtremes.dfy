/** The projected ranges are no wider than they must be: open orders and deltas can
    fill so that every asset ends at the end of its range that one likes. */
module RangeExtremes {
  import opened Common
  import opened PortfolioRanges

  /** Whether a trade moves an exposure up. */
  predicate Raises(o: OpenOrder) {
    o.side == Some(Buy)
  }

  function Whole(fills: bool): real {
    if fills then 1.0 else 0.0
  }

  /** In the assets of `high` everything bought fills and nothing sold; in the
      others the other way round. */
  function Extreme(orders: seq<OpenOrder>, assets: set<Asset>, deltas: map<Asset, real>, high: set<Asset>): Outcome {
    Outcome(
      seq(|orders|, i requires 0 <= i < |orders| => Whole(Raises(orders[i]) == (orders[i].asset in high))),
      map a | a in assets :: Whole((Get(deltas, a) > 0.0) == (a in high)))
  }

  lemma ExtremeIsPossible(orders: seq<OpenOrder>, assets: set<Asset>, deltas: map<Asset, real>, high: set<Asset>)
    ensures Possible(Extreme(orders, assets, deltas, high), orders, assets)
  {
  }

  lemma {:induction false} ExtremeFills(orders: seq<OpenOrder>, fills: seq<real>, high: set<Asset>, a: Asset)
    requires |fills| == |orders| && forall o :: o in orders ==> Known(o)
    requires forall i :: 0 <= i < |orders| ==> fills[i] == Whole(Raises(orders[i]) == (orders[i].asset in high))
    ensures OrderFills(orders, fills, a) ==
              if a in high then OpenTotal(orders, Buy, a) else -OpenTotal(orders, Sell, a)
  {
    if orders != [] {
      var n := |orders| - 1;
      assert forall o :: o in orders[..n] ==> o in orders;
      ExtremeFills(orders[..n], fills[..n], high, a);
      assert orders[n] in orders;
      WholePart(WholeFill(orders[n], a));
      hide Part;
    }
  }

  lemma WholePart(x: real)
    ensures Part(x, 1.0) == x && Part(x, 0.0) == 0.0
  {
  }

  lemma ExtremeAt(
    filled: real, orders: seq<OpenOrder>, open: map<Asset, Exposure>, assets: set<Asset>,
    deltas: map<Asset, real>, high: set<Asset>, a: Asset)
    requires Describes(open, orders) && (forall o :: o in orders ==> Known(o)) && a in assets
    ensures var o := Extreme(orders, assets, deltas, high);
            && |o.orders| == |orders| && a in o.deltas
            && FinalExposure(filled, orders, Get(deltas, a), o, a) ==
                 var r := RangeOf(filled, Lookup(open, a), Get(deltas, a));
                 if a in high then r.maximum else r.minimum
  {
    hide OrderFills, OpenTotal, Part, Known, Raises;
    ExtremeFills(orders, Extreme(orders, assets, deltas, high).orders, high, a);
    WholePart(Get(deltas, a));
    assert Lookup(open, a) == Exposure(OpenTotal(orders, Buy, a), OpenTotal(orders, Sell, a));
  }

  /** One outcome takes every asset to the end of its range that is asked for. */
  lemma ExtremesAreReached(
    filled: map<Asset, real>, orders: seq<OpenOrder>, open: map<Asset, Exposure>, assets: set<Asset>,
    deltas: map<Asset, real>, high: set<Asset>)
    requires Describes(open, orders) && forall o :: o in orders ==> Known(o)
    ensures var o := Extreme(orders, assets, deltas, high);
            var e, ranges := FinalExposures(filled, orders, assets, deltas, o),
                             ProjectedRanges(filled, assets, open, deltas);
            && Possible(o, orders, assets) && e.Keys == ranges.Keys == assets
            && forall a :: a in assets ==> e[a] == if a in high then ranges[a].maximum else ranges[a].minimum
  {
    ExtremeIsPossible(orders, assets, deltas, high);
    hide Known, Describes, Extreme, FinalExposure, RangeOf, Get, Lookup;
    forall a | a in assets { ExtremeAt(Get(filled, a), orders, open, assets, deltas, high, a); }
  }

  /** Where the worst gross exposure is: the end farther from zero. */
  function FartherUp(ranges: map<Asset, Range>): set<Asset> {
    set a | a in ranges && Abs(ranges[a].maximum) >= Abs(ranges[a].minimum)
  }

  /** The projected gross and both projected nets are reached, each by an outcome
      of the same orders and deltas. */
  lemma MetricsAreReached(
    filled: map<Asset, real>, orders: seq<OpenOrder>, open: map<Asset, Exposure>, assets: set<Asset>,
    deltas: map<Asset, real>)
    requires Describes(open, orders) && forall o :: o in orders ==> Known(o)
    ensures var ranges := ProjectedRanges(filled, assets, open, deltas);
            && (exists o :: Possible(o, orders, assets)
                            && Total(FinalExposures(filled, orders, assets, deltas, o)) == MinimumNet(ranges))
            && (exists o :: Possible(o, orders, assets)
                            && Total(FinalExposures(filled, orders, assets, deltas, o)) == MaximumNet(ranges))
            && (exists o :: Possible(o, orders, assets)
                            && TotalSize(FinalExposures(filled, orders, assets, deltas, o)) == Gross(ranges))
  {
    hide FinalExposures, ProjectedRanges, Known, Describes;
    var ranges := ProjectedRanges(filled, assets, open, deltas);
    ExtremesAreReached(filled, orders, open, assets, deltas, {});
    assert FinalExposures(filled, orders, assets, deltas, Extreme(orders, assets, deltas, {})) == Minimums(ranges);
    ExtremesAreReached(filled, orders, open, assets, deltas, assets);
    assert FinalExposures(filled, orders, assets, deltas, Extreme(orders, assets, deltas, assets)) == Maximums(ranges);
    var high := FartherUp(ranges);
    ExtremesAreReached(filled, orders, open, assets, deltas, high);
    assert Sizes(FinalExposures(filled, orders, assets, deltas, Extreme(orders, assets, deltas, high))) ==
           Magnitudes(ranges);
  }

  function Sizes(exposures: map<Asset, real>): map<Asset, real> {
    map a | a in exposures :: Abs(exposures[a])
  }

  ghost function TotalSize(exposures: map<Asset, real>): real {
    Total(Sizes(exposures))
  }
}
