/** What a projection says about the action it returns and the figures it reports. */
module ProjectionLaws {
  import opened Common
  import opened PortfolioRanges
  import opened TargetShaping
  import opened RiskStaging
  import opened PortfolioRisk
  import RangeExtremes

  /** Which input is refused as what: scalars first, then what is incomplete, then
      the first asset by name without usable market rules. */
  lemma InputIsRefusedAs(input: Input)
    ensures var scalars :=
              && input.currentEquity > 0.0 && input.curveLeverage > 0.0 && 0.025 <= input.globalRiskScale <= 0.1
              && 0.0 <= input.maxSingleAssetPct <= 1.0 && 0.0 <= input.maxNetPct <= 1.0;
            var unusable := set a | a in Assets(input) && !(a in input.rules && PositiveRules(input.rules[a]));
            var r := ValidateInput(input);
            && (r == Err(IncompleteFilledPositionState) <==> scalars && !input.filledComplete)
            && (r == Err(IncompleteOpenOrderState) <==> scalars && input.filledComplete && !input.openComplete)
            && (forall a :: r == Err(MissingMarketRules(a)) <==>
                 scalars && input.filledComplete && input.openComplete && IsLeast(a, unusable) && a !in input.rules)
            && (r == Err(InvalidInput) <==>
                 || !scalars
                 || (input.filledComplete && input.openComplete
                     && exists a :: IsLeast(a, unusable) && a in input.rules))
            && (r == Ok(()) <==> scalars && input.filledComplete && input.openComplete && unusable == {})
  {
    var bad := set a | a in Assets(input) && !HasGoodRules(input, a);
    var unusable := set a | a in Assets(input) && !(a in input.rules && PositiveRules(input.rules[a]));
    assert bad == unusable;
    hide Assets, PositiveRules;
    if bad != {} {
      assert IsLeast(Least(bad), unusable);
      forall a | IsLeast(a, unusable) ensures a == Least(bad) { LeastIsUnique(a, Least(bad), unusable); }
    }
    hide IsLeast;
  }

  /** The largest gross and both nets that a projection reports are no larger than
      they must be: some fills of its orders and deltas end there. */
  lemma ReportedFiguresAreReached(input: Input, r: Projection)
    requires Accepted(input) && Faithful(input, r)
    ensures var orders, assets, deltas := input.openOrders, Assets(input), r.roundedDeltas;
            && (exists o :: Possible(o, orders, assets)
                            && Total(FinalExposures(input.filledPositions, orders, assets, deltas, o)) == r.minimumNet)
            && (exists o :: Possible(o, orders, assets)
                            && Total(FinalExposures(input.filledPositions, orders, assets, deltas, o)) == r.maximumNet)
            && (exists o ::
                 && Possible(o, orders, assets)
                 && RangeExtremes.TotalSize(FinalExposures(input.filledPositions, orders, assets, deltas, o)) ==
                    r.maximumGross)
  {
    OpenOfPortfolioDescribes(input);
    hide Constrained, ScaledTwice, RoundedTo, ShapedTargets, RoundedDeltas, ActionFor, Known, Gross, MinimumNet,
      MaximumNet, ProjectedRanges, Describes, Possible, FinalExposures, RangeExtremes.TotalSize, Assets;
    RangeExtremes.MetricsAreReached(
      input.filledPositions, input.openOrders, PortfolioOf(input).open, Assets(input), r.roundedDeltas);
  }

  /** The full vector when its ranges meet the caps. Otherwise of each delta that
      goes against the middle of its asset's range all or nothing, and nothing of
      the others; all of them when the net is then no worse than with no action,
      and if not, the smallest of a side go first and no more than have to. */
  lemma StagingKeepsWhatItCan(p: Portfolio, rounded: Deltas, caps: Caps)
    requires Sound(p) && rounded.Keys == p.assets
    ensures var chosen := ChosenDeltas(p, rounded, caps);
            if WithinCaps(RangesWith(p, rounded), caps) then chosen == rounded
            else
              exists kept: Deltas ::
                && kept.Keys == p.assets
                && (forall a :: a in kept ==>
                      kept[a] == if AgainstTheMiddle(rounded[a], TwiceTheMiddle(p, a)) then rounded[a] else 0.0)
                && LeavesOrDrops(kept, chosen) && DropsTheSmallest(kept, chosen)
                && if NetWorsened(p, kept) then SomethingHadToGo(p, kept, chosen) else chosen == kept
  {
    hide WithinCaps, Sound, RangesWith, StagedFrom, Prune, AgainstTheMiddle, TwiceTheMiddle, NetWorsened, LeavesOrDrops,
      DropsTheSmallest, SomethingHadToGo, KeepOne;
    var kept := Kept(p, rounded);
    KeptIsStaged(p, rounded);
    PruningDropsTheLeast(p, kept, rounded);
    forall a | a in kept
      ensures kept[a] == if AgainstTheMiddle(rounded[a], TwiceTheMiddle(p, a)) then rounded[a] else 0.0
    {
      KeptWhen(p, rounded, a);
    }
    hide Kept;
  }

  lemma ChosenOrNothing(p: Portfolio, rounded: Deltas, caps: Caps, a: Asset)
    requires Sound(p) && rounded.Keys == p.assets && a in p.assets
    ensures a in ChosenDeltas(p, rounded, caps)
    ensures ChosenDeltas(p, rounded, caps)[a] in {0.0, rounded[a]}
  {
    hide WithinCaps, Sound, RangesWith, Baseline, Prune, Reduces, Kept, Gross, WorstNet;
    ChosenKeys(p, rounded, caps);
    if !WithinCaps(RangesWith(p, rounded), caps) {
      KeptIsStaged(p, rounded);
      PruningRestoresTheBaseline(p, Kept(p, rounded), rounded);
    }
  }

  /** Each delta of the action is zero or its proposed delta in whole steps, at the
      grid price it will carry. */
  lemma ActionIsProposedInSteps(input: Input, r: Projection, a: Asset)
    requires Accepted(input) && Faithful(input, r) && a in Assets(input)
    ensures a in r.proposedDeltas && a in input.rules && a in r.roundedDeltas
    ensures r.roundedDeltas[a] == 0.0 || RoundedWell(r.proposedDeltas[a], input.rules[a], r.roundedDeltas[a])
  {
    hide Constrained, ScaledTwice, ShapedTargets, Known, WithinCaps, Proposed, RoundDelta, RoundedWell, ChosenDeltas,
      RangesWith, Sound, CapsOf, RoundedOne, Assets;
    PortfolioIsSound(input);
    var p, rounded := PortfolioOf(input), RoundedDeltas(input);
    ChosenOrNothing(p, rounded, CapsOf(input), a);
    RoundDeltaIsNearest(r.proposedDeltas[a], input.rules[a]);
  }

  /** The gross cap binds, and one factor for all targets meets the net cap too. */
  ghost predicate OneFactorMeets(targets: Targets, caps: Caps) {
    TotalAbs(targets) > caps.gross >= 0.0 && Abs(Total(targets)) * (caps.gross / TotalAbs(targets)) <= caps.net
  }

  lemma OneFactorScales(targets: Targets, caps: Caps)
    requires OneFactorMeets(targets, caps)
    ensures var scaled := NetScaled(GrossScaled(targets, caps.gross), caps.net);
            && scaled.Keys == targets.Keys
            && forall a :: a in targets ==> scaled[a] == targets[a] * (caps.gross / TotalAbs(targets))
  {
    hide TotalAbs, ScaledOneSide, Positives, Negatives, Total, Abs;
    ScalingKeepsShares(targets, caps.gross);
    var scaled := GrossScaled(targets, caps.gross);
    hide GrossScaled;
    WithinNetStays(scaled, caps.net);
    hide NetScaled;
    GrossScaledIs(targets, caps.gross);
  }

  /** Then that factor is all that is applied to the clamped targets. */
  lemma OneFactorIsEnough(input: Input, r: Projection)
    requires Accepted(input) && Faithful(input, r)
    requires OneFactorMeets(Clamped(input.targets, Assets(input), CapsOf(input).asset), CapsOf(input))
    ensures var clamped := Clamped(input.targets, Assets(input), CapsOf(input).asset);
            && r.constrainedTargets.Keys == clamped.Keys
            && forall a :: a in clamped ==>
                 r.constrainedTargets[a] == clamped[a] * (CapsOf(input).gross / TotalAbs(clamped))
  {
    hide Constrained, ScaledTwice, RoundedTo, ActionFor, RangesWith, RoundedDeltas, Proposed, CapsOf, Assets, Known,
      TotalAbs, GoodScalars, GrossScaled, NetScaled, OneFactorMeets, Clamped;
    OneFactorScales(Clamped(input.targets, Assets(input), CapsOf(input).asset), CapsOf(input));
  }

  lemma WithinNetStays(targets: Targets, cap: real)
    requires Abs(Total(targets)) <= cap
    ensures NetScaled(targets, cap) == targets
  {
    hide ScaledOneSide, Positives, Negatives, Total;
  }

  lemma GrossScaledIs(targets: Targets, cap: real)
    requires TotalAbs(targets) > cap >= 0.0
    ensures GrossScaled(targets, cap) == map a | a in targets :: targets[a] * (cap / TotalAbs(targets))
    ensures forall a :: a in targets ==>
              a in GrossScaled(targets, cap)
                  && Scaled(targets[a], GrossScaled(targets, cap)[a], cap / TotalAbs(targets))
  {
    hide TotalAbs;
  }

  lemma ScalingKeepsShares(targets: Targets, cap: real)
    requires TotalAbs(targets) > cap >= 0.0
    ensures Scaled(Abs(Total(targets)), Abs(Total(GrossScaled(targets, cap))), cap / TotalAbs(targets))
  {
    GrossScaledIs(targets, cap);
    hide TotalAbs, Scaled, GrossScaled;
    QuotientIsFraction(cap, TotalAbs(targets));
    TotalScaled(targets, GrossScaled(targets, cap), cap / TotalAbs(targets));
    hide Total, Abs;
    ScalingShrinks(Total(targets), Total(GrossScaled(targets, cap)), cap / TotalAbs(targets));
  }
}
