/** `stage_risk_reducing_deltas` of `crates/copytrade-core/src/portfolio_risk.rs`:
    which deltas to keep when the full vector would breach a cap on the way. */
module RiskStaging {
  import opened Common
  import opened PortfolioRanges

  type Deltas = map<Asset, real>

  /** The portfolio the deltas are applied to. */
  datatype Portfolio = Portfolio(filled: map<Asset, real>, assets: set<Asset>, open: map<Asset, Exposure>)

  function RangesWith(p: Portfolio, deltas: Deltas): map<Asset, Range> {
    ProjectedRanges(p.filled, p.assets, p.open, deltas)
  }

  function Baseline(p: Portfolio): map<Asset, Range> {
    RangesWith(p, map[])
  }

  function AssetRange(p: Portfolio, a: Asset, delta: real): Range {
    RangeOf(Get(p.filled, a), Lookup(p.open, a), delta)
  }

  predicate Sound(p: Portfolio) {
    forall a :: a in p.open ==> p.open[a].buy >= 0.0 && p.open[a].sell >= 0.0
  }

  lemma OpenIsNonNegative(p: Portfolio, a: Asset)
    requires Sound(p)
    ensures Lookup(p.open, a).buy >= 0.0 && Lookup(p.open, a).sell >= 0.0
  {
  }

  lemma RangesOfOne(p: Portfolio, deltas: Deltas, a: Asset)
    requires a in p.assets
    ensures RangesWith(p, deltas)[a] == AssetRange(p, a, Get(deltas, a))
    ensures Baseline(p)[a] == AssetRange(p, a, 0.0)
  {
  }

  /** On its own, the delta does not enlarge the asset's worst exposure. */
  predicate Reduces(p: Portfolio, a: Asset, delta: real) {
    Magnitude(AssetRange(p, a, delta)) <= Magnitude(AssetRange(p, a, 0.0))
  }

  function KeepOne(p: Portfolio, deltas: Deltas, a: Asset): real {
    if Reduces(p, a, Get(deltas, a)) then Get(deltas, a) else 0.0
  }

  function Kept(p: Portfolio, deltas: Deltas): Deltas {
    map a | a in p.assets :: KeepOne(p, deltas, a)
  }

  /** Every delta was kept, and reduces, or was dropped. */
  ghost predicate StagedFrom(p: Portfolio, staged: Deltas, deltas: Deltas) {
    && staged.Keys == p.assets
    && forall a :: a in staged ==> staged[a] == 0.0 || (staged[a] == Get(deltas, a) && Reduces(p, a, staged[a]))
  }

  lemma KeptIsStaged(p: Portfolio, deltas: Deltas)
    ensures StagedFrom(p, Kept(p, deltas), deltas)
  {
    hide Reduces, Get;
  }

  /** Adding a delta can only widen a range, so a reducing delta leaves the
      worst exposure exactly where it was. */
  lemma ReducingKeepsMagnitude(p: Portfolio, a: Asset, delta: real)
    requires Sound(p) && (delta == 0.0 || Reduces(p, a, delta))
    ensures Magnitude(AssetRange(p, a, delta)) == Magnitude(AssetRange(p, a, 0.0))
  {
    hide Sound, Lookup, Get, RangeOf, Magnitude;
    OpenIsNonNegative(p, a);
    SameMagnitude(Get(p.filled, a), Lookup(p.open, a), delta);
  }

  lemma SameMagnitude(filled: real, open: Exposure, delta: real)
    requires open.buy >= 0.0 && open.sell >= 0.0
    requires delta == 0.0 || Magnitude(RangeOf(filled, open, delta)) <= Magnitude(RangeOf(filled, open, 0.0))
    ensures Magnitude(RangeOf(filled, open, delta)) == Magnitude(RangeOf(filled, open, 0.0))
  {
  }

  /** `wide` is `narrow` with a delta added. */
  predicate Widened(wide: Range, narrow: Range, delta: real) {
    && wide.minimum <= narrow.minimum <= narrow.maximum <= wide.maximum
    && (delta >= 0.0 ==> wide.minimum == narrow.minimum)
    && (delta <= 0.0 ==> wide.maximum == narrow.maximum)
  }

  lemma RangeWidens(filled: real, open: Exposure, delta: real)
    requires open.buy >= 0.0 && open.sell >= 0.0
    ensures Widened(RangeOf(filled, open, delta), RangeOf(filled, open, 0.0), delta)
  {
  }

  lemma OneWidens(p: Portfolio, deltas: Deltas, a: Asset)
    requires Sound(p) && a in p.assets
    ensures a in RangesWith(p, deltas) && a in Baseline(p)
    ensures Widened(RangesWith(p, deltas)[a], Baseline(p)[a], Get(deltas, a))
  {
    hide Widened, RangeOf, Lookup, Get, Sound;
    RangesOfOne(p, deltas, a);
    OpenIsNonNegative(p, a);
    RangeWidens(Get(p.filled, a), Lookup(p.open, a), Get(deltas, a));
  }

  lemma StagedWidens(p: Portfolio, deltas: Deltas)
    requires Sound(p)
    ensures forall a :: a in p.assets ==> Widened(RangesWith(p, deltas)[a], Baseline(p)[a], Get(deltas, a))
  {
    hide Widened, RangesWith, Baseline, Get, Sound;
    forall a | a in p.assets ensures a in RangesWith(p, deltas) && a in Baseline(p)
      ensures Widened(RangesWith(p, deltas)[a], Baseline(p)[a], Get(deltas, a))
    {
      OneWidens(p, deltas, a);
    }
  }

  lemma BaselineIsInside(p: Portfolio, deltas: Deltas)
    requires Sound(p)
    ensures Inside(Baseline(p), RangesWith(p, deltas))
  {
    StagedWidens(p, deltas);
    hide Sound, RangeOf;
  }

  /** A staged vector's worst gross is the baseline's, and its worst net no
      better. */
  lemma StagingKeepsGross(p: Portfolio, staged: Deltas, deltas: Deltas)
    requires Sound(p) && StagedFrom(p, staged, deltas)
    ensures Magnitudes(RangesWith(p, staged)) == Magnitudes(Baseline(p))
    ensures Gross(RangesWith(p, staged)) == Gross(Baseline(p))
    ensures WorstNet(RangesWith(p, staged)) >= WorstNet(Baseline(p))
  {
    StagingKeepsMagnitudes(p, staged, deltas);
    BaselineIsInside(p, staged);
    hide RangesWith, Baseline, Magnitudes, WorstNet, StagedFrom, Sound, Inside;
    InsideIsNoWorse(Baseline(p), RangesWith(p, staged));
  }

  lemma StagingKeepsMagnitudes(p: Portfolio, staged: Deltas, deltas: Deltas)
    requires Sound(p) && StagedFrom(p, staged, deltas)
    ensures Magnitudes(RangesWith(p, staged)) == Magnitudes(Baseline(p))
  {
    hide Sound, Magnitude, AssetRange, Reduces, RangeOf, Lookup, Get;
    var ranges, base := RangesWith(p, staged), Baseline(p);
    assert ranges.Keys == p.assets == base.Keys;
    forall a | a in p.assets ensures Magnitude(ranges[a]) == Magnitude(base[a]) {
      RangesOfOne(p, staged, a);
      ReducingKeepsMagnitude(p, a, staged[a]);
      StagedEntry(p, staged, a);
    }
    hide RangesWith, Baseline;
  }

  lemma StagedEntry(p: Portfolio, staged: Deltas, a: Asset)
    requires staged.Keys == p.assets && a in p.assets
    ensures Get(staged, a) == staged[a]
  {
  }

  // ------------------------------------------------------------------ pruning

  /** The side that makes the worst net worse: sells when the lower end is the
      worse one and negative. */
  predicate SellsOffend(minimumNet: real, maximumNet: real) {
    Abs(minimumNet) >= Abs(maximumNet) && minimumNet < 0.0
  }

  predicate Offends(delta: real, sells: bool) {
    if sells then delta < 0.0 else delta > 0.0
  }

  predicate IsSmallestOffender(a: Asset, staged: Deltas, sells: bool) {
    && a in staged && Offends(staged[a], sells)
    && forall b :: b in staged && Offends(staged[b], sells) ==>
         Abs(staged[a]) < Abs(staged[b]) || (Abs(staged[a]) == Abs(staged[b]) && TextAtMost(a, b))
  }

  lemma SmallestIsUnique(a: Asset, b: Asset, staged: Deltas, sells: bool)
    requires IsSmallestOffender(a, staged, sells) && IsSmallestOffender(b, staged, sells)
    ensures a == b
  {
    TextLessIsStrict(a, b);
  }

  method FindSmallestOffender(staged: Deltas, sells: bool) returns (smallest: Option<Asset>)
    ensures smallest.None? <==> forall a :: a in staged ==> !Offends(staged[a], sells)
    ensures smallest.Some? ==> IsSmallestOffender(smallest.value, staged, sells)
  {
    smallest := None;
    var rest := staged.Keys;
    while rest != {}
      invariant rest <= staged.Keys
      invariant smallest.None? ==> forall a :: a in staged && a !in rest ==> !Offends(staged[a], sells)
      invariant smallest.Some? ==>
        && smallest.value in staged && smallest.value !in rest && Offends(staged[smallest.value], sells)
        && (forall b :: b in rest ==> TextAtMost(smallest.value, b))
        && forall b :: b in staged && b !in rest && Offends(staged[b], sells) ==>
             Abs(staged[smallest.value]) < Abs(staged[b]) ||
             (Abs(staged[smallest.value]) == Abs(staged[b]) && TextAtMost(smallest.value, b))
      decreases rest
    {
      var a := Least(rest);
      rest := rest - {a};
      if Offends(staged[a], sells) && (smallest.None? || Abs(staged[a]) < Abs(staged[smallest.value])) {
        smallest := Some(a);
      }
    }
  }

  ghost function Sells(p: Portfolio, staged: Deltas): bool {
    SellsOffend(MinimumNet(RangesWith(p, staged)), MaximumNet(RangesWith(p, staged)))
  }

  ghost predicate NetWorsened(p: Portfolio, staged: Deltas) {
    WorstNet(RangesWith(p, staged)) > WorstNet(Baseline(p))
  }

  /** A worsened net always has a delta to blame: the loop's own error, that
      nothing is left to remove, is unreachable. */
  lemma SomethingOffends(p: Portfolio, staged: Deltas)
    requires Sound(p) && staged.Keys == p.assets && NetWorsened(p, staged)
    ensures exists a :: a in staged && Offends(staged[a], Sells(p, staged))
  {
    var base, ranges := Baseline(p), RangesWith(p, staged);
    BaselineIsInside(p, staged);
    StagedWidens(p, staged);
    assert base.Keys == p.assets == ranges.Keys;
    forall a | a in p.assets ensures Widened(ranges[a], base[a], staged[a]) { StagedEntry(p, staged, a); }
    hide RangesWith, Baseline;
    InsideIsNoWorse(base, ranges);
    if forall a :: a in staged ==> !Offends(staged[a], Sells(p, staged)) {
      OneSidedNet(base, ranges, staged, Sells(p, staged));
    }
  }

  /** With no delta on one side, that end of the net does not move. */
  lemma OneSidedNet(base: map<Asset, Range>, ranges: map<Asset, Range>, staged: Deltas, sells: bool)
    requires base.Keys == ranges.Keys == staged.Keys
    requires forall a :: a in staged ==> Widened(ranges[a], base[a], staged[a]) && !Offends(staged[a], sells)
    ensures sells ==> MinimumNet(ranges) == MinimumNet(base)
    ensures !sells ==> MaximumNet(ranges) == MaximumNet(base)
  {
    if sells {
      assert Minimums(ranges) == Minimums(base);
    } else {
      assert Maximums(ranges) == Maximums(base);
    }
  }

  function NonZero(staged: Deltas): set<Asset> {
    set a | a in staged && staged[a] != 0.0
  }

  lemma DroppingOne(p: Portfolio, staged: Deltas, deltas: Deltas, a: Asset)
    requires StagedFrom(p, staged, deltas) && a in staged && staged[a] != 0.0
    ensures StagedFrom(p, staged[a := 0.0], deltas)
    ensures NonZero(staged[a := 0.0]) == NonZero(staged) - {a}
    ensures |NonZero(staged[a := 0.0])| < |NonZero(staged)|
  {
    hide Reduces;
    assert NonZero(staged[a := 0.0]) == NonZero(staged) - {a};
  }

  lemma {:induction false} SmallestAmong(staged: Deltas, sells: bool, among: set<Asset>) returns (a: Asset)
    requires among != {} && forall b :: b in among ==> b in staged && Offends(staged[b], sells)
    ensures a in among && forall b :: b in among ==>
              Abs(staged[a]) < Abs(staged[b]) || (Abs(staged[a]) == Abs(staged[b]) && TextAtMost(a, b))
    decreases |among|
  {
    var c :| c in among;
    var rest := among - {c};
    if rest == {} {
      assert among == {c};
      a := c;
    } else {
      a := SmallestAmong(staged, sells, rest);
      var other := a;
      TextLessIsTotal(a, c);
      if Abs(staged[c]) < Abs(staged[a]) || (Abs(staged[c]) == Abs(staged[a]) && TextLess(c, a)) {
        forall b | b in among
          ensures Abs(staged[c]) < Abs(staged[b]) || (Abs(staged[c]) == Abs(staged[b]) && TextAtMost(c, b))
        {
          if b != c {
            assert b in rest;
            if TextLess(c, other) && TextLess(other, b) { TextLessIsTransitive(c, other, b); }
          }
        }
        a := c;
      } else {
        assert forall b :: b in among ==> b == c || b in rest;
      }
    }
  }

  lemma SmallestExists(p: Portfolio, staged: Deltas)
    requires Sound(p) && staged.Keys == p.assets && NetWorsened(p, staged)
    ensures exists a :: IsSmallestOffender(a, staged, Sells(p, staged))
  {
    SomethingOffends(p, staged);
    hide NetWorsened, Sound, Sells, Offends;
    var offenders := set a | a in staged && Offends(staged[a], Sells(p, staged));
    var some :| some in staged && Offends(staged[some], Sells(p, staged));
    assert some in offenders;
    var a := SmallestAmong(staged, Sells(p, staged), offenders);
    assert a in offenders;
    assert IsSmallestOffender(a, staged, Sells(p, staged));
  }

  /** Drops the smallest offending delta until the worst net is no worse than
      with no action. */
  ghost function Prune(p: Portfolio, staged: Deltas, deltas: Deltas): Deltas
    requires Sound(p) && StagedFrom(p, staged, deltas)
    decreases |NonZero(staged)|
  {
    if !NetWorsened(p, staged) then staged
    else
      SmallestExists(p, staged);
      var a :| IsSmallestOffender(a, staged, Sells(p, staged));
      DroppingOne(p, staged, deltas, a);
      Prune(p, staged[a := 0.0], deltas)
  }

  lemma PruneStep(p: Portfolio, staged: Deltas, deltas: Deltas, a: Asset)
    requires Sound(p) && StagedFrom(p, staged, deltas) && NetWorsened(p, staged)
    requires IsSmallestOffender(a, staged, Sells(p, staged))
    ensures StagedFrom(p, staged[a := 0.0], deltas)
    ensures |NonZero(staged[a := 0.0])| < |NonZero(staged)|
    ensures Prune(p, staged, deltas) == Prune(p, staged[a := 0.0], deltas)
  {
    hide Sound, StagedFrom, NetWorsened, Sells, IsSmallestOffender, NonZero;
    OffenderIsNonZero(a, staged, Sells(p, staged));
    DroppingOne(p, staged, deltas, a);
    forall b | IsSmallestOffender(b, staged, Sells(p, staged)) ensures b == a {
      SmallestIsUnique(a, b, staged, Sells(p, staged));
    }
  }

  lemma OffenderIsNonZero(a: Asset, staged: Deltas, sells: bool)
    requires IsSmallestOffender(a, staged, sells)
    ensures a in staged && staged[a] != 0.0
  {
  }

  /** The staged vector's worst gross and worst net equal those of taking no
      action, exactly; so does each asset's worst exposure. */
  lemma {:induction false} PruningRestoresTheBaseline(p: Portfolio, staged: Deltas, deltas: Deltas)
    requires Sound(p) && StagedFrom(p, staged, deltas)
    ensures var pruned := Prune(p, staged, deltas);
            && StagedFrom(p, pruned, deltas)
            && Magnitudes(RangesWith(p, pruned)) == Magnitudes(Baseline(p))
            && Gross(RangesWith(p, pruned)) == Gross(Baseline(p))
            && WorstNet(RangesWith(p, pruned)) == WorstNet(Baseline(p))
    decreases |NonZero(staged)|
  {
    hide Sound, StagedFrom, Prune, NonZero, IsSmallestOffender, RangesWith, Baseline, Magnitudes, MinimumNet,
        MaximumNet;
    if NetWorsened(p, staged) {
      StagedKeys(p, staged, deltas);
      SmallestExists(p, staged);
      hide NetWorsened, WorstNet;
      var a :| IsSmallestOffender(a, staged, Sells(p, staged));
      PruneStep(p, staged, deltas, a);
      PruningRestoresTheBaseline(p, staged[a := 0.0], deltas);
    } else {
      StagingKeepsGross(p, staged, deltas);
      PruneIsDone(p, staged, deltas);
    }
  }

  // -------------------------------------------------- what staging keeps and drops

  /** Twice the middle of what the asset may end at when nothing is done. */
  function TwiceTheMiddle(p: Portfolio, a: Asset): real {
    2.0 * Get(p.filled, a) + Lookup(p.open, a).buy - Lookup(p.open, a).sell
  }

  /** Trades against that middle, and no further than to its mirror image. */
  predicate AgainstTheMiddle(delta: real, twiceMiddle: real) {
    (delta > 0.0 && delta <= -twiceMiddle) || (delta < 0.0 && -delta <= twiceMiddle)
  }

  lemma NoWorseWhen(filled: real, open: Exposure, delta: real)
    requires open.buy >= 0.0 && open.sell >= 0.0 && delta != 0.0
    ensures Magnitude(RangeOf(filled, open, delta)) <= Magnitude(RangeOf(filled, open, 0.0)) <==>
              AgainstTheMiddle(delta, 2.0 * filled + open.buy - open.sell)
  {
  }

  /** The first pass keeps a delta exactly when it trades against the middle of the
      asset's range. */
  lemma KeptWhen(p: Portfolio, deltas: Deltas, a: Asset)
    requires Sound(p) && a in p.assets
    ensures Kept(p, deltas)[a] ==
              if AgainstTheMiddle(Get(deltas, a), TwiceTheMiddle(p, a)) then Get(deltas, a) else 0.0
  {
    hide Sound, Magnitude, RangeOf, Get, Lookup;
    OpenIsNonNegative(p, a);
    if Get(deltas, a) != 0.0 { NoWorseWhen(Get(p.filled, a), Lookup(p.open, a), Get(deltas, a)); }
  }

  predicate Dropped(staged: Deltas, pruned: Deltas, a: Asset) {
    a in staged && a in pruned && staged[a] != 0.0 && pruned[a] == 0.0
  }

  /** What is dropped is smaller than what is left on its side, or as large and
      first by name. */
  ghost predicate DropsTheSmallest(staged: Deltas, pruned: Deltas) {
    forall a, b :: Dropped(staged, pruned, a) && b in pruned && SameSign(staged[a], pruned[b]) ==>
      Abs(staged[a]) < Abs(pruned[b]) || (Abs(staged[a]) == Abs(pruned[b]) && TextAtMost(a, b))
  }

  predicate SameSign(x: real, y: real) {
    (x > 0.0 && y > 0.0) || (x < 0.0 && y < 0.0)
  }

  /** With this dropped delta back, the net would be worse than with no action, at
      the end the delta pushes out. */
  ghost predicate HadToGo(p: Portfolio, staged: Deltas, pruned: Deltas, a: Asset) {
    && Dropped(staged, pruned, a)
    && var ranges := RangesWith(p, pruned[a := staged[a]]);
       && WorstNet(ranges) > WorstNet(Baseline(p))
       && WorstNet(ranges) == if staged[a] < 0.0 then -MinimumNet(ranges) else MaximumNet(ranges)
  }

  lemma WorstEnd(minimum: real, maximum: real)
    requires minimum <= maximum
    ensures Worst(minimum, maximum) == if SellsOffend(minimum, maximum) then -minimum else maximum
  {
  }

  lemma WorstEndWith(p: Portfolio, staged: Deltas)
    requires Sound(p)
    ensures var ranges := RangesWith(p, staged);
            WorstNet(ranges) == if Sells(p, staged) then -MinimumNet(ranges) else MaximumNet(ranges)
  {
    BaselineIsInside(p, staged);
    hide RangesWith, Baseline, Sound, Inside, MinimumNet, MaximumNet, Gross, Magnitude;
    InsideIsNoWorse(Baseline(p), RangesWith(p, staged));
    WorstEnd(MinimumNet(RangesWith(p, staged)), MaximumNet(RangesWith(p, staged)));
    hide Worst, SellsOffend;
  }

  lemma OffenderHadToGo(p: Portfolio, staged: Deltas, a: Asset)
    requires Sound(p) && NetWorsened(p, staged)
    requires IsSmallestOffender(a, staged, Sells(p, staged))
    ensures HadToGo(p, staged, staged[a := 0.0], a)
  {
    hide RangesWith, Baseline, Sound, Sells, MinimumNet, MaximumNet, WorstNet;
    assert staged[a := 0.0][a := staged[a]] == staged;
    WorstEndWith(p, staged);
  }

  lemma DroppingTheSmallest(staged: Deltas, a: Asset, sells: bool, pruned: Deltas)
    requires IsSmallestOffender(a, staged, sells) && DropsTheSmallest(staged[a := 0.0], pruned)
    requires LeavesOrDrops(staged, pruned)
    ensures DropsTheSmallest(staged, pruned)
  {
  }

  ghost predicate SomethingHadToGo(p: Portfolio, staged: Deltas, pruned: Deltas) {
    exists a :: HadToGo(p, staged, pruned, a)
  }

  ghost predicate LeavesOrDrops(staged: Deltas, pruned: Deltas) {
    pruned.Keys == staged.Keys && forall a :: a in pruned ==> pruned[a] == 0.0 || pruned[a] == staged[a]
  }

  lemma StillHadToGo(p: Portfolio, staged: Deltas, pruned: Deltas, a: Asset)
    requires a in staged && SomethingHadToGo(p, staged[a := 0.0], pruned)
    ensures SomethingHadToGo(p, staged, pruned)
  {
    hide RangesWith, Baseline, WorstNet, MinimumNet, MaximumNet;
    var b :| HadToGo(p, staged[a := 0.0], pruned, b);
    assert HadToGo(p, staged, pruned, b);
  }

  /** Pruning leaves or drops each delta, the smallest of a side first, and goes no
      further than it must: the last one dropped would worsen the net. */
  lemma {:induction false} PruningDropsTheLeast(p: Portfolio, staged: Deltas, deltas: Deltas)
    requires Sound(p) && StagedFrom(p, staged, deltas)
    ensures var pruned := Prune(p, staged, deltas);
            && LeavesOrDrops(staged, pruned) && DropsTheSmallest(staged, pruned)
            && (!NetWorsened(p, staged) ==> pruned == staged)
            && (NetWorsened(p, staged) ==> SomethingHadToGo(p, staged, pruned))
    decreases |NonZero(staged)|
  {
    hide Sound, StagedFrom, Prune, NonZero, IsSmallestOffender, HadToGo, SomethingHadToGo, DropsTheSmallest,
      NetWorsened, LeavesOrDrops, Sells;
    StagedKeys(p, staged, deltas);
    if NetWorsened(p, staged) {
      SmallestExists(p, staged);
      var a :| IsSmallestOffender(a, staged, Sells(p, staged));
      OffenderIsNonZero(a, staged, Sells(p, staged));
      PruneStep(p, staged, deltas, a);
      PruningDropsTheLeast(p, staged[a := 0.0], deltas);
      var pruned := Prune(p, staged, deltas);
      LeavesOrDropsToo(staged, a, pruned);
      DroppingTheSmallest(staged, a, Sells(p, staged), pruned);
      if NetWorsened(p, staged[a := 0.0]) {
        StillHadToGo(p, staged, pruned, a);
      } else {
        OffenderHadToGo(p, staged, a);
        assert SomethingHadToGo(p, staged, pruned) by { ThisHadToGo(p, staged, pruned, a); }
      }
    } else {
      PruneIsDone(p, staged, deltas);
      NothingDropped(staged);
    }
  }

  lemma LeavesOrDropsToo(staged: Deltas, a: Asset, pruned: Deltas)
    requires a in staged && LeavesOrDrops(staged[a := 0.0], pruned)
    ensures LeavesOrDrops(staged, pruned)
  {
  }

  lemma ThisHadToGo(p: Portfolio, staged: Deltas, pruned: Deltas, a: Asset)
    requires HadToGo(p, staged, pruned, a)
    ensures SomethingHadToGo(p, staged, pruned)
  {
  }

  lemma NothingDropped(staged: Deltas)
    ensures LeavesOrDrops(staged, staged) && DropsTheSmallest(staged, staged)
  {
  }

  /** The first pass: each delta alone. */
  method KeepReducing(p: Portfolio, deltas: Deltas) returns (staged: Deltas, hasReduction: bool)
    ensures staged == Kept(p, deltas)
    ensures hasReduction <==> exists a :: a in staged && staged[a] != 0.0
  {
    hide AssetRange, Magnitude;
    staged, hasReduction := map[], false;
    var rest := p.assets;
    while rest != {}
      invariant rest <= p.assets
      invariant staged == map a | a in p.assets && a !in rest :: KeepOne(p, deltas, a)
      invariant hasReduction <==> exists a :: a in staged && staged[a] != 0.0
      decreases rest
    {
      var a := Least(rest);
      rest := rest - {a};
      var delta := Get(deltas, a);
      if delta == 0.0 {
        staged := staged[a := 0.0];
      } else if Reduces(p, a, delta) {
        staged := staged[a := delta];
        hasReduction := true;
        assert staged[a] != 0.0;
      } else {
        staged := staged[a := 0.0];
      }
    }
  }

  /** Stages the deltas that reduce each asset's worst exposure, then drops
      offenders until the net is no worse. It always terminates and never fails. */
  method StageRiskReducingDeltas(p: Portfolio, deltas: Deltas) returns (staged: Deltas)
    requires Sound(p)
    ensures (KeptIsStaged(p, deltas); staged == Prune(p, Kept(p, deltas), deltas))
    ensures StagedFrom(p, staged, deltas)
    ensures Magnitudes(RangesWith(p, staged)) == Magnitudes(Baseline(p))
    ensures Gross(RangesWith(p, staged)) == Gross(Baseline(p))
    ensures WorstNet(RangesWith(p, staged)) == WorstNet(Baseline(p))
  {
    hide Kept, StagedFrom, Sound, NonZero, IsSmallestOffender, Prune, RangesWith, Baseline, Magnitudes, Gross;
    var hasReduction;
    staged, hasReduction := KeepReducing(p, deltas);
    KeptIsStaged(p, deltas);
    if hasReduction {
      var _, baselineMinimum, baselineMaximum := RangeMetrics(Baseline(p));
      var baselineWorst := Worst(baselineMinimum, baselineMaximum);
      while true
        invariant StagedFrom(p, staged, deltas)
        invariant Prune(p, staged, deltas) == Prune(p, Kept(p, deltas), deltas)
        decreases |NonZero(staged)|
      {
        var _, minimum, maximum := RangeMetrics(RangesWith(p, staged));
        if Worst(minimum, maximum) <= baselineWorst {
          break;
        }
        StagedKeys(p, staged, deltas);
        SmallestExists(p, staged);
        var smallest := FindSmallestOffender(staged, SellsOffend(minimum, maximum));
        SmallestFound(staged, Sells(p, staged), smallest);
        PruneStep(p, staged, deltas, smallest.value);
        staged := staged[smallest.value := 0.0];
      }
      PruneIsDone(p, staged, deltas);
    } else {
      NothingToPrune(p, staged, deltas);
    }
    PruningRestoresTheBaseline(p, staged, deltas);
  }

  lemma StagedKeys(p: Portfolio, staged: Deltas, deltas: Deltas)
    requires StagedFrom(p, staged, deltas)
    ensures staged.Keys == p.assets
  {
  }

  lemma SmallestFound(staged: Deltas, sells: bool, smallest: Option<Asset>)
    requires exists a :: IsSmallestOffender(a, staged, sells)
    requires smallest.None? ==> forall a :: a in staged ==> !Offends(staged[a], sells)
    ensures smallest.Some?
  {
  }

  lemma PruneIsDone(p: Portfolio, staged: Deltas, deltas: Deltas)
    requires Sound(p) && StagedFrom(p, staged, deltas) && !NetWorsened(p, staged)
    ensures Prune(p, staged, deltas) == staged
  {
  }

  lemma NothingToPrune(p: Portfolio, staged: Deltas, deltas: Deltas)
    requires Sound(p) && StagedFrom(p, staged, deltas) && forall a :: a in staged ==> staged[a] == 0.0
    ensures Prune(p, staged, deltas) == staged
  {
    hide Sound, StagedFrom, NetWorsened, Prune;
    StagedKeys(p, staged, deltas);
    if NetWorsened(p, staged) {
      SmallestExists(p, staged);
    } else {
      PruneIsDone(p, staged, deltas);
    }
  }
}
