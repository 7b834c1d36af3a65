/** The registry of `crates/copytrade-core/src/lifecycle.rs`: every order by its
    client identifier, with an index by asset. */
module LifecycleRegistry {
  import opened Common
  import opened Lifecycle

  datatype RiskAuthorization = NoIncreasePermitted | NormalPlanningPermitted

  datatype RegistryError =
    | DuplicateCloid
    | CapacityExhausted
    | MissingCloid
    | Transition(error: TransitionError)

  predicate HasAsset(s: State, asset: Text) {
    s.Action().Some? && s.Action().value.asset == asset
  }

  /** The plain scan that the index stands in for. */
  predicate UnknownSubmissionOn(entries: map<Cloid, State>, asset: Text) {
    exists c :: c in entries && entries[c].SubmissionUnknown? && HasAsset(entries[c], asset)
  }

  function ScanAuthorization(entries: map<Cloid, State>, blocked: set<Text>, asset: Text): RiskAuthorization {
    if asset in blocked || UnknownSubmissionOn(entries, asset) then NoIncreasePermitted else NormalPlanningPermitted
  }

  /** Every entry stands under its own identifier. */
  ghost predicate OwnKeys(entries: map<Cloid, State>) {
    forall c :: c in entries ==> entries[c].Action().Some? && entries[c].Action().value.cloid == c
  }

  /** The index holds, for each asset, exactly the identifiers whose entry has
      that asset, and no empty sets. */
  ghost predicate Indexes(index: map<Text, set<Cloid>>, entries: map<Cloid, State>) {
    && (forall a :: a in index ==> index[a] != {})
    && PointsAtEntries(index, entries)
    && FindsEntries(index, entries)
  }

  ghost predicate PointsAtEntries(index: map<Text, set<Cloid>>, entries: map<Cloid, State>) {
    forall a, c :: a in index && c in index[a] ==> c in entries && HasAsset(entries[c], a)
  }

  ghost predicate FindsEntries(index: map<Text, set<Cloid>>, entries: map<Cloid, State>) {
    forall c, a :: c in entries && HasAsset(entries[c], a) ==> a in index && c in index[a]
  }

  /** The index after one entry has gone. */
  function IndexWithout(index: map<Text, set<Cloid>>, asset: Text, cloid: Cloid): map<Text, set<Cloid>> {
    if asset !in index then index
    else if index[asset] - {cloid} == {} then index - {asset}
    else index[asset := index[asset] - {cloid}]
  }

  lemma RemovalPointsAtEntries(index: map<Text, set<Cloid>>, entries: map<Cloid, State>, asset: Text, cloid: Cloid)
    requires PointsAtEntries(index, entries)
    requires cloid in entries && forall a :: HasAsset(entries[cloid], a) ==> a == asset
    ensures PointsAtEntries(IndexWithout(index, asset, cloid), entries - {cloid})
  {
    hide HasAsset;
  }

  lemma RemovalFindsEntries(index: map<Text, set<Cloid>>, entries: map<Cloid, State>, asset: Text, cloid: Cloid)
    requires FindsEntries(index, entries)
    ensures FindsEntries(IndexWithout(index, asset, cloid), entries - {cloid})
  {
    hide HasAsset;
    var after := IndexWithout(index, asset, cloid);
    forall c, a | c in entries - {cloid} && HasAsset(entries[c], a) ensures a in after && c in after[a] {
      assert c in index[a] - {cloid};
    }
  }

  lemma IndexFollowsRemoval(index: map<Text, set<Cloid>>, entries: map<Cloid, State>, cloid: Cloid)
    requires OwnKeys(entries) && Indexes(index, entries) && cloid in entries
    ensures Indexes(IndexWithout(index, entries[cloid].Action().value.asset, cloid), entries - {cloid})
    ensures |entries - {cloid}| == |entries| - 1
  {
    hide PointsAtEntries, FindsEntries;
    var asset := entries[cloid].Action().value.asset;
    RemovalPointsAtEntries(index, entries, asset, cloid);
    RemovalFindsEntries(index, entries, asset, cloid);
    assert (entries - {cloid}).Keys == entries.Keys - {cloid};
  }

  /** The index after an entry has come. */
  function IndexWith(index: map<Text, set<Cloid>>, asset: Text, cloid: Cloid): map<Text, set<Cloid>> {
    index[asset := (if asset in index then index[asset] else {}) + {cloid}]
  }

  lemma IndexFollowsInsertion(index: map<Text, set<Cloid>>, entries: map<Cloid, State>, cloid: Cloid, s: State)
    requires Indexes(index, entries) && cloid !in entries && s.Action().Some?
    ensures Indexes(IndexWith(index, s.Action().value.asset, cloid), entries[cloid := s])
  {
    var asset := s.Action().value.asset;
    assert forall a :: HasAsset(s, a) <==> a == asset;
    hide HasAsset;
  }

  lemma IndexFollowsChange(index: map<Text, set<Cloid>>, entries: map<Cloid, State>, cloid: Cloid, s: State)
    requires Indexes(index, entries) && cloid in entries && s.Action() == entries[cloid].Action()
    ensures Indexes(index, entries[cloid := s])
  {
    assert forall a :: HasAsset(s, a) <==> HasAsset(entries[cloid], a);
    hide HasAsset;
  }

  lemma OwnKeysFollow(entries: map<Cloid, State>, cloid: Cloid, s: State)
    requires OwnKeys(entries) && s.Action().Some? && s.Action().value.cloid == cloid
    ensures OwnKeys(entries[cloid := s])
  {
  }

  predicate IsLeastCloid(least: Cloid, cloids: set<Cloid>) {
    least in cloids && forall c :: c in cloids ==> least <= c
  }

  lemma {:induction false} LeastCloidExists(cloids: set<Cloid>)
    requires cloids != {}
    ensures exists least :: least in cloids && IsLeastCloid(least, cloids)
    decreases |cloids|
  {
    var c :| c in cloids;
    if cloids - {c} == {} {
      assert cloids == {c};
      assert IsLeastCloid(c, cloids);
    } else {
      LeastCloidExists(cloids - {c});
      var l :| l in cloids - {c} && IsLeastCloid(l, cloids - {c});
      var least := if c < l then c else l;
      forall d | d in cloids ensures least <= d {
        assert d == c || d in cloids - {c};
      }
      assert IsLeastCloid(least, cloids);
    }
  }

  function Terminal(entries: map<Cloid, State>): set<Cloid> {
    set c | c in entries && entries[c].IsTerminal()
  }

  class Registry {
    var byCloid: map<Cloid, State>
    var byAsset: map<Text, set<Cloid>>
    var blockedAssets: set<Text>
    const maximumEntries: nat

    ghost predicate Valid()
      reads this
    {
      && OwnKeys(byCloid)
      && Indexes(byAsset, byCloid)
      && |byCloid| <= maximumEntries
      && maximumEntries > 0
    }

    constructor Empty(maximum: nat)
      requires maximum > 0
      ensures Valid() && byCloid == map[] && blockedAssets == {} && maximumEntries == maximum
    {
      byCloid, byAsset, blockedAssets, maximumEntries := map[], map[], {}, maximum;
    }

    static method New(maximum: nat) returns (r: Result<Registry, RegistryError>)
      ensures r.Ok? <==> maximum > 0
      ensures r.Ok? ==>
                && fresh(r.value) && r.value.Valid()
                && r.value.byCloid == map[] && r.value.maximumEntries == maximum
      ensures r.Err? ==> r.error == CapacityExhausted
    {
      if maximum == 0 {
        return Err(CapacityExhausted);
      }
      var registry := new Registry.Empty(maximum);
      r := Ok(registry);
    }

    method Insert(s: State) returns (r: Result<(), RegistryError>)
      requires Valid()
      modifies this
      ensures Valid() && blockedAssets == old(blockedAssets)
      ensures s.Action().None? ==> r == Err(MissingCloid)
      ensures s.Action().Some? ==>
                var cloid := s.Action().value.cloid;
                if cloid in old(byCloid) then r == Err(DuplicateCloid)
                else if |old(byCloid)| == maximumEntries then r == Err(CapacityExhausted)
                else r == Ok(())
      ensures byCloid == if r.Ok? then old(byCloid)[s.Action().value.cloid := s] else old(byCloid)
    {
      if s.Action().None? {
        return Err(MissingCloid);
      }
      var action := s.Action().value;
      if action.cloid in byCloid {
        return Err(DuplicateCloid);
      }
      if |byCloid| >= maximumEntries {
        return Err(CapacityExhausted);
      }
      hide Indexes, OwnKeys;
      IndexFollowsInsertion(byAsset, byCloid, action.cloid, s);
      OwnKeysFollow(byCloid, action.cloid, s);
      var cloids := if action.asset in byAsset then byAsset[action.asset] else {};
      byAsset := byAsset[action.asset := cloids + {action.cloid}];
      byCloid := byCloid[action.cloid := s];
      r := Ok(());
    }

    method Apply(cloid: Cloid, event: Event, policy: Policy) returns (r: Result<State, RegistryError>)
      requires Valid()
      modifies this
      ensures Valid()
      ensures cloid !in old(byCloid) ==> r == Err(MissingCloid)
      ensures cloid in old(byCloid) ==>
                match ApplyEvent(old(byCloid)[cloid], event, policy)
                case Ok(next) => r == Ok(next)
                case Err(error) => r == Err(Transition(error))
      ensures byCloid == if r.Ok? then old(byCloid)[cloid := r.value] else old(byCloid)
      ensures blockedAssets == old(blockedAssets) +
                if r == Err(Transition(ReconciliationConflict)) then {old(byCloid)[cloid].action.asset} else {}
    {
      if cloid !in byCloid {
        return Err(MissingCloid);
      }
      var current := byCloid[cloid];
      var asset := current.Action().value.asset;
      StepAdvances(current, event, policy);
      hide Indexes, ApplyEvent;
      var next := ApplyEvent(current, event, policy);
      if next.Ok? {
        IndexFollowsChange(byAsset, byCloid, cloid, next.value);
        OwnKeysFollow(byCloid, cloid, next.value);
        byCloid := byCloid[cloid := next.value];
        assert byCloid.Keys == old(byCloid).Keys;
        return Ok(next.value);
      }
      if next.error == ReconciliationConflict {
        blockedAssets := blockedAssets + {asset};
      }
      r := Err(Transition(next.error));
    }

    /** Answered from the index; equal to a scan of every entry. */
    function AuthorizationForAsset(asset: Text): (r: RiskAuthorization)
      requires Valid()
      reads this
      ensures r == ScanAuthorization(byCloid, blockedAssets, asset)
    {
      if asset in blockedAssets ||
         (asset in byAsset && exists c :: c in byAsset[asset] && c in byCloid && byCloid[c].SubmissionUnknown?)
      then NoIncreasePermitted
      else NormalPlanningPermitted
    }

    method Remove(cloid: Cloid)
      requires Valid() && cloid in byCloid
      modifies this
      ensures Valid() && byCloid == old(byCloid) - {cloid} && blockedAssets == old(blockedAssets)
    {
      hide Indexes;
      IndexFollowsRemoval(byAsset, byCloid, cloid);
      byAsset := IndexWithout(byAsset, byCloid[cloid].Action().value.asset, cloid);
      byCloid := byCloid - {cloid};
    }

    method RemoveAll(cloids: set<Cloid>)
      requires Valid() && cloids <= byCloid.Keys
      modifies this
      ensures Valid() && byCloid == old(byCloid) - cloids && blockedAssets == old(blockedAssets)
    {
      hide Indexes, OwnKeys;
      ghost var before := byCloid;
      ghost var gone: set<Cloid> := {};
      var rest := cloids;
      while rest != {}
        invariant Valid() && blockedAssets == old(blockedAssets)
        invariant gone !! rest && gone + rest == cloids && byCloid == before - gone
        decreases rest
      {
        var cloid :| cloid in rest;
        Remove(cloid);
        SubtractOneMore(before, gone, cloid);
        rest, gone := rest - {cloid}, gone + {cloid};
      }
      assert gone == cloids;
    }

    /** Removes the first terminal entries in identifier order, and changes no
        asset's authorization. */
    method CompactTerminal(maximumToRemove: nat) returns (removed: nat)
      requires Valid()
      modifies this
      ensures Valid() && blockedAssets == old(blockedAssets)
      ensures exists gone :: FirstOf(gone, Terminal(old(byCloid)), maximumToRemove) &&
                byCloid == old(byCloid) - gone && removed == |gone|
      ensures forall asset :: ScanAuthorization(byCloid, blockedAssets, asset)
                == old(ScanAuthorization(byCloid, blockedAssets, asset))
    {
      hide Indexes, OwnKeys, ScanAuthorization, FirstOf;
      var removable := SelectFirst(Terminal(byCloid), maximumToRemove);
      FirstAreEntries(removable, byCloid, maximumToRemove);
      CompactionKeepsAuthorization(byCloid, removable, maximumToRemove, blockedAssets);
      RemoveAll(removable);
      removed := |removable|;
    }
  }

  lemma SubtractOneMore(entries: map<Cloid, State>, gone: set<Cloid>, cloid: Cloid)
    ensures (entries - gone) - {cloid} == entries - (gone + {cloid})
  {
  }

  /** The first of some identifiers in their order, up to a maximum. */
  ghost predicate FirstOf(first: set<Cloid>, all: set<Cloid>, maximum: nat) {
    && first <= all
    && |first| == (if |all| < maximum then |all| else maximum)
    && AllBefore(first, all - first)
  }

  method SelectFirst(all: set<Cloid>, maximum: nat) returns (first: set<Cloid>)
    ensures FirstOf(first, all, maximum)
  {
    hide AllBefore, IsLeastCloid;
    var rest := all;
    first := {};
    NothingIsBefore(rest);
    while |first| < maximum && rest != {}
      invariant first !! rest && first + rest == all
      invariant |first| <= maximum && |all| == |first| + |rest|
      invariant AllBefore(first, rest)
      decreases rest
    {
      LeastCloidExists(rest);
      var cloid :| cloid in rest && IsLeastCloid(cloid, rest);
      AllBeforeStep(first, rest, {cloid});
      first, rest := first + {cloid}, rest - {cloid};
    }
    assert all - first == rest;
  }

  ghost predicate AllBefore(first: set<Cloid>, rest: set<Cloid>) {
    forall f, later :: f in first && later in rest ==> f < later
  }

  lemma NothingIsBefore(rest: set<Cloid>)
    ensures AllBefore({}, rest)
  {
  }

  lemma AllBeforeStep(first: set<Cloid>, rest: set<Cloid>, next: set<Cloid>)
    requires AllBefore(first, rest) && next <= rest
    requires forall c :: c in next ==> IsLeastCloid(c, rest)
    ensures AllBefore(first + next, rest - next)
  {
  }

  lemma FirstAreEntries(first: set<Cloid>, entries: map<Cloid, State>, maximum: nat)
    requires FirstOf(first, Terminal(entries), maximum)
    ensures first <= entries.Keys
  {
  }

  lemma CompactionKeepsAuthorization(entries: map<Cloid, State>, gone: set<Cloid>, maximum: nat, blocked: set<Text>)
    requires FirstOf(gone, Terminal(entries), maximum)
    ensures forall asset ::
              ScanAuthorization(entries - gone, blocked, asset) == ScanAuthorization(entries, blocked, asset)
  {
    forall asset ensures UnknownSubmissionOn(entries - gone, asset) == UnknownSubmissionOn(entries, asset) {
      if UnknownSubmissionOn(entries, asset) {
        var c :| c in entries && entries[c].SubmissionUnknown? && HasAsset(entries[c], asset);
        assert c in entries - gone;
      }
    }
  }
}
