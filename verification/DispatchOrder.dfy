/** Sorting eligible requests by the dispatch comparator. */
module DispatchOrder {
  import opened Common
  import opened ReadRequests

  ghost predicate DistinctKeys(rs: seq<Request>) {
    forall i, j :: 0 <= i < j < |rs| ==> rs[i].key != rs[j].key
  }

  ghost predicate OrderOn(rs: seq<Request>, counts: map<Tier, nat>, targets: map<Tier, nat>)
    requires Targeted(targets)
  {
    forall a, b, c :: a in rs && b in rs && c in rs ==> TransitiveAt(a, b, c, counts, targets)
  }

  ghost predicate InOrder(rs: seq<Request>, counts: map<Tier, nat>, targets: map<Tier, nat>)
    requires Targeted(targets)
  {
    forall i, j :: 0 <= i < j < |rs| ==> CompareDispatch(rs[i], rs[j], counts, targets) == Before
  }

  /** Stable insertion. Rust's `sort_by` gives the same result whenever the
      comparator is an order. When it is not, the order is unspecified, and since
      Rust 1.81 the call may panic; here it is taken to return. */
  function Insert(r: Request, rs: seq<Request>, counts: map<Tier, nat>, targets: map<Tier, nat>): seq<Request>
    requires Targeted(targets)
  {
    if rs == [] || CompareDispatch(r, rs[0], counts, targets) != After then [r] + rs
    else [rs[0]] + Insert(r, rs[1..], counts, targets)
  }

  function Sort(rs: seq<Request>, counts: map<Tier, nat>, targets: map<Tier, nat>): seq<Request>
    requires Targeted(targets)
  {
    if rs == [] then [] else Insert(rs[0], Sort(rs[1..], counts, targets), counts, targets)
  }

  lemma {:induction false} InsertKeepsElements(
    r: Request, rs: seq<Request>, counts: map<Tier, nat>, targets: map<Tier, nat>)
    requires Targeted(targets)
    ensures forall x :: x in Insert(r, rs, counts, targets) <==> x == r || x in rs
  {
    hide CompareDispatch;
    if rs != [] && CompareDispatch(r, rs[0], counts, targets) == After {
      InsertKeepsElements(r, rs[1..], counts, targets);
    }
  }

  lemma {:induction false} SortKeepsElements(rs: seq<Request>, counts: map<Tier, nat>, targets: map<Tier, nat>)
    requires Targeted(targets)
    ensures forall x :: x in Sort(rs, counts, targets) <==> x in rs
  {
    hide Insert;
    if rs != [] {
      SortKeepsElements(rs[1..], counts, targets);
      InsertKeepsElements(rs[0], Sort(rs[1..], counts, targets), counts, targets);
    }
  }

  lemma CompareDispatchIsTotal(a: Request, b: Request, counts: map<Tier, nat>, targets: map<Tier, nat>)
    requires Targeted(targets)
    ensures CompareDispatch(a, b, counts, targets) == CompareDispatch(b, a, counts, targets).Reverse()
    ensures CompareDispatch(a, b, counts, targets) == Same ==> a.key == b.key
  {
    CompareKeyIsTotal(a.key, b.key);
    hide CompareKey;
    if a.tier.Some? && b.tier.Some? {
      OneFairness(a.tier.value, b.tier.value, counts, targets);
      OneFairness(b.tier.value, a.tier.value, counts, targets);
      hide CompareFairness;
    }
  }

  lemma {:induction false} InsertKeepsOrder(
    r: Request, rs: seq<Request>, counts: map<Tier, nat>, targets: map<Tier, nat>)
    requires Targeted(targets) && InOrder(rs, counts, targets)
    requires OrderOn([r] + rs, counts, targets)
    requires forall i :: 0 <= i < |rs| ==> rs[i].key != r.key
    ensures InOrder(Insert(r, rs, counts, targets), counts, targets)
  {
    hide CompareDispatch;
    if rs != [] {
      CompareDispatchIsTotal(r, rs[0], counts, targets);
      if CompareDispatch(r, rs[0], counts, targets) != After {
        PrependKeepsOrder(r, rs, counts, targets);
      } else {
        var rest := rs[1..];
        assert forall x :: x in [r] + rest ==> x in [r] + rs;
        InsertKeepsOrder(r, rest, counts, targets);
        InsertKeepsElements(r, rest, counts, targets);
        var inserted := Insert(r, rest, counts, targets);
        forall x | x in inserted ensures CompareDispatch(rs[0], x, counts, targets) == Before {
          if x != r { var j :| 0 <= j < |rest| && rest[j] == x; assert rs[j + 1] == x; }
        }
        HeadKeepsOrder(rs[0], inserted, counts, targets);
      }
    }
  }

  lemma HeadKeepsOrder(head: Request, rs: seq<Request>, counts: map<Tier, nat>, targets: map<Tier, nat>)
    requires Targeted(targets) && InOrder(rs, counts, targets)
    requires forall x :: x in rs ==> CompareDispatch(head, x, counts, targets) == Before
    ensures InOrder([head] + rs, counts, targets)
  {
  }

  lemma PrependKeepsOrder(r: Request, rs: seq<Request>, counts: map<Tier, nat>, targets: map<Tier, nat>)
    requires Targeted(targets) && InOrder(rs, counts, targets) && OrderOn([r] + rs, counts, targets)
    requires rs != [] && CompareDispatch(r, rs[0], counts, targets) == Before
    ensures InOrder([r] + rs, counts, targets)
  {
    hide CompareDispatch;
    forall x | x in rs ensures CompareDispatch(r, x, counts, targets) == Before {
      var j :| 0 <= j < |rs| && rs[j] == x;
      if j > 0 {
        assert r in [r] + rs && rs[0] in [r] + rs && x in [r] + rs;
        assert TransitiveAt(r, rs[0], x, counts, targets);
      }
    }
    HeadKeepsOrder(r, rs, counts, targets);
  }

  lemma {:induction false} SortSorts(rs: seq<Request>, counts: map<Tier, nat>, targets: map<Tier, nat>)
    requires Targeted(targets) && OrderOn(rs, counts, targets) && DistinctKeys(rs)
    ensures InOrder(Sort(rs, counts, targets), counts, targets)
  {
    hide CompareDispatch, Insert, TransitiveAt;
    if rs != [] {
      var rest := rs[1..];
      assert forall x :: x in rest ==> x in rs;
      SortSorts(rest, counts, targets);
      SortKeepsElements(rest, counts, targets);
      var sorted := Sort(rest, counts, targets);
      forall i | 0 <= i < |sorted| ensures sorted[i].key != rs[0].key {
        assert sorted[i] in rest;
        var j :| 0 <= j < |rest| && rest[j] == sorted[i];
        assert rs[0].key != rs[j + 1].key;
      }
      assert forall x :: x in [rs[0]] + sorted ==> x in rs;
      InsertKeepsOrder(rs[0], sorted, counts, targets);
    }
  }
}
