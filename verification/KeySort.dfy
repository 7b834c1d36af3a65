/** Sorting records by a text key, as Rust's stable `sort_by` does. */
module KeySort {
  import opened Common

  function Keys<T>(items: seq<T>, key: T -> Text): (keys: seq<Text>)
    ensures |keys| == |items| && forall i :: 0 <= i < |items| ==> keys[i] == key(items[i])
  {
    seq(|items|, i requires 0 <= i < |items| => key(items[i]))
  }

  function InsertByKey<T>(x: T, sorted: seq<T>, key: T -> Text): seq<T> {
    if sorted == [] || TextAtMost(key(x), key(sorted[0])) then [x] + sorted
    else [sorted[0]] + InsertByKey(x, sorted[1..], key)
  }

  function SortByKey<T>(items: seq<T>, key: T -> Text): seq<T> {
    if items == [] then [] else InsertByKey(items[0], SortByKey(items[1..], key), key)
  }

  ghost predicate Ascending(keys: seq<Text>) {
    forall i, j :: 0 <= i < j < |keys| ==> TextAtMost(keys[i], keys[j])
  }

  ghost predicate Distinct(keys: seq<Text>) {
    forall i, j :: 0 <= i < j < |keys| ==> keys[i] != keys[j]
  }

  lemma {:induction false} InsertKeepsElements<T>(x: T, sorted: seq<T>, key: T -> Text)
    ensures multiset(InsertByKey(x, sorted, key)) == multiset(sorted) + multiset{x}
  {
    if sorted != [] && !TextAtMost(key(x), key(sorted[0])) {
      InsertKeepsElements(x, sorted[1..], key);
      assert sorted == [sorted[0]] + sorted[1..];
    }
  }

  lemma {:induction false} SortKeepsElements<T>(items: seq<T>, key: T -> Text)
    ensures multiset(SortByKey(items, key)) == multiset(items)
    ensures |SortByKey(items, key)| == |items|
  {
    if items != [] {
      SortKeepsElements(items[1..], key);
      InsertKeepsElements(items[0], SortByKey(items[1..], key), key);
      assert items == [items[0]] + items[1..];
    }
    assert |multiset(SortByKey(items, key))| == |multiset(items)|;
  }

  lemma SortedAreItems<T>(items: seq<T>, key: T -> Text)
    ensures forall x :: x in SortByKey(items, key) <==> x in items
  {
    SortKeepsElements(items, key);
    forall x ensures x in SortByKey(items, key) <==> x in items {
      assert x in SortByKey(items, key) <==> x in multiset(SortByKey(items, key));
      assert x in items <==> x in multiset(items);
    }
  }

  ghost predicate AtMostAll<T>(least: Text, items: seq<T>, key: T -> Text) {
    forall x :: x in items ==> TextAtMost(least, key(x))
  }

  lemma {:induction false} InsertKeepsOrder<T>(x: T, sorted: seq<T>, key: T -> Text)
    requires Ascending(Keys(sorted, key))
    ensures Ascending(Keys(InsertByKey(x, sorted, key), key))
    ensures forall least :: TextAtMost(least, key(x)) && AtMostAll(least, sorted, key) ==>
              AtMostAll(least, InsertByKey(x, sorted, key), key)
  {
    if sorted == [] {
    } else if TextAtMost(key(x), key(sorted[0])) {
      AscendingCons(x, sorted, key);
    } else {
      var rest := sorted[1..];
      AscendingTail(sorted, key);
      InsertKeepsOrder(x, rest, key);
      TextLessIsTotal(key(x), key(sorted[0]));
      assert AtMostAll(key(sorted[0]), rest, key);
      AscendingConsAll(sorted[0], InsertByKey(x, rest, key), key);
      assert forall y :: y in rest ==> y in sorted;
    }
  }

  lemma AscendingTail<T>(items: seq<T>, key: T -> Text)
    requires items != [] && Ascending(Keys(items, key))
    ensures Ascending(Keys(items[1..], key)) && AtMostAll(key(items[0]), items[1..], key)
  {
  }

  lemma AscendingConsAll<T>(x: T, items: seq<T>, key: T -> Text)
    requires Ascending(Keys(items, key)) && AtMostAll(key(x), items, key)
    ensures Ascending(Keys([x] + items, key))
  {
  }

  lemma AscendingCons<T>(x: T, sorted: seq<T>, key: T -> Text)
    requires sorted != [] && Ascending(Keys(sorted, key)) && TextAtMost(key(x), key(sorted[0]))
    ensures Ascending(Keys([x] + sorted, key))
  {
    AscendingTail(sorted, key);
    forall y | y in sorted ensures TextAtMost(key(x), key(y)) {
      if y != sorted[0] {
        assert y in sorted[1..];
        if key(x) != key(sorted[0]) && key(sorted[0]) != key(y) {
          TextLessIsTransitive(key(x), key(sorted[0]), key(y));
        }
      }
    }
    AscendingConsAll(x, sorted, key);
  }

  lemma {:induction false} SortSorts<T>(items: seq<T>, key: T -> Text)
    ensures Ascending(Keys(SortByKey(items, key), key))
  {
    if items != [] {
      SortSorts(items[1..], key);
      InsertKeepsOrder(items[0], SortByKey(items[1..], key), key);
    }
  }

  /** An ascending sequence is determined by its elements. */
  lemma HeadsAgree(a: seq<Text>, b: seq<Text>)
    requires Ascending(a) && Ascending(b) && multiset(a) == multiset(b) && a != [] && b != []
    ensures a[0] == b[0]
  {
    hide TextLess;
    assert a[0] in multiset(b) && b[0] in multiset(a);
    var i :| 0 <= i < |a| && a[i] == b[0];
    var j :| 0 <= j < |b| && b[j] == a[0];
    TextLessIsStrict(a[0], b[0]);
  }

  lemma RestAscends(a: seq<Text>)
    requires Ascending(a) && a != []
    ensures Ascending(a[1..])
  {
  }

  lemma TailsAgree(a: seq<Text>, b: seq<Text>)
    requires multiset(a) == multiset(b) && a != [] && b != [] && a[0] == b[0]
    ensures multiset(a[1..]) == multiset(b[1..])
  {
    assert a == [a[0]] + a[1..] && b == [b[0]] + b[1..];
    assert multiset(a[1..]) == multiset(a) - multiset{a[0]};
    assert multiset(b[1..]) == multiset(b) - multiset{b[0]};
  }

  lemma {:induction false} AscendingIsUnique(a: seq<Text>, b: seq<Text>)
    requires Ascending(a) && Ascending(b) && multiset(a) == multiset(b)
    ensures a == b
  {
    assert |multiset(a)| == |a| && |multiset(b)| == |b|;
    if a != [] {
      HeadsAgree(a, b);
      TailsAgree(a, b);
      RestAscends(a);
      RestAscends(b);
      hide Ascending;
      AscendingIsUnique(a[1..], b[1..]);
      assert a == [a[0]] + a[1..] && b == [b[0]] + b[1..];
    }
  }

  function Without<T>(items: seq<T>, j: nat): seq<T>
    requires j < |items|
  {
    items[..j] + items[j + 1..]
  }

  lemma WithoutOne<T>(items: seq<T>, j: nat)
    requires j < |items|
    ensures multiset(items) == multiset(Without(items, j)) + multiset{items[j]}
    ensures multiset(Without(items, j)) == multiset(items) - multiset{items[j]}
    ensures |Without(items, j)| == |items| - 1
  {
    assert items == items[..j] + [items[j]] + items[j + 1..];
  }

  lemma KeysWithout<T>(items: seq<T>, j: nat, key: T -> Text)
    requires j < |items|
    ensures Keys(Without(items, j), key) == Without(Keys(items, key), j)
  {
  }

  lemma {:induction false} KeysOfSameElements<T>(a: seq<T>, b: seq<T>, key: T -> Text)
    requires multiset(a) == multiset(b)
    ensures multiset(Keys(a, key)) == multiset(Keys(b, key))
    decreases |a|
  {
    assert |multiset(a)| == |a| && |multiset(b)| == |b|;
    if a != [] {
      assert a[0] in multiset(b);
      var j :| 0 <= j < |b| && b[j] == a[0];
      WithoutOne(a, 0);
      WithoutOne(b, j);
      hide Without;
      KeysOfSameElements(Without(a, 0), Without(b, j), key);
      KeysWithout(a, 0, key);
      KeysWithout(b, j, key);
      WithoutOne(Keys(a, key), 0);
      WithoutOne(Keys(b, key), j);
    }
  }

  /** The same records in any order sort to the same keys. */
  lemma SortForgetsOrder<T>(a: seq<T>, b: seq<T>, key: T -> Text)
    requires multiset(a) == multiset(b)
    ensures Keys(SortByKey(a, key), key) == Keys(SortByKey(b, key), key)
  {
    SortKeepsElements(a, key);
    SortKeepsElements(b, key);
    SortSorts(a, key);
    SortSorts(b, key);
    KeysOfSameElements(SortByKey(a, key), SortByKey(b, key), key);
    AscendingIsUnique(Keys(SortByKey(a, key), key), Keys(SortByKey(b, key), key));
  }

  /** With distinct keys they sort to the same records. */
  lemma SortOfDistinctIsUnique<T>(a: seq<T>, b: seq<T>, key: T -> Text)
    requires multiset(a) == multiset(b) && Distinct(Keys(SortByKey(a, key), key))
    ensures SortByKey(a, key) == SortByKey(b, key)
  {
    SortForgetsOrder(a, b, key);
    SortKeepsElements(a, key);
    SortKeepsElements(b, key);
    var s, t := SortByKey(a, key), SortByKey(b, key);
    forall i | 0 <= i < |s| ensures s[i] == t[i] {
      assert s[i] in multiset(t);
      var j :| 0 <= j < |t| && t[j] == s[i];
      assert Keys(t, key)[j] == Keys(s, key)[j] && Keys(s, key)[i] == Keys(t, key)[i];
    }
  }

  lemma SortKeepsDistinct<T>(items: seq<T>, key: T -> Text)
    requires Distinct(Keys(items, key))
    ensures Distinct(Keys(SortByKey(items, key), key))
  {
    SortKeepsElements(items, key);
    KeysOfSameElements(items, SortByKey(items, key), key);
    DistinctIsAboutElements(Keys(items, key), Keys(SortByKey(items, key), key));
  }

  lemma DistinctIsAboutElements(a: seq<Text>, b: seq<Text>)
    requires multiset(a) == multiset(b) && Distinct(a)
    ensures Distinct(b)
  {
    forall i, j | 0 <= i < j < |b| ensures b[i] != b[j] {
      if b[i] == b[j] {
        MultiplicityOfTwo(b, i, j);
        OnlyOnce(a, b[i]);
      }
    }
  }

  lemma MultiplicityOfTwo(b: seq<Text>, i: nat, j: nat)
    requires i < j < |b| && b[i] == b[j]
    ensures multiset(b)[b[i]] >= 2
  {
    assert b == b[..i] + [b[i]] + b[i + 1..j] + [b[j]] + b[j + 1..];
  }

  lemma {:induction false} OnlyOnce(a: seq<Text>, x: Text)
    requires Distinct(a)
    ensures multiset(a)[x] <= 1
  {
    if a != [] {
      assert a == [a[0]] + a[1..];
      OnlyOnce(a[1..], x);
      if a[0] == x { assert x !in a[1..]; }
    }
  }
}
