/** Vocabulary shared by every module: results, exact decimals, text keys, and
    sums over maps. */
module Common {

  datatype Option<+T> = None | Some(value: T)

  datatype Result<+T, +E> = Ok(value: T) | Err(error: E)

  // ---------------------------------------------------------------- decimals

  function Abs(x: real): real {
    if x < 0.0 then -x else x
  }

  function Max(x: real, y: real): real {
    if x < y then y else x
  }

  function Min(x: real, y: real): real {
    if x < y then x else y
  }

  function Smaller(x: nat, y: nat): nat {
    if x < y then x else y
  }

  // Facts about products, stated over names for the products: the solver is at
  // its best when no product has to be found.

  lemma ProductOrder(low: real, high: real, factor: real, lowProduct: real, highProduct: real)
    requires factor > 0.0 && low < high
    requires lowProduct == low * factor && highProduct == high * factor
    ensures lowProduct < highProduct
  {
  }

  lemma DivideThenMultiply(x: real, y: real)
    requires y != 0.0
    ensures x / y * y == x
  {
  }

  lemma DistributeSum(x: real, y: real, factor: real)
    ensures (x + y) * factor == x * factor + y * factor
  {
  }

  lemma DistributeDifference(x: real, y: real, factor: real)
    ensures (x - y) * factor == x * factor - y * factor
  {
  }

  // ------------------------------------------------------------------- grids

  function Ceiling(x: real): int {
    -((-x).Floor)
  }

  ghost predicate OnGrid(price: real, tick: real) {
    exists units: int :: GridPoint(units, tick) == price
  }

  function GridPoint(units: int, tick: real): real {
    units as real * tick
  }

  lemma GridBounds(units: real, value: real, tick: real)
    requires tick > 0.0 && units * tick == value
    ensures value <= GridPoint(Ceiling(units), tick) < value + tick
    ensures value - tick < GridPoint(units.Floor, tick) <= value
  {
    WithinOneStep(units, Ceiling(units) as real, tick, value, GridPoint(Ceiling(units), tick));
    WithinOneStep(units.Floor as real, units, tick, GridPoint(units.Floor, tick), value);
  }

  lemma WithinOneStep(low: real, high: real, tick: real, lowProduct: real, highProduct: real)
    requires tick > 0.0 && low <= high < low + 1.0
    requires lowProduct == low * tick && highProduct == high * tick
    ensures lowProduct <= highProduct < lowProduct + tick
  {
    if low < high { ProductOrder(low, high, tick, lowProduct, highProduct); }
    ProductOrder(high, low + 1.0, tick, highProduct, lowProduct + tick);
  }

  lemma GridOrder(low: int, high: int, tick: real)
    requires tick > 0.0 && low < high
    ensures GridPoint(low, tick) < GridPoint(high, tick)
  {
  }

  // -------------------------------------------------------------------- text

  type byte = x: int | 0 <= x < 256

  /** A Rust `String`, as its UTF-8 bytes. */
  type Text = seq<byte>

  /** Rust's ordering of strings: bytewise lexicographic. */
  predicate TextLess(a: Text, b: Text) {
    if |b| == 0 then false
    else if |a| == 0 then true
    else a[0] < b[0] || (a[0] == b[0] && TextLess(a[1..], b[1..]))
  }

  predicate TextAtMost(a: Text, b: Text) {
    a == b || TextLess(a, b)
  }

  lemma {:induction false} TextLessIsStrict(a: Text, b: Text)
    ensures !(TextLess(a, b) && TextLess(b, a))
    ensures TextLess(a, b) ==> a != b
    decreases |a|
  {
    if |a| > 0 && |b| > 0 {
      TextLessIsStrict(a[1..], b[1..]);
    }
  }

  lemma {:induction false} TextLessIsTotal(a: Text, b: Text)
    ensures a == b || TextLess(a, b) || TextLess(b, a)
    decreases |a|
  {
    if |a| > 0 && |b| > 0 {
      TextLessIsTotal(a[1..], b[1..]);
      if a[0] == b[0] && a[1..] == b[1..] {
        assert a == [a[0]] + a[1..];
        assert b == [b[0]] + b[1..];
      }
    }
  }

  lemma {:induction false} TextLessIsTransitive(a: Text, b: Text, c: Text)
    requires TextLess(a, b) && TextLess(b, c)
    ensures TextLess(a, c)
    decreases |a|
  {
    if |a| > 0 && a[0] == b[0] && b[0] == c[0] {
      TextLessIsTransitive(a[1..], b[1..], c[1..]);
    }
  }

  /** The first key in iteration order of a `BTreeSet`, or of the keys of a
      `BTreeMap`. */
  predicate IsLeast(least: Text, keys: set<Text>) {
    least in keys && forall k :: k in keys ==> TextAtMost(least, k)
  }

  lemma {:induction false} LeastExists(keys: set<Text>)
    requires keys != {}
    ensures exists least :: IsLeast(least, keys)
    decreases |keys|
  {
    var k :| k in keys;
    var rest := keys - {k};
    if rest == {} {
      assert keys == {k};
      assert IsLeast(k, keys);
    } else {
      LeastExists(rest);
      var l :| IsLeast(l, rest);
      TextLessIsTotal(k, l);
      if TextLess(k, l) {
        forall j | j in keys ensures TextAtMost(k, j) {
          if j != k {
            assert j in rest;
            if j != l { TextLessIsTransitive(k, l, j); }
          }
        }
        assert IsLeast(k, keys);
      } else {
        assert IsLeast(l, keys);
      }
    }
  }

  lemma LeastIsUnique(a: Text, b: Text, keys: set<Text>)
    requires IsLeast(a, keys) && IsLeast(b, keys)
    ensures a == b
  {
    TextLessIsStrict(a, b);
  }

  /** One step of an ordered iteration. */
  function Least(keys: set<Text>): (least: Text)
    requires keys != {}
    ensures IsLeast(least, keys)
  {
    LeastExists(keys);
    assert forall a, b :: IsLeast(a, keys) && IsLeast(b, keys) ==> a == b by {
      forall a, b | IsLeast(a, keys) && IsLeast(b, keys) ensures a == b { LeastIsUnique(a, b, keys); }
    }
    var least :| least in keys && IsLeast(least, keys);
    least
  }

  // ------------------------------------------------------------- map totals

  /** The sum of a map's values. Addition of exact decimals does not depend on
      the iteration order, so neither does this. */
  ghost function Total<K>(m: map<K, real>): real
    decreases |m|
  {
    if m == map[] then 0.0 else
    var k :| k in m;
    m[k] + Total(m - {k})
  }

  lemma {:induction false} TotalSplit<K>(m: map<K, real>, k: K)
    requires k in m
    ensures Total(m) == m[k] + Total(m - {k})
    decreases |m|
  {
    var j :| j in m && Total(m) == m[j] + Total(m - {j});
    if j != k {
      TotalSplit(m - {j}, k);
      TotalSplit(m - {k}, j);
      assert (m - {j}) - {k} == (m - {k}) - {j};
    }
  }

  lemma TotalInsert<K>(m: map<K, real>, k: K, v: real)
    ensures Total(m[k := v]) == Total(m) + v - (if k in m then m[k] else 0.0)
  {
    TotalSplit(m[k := v], k);
    if k in m {
      TotalSplit(m, k);
      assert m[k := v] - {k} == m - {k};
    } else {
      assert m[k := v] - {k} == m;
    }
  }

  lemma TotalOfOne<K>(k: K, v: real)
    ensures Total(map[k := v]) == v
  {
    TotalInsert(map[], k, v);
    assert map[k := v] == map[][k := v];
  }

  /** Pointwise order carries over to totals over the same keys. */
  lemma {:induction false} TotalMonotone<K>(m: map<K, real>, n: map<K, real>)
    requires m.Keys == n.Keys
    requires forall k :: k in m ==> m[k] <= n[k]
    ensures Total(m) <= Total(n)
    decreases |m|
  {
    if m == map[] {
      assert n == map[];
    } else {
      var k :| k in m;
      TotalSplit(m, k);
      TotalSplit(n, k);
      TotalMonotone(m - {k}, n - {k});
    }
  }

  predicate Scaled(x: real, y: real, factor: real) {
    y == x * factor
  }

  lemma ScaledSum(a: real, b: real, c: real, d: real, factor: real)
    requires Scaled(a, b, factor) && Scaled(c, d, factor)
    ensures Scaled(a + c, b + d, factor)
  {
  }

  /** A common factor can be taken out of a total. */
  lemma {:induction false} TotalScaled<K>(m: map<K, real>, n: map<K, real>, factor: real)
    requires m.Keys == n.Keys
    requires forall k :: k in m ==> Scaled(m[k], n[k], factor)
    ensures Scaled(Total(m), Total(n), factor)
    decreases |m|
  {
    if m == map[] {
      assert n == map[];
    } else {
      var k :| k in m;
      TotalSplit(m, k);
      TotalSplit(n, k);
      TotalScaled(m - {k}, n - {k}, factor);
      ScaledSum(m[k], n[k], Total(m - {k}), Total(n - {k}), factor);
    }
  }

  lemma {:induction false} TotalAdd<K>(m: map<K, real>, p: map<K, real>, q: map<K, real>)
    requires m.Keys == p.Keys == q.Keys
    requires forall k :: k in m ==> m[k] == p[k] + q[k]
    ensures Total(m) == Total(p) + Total(q)
    decreases |m|
  {
    if m == map[] {
      assert p == map[] && q == map[];
    } else {
      var k :| k in m;
      TotalSplit(m, k);
      TotalSplit(p, k);
      TotalSplit(q, k);
      TotalAdd(m - {k}, p - {k}, q - {k});
    }
  }
}
