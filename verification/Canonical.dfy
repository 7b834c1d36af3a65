/** `crates/copytrade-core/src/decision.rs`: the byte strings that identities are
    hashed from. The model stops at those strings; the hash itself is outside. */
module Canonical {
  import opened Common
  import opened KeySort

  datatype Number = Integer(value: int) | Float(bits: nat)

  datatype Json =
    | Null
    | Bool(flag: bool)
    | Num(number: Number)
    | Str(text: Text)
    | Arr(items: seq<Json>)
    | Obj(entries: seq<Entry>)

  datatype Entry = Entry(key: Text, value: Json)

  datatype IdentityError =
    | ArithmeticOverflow
    | InvalidInput
    | DuplicateCandidate(candidate: Text)

  type Encoding = Result<seq<byte>, IdentityError>

  const U32: nat := 0x1_0000_0000
  const U64: nat := 0x1_0000_0000_0000_0000
  const I64_MAX: nat := 0x7fff_ffff_ffff_ffff

  function EntryKey(): Entry -> Text {
    (e: Entry) => e.key
  }

  /** A value `serde_json` can hold: numbers in range, distinct keys. */
  ghost predicate WellFormed(v: Json) {
    match v
    case Num(Integer(n)) => -(I64_MAX as int) - 1 <= n < U64
    case Num(Float(bits)) => bits < U64
    case Arr(items) => forall i :: 0 <= i < |items| ==> WellFormed(items[i])
    case Obj(entries) =>
      && Distinct(Keys(entries, EntryKey()))
      && forall i :: 0 <= i < |entries| ==> WellFormed(entries[i].value)
    case _ => true
  }

  // ------------------------------------------------------ fixed-width integers

  function Power256(width: nat): nat {
    if width == 0 then 1 else 256 * Power256(width - 1)
  }

  function BigEndian(n: nat, width: nat): (bytes: seq<byte>)
    ensures |bytes| == width
  {
    if width == 0 then [] else BigEndian(n / 256, width - 1) + [n % 256]
  }

  lemma {:induction false} BigEndianIsInjective(m: nat, n: nat, width: nat)
    requires m < Power256(width) && n < Power256(width)
    requires BigEndian(m, width) == BigEndian(n, width)
    ensures m == n
  {
    if width > 0 {
      var a, b := BigEndian(m, width), BigEndian(n, width);
      assert a[..width - 1] == BigEndian(m / 256, width - 1) && a[width - 1] == m % 256;
      assert b[..width - 1] == BigEndian(n / 256, width - 1) && b[width - 1] == n % 256;
      BigEndianIsInjective(m / 256, n / 256, width - 1);
    }
  }

  lemma Widths()
    ensures Power256(4) == U32 && Power256(8) == U64
  {
  }

  // ------------------------------------------------------------------ encoding

  function Length(n: nat): Encoding {
    if n < U32 then Ok(BigEndian(n, 4)) else Err(ArithmeticOverflow)
  }

  function Append(a: Encoding, b: Encoding): Encoding {
    if a.Err? then a else if b.Err? then b else Ok(a.value + b.value)
  }

  function EncodeText(text: Text): Encoding {
    Append(Length(|text|), Ok(text))
  }

  /** Rust's `f64::is_finite` on a bit pattern. */
  predicate IsFinite(bits: nat) {
    bits / 0x10_0000_0000_0000 % 2048 != 2047
  }

  function EncodeNumber(number: Number): Encoding {
    match number
    case Integer(n) =>
      if n <= I64_MAX then Ok([0] + BigEndian(n % U64, 8)) else Ok([1] + BigEndian(n, 8))
    case Float(bits) =>
      if IsFinite(bits) then Ok([2] + BigEndian(bits, 8)) else Err(InvalidInput)
  }

  function Sorted(entries: seq<Entry>): seq<Entry> {
    SortByKey(entries, EntryKey())
  }

  lemma SortedEntriesAreSmaller(v: Json)
    requires v.Obj?
    ensures var sorted := Sorted(v.entries);
            forall i :: 0 <= i < |sorted| ==> sorted[i] in v.entries && sorted[i].value < v
  {
    var sorted := Sorted(v.entries);
    SortedAreItems(v.entries, EntryKey());
    forall i | 0 <= i < |sorted| ensures sorted[i] in v.entries && sorted[i].value < v {
      assert sorted[i] in sorted;
      var j :| 0 <= j < |v.entries| && v.entries[j] == sorted[i];
    }
  }

  function Encode(v: Json): Encoding
    decreases v, 1, 0
  {
    match v
    case Null => Ok([0])
    case Bool(flag) => Ok([1, if flag then 1 else 0])
    case Num(number) => Append(Ok([2]), EncodeNumber(number))
    case Str(text) => Append(Ok([3]), EncodeText(text))
    case Arr(items) => Append(Append(Ok([4]), Length(|items|)), EncodeItems(v, items))
    case Obj(entries) =>
      SortedEntriesAreSmaller(v);
      Append(Append(Ok([5]), Length(|entries|)), EncodeEntries(v, Sorted(entries)))
  }

  function EncodeItems(ghost owner: Json, items: seq<Json>): Encoding
    requires forall i :: 0 <= i < |items| ==> items[i] < owner
    decreases owner, 0, |items|
  {
    if items == [] then Ok([]) else Append(Encode(items[0]), EncodeItems(owner, items[1..]))
  }

  function EncodeEntries(ghost owner: Json, entries: seq<Entry>): Encoding
    requires forall i :: 0 <= i < |entries| ==> entries[i].value < owner
    decreases owner, 0, |entries|
  {
    if entries == [] then Ok([])
    else Append(Append(EncodeText(entries[0].key), Encode(entries[0].value)), EncodeEntries(owner, entries[1..]))
  }

  // ------------------------------------------------------- unique decodability

  /** Equality of JSON values: the order of an object's keys does not count. */
  ghost predicate SameValue(v: Json, w: Json)
    decreases v
  {
    match (v, w)
    case (Arr(a), Arr(b)) =>
      |a| == |b| && forall i :: 0 <= i < |a| ==> SameValue(a[i], b[i])
    case (Obj(a), Obj(b)) =>
      |a| == |b| && forall i :: 0 <= i < |a| ==>
          exists j :: 0 <= j < |b| && a[i].key == b[j].key && SameValue(a[i].value, b[j].value)
    case _ => v == w
  }

  /** Entry by entry the same, in the same order. */
  ghost predicate SameEntries(a: seq<Entry>, b: seq<Entry>) {
    |a| == |b| && forall i :: 0 <= i < |a| ==> a[i].key == b[i].key && SameValue(a[i].value, b[i].value)
  }

  lemma SplitEqual(a: seq<byte>, x: seq<byte>, b: seq<byte>, y: seq<byte>)
    requires |a| == |b| && a + x == b + y
    ensures a == b && x == y
  {
    assert a == (a + x)[..|a|] && x == (a + x)[|a|..];
    assert b == (b + y)[..|b|] && y == (b + y)[|b|..];
  }

  lemma NumberEncodingsAreDistinct(m: Number, n: Number)
    requires WellFormed(Num(m)) && WellFormed(Num(n))
    requires EncodeNumber(m).Ok? && EncodeNumber(m) == EncodeNumber(n)
    ensures m == n
  {
    Widths();
    hide BigEndian, Power256, IsFinite;
    var a, b := EncodeNumber(m).value, EncodeNumber(n).value;
    assert a[0] == b[0] && a[1..] == b[1..];
    match (m, n) {
      case (Integer(i), Integer(j)) =>
        BigEndianIsInjective(if i <= I64_MAX then i % U64 else i, if j <= I64_MAX then j % U64 else j, 8);
      case (Float(i), Float(j)) => BigEndianIsInjective(i, j, 8);
      case _ =>
    }
  }

  lemma NumbersSplit(m: Number, n: Number, s: seq<byte>, t: seq<byte>)
    requires WellFormed(Num(m)) && WellFormed(Num(n))
    requires EncodeNumber(m).Ok? && EncodeNumber(n).Ok?
    requires EncodeNumber(m).value + s == EncodeNumber(n).value + t
    ensures m == n && s == t
  {
    assert |EncodeNumber(m).value| == 9 && |EncodeNumber(n).value| == 9;
    hide EncodeNumber;
    SplitEqual(EncodeNumber(m).value, s, EncodeNumber(n).value, t);
    NumberEncodingsAreDistinct(m, n);
  }

  lemma TextsSplit(a: Text, b: Text, s: seq<byte>, t: seq<byte>)
    requires EncodeText(a).Ok? && EncodeText(b).Ok?
    requires EncodeText(a).value + s == EncodeText(b).value + t
    ensures a == b && s == t
  {
    LengthsSplit(|a|, |b|, a + s, b + t) by {
      assert EncodeText(a).value + s == Length(|a|).value + (a + s);
      assert EncodeText(b).value + t == Length(|b|).value + (b + t);
    }
    SplitEqual(a, s, b, t);
  }

  lemma LengthsSplit(m: nat, n: nat, s: seq<byte>, t: seq<byte>)
    requires Length(m).Ok? && Length(n).Ok?
    requires Length(m).value + s == Length(n).value + t
    ensures m == n && s == t
  {
    SplitEqual(Length(m).value, s, Length(n).value, t);
    Widths();
    BigEndianIsInjective(m, n, 4);
  }

  /** Everything after the tag byte. */
  function Body(v: Json): Encoding {
    match v
    case Null => Ok([])
    case Bool(flag) => Ok([if flag then 1 else 0])
    case Num(number) => EncodeNumber(number)
    case Str(text) => EncodeText(text)
    case Arr(items) => Append(Length(|items|), EncodeItems(v, items))
    case Obj(entries) =>
      SortedEntriesAreSmaller(v);
      Append(Length(|entries|), EncodeEntries(v, Sorted(entries)))
  }

  function Tag(v: Json): byte {
    match v
    case Null => 0
    case Bool(_) => 1
    case Num(_) => 2
    case Str(_) => 3
    case Arr(_) => 4
    case Obj(_) => 5
  }

  lemma TagThenBody(v: Json)
    ensures Encode(v) == Append(Ok([Tag(v)]), Body(v))
  {
    match v
    case Arr(items) =>
      if Body(v).Ok? {
        AppendIsAssociative([4], Length(|items|).value, EncodeItems(v, items).value);
      }
    case Obj(entries) =>
      SortedEntriesAreSmaller(v);
      if Body(v).Ok? {
        AppendIsAssociative([5], Length(|entries|).value, EncodeEntries(v, Sorted(entries)).value);
      }
    case Null => assert [0] + [] == [0];
    case Bool(flag) => assert Encode(v).value == [1] + Body(v).value;
    case _ =>
  }

  lemma AppendIsAssociative(a: seq<byte>, b: seq<byte>, c: seq<byte>)
    ensures (a + b) + c == a + (b + c)
  {
  }

  lemma AppendNothing(a: Encoding)
    ensures Append(Ok([]), a) == a
  {
    if a.Ok? { assert [] + a.value == a.value; }
  }

  lemma AppendRegroups(done: seq<byte>, next: Encoding, rest: Encoding)
    ensures Append(Ok(done), Append(next, rest)) ==
            if next.Err? then next else Append(Ok(done + next.value), rest)
  {
    if next.Ok? && rest.Ok? { AppendIsAssociative(done, next.value, rest.value); }
  }

  lemma {:induction false} EncodingsSplit(v: Json, w: Json, s: seq<byte>, t: seq<byte>)
    requires WellFormed(v) && WellFormed(w) && Encode(v).Ok? && Encode(w).Ok?
    requires Encode(v).value + s == Encode(w).value + t
    ensures SameValue(v, w) && s == t
    decreases v, 2, 0
  {
    TagThenBody(v);
    TagThenBody(w);
    hide Encode;
    var x, y := Body(v).value, Body(w).value;
    AppendIsAssociative([Tag(v)], x, s);
    AppendIsAssociative([Tag(w)], y, t);
    SplitEqual([Tag(v)], x + s, [Tag(w)], y + t);
    assert [Tag(v)][0] == [Tag(w)][0];
    BodiesSplit(v, w, s, t);
  }

  lemma {:induction false} BodiesSplit(v: Json, w: Json, s: seq<byte>, t: seq<byte>)
    requires WellFormed(v) && WellFormed(w) && Body(v).Ok? && Body(w).Ok?
    requires Tag(v) == Tag(w) && Body(v).value + s == Body(w).value + t
    ensures SameValue(v, w) && s == t
    decreases v, 1, 0
  {
    hide Encode, EncodeItems, EncodeEntries, EncodeNumber, EncodeText, Sorted;
    match (v, w) {
      case (Null, Null) =>
        SplitEqual([], s, [], t);
      case (Bool(a), Bool(b)) =>
        SplitEqual(Body(v).value, s, Body(w).value, t);
        assert Body(v).value[0] == Body(w).value[0];
      case (Num(m), Num(n)) =>
        NumbersSplit(m, n, s, t);
      case (Str(a), Str(b)) =>
        TextsSplit(a, b, s, t);
      case (Arr(a), Arr(b)) => ArraysSplit(v, w, s, t);
      case (Obj(a), Obj(b)) => ObjectsSplit(v, w, s, t);
    }
  }

  lemma {:induction false} ArraysSplit(v: Json, w: Json, s: seq<byte>, t: seq<byte>)
    requires v.Arr? && w.Arr? && WellFormed(v) && WellFormed(w)
    requires Body(v).Ok? && Body(w).Ok? && Body(v).value + s == Body(w).value + t
    ensures SameValue(v, w) && s == t
    decreases v, 0, |v.items| + 1
  {
    hide Encode, Length;
    var x, y := EncodeItems(v, v.items).value, EncodeItems(w, w.items).value;
    AppendIsAssociative(Length(|v.items|).value, x, s);
    AppendIsAssociative(Length(|w.items|).value, y, t);
    LengthsSplit(|v.items|, |w.items|, x + s, y + t);
    ItemsSplit(v, v.items, w, w.items, s, t);
  }

  lemma ObjectShape(v: Json)
    requires v.Obj? && WellFormed(v)
    ensures var sorted := Sorted(v.entries);
            |sorted| == |v.entries| && forall i :: 0 <= i < |sorted| ==>
                sorted[i].value < v && WellFormed(sorted[i].value)
  {
    SortedEntriesAreSmaller(v);
    SortKeepsElements(v.entries, EntryKey());
    hide Sorted;
    assert forall e :: e in v.entries ==> WellFormed(e.value);
  }

  lemma ObjectBody(v: Json, s: seq<byte>)
    requires v.Obj? && WellFormed(v) && Body(v).Ok?
    ensures (ObjectShape(v);
             && Length(|v.entries|).Ok? && EncodeEntries(v, Sorted(v.entries)).Ok?
             && Body(v).value + s == Length(|v.entries|).value + (EncodeEntries(v, Sorted(v.entries)).value + s))
  {
    ObjectShape(v);
    hide Length, EncodeEntries, Sorted;
    AppendIsAssociative(Length(|v.entries|).value, EncodeEntries(v, Sorted(v.entries)).value, s);
  }

  lemma {:induction false} ObjectsSplit(v: Json, w: Json, s: seq<byte>, t: seq<byte>)
    requires v.Obj? && w.Obj? && WellFormed(v) && WellFormed(w)
    requires Body(v).Ok? && Body(w).Ok? && Body(v).value + s == Body(w).value + t
    ensures SameValue(v, w) && s == t
    decreases v, 0, |v.entries| + 1
  {
    hide Body, EncodeEntries, Length, SameEntries, SameValue, Sorted, WellFormed;
    var a, b := v.entries, w.entries;
    ObjectShape(v);
    ObjectShape(w);
    ObjectBody(v, s);
    ObjectBody(w, t);
    LengthsSplit(|a|, |b|, EncodeEntries(v, Sorted(a)).value + s, EncodeEntries(w, Sorted(b)).value + t);
    EntriesSplit(v, Sorted(a), w, Sorted(b), s, t);
    SortedEntriesDecide(a, b);
  }

  lemma {:induction false} ItemsSplit(v: Json, a: seq<Json>, w: Json, b: seq<Json>, s: seq<byte>, t: seq<byte>)
    requires forall i :: 0 <= i < |a| ==> a[i] < v && WellFormed(a[i])
    requires forall i :: 0 <= i < |b| ==> b[i] < w && WellFormed(b[i])
    requires |a| == |b| && EncodeItems(v, a).Ok? && EncodeItems(w, b).Ok?
    requires EncodeItems(v, a).value + s == EncodeItems(w, b).value + t
    ensures s == t && forall i :: 0 <= i < |a| ==> SameValue(a[i], b[i])
    decreases v, 0, |a|
  {
    if a == [] {
      SplitEqual([], s, [], t);
    } else {
      var x, y := EncodeItems(v, a[1..]).value, EncodeItems(w, b[1..]).value;
      AppendIsAssociative(Encode(a[0]).value, x, s);
      AppendIsAssociative(Encode(b[0]).value, y, t);
      EncodingsSplit(a[0], b[0], x + s, y + t);
      ItemsSplit(v, a[1..], w, b[1..], s, t);
    }
  }

  lemma {:induction false} EntriesSplit(v: Json, a: seq<Entry>, w: Json, b: seq<Entry>, s: seq<byte>, t: seq<byte>)
    requires forall i :: 0 <= i < |a| ==> a[i].value < v && WellFormed(a[i].value)
    requires forall i :: 0 <= i < |b| ==> b[i].value < w && WellFormed(b[i].value)
    requires |a| == |b| && EncodeEntries(v, a).Ok? && EncodeEntries(w, b).Ok?
    requires EncodeEntries(v, a).value + s == EncodeEntries(w, b).value + t
    ensures s == t && SameEntries(a, b)
    decreases v, 0, |a|
  {
    if a == [] {
      SplitEqual([], s, [], t);
    } else {
      var p, q := Encode(a[0].value).value, Encode(b[0].value).value;
      var x, y := EncodeEntries(v, a[1..]).value, EncodeEntries(w, b[1..]).value;
      ThreeParts(EncodeText(a[0].key).value, p, x, s);
      ThreeParts(EncodeText(b[0].key).value, q, y, t);
      TextsSplit(a[0].key, b[0].key, p + (x + s), q + (y + t));
      EncodingsSplit(a[0].value, b[0].value, x + s, y + t);
      EntriesSplit(v, a[1..], w, b[1..], s, t);
    }
  }

  lemma ThreeParts(a: seq<byte>, b: seq<byte>, c: seq<byte>, d: seq<byte>)
    ensures ((a + b) + c) + d == a + (b + (c + d))
  {
  }

  /** Objects whose sorted entries agree are the same value. */
  lemma SortedEntriesDecide(a: seq<Entry>, b: seq<Entry>)
    requires SameEntries(Sorted(a), Sorted(b))
    ensures SameValue(Obj(a), Obj(b))
  {
    SortKeepsElements(a, EntryKey());
    SortKeepsElements(b, EntryKey());
    SortedAreItems(a, EntryKey());
    SortedAreItems(b, EntryKey());
    hide SortByKey;
    assert |a| == |b|;
    forall i | 0 <= i < |a|
      ensures exists j :: 0 <= j < |b| && a[i].key == b[j].key && SameValue(a[i].value, b[j].value)
    {
      MatchingEntry(a[i], Sorted(a), Sorted(b), b);
    }
    assert forall i :: 0 <= i < |a| ==>
        exists j :: 0 <= j < |b| && a[i].key == b[j].key && SameValue(a[i].value, b[j].value);
    assert SameValue(Obj(a), Obj(b));
  }

  lemma MatchingEntry(e: Entry, p: seq<Entry>, q: seq<Entry>, b: seq<Entry>)
    requires e in p && SameEntries(p, q) && forall x :: x in q ==> x in b
    ensures exists j :: 0 <= j < |b| && e.key == b[j].key && SameValue(e.value, b[j].value)
  {
    hide SameValue;
    var k :| 0 <= k < |p| && p[k] == e;
    assert q[k] in b;
  }

  // ------------------------------------------------- key order does not matter

  lemma DistinctSubsetIsAll(a: seq<Text>, b: seq<Text>)
    requires Distinct(a) && |a| == |b| && forall x :: x in a ==> x in b
    ensures multiset(a) == multiset(b)
  {
    forall x | x in multiset(a) ensures multiset(a)[x] <= multiset(b)[x] {
      OnlyOnce(a, x);
      assert x in b;
    }
    assert multiset(a) <= multiset(b);
    assert |multiset(b) - multiset(a)| == |b| - |a|;
    assert multiset(b) == multiset(a) + (multiset(b) - multiset(a));
  }

  lemma SameObjectsHaveSameKeys(a: seq<Entry>, b: seq<Entry>)
    requires WellFormed(Obj(a)) && SameValue(Obj(a), Obj(b))
    ensures multiset(Keys(a, EntryKey())) == multiset(Keys(b, EntryKey()))
  {
    var key := EntryKey();
    forall x | x in Keys(a, key) ensures x in Keys(b, key) {
      var i :| 0 <= i < |a| && Keys(a, key)[i] == x;
      var j :| 0 <= j < |b| && a[i].key == b[j].key;
      assert Keys(b, key)[j] == x;
    }
    DistinctSubsetIsAll(Keys(a, key), Keys(b, key));
  }

  /** In records with distinct keys, the key finds the record. */
  lemma KeyFindsEntry(q: seq<Entry>, k: nat, e: Entry)
    requires k < |q| && e in q && e.key == q[k].key && Distinct(Keys(q, EntryKey()))
    ensures e == q[k]
  {
  }

  lemma PartnerIn(e: Entry, a: seq<Entry>, b: seq<Entry>) returns (partner: Entry)
    requires e in a && SameValue(Obj(a), Obj(b))
    ensures partner in b && e.key == partner.key && SameValue(e.value, partner.value)
  {
    var i :| 0 <= i < |a| && a[i] == e;
    var j :| 0 <= j < |b| && a[i].key == b[j].key && SameValue(a[i].value, b[j].value);
    partner := b[j];
  }

  lemma SortedEntriesAgree(a: seq<Entry>, b: seq<Entry>)
    requires WellFormed(Obj(a)) && WellFormed(Obj(b)) && SameValue(Obj(a), Obj(b))
    ensures SameEntries(Sorted(a), Sorted(b))
  {
    var key := EntryKey();
    SameObjectsHaveSameKeys(a, b);
    SortedKeys(a, b);
    SortKeepsDistinct(b, key);
    SortedAreItems(a, key);
    SortedAreItems(b, key);
    hide SameValue, WellFormed, SortByKey, Distinct;
    var p, q := Sorted(a), Sorted(b);
    forall k | 0 <= k < |p| ensures p[k].key == q[k].key && SameValue(p[k].value, q[k].value) {
      assert Keys(p, key)[k] == Keys(q, key)[k];
      var partner := PartnerIn(p[k], a, b);
      KeyFindsEntry(q, k, partner);
    }
  }

  lemma SortedKeys(a: seq<Entry>, b: seq<Entry>)
    requires multiset(Keys(a, EntryKey())) == multiset(Keys(b, EntryKey()))
    ensures Keys(Sorted(a), EntryKey()) == Keys(Sorted(b), EntryKey())
    ensures |Sorted(a)| == |a| && |Sorted(b)| == |b|
  {
    var key := EntryKey();
    SortKeepsElements(a, key);
    SortKeepsElements(b, key);
    SortSorts(a, key);
    SortSorts(b, key);
    KeysOfSameElements(a, Sorted(a), key);
    KeysOfSameElements(b, Sorted(b), key);
    AscendingIsUnique(Keys(Sorted(a), key), Keys(Sorted(b), key));
  }

  lemma {:induction false} SameValuesEncodeAlike(v: Json, w: Json)
    requires WellFormed(v) && WellFormed(w) && SameValue(v, w)
    ensures Encode(v) == Encode(w)
    decreases v, 1, 0
  {
    match (v, w) {
      case (Arr(a), Arr(b)) => ItemsEncodeAlike(v, a, w, b);
      case (Obj(a), Obj(b)) =>
        SortedEntriesAreSmaller(v);
        SortedEntriesAreSmaller(w);
        SortedEntriesAgree(a, b);
        EntriesEncodeAlike(v, Sorted(a), w, Sorted(b));
      case _ =>
    }
  }

  lemma {:induction false} ItemsEncodeAlike(v: Json, a: seq<Json>, w: Json, b: seq<Json>)
    requires forall i :: 0 <= i < |a| ==> a[i] < v && WellFormed(a[i])
    requires forall i :: 0 <= i < |b| ==> b[i] < w && WellFormed(b[i])
    requires |a| == |b| && forall i :: 0 <= i < |a| ==> SameValue(a[i], b[i])
    ensures EncodeItems(v, a) == EncodeItems(w, b)
    decreases v, 0, |a|
  {
    if a != [] {
      SameValuesEncodeAlike(a[0], b[0]);
      ItemsEncodeAlike(v, a[1..], w, b[1..]);
    }
  }

  lemma {:induction false} EntriesEncodeAlike(v: Json, a: seq<Entry>, w: Json, b: seq<Entry>)
    requires forall i :: 0 <= i < |a| ==> a[i].value < v && WellFormed(a[i].value)
    requires forall i :: 0 <= i < |b| ==> b[i].value < w && WellFormed(b[i].value)
    requires SameEntries(a, b)
    ensures EncodeEntries(v, a) == EncodeEntries(w, b)
    decreases v, 0, |a|
  {
    if a != [] {
      SameValuesEncodeAlike(a[0].value, b[0].value);
      EntriesEncodeAlike(v, a[1..], w, b[1..]);
    }
  }

  /** Two encodings, each followed by anything, are equal exactly when they
      encode the same value and are followed by the same thing. */
  lemma EncodingIsUniquelyDecodable(v: Json, w: Json, s: seq<byte>, t: seq<byte>)
    requires WellFormed(v) && WellFormed(w) && Encode(v).Ok? && Encode(w).Ok?
    ensures Encode(v).value + s == Encode(w).value + t <==> SameValue(v, w) && s == t
  {
    if Encode(v).value + s == Encode(w).value + t {
      EncodingsSplit(v, w, s, t);
    }
    if SameValue(v, w) {
      SameValuesEncodeAlike(v, w);
    }
  }

  // ------------------------------------------------------------------- writer

  class Writer {
    var bytes: seq<byte>

    constructor (domain: seq<byte>)
      ensures bytes == domain
    {
      bytes := domain;
    }

    method Bytes(value: seq<byte>)
      modifies this
      ensures bytes == old(bytes) + value
    {
      bytes := bytes + value;
    }

    method WriteLength(n: nat) returns (r: Result<(), IdentityError>)
      modifies this
      ensures Wrote(r, old(bytes), bytes, Length(n))
    {
      if n >= U32 {
        return Err(ArithmeticOverflow);
      }
      bytes := bytes + BigEndian(n, 4);
      r := Ok(());
    }

    method WriteText(text: Text) returns (r: Result<(), IdentityError>)
      modifies this
      ensures Wrote(r, old(bytes), bytes, EncodeText(text))
    {
      r := WriteLength(|text|);
      if r.Ok? {
        bytes := bytes + text;
      }
    }

    /** The recursive writer. A failure may leave part of a value behind. */
    method WriteValue(v: Json) returns (r: Result<(), IdentityError>)
      modifies this
      ensures Wrote(r, old(bytes), bytes, Encode(v))
      decreases v, 1
    {
      hide Encode, EncodeItems, EncodeEntries, EncodeText, EncodeNumber, Length, Sorted;
      TagThenBody(v);
      Bytes([Tag(v)]);
      match v {
        case Null => r := Ok(());
        case Bool(flag) =>
          Bytes([if flag then 1 else 0]);
          r := Ok(());
        case Num(number) =>
          var encoded := EncodeNumber(number);
          if encoded.Err? {
            return Err(encoded.error);
          }
          Bytes(encoded.value);
          r := Ok(());
        case Str(text) => r := WriteText(text);
        case Arr(items) =>
          r := WriteLength(|items|);
          if r.Ok? {
            r := WriteItems(v, items);
          }
        case Obj(entries) =>
          r := WriteLength(|entries|);
          if r.Ok? {
            SortedEntriesAreSmaller(v);
            r := WriteEntries(v, Sorted(entries));
          }
      }
    }

    method WriteItems(ghost owner: Json, items: seq<Json>) returns (r: Result<(), IdentityError>)
      requires forall i :: 0 <= i < |items| ==> items[i] < owner
      modifies this
      ensures Wrote(r, old(bytes), bytes, EncodeItems(owner, items))
      decreases owner, 0
    {
      hide Encode;
      r := Ok(());
      ghost var start, done := bytes, [];
      assert items[0..] == items;
      AppendNothing(EncodeItems(owner, items));
      var i := 0;
      while i < |items|
        invariant 0 <= i <= |items| && r.Ok? && bytes == start + done
        invariant EncodeItems(owner, items) == Append(Ok(done), EncodeItems(owner, items[i..]))
      {
        assert items[i..][1..] == items[i + 1..];
        AppendRegroups(done, Encode(items[i]), EncodeItems(owner, items[i + 1..]));
        r := WriteValue(items[i]);
        if r.Err? {
          return;
        }
        done := done + Encode(items[i]).value;
        i := i + 1;
      }
    }

    method WriteEntries(ghost owner: Json, sorted: seq<Entry>) returns (r: Result<(), IdentityError>)
      requires forall i :: 0 <= i < |sorted| ==> sorted[i].value < owner
      modifies this
      ensures Wrote(r, old(bytes), bytes, EncodeEntries(owner, sorted))
      decreases owner, 0
    {
      hide Encode, EncodeText;
      r := Ok(());
      ghost var start, done := bytes, [];
      assert sorted[0..] == sorted;
      AppendNothing(EncodeEntries(owner, sorted));
      var i := 0;
      while i < |sorted|
        invariant 0 <= i <= |sorted| && r.Ok? && bytes == start + done
        invariant EncodeEntries(owner, sorted) == Append(Ok(done), EncodeEntries(owner, sorted[i..]))
      {
        assert sorted[i..][1..] == sorted[i + 1..];
        AppendRegroups(done, Append(EncodeText(sorted[i].key), Encode(sorted[i].value)),
            EncodeEntries(owner, sorted[i + 1..]));
        r := WriteText(sorted[i].key);
        if r.Err? {
          return;
        }
        r := WriteValue(sorted[i].value);
        if r.Err? {
          return;
        }
        done := done + (EncodeText(sorted[i].key).value + Encode(sorted[i].value).value);
        i := i + 1;
      }
    }
  }

  /** On success exactly the encoding was appended; otherwise the same error. */
  ghost predicate Wrote(r: Result<(), IdentityError>, before: seq<byte>, after: seq<byte>, encoding: Encoding) {
    match encoding
    case Ok(bytes) => r.Ok? && after == before + bytes
    case Err(error) => r == Err(error)
  }
}
