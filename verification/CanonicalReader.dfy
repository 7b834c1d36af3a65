/** A reader of canonical byte strings, written from their format alone, and the
    round trip through it: whatever is encoded is read back, with its keys in
    order, whatever follows it. */
module CanonicalReader {
  import opened Common
  import opened KeySort
  import opened Canonical

  // ------------------------------------------------------------- the format

  /** The number that bytes are the digits of, the first one weighing most. */
  function ValueOf(bytes: seq<byte>): nat {
    if bytes == [] then 0 else ValueOf(bytes[..|bytes| - 1]) * 256 + bytes[|bytes| - 1]
  }

  /** Nine bytes: how the other eight are meant, and those. */
  function ReadNumber(b: seq<byte>): (r: Option<(Number, seq<byte>)>)
    ensures r.Some? ==> |r.value.1| < |b|
  {
    if |b| < 9 then None
    else
      var n := ValueOf(b[1..9]);
      match b[0]
      case 0 => Some((Integer(if n < 0x8000_0000_0000_0000 then n else n - 0x1_0000_0000_0000_0000), b[9..]))
      case 1 => Some((Integer(n), b[9..]))
      case 2 => Some((Float(n), b[9..]))
      case _ => None
  }

  /** Four bytes of length, and so many bytes. */
  function ReadText(b: seq<byte>): (r: Option<(Text, seq<byte>)>)
    ensures r.Some? ==> |r.value.1| < |b|
  {
    if |b| < 4 || |b| - 4 < ValueOf(b[..4]) then None
    else
      var n := ValueOf(b[..4]);
      Some((b[4..4 + n], b[4 + n..]))
  }

  function ReadValue(b: seq<byte>): (r: Option<(Json, seq<byte>)>)
    ensures r.Some? ==> |r.value.1| < |b|
    decreases |b|, 0, 0
  {
    if b == [] then None
    else match b[0]
      case 0 => Some((Null, b[1..]))
      case 1 => if |b| < 2 then None else Some((Bool(b[1] != 0), b[2..]))
      case 2 =>
        var n := ReadNumber(b[1..]);
        if n.None? then None else Some((Num(n.value.0), n.value.1))
      case 3 =>
        var t := ReadText(b[1..]);
        if t.None? then None else Some((Str(t.value.0), t.value.1))
      case 4 =>
        if |b| < 5 then None
        else
          var items := ReadItems(b[5..], ValueOf(b[1..5]));
          if items.None? then None else Some((Arr(items.value.0), items.value.1))
      case 5 =>
        if |b| < 5 then None
        else
          var entries := ReadEntries(b[5..], ValueOf(b[1..5]));
          if entries.None? then None else Some((Obj(entries.value.0), entries.value.1))
      case _ => None
  }

  function ReadItems(b: seq<byte>, count: nat): (r: Option<(seq<Json>, seq<byte>)>)
    ensures r.Some? ==> |r.value.1| <= |b|
    decreases |b|, 1, count
  {
    if count == 0 then Some(([], b))
    else
      var first := ReadValue(b);
      if first.None? then None
      else
        var rest := ReadItems(first.value.1, count - 1);
        if rest.None? then None else Some(([first.value.0] + rest.value.0, rest.value.1))
  }

  function ReadEntries(b: seq<byte>, count: nat): (r: Option<(seq<Entry>, seq<byte>)>)
    ensures r.Some? ==> |r.value.1| <= |b|
    decreases |b|, 1, count
  {
    if count == 0 then Some(([], b))
    else
      var key := ReadText(b);
      if key.None? then None
      else
        var value := ReadValue(key.value.1);
        if value.None? then None
        else
          var rest := ReadEntries(value.value.1, count - 1);
          if rest.None? then None
          else Some(([Entry(key.value.0, value.value.0)] + rest.value.0, rest.value.1))
  }

  // ------------------------------------------------------- values in key order

  /** The same value with the keys of every object in it in ascending order. */
  function InKeyOrder(v: Json): Json
    decreases v, 1, 0
  {
    match v
    case Arr(items) => Arr(ItemsInKeyOrder(v, items))
    case Obj(entries) =>
      SortedEntriesAreSmaller(v);
      Obj(EntriesInKeyOrder(v, Sorted(entries)))
    case _ => v
  }

  function ItemsInKeyOrder(ghost owner: Json, items: seq<Json>): (r: seq<Json>)
    requires forall i :: 0 <= i < |items| ==> items[i] < owner
    decreases owner, 0, |items|
  {
    if items == [] then [] else [InKeyOrder(items[0])] + ItemsInKeyOrder(owner, items[1..])
  }

  function EntriesInKeyOrder(ghost owner: Json, entries: seq<Entry>): (r: seq<Entry>)
    requires forall i :: 0 <= i < |entries| ==> entries[i].value < owner
    decreases owner, 0, |entries|
  {
    if entries == [] then []
    else [Entry(entries[0].key, InKeyOrder(entries[0].value))] + EntriesInKeyOrder(owner, entries[1..])
  }

  // --------------------------------------------------------- numbers and texts

  lemma {:induction false} DigitsAddUp(n: nat, width: nat)
    requires n < Power256(width)
    ensures ValueOf(BigEndian(n, width)) == n
  {
    if width > 0 {
      var bytes := BigEndian(n, width);
      assert bytes[..width - 1] == BigEndian(n / 256, width - 1) && bytes[width - 1] == n % 256;
      QuotientFits(n, width);
      hide Power256;
      DigitsAddUp(n / 256, width - 1);
    }
  }

  lemma QuotientFits(n: nat, width: nat)
    requires 0 < width && n < Power256(width)
    ensures n / 256 < Power256(width - 1) && n == n / 256 * 256 + n % 256
  {
  }

  lemma NumberReadsBack(number: Number, s: seq<byte>)
    requires WellFormed(Num(number)) && EncodeNumber(number).Ok?
    ensures ReadNumber(EncodeNumber(number).value + s) == Some((number, s))
  {
    Widths();
    hide BigEndian, ValueOf, Power256, IsFinite;
    var b := EncodeNumber(number).value + s;
    match number
    case Integer(n) =>
      var digits := if n <= I64_MAX then n % U64 else n;
      DigitsAddUp(digits, 8);
      assert b[1..9] == BigEndian(digits, 8) && b[9..] == s;
    case Float(bits) =>
      DigitsAddUp(bits, 8);
      assert b[1..9] == BigEndian(bits, 8) && b[9..] == s;
  }

  lemma LengthReadsBack(n: nat, s: seq<byte>)
    requires Length(n).Ok?
    ensures var b := Length(n).value + s; |b| >= 4 && ValueOf(b[..4]) == n && b[4..] == s
  {
    Widths();
    DigitsAddUp(n, 4);
    hide BigEndian, ValueOf;
    var b := Length(n).value + s;
    assert b[..4] == BigEndian(n, 4);
  }

  lemma TextReadsBack(text: Text, s: seq<byte>)
    requires EncodeText(text).Ok?
    ensures ReadText(EncodeText(text).value + s) == Some((text, s))
  {
    LengthReadsBack(|text|, text + s);
    hide ValueOf, Length;
    var b := EncodeText(text).value + s;
    assert b == Length(|text|).value + (text + s);
    assert b[4..4 + |text|] == text && b[4 + |text|..] == s;
  }

  // ----------------------------------------------------------------- the trip

  lemma TagFirst(tag: byte, b: seq<byte>)
    ensures ([tag] + b)[0] == tag && ([tag] + b)[1..] == b
    ensures |b| >= 4 ==> ([tag] + b)[1..5] == b[..4] && ([tag] + b)[5..] == b[4..]
  {
  }

  /** Every encoding, followed by anything, is read back as its value with the keys
      in order, and what follows is left. */
  lemma {:induction false} EncodingReadsBack(v: Json, s: seq<byte>)
    requires WellFormed(v) && Encode(v).Ok?
    ensures ReadValue(Encode(v).value + s) == Some((InKeyOrder(v), s))
    decreases v, 1, 0
  {
    TagThenBody(v);
    hide Encode, EncodeNumber, EncodeText, ReadNumber, ReadText, ReadItems, ReadEntries, ValueOf, Length, Sorted,
      EncodeItems, EncodeEntries, ItemsInKeyOrder, EntriesInKeyOrder;
    var body := Body(v).value;
    AppendIsAssociative([Tag(v)], body, s);
    TagFirst(Tag(v), body + s);
    match v
    case Null =>
    case Bool(flag) =>
    case Num(number) => NumberReadsBack(number, s);
    case Str(text) => TextReadsBack(text, s);
    case Arr(items) =>
      ArrayBody(v, s);
      LengthReadsBack(|items|, EncodeItems(v, items).value + s);
      ItemsReadBack(v, items, s);
    case Obj(entries) =>
      ObjectShape(v);
      ObjectBody(v, s);
      SortKeepsElements(entries, EntryKey());
      LengthReadsBack(|entries|, EncodeEntries(v, Sorted(entries)).value + s);
      EntriesReadBack(v, Sorted(entries), s);
  }

  lemma ArrayBody(v: Json, s: seq<byte>)
    requires v.Arr? && Body(v).Ok?
    ensures Length(|v.items|).Ok? && EncodeItems(v, v.items).Ok?
    ensures Body(v).value + s == Length(|v.items|).value + (EncodeItems(v, v.items).value + s)
  {
    hide Length, EncodeItems;
    AppendIsAssociative(Length(|v.items|).value, EncodeItems(v, v.items).value, s);
  }

  lemma {:induction false} ItemsReadBack(v: Json, items: seq<Json>, s: seq<byte>)
    requires forall i :: 0 <= i < |items| ==> items[i] < v && WellFormed(items[i])
    requires EncodeItems(v, items).Ok?
    ensures ReadItems(EncodeItems(v, items).value + s, |items|) == Some((ItemsInKeyOrder(v, items), s))
    decreases v, 0, |items|
  {
    hide Encode, ReadValue, InKeyOrder, WellFormed;
    if items == [] {
      assert [] + s == s;
    } else {
      var rest := EncodeItems(v, items[1..]).value;
      AppendIsAssociative(Encode(items[0]).value, rest, s);
      EncodingReadsBack(items[0], rest + s);
      ItemsReadBack(v, items[1..], s);
    }
  }

  lemma {:induction false} EntriesReadBack(v: Json, entries: seq<Entry>, s: seq<byte>)
    requires forall i :: 0 <= i < |entries| ==> entries[i].value < v && WellFormed(entries[i].value)
    requires EncodeEntries(v, entries).Ok?
    ensures ReadEntries(EncodeEntries(v, entries).value + s, |entries|) == Some((EntriesInKeyOrder(v, entries), s))
    decreases v, 0, |entries|
  {
    hide Encode, EncodeText, ReadValue, ReadText, InKeyOrder, WellFormed;
    if entries == [] {
      assert [] + s == s;
    } else {
      var key, value := EncodeText(entries[0].key).value, Encode(entries[0].value).value;
      var rest := EncodeEntries(v, entries[1..]).value;
      ThreeParts(key, value, rest, s);
      TextReadsBack(entries[0].key, value + (rest + s));
      EncodingReadsBack(entries[0].value, rest + s);
      EntriesReadBack(v, entries[1..], s);
    }
  }

  // -------------------------------------------------- the value that is read

  lemma {:induction false} ItemsInOrder(owner: Json, items: seq<Json>)
    requires forall i :: 0 <= i < |items| ==> items[i] < owner
    ensures |ItemsInKeyOrder(owner, items)| == |items|
    ensures forall i :: 0 <= i < |items| ==> ItemsInKeyOrder(owner, items)[i] == InKeyOrder(items[i])
    decreases |items|
  {
    hide InKeyOrder;
    if items != [] { ItemsInOrder(owner, items[1..]); }
  }

  lemma {:induction false} EntriesInOrder(owner: Json, entries: seq<Entry>)
    requires forall i :: 0 <= i < |entries| ==> entries[i].value < owner
    ensures |EntriesInKeyOrder(owner, entries)| == |entries|
    ensures forall i :: 0 <= i < |entries| ==>
              EntriesInKeyOrder(owner, entries)[i] == Entry(entries[i].key, InKeyOrder(entries[i].value))
    decreases |entries|
  {
    hide InKeyOrder;
    if entries != [] { EntriesInOrder(owner, entries[1..]); }
  }

  /** Putting keys in order does not change the value. */
  lemma {:induction false} KeyOrderIsNoMatter(v: Json)
    ensures SameValue(v, InKeyOrder(v))
    decreases v
  {
    hide Sorted;
    match v
    case Arr(items) =>
      ItemsInOrder(v, items);
      forall i | 0 <= i < |items| ensures SameValue(items[i], InKeyOrder(items[i])) { KeyOrderIsNoMatter(items[i]); }
    case Obj(entries) =>
      SortedEntriesAreSmaller(v);
      SortedKeepsEntries(entries);
      EntriesInOrder(v, Sorted(entries));
      forall i | 0 <= i < |entries| ensures SameValue(entries[i].value, InKeyOrder(entries[i].value)) {
        KeyOrderIsNoMatter(entries[i].value);
      }
      OrderedPartners(v, entries);
    case _ =>
  }

  lemma SortedKeepsEntries(entries: seq<Entry>)
    ensures |Sorted(entries)| == |entries| && forall e :: e in entries ==> e in Sorted(entries)
  {
    SortKeepsElements(entries, EntryKey());
    SortedAreItems(entries, EntryKey());
  }

  lemma OrderedPartners(v: Json, entries: seq<Entry>)
    requires v == Obj(entries) && InKeyOrder(v).Obj?
    requires forall i :: 0 <= i < |entries| ==> SameValue(entries[i].value, InKeyOrder(entries[i].value))
    requires forall e :: e in entries ==> e in Sorted(entries)
    requires var sorted, ordered := Sorted(entries), InKeyOrder(v).entries;
             && |ordered| == |sorted| == |entries|
             && forall i :: 0 <= i < |sorted| ==> ordered[i] == Entry(sorted[i].key, InKeyOrder(sorted[i].value))
    ensures SameValue(v, InKeyOrder(v))
  {
    hide InKeyOrder, Sorted;
    var sorted, ordered := Sorted(entries), InKeyOrder(v).entries;
    forall i | 0 <= i < |entries|
      ensures exists j :: 0 <= j < |ordered| && entries[i].key == ordered[j].key
                          && SameValue(entries[i].value, ordered[j].value)
    {
      assert entries[i] in sorted;
      var j :| 0 <= j < |sorted| && sorted[j] == entries[i];
      assert ordered[j] == Entry(sorted[j].key, InKeyOrder(sorted[j].value));
    }
    assert forall i :: 0 <= i < |entries| ==>
        exists j :: 0 <= j < |ordered| && entries[i].key == ordered[j].key
                    && SameValue(entries[i].value, ordered[j].value);
    assert SameValue(Obj(entries), Obj(ordered));
  }
}
