/** A reader of snapshot-set byte strings, written from their format alone: the
    domain, the number of members, and the members in order of candidate. */
module SnapshotReader {
  import opened Common
  import opened KeySort
  import opened Canonical
  import opened CanonicalReader
  import opened SnapshotSet

  function Ascii(text: string): seq<byte>
    requires forall i :: 0 <= i < |text| ==> text[i] < 128 as char
  {
    seq(|text|, i requires 0 <= i < |text| => text[i] as int)
  }

  /** A candidate's text, eight bytes of sequence number, the payload's hash of
      thirty-two bytes, and eight bytes each of reception and validity. */
  function ReadMember(b: seq<byte>): (r: Option<(Member, seq<byte>)>)
    ensures r.Some? ==> |r.value.1| < |b|
  {
    var id := ReadText(b);
    if id.None? || |id.value.1| < 56 then None
    else
      var rest := id.value.1;
      Some((Member(id.value.0, ValueOf(rest[..8]), rest[8..40], ValueOf(rest[40..48]), ValueOf(rest[48..56])),
            rest[56..]))
  }

  function ReadMembers(b: seq<byte>, count: nat): Option<(seq<Member>, seq<byte>)> {
    if count == 0 then Some(([], b))
    else
      var first := ReadMember(b);
      if first.None? then None
      else
        var rest := ReadMembers(first.value.1, count - 1);
        if rest.None? then None else Some(([first.value.0] + rest.value.0, rest.value.1))
  }

  /** All of the bytes, or nothing. */
  function ReadSet(b: seq<byte>): Option<seq<Member>> {
    if |b| < 24 || b[..20] != Ascii("HL1E/SNAPSHOT_SET/V1") then None
    else
      var members := ReadMembers(b[24..], ValueOf(b[20..24]));
      if members.Some? && members.value.1 == [] then Some(members.value.0) else None
  }

  lemma FieldsReadBack(m: Member, s: seq<byte>)
    requires WellFormedMember(m)
    ensures var b := FixedFields(m) + s;
            && |b| >= 56 && ValueOf(b[..8]) == m.acceptedSequence && b[8..40] == m.payloadHash
            && ValueOf(b[40..48]) == m.receivedAt && ValueOf(b[48..56]) == m.validUntil && b[56..] == s
  {
    Widths();
    DigitsAddUp(m.acceptedSequence, 8);
    DigitsAddUp(m.receivedAt, 8);
    DigitsAddUp(m.validUntil, 8);
    hide BigEndian, ValueOf;
    var b := FixedFields(m) + s;
    assert b[..8] == BigEndian(m.acceptedSequence, 8);
    assert b[40..48] == BigEndian(m.receivedAt, 8);
    assert b[48..56] == BigEndian(m.validUntil, 8);
  }

  lemma MemberReadsBack(m: Member, s: seq<byte>)
    requires WellFormedMember(m) && EncodeMember(m).Ok?
    ensures ReadMember(EncodeMember(m).value + s) == Some((m, s))
  {
    hide EncodeText, FixedFields, ReadText, ValueOf, WellFormedMember;
    FieldsReadBack(m, s);
    AppendIsAssociative(EncodeText(m.candidateId).value, FixedFields(m), s);
    TextReadsBack(m.candidateId, FixedFields(m) + s);
  }

  lemma {:induction false} MembersReadBack(members: seq<Member>, s: seq<byte>)
    requires EncodeMembers(members).Ok? && forall m :: m in members ==> WellFormedMember(m)
    ensures ReadMembers(EncodeMembers(members).value + s, |members|) == Some((members, s))
  {
    hide EncodeMember, ReadMember, WellFormedMember;
    if members == [] {
      assert [] + s == s;
    } else {
      var rest := EncodeMembers(members[1..]).value;
      assert members[0] in members && members == [members[0]] + members[1..];
      AppendIsAssociative(EncodeMember(members[0]).value, rest, s);
      MemberReadsBack(members[0], rest + s);
      MembersReadBack(members[1..], s);
    }
  }

  lemma DomainIsText()
    ensures DOMAIN == Ascii("HL1E/SNAPSHOT_SET/V1")
  {
  }

  lemma SortedMembers(members: seq<Member>)
    ensures var sorted := SnapshotSet.Sorted(members);
            && Ascending(Keys(sorted, Id())) && multiset(sorted) == multiset(members) && |sorted| == |members|
            && forall m :: m in sorted ==> m in members
  {
    SortSorts(members, Id());
    SortKeepsElements(members, Id());
    SortedAreItems(members, Id());
  }

  /** Every preimage is read back as its members, in order of candidate. */
  lemma PreimageReadsBack(members: seq<Member>)
    requires Preimage(members).Ok? && forall m :: m in members ==> WellFormedMember(m)
    ensures ReadSet(Preimage(members).value) == Some(SnapshotSet.Sorted(members))
    ensures var sorted := SnapshotSet.Sorted(members);
            Ascending(Keys(sorted, Id())) && multiset(sorted) == multiset(members)
  {
    DomainIsText();
    SortedMembers(members);
    hide SnapshotSet.Sorted, EncodeMembers, Length, ReadMembers, ValueOf, Ascii, WellFormedMember, Ascending;
    var body := EncodeMembers(SnapshotSet.Sorted(members)).value;
    var b := Preimage(members).value;
    LengthReadsBack(|members|, body);
    AppendIsAssociative(DOMAIN, Length(|members|).value, body);
    var tail := Length(|members|).value + body;
    assert b == DOMAIN + tail;
    assert b[..20] == DOMAIN && b[20..24] == tail[..4] && b[24..] == tail[4..];
    assert body + [] == body;
    MembersReadBack(SnapshotSet.Sorted(members), []);
  }
}
