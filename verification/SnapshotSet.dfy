/** `derive_snapshot_set_id` of `crates/copytrade-core/src/decision.rs`, up to the
    byte string that is hashed. */
module SnapshotSet {
  import opened Common
  import opened KeySort
  import opened Canonical

  datatype Member = Member(
    candidateId: Text, acceptedSequence: nat, payloadHash: seq<byte>, receivedAt: nat, validUntil: nat)

  /** "HL1E/SNAPSHOT_SET/V1" */
  const DOMAIN: seq<byte> := [72, 76, 49, 69, 47, 83, 78, 65, 80, 83, 72, 79, 84, 95, 83, 69, 84, 47, 86, 49]

  predicate WellFormedMember(m: Member) {
    |m.payloadHash| == 32 && m.acceptedSequence < U64 && m.receivedAt < U64 && m.validUntil < U64
  }

  function Id(): Member -> Text {
    (m: Member) => m.candidateId
  }

  /** The first of two equal neighbours. */
  function FirstDuplicate(ids: seq<Text>): Option<Text> {
    if |ids| < 2 then None
    else if ids[0] == ids[1] then Some(ids[0])
    else FirstDuplicate(ids[1..])
  }

  function FixedFields(m: Member): seq<byte> {
    BigEndian(m.acceptedSequence, 8) + m.payloadHash + BigEndian(m.receivedAt, 8) + BigEndian(m.validUntil, 8)
  }

  function EncodeMember(m: Member): Encoding {
    if m.receivedAt > m.validUntil then Err(InvalidInput)
    else Append(EncodeText(m.candidateId), Ok(FixedFields(m)))
  }

  function EncodeMembers(members: seq<Member>): Encoding {
    if members == [] then Ok([]) else Append(EncodeMember(members[0]), EncodeMembers(members[1..]))
  }

  function Sorted(members: seq<Member>): seq<Member> {
    SortByKey(members, Id())
  }

  function Preimage(members: seq<Member>): Encoding {
    var duplicate := FirstDuplicate(Keys(Sorted(members), Id()));
    if duplicate.Some? then Err(DuplicateCandidate(duplicate.value))
    else Append(Append(Ok(DOMAIN), Length(|members|)), EncodeMembers(Sorted(members)))
  }

  method FindDuplicate(sorted: seq<Member>) returns (duplicate: Option<Text>)
    ensures duplicate == FirstDuplicate(Keys(sorted, Id()))
  {
    ghost var ids := Keys(sorted, Id());
    assert ids[0..] == ids;
    var i := 0;
    while i + 1 < |sorted|
      invariant 0 <= i <= |sorted|
      invariant FirstDuplicate(ids[i..]) == FirstDuplicate(ids)
    {
      assert ids[i..][0] == sorted[i].candidateId && ids[i..][1] == sorted[i + 1].candidateId;
      assert ids[i..][1..] == ids[i + 1..];
      if sorted[i].candidateId == sorted[i + 1].candidateId {
        return Some(sorted[i].candidateId);
      }
      i := i + 1;
    }
    duplicate := None;
  }

  method DerivePreimage(members: seq<Member>) returns (r: Encoding)
    ensures r == Preimage(members)
  {
    var sorted := Sorted(members);
    SortKeepsElements(members, Id());
    var duplicate := FindDuplicate(sorted);
    if duplicate.Some? {
      return Err(DuplicateCandidate(duplicate.value));
    }
    var writer := new Writer(DOMAIN);
    var length := writer.WriteLength(|sorted|);
    if length.Err? {
      return Err(length.error);
    }
    var written := WriteMembers(writer, sorted);
    if written.Err? {
      return Err(written.error);
    }
    r := Ok(writer.bytes);
  }

  method WriteMembers(writer: Writer, sorted: seq<Member>) returns (r: Result<(), IdentityError>)
    modifies writer
    ensures Wrote(r, old(writer.bytes), writer.bytes, EncodeMembers(sorted))
  {
    hide EncodeText, FixedFields;
    r := Ok(());
    ghost var start, done := writer.bytes, [];
    assert sorted[0..] == sorted;
    AppendNothing(EncodeMembers(sorted));
    var i := 0;
    while i < |sorted|
      invariant 0 <= i <= |sorted| && r.Ok? && writer.bytes == start + done
      invariant EncodeMembers(sorted) == Append(Ok(done), EncodeMembers(sorted[i..]))
    {
      var member := sorted[i];
      assert sorted[i..][0] == member && sorted[i..][1..] == sorted[i + 1..];
      AppendRegroups(done, EncodeMember(member), EncodeMembers(sorted[i + 1..]));
      if member.receivedAt > member.validUntil {
        return Err(InvalidInput);
      }
      r := writer.WriteText(member.candidateId);
      if r.Err? {
        return;
      }
      writer.Bytes(FixedFields(member));
      done := done + (EncodeText(member.candidateId).value + FixedFields(member));
      i := i + 1;
    }
  }

  // ------------------------------------------------------------- properties

  lemma {:induction false} DuplicatesAreNeighbours(ids: seq<Text>)
    requires Ascending(ids)
    ensures FirstDuplicate(ids).None? <==> Distinct(ids)
  {
    if |ids| >= 2 {
      DuplicatesAreNeighbours(ids[1..]);
      if ids[0] != ids[1] && Distinct(ids[1..]) {
        forall j | 1 <= j < |ids| ensures ids[0] != ids[j] {
          assert TextAtMost(ids[0], ids[1]) && TextAtMost(ids[1], ids[j]);
          TextLessIsStrict(ids[0], ids[1]);
        }
        forall i, j | 0 <= i < j < |ids| ensures ids[i] != ids[j] {
          if i > 0 { assert ids[1..][i - 1] != ids[1..][j - 1]; }
        }
      }
      if Distinct(ids) {
        assert ids[0] != ids[1];
        forall i, j | 0 <= i < j < |ids[1..]| ensures ids[1..][i] != ids[1..][j] {
          assert ids[i + 1] != ids[j + 1];
        }
      }
    }
  }

  lemma DuplicateFreeWhen(members: seq<Member>)
    ensures FirstDuplicate(Keys(Sorted(members), Id())).None? <==> Distinct(Keys(members, Id()))
  {
    var key := Id();
    SortSorts(members, key);
    SortKeepsElements(members, key);
    DuplicatesAreNeighbours(Keys(Sorted(members), key));
    KeysOfSameElements(members, Sorted(members), key);
    if Distinct(Keys(members, key)) { DistinctIsAboutElements(Keys(members, key), Keys(Sorted(members), key)); }
    if Distinct(Keys(Sorted(members), key)) { DistinctIsAboutElements(Keys(Sorted(members), key), Keys(members, key)); }
  }

  /** The order of the members does not matter, not even to which error is
      reported. */
  lemma MemberOrderDoesNotMatter(a: seq<Member>, b: seq<Member>)
    requires multiset(a) == multiset(b)
    ensures Preimage(a) == Preimage(b)
  {
    SortForgetsOrder(a, b, Id());
    assert |multiset(a)| == |a| && |multiset(b)| == |b|;
    DuplicateFreeWhen(a);
    if FirstDuplicate(Keys(Sorted(a), Id())).None? {
      SortKeepsDistinct(a, Id());
      SortOfDistinctIsUnique(a, b, Id());
    }
  }

  lemma FixedFieldsDecide(m: Member, n: Member)
    requires WellFormedMember(m) && WellFormedMember(n) && FixedFields(m) == FixedFields(n)
    requires m.candidateId == n.candidateId
    ensures m == n
  {
    hide BigEndian;
    Widths();
    hide Power256;
    var a, b := BigEndian(m.acceptedSequence, 8), BigEndian(n.acceptedSequence, 8);
    var c, d := BigEndian(m.receivedAt, 8), BigEndian(n.receivedAt, 8);
    var e, f := BigEndian(m.validUntil, 8), BigEndian(n.validUntil, 8);
    SplitEqual(a + m.payloadHash + c, e, b + n.payloadHash + d, f);
    SplitEqual(a + m.payloadHash, c, b + n.payloadHash, d);
    SplitEqual(a, m.payloadHash, b, n.payloadHash);
    BigEndianIsInjective(m.acceptedSequence, n.acceptedSequence, 8);
    BigEndianIsInjective(m.receivedAt, n.receivedAt, 8);
    BigEndianIsInjective(m.validUntil, n.validUntil, 8);
  }

  lemma MembersSplit(m: Member, n: Member, s: seq<byte>, t: seq<byte>)
    requires WellFormedMember(m) && WellFormedMember(n) && EncodeMember(m).Ok? && EncodeMember(n).Ok?
    requires EncodeMember(m).value + s == EncodeMember(n).value + t
    ensures m == n && s == t
  {
    assert |FixedFields(m)| == |FixedFields(n)| == 56;
    hide EncodeText, FixedFields;
    AppendIsAssociative(EncodeText(m.candidateId).value, FixedFields(m), s);
    AppendIsAssociative(EncodeText(n.candidateId).value, FixedFields(n), t);
    TextsSplit(m.candidateId, n.candidateId, FixedFields(m) + s, FixedFields(n) + t);
    SplitEqual(FixedFields(m), s, FixedFields(n), t);
    FixedFieldsDecide(m, n);
  }

  lemma {:induction false} MemberListsSplit(a: seq<Member>, b: seq<Member>)
    requires |a| == |b| && EncodeMembers(a).Ok? && EncodeMembers(a) == EncodeMembers(b)
    requires forall m :: m in a ==> WellFormedMember(m)
    requires forall m :: m in b ==> WellFormedMember(m)
    ensures a == b
  {
    if a != [] {
      hide EncodeMember;
      assert a[0] in a && b[0] in b;
      MembersSplit(a[0], b[0], EncodeMembers(a[1..]).value, EncodeMembers(b[1..]).value);
      MemberListsSplit(a[1..], b[1..]);
      assert a == [a[0]] + a[1..] && b == [b[0]] + b[1..];
    }
  }

  /** Two sets of members share a preimage exactly when they have the same
      members. */
  lemma PreimageIsInjective(a: seq<Member>, b: seq<Member>)
    requires forall m :: m in a ==> WellFormedMember(m)
    requires forall m :: m in b ==> WellFormedMember(m)
    requires Preimage(a).Ok? && Preimage(b).Ok?
    ensures Preimage(a) == Preimage(b) <==> multiset(a) == multiset(b)
  {
    if multiset(a) == multiset(b) {
      MemberOrderDoesNotMatter(a, b);
    }
    if Preimage(a) == Preimage(b) {
      hide EncodeMembers, Length;
      var x, y := EncodeMembers(Sorted(a)).value, EncodeMembers(Sorted(b)).value;
      AppendIsAssociative(DOMAIN, Length(|a|).value, x);
      AppendIsAssociative(DOMAIN, Length(|b|).value, y);
      SplitEqual(DOMAIN, Length(|a|).value + x, DOMAIN, Length(|b|).value + y);
      LengthsSplit(|a|, |b|, x, y);
      SortKeepsElements(a, Id());
      SortKeepsElements(b, Id());
      SortedAreItems(a, Id());
      SortedAreItems(b, Id());
      MemberListsSplit(Sorted(a), Sorted(b));
    }
  }

  /** A preimage exists exactly for distinct candidates, each with a forward
      freshness interval, within 32-bit lengths. */
  lemma PreimageExistsWhen(members: seq<Member>)
    ensures Preimage(members).Ok? <==>
      && Distinct(Keys(members, Id()))
      && |members| < U32
      && forall m :: m in members ==> m.receivedAt <= m.validUntil && |m.candidateId| < U32
  {
    DuplicateFreeWhen(members);
    SortedAreItems(members, Id());
    hide SortByKey;
    MembersEncodeWhen(Sorted(members));
  }

  lemma {:induction false} MembersEncodeWhen(members: seq<Member>)
    ensures EncodeMembers(members).Ok? <==>
            forall m :: m in members ==> m.receivedAt <= m.validUntil && |m.candidateId| < U32
  {
    if members != [] {
      MembersEncodeWhen(members[1..]);
      assert members == [members[0]] + members[1..];
    }
  }

  /** Stands twice among the candidates. */
  predicate Repeated(ids: seq<Text>, id: Text) {
    exists i, j :: 0 <= i < j < |ids| && ids[i] == ids[j] == id
  }

  lemma {:induction false} FirstDuplicateIsLeast(ids: seq<Text>, id: Text)
    requires Ascending(ids) && FirstDuplicate(ids) == Some(id)
    ensures Repeated(ids, id) && forall other :: Repeated(ids, other) ==> TextAtMost(id, other)
  {
    if ids[0] == ids[1] {
      assert Repeated(ids, id);
    } else {
      var rest := ids[1..];
      FirstDuplicateIsLeast(rest, id);
      var i, j :| 0 <= i < j < |rest| && rest[i] == rest[j] == id;
      assert ids[i + 1] == ids[j + 1] == id;
      forall other | Repeated(ids, other) ensures Repeated(rest, other) {
        var k, l :| 0 <= k < l < |ids| && ids[k] == ids[l] == other;
        if k == 0 {
          assert TextAtMost(ids[0], ids[1]) && TextAtMost(ids[1], ids[l]);
          TextLessIsStrict(ids[0], ids[1]);
        } else {
          assert rest[k - 1] == rest[l - 1] == other;
        }
      }
    }
  }

  /** The candidate reported as a duplicate is the first by name of those that stand
      twice. */
  lemma DuplicateIsTheFirstByName(members: seq<Member>, id: Text)
    requires Preimage(members) == Err(DuplicateCandidate(id))
    ensures Repeated(Keys(Sorted(members), Id()), id)
    ensures forall other :: Repeated(Keys(Sorted(members), Id()), other) ==> TextAtMost(id, other)
    ensures multiset(Sorted(members)) == multiset(members)
  {
    SortSorts(members, Id());
    SortKeepsElements(members, Id());
    OnlyDuplicatesAreReported(members);
    FirstDuplicateIsLeast(Keys(Sorted(members), Id()), id);
  }

  lemma OnlyDuplicatesAreReported(members: seq<Member>)
    ensures FirstDuplicate(Keys(Sorted(members), Id())).None? ==>
              Preimage(members).Ok? || !Preimage(members).error.DuplicateCandidate?
  {
    hide Sorted;
    NoDuplicateWithin(Sorted(members));
  }

  lemma {:induction false} NoDuplicateWithin(members: seq<Member>)
    ensures EncodeMembers(members).Ok? || !EncodeMembers(members).error.DuplicateCandidate?
  {
    if members != [] { NoDuplicateWithin(members[1..]); }
  }
}
