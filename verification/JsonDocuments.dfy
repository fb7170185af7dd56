/** Which texts are uploaded, apart from how they are read: exactly those that are an array of records within the limits
    are accepted, with these records; and the streaming reader accepts no others, however the text is cut. */
module JsonDocuments {
  import opened Characters
  import opened JsonChunks
  import opened JsonGrammar
  import opened JsonReader
  import opened JsonText
  import opened Prelude

  // ---------------------------------------------------------------- array documents

  /** The reader takes commas between records like white space. */
  ghost predicate Gap(t: Text, k: nat) {
    k <= |t| && forall i :: 0 <= i < k ==> Space(t[i]) || t[i] == ','
  }

  ghost predicate AllSpace(t: Text) {
    forall i :: 0 <= i < |t| ==> Space(t[i])
  }

  /** Records with gaps before them, and a closing bracket with `after` behind it. */
  ghost predicate RecordsIn(t: Text, records: seq<Json>, after: Text)
    decreases |records|
  {
    exists k: nat :: Gap(t, k) && RecordsFrom(t[k..], records, after)
  }

  ghost predicate RecordsFrom(s: Text, records: seq<Json>, after: Text)
    decreases |records|, 0
  {
    if records == [] then At(s, 0, ']') && after == s[1..]
    else exists n: nat :: 0 < n <= |s| && ValueAt(s, 0, n, records[0]) && RecordsIn(s[n..], records[1..], after)
  }

  ghost predicate IsDocument(t: Text, records: seq<Json>) {
    exists k: nat, after ::
      && k < |t| && AllSpace(t[..k]) && t[k] == '[' && AllSpace(after) && RecordsIn(t[k + 1..], records, after)
  }

  /** No lone surrogate in the strings that are kept: of members with one key that is the last. */
  ghost predicate Writable(value: Json)
    decreases value, 0
  {
    match value
    case Str(points) => forall k :: 0 <= k < |points| ==> !(0xD800 <= points[k] < 0xE000)
    case Arr(items) => forall k :: 0 <= k < |items| ==> Writable(items[k])
    case Obj(members) => forall k :: 0 <= k < |members| && LastOfItsKey(members, k) ==> WritableMember(members[k])
    case _ => true
  }

  ghost predicate LastOfItsKey(members: seq<(seq<int>, Json)>, k: nat)
    requires k < |members|
  {
    forall l :: k < l < |members| ==> members[l].0 != members[k].0
  }

  ghost predicate WritableMember(member: (seq<int>, Json))
    decreases member, 1
  {
    (forall k :: 0 <= k < |member.0| ==> !(0xD800 <= member.0[k] < 0xE000)) && Writable(member.1)
  }

  /** A record is a writable object with at most the allowed number of different keys; there are at most the allowed
      number of records. */
  ghost predicate WithinLimits(records: seq<Json>, limits: Limits) {
    && |records| <= limits.rows
    && forall r :: r in records ==> r.Obj? && |set m | m in r.members :: m.0| <= limits.columns && Writable(r)
  }

  // ---------------------------------------------------------------- what one pass takes

  lemma {:induction false} EncodableIsWritable(value: Json)
    ensures Encodable(value) <==> Writable(value)
    decreases value, 0
  {
    match value {
      case Arr(items) => ItemsAreWritable(items);
      case Obj(members) => MembersAreWritable(members);
      case _ =>
    }
  }

  lemma {:induction false} ItemsAreWritable(items: seq<Json>)
    ensures EncodableItems(items) <==> forall k :: 0 <= k < |items| ==> Writable(items[k])
    decreases items, 0
  {
    if items != [] {
      var rest := items[1..];
      EncodableIsWritable(items[0]);
      ItemsAreWritable(rest);
      assert items == [items[0]] + rest;
    }
  }

  lemma {:induction false} MemberIsWritable(member: (seq<int>, Json))
    ensures EncodableMember(member) <==> WritableMember(member)
    decreases member, 1
  {
    EncodableIsWritable(member.1);
  }

  lemma {:induction false} MembersAreWritable(members: seq<(seq<int>, Json)>)
    ensures EncodableMembers(members) <==>
            forall k :: 0 <= k < |members| && LastOfItsKey(members, k) ==> WritableMember(members[k])
    decreases members, 0
  {
    if members != [] {
      var rest := members[1..];
      MemberIsWritable(members[0]);
      MembersAreWritable(rest);
      assert forall k :: 0 <= k < |rest| ==> rest[k] == members[k + 1];
      assert forall k :: 0 <= k < |rest| ==> (LastOfItsKey(rest, k) <==> LastOfItsKey(members, k + 1));
      assert LastOfItsKey(members, 0) <==> !exists m :: m in rest && m.0 == members[0].0;
    }
  }

  predicate AllAcceptable(records: seq<Json>, count: nat, limits: Limits) {
    records != [] ==> Acceptable(records[0], count, limits) && AllAcceptable(records[1..], count + 1, limits)
  }

  lemma {:induction false} AcceptableIsWithin(records: seq<Json>, count: nat, limits: Limits)
    ensures AllAcceptable(records, count, limits) <==>
            && (records != [] ==> count + |records| <= limits.rows)
            && forall r :: r in records ==> r.Obj? && |set m | m in r.members :: m.0| <= limits.columns && Writable(r)
    decreases |records|
  {
    if records != [] {
      EncodableIsWritable(records[0]);
      AcceptableIsWithin(records[1..], count + 1, limits);
      assert records == [records[0]] + records[1..];
    }
  }

  lemma RecordsBehind(t: Text, m: nat, records: seq<Json>, after: Text)
    requires Gap(t, m) && RecordsIn(t[m..], records, after)
    ensures RecordsIn(t, records, after)
  {
    var k: nat :| Gap(t[m..], k) && RecordsFrom(t[m..][k..], records, after);
    assert t[m..][k..] == t[m + k..];
    assert forall i :: m <= i < m + k ==> t[i] == t[m..][i - m];
    assert Gap(t, m + k);
  }

  lemma OneMoreRecord(s: Text, n: nat, record: Json, rest: seq<Json>, after: Text)
    requires 0 < n <= |s| && ValueAt(s, 0, n, record) && RecordsIn(s[n..], rest, after)
    ensures RecordsFrom(s, [record] + rest, after)
  {
    assert ([record] + rest)[1..] == rest;
  }

  lemma {:induction false} ArrayParsed(t: Text, count: nat, limits: Limits)
    requires ParseArray(t, count, limits).Some?
    ensures var (records, after) := ParseArray(t, count, limits).value;
            && RecordsIn(t, records, after)
            && AllAcceptable(records, count, limits)
    decreases |t|
  {
    var (s, k) := (LStrip(t), |t| - |LStrip(t)|);
    var (records, after) := ParseArray(t, count, limits).value;
    LeadingBlanks(t);
    LStripDrops(t, k);
    assert Gap(t, k) && t[k..] == s;
    if s[0] == ',' {
      ArrayParsed(s[1..], count, limits);
      assert t[k + 1..] == s[1..];
      RecordsBehind(t, k + 1, records, after);
    } else if s[0] != ']' {
      var d := RawDecode(s);
      ArrayParsed(s[d.next..], count + 1, limits);
      DecodesExactly(s, d.value, d.next);
      OneMoreRecord(s, d.next, d.value, ParseArray(s[d.next..], count + 1, limits).value.0, after);
    } else {
      assert RecordsFrom(s, [], after);
    }
  }

  lemma {:induction false} GapParsed(t: Text, k: nat, count: nat, limits: Limits)
    requires Gap(t, k)
    ensures ParseArray(t, count, limits) == ParseArray(t[k..], count, limits)
    decreases k
  {
    if k == 0 {
      assert t[k..] == t;
    } else {
      GapParsed(t[1..], k - 1, count, limits);
      assert t[1..][k - 1..] == t[k..];
      if Space(t[0]) {
        assert LStrip(t) == LStrip(t[1..]);
      }
    }
  }

  lemma RecordRead(s: Text, n: nat, record: Json, rest: seq<Json>, after: Text, count: nat, limits: Limits)
    requires ValueAt(s, 0, n, record) && Acceptable(record, count, limits)
    requires n <= |s| && ParseArray(s[n..], count + 1, limits) == Some((rest, after))
    ensures ParseArray(s, count, limits) == Some(([record] + rest, after))
  {
    DecodesExactly(s, record, n);
    assert s[0] == '{' && LStrip(s) == s;
  }

  lemma FirstRecord(t: Text, records: seq<Json>, after: Text, count: nat, limits: Limits)
    returns (s: Text, n: nat, first: Json, rest: seq<Json>)
    requires records != [] && RecordsIn(t, records, after) && AllAcceptable(records, count, limits)
    ensures records == [first] + rest && Acceptable(first, count, limits) && AllAcceptable(rest, count + 1, limits)
    ensures n <= |s| && ValueAt(s, 0, n, first) && RecordsIn(s[n..], rest, after)
    ensures ParseArray(t, count, limits) == ParseArray(s, count, limits)
  {
    var k: nat :| Gap(t, k) && RecordsFrom(t[k..], records, after);
    s, first, rest := t[k..], records[0], records[1..];
    n :| 0 < n <= |s| && ValueAt(s, 0, n, first) && RecordsIn(s[n..], rest, after);
    GapParsed(t, k, count, limits);
  }

  lemma NoRecord(t: Text, after: Text, count: nat, limits: Limits)
    requires RecordsIn(t, [], after)
    ensures ParseArray(t, count, limits) == Some(([], after))
  {
    var k: nat :| Gap(t, k) && RecordsFrom(t[k..], [], after);
    GapParsed(t, k, count, limits);
    assert LStrip(t[k..]) == t[k..];
  }

  lemma {:induction false} ArrayRead(t: Text, records: seq<Json>, after: Text, count: nat, limits: Limits)
    requires RecordsIn(t, records, after) && AllAcceptable(records, count, limits)
    ensures ParseArray(t, count, limits) == Some((records, after))
    decreases |records|
  {
    if records == [] {
      NoRecord(t, after, count, limits);
    } else {
      var s, n, first, rest := FirstRecord(t, records, after, count, limits);
      ArrayRead(s[n..], rest, after, count + 1, limits);
      RecordRead(s, n, first, rest, after, count, limits);
    }
  }

  // ---------------------------------------------------------------- documents

  lemma SpaceStripped(t: Text)
    ensures AllSpace(t) <==> LStrip(t) == []
  {
    LeadingBlanks(t);
    if AllSpace(t) {
      LStripDrops(t, |t|);
    }
  }

  lemma DocumentStripped(t: Text, k: nat)
    requires k < |t| && AllSpace(t[..k]) && !Space(t[k])
    ensures LStrip(t) == t[k..]
  {
    assert forall i :: 0 <= i < k ==> t[i] == t[..k][i];
    LStripDrops(t, k);
  }

  /** One pass accepts exactly the array documents with one record or more that are within the limits, and finds their
      records. */
  lemma AcceptedExactly(t: Text, records: seq<Json>, limits: Limits)
    ensures ParseDocument(t, limits) == Accepted(records) <==>
            IsDocument(t, records) && records != [] && WithinLimits(records, limits)
  {
    AcceptableIsWithin(records, 0, limits);
    if ParseDocument(t, limits) == Accepted(records) {
      var k := |t| - |LStrip(t)|;
      LeadingBlanks(t);
      LStripDrops(t, k);
      assert t[k..][1..] == t[k + 1..];
      ArrayParsed(t[k + 1..], 0, limits);
      SpaceStripped(ParseArray(t[k + 1..], 0, limits).value.1);
      assert AllSpace(t[..k]);
    }
    if IsDocument(t, records) && records != [] && WithinLimits(records, limits) {
      var k: nat, after :| && k < |t| && AllSpace(t[..k]) && t[k] == '[' && AllSpace(after)
                           && RecordsIn(t[k + 1..], records, after);
      DocumentStripped(t, k);
      assert t[k..][1..] == t[k + 1..];
      ArrayRead(t[k + 1..], records, after, 0, limits);
      SpaceStripped(after);
    }
  }

  /** What the reader accepts, one pass accepts; and it accepts every array document within the limits that has no long
      number in a record. */
  lemma StreamAcceptsExactly(chunks: seq<Text>, records: seq<Json>, limits: Limits)
    requires NonEmpty(chunks)
    ensures StreamDocument(chunks, limits) == Accepted(records) ==>
              IsDocument(Flatten(chunks), records) && records != [] && WithinLimits(records, limits)
    ensures IsDocument(Flatten(chunks), records) && records != [] && WithinLimits(records, limits) ==>
              AnyLong(records) || StreamDocument(chunks, limits) == Accepted(records)
  {
    AcceptedExactly(Flatten(chunks), records, limits);
    StreamIsOnePassOrRejects(chunks, limits);
  }

  /** A document that does not start with a bracket is none of an array. */
  lemma NotAnArrayExactly(t: Text, limits: Limits)
    ensures ParseDocument(t, limits) == NotAnArray <==>
            exists k :: 0 <= k < |t| && AllSpace(t[..k]) && !Space(t[k]) && t[k] != '['
  {
    var n := |t| - |LStrip(t)|;
    LeadingBlanks(t);
    LStripDrops(t, n);
    assert AllSpace(t[..n]);
    forall k | 0 <= k < |t| && AllSpace(t[..k]) && !Space(t[k])
      ensures k == n
    {
      DocumentStripped(t, k);
    }
  }
}
