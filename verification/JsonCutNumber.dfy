/** A text for which the verdict of the streaming reader depends on where it is cut. */
module JsonCutNumber {
  import opened Characters
  import opened JsonChunks
  import opened JsonLongNumbers
  import opened JsonReader
  import opened JsonText
  import opened Prelude

  /** A number of `n` ones and a half at `i`, up to a closing brace. */
  predicate HalfAt(t: Text, i: nat, n: nat) {
    && n > 0 && i + n + 2 < |t|
    && (forall k :: i <= k < i + n ==> t[k] == '1')
    && t[i + n] == '.' && t[i + n + 1] == '5' && t[i + n + 2] == '}'
  }

  lemma {:induction false} OnesEnd(t: Text, i: nat, j: nat)
    requires i <= j < |t| && (forall k :: i <= k < j ==> t[k] == '1') && !Digit(t[j])
    ensures DigitsEnd(t, i) == j
    decreases j - i
  {
    if i < j {
      OnesEnd(t, i + 1, j);
    }
  }

  lemma HalfEnds(t: Text, i: nat, n: nat)
    requires HalfAt(t, i, n)
    ensures WholeEnd(t, i) == i + n && NumberEnd(t, i) == i + n + 2
  {
    OnesEnd(t, i, i + n);
    assert DigitsEnd(t, i + n + 2) == i + n + 2;
    assert FractionEnd(t, i + n) == i + n + 2;
  }

  lemma HalfNumber(t: Text, i: nat, n: nat)
    requires HalfAt(t, i, n)
    ensures ScanValue(t, i) == Ok(Number(t[i..i + n + 2]), i + n + 2)
    ensures n > MAX_INTEGER_DIGITS ==> HasLong(Number(t[i..i + n + 2]))
  {
    HalfEnds(t, i, n);
    NumberOrConstant(t, i);
    WrittenWhole(t, i);
  }

  /** A record with the one key "a" starts at `i`. */
  predicate KeyAt(t: Text, i: nat) {
    && i + 5 < |t| && t[i] == '{' && t[i + 1] == '\"' && t[i + 2] == 'a' && t[i + 3] == '\"' && t[i + 4] == ':'
    && !Blank(t[i + 5])
  }

  lemma KeyIsScanned(t: Text, i: nat)
    requires i + 4 < |t| && t[i] == '\"' && t[i + 1] == 'a' && t[i + 2] == '\"' && t[i + 3] == ':' && !Blank(t[i + 4])
    ensures ScanKey(t, i) == Ok([97], i + 4)
  {
    assert ScanString(t, i + 2) == Ok([], i + 3);
    assert ScanUnit(t, i + 1) == Some((97, i + 2));
    assert [97] + [] == [97];
    assert ScanString(t, i + 1) == Ok([97], i + 3);
    var key := ScanString(t, i + 1);
    assert SkipBlanks(t, key.next) == i + 3;
    assert SkipBlanks(t, i + 4) == i + 4;
    assert ScanKey(t, i) == Ok(key.value, SkipBlanks(t, i + 3 + 1));
  }

  lemma MemberIsScanned(t: Text, i: nat, n: nat)
    requires KeyAt(t, i) && HalfAt(t, i + 5, n)
    ensures ScanMember(t, i + 1) == Ok(([97], Number(t[i + 5..i + n + 7])), i + n + 7)
  {
    KeyIsScanned(t, i + 1);
    HalfNumber(t, i + 5, n);
  }

  lemma OneMember(t: Text, i: nat, member: (seq<int>, Json), end: nat)
    requires ScanMember(t, i) == Ok(member, end) && end < |t| && t[end] == '}'
    ensures ScanMembers(t, i) == Ok([member], end + 1)
  {
    assert SkipBlanks(t, end) == end;
    assert ScanFollow(t, end, '}') == Closed(end + 1);
  }

  lemma RecordIsScanned(t: Text, i: nat, n: nat)
    requires KeyAt(t, i) && HalfAt(t, i + 5, n)
    ensures ScanValue(t, i) == Ok(Obj([([97], Number(t[i + 5..i + n + 7]))]), i + n + 8)
  {
    MemberIsScanned(t, i, n);
    OneMember(t, i + 1, ([97], Number(t[i + 5..i + n + 7])), i + n + 7);
    assert SkipBlanks(t, i + 1) == i + 1;
    assert ScanValue(t, i) == ScanObject(t, i);
  }

  function Ones(n: nat): Text {
    seq(n, _ => '1')
  }

  /** One record with one number, of `n` digits and a half. */
  function HalfDocument(n: nat): Text {
    "[{\"a\":" + Ones(n) + ".5}]"
  }

  lemma HalfDocumentFront(n: nat)
    requires n > 0
    ensures var t := HalfDocument(n);
            |t| == n + 10 && t[0] == '[' && KeyAt(t[1..], 0) && HalfAt(t[1..], 5, n) && t[1..][n + 8..] == [']']
  {
    var rest := HalfDocument(n)[1..];
    assert |Ones(n)| == n;
    assert forall k :: 5 <= k < 5 + n ==> rest[k] == Ones(n)[k - 5];
  }

  lemma RecordIsAcceptable(written: Text)
    ensures Acceptable(Obj([([97], Number(written))]), 0, Limits(1, 1))
  {
    var members := [([97], Number(written))];
    assert (set m | m in members :: m.0) == {[97]} && members[1..] == [];
    assert EncodableMember(members[0]);
  }

  lemma LastBracket(s: Text, record: Json, next: nat)
    requires AtItem(s) && RawDecode(s) == Ok(record, next) && Acceptable(record, 0, Limits(1, 1)) && s[next..] == [']']
    ensures ParseArray(s, 0, Limits(1, 1)) == Some(([record], []))
  {
    assert LStrip([']']) == [']'] && [']'][1..] == [];
    assert ParseArray([']'], 1, Limits(1, 1)) == Some(([], []));
    assert [record] + [] == [record];
  }

  lemma ArrayIsParsed(t: Text, n: nat) returns (record: Json)
    requires n > MAX_INTEGER_DIGITS && KeyAt(t, 0) && HalfAt(t, 5, n) && t[n + 8..] == [']']
    ensures ParseArray(t, 0, Limits(1, 1)) == Some(([record], [])) && HasLong(record)
  {
    RecordIsScanned(t, 0, n);
    HalfNumber(t, 5, n);
    record := RawDecode(t).value;
    RecordIsAcceptable(t[5..n + 7]);
    LastBracket(t, record, n + 8);
    assert LongMember(record.members[0]);
  }

  lemma HalfDocumentIsParsed(n: nat) returns (record: Json)
    requires n > MAX_INTEGER_DIGITS
    ensures ParseDocument(HalfDocument(n), Limits(1, 1)) == Accepted([record]) && HasLong(record)
  {
    HalfDocumentFront(n);
    record := ArrayIsParsed(HalfDocument(n)[1..], n);
    OnlyRecord(HalfDocument(n), record);
  }

  lemma OnlyRecord(t: Text, record: Json)
    requires t != [] && t[0] == '[' && ParseArray(t[1..], 0, Limits(1, 1)) == Some(([record], []))
    ensures ParseDocument(t, Limits(1, 1)) == Accepted([record])
  {
  }

  /** With more than 4300 digits before the point it is accepted in one chunk, and rejected in two. */
  lemma LongHalfDependsOnChunks(n: nat) returns (chunks: seq<Text>)
    requires n > MAX_INTEGER_DIGITS
    ensures NonEmpty(chunks) && Flatten([HalfDocument(n)]) == Flatten(chunks) == HalfDocument(n)
    ensures StreamDocument([HalfDocument(n)], Limits(1, 1)).Accepted?
    ensures StreamDocument(chunks, Limits(1, 1)) == Rejected
  {
    var record := HalfDocumentIsParsed(n);
    assert HasLong([record][0]);
    chunks := LongNumberIsCut(HalfDocument(n), Limits(1, 1));
    OneChunk(HalfDocument(n), Limits(1, 1));
  }
}
