/** The one way in which a prefix can mislead the decoder: a number with too many digits for an integer is refused as
    long as its fraction or exponent is out of sight. */
module JsonLongNumbers {
  import opened Characters
  import opened JsonText

  /** As written the number has more digits before any fraction or exponent than an integer may have. */
  predicate LongWhole(written: Text) {
    && written != [] && DigitAt(written, AfterSign(written, 0))
    && WholeEnd(written, AfterSign(written, 0)) - AfterSign(written, 0) > MAX_INTEGER_DIGITS
  }

  /** Some number in the value does. Since such an integer is refused, it is one with a fraction or an exponent. */
  predicate HasLong(value: Json)
    decreases value
  {
    match value
    case Number(written) => LongWhole(written)
    case Arr(items) => LongItems(items)
    case Obj(members) => LongMembers(members)
    case _ => false
  }

  predicate LongItems(items: seq<Json>)
    decreases items
  {
    items != [] && (HasLong(items[0]) || LongItems(items[1..]))
  }

  predicate LongMember(member: (seq<int>, Json))
    decreases member
  {
    HasLong(member.1)
  }

  predicate LongMembers(members: seq<(seq<int>, Json)>)
    decreases members
  {
    members != [] && (LongMember(members[0]) || LongMembers(members[1..]))
  }

  lemma LongItemsOneMore(first: Json, rest: seq<Json>)
    ensures LongItems([first] + rest) <==> HasLong(first) || LongItems(rest)
  {
    assert ([first] + rest)[1..] == rest;
  }

  lemma LongMembersOneMore(first: (seq<int>, Json), rest: seq<(seq<int>, Json)>)
    ensures LongMembers([first] + rest) <==> LongMember(first) || LongMembers(rest)
  {
    assert ([first] + rest)[1..] == rest;
  }

  // ---------------------------------------------------------------- numbers

  lemma {:induction false} DigitsSlice(t: Text, a: nat, b: nat, i: nat)
    requires a <= i <= b <= |t| && DigitsEnd(t, i) <= b
    ensures DigitsEnd(t[a..b], i - a) == DigitsEnd(t, i) - a
    decreases b - i
  {
    if i < b && Digit(t[i]) {
      DigitsSlice(t, a, b, i + 1);
    }
  }

  /** What is kept of a number tells how many digits it had. */
  lemma WrittenWhole(t: Text, i: nat)
    requires i < |t| && DigitAt(t, AfterSign(t, i))
    ensures LongWhole(t[i..NumberEnd(t, i)]) <==> WholeEnd(t, AfterSign(t, i)) - AfterSign(t, i) > MAX_INTEGER_DIGITS
  {
    var first, end := AfterSign(t, i), NumberEnd(t, i);
    if t[first] != '0' {
      DigitsSlice(t, i, end, first);
    }
  }

  lemma {:induction false} DigitsGrow(t: Text, u: Text, i: nat)
    requires i <= |t|
    ensures DigitsEnd(t + u, i) >= DigitsEnd(t, i)
    decreases |t| - i
  {
    if i < |t| && Digit(t[i]) {
      DigitsGrow(t, u, i + 1);
    }
  }

  lemma ScalarRefusedGrows(t: Text, u: Text, i: nat)
    requires i < |t| && ScanScalar(t, i).Refused? && ScanScalar(t + u, i).Ok?
    ensures HasLong(ScanScalar(t + u, i).value)
  {
    NumberOrConstant(t + u, i);
    DigitsGrow(t, u, AfterSign(t, i));
    WrittenWhole(t + u, i);
  }

  lemma {:induction false} DigitsCut(t: Text, i: nat, c: nat)
    requires i <= c <= |t| && c <= DigitsEnd(t, i)
    ensures DigitsEnd(t[..c], i) == c
    decreases c - i
  {
    if i < c {
      DigitsCut(t, i + 1, c);
    }
  }

  lemma ScalarCut(t: Text, i: nat) returns (c: nat)
    requires i < |t| && ScanScalar(t, i).Ok? && HasLong(ScanScalar(t, i).value)
    ensures i < c < ScanScalar(t, i).next && ScanScalar(t[..c], i).Refused?
  {
    if !DigitAt(t, AfterSign(t, i)) {
      assert false;
    }
    var first := AfterSign(t, i);
    NumberOrConstant(t, i);
    WrittenWhole(t, i);
    c := first + MAX_INTEGER_DIGITS + 1;
    DigitsCut(t, first, c);
    NumberOrConstant(t[..c], i);
  }

  // ---------------------------------------------------------------- values: refused, and accepted with more text

  /** If a prefix is refused and more text makes it a value, that value holds a number with too many digits. */
  lemma {:induction false} RefusedGrows(t: Text, u: Text, i: nat)
    requires ScanValue(t, i).Refused? && ScanValue(t + u, i).Ok?
    ensures HasLong(ScanValue(t + u, i).value)
    decreases |t| - i, 2
  {
    assert (t + u)[i] == t[i];
    if t[i] == '{' {
      BlanksStable(t, u, i + 1);
      MembersRefusedGrow(t, u, SkipBlanks(t, i + 1));
    } else if t[i] == '[' {
      BlanksStable(t, u, i + 1);
      ElementsRefusedGrow(t, u, SkipBlanks(t, i + 1));
    } else {
      ScalarRefusedGrows(t, u, i);
    }
  }

  lemma {:induction false} MemberRefusedGrows(t: Text, u: Text, i: nat)
    requires ScanMember(t, i).Refused? && ScanMember(t + u, i).Ok?
    ensures LongMember(ScanMember(t + u, i).value)
    decreases |t| - i, 0
  {
    KeyStable(t, u, i);
    RefusedGrows(t, u, ScanKey(t, i).next);
  }

  lemma {:induction false} MembersRefusedGrow(t: Text, u: Text, i: nat)
    requires ScanMembers(t, i).Refused? && ScanMembers(t + u, i).Ok?
    ensures LongMembers(ScanMembers(t + u, i).value)
    decreases |t| - i, 1
  {
    var m := ScanMember(t, i);
    if m.Refused? {
      MemberRefusedGrows(t, u, i);
    } else {
      var next := ScanFollow(t, m.next, '}').next;
      FollowStable(t, u, m.next, '}');
      MemberStable(t, u, i);
      MembersRefusedGrow(t, u, next);
      LongMembersOneMore(m.value, ScanMembers(t + u, next).value);
    }
  }

  lemma {:induction false} ElementsRefusedGrow(t: Text, u: Text, i: nat)
    requires ScanElements(t, i).Refused? && ScanElements(t + u, i).Ok?
    ensures LongItems(ScanElements(t + u, i).value)
    decreases |t| - i, 3
  {
    var e := ScanValue(t, i);
    if e.Refused? {
      RefusedGrows(t, u, i);
    } else {
      var next := ScanFollow(t, e.next, ']').next;
      FollowStable(t, u, e.next, ']');
      ValueStable(t, u, i);
      ElementsRefusedGrow(t, u, next);
      LongItemsOneMore(e.value, ScanElements(t + u, next).value);
    }
  }

  // ---------------------------------------------------------------- values: accepted, and refused with less text

  /** A value that holds a number with too many digits can be cut so that what is left is refused. */
  lemma {:induction false} LongCut(t: Text, i: nat) returns (c: nat)
    requires ScanValue(t, i).Ok? && HasLong(ScanValue(t, i).value)
    ensures i < c < ScanValue(t, i).next && ScanValue(t[..c], i).Refused?
    decreases |t| - i, 2
  {
    if t[i] == '{' {
      c := MembersCut(t, SkipBlanks(t, i + 1));
      BlanksCut(t, i + 1, c);
    } else if t[i] == '[' {
      c := ElementsCut(t, SkipBlanks(t, i + 1));
      BlanksCut(t, i + 1, c);
    } else {
      c := ScalarCut(t, i);
    }
  }

  lemma BlanksCut(t: Text, i: nat, c: nat)
    requires SkipBlanks(t, i) < c <= |t|
    ensures SkipBlanks(t[..c], i) == SkipBlanks(t, i)
  {
    assert t == t[..c] + t[c..];
    BlanksStable(t[..c], t[c..], i);
  }

  lemma {:induction false} MemberCut(t: Text, i: nat) returns (c: nat)
    requires ScanMember(t, i).Ok? && LongMember(ScanMember(t, i).value)
    ensures i < c < ScanMember(t, i).next && ScanMember(t[..c], i).Refused?
    decreases |t| - i, 0
  {
    c := LongCut(t, ScanKey(t, i).next);
    assert t == t[..c] + t[c..];
    KeyStable(t[..c], t[c..], i);
  }

  /** If the first member is whole and what follows its comma is refused, all of it is. */
  lemma RestRefused(t: Text, i: nat, c: nat)
    requires ScanMember(t, i).Ok? && ScanFollow(t, ScanMember(t, i).next, '}').Comma?
    requires ScanFollow(t, ScanMember(t, i).next, '}').next < c <= |t|
    requires ScanMembers(t[..c], ScanFollow(t, ScanMember(t, i).next, '}').next).Refused?
    ensures ScanMembers(t[..c], i).Refused?
  {
    assert t == t[..c] + t[c..];
    FollowStable(t[..c], t[c..], ScanMember(t, i).next, '}');
    MemberStable(t[..c], t[c..], i);
  }

  lemma {:induction false} MembersCut(t: Text, i: nat) returns (c: nat)
    requires ScanMembers(t, i).Ok? && LongMembers(ScanMembers(t, i).value)
    ensures i < c < ScanMembers(t, i).next && ScanMembers(t[..c], i).Refused?
    decreases |t| - i, 1
  {
    var m := ScanMember(t, i);
    if LongMember(m.value) {
      c := MemberCut(t, i);
    } else {
      var next := ScanFollow(t, m.next, '}').next;
      if ScanFollow(t, m.next, '}').Comma? {
        LongMembersOneMore(m.value, ScanMembers(t, next).value);
      }
      c := MembersCut(t, next);
      RestRefused(t, i, c);
    }
  }

  lemma {:induction false} ElementsCut(t: Text, i: nat) returns (c: nat)
    requires ScanElements(t, i).Ok? && LongItems(ScanElements(t, i).value)
    ensures i < c < ScanElements(t, i).next && ScanElements(t[..c], i).Refused?
    decreases |t| - i, 3
  {
    var e := ScanValue(t, i);
    if HasLong(e.value) {
      c := LongCut(t, i);
    } else {
      var next := ScanFollow(t, e.next, ']').next;
      if ScanFollow(t, e.next, ']').Comma? {
        LongItemsOneMore(e.value, ScanElements(t, next).value);
      }
      c := ElementsCut(t, next);
      assert t == t[..c] + t[c..];
      FollowStable(t[..c], t[c..], e.next, ']');
      ValueStable(t[..c], t[c..], i);
    }
  }
}
