/** JSON texts as the standard library's decoder reads them: RFC 8259, plus NaN, Infinity and -Infinity, minus integers
    of more than 4300 digits. What the streaming reader relies on is proved at the end: an object decoded from a prefix
    of a text is the object decoded from the whole text; and so is where it may not: a prefix is refused although the
    whole text is not, if and only if it is cut inside a number with that many digits before its fraction. */
module JsonText {
  import opened Characters
  import opened Prelude

  type Text = string

  /** Numbers and the constants are kept as written; strings as code points, lone surrogates among them. */
  datatype Json =
    | Null
    | Bool(b: bool)
    | Number(written: Text)
    | Str(points: seq<int>)
    | Arr(items: seq<Json>)
    | Obj(members: seq<(seq<int>, Json)>)

  /** A value and where it ends; text in which more of it may help; or an integer that is refused for good. */
  datatype Scanned<T> = Ok(value: T, next: nat) | Malformed | Refused

  /** The digits the decoder's integer conversion accepts at most, the sign not counted. */
  const MAX_INTEGER_DIGITS := 4300

  // ---------------------------------------------------------------- blanks, digits, strings

  predicate Blank(c: char) {
    c == ' ' || c == '\t' || c == '\n' || c == '\r'
  }

  /** The first position from `i` on that holds no blank. */
  function SkipBlanks(t: Text, i: nat): (j: nat)
    ensures i <= |t| ==> i <= j <= |t|
    ensures j < |t| ==> !Blank(t[j])
    ensures j > i && i < |t| ==> Blank(t[i])
    decreases |t| - i
  {
    if i < |t| && Blank(t[i]) then SkipBlanks(t, i + 1) else i
  }

  function DigitsEnd(t: Text, i: nat): (j: nat)
    ensures i <= |t| ==> i <= j <= |t|
    ensures j < |t| ==> !Digit(t[j])
    decreases |t| - i
  {
    if i < |t| && Digit(t[i]) then DigitsEnd(t, i + 1) else i
  }

  predicate DigitAt(t: Text, i: nat) {
    i < |t| && Digit(t[i])
  }

  function HexDigit(c: char): Option<nat> {
    if '0' <= c <= '9' then Some(c as int - '0' as int)
    else if 'a' <= c <= 'f' then Some(c as int - 'a' as int + 10)
    else if 'A' <= c <= 'F' then Some(c as int - 'A' as int + 10)
    else None
  }

  /** Four hexadecimal digits at `i`. */
  function Hex4(t: Text, i: nat): Option<nat> {
    if i + 4 > |t| then None
    else
      var (a, b, c, d) := (HexDigit(t[i]), HexDigit(t[i + 1]), HexDigit(t[i + 2]), HexDigit(t[i + 3]));
      if a.None? || b.None? || c.None? || d.None? then None
      else Some(((a.value * 16 + b.value) * 16 + c.value) * 16 + d.value)
  }

  function Escaped(c: char): Option<int> {
    if c == '\"' || c == '\\' || c == '/' then Some(c as int)
    else if c == 'b' then Some(8)
    else if c == 'f' then Some(12)
    else if c == 'n' then Some(10)
    else if c == 'r' then Some(13)
    else if c == 't' then Some(9)
    else None
  }

  predicate HighSurrogate(unit: int) {
    0xD800 <= unit <= 0xDBFF
  }

  predicate LowSurrogate(unit: int) {
    0xDC00 <= unit <= 0xDFFF
  }

  predicate UnitEscape(t: Text, i: nat) {
    i + 1 < |t| && t[i] == '\\' && t[i + 1] == 'u'
  }

  /** One character of a string, and where the next one starts; two escapes that are a surrogate pair are one. */
  function ScanUnit(t: Text, i: nat): (r: Option<(int, nat)>)
    requires i < |t|
    ensures r.Some? ==> i < r.value.1 <= |t|
  {
    if t[i] != '\\' then Some((t[i] as int, i + 1))
    else if i + 1 >= |t| then None
    else if !UnitEscape(t, i) then
      var c := Escaped(t[i + 1]);
      if c.None? then None else Some((c.value, i + 2))
    else
      var high := Hex4(t, i + 2);
      if high.None? then None
      else if !HighSurrogate(high.value) || !UnitEscape(t, i + 6) then Some((high.value, i + 6))
      else
        var low := Hex4(t, i + 8);
        if low.None? then None
        else if !LowSurrogate(low.value) then Some((high.value, i + 6))
        else Some((0x10000 + (high.value - 0xD800) * 0x400 + (low.value - 0xDC00), i + 12))
  }

  /** The rest of a string whose opening quote has been read. */
  function ScanString(t: Text, i: nat): (r: Scanned<seq<int>>)
    ensures r.Ok? ==> i < r.next <= |t|
    ensures !r.Refused?
    decreases |t| - i
  {
    if i >= |t| || (t[i] as int) < 32 then Malformed
    else if t[i] == '\"' then Ok([], i + 1)
    else
      var unit := ScanUnit(t, i);
      if unit.None? then Malformed
      else
        var rest := ScanString(t, unit.value.1);
        if rest.Ok? then Ok([unit.value.0] + rest.value, rest.next) else Malformed
  }

  // ---------------------------------------------------------------- numbers and constants

  function WholeEnd(t: Text, i: nat): (j: nat)
    requires DigitAt(t, i)
    ensures i < j <= |t|
  {
    if t[i] == '0' then i + 1 else DigitsEnd(t, i)
  }

  function FractionEnd(t: Text, i: nat): (j: nat)
    requires i <= |t|
    ensures i <= j <= |t|
  {
    if i < |t| && t[i] == '.' && DigitAt(t, i + 1) then DigitsEnd(t, i + 1) else i
  }

  function ExponentEnd(t: Text, i: nat): (j: nat)
    requires i <= |t|
    ensures i <= j <= |t|
  {
    if i < |t| && (t[i] == 'e' || t[i] == 'E') then
      var sign := if i + 1 < |t| && (t[i + 1] == '+' || t[i + 1] == '-') then i + 2 else i + 1;
      if DigitAt(t, sign) then DigitsEnd(t, sign) else i
    else i
  }

  /** Where the digits of a number that starts at `i` start. */
  function AfterSign(t: Text, i: nat): nat
    requires i < |t|
  {
    if t[i] == '-' then i + 1 else i
  }

  function NumberEnd(t: Text, i: nat): (end: nat)
    requires i < |t| && DigitAt(t, AfterSign(t, i))
    ensures i < end <= |t|
  {
    ExponentEnd(t, FractionEnd(t, WholeEnd(t, AfterSign(t, i))))
  }

  /** A number; one without fraction and exponent is converted to an integer, which may have too many digits. */
  function ScanNumber(t: Text, i: nat): (r: Scanned<Json>)
    requires i < |t| && DigitAt(t, AfterSign(t, i))
    ensures r.Ok? ==> i < r.next <= |t| && r.value.Number?
  {
    var first := AfterSign(t, i);
    var whole, end := WholeEnd(t, first), NumberEnd(t, i);
    if end == whole && whole - first > MAX_INTEGER_DIGITS then Refused else Ok(Number(t[i..end]), end)
  }

  predicate Starts(t: Text, i: nat, word: Text) {
    i + |word| <= |t| && forall k :: 0 <= k < |word| ==> t[i + k] == word[k]
  }

  function ScanScalar(t: Text, i: nat): (r: Scanned<Json>)
    requires i < |t|
    ensures r.Ok? ==> i < r.next <= |t| && !r.value.Obj?
  {
    if Starts(t, i, "null") then Ok(Null, i + 4)
    else if Starts(t, i, "true") then Ok(Bool(true), i + 4)
    else if Starts(t, i, "false") then Ok(Bool(false), i + 5)
    else if DigitAt(t, AfterSign(t, i)) then ScanNumber(t, i)
    else if Starts(t, i, "NaN") then Ok(Number("NaN"), i + 3)
    else if Starts(t, i, "Infinity") then Ok(Number("Infinity"), i + 8)
    else if Starts(t, i, "-Infinity") then Ok(Number("-Infinity"), i + 9)
    else Malformed
  }

  // ---------------------------------------------------------------- values

  /** The failure of one part as that of the whole. */
  function Fail<T, U>(r: Scanned<T>): (f: Scanned<U>)
    ensures !f.Ok?
  {
    if r.Refused? then Refused else Malformed
  }

  function ScanValue(t: Text, i: nat): (r: Scanned<Json>)
    ensures r.Ok? ==> i < r.next <= |t| && (r.value.Obj? <==> t[i] == '{')
    ensures r.Refused? ==> i < |t|
    decreases |t| - i, 2
  {
    if i >= |t| then Malformed
    else if t[i] == '\"' then
      var s := ScanString(t, i + 1);
      if s.Ok? then Ok(Str(s.value), s.next) else Malformed
    else if t[i] == '{' then ScanObject(t, i)
    else if t[i] == '[' then ScanArray(t, i)
    else ScanScalar(t, i)
  }

  function ScanObject(t: Text, i: nat): (r: Scanned<Json>)
    requires i < |t| && t[i] == '{'
    ensures r.Ok? ==> i < r.next <= |t| && r.value.Obj?
    decreases |t| - i, 1
  {
    var j := SkipBlanks(t, i + 1);
    if j >= |t| then Malformed
    else if t[j] == '}' then Ok(Obj([]), j + 1)
    else
      var m := ScanMembers(t, j);
      if m.Ok? then Ok(Obj(m.value), m.next) else Fail(m)
  }

  function ScanArray(t: Text, i: nat): (r: Scanned<Json>)
    requires i < |t| && t[i] == '['
    ensures r.Ok? ==> i < r.next <= |t| && r.value.Arr?
    decreases |t| - i, 1
  {
    var j := SkipBlanks(t, i + 1);
    if j >= |t| then Malformed
    else if t[j] == ']' then Ok(Arr([]), j + 1)
    else
      var m := ScanElements(t, j);
      if m.Ok? then Ok(Arr(m.value), m.next) else Fail(m)
  }

  /** The key of a member, and where its value starts. */
  function ScanKey(t: Text, i: nat): (r: Scanned<seq<int>>)
    ensures r.Ok? ==> i < r.next <= |t|
    ensures !r.Refused?
  {
    if i >= |t| || t[i] != '\"' then Malformed
    else
      var key := ScanString(t, i + 1);
      if !key.Ok? then Malformed
      else
        var colon := SkipBlanks(t, key.next);
        if colon >= |t| || t[colon] != ':' then Malformed else Ok(key.value, SkipBlanks(t, colon + 1))
  }

  /** What follows an item inside brackets: the closing bracket and where the text goes on, or a comma and where the
      next item starts. */
  datatype Follow = Closed(next: nat) | Comma(next: nat) | Neither

  function ScanFollow(t: Text, i: nat, close: char): (f: Follow)
    requires i <= |t|
    ensures !f.Neither? ==> i < f.next <= |t|
  {
    var after := SkipBlanks(t, i);
    if after >= |t| then Neither
    else if t[after] == close then Closed(after + 1)
    else if t[after] == ',' then Comma(SkipBlanks(t, after + 1))
    else Neither
  }

  function Prepend<T>(first: T, rest: Scanned<seq<T>>): Scanned<seq<T>> {
    if rest.Ok? then Ok([first] + rest.value, rest.next) else rest
  }

  /** One member of an object, and where it ends. */
  function ScanMember(t: Text, i: nat): (r: Scanned<(seq<int>, Json)>)
    ensures r.Ok? ==> i < r.next <= |t|
    ensures r.Refused? ==> i < |t|
    decreases |t| - i, 0
  {
    var key := ScanKey(t, i);
    if !key.Ok? then Malformed
    else
      var value := ScanValue(t, key.next);
      if value.Ok? then Ok((key.value, value.value), value.next) else Fail(value)
  }

  /** One or more members of an object, up to and including its closing brace. */
  function ScanMembers(t: Text, i: nat): (r: Scanned<seq<(seq<int>, Json)>>)
    ensures r.Ok? ==> i < r.next <= |t|
    ensures r.Refused? ==> i < |t|
    decreases |t| - i, 1
  {
    var m := ScanMember(t, i);
    if !m.Ok? then Fail(m)
    else
      match ScanFollow(t, m.next, '}')
      case Closed(next) => Ok([m.value], next)
      case Comma(next) => Prepend(m.value, ScanMembers(t, next))
      case Neither => Malformed
  }

  function ScanElements(t: Text, i: nat): (r: Scanned<seq<Json>>)
    ensures r.Ok? ==> i < r.next <= |t|
    ensures r.Refused? ==> i < |t|
    decreases |t| - i, 3
  {
    var e := ScanValue(t, i);
    if !e.Ok? then Fail(e)
    else
      match ScanFollow(t, e.next, ']')
      case Closed(next) => Ok([e.value], next)
      case Comma(next) => Prepend(e.value, ScanElements(t, next))
      case Neither => Malformed
  }

  /** JSONDecoder.raw_decode: the value the text starts with, and where it ends. */
  function RawDecode(t: Text): (r: Scanned<Json>)
    ensures r.Ok? ==> 0 < r.next <= |t| && (r.value.Obj? <==> t[0] == '{')
  {
    ScanValue(t, 0)
  }

  // ---------------------------------------------------------------- what more text cannot change

  // Each lemma of this section compares a text `t` with a longer one, `t + u`. It holds if what is scanned is decided
  // inside `t`, as seen from either of the two.

  lemma {:induction false} BlanksStable(t: Text, u: Text, i: nat)
    requires SkipBlanks(t, i) < |t| || SkipBlanks(t + u, i) < |t|
    ensures SkipBlanks(t + u, i) == SkipBlanks(t, i)
    decreases |t| - i
  {
    if i < |t| && Blank(t[i]) {
      BlanksStable(t, u, i + 1);
    }
  }

  lemma {:induction false} DigitsStable(t: Text, u: Text, i: nat)
    requires DigitsEnd(t, i) < |t| || DigitsEnd(t + u, i) < |t|
    ensures DigitsEnd(t + u, i) == DigitsEnd(t, i)
    decreases |t| - i
  {
    if i < |t| && Digit(t[i]) {
      DigitsStable(t, u, i + 1);
    }
  }

  predicate Inside<T>(t: Text, r: Scanned<T>) {
    r.Ok? && r.next <= |t|
  }

  /** A string that goes on with an escape of a code unit goes on beyond it. */
  lemma EscapeInside(t: Text, i: nat)
    requires UnitEscape(t, i) && ScanString(t, i).Ok?
    ensures i + 6 < ScanString(t, i).next
  {
  }

  lemma Hex4Stable(t: Text, u: Text, i: nat)
    requires i + 4 <= |t|
    ensures Hex4(t + u, i) == Hex4(t, i)
  {
  }

  /** Whether an escape of a code unit goes on a string is plain, if the string ends inside the text. */
  lemma EscapeStable(t: Text, u: Text, i: nat)
    requires ScanString(t, i).Ok?
    ensures UnitEscape(t + u, i) <==> UnitEscape(t, i)
  {
    assert i < |t| && (t + u)[i] == t[i];
  }

  lemma UnitStable(t: Text, u: Text, i: nat)
    requires i < |t| && ScanUnit(t, i).Some?
    requires ScanUnit(t, i).value.1 == i + 6 ==> (UnitEscape(t + u, i + 6) <==> UnitEscape(t, i + 6))
    ensures ScanUnit(t + u, i) == ScanUnit(t, i)
  {
    if UnitEscape(t, i) {
      Hex4Stable(t, u, i + 2);
      if UnitEscape(t, i + 6) && HighSurrogate(Hex4(t, i + 2).value) {
        Hex4Stable(t, u, i + 8);
      }
    }
  }

  lemma UnitStableBack(t: Text, u: Text, i: nat)
    requires i < |t| && ScanUnit(t + u, i).Some? && Inside(t, ScanString(t + u, ScanUnit(t + u, i).value.1))
    ensures ScanUnit(t + u, i) == ScanUnit(t, i)
  {
    if UnitEscape(t + u, i) {
      Hex4Stable(t, u, i + 2);
      if UnitEscape(t + u, i + 6) && HighSurrogate(Hex4(t, i + 2).value) {
        if ScanUnit(t + u, i).value.1 == i + 6 {
          EscapeInside(t + u, i + 6);
        }
        Hex4Stable(t, u, i + 8);
      }
    }
  }

  lemma {:induction false} StringStable(t: Text, u: Text, i: nat)
    requires Inside(t, ScanString(t, i)) || Inside(t, ScanString(t + u, i))
    ensures ScanString(t + u, i) == ScanString(t, i)
    decreases |t| - i
  {
    assert i < |t| && (t + u)[i] == t[i];
    if t[i] != '\"' {
      if Inside(t, ScanString(t, i)) {
        EscapeStable(t, u, ScanUnit(t, i).value.1);
        UnitStable(t, u, i);
      } else {
        UnitStableBack(t, u, i);
      }
      StringStable(t, u, ScanUnit(t, i).value.1);
    }
  }

  /** A character that cannot continue a number. */
  predicate EndsNumber(c: char) {
    !Digit(c) && c != '.' && c != 'e' && c != 'E'
  }

  /** Nothing that more text could change: the value ends where a further character cannot belong to it. */
  predicate Settled(t: Text, j: nat) {
    j < |t| && EndsNumber(t[j])
  }

  lemma WholeStable(t: Text, u: Text, i: nat)
    requires DigitAt(t, i) && (WholeEnd(t, i) < |t| || WholeEnd(t + u, i) < |t|)
    ensures WholeEnd(t + u, i) == WholeEnd(t, i)
  {
    if t[i] != '0' {
      DigitsStable(t, u, i);
    }
  }

  predicate NoFurtherDot(t: Text, i: nat, j: nat) {
    j < |t| && (t[j] != '.' || j > i)
  }

  lemma FractionStable(t: Text, u: Text, i: nat)
    requires i <= |t|
    requires NoFurtherDot(t, i, FractionEnd(t, i)) || NoFurtherDot(t, i, FractionEnd(t + u, i))
    ensures FractionEnd(t + u, i) == FractionEnd(t, i)
  {
    if i < |t| && t[i] == '.' && DigitAt(t, i + 1) {
      DigitsStable(t, u, i + 1);
    }
  }

  lemma ExponentStable(t: Text, u: Text, i: nat)
    requires i < |t| && (Settled(t, ExponentEnd(t, i)) || Settled(t, ExponentEnd(t + u, i)))
    ensures ExponentEnd(t + u, i) == ExponentEnd(t, i)
  {
    if t[i] == 'e' || t[i] == 'E' {
      var sign := if i + 1 < |t| && (t[i + 1] == '+' || t[i + 1] == '-') then i + 2 else i + 1;
      if DigitAt(t, sign) {
        DigitsStable(t, u, sign);
      }
    }
  }
  lemma NumberStable(t: Text, u: Text, i: nat)
    requires i < |t| && DigitAt(t, AfterSign(t, i))
    requires Settled(t, NumberEnd(t, i)) || Settled(t, NumberEnd(t + u, i))
    ensures NumberEnd(t + u, i) == NumberEnd(t, i) && WholeEnd(t + u, AfterSign(t, i)) == WholeEnd(t, AfterSign(t, i))
  {
    var first := AfterSign(t, i);
    WholeStable(t, u, first);
    var whole := WholeEnd(t, first);
    FractionStable(t, u, whole);
    ExponentStable(t, u, FractionEnd(t, whole));
  }

  lemma StartsStable(t: Text, u: Text, i: nat, word: Text)
    requires i + |word| <= |t|
    ensures Starts(t + u, i, word) <==> Starts(t, i, word)
  {
    assert (t + u)[i..i + |word|] == t[i..i + |word|];
  }

  lemma StartsOnlyThere(t: Text, i: nat, word: Text)
    requires word != [] && i < |t| && t[i] != word[0]
    ensures !Starts(t, i, word)
  {
    assert i + |word| <= |t| ==> t[i..i + |word|][0] == t[i];
  }

  /** A number does not start like a constant. */
  lemma NumberOrConstant(t: Text, i: nat)
    requires i < |t| && DigitAt(t, AfterSign(t, i))
    ensures ScanScalar(t, i) == ScanNumber(t, i)
  {
    StartsOnlyThere(t, i, "null");
    StartsOnlyThere(t, i, "true");
    StartsOnlyThere(t, i, "false");
  }

  predicate IsConstant(word: Text) {
    word in ["null", "true", "false", "NaN", "Infinity", "-Infinity"]
  }

  function ConstantAt(t: Text, i: nat): (word: Text)
    requires i < |t| && ScanScalar(t, i).Ok? && !DigitAt(t, AfterSign(t, i))
    ensures Starts(t, i, word) && IsConstant(word) && ScanScalar(t, i).next == i + |word|
  {
    if Starts(t, i, "null") then "null"
    else if Starts(t, i, "true") then "true"
    else if Starts(t, i, "false") then "false"
    else if Starts(t, i, "NaN") then "NaN"
    else if Starts(t, i, "Infinity") then "Infinity"
    else "-Infinity"
  }

  function ConstantValue(word: Text): Json {
    if word == "null" then Null
    else if word == "true" then Bool(true)
    else if word == "false" then Bool(false)
    else Number(word)
  }

  /** The constant a text starts with is what is scanned. */
  lemma ConstantDecides(t: Text, i: nat, word: Text)
    requires Starts(t, i, word) && IsConstant(word)
    ensures i < |t| && ScanScalar(t, i) == Ok(ConstantValue(word), i + |word|)
  {
    assert t[i] == t[i..i + |word|][0] == word[0];
    assert t[i + 1] == t[i..i + |word|][1] == word[1];
    if word != "null" {
      StartsOnlyThere(t, i, "null");
    }
    if word != "true" {
      StartsOnlyThere(t, i, "true");
    }
    if word != "false" {
      StartsOnlyThere(t, i, "false");
    }
    if word != "NaN" {
      StartsOnlyThere(t, i, "NaN");
    }
    if word != "Infinity" {
      StartsOnlyThere(t, i, "Infinity");
    }
  }

  /** What is scanned ends inside the text, at a bracket of its own or where nothing further can belong to it. */
  predicate Decided<T>(t: Text, i: nat, r: Scanned<T>) {
    Inside(t, r) && i < |t| && (t[i] == '{' || Settled(t, r.next))
  }

  lemma ScalarStable(t: Text, u: Text, i: nat)
    requires i < |t| && t[i] != '{' && (Decided(t, i, ScanScalar(t, i)) || Decided(t, i, ScanScalar(t + u, i)))
    ensures ScanScalar(t + u, i) == ScanScalar(t, i)
  {
    if DigitAt(t + u, AfterSign(t, i)) {
      NumberOrConstant(t + u, i);
      NumberOrConstant(t, i);
      NumberStable(t, u, i);
      assert (t + u)[i..NumberEnd(t, i)] == t[i..NumberEnd(t, i)];
    } else if ScanScalar(t, i).Ok? && ScanScalar(t, i).next < |t| {
      SameConstant(t, u, i, ConstantAt(t, i));
    } else {
      SameConstant(t, u, i, ConstantAt(t + u, i));
    }
  }

  lemma SameConstant(t: Text, u: Text, i: nat, word: Text)
    requires i + |word| <= |t| && IsConstant(word) && (Starts(t, i, word) || Starts(t + u, i, word))
    ensures i < |t| && ScanScalar(t + u, i) == ScanScalar(t, i)
  {
    StartsStable(t, u, i, word);
    ConstantDecides(t, i, word);
    ConstantDecides(t + u, i, word);
  }

  /** More text changes no value that is bracketed or settled; and one that a longer text has there is the same. */
  lemma {:induction false} ValueStable(t: Text, u: Text, i: nat)
    requires Decided(t, i, ScanValue(t, i)) || Decided(t, i, ScanValue(t + u, i))
    ensures ScanValue(t + u, i) == ScanValue(t, i)
    decreases |t| - i, 2
  {
    assert (t + u)[i] == t[i];
    if t[i] == '\"' {
      StringStable(t, u, i + 1);
    } else if t[i] == '{' {
      ObjectStable(t, u, i);
    } else if t[i] == '[' {
      ArrayStable(t, u, i);
    } else {
      ScalarStable(t, u, i);
    }
  }

  lemma {:induction false} ObjectStable(t: Text, u: Text, i: nat)
    requires i < |t| && t[i] == '{' && (Inside(t, ScanObject(t, i)) || Inside(t, ScanObject(t + u, i)))
    ensures ScanObject(t + u, i) == ScanObject(t, i)
    decreases |t| - i, 1
  {
    BlanksStable(t, u, i + 1);
    var j := SkipBlanks(t, i + 1);
    if t[j] != '}' {
      MembersStable(t, u, j);
    }
  }

  lemma {:induction false} ArrayStable(t: Text, u: Text, i: nat)
    requires i < |t| && t[i] == '[' && (Inside(t, ScanArray(t, i)) || Inside(t, ScanArray(t + u, i)))
    ensures ScanArray(t + u, i) == ScanArray(t, i)
    decreases |t| - i, 1
  {
    BlanksStable(t, u, i + 1);
    var j := SkipBlanks(t, i + 1);
    if t[j] != ']' {
      ElementsStable(t, u, j);
    }
  }

  /** A bracket or a comma with an item behind it, all inside the text. */
  predicate FollowInside(t: Text, f: Follow) {
    (f.Closed? && f.next <= |t|) || (f.Comma? && f.next < |t|)
  }

  /** What follows an item inside brackets settles it. */
  lemma FollowStable(t: Text, u: Text, i: nat, close: char)
    requires i <= |t| && close in ['}', ']']
    requires FollowInside(t, ScanFollow(t, i, close)) || FollowInside(t, ScanFollow(t + u, i, close))
    ensures Settled(t, i)
    ensures ScanFollow(t + u, i, close) == ScanFollow(t, i, close)
  {
    BlanksStable(t, u, i);
    var after := SkipBlanks(t, i);
    if t[after] == ',' {
      BlanksStable(t, u, after + 1);
    }
  }

  lemma KeyStable(t: Text, u: Text, i: nat)
    requires (ScanKey(t, i).Ok? && ScanKey(t, i).next < |t|) || (ScanKey(t + u, i).Ok? && ScanKey(t + u, i).next < |t|)
    ensures ScanKey(t + u, i) == ScanKey(t, i)
  {
    StringStable(t, u, i + 1);
    var end := ScanString(t, i + 1).next;
    BlanksStable(t, u, end);
    BlanksStable(t, u, SkipBlanks(t, end) + 1);
  }

  predicate Ended<T>(t: Text, r: Scanned<T>) {
    r.Ok? && Settled(t, r.next)
  }

  lemma {:induction false} MemberStable(t: Text, u: Text, i: nat)
    requires Ended(t, ScanMember(t, i)) || Ended(t, ScanMember(t + u, i))
    ensures ScanMember(t + u, i) == ScanMember(t, i)
    decreases |t| - i, 0
  {
    KeyStable(t, u, i);
    ValueStable(t, u, ScanKey(t, i).next);
  }

  lemma {:induction false} MembersStable(t: Text, u: Text, i: nat)
    requires Inside(t, ScanMembers(t, i)) || Inside(t, ScanMembers(t + u, i))
    ensures ScanMembers(t + u, i) == ScanMembers(t, i)
    decreases |t| - i, 1
  {
    var m := if Inside(t, ScanMembers(t, i)) then ScanMember(t, i) else ScanMember(t + u, i);
    FollowStable(t, u, m.next, '}');
    MemberStable(t, u, i);
    if ScanFollow(t, m.next, '}').Comma? {
      MembersStable(t, u, ScanFollow(t, m.next, '}').next);
    }
  }

  lemma {:induction false} ElementsStable(t: Text, u: Text, i: nat)
    requires Inside(t, ScanElements(t, i)) || Inside(t, ScanElements(t + u, i))
    ensures ScanElements(t + u, i) == ScanElements(t, i)
    decreases |t| - i, 3
  {
    var e := if Inside(t, ScanElements(t, i)) then ScanValue(t, i) else ScanValue(t + u, i);
    FollowStable(t, u, e.next, ']');
    ValueStable(t, u, i);
    if ScanFollow(t, e.next, ']').Comma? {
      ElementsStable(t, u, ScanFollow(t, e.next, ']').next);
    }
  }

  /** An object decoded from a prefix of a text is the object decoded from the whole text, and an object that the whole
      text starts with is decoded from every prefix that holds it. */
  lemma ObjectPrefixStable(t: Text, u: Text)
    requires t != [] && t[0] == '{' && (Inside(t, RawDecode(t)) || Inside(t, RawDecode(t + u)))
    ensures RawDecode(t + u) == RawDecode(t)
  {
    ValueStable(t, u, 0);
  }
}
