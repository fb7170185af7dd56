/** The grammar of RFC 8259 as a relation between a stretch of a text and a value, and that the decoder decides it: it
    gives a value and an end if and only if the text is one of that value up to there. */
module JsonGrammar {
  import opened Characters
  import opened JsonText
  import opened Prelude

  // ---------------------------------------------------------------- the grammar

  /** White space: section 2. */
  ghost predicate WhiteSpace(c: char) {
    c == ' ' || c == '\t' || c == '\n' || c == '\r'
  }

  ghost predicate White(t: Text, i: nat, j: nat) {
    i <= j <= |t| && forall k {:trigger WhiteSpace(t[k])} :: i <= k < j ==> WhiteSpace(t[k])
  }

  ghost predicate At(t: Text, i: nat, c: char) {
    i < |t| && t[i] == c
  }

  /** Numbers: section 6. */
  ghost predicate Digits(t: Text, i: nat, j: nat) {
    i < j <= |t| && forall k :: i <= k < j ==> '0' <= t[k] <= '9'
  }

  ghost predicate Whole(t: Text, i: nat, j: nat) {
    Digits(t, i, j) && (t[i] == '0' ==> j == i + 1)
  }

  ghost predicate Fraction(t: Text, i: nat, j: nat) {
    i == j || (At(t, i, '.') && Digits(t, i + 1, j))
  }

  ghost predicate Exponent(t: Text, i: nat, j: nat) {
    || i == j
    || ((At(t, i, 'e') || At(t, i, 'E'))
        && Digits(t, if At(t, i + 1, '+') || At(t, i + 1, '-') then i + 2 else i + 1, j))
  }

  /** `point` is where the whole part ends, `e` where the fraction does. */
  ghost predicate NumberParts(t: Text, i: nat, point: nat, e: nat, j: nat) {
    Whole(t, if At(t, i, '-') then i + 1 else i, point) && Fraction(t, point, e) && Exponent(t, e, j)
  }

  ghost predicate IsNumber(t: Text, i: nat, j: nat) {
    exists point: nat, e: nat :: NumberParts(t, i, point, e, j)
  }

  /** The decoder takes as much as a number can have, and refuses an integer of more than 4300 digits. */
  ghost predicate NumberAt(t: Text, i: nat, j: nat) {
    && IsNumber(t, i, j) && (forall longer: nat :: IsNumber(t, i, longer) ==> longer <= j)
    && (NumberParts(t, i, j, j, j) ==> j - (if At(t, i, '-') then i + 1 else i) <= 4300)
  }

  /** Strings: section 7. A character escaped by a letter. */
  ghost predicate Lettered(c: char, point: int) {
    || (c == '\"' && point == 34) || (c == '\\' && point == 92) || (c == '/' && point == 47)
    || (c == 'b' && point == 8) || (c == 'f' && point == 12) || (c == 'n' && point == 10)
    || (c == 'r' && point == 13) || (c == 't' && point == 9)
  }

  ghost predicate HexOf(c: char, n: nat) {
    || ('0' <= c <= '9' && c as int == 48 + n)
    || ('a' <= c <= 'f' && c as int == 97 + (n - 10))
    || ('A' <= c <= 'F' && c as int == 65 + (n - 10))
  }

  ghost predicate HexesAt(t: Text, i: nat, p: nat, q: nat, r: nat, s: nat) {
    && At(t, i, '\\') && At(t, i + 1, 'u') && i + 6 <= |t|
    && HexOf(t[i + 2], p) && HexOf(t[i + 3], q) && HexOf(t[i + 4], r) && HexOf(t[i + 5], s)
  }

  /** An escape by number. */
  ghost predicate CodeAt(t: Text, i: nat, code: int) {
    exists p: nat, q: nat, r: nat, s: nat ::
      HexesAt(t, i, p, q, r, s) && code == p * 4096 + q * 256 + r * 16 + s
  }

  ghost predicate PairAt(t: Text, i: nat, high: int, low: int) {
    CodeAt(t, i, high) && CodeAt(t, i + 6, low) && 0xD800 <= high < 0xDC00 && 0xDC00 <= low < 0xE000
  }

  ghost predicate SingleAt(t: Text, i: nat, code: int) {
    CodeAt(t, i, code) && !exists low :: PairAt(t, i, code, low)
  }

  ghost predicate RawAt(t: Text, i: nat, point: int) {
    i < |t| && t[i] as int >= 32 && t[i] != '\"' && t[i] != '\\' && point == t[i] as int
  }

  ghost predicate ShortAt(t: Text, i: nat, point: int) {
    At(t, i, '\\') && i + 1 < |t| && Lettered(t[i + 1], point)
  }

  ghost predicate LongAt(t: Text, i: nat, point: int) {
    exists high, low :: PairAt(t, i, high, low) && point == 0x10000 + (high - 0xD800) * 0x400 + (low - 0xDC00)
  }

  ghost predicate CharacterAt(t: Text, i: nat, j: nat, point: int) {
    || (RawAt(t, i, point) && j == i + 1)
    || (ShortAt(t, i, point) && j == i + 2)
    || (SingleAt(t, i, point) && j == i + 6)
    || (LongAt(t, i, point) && j == i + 12)
  }

  /** The text is cut into the spellings of the points. */
  ghost predicate Spelled(t: Text, cuts: seq<nat>, points: seq<int>) {
    && |cuts| == |points| + 1
    && forall k, l {:trigger CharacterAt(t, cuts[k], cuts[l], points[k])} :: 0 <= k < |points| && l == k + 1 ==>
         CharacterAt(t, cuts[k], cuts[l], points[k])
  }

  /** From `i` to a quotation mark at `j`. */
  ghost predicate StringAt(t: Text, i: nat, j: nat, points: seq<int>) {
    At(t, j, '\"') && exists cuts :: Spelled(t, cuts, points) && cuts[0] == i && cuts[|points|] == j
  }

  /** Scalars: sections 3 and 6, and the three constants that the RFC does not have. */
  ghost predicate ScalarAt(t: Text, i: nat, j: nat, value: Json) {
    match value
    case Null => Starts(t, i, "null") && j == i + 4
    case Bool(b) => if b then Starts(t, i, "true") && j == i + 4 else Starts(t, i, "false") && j == i + 5
    case Number(written) =>
      && i <= j <= |t| && written == t[i..j]
      && (NumberAt(t, i, j) || written == "NaN" || written == "Infinity" || written == "-Infinity")
    case _ => false
  }

  /** Values: sections 3 to 5. */
  ghost predicate ValueAt(t: Text, i: nat, j: nat, value: Json)
    decreases value, 0
  {
    match value
    case Str(points) => At(t, i, '\"') && j > 0 && StringAt(t, i + 1, j - 1, points)
    case Arr(items) => At(t, i, '[') && if items == [] then EmptyAt(t, i + 1, j, ']') else ItemsAt(t, i + 1, j, items)
    case Obj(members) =>
      At(t, i, '{') && if members == [] then EmptyAt(t, i + 1, j, '}') else MembersAt(t, i + 1, j, members)
    case _ => ScalarAt(t, i, j, value)
  }

  ghost predicate EmptyAt(t: Text, i: nat, j: nat, close: char) {
    j > 0 && White(t, i, j - 1) && At(t, j - 1, close)
  }

  /** White space around what goes from `a` to `b`. */
  ghost predicate Around(t: Text, i: nat, a: nat, b: nat, j: nat) {
    White(t, i, a) && White(t, b, j)
  }

  ghost predicate ItemsAt(t: Text, i: nat, j: nat, items: seq<Json>)
    requires items != []
    decreases items, 1
  {
    exists a: nat, b: nat, c: nat ::
      Around(t, i, a, b, c) && ValueAt(t, a, b, items[0]) && MoreItemsAt(t, c, j, items[1..])
  }

  ghost predicate MoreItemsAt(t: Text, c: nat, j: nat, rest: seq<Json>)
    decreases rest, 2
  {
    if rest == [] then At(t, c, ']') && j == c + 1 else At(t, c, ',') && ItemsAt(t, c + 1, j, rest)
  }

  /** Where the parts of a member are: the quotation marks of its key, the colon, its value, and what follows. */
  datatype Places = Places(key: nat, keyEnd: nat, colon: nat, value: nat, valueEnd: nat, next: nat)

  ghost predicate KeyAt(t: Text, i: nat, a: nat, b: nat, colon: nat, key: seq<int>) {
    && White(t, i, a) && At(t, a, '\"') && StringAt(t, a + 1, b, key)
    && White(t, b + 1, colon) && At(t, colon, ':')
  }

  ghost predicate PairShape(t: Text, i: nat, at: Places, key: seq<int>) {
    KeyAt(t, i, at.key, at.keyEnd, at.colon, key) && Around(t, at.colon + 1, at.value, at.valueEnd, at.next)
  }

  ghost predicate PairValueAt(t: Text, c: nat, d: nat, member: (seq<int>, Json))
    decreases member, 1
  {
    ValueAt(t, c, d, member.1)
  }

  ghost predicate MembersAt(t: Text, i: nat, j: nat, members: seq<(seq<int>, Json)>)
    requires members != []
    decreases members, 1
  {
    exists at ::
      && PairShape(t, i, at, members[0].0) && PairValueAt(t, at.value, at.valueEnd, members[0])
      && MoreMembersAt(t, at.next, j, members[1..])
  }

  ghost predicate MoreMembersAt(t: Text, c: nat, j: nat, rest: seq<(seq<int>, Json)>)
    decreases rest, 2
  {
    if rest == [] then At(t, c, '}') && j == c + 1 else At(t, c, ',') && MembersAt(t, c + 1, j, rest)
  }

  // ---------------------------------------------------------------- blanks

  lemma {:induction false} WhiteSkipped(t: Text, i: nat, j: nat)
    requires White(t, i, j) && (j < |t| ==> !Blank(t[j]))
    ensures SkipBlanks(t, i) == j
    decreases j - i
  {
    if i < j {
      assert WhiteSpace(t[i]);
      WhiteSkipped(t, i + 1, j);
    }
  }

  lemma {:induction false} SkippedIsWhite(t: Text, i: nat)
    requires i <= |t|
    ensures White(t, i, SkipBlanks(t, i))
    decreases |t| - i
  {
    if i < |t| && Blank(t[i]) {
      SkippedIsWhite(t, i + 1);
    }
  }

  // ---------------------------------------------------------------- numbers

  lemma {:induction false} DigitsBound(t: Text, i: nat, j: nat)
    requires Digits(t, i, j)
    ensures j <= DigitsEnd(t, i)
    decreases j - i
  {
    if i + 1 < j {
      DigitsBound(t, i + 1, j);
    }
  }

  lemma {:induction false} DigitsEndAreDigits(t: Text, i: nat)
    ensures DigitAt(t, i) ==> Digits(t, i, DigitsEnd(t, i))
    decreases |t| - i
  {
    if DigitAt(t, i) {
      DigitsEndAreDigits(t, i + 1);
    }
  }

  lemma ScannedParts(t: Text, i: nat)
    requires i < |t| && DigitAt(t, AfterSign(t, i))
    ensures var point := WholeEnd(t, AfterSign(t, i)); NumberParts(t, i, point, FractionEnd(t, point), NumberEnd(t, i))
  {
    var point := WholeEnd(t, AfterSign(t, i));
    var e := FractionEnd(t, point);
    DigitsEndAreDigits(t, AfterSign(t, i));
    DigitsEndAreDigits(t, point + 1);
    DigitsEndAreDigits(t, e + 1);
    DigitsEndAreDigits(t, e + 2);
  }

  lemma WholeBound(t: Text, i: nat, j: nat)
    requires Whole(t, i, j)
    ensures DigitAt(t, i) && j <= WholeEnd(t, i)
    ensures j < WholeEnd(t, i) ==> DigitAt(t, j)
  {
    DigitsBound(t, i, j);
    DigitsEndAreDigits(t, i);
  }

  lemma FractionBound(t: Text, i: nat, j: nat)
    requires i <= |t| && Fraction(t, i, j)
    ensures j <= FractionEnd(t, i)
    ensures j < FractionEnd(t, i) ==> (j == i && At(t, i, '.')) || DigitAt(t, j)
  {
    if j > i {
      DigitsBound(t, i + 1, j);
      DigitsEndAreDigits(t, i + 1);
    }
  }

  lemma ExponentBound(t: Text, i: nat, j: nat)
    requires i <= |t| && Exponent(t, i, j)
    ensures j <= ExponentEnd(t, i)
  {
    if j > i {
      DigitsBound(t, if At(t, i + 1, '+') || At(t, i + 1, '-') then i + 2 else i + 1, j);
    }
  }

  lemma PartsBound(t: Text, i: nat, point: nat, e: nat, j: nat)
    requires NumberParts(t, i, point, e, j)
    ensures i < |t| && DigitAt(t, AfterSign(t, i)) && j <= NumberEnd(t, i)
  {
    WholeBound(t, AfterSign(t, i), point);
    FractionBound(t, point, e);
    ExponentBound(t, e, j);
  }

  /** The decoder ends a number exactly where the longest one ends. */
  lemma NumberDecided(t: Text, i: nat, j: nat)
    requires i < |t|
    ensures NumberAt(t, i, j) <==>
            DigitAt(t, AfterSign(t, i)) && ScanNumber(t, i).Ok? && ScanNumber(t, i).next == j
  {
    forall point: nat, e: nat, end: nat | NumberParts(t, i, point, e, end)
      ensures DigitAt(t, AfterSign(t, i)) && end <= NumberEnd(t, i)
    {
      PartsBound(t, i, point, e, end);
    }
    if DigitAt(t, AfterSign(t, i)) {
      ScannedParts(t, i);
      assert IsNumber(t, i, NumberEnd(t, i));
      if NumberParts(t, i, NumberEnd(t, i), NumberEnd(t, i), NumberEnd(t, i)) {
        WholeBound(t, AfterSign(t, i), NumberEnd(t, i));
      }
    }
  }

  // ---------------------------------------------------------------- strings

  lemma CodeDecided(t: Text, i: nat, code: int)
    ensures CodeAt(t, i, code) <==> UnitEscape(t, i) && Hex4(t, i + 2).Some? && Hex4(t, i + 2).value == code
  {
    if UnitEscape(t, i) && Hex4(t, i + 2).Some? && Hex4(t, i + 2).value == code {
      assert HexesAt(t, i, HexDigit(t[i + 2]).value, HexDigit(t[i + 3]).value,
                     HexDigit(t[i + 4]).value, HexDigit(t[i + 5]).value);
    }
  }

  lemma PairDecided(t: Text, i: nat, high: int, low: int)
    ensures PairAt(t, i, high, low) <==>
            && UnitEscape(t, i) && Hex4(t, i + 2).Some? && Hex4(t, i + 2).value == high && HighSurrogate(high)
            && UnitEscape(t, i + 6) && Hex4(t, i + 8).Some? && Hex4(t, i + 8).value == low && LowSurrogate(low)
  {
    CodeDecided(t, i, high);
    CodeDecided(t, i + 6, low);
  }

  lemma UnitScanned(t: Text, i: nat)
    requires i < |t| && t[i] as int >= 32 && t[i] != '\"' && ScanUnit(t, i).Some?
    ensures CharacterAt(t, i, ScanUnit(t, i).value.1, ScanUnit(t, i).value.0)
  {
    if UnitEscape(t, i) {
      var high := Hex4(t, i + 2).value;
      CodeDecided(t, i, high);
      if ScanUnit(t, i).value.1 == i + 12 {
        PairDecided(t, i, high, Hex4(t, i + 8).value);
      } else {
        forall low
          ensures !PairAt(t, i, high, low)
        {
          PairDecided(t, i, high, low);
        }
      }
    }
  }

  /** The next character can be read, starting as it does. */
  predicate Reads(t: Text, i: nat, point: int, k: nat) {
    i < |t| && t[i] as int >= 32 && t[i] != '\"' && ScanUnit(t, i) == Some((point, k))
  }

  lemma ShortRead(t: Text, i: nat, point: int)
    requires ShortAt(t, i, point)
    ensures Reads(t, i, point, i + 2)
  {
  }

  lemma SingleRead(t: Text, i: nat, point: int)
    requires SingleAt(t, i, point) && (UnitEscape(t, i + 6) ==> Hex4(t, i + 8).Some?)
    ensures Reads(t, i, point, i + 6)
  {
    CodeDecided(t, i, point);
    if UnitEscape(t, i + 6) {
      PairDecided(t, i, point, Hex4(t, i + 8).value);
    }
  }

  lemma SurrogatesRead(t: Text, i: nat)
    requires UnitEscape(t, i) && Hex4(t, i + 2).Some? && HighSurrogate(Hex4(t, i + 2).value)
    requires UnitEscape(t, i + 6) && Hex4(t, i + 8).Some? && LowSurrogate(Hex4(t, i + 8).value)
    ensures var (high, low) := (Hex4(t, i + 2).value, Hex4(t, i + 8).value);
            Reads(t, i, 0x10000 + (high - 0xD800) * 0x400 + (low - 0xDC00), i + 12)
  {
  }

  lemma LongRead(t: Text, i: nat, point: int)
    requires LongAt(t, i, point)
    ensures Reads(t, i, point, i + 12)
  {
    var high, low :| PairAt(t, i, high, low) && point == 0x10000 + (high - 0xD800) * 0x400 + (low - 0xDC00);
    PairDecided(t, i, high, low);
    SurrogatesRead(t, i);
  }

  /** A character is read as what it stands for, unless it is a high surrogate before an escape that is none. */
  lemma CharacterRead(t: Text, i: nat, k: nat, point: int)
    requires CharacterAt(t, i, k, point) && (UnitEscape(t, k) ==> Hex4(t, k + 2).Some?)
    ensures Reads(t, i, point, k)
  {
    if ShortAt(t, i, point) && k == i + 2 {
      ShortRead(t, i, point);
    } else if SingleAt(t, i, point) && k == i + 6 {
      SingleRead(t, i, point);
    } else if LongAt(t, i, point) && k == i + 12 {
      LongRead(t, i, point);
    }
  }

  lemma FirstSpelled(t: Text, i: nat, j: nat, points: seq<int>) returns (k: nat)
    requires points != [] && StringAt(t, i, j, points)
    ensures CharacterAt(t, i, k, points[0]) && StringAt(t, k, j, points[1..])
  {
    var cuts :| Spelled(t, cuts, points) && cuts[0] == i && cuts[|points|] == j;
    k := cuts[1];
    assert CharacterAt(t, cuts[0], cuts[1], points[0]);
    forall m, n | 0 <= m < |points[1..]| && n == m + 1
      ensures CharacterAt(t, cuts[1..][m], cuts[1..][n], points[1..][m])
    {
      assert CharacterAt(t, cuts[m + 1], cuts[n + 1], points[m + 1]);
    }
    assert Spelled(t, cuts[1..], points[1..]);
  }

  lemma OneMoreSpelled(t: Text, i: nat, k: nat, j: nat, first: int, rest: seq<int>)
    requires CharacterAt(t, i, k, first) && StringAt(t, k, j, rest)
    ensures StringAt(t, i, j, [first] + rest)
  {
    var cuts :| Spelled(t, cuts, rest) && cuts[0] == k && cuts[|rest|] == j;
    var (all, points) := ([i] + cuts, [first] + rest);
    forall m, n | 0 <= m < |points| && n == m + 1
      ensures CharacterAt(t, all[m], all[n], points[m])
    {
      assert m > 0 ==> CharacterAt(t, cuts[m - 1], cuts[n - 1], rest[m - 1]);
    }
    assert Spelled(t, all, points);
  }

  lemma EscapeIsWhole(t: Text, i: nat, j: nat, points: seq<int>)
    requires StringAt(t, i, j, points) && UnitEscape(t, i)
    ensures Hex4(t, i + 2).Some?
  {
    if points != [] {
      var k := FirstSpelled(t, i, j, points);
      if SingleAt(t, i, points[0]) && k == i + 6 {
        CodeDecided(t, i, points[0]);
      } else {
        LongRead(t, i, points[0]);
      }
    }
  }

  lemma {:induction false} StringRead(t: Text, i: nat, j: nat, points: seq<int>)
    requires StringAt(t, i, j, points)
    ensures ScanString(t, i) == Ok(points, j + 1)
    decreases points
  {
    if points != [] {
      var k := FirstSpelled(t, i, j, points);
      if UnitEscape(t, k) {
        EscapeIsWhole(t, k, j, points[1..]);
      }
      CharacterRead(t, i, k, points[0]);
      assert points == [points[0]] + points[1..];
      StringRead(t, k, j, points[1..]);
    }
  }

  lemma {:induction false} StringScanned(t: Text, i: nat)
    requires ScanString(t, i).Ok?
    ensures StringAt(t, i, ScanString(t, i).next - 1, ScanString(t, i).value)
    decreases |t| - i
  {
    if t[i] != '\"' {
      var unit := ScanUnit(t, i).value;
      UnitScanned(t, i);
      StringScanned(t, unit.1);
      OneMoreSpelled(t, i, unit.1, ScanString(t, i).next - 1, unit.0, ScanString(t, unit.1).value);
    } else {
      assert Spelled(t, [i], []);
    }
  }

  /** The decoder reads a string as what is spelled up to its quotation mark. */
  lemma StringDecided(t: Text, i: nat, points: seq<int>, j: nat)
    ensures ScanString(t, i) == Ok(points, j + 1) <==> StringAt(t, i, j, points)
  {
    if ScanString(t, i).Ok? {
      StringScanned(t, i);
    }
    if StringAt(t, i, j, points) {
      StringRead(t, i, j, points);
    }
  }

  lemma ConstantScanned(t: Text, i: nat)
    requires i < |t| && !DigitAt(t, AfterSign(t, i)) && ScanScalar(t, i).Ok?
    ensures ScalarAt(t, i, ScanScalar(t, i).next, ScanScalar(t, i).value)
  {
    var word := ConstantAt(t, i);
    ConstantDecides(t, i, word);
    assert t[i..i + |word|] == word;
  }

  lemma ConstantRead(t: Text, i: nat, j: nat, value: Json)
    requires ScalarAt(t, i, j, value) && (value.Null? || value.Bool? || (value.Number? && !NumberAt(t, i, j)))
    ensures i < |t| && ScanScalar(t, i) == Ok(value, j)
  {
    var word := t[i..j];
    assert value.Null? ==> word == "null";
    assert value == Bool(true) ==> word == "true";
    assert value == Bool(false) ==> word == "false";
    ConstantDecides(t, i, word);
  }

  /** It reads a scalar as the constant or the longest number that the text starts with. */
  lemma ScalarDecided(t: Text, i: nat, value: Json, j: nat)
    requires i < |t|
    ensures ScanScalar(t, i) == Ok(value, j) <==> ScalarAt(t, i, j, value)
  {
    NumberDecided(t, i, j);
    if DigitAt(t, AfterSign(t, i)) {
      NumberOrConstant(t, i);
    }
    if ScanScalar(t, i) == Ok(value, j) && !DigitAt(t, AfterSign(t, i)) {
      ConstantScanned(t, i);
    }
    if ScalarAt(t, i, j, value) && !(value.Number? && NumberAt(t, i, j)) {
      ConstantRead(t, i, j, value);
    }
  }

  // ---------------------------------------------------------------- values

  /** A value starts with a character that is no blank and closes nothing. */
  predicate Starting(t: Text, i: nat) {
    i < |t| && !Blank(t[i]) && t[i] != ']' && t[i] != '}' && t[i] != ','
  }

  lemma ScalarStarts(t: Text, i: nat)
    requires i < |t| && ScanScalar(t, i).Ok?
    ensures Starting(t, i) && t[i] != '\"' && t[i] != '[' && t[i] != '{'
  {
    if !DigitAt(t, AfterSign(t, i)) {
      assert t[i] == ConstantAt(t, i)[0];
    }
  }

  // Each value the decoder gives is the grammar's.

  lemma {:induction false} ValueScanned(t: Text, i: nat)
    requires ScanValue(t, i).Ok?
    ensures ValueAt(t, i, ScanValue(t, i).next, ScanValue(t, i).value) && Starting(t, i)
    decreases |t| - i, 2
  {
    if t[i] == '\"' {
      StringDecided(t, i + 1, ScanString(t, i + 1).value, ScanString(t, i + 1).next - 1);
    } else if t[i] == '[' || t[i] == '{' {
      var j := SkipBlanks(t, i + 1);
      SkippedIsWhite(t, i + 1);
      if t[i] == '[' && t[j] != ']' {
        ElementsScanned(t, i + 1, j);
      } else if t[i] == '{' && t[j] != '}' {
        MembersScanned(t, i + 1, j);
      }
    } else {
      ScalarDecided(t, i, ScanScalar(t, i).value, ScanScalar(t, i).next);
      ScalarStarts(t, i);
    }
  }

  lemma ItemsFrom(t: Text, i: nat, a: nat, b: nat, c: nat, item: Json, j: nat, rest: seq<Json>)
    requires Around(t, i, a, b, c) && ValueAt(t, a, b, item)
    requires rest == [] ==> At(t, c, ']') && j == c + 1
    requires rest != [] ==> At(t, c, ',') && ItemsAt(t, c + 1, j, rest)
    ensures ItemsAt(t, i, j, [item] + rest)
  {
    var items := [item] + rest;
    assert items[1..] == rest && items[0] == item;
    assert MoreItemsAt(t, c, j, items[1..]);
  }

  /** What is scanned as elements is a value, and a closing bracket or elements behind a comma. */
  lemma ElementsSplit(t: Text, i: nat) returns (b: nat, c: nat, item: Json, next: nat, j: nat, rest: seq<Json>)
    requires ScanElements(t, i).Ok?
    ensures i < b <= c < |t| && White(t, b, c)
    ensures ScanValue(t, i) == Ok(item, b) && ScanElements(t, i) == Ok([item] + rest, j)
    ensures t[c] == ',' ==> White(t, c + 1, next) && ScanElements(t, next) == Ok(rest, j)
    ensures t[c] != ',' ==> t[c] == ']' && rest == [] && j == c + 1
  {
    var e := ScanValue(t, i);
    b, c, item := e.next, SkipBlanks(t, e.next), e.value;
    SkippedIsWhite(t, b);
    j := ScanElements(t, i).next;
    if t[c] == ',' {
      next := SkipBlanks(t, c + 1);
      rest := ScanElements(t, next).value;
      SkippedIsWhite(t, c + 1);
    } else {
      next, rest := 0, [];
      assert [item] + rest == [item];
    }
  }

  lemma {:induction false} ElementsScanned(t: Text, from: nat, i: nat)
    requires White(t, from, i) && ScanElements(t, i).Ok?
    ensures ScanElements(t, i).value != [] && ItemsAt(t, from, ScanElements(t, i).next, ScanElements(t, i).value)
    decreases |t| - i, 3
  {
    var b, c, item, next, j, rest := ElementsSplit(t, i);
    ValueScanned(t, i);
    if t[c] == ',' {
      ElementsScanned(t, c + 1, next);
    }
    ItemsFrom(t, from, i, b, c, item, j, rest);
  }

  lemma MembersFrom(t: Text, i: nat, at: Places, member: (seq<int>, Json), j: nat, rest: seq<(seq<int>, Json)>)
    requires PairShape(t, i, at, member.0) && ValueAt(t, at.value, at.valueEnd, member.1)
    requires MoreMembersAt(t, at.next, j, rest)
    ensures MembersAt(t, i, j, [member] + rest)
  {
    var members := [member] + rest;
    assert members[1..] == rest && members[0] == member;
    assert PairShape(t, i, at, members[0].0);
  }

  lemma KeyScanned(t: Text, from: nat, i: nat) returns (b: nat, colon: nat)
    requires White(t, from, i) && ScanKey(t, i).Ok?
    ensures i < b < colon < ScanKey(t, i).next && KeyAt(t, from, i, b, colon, ScanKey(t, i).value)
    ensures White(t, colon + 1, ScanKey(t, i).next)
  {
    b := ScanString(t, i + 1).next - 1;
    colon := SkipBlanks(t, b + 1);
    StringDecided(t, i + 1, ScanKey(t, i).value, b);
    SkippedIsWhite(t, b + 1);
    SkippedIsWhite(t, colon + 1);
  }

  /** What is scanned as members is a member, and a closing bracket or members behind a comma. */
  lemma MembersSplit(t: Text, from: nat, i: nat)
    returns (at: Places, member: (seq<int>, Json), next: nat, j: nat, rest: seq<(seq<int>, Json)>)
    requires White(t, from, i) && ScanMembers(t, i).Ok?
    ensures i < at.value && at.value <= at.valueEnd <= at.next < |t| && PairShape(t, from, at, member.0)
    ensures ScanValue(t, at.value) == Ok(member.1, at.valueEnd) && ScanMembers(t, i) == Ok([member] + rest, j)
    ensures t[at.next] == ',' ==> White(t, at.next + 1, next) && ScanMembers(t, next) == Ok(rest, j)
    ensures t[at.next] != ',' ==> t[at.next] == '}' && rest == [] && j == at.next + 1
  {
    var (key, m) := (ScanKey(t, i), ScanMember(t, i));
    var b, colon := KeyScanned(t, from, i);
    at := Places(i, b, colon, key.next, m.next, SkipBlanks(t, m.next));
    SkippedIsWhite(t, m.next);
    member, j := m.value, ScanMembers(t, i).next;
    if t[at.next] == ',' {
      next := SkipBlanks(t, at.next + 1);
      rest := ScanMembers(t, next).value;
      SkippedIsWhite(t, at.next + 1);
    } else {
      next, rest := 0, [];
      assert [member] + rest == [member];
    }
  }

  lemma {:induction false} MoreMembersScanned(t: Text, e: nat, next: nat)
    requires At(t, e, ',') && White(t, e + 1, next) && ScanMembers(t, next).Ok?
    ensures MoreMembersAt(t, e, ScanMembers(t, next).next, ScanMembers(t, next).value)
    decreases |t| - next, 2
  {
    MembersScanned(t, e + 1, next);
  }

  lemma {:induction false} MembersScanned(t: Text, from: nat, i: nat)
    requires White(t, from, i) && ScanMembers(t, i).Ok?
    ensures ScanMembers(t, i).value != [] && MembersAt(t, from, ScanMembers(t, i).next, ScanMembers(t, i).value)
    decreases |t| - i, 1
  {
    var at, member, next, j, rest := MembersSplit(t, from, i);
    ValueScanned(t, at.value);
    if t[at.next] == ',' {
      MoreMembersScanned(t, at.next, next);
    }
    MembersFrom(t, from, at, member, j, rest);
  }

  // Each value of the grammar is the one the decoder gives.

  lemma ScalarRead(t: Text, i: nat, j: nat, value: Json)
    requires ScalarAt(t, i, j, value)
    ensures ScanValue(t, i) == Ok(value, j) && Starting(t, i)
  {
    if value.Number? {
      NumberDecided(t, i, j);
    }
    ScalarDecided(t, i, value, j);
    ScalarStarts(t, i);
  }

  lemma ValueStarts(t: Text, i: nat, j: nat, value: Json)
    requires ValueAt(t, i, j, value)
    ensures Starting(t, i)
  {
    if !value.Str? && !value.Arr? && !value.Obj? {
      ScalarRead(t, i, j, value);
    }
  }

  lemma {:induction false} ValueRead(t: Text, i: nat, j: nat, value: Json)
    requires ValueAt(t, i, j, value)
    ensures ScanValue(t, i) == Ok(value, j)
    decreases value, 0
  {
    match value {
      case Arr(items) =>
        if items == [] {
          WhiteSkipped(t, i + 1, j - 1);
        } else {
          ItemsRead(t, i + 1, j, items);
        }
      case Obj(members) =>
        if members == [] {
          WhiteSkipped(t, i + 1, j - 1);
        } else {
          MembersRead(t, i + 1, j, members);
        }
      case Str(points) => StringDecided(t, i + 1, points, j - 1);
      case _ => ScalarRead(t, i, j, value);
    }
  }

  lemma FirstItem(t: Text, i: nat, j: nat, items: seq<Json>)
    returns (a: nat, b: nat, c: nat, first: Json, rest: seq<Json>)
    requires items != [] && ItemsAt(t, i, j, items)
    ensures items == [first] + rest && items[0] == first && SkipBlanks(t, i) == a && Starting(t, a)
    ensures ValueAt(t, a, b, first) && SkipBlanks(t, b) == c < |t| && MoreItemsAt(t, c, j, rest)
  {
    first, rest := items[0], items[1..];
    a, b, c :| Around(t, i, a, b, c) && ValueAt(t, a, b, first) && MoreItemsAt(t, c, j, rest);
    ValueStarts(t, a, b, first);
    WhiteSkipped(t, i, a);
    WhiteSkipped(t, b, c);
  }

  lemma FollowRead(t: Text, b: nat, c: nat, close: char)
    requires SkipBlanks(t, b) == c < |t| && close != ','
    ensures t[c] == close ==> ScanFollow(t, b, close) == Closed(c + 1)
    ensures t[c] == ',' ==> ScanFollow(t, b, close) == Comma(SkipBlanks(t, c + 1))
  {
  }

  /** A value, and the closing bracket or the elements behind a comma, are the elements from here on. */
  lemma ElementsJoined(t: Text, a: nat, b: nat, item: Json, next: nat, j: nat, rest: seq<Json>)
    requires ScanValue(t, a) == Ok(item, b)
    requires rest == [] ==> ScanFollow(t, b, ']') == Closed(j)
    requires rest != [] ==> ScanFollow(t, b, ']') == Comma(next) && ScanElements(t, next) == Ok(rest, j)
    ensures ScanElements(t, a) == Ok([item] + rest, j)
  {
    assert rest == [] ==> [item] + rest == [item];
    assert rest != [] ==> ScanElements(t, a) == Prepend(item, ScanElements(t, next));
  }

  lemma {:induction false} MoreItemsRead(t: Text, c: nat, j: nat, rest: seq<Json>)
    requires rest != [] && MoreItemsAt(t, c, j, rest)
    ensures At(t, c, ',') && ScanElements(t, SkipBlanks(t, c + 1)) == Ok(rest, j)
    decreases rest, 1
  {
    ItemsRead(t, c + 1, j, rest);
  }

  lemma {:induction false} ItemsRead(t: Text, i: nat, j: nat, items: seq<Json>)
    requires items != [] && ItemsAt(t, i, j, items)
    ensures Starting(t, SkipBlanks(t, i)) && ScanElements(t, SkipBlanks(t, i)) == Ok(items, j)
    decreases items, 0
  {
    var a, b, c, first, rest := FirstItem(t, i, j, items);
    ValueRead(t, a, b, first);
    if rest != [] {
      MoreItemsRead(t, c, j, rest);
    }
    FollowRead(t, b, c, ']');
    ElementsJoined(t, a, b, first, SkipBlanks(t, c + 1), j, rest);
  }

  lemma KeyRead(t: Text, i: nat, a: nat, b: nat, colon: nat, key: seq<int>)
    requires KeyAt(t, i, a, b, colon, key)
    ensures SkipBlanks(t, i) == a && Starting(t, a) && ScanKey(t, a) == Ok(key, SkipBlanks(t, colon + 1))
  {
    StringDecided(t, a + 1, key, b);
    WhiteSkipped(t, i, a);
    WhiteSkipped(t, b + 1, colon);
  }

  lemma FirstMember(t: Text, i: nat, j: nat, members: seq<(seq<int>, Json)>)
    returns (a: nat, c: nat, d: nat, e: nat, first: (seq<int>, Json), rest: seq<(seq<int>, Json)>)
    requires members != [] && MembersAt(t, i, j, members)
    ensures members == [first] + rest && members[0] == first && SkipBlanks(t, i) == a && Starting(t, a)
    ensures ScanKey(t, a) == Ok(first.0, c) && PairValueAt(t, c, d, first)
    ensures SkipBlanks(t, d) == e < |t| && MoreMembersAt(t, e, j, rest)
  {
    first, rest := members[0], members[1..];
    var at :| PairShape(t, i, at, first.0) && PairValueAt(t, at.value, at.valueEnd, first)
              && MoreMembersAt(t, at.next, j, rest);
    a, c, d, e := at.key, at.value, at.valueEnd, at.next;
    KeyRead(t, i, a, at.keyEnd, at.colon, first.0);
    ValueStarts(t, c, d, first.1);
    WhiteSkipped(t, at.colon + 1, c);
    WhiteSkipped(t, d, e);
  }

  lemma {:induction false} PairRead(t: Text, c: nat, d: nat, member: (seq<int>, Json))
    requires PairValueAt(t, c, d, member)
    ensures ScanValue(t, c) == Ok(member.1, d)
    decreases member, 1
  {
    ValueRead(t, c, d, member.1);
  }

  lemma MemberJoined(t: Text, a: nat, c: nat, d: nat, member: (seq<int>, Json))
    requires ScanKey(t, a) == Ok(member.0, c) && ScanValue(t, c) == Ok(member.1, d)
    ensures ScanMember(t, a) == Ok(member, d)
  {
  }

  lemma MembersJoined(t: Text, a: nat, d: nat, member: (seq<int>, Json), next: nat, j: nat,
        rest: seq<(seq<int>, Json)>)
    requires ScanMember(t, a) == Ok(member, d)
    requires rest == [] ==> ScanFollow(t, d, '}') == Closed(j)
    requires rest != [] ==> ScanFollow(t, d, '}') == Comma(next) && ScanMembers(t, next) == Ok(rest, j)
    ensures ScanMembers(t, a) == Ok([member] + rest, j)
  {
    assert rest == [] ==> [member] + rest == [member];
    assert rest != [] ==> ScanMembers(t, a) == Prepend(member, ScanMembers(t, next));
  }

  lemma {:induction false} MoreMembersRead(t: Text, e: nat, j: nat, rest: seq<(seq<int>, Json)>)
    requires rest != [] && MoreMembersAt(t, e, j, rest)
    ensures At(t, e, ',') && ScanMembers(t, SkipBlanks(t, e + 1)) == Ok(rest, j)
    decreases rest, 1
  {
    MembersRead(t, e + 1, j, rest);
  }

  lemma {:induction false} MembersRead(t: Text, i: nat, j: nat, members: seq<(seq<int>, Json)>)
    requires members != [] && MembersAt(t, i, j, members)
    ensures Starting(t, SkipBlanks(t, i)) && ScanMembers(t, SkipBlanks(t, i)) == Ok(members, j)
    decreases members, 0
  {
    var a, c, d, e, first, rest := FirstMember(t, i, j, members);
    PairRead(t, c, d, first);
    if rest != [] {
      MoreMembersRead(t, e, j, rest);
    }
    MemberJoined(t, a, c, d, first);
    FollowRead(t, d, e, '}');
    MembersJoined(t, a, d, first, SkipBlanks(t, e + 1), j, rest);
  }

  /** The decoder decides the grammar: it gives a value and where it ends if and only if the text is one of that value
      up to there. */
  lemma DecodesExactly(t: Text, value: Json, next: nat)
    ensures RawDecode(t) == Ok(value, next) <==> ValueAt(t, 0, next, value)
  {
    if RawDecode(t).Ok? {
      ValueScanned(t, 0);
    }
    if ValueAt(t, 0, next, value) {
      ValueRead(t, 0, next, value);
    }
  }
}
