/** Collision-free names for columns and sheets (modules/ingestion.py). */
module Naming {
  import opened Characters
  import opened Prelude

  // ---------------------------------------------------------------- decimal suffixes

  function DigitChar(d: nat): char
    requires d < 10
  {
    '0' + d as char
  }

  function Decimal(n: nat): (s: string)
    ensures s != []
  {
    if n < 10 then [DigitChar(n)] else Decimal(n / 10) + [DigitChar(n % 10)]
  }

  lemma {:induction false} DecimalInjective(a: nat, b: nat)
    requires Decimal(a) == Decimal(b)
    ensures a == b
  {
    var s := Decimal(a);
    assert s[|s| - 1] == DigitChar(a % 10) == DigitChar(b % 10);
    if a >= 10 && b >= 10 {
      assert Decimal(a / 10) == s[..|s| - 1] == Decimal(b / 10);
      DecimalInjective(a / 10, b / 10);
    }
  }

  /** The number a text of decimal digits is read as. */
  function Read(s: string): int {
    if s == "" then 0 else 10 * Read(s[..|s| - 1]) + (s[|s| - 1] as int - 48)
  }

  /** A suffix is the decimal text of its number, without leading zeros. */
  lemma {:induction false} DecimalReadsBack(n: nat)
    ensures Read(Decimal(n)) == n && forall i :: 0 <= i < |Decimal(n)| ==> '0' <= Decimal(n)[i] <= '9'
    ensures n > 0 ==> Decimal(n)[0] != '0'
  {
    if n >= 10 {
      DecimalReadsBack(n / 10);
      assert Decimal(n)[..|Decimal(n)| - 1] == Decimal(n / 10);
    } else {
      assert Decimal(n)[..0] == "";
    }
  }

  function PowerOfTen(k: nat): nat {
    if k == 0 then 1 else 10 * PowerOfTen(k - 1)
  }

  lemma {:induction false} DecimalLength(n: nat, k: nat)
    requires 0 < k && n < PowerOfTen(k)
    ensures |Decimal(n)| <= k
  {
    if n >= 10 {
      DecimalLength(n / 10, k - 1);
    }
  }

  // ---------------------------------------------------------------- candidates

  function Cut(s: string, n: nat): string {
    if |s| <= n then s else s[..n]
  }

  /** Where candidates come from: a column name, or a workbook and a sheet name. */
  datatype Source = Column(name: string) | Sheet(base: string, sheet: string)

  function Stem(source: Source): string {
    match source
    case Column(name) => name
    case Sheet(base, sheet) => Cut(base, 30) + "_" + Cut(sheet, 20)
  }

  /** The k-th name to try: the stem, then the stem with suffix 2, 3, ...; sheet names are cut at 60 characters. */
  function Candidate(source: Source, k: nat): string {
    var whole := if k <= 1 then Stem(source) else Stem(source) + "_" + Decimal(k);
    if source.Sheet? then Cut(whole, 60) else whole
  }

  const MAX_SUFFIX: nat := 99_999_999

  /** Suffixes of up to eight digits survive the cut. */
  lemma CandidateWhole(source: Source, k: nat)
    requires source.Sheet? ==> k <= MAX_SUFFIX
    ensures Candidate(source, k) == if k <= 1 then Stem(source) else Stem(source) + "_" + Decimal(k)
  {
    if source.Sheet? {
      assert PowerOfTen(8) == 100_000_000;
      DecimalLength(k, 8);
    }
  }

  lemma CandidatesDiffer(source: Source, i: nat, j: nat)
    requires 1 <= i < j && (source.Sheet? ==> j <= MAX_SUFFIX)
    ensures Candidate(source, i) != Candidate(source, j)
  {
    CandidateWhole(source, i);
    CandidateWhole(source, j);
    var stem := Stem(source);
    if i > 1 && Candidate(source, i) == Candidate(source, j) {
      assert Candidate(source, j)[|stem| + 1..] == Decimal(j);
      assert Candidate(source, i)[|stem| + 1..] == Decimal(i);
      DecimalInjective(i, j);
    }
  }

  // ---------------------------------------------------------------- the first free candidate

  predicate Taken(source: Source, used: set<string>, k: nat) {
    forall i :: 1 <= i <= k ==> Candidate(source, i) in used
  }

  /** Candidates are distinct, so those that are all taken are no more than the names used. */
  lemma {:induction false} Pigeonhole(source: Source, used: set<string>, k: nat)
    requires Taken(source, used, k) && (source.Sheet? ==> k <= MAX_SUFFIX)
    ensures k <= |used|
  {
    if k > 0 {
      forall i | 1 <= i < k
        ensures Candidate(source, i) != Candidate(source, k)
      {
        CandidatesDiffer(source, i, k);
      }
      Pigeonhole(source, used - {Candidate(source, k)}, k - 1);
    }
  }

  /** `name` is the first candidate not used, found within one more try than there are names used. */
  ghost predicate FirstFree(source: Source, used: set<string>, name: string) {
    exists k :: 1 <= k <= |used| + 1 && name == Candidate(source, k) && name !in used && Taken(source, used, k - 1)
  }

  /** The name with number k is not used, and k is the first such number from 2 on. */
  ghost predicate FirstNumber(stem: string, used: set<string>, name: string, k: nat) {
    2 <= k && name == stem + "_" + Decimal(k) && name !in used
    && forall i: nat :: 2 <= i < k ==> stem + "_" + Decimal(i) in used
  }

  /** The first free name: the stem if nobody has it, else the stem with the first number from 2 on that is free; a
      number is at most one more than the names used. */
  lemma FirstFreeExactly(source: Source, used: set<string>, name: string)
    requires source.Sheet? ==> |used| < MAX_SUFFIX
    ensures FirstFree(source, used, name) <==>
              var stem :=
                match source
                case Column(column) => column
                case Sheet(base, sheet) =>
                  (if |base| > 30 then base[..30] else base) + "_" + (if |sheet| > 20 then sheet[..20] else sheet);
              if stem !in used then name == stem
              else exists k: nat :: k <= |used| + 1 && FirstNumber(stem, used, name, k)
  {
    var stem := Stem(source);
    forall i | 1 <= i <= |used| + 1
      ensures Candidate(source, i) == if i <= 1 then stem else stem + "_" + Decimal(i)
    {
      CandidateWhole(source, i);
    }
    if FirstFree(source, used, name) {
      var k :| 1 <= k <= |used| + 1 && name == Candidate(source, k) && name !in used && Taken(source, used, k - 1);
      if k > 1 {
        assert Candidate(source, 1) in used;
        assert FirstNumber(stem, used, name, k);
      }
    }
    if stem !in used {
      if name == stem {
        var k := 1;
        assert name == Candidate(source, k) && Taken(source, used, k - 1);
      }
    } else if exists k: nat :: k <= |used| + 1 && FirstNumber(stem, used, name, k) {
      var k: nat :| k <= |used| + 1 && FirstNumber(stem, used, name, k);
      assert Taken(source, used, k - 1);
    }
  }

  method FindFree(source: Source, used: set<string>) returns (name: string)
    requires source.Sheet? ==> |used| < MAX_SUFFIX
    ensures FirstFree(source, used, name)
  {
    name := Candidate(source, 1);
    var suffix := 2;
    while name in used
      invariant 2 <= suffix <= |used| + 2
      invariant name == Candidate(source, suffix - 1) && Taken(source, used, suffix - 2)
      decreases |used| + 2 - suffix
    {
      Pigeonhole(source, used, suffix - 1);
      name := Candidate(source, suffix);
      suffix := suffix + 1;
    }
  }

  // ---------------------------------------------------------------- cleaning a header

  predicate Upper(c: char) {
    'A' <= c <= 'Z'
  }

  /** [a-z0-9_] */
  predicate Plain(c: char) {
    'a' <= c <= 'z' || Digit(c) || c == '_'
  }

  predicate Word(c: char) {
    Plain(c) || Upper(c)
  }

  function LowerChar(c: char): char {
    if Upper(c) then (c as int + 32) as char else c
  }

  function Lower(s: string): string {
    seq(|s|, i requires 0 <= i < |s| => LowerChar(s[i]))
  }

  /** The pattern ^Unnamed:\s*\d+$, in either case. */
  predicate Unnamed(name: string) {
    && |name| >= 8 && Lower(name[..8]) == "unnamed:"
    && var digits := LStrip(name[8..]);
    digits != "" && forall i :: 0 <= i < |digits| ==> Digit(digits[i])
  }

  /** White space before a per cent sign, and the sign, become " pct". */
  function SpellPercent(s: string): string
    decreases |s|
  {
    if s == "" then ""
    else
      var rest := LStrip(s);
      if rest != "" && rest[0] == '%' then " pct" + SpellPercent(rest[1..]) else [s[0]] + SpellPercent(s[1..])
  }

  function DropRun(s: string, keep: char -> bool): (r: string)
    ensures |r| <= |s|
  {
    if s != "" && !keep(s[0]) then DropRun(s[1..], keep) else s
  }

  /** Every run of characters that are not kept becomes one underscore. */
  function Squash(s: string, keep: char -> bool): string
    decreases |s|
  {
    if s == "" then ""
    else if keep(s[0]) then [s[0]] + Squash(s[1..], keep)
    else "_" + Squash(DropRun(s[1..], keep), keep)
  }

  function TrimLeft(s: string): (r: string)
    ensures r != "" ==> r[0] != '_'
    ensures forall c :: c in r ==> c in s
  {
    if s != "" && s[0] == '_' then TrimLeft(s[1..]) else s
  }

  function TrimRight(s: string): (r: string)
    ensures r <= s
    ensures r != "" ==> r[|r| - 1] != '_'
  {
    if s != "" && s[|s| - 1] == '_' then TrimRight(s[..|s| - 1]) else s
  }

  predicate NotSpace(c: char) {
    !Space(c)
  }

  function Cleaned(name: string, percent: bool): string {
    var spelled := if percent then SpellPercent(name) else name;
    var words := Squash(Squash(spelled, NotSpace), Word);
    Lower(TrimRight(TrimLeft(words)))
  }

  /** Lower-case letters, digits and underscores, with no underscore at either end. */
  predicate SafeName(s: string) {
    && s != "" && s[0] != '_' && s[|s| - 1] != '_'
    && forall i :: 0 <= i < |s| ==> Plain(s[i])
  }

  lemma {:induction false} SquashedIsWord(s: string)
    ensures forall i :: 0 <= i < |Squash(s, Word)| ==> Word(Squash(s, Word)[i])
    decreases |s|
  {
    if s != "" {
      SquashedIsWord(if Word(s[0]) then s[1..] else DropRun(s[1..], Word));
    }
  }

  /** Cleaning yields a safe name, or nothing. */
  lemma CleanedIsSafe(name: string, percent: bool)
    ensures Cleaned(name, percent) == "" || SafeName(Cleaned(name, percent))
  {
    var spelled := if percent then SpellPercent(name) else name;
    var words := Squash(Squash(spelled, NotSpace), Word);
    SquashedIsWord(Squash(spelled, NotSpace));
    var trimmed := TrimRight(TrimLeft(words));
    if trimmed != "" {
      assert trimmed[0] == TrimLeft(words)[0];
      forall i | 0 <= i < |trimmed|
        ensures Word(trimmed[i])
      {
        assert trimmed[i] == TrimLeft(words)[i];
        assert trimmed[i] in words;
      }
    }
  }

  lemma {:induction false} SpellPercentKeeps(s: string)
    requires forall i :: 0 <= i < |s| ==> Plain(s[i])
    ensures SpellPercent(s) == s
  {
    if s != "" {
      SpellPercentKeeps(s[1..]);
    }
  }

  lemma {:induction false} SquashKeeps(s: string, keep: char -> bool)
    requires forall i :: 0 <= i < |s| ==> keep(s[i])
    ensures Squash(s, keep) == s
  {
    if s != "" {
      SquashKeeps(s[1..], keep);
    }
  }

  /** A safe name is left as it is, so cleaning twice is cleaning once. */
  lemma SafeNameStays(name: string, percent: bool)
    requires SafeName(name)
    ensures Cleaned(name, percent) == name
  {
    SpellPercentKeeps(name);
    SquashKeeps(name, NotSpace);
    SquashKeeps(name, Word);
    assert TrimRight(TrimLeft(name)) == name;
    assert Lower(name) == name;
  }

  lemma CleanTwice(name: string, percent: bool, again: bool)
    ensures Cleaned(Cleaned(name, percent), again) == Cleaned(name, percent)
  {
    CleanedIsSafe(name, percent);
    if Cleaned(name, percent) == "" {
      assert SpellPercent("") == "" && Squash("", NotSpace) == "" && Squash("", Word) == "";
    } else {
      SafeNameStays(Cleaned(name, percent), again);
    }
  }

  // ---------------------------------------------------------------- white space

  predicate Spaces(s: string) {
    forall i :: 0 <= i < |s| ==> Space(s[i])
  }

  lemma {:induction false} LStripped(a: string, s: string)
    requires Spaces(a) && (s != "" ==> !Space(s[0]))
    ensures LStrip(a + s) == s
    decreases |a|
  {
    if a == "" {
      assert a + s == s;
    } else {
      assert (a + s)[1..] == a[1..] + s;
      LStripped(a[1..], s);
    }
  }

  lemma {:induction false} RStripped(s: string, b: string)
    requires Spaces(b) && (s != "" ==> !Space(s[|s| - 1]))
    ensures RStrip(s + b) == s
    decreases |b|
  {
    if b == "" {
      assert s + b == s;
    } else {
      var init := b[..|b| - 1];
      assert (s + b)[..|s + b| - 1] == s + init;
      RStripped(s, init);
    }
  }

  lemma {:induction false} LStripSplits(s: string) returns (a: string)
    ensures Spaces(a) && s == a + LStrip(s)
  {
    a := "";
    if s != "" && Space(s[0]) {
      var rest := LStripSplits(s[1..]);
      a := [s[0]] + rest;
    }
  }

  lemma {:induction false} RStripSplits(s: string) returns (b: string)
    ensures Spaces(b) && s == RStrip(s) + b
  {
    b := "";
    if s != "" && Space(s[|s| - 1]) {
      var rest := RStripSplits(s[..|s| - 1]);
      b := rest + [s[|s| - 1]];
    }
  }

  // ---------------------------------------------------------------- what cleaning keeps

  /** A letter or digit in lower case. */
  function Glyph(c: char): Option<char> {
    if 'a' <= c <= 'z' || '0' <= c <= '9' then Some(c)
    else if 'A' <= c <= 'Z' then Some((c as int + 32) as char)
    else None
  }

  function Flushed(word: string): seq<string> {
    if word == "" then [] else [word]
  }

  /** The runs of letters and digits in a text, in lower case; `word` is the part of the first that came before. */
  function Words(word: string, s: string): seq<string>
    decreases |s|
  {
    if s == "" then Flushed(word)
    else
      match Glyph(s[0])
      case Some(c) => Words(word + [c], s[1..])
      case None => Flushed(word) + Words("", s[1..])
  }

  /** Every per cent sign as the start of a word of its own. */
  function Percents(s: string): string {
    if s == "" then "" else (if s[0] == '%' then " pct" else [s[0]]) + Percents(s[1..])
  }

  predicate NoGlyphs(s: string) {
    forall i :: 0 <= i < |s| ==> Glyph(s[i]).None?
  }

  lemma WordsStep(word: string, c: char, rest: string)
    ensures Words(word, [c] + rest) ==
            match Glyph(c) case Some(g) => Words(word + [g], rest) case None => Flushed(word) + Words("", rest)
  {
    assert ([c] + rest)[1..] == rest;
  }

  lemma {:induction false} WordsBehindGap(word: string, gap: string, rest: string)
    requires gap != "" && NoGlyphs(gap)
    ensures Words(word, gap + rest) == Flushed(word) + Words("", rest)
    decreases |gap|
  {
    assert gap + rest == [gap[0]] + (gap[1..] + rest);
    WordsStep(word, gap[0], gap[1..] + rest);
    if |gap| > 1 {
      WordsBehindGap("", gap[1..], rest);
      assert [] + Words("", rest) == Words("", rest);
    } else {
      assert gap[1..] + rest == rest;
    }
  }

  lemma {:induction false} DropRunWords(s: string, keep: char -> bool)
    requires forall c :: Glyph(c).Some? ==> keep(c)
    ensures Words("", DropRun(s, keep)) == Words("", s)
  {
    if s != "" && !keep(s[0]) {
      DropRunWords(s[1..], keep);
      assert [] + Words("", s[1..]) == Words("", s[1..]);
    }
  }

  lemma {:induction false} SquashWords(word: string, s: string, keep: char -> bool)
    requires forall c :: Glyph(c).Some? ==> keep(c)
    ensures Words(word, Squash(s, keep)) == Words(word, s)
    decreases |s|
  {
    if s != "" {
      if keep(s[0]) {
        WordsStep(word, s[0], Squash(s[1..], keep));
        match Glyph(s[0])
        case Some(g) => SquashWords(word + [g], s[1..], keep);
        case None => SquashWords("", s[1..], keep);
      } else {
        var rest := DropRun(s[1..], keep);
        WordsStep(word, '_', Squash(rest, keep));
        SquashWords("", rest, keep);
        DropRunWords(s[1..], keep);
      }
    }
  }

  lemma {:induction false} PercentsBehindSpaces(gap: string, rest: string)
    requires Spaces(gap)
    ensures NoGlyphs(gap) && Percents(gap + rest) == gap + Percents(rest)
    decreases |gap|
  {
    if gap == "" {
      assert gap + rest == rest && gap + Percents(rest) == Percents(rest);
    } else {
      assert (gap + rest)[1..] == gap[1..] + rest;
      PercentsBehindSpaces(gap[1..], rest);
      assert gap == [gap[0]] + gap[1..];
    }
  }

  /** A per cent sign starts a word, with or without white space before it. */
  lemma PercentWords(word: string, gap: string, s: string, t: string)
    requires NoGlyphs(gap) && Words("pct", s) == Words("pct", t)
    ensures Words(word, " pct" + s) == Words(word, gap + (" pct" + t))
  {
    WordsBehindGap(word, " ", "pct" + s);
    WordsBehindGap(word, gap + " ", "pct" + t);
    assert " " + ("pct" + s) == " pct" + s && (gap + " ") + ("pct" + t) == gap + (" pct" + t);
    PctWord(s);
    PctWord(t);
  }

  lemma PctWord(s: string)
    ensures Words("", "pct" + s) == Words("pct", s)
  {
    assert "pct" + s == ['p'] + (['c'] + (['t'] + s));
    WordsStep("", 'p', ['c'] + (['t'] + s));
    WordsStep("" + ['p'], 'c', ['t'] + s);
    WordsStep("p" + ['c'], 't', s);
    assert "" + ['p'] == "p" && "p" + ['c'] == "pc" && "pc" + ['t'] == "pct";
  }

  lemma {:induction false} SpellPercentWords(word: string, s: string)
    ensures Words(word, SpellPercent(s)) == Words(word, Percents(s))
    decreases |s|
  {
    if s != "" {
      var rest := LStrip(s);
      if rest != "" && rest[0] == '%' {
        var gap := LStripSplits(s);
        PercentsBehindSpaces(gap, rest);
        SpellPercentWords("pct", rest[1..]);
        PercentWords(word, gap, SpellPercent(rest[1..]), Percents(rest[1..]));
      } else {
        WordsStep(word, s[0], SpellPercent(s[1..]));
        WordsStep(word, s[0], Percents(s[1..]));
        match Glyph(s[0])
        case Some(g) => SpellPercentWords(word + [g], s[1..]);
        case None => SpellPercentWords("", s[1..]);
      }
    }
  }

  lemma {:induction false} TrimLeftWords(s: string)
    ensures Words("", TrimLeft(s)) == Words("", s)
  {
    if s != "" && s[0] == '_' {
      TrimLeftWords(s[1..]);
      assert [] + Words("", s[1..]) == Words("", s[1..]);
    }
  }

  lemma {:induction false} WordsBeforeUnderscore(word: string, s: string)
    ensures Words(word, s + "_") == Words(word, s)
    decreases |s|
  {
    if s == "" {
      WordsStep(word, '_', "");
      assert s + "_" == ['_'] + "";
    } else {
      assert s + "_" == [s[0]] + (s[1..] + "_");
      WordsStep(word, s[0], s[1..] + "_");
      match Glyph(s[0])
      case Some(g) => WordsBeforeUnderscore(word + [g], s[1..]);
      case None => WordsBeforeUnderscore("", s[1..]);
    }
  }

  lemma {:induction false} TrimRightWords(s: string)
    ensures Words("", TrimRight(s)) == Words("", s)
  {
    if s != "" && s[|s| - 1] == '_' {
      var init := s[..|s| - 1];
      TrimRightWords(init);
      WordsBeforeUnderscore("", init);
      assert s == init + "_";
    }
  }

  lemma {:induction false} LowerWords(word: string, s: string)
    ensures Words(word, Lower(s)) == Words(word, s)
    decreases |s|
  {
    if s != "" {
      assert Lower(s)[1..] == Lower(s[1..]);
      match Glyph(s[0])
      case Some(g) => LowerWords(word + [g], s[1..]);
      case None => LowerWords("", s[1..]);
    }
  }

  /** Cleaning keeps every run of letters and digits, in lower case and in order, joins none and invents none; a per
      cent sign is read as the start of a word "pct" if it is to be kept. */
  lemma CleanedKeepsWords(name: string, percent: bool)
    ensures Words("", Cleaned(name, percent)) == Words("", if percent then Percents(name) else name)
  {
    var spelled := if percent then SpellPercent(name) else name;
    var words := Squash(Squash(spelled, NotSpace), Word);
    LowerWords("", TrimRight(TrimLeft(words)));
    TrimRightWords(TrimLeft(words));
    TrimLeftWords(words);
    SquashWords("", Squash(spelled, NotSpace), Word);
    SquashWords("", spelled, NotSpace);
    SpellPercentWords("", name);
  }

  lemma {:induction false} DecimalIsPlain(n: nat)
    ensures forall i :: 0 <= i < |Decimal(n)| ==> Digit(Decimal(n)[i])
  {
    if n >= 10 {
      DecimalIsPlain(n / 10);
    }
  }

  function Placeholder(idx: nat): string {
    "column_" + Decimal(idx)
  }

  lemma PlaceholderIsSafe(idx: nat)
    ensures SafeName(Placeholder(idx))
  {
    DecimalIsPlain(idx);
    var s := Placeholder(idx);
    assert forall i :: 7 <= i < |s| ==> s[i] == Decimal(idx)[i - 7];
  }

  // ---------------------------------------------------------------- column names

  /** A column of the source: its header, and whether any of its cells holds a value. */
  datatype Header = Header(raw: string, hasValues: bool)

  predicate Nameless(h: Header) {
    Strip(h.raw) == "" || Unnamed(Strip(h.raw))
  }

  ghost predicate ParserHeaderOf(word: string, gap: string, digits: string) {
    && |word| == 8 && (forall i :: 0 <= i < 8 ==> word[i] == "unnamed:"[i] || word[i] == "UNNAMED:"[i])
    && Spaces(gap)
    && digits != "" && forall i :: 0 <= i < |digits| ==> '0' <= digits[i] <= '9'
  }

  /** A parser's own header: "unnamed:" in any case, white space, and digits. */
  ghost predicate ParserHeader(name: string) {
    exists word, gap, digits :: ParserHeaderOf(word, gap, digits) && name == word + (gap + digits)
  }

  lemma UnnamedWord(word: string)
    requires |word| == 8
    ensures Lower(word) == "unnamed:" <==>
            forall i :: 0 <= i < 8 ==> word[i] == "unnamed:"[i] || word[i] == "UNNAMED:"[i]
  {
    assert forall i :: 0 <= i < 8 ==> Lower(word)[i] == LowerChar(word[i]);
    if forall i :: 0 <= i < 8 ==> word[i] == "unnamed:"[i] || word[i] == "UNNAMED:"[i] {
      assert Lower(word) == "unnamed:";
    }
  }

  lemma UnnamedExactly(name: string)
    ensures Unnamed(name) <==> ParserHeader(name)
  {
    if Unnamed(name) {
      var (word, digits) := (name[..8], LStrip(name[8..]));
      var gap := LStripSplits(name[8..]);
      UnnamedWord(word);
      assert ParserHeaderOf(word, gap, digits) && name == word + (gap + digits);
    }
    if ParserHeader(name) {
      var word, gap, digits :| ParserHeaderOf(word, gap, digits) && name == word + (gap + digits);
      assert name[..8] == word && name[8..] == gap + digits;
      LStripped(gap, digits);
      UnnamedWord(word);
    }
  }

  /** A header is none if it is white space, or a parser's own with white space around it. */
  lemma NamelessExactly(h: Header)
    ensures Nameless(h) <==> exists a, name, b ::
              h.raw == a + (name + b) && Spaces(a) && Spaces(b) && (name == "" || ParserHeader(name))
  {
    if Nameless(h) {
      var a := LStripSplits(h.raw);
      var b := RStripSplits(LStrip(h.raw));
      UnnamedExactly(Strip(h.raw));
      assert h.raw == a + (Strip(h.raw) + b);
    }
    forall a, name, b | h.raw == a + (name + b) && Spaces(a) && Spaces(b) && (name == "" || ParserHeader(name))
      ensures Nameless(h)
    {
      if name == "" {
        LStripped(a + b, "");
        assert (a + b) + "" == h.raw;
      } else {
        UnnamedExactly(name);
        HeaderEnds(name);
        LStripped(a, name + b);
        RStripped(name, b);
      }
    }
  }

  lemma HeaderEnds(name: string)
    requires ParserHeader(name)
    ensures name != "" && !Space(name[0]) && !Space(name[|name| - 1])
  {
    var word, gap, digits :| ParserHeaderOf(word, gap, digits) && name == word + (gap + digits);
    assert name[0] == word[0] && name[|name| - 1] == digits[|digits| - 1];
  }

  predicate Kept(h: Header) {
    !Nameless(h) || h.hasValues
  }

  /** The name of the column before collisions are resolved; columns are numbered from 1. */
  function BaseName(h: Header, idx: nat, percent: bool): string {
    var cleaned := Cleaned(if Nameless(h) then Placeholder(idx) else Strip(h.raw), percent);
    if cleaned == "" then Placeholder(idx) else cleaned
  }

  /** Base names are safe, and that of a column without a header is its placeholder. */
  lemma BaseNameIsSafe(h: Header, idx: nat, percent: bool)
    ensures SafeName(BaseName(h, idx, percent))
    ensures Nameless(h) ==> BaseName(h, idx, percent) == Placeholder(idx)
  {
    PlaceholderIsSafe(idx);
    SafeNameStays(Placeholder(idx), percent);
    CleanedIsSafe(if Nameless(h) then Placeholder(idx) else Strip(h.raw), percent);
  }

  lemma FirstFreeIsSafe(base: string, used: set<string>, name: string)
    requires SafeName(base) && FirstFree(Column(base), used, name)
    ensures SafeName(name)
  {
    var k :| 1 <= k <= |used| + 1 && name == Candidate(Column(base), k) && name !in used
        && Taken(Column(base), used, k - 1);
    if k > 1 {
      DecimalIsPlain(k);
      assert name == base + "_" + Decimal(k);
      assert forall i :: |base| < i < |name| ==> name[i] == Decimal(k)[i - |base| - 1];
    }
  }

  /** `keep` lists exactly the kept columns among the first n, in source order. */
  predicate KeepsSourceOrder(headers: seq<Header>, keep: seq<nat>, n: nat)
    requires n <= |headers|
  {
    && (forall i :: 0 <= i < |keep| ==> keep[i] < n && Kept(headers[keep[i]]))
    && (forall i, j :: 0 <= i < j < |keep| ==> keep[i] < keep[j])
    && (forall c :: 0 <= c < n && Kept(headers[c]) ==> c in keep)
  }

  /** The names given before the i-th. */
  function Before(names: seq<string>, i: nat): set<string>
    requires i <= |names|
  {
    set t | t in names[..i]
  }

  /** The i-th output name is the first candidate of its column that no earlier column took. */
  ghost predicate NamedAfterColumn(headers: seq<Header>, percent: bool, names: seq<string>, keep: seq<nat>, i: nat)
    requires |names| == |keep| && i < |names| && keep[i] < |headers|
  {
    FirstFree(Column(BaseName(headers[keep[i]], keep[i] + 1, percent)), Before(names, i), names[i])
  }

  lemma AppendName(names: seq<string>, name: string)
    requires Distinct(names) && name !in Before(names, |names|)
    ensures Distinct(names + [name])
    ensures Before(names + [name], |names| + 1) == Before(names, |names|) + {name}
  {
    assert names[..|names|] == names;
    assert (names + [name])[..|names| + 1] == names + [name];
    forall i | 0 <= i < |names|
      ensures names[i] != name
    {
      assert names[i] in Before(names, |names|);
    }
  }

  lemma BeforeAppend(names: seq<string>, name: string, i: nat)
    requires i <= |names|
    ensures Before(names + [name], i) == Before(names, i)
  {
    assert (names + [name])[..i] == names[..i];
  }

  lemma ColumnNameStays(headers: seq<Header>, percent: bool, names: seq<string>, keep: seq<nat>, name: string, c: nat,
                        i: nat)
    requires |names| == |keep| && i <= |names| && c < |headers| && forall k :: 0 <= k < |keep| ==> keep[k] < |headers|
    requires if i < |names| then NamedAfterColumn(headers, percent, names, keep, i)
             else FirstFree(Column(BaseName(headers[c], c + 1, percent)), Before(names, i), name)
    ensures NamedAfterColumn(headers, percent, names + [name], keep + [c], i)
  {
    BeforeAppend(names, name, i);
  }

  /** The columns before the c-th have been named. */
  ghost predicate NamedSoFar(headers: seq<Header>, percent: bool, names: seq<string>, keep: seq<nat>, c: nat)
    requires c <= |headers|
  {
    && |names| == |keep| && Distinct(names) && KeepsSourceOrder(headers, keep, c)
    && forall i :: 0 <= i < |names| ==> NamedAfterColumn(headers, percent, names, keep, i)
  }

  lemma KeepOne(headers: seq<Header>, keep: seq<nat>, c: nat)
    requires c < |headers| && KeepsSourceOrder(headers, keep, c)
    ensures Kept(headers[c]) ==> KeepsSourceOrder(headers, keep + [c], c + 1)
    ensures !Kept(headers[c]) ==> KeepsSourceOrder(headers, keep, c + 1)
  {
    assert forall x :: x in keep ==> x in keep + [c];
    assert c in keep + [c];
  }

  lemma NameOne(headers: seq<Header>, percent: bool, names: seq<string>, keep: seq<nat>, c: nat, name: string)
    requires c < |headers| && NamedSoFar(headers, percent, names, keep, c) && Kept(headers[c])
    requires FirstFree(Column(BaseName(headers[c], c + 1, percent)), Before(names, |names|), name)
    ensures NamedSoFar(headers, percent, names + [name], keep + [c], c + 1)
    ensures Before(names + [name], |names + [name]|) == Before(names, |names|) + {name}
  {
    KeepOne(headers, keep, c);
    AppendName(names, name);
    forall i | 0 <= i <= |names|
      ensures NamedAfterColumn(headers, percent, names + [name], keep + [c], i)
    {
      ColumnNameStays(headers, percent, names, keep, name, c, i);
    }
  }

  lemma NameIsSafe(headers: seq<Header>, percent: bool, names: seq<string>, keep: seq<nat>, i: nat)
    requires |names| == |keep| && i < |names| && keep[i] < |headers|
              && NamedAfterColumn(headers, percent, names, keep, i)
    ensures SafeName(names[i])
  {
    BaseNameIsSafe(headers[keep[i]], keep[i] + 1, percent);
    FirstFreeIsSafe(BaseName(headers[keep[i]], keep[i] + 1, percent), Before(names, i), names[i]);
  }

  lemma AllNamed(headers: seq<Header>, percent: bool, names: seq<string>, keep: seq<nat>)
    requires NamedSoFar(headers, percent, names, keep, |headers|)
    ensures keep == [] <==> forall c :: 0 <= c < |headers| ==> !Kept(headers[c])
    ensures forall i :: 0 <= i < |names| ==> SafeName(names[i]) && NamedAfterColumn(headers, percent, names, keep, i)
  {
    if keep != [] {
      assert Kept(headers[keep[0]]);
    }
    forall i | 0 <= i < |names|
      ensures SafeName(names[i])
    {
      NameIsSafe(headers, percent, names, keep, i);
    }
  }

  /** Distinct, safe names for exactly the columns that carry a header or values, in source order; an error if there are
      none. */
  method NormalizeColumns(headers: seq<Header>, percent: bool) returns (r: Option<(seq<string>, seq<nat>)>)
    ensures r.None? <==> forall c :: 0 <= c < |headers| ==> !Kept(headers[c])
    ensures r.Some? ==>
              && |r.value.0| == |r.value.1| && Distinct(r.value.0)
              && KeepsSourceOrder(headers, r.value.1, |headers|)
              && forall i :: 0 <= i < |r.value.0| ==>
                   SafeName(r.value.0[i]) && NamedAfterColumn(headers, percent, r.value.0, r.value.1, i)
  {
    var used: set<string>, out: seq<string>, keep: seq<nat> := {}, [], [];
    for c := 0 to |headers|
      invariant NamedSoFar(headers, percent, out, keep, c) && used == Before(out, |out|)
    {
      if Kept(headers[c]) {
        var candidate := FindFree(Column(BaseName(headers[c], c + 1, percent)), used);
        NameOne(headers, percent, out, keep, c, candidate);
        used := used + {candidate};
        out := out + [candidate];
        keep := keep + [c];
      } else {
        KeepOne(headers, keep, c);
      }
    }
    AllNamed(headers, percent, out, keep);
    if keep == [] {
      return None;
    }
    return Some((out, keep));
  }

  // ---------------------------------------------------------------- sheet names

  /** One table name per sheet, pairwise distinct, at most 60 characters each when there are several. */
  method TableNames(base: string, sheets: seq<string>) returns (tables: seq<string>)
    requires |sheets| <= MAX_SUFFIX
    ensures |tables| == |sheets| && Distinct(tables)
    ensures |sheets| == 1 ==> tables == [base]
    ensures |sheets| > 1 ==> forall i :: 0 <= i < |tables| ==> |tables[i]| <= 60
    ensures |sheets| > 1 ==> forall i :: 0 <= i < |tables| ==> NamedAfterSheet(base, sheets, tables, i)
  {
    tables := [];
    if |sheets| == 1 {
      return [base];
    }
    for s := 0 to |sheets|
      invariant |tables| == s && Distinct(tables)
      invariant forall i :: 0 <= i < s ==> NamedAfterSheet(base, sheets, tables, i)
    {
      var used := Before(tables, |tables|);
      SetOfSequence(tables[..|tables|]);
      var name := FindFree(Sheet(base, sheets[s]), used);
      AppendName(tables, name);
      forall i | 0 <= i <= s
        ensures NamedAfterSheet(base, sheets, tables + [name], i)
      {
        BeforeAppend(tables, name, i);
        assert i < s ==> NamedAfterSheet(base, sheets, tables, i);
      }
      tables := tables + [name];
    }
    forall i | 0 <= i < |tables|
      ensures |tables[i]| <= 60
    {
      assert NamedAfterSheet(base, sheets, tables, i);
    }
  }

  ghost predicate NamedAfterSheet(base: string, sheets: seq<string>, tables: seq<string>, i: nat)
    requires i < |sheets| && i < |tables|
  {
    FirstFree(Sheet(base, sheets[i]), Before(tables, i), tables[i])
  }

  lemma {:induction false} SetOfSequence(s: seq<string>)
    ensures |set t | t in s| <= |s|
  {
    if s != [] {
      var init, last := s[..|s| - 1], s[|s| - 1];
      SetOfSequence(init);
      assert s == init + [last];
      assert (set t | t in s) == (set t | t in init) + {last};
    }
  }
}
