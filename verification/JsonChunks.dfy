/** What the streaming reader has to do with one pass over the whole text: it never accepts anything else, and it
    accepts however the text is cut if and only if no record holds a number with more digits before a fraction or an
    exponent than an integer may have. */
module JsonChunks {
  import opened Characters
  import opened JsonLongNumbers
  import opened JsonReader
  import opened JsonText
  import opened Prelude

  // ---------------------------------------------------------------- one pass over the whole text

  type Parsed = Option<(seq<Json>, Text)>

  function Cons(record: Json, rest: Parsed): Parsed {
    if rest.None? then None else Some(([record] + rest.value.0, rest.value.1))
  }

  /** The records from here to the closing bracket, and the text after it. `count` records came before. */
  function ParseArray(t: Text, count: nat, limits: Limits): Parsed
    decreases |t|
  {
    var s := LStrip(t);
    if s == [] then None
    else if s[0] == ']' then Some(([], s[1..]))
    else if s[0] == ',' then ParseArray(s[1..], count, limits)
    else
      var d := RawDecode(s);
      if !d.Ok? || !Acceptable(d.value, count, limits) then None
      else Cons(d.value, ParseArray(s[d.next..], count + 1, limits))
  }

  function ParseDocument(t: Text, limits: Limits): Outcome {
    var s := LStrip(t);
    if s == [] then Rejected
    else if s[0] != '[' then NotAnArray
    else
      var r := ParseArray(s[1..], 0, limits);
      if r.None? || r.value.0 == [] || LStrip(r.value.1) != [] then Rejected else Accepted(r.value.0)
  }

  // ---------------------------------------------------------------- streaming against one pass

  /** What the reader found, as what one pass over buffer and chunks finds. */
  function Joined(r: Option<Streamed>): Parsed {
    if r.None? then None else Some((r.value.records, r.value.after + Flatten(r.value.unread)))
  }

  lemma ParseStripped(buf: Text, rest: Text, count: nat, limits: Limits)
    ensures ParseArray(LStrip(buf) + rest, count, limits) == ParseArray(buf + rest, count, limits)
  {
    LStripTwice(buf, rest);
  }

  lemma ParsePunctuation(s: Text, rest: Text, count: nat, limits: Limits)
    requires s != [] && (s[0] == ']' || s[0] == ',')
    ensures s[0] == ']' ==> ParseArray(s + rest, count, limits) == Some(([], s[1..] + rest))
    ensures s[0] == ',' ==> ParseArray(s + rest, count, limits) == ParseArray(s[1..] + rest, count, limits)
  {
    LStripAppend(s, rest);
    assert (s + rest)[1..] == s[1..] + rest;
  }

  /** A stripped buffer that starts an item. */
  predicate AtItem(s: Text) {
    s != [] && LStrip(s) == s && s[0] != ']' && s[0] != ','
  }

  /** Decoding a record from the buffer is decoding it from everything unread, or both are rejected. */
  lemma ParseRecord(s: Text, rest: Text, count: nat, limits: Limits)
    requires AtItem(s) && RawDecode(s).Ok?
    ensures var d := RawDecode(s);
            ParseArray(s + rest, count, limits) ==
              if Acceptable(d.value, count, limits) then
                Cons(d.value, ParseArray(s[d.next..] + rest, count + 1, limits))
              else None
  {
    LStripAppend(s, rest);
    if RawDecode(s).value.Obj? {
      ObjectPrefixStable(s, rest);
      assert (s + rest)[RawDecode(s).next..] == s[RawDecode(s).next..] + rest;
    }
  }

  predicate AnyLong(records: seq<Json>) {
    exists k :: 0 <= k < |records| && HasLong(records[k])
  }

  /** If the decoder refuses the buffer for good, one pass fails too or its next record holds a long number. */
  lemma ParseRefused(s: Text, rest: Text, count: nat, limits: Limits)
    requires AtItem(s) && RawDecode(s).Refused?
    ensures var whole := ParseArray(s + rest, count, limits); whole.None? || AnyLong(whole.value.0)
  {
    LStripAppend(s, rest);
    var d := RawDecode(s + rest);
    if d.Ok? && ParseArray(s + rest, count, limits).Some? {
      RefusedGrows(s, rest, 0);
      assert HasLong(ParseArray(s + rest, count, limits).value.0[0]);
    }
  }

  lemma AnyLongCons(record: Json, rest: Parsed)
    ensures rest.Some? && AnyLong(rest.value.0) ==> AnyLong(Cons(record, rest).value.0)
  {
    if rest.Some? && AnyLong(rest.value.0) {
      var k :| 0 <= k < |rest.value.0| && HasLong(rest.value.0[k]);
      assert HasLong(Cons(record, rest).value.0[k + 1]);
    }
  }

  lemma FlattenFirst(buf: Text, chunks: seq<Text>)
    requires chunks != []
    ensures buf + Flatten(chunks) == (buf + chunks[0]) + Flatten(chunks[1..])
  {
  }

  /** The array loop finds what one pass finds, or fails; and it fails where one pass does not only at a long number. */
  lemma {:induction false} StreamIsSound(buf: Text, chunks: seq<Text>, count: nat, limits: Limits)
    requires NonEmpty(chunks)
    ensures var streamed := StreamArray(buf, chunks, count, limits);
            var whole := ParseArray(buf + Flatten(chunks), count, limits);
            && (streamed.Some? ==> Joined(streamed) == whole && NonEmpty(streamed.value.unread))
            && (streamed.None? && whole.Some? ==> AnyLong(whole.value.0))
    decreases |buf| + |Flatten(chunks)|, |chunks|
  {
    var s := LStrip(buf);
    ParseStripped(buf, Flatten(chunks), count, limits);
    LStripTwice(buf, []);
    if s == [] {
      if chunks != [] {
        FlattenFirst(s, chunks);
        assert s + chunks[0] == chunks[0];
        StreamIsSound(chunks[0], chunks[1..], count, limits);
      } else {
        assert s + Flatten(chunks) == [];
      }
    } else if s[0] == ']' || s[0] == ',' {
      ParsePunctuation(s, Flatten(chunks), count, limits);
      if s[0] == ',' {
        StreamIsSound(s[1..], chunks, count, limits);
      }
    } else {
      match RawDecode(s) {
        case Malformed =>
          if chunks != [] {
            FlattenFirst(s, chunks);
            StreamIsSound(s + chunks[0], chunks[1..], count, limits);
          } else {
            assert s + Flatten(chunks) == s;
          }
        case Refused => ParseRefused(s, Flatten(chunks), count, limits);
        case Ok(record, next) =>
          ParseRecord(s, Flatten(chunks), count, limits);
          if Acceptable(record, count, limits) {
            StreamIsSound(s[next..], chunks, count + 1, limits);
            AnyLongCons(record, ParseArray(s[next..] + Flatten(chunks), count + 1, limits));
          }
      }
    }
  }

  lemma BlankChunksStripped(chunks: seq<Text>)
    requires NonEmpty(chunks)
    ensures LStrip(Flatten(SkipBlankChunks(chunks))) == LStrip(Flatten(chunks)) && NonEmpty(SkipBlankChunks(chunks))
  {
    if chunks != [] && LStrip(chunks[0]) == [] {
      LStripAppend(chunks[0], Flatten(chunks[1..]));
      BlankChunksStripped(chunks[1..]);
    }
  }

  lemma BlankTail(chunks: seq<Text>)
    ensures AllBlank(chunks) <==> LStrip(Flatten(chunks)) == []
  {
    if chunks != [] {
      LStripAppend(chunks[0], Flatten(chunks[1..]));
      BlankTail(chunks[1..]);
      assert AllBlank(chunks) <==> LStrip(chunks[0]) == [] && AllBlank(chunks[1..]);
    }
  }

  predicate LongNumbers(outcome: Outcome) {
    outcome.Accepted? && AnyLong(outcome.records)
  }

  /** The reader's verdict is that of one pass, records included, or a rejection; and where one pass accepts it rejects
      only a text with a long number in a record. */
  lemma StreamIsOnePassOrRejects(chunks: seq<Text>, limits: Limits)
    requires NonEmpty(chunks)
    ensures var (streamed, whole) := (StreamDocument(chunks, limits), ParseDocument(Flatten(chunks), limits));
            && (streamed == whole || streamed == Rejected)
            && (!LongNumbers(whole) ==> streamed == whole)
  {
    var rest := SkipBlankChunks(chunks);
    BlankChunksStripped(chunks);
    if rest != [] {
      var s := LStrip(rest[0]);
      LStripAppend(rest[0], Flatten(rest[1..]));
      if s[0] == '[' {
        assert (s + Flatten(rest[1..]))[1..] == s[1..] + Flatten(rest[1..]);
        StreamIsSound(s[1..], rest[1..], 0, limits);
        var r := StreamArray(s[1..], rest[1..], 0, limits);
        if r.Some? {
          LStripAppend(r.value.after, Flatten(r.value.unread));
          BlankTail(r.value.unread);
        }
      }
    }
  }

  // ---------------------------------------------------------------- a cut that is rejected

  /** The text starts with `k` blanks and then has none, or ends. */
  predicate BlanksThenText(t: Text, k: nat) {
    k <= |t| && (forall i :: 0 <= i < k ==> Space(t[i])) && (k < |t| ==> !Space(t[k]))
  }

  lemma {:induction false} LStripDrops(t: Text, k: nat)
    requires BlanksThenText(t, k)
    ensures LStrip(t) == t[k..]
  {
    if k > 0 {
      LStripDrops(t[1..], k - 1);
    }
  }

  lemma {:induction false} LeadingBlanks(t: Text)
    ensures BlanksThenText(t, |t| - |LStrip(t)|)
  {
    if t != [] && Space(t[0]) {
      LeadingBlanks(t[1..]);
      assert forall i :: 0 < i < |t| ==> t[i] == t[1..][i - 1];
    }
  }

  lemma SliceTwice(s: Text, n: nat, c: nat)
    requires n + c <= |s|
    ensures s[..n + c][n..] == s[n..][..c] && s[n + c..] == s[n..][c..]
  {
  }

  lemma CutBehindBlanks(t: Text, k: nat, c: nat)
    requires BlanksThenText(t, k) && 0 < c && k + c <= |t|
    ensures LStrip(t[..k + c]) == t[..k + c][k..]
  {
    LStripDrops(t[..k + c], k);
  }

  /** Cutting a text behind its leading blanks cuts what is left of it. */
  lemma StripCut(t: Text, c: nat)
    requires 0 < c <= |LStrip(t)|
    ensures var k := |t| - |LStrip(t)|; LStrip(t[..k + c]) == LStrip(t)[..c] && t[k + c..] == LStrip(t)[c..]
  {
    var k := |t| - |LStrip(t)|;
    LeadingBlanks(t);
    LStripDrops(t, k);
    CutBehindBlanks(t, k, c);
    SliceTwice(t, k, c);
  }

  lemma StreamStripped(buf: Text, chunks: seq<Text>, count: nat, limits: Limits)
    ensures StreamArray(LStrip(buf), chunks, count, limits) == StreamArray(buf, chunks, count, limits)
  {
    LStripTwice(buf, []);
  }

  /** A whole item at the front of a buffer is decoded in every cut behind it. */
  lemma DecodeCut(s: Text, c: nat)
    requires RawDecode(s).Ok? && RawDecode(s).value.Obj? && RawDecode(s).next <= c <= |s|
    ensures RawDecode(s[..c]) == RawDecode(s)
  {
    assert s == s[..c] + s[c..];
    ObjectPrefixStable(s[..c], s[c..]);
  }

  /** The array loop rejects the text cut at `c`. */
  predicate RejectsCut(t: Text, c: nat, count: nat, limits: Limits) {
    0 < c < |t| && StreamArray(t[..c], [t[c..]], count, limits).None?
  }

  /** The cut of the rest is one of the whole, behind a comma or a record. */
  lemma CutBehindComma(s: Text, c: nat, count: nat, limits: Limits)
    requires s != [] && s[0] == ',' && RejectsCut(s[1..], c, count, limits)
    ensures RejectsCut(s, 1 + c, count, limits)
  {
    SliceTwice(s, 1, c);
    assert LStrip(s[..1 + c]) == s[..1 + c];
  }

  lemma CutBehindRecord(s: Text, c: nat, count: nat, limits: Limits)
    requires AtItem(s) && RawDecode(s).Ok? && RawDecode(s).value.Obj?
    requires RejectsCut(s[RawDecode(s).next..], c, count + 1, limits)
    ensures RejectsCut(s, RawDecode(s).next + c, count, limits)
  {
    var n := RawDecode(s).next;
    SliceTwice(s, n, c);
    DecodeCut(s, n + c);
    StreamsRecord(s[..n + c], [s[n + c..]], count, limits);
  }

  lemma StreamsRecord(s: Text, chunks: seq<Text>, count: nat, limits: Limits)
    requires s != [] && !Space(s[0]) && s[0] != ']' && s[0] != ',' && RawDecode(s).Ok?
    requires StreamArray(s[RawDecode(s).next..], chunks, count + 1, limits).None?
    ensures StreamArray(s, chunks, count, limits).None?
  {
  }

  lemma CutInside(s: Text, count: nat, limits: Limits) returns (c: nat)
    requires AtItem(s) && RawDecode(s).Ok? && HasLong(RawDecode(s).value)
    ensures RejectsCut(s, c, count, limits)
  {
    c := LongCut(s, 0);
    assert LStrip(s[..c]) == s[..c];
  }

  /** If one pass finds a long number in a record, there is a place to cut the text at which the loop rejects. */
  lemma {:induction false} ArrayCut(t: Text, count: nat, limits: Limits) returns (c: nat)
    requires ParseArray(t, count, limits).Some? && AnyLong(ParseArray(t, count, limits).value.0)
    ensures RejectsCut(t, c, count, limits)
    decreases |t|, 1
  {
    var s := LStrip(t);
    LStripTwice(t, []);
    var c' := StrippedCut(s, count, limits);
    c := |t| - |s| + c';
    StripCut(t, c');
    StreamStripped(t[..c], [t[c..]], count, limits);
  }

  lemma {:induction false} StrippedCut(s: Text, count: nat, limits: Limits) returns (c: nat)
    requires LStrip(s) == s && ParseArray(s, count, limits).Some? && AnyLong(ParseArray(s, count, limits).value.0)
    ensures RejectsCut(s, c, count, limits)
    decreases |s|, 0
  {
    if s[0] == ',' {
      c := ArrayCut(s[1..], count, limits);
      CutBehindComma(s, c, count, limits);
      c := 1 + c;
    } else if HasLong(RawDecode(s).value) {
      c := CutInside(s, count, limits);
    } else {
      var d := RawDecode(s);
      LongInRest(d.value, ParseArray(s[d.next..], count + 1, limits));
      c := ArrayCut(s[d.next..], count + 1, limits);
      CutBehindRecord(s, c, count, limits);
      c := d.next + c;
    }
  }

  lemma LongInRest(record: Json, rest: Parsed)
    requires rest.Some? && AnyLong(Cons(record, rest).value.0) && !HasLong(record)
    ensures AnyLong(rest.value.0)
  {
    var k :| 0 <= k < |Cons(record, rest).value.0| && HasLong(Cons(record, rest).value.0[k]);
    assert HasLong(rest.value.0[k - 1]);
  }

  /** With nothing more to read the array loop is one pass. */
  lemma {:induction false} LastChunk(buf: Text, count: nat, limits: Limits)
    ensures Joined(StreamArray(buf, [], count, limits)) == ParseArray(buf, count, limits)
    decreases |buf|
  {
    var s := LStrip(buf);
    if s != [] && s[0] == ']' {
      assert s[1..] + Flatten([]) == s[1..];
    } else if s != [] && s[0] == ',' {
      LastChunk(s[1..], count, limits);
    } else if s != [] && RawDecode(s).Ok? {
      LastChunk(s[RawDecode(s).next..], count + 1, limits);
    }
  }

  /** Read in one chunk, a text is parsed in one pass. */
  lemma OneChunk(t: Text, limits: Limits)
    requires t != []
    ensures Flatten([t]) == t && StreamDocument([t], limits) == ParseDocument(t, limits)
  {
    assert [t][1..] == [] && t + [] == t;
    if LStrip(t) != [] && LStrip(t)[0] == '[' {
      LastChunk(LStrip(t)[1..], 0, limits);
      var r := StreamArray(LStrip(t)[1..], [], 0, limits);
      if r.Some? {
        OnlyLast(LStrip(t)[1..], 0, limits);
        assert r.value.after + [] == r.value.after;
      }
    } else {
      assert SkipBlankChunks([]) == [];
    }
  }

  lemma {:induction false} OnlyLast(buf: Text, count: nat, limits: Limits)
    ensures StreamArray(buf, [], count, limits).Some? ==> StreamArray(buf, [], count, limits).value.unread == []
    decreases |buf|
  {
    var s := LStrip(buf);
    if s != [] && s[0] == ',' {
      OnlyLast(s[1..], count, limits);
    } else if s != [] && s[0] != ']' && RawDecode(s).Ok? {
      OnlyLast(s[RawDecode(s).next..], count + 1, limits);
    }
  }

  /** So every text that one pass accepts with a long number is rejected when it is cut in two at a suitable place. */
  lemma LongNumberIsCut(t: Text, limits: Limits) returns (chunks: seq<Text>)
    requires LongNumbers(ParseDocument(t, limits))
    ensures NonEmpty(chunks) && Flatten(chunks) == t && |chunks| == 2 && StreamDocument(chunks, limits) == Rejected
  {
    var s := LStrip(t);
    var c' := ArrayCut(s[1..], 0, limits);
    var c := |t| - |s| + (1 + c');
    StripCut(t, 1 + c');
    assert s[..1 + c'][1..] == s[1..][..c'] && s[1 + c'..] == s[1..][c'..];
    chunks := [t[..c], t[c..]];
    assert chunks[1..] == [t[c..]] && Flatten([t[c..]]) == t[c..] + [] == t[c..];
    assert t == t[..c] + t[c..];
  }

  /** Every way of cutting the text leads to what one pass finds. */
  ghost predicate ChunkIndependent(t: Text, limits: Limits) {
    forall chunks :: NonEmpty(chunks) && Flatten(chunks) == t ==>
      StreamDocument(chunks, limits) == ParseDocument(t, limits)
  }

  /** Chunk independence, exactly: it holds unless one pass accepts a record with a long number. */
  lemma ChunkIndependentExactly(t: Text, limits: Limits)
    ensures ChunkIndependent(t, limits) <==> !LongNumbers(ParseDocument(t, limits))
  {
    if LongNumbers(ParseDocument(t, limits)) {
      var chunks := LongNumberIsCut(t, limits);
      assert StreamDocument(chunks, limits) != ParseDocument(t, limits);
    } else {
      forall chunks | NonEmpty(chunks) && Flatten(chunks) == t
        ensures StreamDocument(chunks, limits) == ParseDocument(t, limits)
      {
        StreamIsOnePassOrRejects(chunks, limits);
      }
    }
  }

  /** Two ways of cutting a text into non-empty chunks: what is accepted is what one pass accepts, and without a long
      number verdict and records are the same. */
  method ReadTwoWays(limits: Limits, a: seq<Text>, b: seq<Text>) returns (first: Outcome, second: Outcome)
    requires NonEmpty(a) && NonEmpty(b) && Flatten(a) == Flatten(b)
    ensures first in [ParseDocument(Flatten(a), limits), Rejected]
    ensures second in [ParseDocument(Flatten(a), limits), Rejected]
    ensures !LongNumbers(ParseDocument(Flatten(a), limits)) ==> first == second == ParseDocument(Flatten(a), limits)
  {
    var r := new Reader(limits, a);
    first := r.ReadRecords();
    StreamIsOnePassOrRejects(a, limits);
    r := new Reader(limits, b);
    second := r.ReadRecords();
    StreamIsOnePassOrRejects(b, limits);
  }
}
