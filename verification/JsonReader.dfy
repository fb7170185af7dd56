/** The streaming reader of JSON record arrays (read_json in modules/ingestion.py). It sees the text chunk by chunk and
    decodes a record as soon as the buffer holds one. Module JsonChunks says what this has to do with one pass over the
    whole text. */
module JsonReader {
  import opened Characters
  import opened JsonText
  import opened Prelude

  /** MAX_INGEST_COLUMNS and MAX_INGEST_ROWS. */
  datatype Limits = Limits(columns: nat, rows: nat)

  datatype Outcome = Accepted(records: seq<Json>) | Rejected | NotAnArray

  // ---------------------------------------------------------------- str.lstrip

  lemma {:induction false} LStripAppend(a: Text, b: Text)
    ensures LStrip(a + b) == if LStrip(a) == [] then LStrip(b) else LStrip(a) + b
  {
    if a == [] {
      assert a + b == b;
    } else {
      assert (a + b)[1..] == a[1..] + b;
      LStripAppend(a[1..], b);
    }
  }

  lemma LStripTwice(a: Text, b: Text)
    ensures LStrip(LStrip(a) + b) == LStrip(a + b)
  {
    LStripAppend(a, b);
    if LStrip(a) == [] {
      assert LStrip(a) + b == b;
    }
  }

  // ---------------------------------------------------------------- what is staged

  function Columns(record: Json): nat
    requires record.Obj?
  {
    |set m | m in record.members :: m.0|
  }

  /** A lone surrogate cannot be written to the staging file. */
  predicate Plain(points: seq<int>) {
    forall k :: 0 <= k < |points| ==> !HighSurrogate(points[k]) && !LowSurrogate(points[k])
  }

  predicate Encodable(value: Json)
    decreases value
  {
    match value
    case Str(points) => Plain(points)
    case Arr(items) => EncodableItems(items)
    case Obj(members) => EncodableMembers(members)
    case _ => true
  }

  predicate EncodableItems(items: seq<Json>)
    decreases items
  {
    items != [] ==> Encodable(items[0]) && EncodableItems(items[1..])
  }

  predicate EncodableMember(member: (seq<int>, Json))
    decreases member
  {
    Plain(member.0) && Encodable(member.1)
  }

  /** Of members with one key only the last counts. */
  predicate EncodableMembers(members: seq<(seq<int>, Json)>)
    decreases members
  {
    members != [] ==>
      && ((exists m :: m in members[1..] && m.0 == members[0].0) || EncodableMember(members[0]))
      && EncodableMembers(members[1..])
  }

  predicate Acceptable(record: Json, count: nat, limits: Limits) {
    record.Obj? && Columns(record) <= limits.columns && count + 1 <= limits.rows && Encodable(record)
  }

  // ---------------------------------------------------------------- the reader, as a function of the chunks

  function Flatten(chunks: seq<Text>): Text {
    if chunks == [] then [] else chunks[0] + Flatten(chunks[1..])
  }

  predicate NonEmpty(chunks: seq<Text>) {
    forall i :: 0 <= i < |chunks| ==> chunks[i] != []
  }

  /** Records staged, what the buffer holds after the closing bracket, and the chunks not read. */
  datatype Streamed = Streamed(records: seq<Json>, after: Text, unread: seq<Text>)

  function After(staged: seq<Json>, rest: Option<Streamed>): Option<Streamed> {
    if rest.None? then None else Some(rest.value.(records := staged + rest.value.records))
  }

  /** The array loop: a buffer that holds no whole item yet gets the next chunk, a refused one ends the upload. */
  function StreamArray(buf: Text, chunks: seq<Text>, count: nat, limits: Limits): Option<Streamed>
    decreases |buf| + |Flatten(chunks)|, |chunks|
  {
    var s := LStrip(buf);
    if s == [] then
      if chunks == [] then None else StreamArray(chunks[0], chunks[1..], count, limits)
    else if s[0] == ']' then Some(Streamed([], s[1..], chunks))
    else if s[0] == ',' then StreamArray(s[1..], chunks, count, limits)
    else
      match RawDecode(s)
      case Malformed => if chunks == [] then None else StreamArray(s + chunks[0], chunks[1..], count, limits)
      case Refused => None
      case Ok(record, next) =>
        if !Acceptable(record, count, limits) then None
        else After([record], StreamArray(s[next..], chunks, count + 1, limits))
  }

  /** From the first chunk on that is not blank. */
  function SkipBlankChunks(chunks: seq<Text>): (rest: seq<Text>)
    ensures rest != [] ==> LStrip(rest[0]) != []
  {
    if chunks == [] || LStrip(chunks[0]) != [] then chunks else SkipBlankChunks(chunks[1..])
  }

  predicate AllBlank(chunks: seq<Text>) {
    forall i :: 0 <= i < |chunks| ==> LStrip(chunks[i]) == []
  }

  function StreamDocument(chunks: seq<Text>, limits: Limits): Outcome {
    var rest := SkipBlankChunks(chunks);
    if rest == [] then Rejected
    else
      var s := LStrip(rest[0]);
      if s[0] != '[' then NotAnArray
      else
        var r := StreamArray(s[1..], rest[1..], 0, limits);
        if r.None? || r.value.records == [] || LStrip(r.value.after) != [] || !AllBlank(r.value.unread) then Rejected
        else Accepted(r.value.records)
  }

  // ---------------------------------------------------------------- the reader, as the program runs it

  lemma AfterOne(staged: seq<Json>, record: Json, rest: Option<Streamed>)
    ensures After(staged, After([record], rest)) == After(staged + [record], rest)
  {
    if rest.Some? {
      assert staged + ([record] + rest.value.records) == staged + [record] + rest.value.records;
    }
  }

  class Reader {
    const limits: Limits
    var chunks: seq<Text>
    var staged: seq<Json>
    var rowCount: nat

    constructor (limits: Limits, chunks: seq<Text>)
      ensures this.limits == limits && this.chunks == chunks && staged == [] && rowCount == 0
    {
      this.limits, this.chunks, staged, rowCount := limits, chunks, [], 0;
    }

    /** The next chunk, or the empty text at the end. */
    method Read() returns (t: Text)
      requires NonEmpty(chunks)
      modifies this`chunks
      ensures NonEmpty(chunks) && (t == [] <==> old(chunks) == [])
      ensures if old(chunks) == [] then chunks == [] else t == old(chunks)[0] && chunks == old(chunks)[1..]
    {
      if chunks == [] {
        return [];
      }
      t := chunks[0];
      chunks := chunks[1..];
    }

    /** Stages a record unless it is no object, has too many columns, is one row too many or cannot be written. */
    method StageRecord(record: Json) returns (ok: bool)
      requires rowCount == |staged|
      modifies this`staged, this`rowCount
      ensures ok <==> Acceptable(record, old(rowCount), limits)
      ensures ok ==> staged == old(staged) + [record] && rowCount == |staged| && rowCount == old(rowCount) + 1
    {
      if !record.Obj? || Columns(record) > limits.columns {
        return false;
      }
      rowCount := rowCount + 1;
      if rowCount > limits.rows {
        return false;
      }
      if !Encodable(record) {
        return false;
      }
      staged := staged + [record];
      return true;
    }

    /** Stages the records of the array that starts in `buf0`; returns what the buffer holds behind its bracket. */
    method ConsumeArray(buf0: Text) returns (after: Option<Text>)
      requires NonEmpty(chunks) && staged == [] && rowCount == 0
      modifies this
      ensures NonEmpty(chunks)
      ensures var whole := StreamArray(buf0, old(chunks), 0, limits);
              && (after.None? <==> whole.None?)
              && (after.Some? ==> whole.value == Streamed(staged, after.value, chunks) && rowCount == |staged|)
    {
      var buf := buf0;
      ghost var whole := StreamArray(buf0, chunks, 0, limits);
      assert whole.Some? ==> [] + whole.value.records == whole.value.records;
      while true
        invariant NonEmpty(chunks) && rowCount == |staged|
        invariant whole == After(staged, StreamArray(buf, chunks, rowCount, limits))
        decreases |buf| + |Flatten(chunks)|, |chunks|
      {
        ghost var rest := chunks;
        buf := LStrip(buf);
        LStripTwice(buf, []);
        if buf == [] {
          buf := Read();
          if buf == [] {
            return None;
          }
          continue;
        }
        if buf[0] == ']' {
          return Some(buf[1..]);
        }
        if buf[0] == ',' {
          buf := buf[1..];
          continue;
        }
        var d := RawDecode(buf);
        if d.Malformed? {
          var more := Read();
          if more == [] {
            return None;
          }
          buf := buf + more;
          continue;
        }
        if d.Refused? {
          return None;
        }
        ghost var before := staged;
        var ok := StageRecord(d.value);
        if !ok {
          return None;
        }
        AfterOne(before, d.value, StreamArray(buf[d.next..], chunks, rowCount, limits));
        buf := buf[d.next..];
      }
    }

    /** The whole document. */
    method ReadRecords() returns (outcome: Outcome)
      requires NonEmpty(chunks) && staged == [] && rowCount == 0
      modifies this
      ensures outcome == StreamDocument(old(chunks), limits)
    {
      ghost var all := chunks;
      var buffer := Read();
      while buffer != [] && LStrip(buffer) == []
        invariant NonEmpty(chunks) && staged == [] && rowCount == 0 && (buffer == [] ==> chunks == [])
        invariant SkipBlankChunks(all) == SkipBlankChunks(if buffer == [] then [] else [buffer] + chunks)
        decreases |chunks|, |buffer|
      {
        assert ([buffer] + chunks)[1..] == chunks;
        ghost var rest := chunks;
        buffer := Read();
        assert rest != [] ==> [buffer] + chunks == rest;
      }
      if buffer == [] {
        return Rejected;
      }
      assert ([buffer] + chunks)[1..] == chunks;
      buffer := LStrip(buffer);
      if buffer[0] != '[' {
        return NotAnArray;
      }
      var after := ConsumeArray(buffer[1..]);
      if after.None? {
        return Rejected;
      }
      if rowCount == 0 {
        return Rejected;
      }
      if LStrip(after.value) != [] {
        return Rejected;
      }
      ghost var unread, records := chunks, staged;
      while true
        invariant NonEmpty(chunks) && staged == records && (AllBlank(unread) <==> AllBlank(chunks))
        decreases |chunks|
      {
        var tail := Read();
        if tail == [] {
          break;
        }
        if LStrip(tail) != [] {
          return Rejected;
        }
      }
      return Accepted(staged);
    }
  }
}
