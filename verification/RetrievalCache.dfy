/** The retrieval index cache (modules/retrieval_engine.py): a bounded cache in recency order, and a fingerprint check
    that decides whether a cached index may be used.

    SHA-256 is taken to be collision-free, so a fingerprint is represented by the text it is computed from. The term
    weights are those of an arbitrary weighting of the document texts. */
module RetrievalCache {
  import opened Prelude

  type Text = seq<int>

  /** A document; `extra` stands for its type, table, metadata and priority. */
  datatype Doc = Doc(id: Text, text: Text, extra: int)
  type Docs = seq<Doc>

  const SEPARATOR_ID: int := 0
  const SEPARATOR_TEXT: int := 1
  const MAX_ENTRIES: nat := 128

  // ---------------------------------------------------------------- the fingerprint

  /** Half of a surrogate pair, on its own; encoding turns it into a question mark. */
  predicate Surrogate(c: int) {
    0xD800 <= c <= 0xDFFF
  }

  /** str.encode("utf-8", "replace"), with each character for its own encoding. */
  function Encode(t: Text): Text {
    seq(|t|, i requires 0 <= i < |t| => if Surrogate(t[i]) then '?' as int else t[i])
  }

  function Fingerprint(docs: Docs): Text {
    if docs == [] then []
    else Encode(docs[0].id) + [SEPARATOR_ID] + Encode(docs[0].text) + [SEPARATOR_TEXT] + Fingerprint(docs[1..])
  }

  predicate CleanText(t: Text, separator: int) {
    separator !in t && forall i :: 0 <= i < |t| ==> !(0xD800 <= t[i] <= 0xDFFF)
  }

  /** No id contains the byte that ends an id, no text the byte that ends a text, and neither a lone surrogate. */
  predicate Clean(docs: Docs) {
    forall i :: 0 <= i < |docs| ==> CleanText(docs[i].id, 0) && CleanText(docs[i].text, 1)
  }

  lemma EncodeClean(t: Text, separator: int)
    requires CleanText(t, separator)
    ensures Encode(t) == t
  {
  }

  predicate SamePairs(a: Docs, b: Docs) {
    |a| == |b| && forall i :: 0 <= i < |a| ==> a[i].id == b[i].id && a[i].text == b[i].text
  }

  /** Two texts cut at the first occurrence of a separator neither contains are the same text. */
  lemma {:induction false} CutAtSeparator(a: Text, b: Text, sep: int, x: Text, y: Text)
    requires sep !in a && sep !in b && a + [sep] + x == b + [sep] + y
    ensures a == b && x == y
  {
    var s, t := a + [sep] + x, b + [sep] + y;
    assert s[|a|] == sep && t[|b|] == sep;
    assert forall i :: 0 <= i < |a| ==> s[i] == a[i];
    assert forall i :: 0 <= i < |b| ==> t[i] == b[i];
    assert |a| == |b|;
    assert a == s[..|a|] && b == t[..|b|];
    assert x == s[|a| + 1..] && y == t[|b| + 1..];
  }

  lemma FingerprintFirst(docs: Docs)
    requires docs != [] && Clean(docs)
    ensures Clean(docs[1..])
    ensures Fingerprint(docs)
              == docs[0].id + [SEPARATOR_ID] + (docs[0].text + [SEPARATOR_TEXT] + Fingerprint(docs[1..]))
  {
    EncodeClean(docs[0].id, SEPARATOR_ID);
    EncodeClean(docs[0].text, SEPARATOR_TEXT);
  }

  /** On clean documents equal fingerprints mean equal (id, text) lists. */
  lemma {:induction false} FingerprintInjective(a: Docs, b: Docs)
    requires Clean(a) && Clean(b) && Fingerprint(a) == Fingerprint(b)
    ensures SamePairs(a, b)
  {
    if a != [] && b != [] {
      FingerprintFirst(a);
      FingerprintFirst(b);
      var restA, restB := a[0].text + [SEPARATOR_TEXT] + Fingerprint(a[1..]),
          b[0].text + [SEPARATOR_TEXT] + Fingerprint(b[1..]);
      CutAtSeparator(a[0].id, b[0].id, SEPARATOR_ID, restA, restB);
      CutAtSeparator(a[0].text, b[0].text, SEPARATOR_TEXT, Fingerprint(a[1..]), Fingerprint(b[1..]));
      FingerprintInjective(a[1..], b[1..]);
      assert a == [a[0]] + a[1..] && b == [b[0]] + b[1..];
    }
  }

  /** Exactly on those: a list that passes the check against clean documents has their ids and texts if and only if it
      is clean itself. */
  lemma CheckIsExact(cached: Docs, docs: Docs)
    requires Clean(docs) && Fingerprint(cached) == Fingerprint(docs)
    ensures SamePairs(cached, docs) <==> Clean(cached)
  {
    if Clean(cached) {
      FingerprintInjective(cached, docs);
    }
  }

  lemma OneDoc(d: Doc)
    ensures Fingerprint([d]) == Encode(d.id) + [SEPARATOR_ID] + Encode(d.text) + [SEPARATOR_TEXT]
  {
    assert [d][1..] == [] && Fingerprint([]) == [];
  }

  /** Without that condition it fails: two documents can be read as one whose text contains the separators. */
  lemma FingerprintAmbiguous() returns (a: Docs, b: Docs)
    ensures Clean(a) && !Clean(b) && Fingerprint(a) == Fingerprint(b) && !SamePairs(a, b)
  {
    var first, second := Doc([97], [98], 0), Doc([99], [100], 0);
    var both := Doc([97], [98, SEPARATOR_TEXT, 99, SEPARATOR_ID, 100], 0);
    a, b := [first, second], [both];
    OneDoc(second);
    OneDoc(both);
    assert a[1..] == [second];
    EncodeClean(first.id, SEPARATOR_ID);
    EncodeClean(first.text, SEPARATOR_TEXT);
    EncodeClean(second.id, SEPARATOR_ID);
    EncodeClean(second.text, SEPARATOR_TEXT);
    assert Encode(both.text) == both.text;
    assert Fingerprint(a) == [97, SEPARATOR_ID, 98, SEPARATOR_TEXT, 99, SEPARATOR_ID, 100, SEPARATOR_TEXT];
    assert SEPARATOR_TEXT in b[0].text;
  }

  /** Nor does it hold with lone surrogates, which are encoded like question marks. */
  lemma SurrogateAmbiguous() returns (a: Docs, b: Docs)
    ensures Clean(a) && !Clean(b) && Fingerprint(a) == Fingerprint(b) && !SamePairs(a, b)
  {
    var plain, lone := Doc([97], ['?' as int], 0), Doc([97], [0xD800], 0);
    a, b := [plain], [lone];
    OneDoc(plain);
    OneDoc(lone);
    assert Encode(lone.text) == ['?' as int] == Encode(plain.text);
    assert !CleanText(b[0].text, SEPARATOR_TEXT) by { assert lone.text[0] == 0xD800; }
  }

  // ---------------------------------------------------------------- the cache

  function Texts(docs: Docs): seq<Text> {
    seq(|docs|, i requires 0 <= i < |docs| => docs[i].text)
  }

  /** A cached index over weights of type W: vectors and idf table are one value of W. */
  datatype Entry<W> = Entry(docs: Docs, weights: W, fingerprint: Text)

  function BuildIndex<W(==,!new)>(weigh: seq<Text> -> W, docs: Docs): Entry<W> {
    Entry(docs, weigh(Texts(docs)), Fingerprint(docs))
  }

  /** The cache in recency order, least recently used first. */
  type Cache<W> = seq<(nat, Entry<W>)>

  predicate DistinctKeys<W(==,!new)>(c: Cache<W>) {
    forall i, j :: 0 <= i < j < |c| ==> c[i].0 != c[j].0
  }

  function Lookup<W(==,!new)>(c: Cache<W>, key: nat): (r: Option<Entry<W>>)
    ensures r.None? <==> forall i :: 0 <= i < |c| ==> c[i].0 != key
    ensures r.Some? ==> exists i :: 0 <= i < |c| && c[i] == (key, r.value)
  {
    if c == [] then None
    else if c[0].0 == key then
      assert c[0] == (key, c[0].1);
      Some(c[0].1)
    else
      var r := Lookup(c[1..], key);
      assert forall i :: 0 < i < |c| ==> c[i] == c[1..][i - 1];
      r
  }

  function Drop<W(==,!new)>(c: Cache<W>, key: nat): (r: Cache<W>)
    ensures |r| <= |c|
    ensures forall e :: e in r <==> e in c && e.0 != key
  {
    if c == [] then []
    else
      assert c == [c[0]] + c[1..];
      if c[0].0 == key then Drop(c[1..], key) else [c[0]] + Drop(c[1..], key)
  }

  lemma {:induction false} DropKeepsDistinct<W(!new)>(c: Cache<W>, key: nat)
    requires DistinctKeys(c)
    ensures DistinctKeys(Drop(c, key))
  {
    if c != [] {
      DropKeepsDistinct(c[1..], key);
      var rest := Drop(c[1..], key);
      forall i | 0 <= i < |rest|
        ensures rest[i].0 != c[0].0
      {
        assert rest[i] in rest;
        assert rest[i] in c[1..];
      }
    }
  }

  function Newest<W(==,!new)>(c: Cache<W>, n: nat): Cache<W> {
    if |c| <= n then c else c[|c| - n..]
  }

  function Touch<W(==,!new)>(c: Cache<W>, key: nat): Cache<W> {
    var e := Lookup(c, key);
    if e.None? then c else Drop(c, key) + [(key, e.value)]
  }

  function Put<W(==,!new)>(c: Cache<W>, key: nat, entry: Entry<W>): Cache<W> {
    Newest(Drop(c, key) + [(key, entry)], MAX_ENTRIES)
  }

  class IndexCache<W(==,!new)> {
    const weigh: seq<Text> -> W
    var entries: Cache<W>

    constructor (weigh: seq<Text> -> W)
      ensures this.weigh == weigh && entries == []
    {
      this.weigh, entries := weigh, [];
    }

    method CacheGet(key: nat) returns (entry: Option<Entry<W>>)
      modifies this
      ensures entry == Lookup(old(entries), key) && entries == Touch(old(entries), key)
      ensures forall other :: Lookup(entries, other) == Lookup(old(entries), other)
      ensures if entry.None? then entries == old(entries)
              else entries != [] && entries[|entries| - 1] == (key, entry.value)
    {
      TouchKeepsLookups(entries, key);
      entry := Lookup(entries, key);
      if entry.Some? {
        entries := Drop(entries, key) + [(key, entry.value)];
      }
    }

    /** Insert or replace as most recent, then evict from the old end while over the limit. */
    method CachePut(key: nat, entry: Entry<W>)
      modifies this
      ensures entries == Put(old(entries), key, entry)
      ensures |entries| <= 128 && entries != [] && entries[|entries| - 1] == (key, entry)
      ensures OldestMakesRoom(old(entries), entries, key, entry)
    {
      PutMakesRoom(entries, key, entry);
      entries := Drop(entries, key) + [(key, entry)];
      ghost var full := entries;
      while |entries| > MAX_ENTRIES
        invariant |entries| <= |full| && entries == full[|full| - |entries|..]
        invariant |full| >= MAX_ENTRIES ==> |entries| >= MAX_ENTRIES
        invariant |full| < MAX_ENTRIES ==> entries == full
        decreases |entries|
      {
        entries := entries[1..];
      }
    }

    method ClearCacheKey(key: nat)
      modifies this
      ensures entries == Drop(old(entries), key)
      ensures Lookup(entries, key).None?
      ensures forall other :: other != key ==> Lookup(entries, other) == Lookup(old(entries), other)
    {
      forall other | other != key
        ensures Lookup(Drop(entries, key), other) == Lookup(entries, other)
      {
        DropKeepsLookup(entries, key, other);
      }
      entries := Drop(entries, key);
    }

    method BuildVectorStore(key: Option<nat>, docs: Docs)
      modifies this
      ensures entries == if key.Some? then Put(old(entries), key.value, BuildIndex(weigh, docs)) else old(entries)
      ensures key.Some? ==> Lookup(entries, key.value) == Some(BuildIndex(weigh, docs)) && |entries| <= MAX_ENTRIES
    {
      if key.Some? {
        PutIsFound(entries, key.value, BuildIndex(weigh, docs));
        CachePut(key.value, BuildIndex(weigh, docs));
      }
    }

    /** The start of retrieve_context: the index that the ranking will use is the cached one if its fingerprint is that
        of the documents passed in, and a fresh one, put under the key, otherwise. */
    method IndexFor(key: Option<nat>, docs: Docs) returns (index: Entry<W>)
      requires Trustworthy(weigh, entries)
      modifies this
      ensures Trustworthy(weigh, entries)
      ensures index == BuildIndex(weigh, index.docs) && Fingerprint(index.docs) == Fingerprint(docs)
      ensures if PassesCheck(old(entries), key, docs) then
                index == Lookup(old(entries), key.value).value && entries == Touch(old(entries), key.value)
              else
                && index == BuildIndex(weigh, docs)
                && (key.Some? ==> Lookup(entries, key.value) == Some(index))
                && (key.None? ==> entries == old(entries))
      ensures Clean(docs) ==> (SamePairs(index.docs, docs) <==> Clean(index.docs))
      ensures Clean(docs) && Clean(index.docs) ==> index.weights == weigh(Texts(docs))
    {
      var cached: Option<Entry<W>> := None;
      if key.Some? {
        if Lookup(entries, key.value).Some? {
          LookupIsTrustworthy(weigh, entries, key.value);
        }
        TouchKeepsTrust(weigh, entries, key.value);
        cached := CacheGet(key.value);
      }
      if cached.None? || cached.value.fingerprint != Fingerprint(docs) {
        index := BuildIndex(weigh, docs);
        if key.Some? {
          PutKeepsTrust(weigh, entries, key.value, docs);
          PutIsFound(entries, key.value, index);
          CachePut(key.value, index);
        }
      } else {
        index := cached.value;
      }
      CheckedWeights(weigh, index, docs);
    }
  }

  /** The key has the entry. Every other key keeps its own, but for the least recently used one when the key is new and
      there are 128 others. */
  ghost predicate OldestMakesRoom<W(!new)>(before: Cache<W>, after: Cache<W>, key: nat, entry: Entry<W>) {
    && Lookup(after, key) == Some(entry)
    && (DistinctKeys(before) && |before| <= 128 ==>
          forall other :: other != key ==>
            Lookup(after, other) ==
              if |before| == 128 && Lookup(before, key).None? && other == before[0].0 then None
              else Lookup(before, other))
  }

  lemma {:induction false} LookupAppended<W(!new)>(rest: Cache<W>, last: (nat, Entry<W>), key: nat)
    ensures Lookup(rest + [last], key) ==
            if Lookup(rest, key).Some? then Lookup(rest, key) else if last.0 == key then Some(last.1) else None
  {
    if rest == [] {
      assert rest + [last] == [last];
    } else {
      assert (rest + [last])[1..] == rest[1..] + [last];
      LookupAppended(rest[1..], last, key);
    }
  }

  lemma {:induction false} DropAbsent<W(!new)>(c: Cache<W>, key: nat)
    requires Lookup(c, key).None?
    ensures Drop(c, key) == c
  {
    if c != [] {
      DropAbsent(c[1..], key);
    }
  }

  lemma TouchKeepsLookups<W(!new)>(c: Cache<W>, key: nat)
    ensures forall other :: Lookup(Touch(c, key), other) == Lookup(c, other)
  {
    forall other | Lookup(c, key).Some?
      ensures Lookup(Touch(c, key), other) == Lookup(c, other)
    {
      LookupAppended(Drop(c, key), (key, Lookup(c, key).value), other);
      if other != key {
        DropKeepsLookup(c, key, other);
      }
    }
  }

  /** A new key in a full cache replaces the first one. */
  lemma FullCacheLosesOldest<W(!new)>(c: Cache<W>, key: nat, entry: Entry<W>, other: nat)
    requires DistinctKeys(c) && |c| == 128 && Lookup(c, key).None? && other != key
    ensures Lookup(Put(c, key, entry), other) == if other == c[0].0 then None else Lookup(c, other)
  {
    DropAbsent(c, key);
    assert Put(c, key, entry) == c[1..] + [(key, entry)];
    LookupAppended(c[1..], (key, entry), other);
    assert other == c[0].0 ==> Lookup(c[1..], other).None?;
  }

  lemma RoomyCacheKeepsAll<W(!new)>(c: Cache<W>, key: nat, entry: Entry<W>, other: nat)
    requires |c| <= 128 && (|c| < 128 || Lookup(c, key).Some?) && other != key
    ensures Lookup(Put(c, key, entry), other) == Lookup(c, other)
  {
    if Lookup(c, key).Some? {
      DropShortens(c, key);
    }
    LookupAppended(Drop(c, key), (key, entry), other);
    DropKeepsLookup(c, key, other);
  }

  lemma PutMakesRoom<W(!new)>(c: Cache<W>, key: nat, entry: Entry<W>)
    ensures OldestMakesRoom(c, Put(c, key, entry), key, entry)
  {
    PutIsFound(c, key, entry);
    forall other | other != key && DistinctKeys(c) && |c| <= 128
      ensures Lookup(Put(c, key, entry), other) ==
              if |c| == 128 && Lookup(c, key).None? && other == c[0].0 then None else Lookup(c, other)
    {
      if |c| == 128 && Lookup(c, key).None? {
        FullCacheLosesOldest(c, key, entry, other);
      } else {
        RoomyCacheKeepsAll(c, key, entry, other);
      }
    }
  }

  predicate PassesCheck<W(==,!new)>(c: Cache<W>, key: Option<nat>, docs: Docs) {
    key.Some? && Lookup(c, key.value).Some? && Lookup(c, key.value).value.fingerprint == Fingerprint(docs)
  }

  lemma {:induction false} LookupLast<W(!new)>(rest: Cache<W>, key: nat, entry: Entry<W>)
    requires forall e :: e in rest ==> e.0 != key
    ensures Lookup(rest + [(key, entry)], key) == Some(entry)
  {
    if rest == [] {
      assert rest + [(key, entry)] == [(key, entry)];
    } else {
      assert (rest + [(key, entry)])[1..] == rest[1..] + [(key, entry)];
      LookupLast(rest[1..], key, entry);
    }
  }

  /** What has just been put is there, and the bound holds. */
  lemma PutIsFound<W(!new)>(c: Cache<W>, key: nat, entry: Entry<W>)
    ensures Lookup(Put(c, key, entry), key) == Some(entry) && |Put(c, key, entry)| <= MAX_ENTRIES
  {
    var rest := Drop(c, key);
    var n := if |rest| + 1 <= MAX_ENTRIES then 0 else |rest| + 1 - MAX_ENTRIES;
    assert Put(c, key, entry) == rest[n..] + [(key, entry)];
    LookupLast(rest[n..], key, entry);
  }

  // ---------------------------------------------------------------- histories

  /** Every entry is a faithful index of the documents it holds; keys are distinct and the size is bounded. */
  predicate Trustworthy<W(==,!new)>(weigh: seq<Text> -> W, c: Cache<W>) {
    && |c| <= MAX_ENTRIES
    && DistinctKeys(c)
    && Faithful(weigh, c)
  }

  /** What the locked sections of any threads may do to the cache, under any key. */
  datatype Op = PutOp(key: nat, docs: Docs) | GetOp(key: nat) | ClearOp(key: nat)

  function Apply<W(==,!new)>(weigh: seq<Text> -> W, c: Cache<W>, op: Op): Cache<W> {
    match op
    case PutOp(key, docs) => Put(c, key, BuildIndex(weigh, docs))
    case GetOp(key) => Touch(c, key)
    case ClearOp(key) => Drop(c, key)
  }

  function After<W(==,!new)>(weigh: seq<Text> -> W, ops: seq<Op>): Cache<W> {
    if ops == [] then [] else Apply(weigh, After(weigh, ops[..|ops| - 1]), ops[|ops| - 1])
  }

  lemma LookupIsTrustworthy<W(!new)>(weigh: seq<Text> -> W, c: Cache<W>, key: nat)
    requires Trustworthy(weigh, c) && Lookup(c, key).Some?
    ensures var e := Lookup(c, key).value; e == BuildIndex(weigh, e.docs)
  {
  }

  /** An index that passed the check against clean documents is theirs exactly if its own are clean, and then so are its
      weights. */
  lemma CheckedWeights<W(!new)>(weigh: seq<Text> -> W, index: Entry<W>, docs: Docs)
    requires index == BuildIndex(weigh, index.docs) && index.fingerprint == Fingerprint(docs)
    ensures Clean(docs) ==> (SamePairs(index.docs, docs) <==> Clean(index.docs))
    ensures Clean(docs) && Clean(index.docs) ==> index.weights == weigh(Texts(docs))
  {
    if Clean(docs) {
      CheckIsExact(index.docs, docs);
      assert SamePairs(index.docs, docs) ==> Texts(index.docs) == Texts(docs);
    }
  }

  predicate Faithful<W(==,!new)>(weigh: seq<Text> -> W, c: Cache<W>) {
    forall i :: 0 <= i < |c| ==> c[i].1 == BuildIndex(weigh, c[i].1.docs)
  }

  lemma DropIsTrustworthy<W(!new)>(weigh: seq<Text> -> W, c: Cache<W>, key: nat)
    requires Trustworthy(weigh, c)
    ensures Trustworthy(weigh, Drop(c, key))
  {
    var rest := Drop(c, key);
    DropKeepsDistinct(c, key);
    forall i | 0 <= i < |rest|
      ensures rest[i].1 == BuildIndex(weigh, rest[i].1.docs)
    {
      assert rest[i] in rest;
      var j :| 0 <= j < |c| && c[j] == rest[i];
    }
  }

  /** If the key is there, dropping it makes room. */
  lemma {:induction false} DropShortens<W(!new)>(c: Cache<W>, key: nat)
    requires Lookup(c, key).Some?
    ensures |Drop(c, key)| < |c|
  {
    if c[0].0 != key {
      DropShortens(c[1..], key);
    }
  }

  lemma AppendIsFaithful<W(!new)>(weigh: seq<Text> -> W, rest: Cache<W>, key: nat, entry: Entry<W>)
    requires DistinctKeys(rest) && Faithful(weigh, rest) && forall e :: e in rest ==> e.0 != key
    requires entry == BuildIndex(weigh, entry.docs)
    ensures DistinctKeys(rest + [(key, entry)]) && Faithful(weigh, rest + [(key, entry)])
  {
    assert forall i :: 0 <= i < |rest| ==> rest[i] in rest;
  }

  lemma NewestIsTrustworthy<W(!new)>(weigh: seq<Text> -> W, c: Cache<W>)
    requires DistinctKeys(c) && Faithful(weigh, c)
    ensures Trustworthy(weigh, Newest(c, MAX_ENTRIES))
  {
  }

  lemma PutKeepsTrust<W(!new)>(weigh: seq<Text> -> W, c: Cache<W>, key: nat, docs: Docs)
    requires Trustworthy(weigh, c)
    ensures Trustworthy(weigh, Put(c, key, BuildIndex(weigh, docs)))
  {
    DropIsTrustworthy(weigh, c, key);
    AppendIsFaithful(weigh, Drop(c, key), key, BuildIndex(weigh, docs));
    NewestIsTrustworthy(weigh, Drop(c, key) + [(key, BuildIndex(weigh, docs))]);
  }

  lemma TouchKeepsTrust<W(!new)>(weigh: seq<Text> -> W, c: Cache<W>, key: nat)
    requires Trustworthy(weigh, c)
    ensures Trustworthy(weigh, Touch(c, key))
  {
    if Lookup(c, key).Some? {
      DropIsTrustworthy(weigh, c, key);
      DropShortens(c, key);
      LookupIsTrustworthy(weigh, c, key);
      AppendIsFaithful(weigh, Drop(c, key), key, Lookup(c, key).value);
    }
  }

  lemma ApplyKeepsTrust<W(!new)>(weigh: seq<Text> -> W, c: Cache<W>, op: Op)
    requires Trustworthy(weigh, c)
    ensures Trustworthy(weigh, Apply(weigh, c, op))
  {
    match op
    case PutOp(key, docs) => PutKeepsTrust(weigh, c, key, docs);
    case GetOp(key) => TouchKeepsTrust(weigh, c, key);
    case ClearOp(key) => DropIsTrustworthy(weigh, c, key);
  }

  lemma {:induction false} AfterIsTrustworthy<W(!new)>(weigh: seq<Text> -> W, ops: seq<Op>)
    ensures Trustworthy(weigh, After(weigh, ops))
  {
    if ops != [] {
      AfterIsTrustworthy(weigh, ops[..|ops| - 1]);
      ApplyKeepsTrust(weigh, After(weigh, ops[..|ops| - 1]), ops[|ops| - 1]);
    }
  }

  // ---------------------------------------------------------------- what a cached index is an index of

  /** The documents last put under the key. */
  function LastPut(ops: seq<Op>, key: nat): Option<Docs> {
    if ops == [] then None
    else
      var last := ops[|ops| - 1];
      if last.PutOp? && last.key == key then Some(last.docs) else LastPut(ops[..|ops| - 1], key)
  }

  predicate HoldsLastPut<W(==,!new)>(weigh: seq<Text> -> W, c: Cache<W>, ops: seq<Op>) {
    forall e :: e in c ==> LastPut(ops, e.0).Some? && e.1 == BuildIndex(weigh, LastPut(ops, e.0).value)
  }

  lemma NextHoldsLastPut<W(!new)>(weigh: seq<Text> -> W, c: Cache<W>, ops: seq<Op>, op: Op)
    requires HoldsLastPut(weigh, c, ops)
    ensures HoldsLastPut(weigh, Apply(weigh, c, op), ops + [op])
  {
    assert (ops + [op])[..|ops|] == ops;
    forall e | e in Apply(weigh, c, op)
      ensures LastPut(ops + [op], e.0).Some? && e.1 == BuildIndex(weigh, LastPut(ops + [op], e.0).value)
    {
      if op.PutOp? && e !in Drop(c, op.key) {
        assert e == (op.key, BuildIndex(weigh, op.docs));
      } else {
        assert e in c;
      }
    }
  }

  /** After any history, every entry is a fresh index of what was last put under its key. */
  lemma {:induction false} EntriesAreLastPut<W(!new)>(weigh: seq<Text> -> W, ops: seq<Op>)
    ensures HoldsLastPut(weigh, After(weigh, ops), ops)
  {
    if ops != [] {
      EntriesAreLastPut(weigh, ops[..|ops| - 1]);
      NextHoldsLastPut(weigh, After(weigh, ops[..|ops| - 1]), ops[..|ops| - 1], ops[|ops| - 1]);
      assert ops == ops[..|ops| - 1] + [ops[|ops| - 1]];
    }
  }

  /** Transparency: after any history under any keys an entry is a fresh index of what was last put under its key. If it
      passes the check against clean documents, its ids and texts are theirs exactly if what was put was clean, and then
      its weights are the fresh ones. */
  lemma CacheIsTransparent<W(!new)>(weigh: seq<Text> -> W, ops: seq<Op>, key: nat, docs: Docs)
    requires Lookup(After(weigh, ops), key).Some?
    ensures |After(weigh, ops)| <= MAX_ENTRIES
    ensures LastPut(ops, key).Some?
    ensures var (entry, put) := (Lookup(After(weigh, ops), key).value, LastPut(ops, key).value);
            && entry == BuildIndex(weigh, put)
            && (entry.fingerprint == Fingerprint(docs) && Clean(docs) ==>
                  && (SamePairs(entry.docs, docs) <==> Clean(put))
                  && (Clean(put) ==> entry.weights == BuildIndex(weigh, docs).weights))
  {
    AfterIsTrustworthy(weigh, ops);
    EntriesAreLastPut(weigh, ops);
    var entry := Lookup(After(weigh, ops), key).value;
    assert (key, entry) in After(weigh, ops);
    if entry.fingerprint == Fingerprint(docs) {
      CheckedWeights(weigh, entry, docs);
    }
  }

  /** The fingerprint does not cover type, table, metadata or priority. The documents of a cached index are the ones at
      hand, details and all, if and only if those are what was last put under the key. */
  lemma CachedDetailsAreRightExactly<W(!new)>(weigh: seq<Text> -> W, ops: seq<Op>, key: nat, docs: Docs)
    requires Lookup(After(weigh, ops), key).Some?
    ensures Lookup(After(weigh, ops), key).value.docs == docs <==> LastPut(ops, key) == Some(docs)
  {
    CacheIsTransparent(weigh, ops, key, docs);
  }

  /** A history after which the details are not right although the check passes. */
  lemma CachedDetailsMayBeStale<W(!new)>(weigh: seq<Text> -> W) returns (ops: seq<Op>, docs: Docs)
    ensures Clean(docs) && LastPut(ops, 0).Some? && Clean(LastPut(ops, 0).value)
    ensures Lookup(After(weigh, ops), 0).Some? && Lookup(After(weigh, ops), 0).value.fingerprint == Fingerprint(docs)
    ensures Lookup(After(weigh, ops), 0).value.docs != docs
  {
    ops, docs := [PutOp(0, [Doc([97], [98], 1)])], [Doc([97], [98], 2)];
    assert ops[..0] == [];
    OneDoc(Doc([97], [98], 1));
    OneDoc(Doc([97], [98], 2));
  }

  // ---------------------------------------------------------------- recency

  /** When `key` was last put or got, counted in operations; 0 if never. */
  function LastUse(ops: seq<Op>, key: nat): nat {
    if ops == [] then 0
    else if ops[|ops| - 1].key == key && !ops[|ops| - 1].ClearOp? then |ops|
    else LastUse(ops[..|ops| - 1], key)
  }

  predicate RecencyOrdered<W(==,!new)>(c: Cache<W>, ops: seq<Op>) {
    && (forall i :: 0 <= i < |c| ==> 0 < LastUse(ops, c[i].0) <= |ops|)
    && forall i, j :: 0 <= i < j < |c| ==> LastUse(ops, c[i].0) < LastUse(ops, c[j].0)
  }

  lemma {:induction false} LastUseBounded(ops: seq<Op>, key: nat)
    ensures LastUse(ops, key) <= |ops|
  {
    if ops != [] {
      LastUseBounded(ops[..|ops| - 1], key);
    }
  }

  predicate AllUsedAfter<W(==,!new)>(c: Cache<W>, ops: seq<Op>, time: nat) {
    forall x :: x in c ==> time < LastUse(ops, x.0)
  }

  lemma {:induction false} TailIsLater<W(!new)>(c: Cache<W>, ops: seq<Op>)
    requires c != [] && RecencyOrdered(c, ops)
    ensures RecencyOrdered(c[1..], ops) && AllUsedAfter(c[1..], ops, LastUse(ops, c[0].0))
  {
    assert forall i :: 0 <= i < |c| - 1 ==> c[1..][i] == c[i + 1];
  }

  lemma {:induction false} LaterTail<W(!new)>(e: (nat, Entry<W>), rest: Cache<W>, ops: seq<Op>)
    requires RecencyOrdered(rest, ops) && AllUsedAfter(rest, ops, LastUse(ops, e.0)) && 0 < LastUse(ops, e.0) <= |ops|
    ensures RecencyOrdered([e] + rest, ops)
  {
    assert forall i :: 0 <= i < |rest| ==> rest[i] in rest;
  }

  lemma {:induction false} DropKeepsOrder<W(!new)>(c: Cache<W>, ops: seq<Op>, key: nat)
    requires RecencyOrdered(c, ops)
    ensures RecencyOrdered(Drop(c, key), ops)
  {
    if c != [] {
      TailIsLater(c, ops);
      DropKeepsOrder(c[1..], ops, key);
      if c[0].0 != key {
        LaterTail(c[0], Drop(c[1..], key), ops);
      }
    }
  }

  lemma AppendKeepsOrder<W(!new)>(rest: Cache<W>, ops: seq<Op>, op: Op, e: (nat, Entry<W>))
    requires RecencyOrdered(rest, ops) && !op.ClearOp? && e.0 == op.key && forall x :: x in rest ==> x.0 != op.key
    ensures RecencyOrdered(rest + [e], ops + [op])
  {
    assert (ops + [op])[..|ops|] == ops;
    forall i | 0 <= i < |rest|
      ensures LastUse(ops + [op], rest[i].0) == LastUse(ops, rest[i].0)
    {
      assert rest[i] in rest;
    }
  }

  lemma OtherKeysKeepOrder<W(!new)>(rest: Cache<W>, ops: seq<Op>, op: Op)
    requires RecencyOrdered(rest, ops) && forall x :: x in rest ==> x.0 != op.key
    ensures RecencyOrdered(rest, ops + [op])
  {
    assert (ops + [op])[..|ops|] == ops;
    forall i | 0 <= i < |rest|
      ensures LastUse(ops + [op], rest[i].0) == LastUse(ops, rest[i].0)
    {
      assert rest[i] in rest;
    }
  }

  /** The cache is always in order of last use, so what an insertion evicts was used before everything it keeps. */
  lemma {:induction false} CacheIsRecencyOrdered<W(!new)>(weigh: seq<Text> -> W, ops: seq<Op>)
    ensures RecencyOrdered(After(weigh, ops), ops)
  {
    if ops != [] {
      var init, op := ops[..|ops| - 1], ops[|ops| - 1];
      var c := After(weigh, init);
      assert ops == init + [op];
      CacheIsRecencyOrdered(weigh, init);
      DropKeepsOrder(c, init, op.key);
      match op
      case PutOp(key, docs) => AppendKeepsOrder(Drop(c, key), init, op, (key, BuildIndex(weigh, docs)));
      case ClearOp(key) => OtherKeysKeepOrder(Drop(c, key), init, op);
      case GetOp(key) =>
        if Lookup(c, key).Some? {
          AppendKeepsOrder(Drop(c, key), init, op, (key, Lookup(c, key).value));
        } else {
          OtherKeysKeepOrder(c, init, op);
        }
    }
  }

  predicate At<W(!new)>(c: Cache<W>, i: int, key: nat) {
    0 <= i < |c| && c[i].0 == key
  }

  lemma IndexOf<W(!new)>(c: Cache<W>, key: nat) returns (i: int)
    ensures Lookup(c, key).Some? ==> At(c, i, key)
    ensures Lookup(c, key).None? ==> forall j :: !At(c, j, key)
  {
    i := -1;
    if Lookup(c, key).Some? {
      i :| 0 <= i < |c| && c[i] == (key, Lookup(c, key).value);
    }
  }

  lemma SuffixKeepsLater<W(!new)>(rest: Cache<W>, last: (nat, Entry<W>), ops: seq<Op>, n: nat, i: int, j: int,
                           lost: nat, kept: nat)
    requires RecencyOrdered(rest, ops) && kept != last.0
    requires At(rest, i, lost) && (forall m :: !At(Newest(rest + [last], n), m, lost))
              && At(Newest(rest + [last], n), j, kept)
    ensures LastUse(ops, lost) < LastUse(ops, kept)
  {
    var full := rest + [last];
    var after := Newest(full, n);
    var k := |full| - |after|;
    assert forall m :: 0 <= m < |after| ==> after[m] == full[k + m];
    assert i >= k ==> At(after, i - k, lost);
    assert rest[k + j] == full[k + j];
  }

  lemma {:induction false} DropKeepsLookup<W(!new)>(c: Cache<W>, key: nat, other: nat)
    requires other != key
    ensures Lookup(Drop(c, key), other) == Lookup(c, other)
  {
    if c != [] {
      DropKeepsLookup(c[1..], key, other);
      var rest := Drop(c[1..], key);
      assert ([c[0]] + rest)[1..] == rest;
    }
  }

  /** What a put evicts was used before everything it keeps. */
  lemma EvictsLeastRecentlyUsed<W(!new)>(weigh: seq<Text> -> W, ops: seq<Op>, put: Op, lost: nat, kept: nat)
    requires put.PutOp? && lost != put.key && kept != put.key
    requires Lookup(After(weigh, ops), lost).Some?
    requires Lookup(Apply(weigh, After(weigh, ops), put), lost).None?
    requires Lookup(Apply(weigh, After(weigh, ops), put), kept).Some?
    ensures LastUse(ops, lost) < LastUse(ops, kept)
  {
    var c := After(weigh, ops);
    CacheIsRecencyOrdered(weigh, ops);
    DropKeepsOrder(c, ops, put.key);
    DropKeepsLookup(c, put.key, lost);
    var rest, last := Drop(c, put.key), (put.key, BuildIndex(weigh, put.docs));
    var i := IndexOf(rest, lost);
    var j := IndexOf(Newest(rest + [last], MAX_ENTRIES), kept);
    var _ := IndexOf(Newest(rest + [last], MAX_ENTRIES), lost);
    SuffixKeepsLater(rest, last, ops, MAX_ENTRIES, i, j, lost, kept);
  }
}
