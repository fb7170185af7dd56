/** Binding of string literals (modules/sql_params.py): the text around the bound literals is untouched, and the stack
    of parentheses answers the question it is meant to answer. The tokenizer is not part of this model; a token list is
    any ordered list of disjoint spans of the text. */
module SqlParams {
  datatype TokenType = LParen | RParen | In | Select | With | String | And | Between | Comma | Not | Eq
                     | OtherComparison | Other

  /** `start` and `end` are the offsets of the first and the last character. */
  datatype Token = Token(kind: TokenType, start: nat, end: nat, text: string)
  type Tokens = seq<Token>

  predicate Comparison(k: TokenType) {
    k == Eq || k == OtherComparison || k == Between
  }

  predicate Spans(sql: string, ts: Tokens) {
    && (forall i :: 0 <= i < |ts| ==> ts[i].start <= ts[i].end < |sql|)
    && (forall i, j :: 0 <= i < j < |ts| ==> ts[i].end < ts[j].start)
  }

  // ---------------------------------------------------------------- which literals are bound

  /** An opening parenthesis of an IN list that does not open with a subquery. */
  predicate OpensInList(ts: Tokens, i: nat)
    requires i < |ts|
  {
    && ts[i].kind == LParen
    && i > 0 && ts[i - 1].kind == In
    && !(i + 1 < |ts| && (ts[i + 1].kind == Select || ts[i + 1].kind == With))
  }

  /** How many parentheses are open after the first `n` tokens; a closing one too many is ignored. */
  function Height(ts: Tokens, n: nat): nat
    requires n <= |ts|
  {
    if n == 0 then 0
    else
      var before := Height(ts, n - 1);
      if ts[n - 1].kind == LParen then before + 1
      else if ts[n - 1].kind == RParen && before > 0 then before - 1
      else before
  }

  /** The parenthesis at `j` is open after the first `n` tokens: the height has stayed above what it was before it. */
  ghost predicate StillOpen(ts: Tokens, j: nat, n: nat)
    requires n <= |ts|
  {
    j < n && ts[j].kind == LParen && forall k :: j < k <= n ==> Height(ts, k) > Height(ts, j)
  }

  /** It is the last one opened of those still open. */
  ghost predicate InnermostOpen(ts: Tokens, j: nat, n: nat)
    requires n <= |ts|
  {
    StillOpen(ts, j, n) && forall k :: j < k < n ==> !StillOpen(ts, k, n)
  }

  /** Token `i` stands directly inside an IN list. */
  ghost predicate InsideInList(ts: Tokens, i: nat)
    requires i < |ts|
  {
    exists j {:trigger InnermostOpen(ts, j, i + 1)} :: 0 <= j < |ts| && InnermostOpen(ts, j, i + 1)
        && OpensInList(ts, j)
  }

  predicate BetweenNearby(ts: Tokens, i: nat)
    requires i < |ts|
  {
    exists k :: (if i < 4 then 0 else i - 4) <= k < i && ts[k].kind == Between
  }

  /** A literal is bound if it is a comparison operand, a BETWEEN bound, or a member of an IN list. */
  ghost predicate Bound(ts: Tokens, i: nat)
    requires i < |ts|
  {
    && ts[i].kind == String
    && i > 0
    && (|| Comparison(ts[i - 1].kind)
        || (ts[i - 1].kind == And && BetweenNearby(ts, i))
        || (InsideInList(ts, i) && (ts[i - 1].kind == LParen || ts[i - 1].kind == Comma)))
  }

  /** The same by token kinds: a comparison or BETWEEN just before, an AND just before and a BETWEEN among the four
      tokens before, or an opening parenthesis or comma just before in a list whose parenthesis follows IN and opens no
      subquery. */
  ghost predicate OperandBehind(ts: Tokens, i: nat)
    requires 0 < i < |ts|
  {
    var prev := ts[i - 1].kind;
    || prev == Eq || prev == OtherComparison || prev == Between
    || (prev == And && exists k :: 0 <= k < i <= k + 4 && ts[k].kind == Between)
    || ((prev == LParen || prev == Comma)
        && exists j {:trigger InnermostOpen(ts, j, i + 1)} :: 0 < j < |ts| && InnermostOpen(ts, j, i + 1)
             && ts[j - 1].kind == In && (j + 1 < |ts| ==> ts[j + 1].kind != Select && ts[j + 1].kind != With))
  }

  lemma OperandsAreBound(ts: Tokens, i: nat)
    requires i < |ts|
    ensures Bound(ts, i) <==> ts[i].kind == String && i > 0 && OperandBehind(ts, i)
  {
    if i > 0 {
      assert BetweenNearby(ts, i) <==> exists k :: 0 <= k < i <= k + 4 && ts[k].kind == Between;
    }
  }

  // ---------------------------------------------------------------- the stack

  function StackStep(ts: Tokens, i: nat, stack: seq<bool>): seq<bool>
    requires i < |ts|
  {
    if ts[i].kind == LParen then stack + [OpensInList(ts, i)]
    else if ts[i].kind == RParen && stack != [] then stack[..|stack| - 1]
    else stack
  }

  /** The stack after the first `n` tokens: a closing parenthesis too many is ignored. */
  function StackAfter(ts: Tokens, n: nat): seq<bool>
    requires n <= |ts|
  {
    if n == 0 then [] else StackStep(ts, n - 1, StackAfter(ts, n - 1))
  }

  /** The same on the positions of the parentheses instead of the answers for them. */
  function OpenStep(ts: Tokens, i: nat, open: seq<nat>): seq<nat>
    requires i < |ts|
  {
    if ts[i].kind == LParen then open + [i]
    else if ts[i].kind == RParen && open != [] then open[..|open| - 1]
    else open
  }

  function OpenAfter(ts: Tokens, n: nat): (open: seq<nat>)
    requires n <= |ts|
    ensures forall s :: 0 <= s < |open| ==> open[s] < n
  {
    if n == 0 then [] else OpenStep(ts, n - 1, OpenAfter(ts, n - 1))
  }

  lemma {:induction false} StackAnswers(ts: Tokens, n: nat)
    requires n <= |ts|
    ensures |StackAfter(ts, n)| == |OpenAfter(ts, n)|
    ensures forall s :: 0 <= s < |OpenAfter(ts, n)| ==> StackAfter(ts, n)[s] == OpensInList(ts, OpenAfter(ts, n)[s])
  {
    if n > 0 {
      StackAnswers(ts, n - 1);
    }
  }

  /** `open` lists the parentheses still open, from the outermost to the innermost. */
  ghost predicate OpenOnes(ts: Tokens, n: nat, open: seq<nat>)
    requires n <= |ts|
  {
    && |open| == Height(ts, n)
    && (forall s :: 0 <= s < |open| ==> StillOpen(ts, open[s], n) && Height(ts, open[s]) == s)
    && (forall s, r :: 0 <= s < r < |open| ==> open[s] < open[r])
    && (forall j {:trigger StillOpen(ts, j, n)} :: 0 <= j < n && StillOpen(ts, j, n) ==>
         Height(ts, j) < |open| && open[Height(ts, j)] == j)
  }

  lemma {:induction false} StillOpenStep(ts: Tokens, j: nat, n: nat)
    requires n < |ts| && j < n
    ensures StillOpen(ts, j, n + 1) <==> StillOpen(ts, j, n) && Height(ts, n + 1) > Height(ts, j)
  {
  }

  lemma {:induction false} StepKeepsOnes(ts: Tokens, n: nat, open: seq<nat>, s: nat)
    requires n < |ts| && |open| == Height(ts, n) && s < |OpenStep(ts, n, open)|
    requires s < |open| ==> StillOpen(ts, open[s], n) && Height(ts, open[s]) == s
    ensures var j := OpenStep(ts, n, open)[s]; StillOpen(ts, j, n + 1) && Height(ts, j) == s
  {
    if s < |open| {
      StillOpenStep(ts, open[s], n);
    }
  }

  lemma {:induction false} StepKeepsAll(ts: Tokens, n: nat, open: seq<nat>, j: nat)
    requires n < |ts| && OpenOnes(ts, n, open) && j < n + 1 && StillOpen(ts, j, n + 1)
    ensures Height(ts, j) < |OpenStep(ts, n, open)| && OpenStep(ts, n, open)[Height(ts, j)] == j
  {
    if j < n {
      StillOpenStep(ts, j, n);
    }
  }

  lemma {:induction false} StepKeepsOpen(ts: Tokens, n: nat, open: seq<nat>)
    requires n < |ts| && OpenOnes(ts, n, open)
    ensures OpenOnes(ts, n + 1, OpenStep(ts, n, open))
  {
    forall s | 0 <= s < |OpenStep(ts, n, open)|
      ensures StillOpen(ts, OpenStep(ts, n, open)[s], n + 1) && Height(ts, OpenStep(ts, n, open)[s]) == s
    {
      StepKeepsOnes(ts, n, open, s);
    }
    forall j | 0 <= j < n + 1 && StillOpen(ts, j, n + 1)
      ensures Height(ts, j) < |OpenStep(ts, n, open)| && OpenStep(ts, n, open)[Height(ts, j)] == j
    {
      StepKeepsAll(ts, n, open, j);
    }
  }

  lemma NoneOpen(ts: Tokens)
    ensures OpenOnes(ts, 0, [])
  {
  }

  lemma {:induction false} OpenAfterIsOpen(ts: Tokens, n: nat)
    requires n <= |ts|
    ensures OpenOnes(ts, n, OpenAfter(ts, n))
  {
    if n == 0 {
      NoneOpen(ts);
    } else {
      OpenAfterIsOpen(ts, n - 1);
      StepKeepsOpen(ts, n - 1, OpenAfter(ts, n - 1));
      assert OpenAfter(ts, n) == OpenStep(ts, n - 1, OpenAfter(ts, n - 1));
    }
  }

  lemma {:induction false} NoneAboveLast(ts: Tokens, n: nat, open: seq<nat>, k: nat)
    requires n <= |ts| && OpenOnes(ts, n, open) && k < n && StillOpen(ts, k, n)
    ensures open != [] && k <= open[|open| - 1]
  {
    assert open[Height(ts, k)] == k;
  }

  /** The innermost open parenthesis is the last of `open`. */
  ghost predicate InnermostIsLast(ts: Tokens, n: nat, open: seq<nat>)
    requires n <= |ts|
  {
    && (open != [] ==> open[|open| - 1] < n)
    && forall j :: 0 <= j < n ==> (InnermostOpen(ts, j, n) <==> open != [] && j == open[|open| - 1])
  }

  lemma OpenAfterEndsInnermost(ts: Tokens, n: nat, open: seq<nat>)
    requires n <= |ts| && OpenOnes(ts, n, open)
    ensures InnermostIsLast(ts, n, open)
  {
    forall k | 0 <= k < n && StillOpen(ts, k, n)
      ensures open != [] && k <= open[|open| - 1]
    {
      NoneAboveLast(ts, n, open, k);
    }
  }

  predicate Top(stack: seq<bool>) {
    stack != [] && stack[|stack| - 1]
  }

  lemma TopAnswers(ts: Tokens, n: nat)
    requires n <= |ts|
    ensures var open := OpenAfter(ts, n);
            Top(StackAfter(ts, n)) <==> open != [] && OpensInList(ts, open[|open| - 1])
  {
    StackAnswers(ts, n);
  }

  lemma InsideIsLast(ts: Tokens, i: nat, open: seq<nat>)
    requires i < |ts| && InnermostIsLast(ts, i + 1, open)
    ensures InsideInList(ts, i) <==> open != [] && OpensInList(ts, open[|open| - 1])
  {
    assert open != [] ==> InnermostOpen(ts, open[|open| - 1], i + 1);
  }

  /** The top of the stack is true exactly when the innermost open parenthesis is an IN list without subquery. */
  lemma TopIsInnermost(ts: Tokens, i: nat)
    requires i < |ts|
    ensures Top(StackAfter(ts, i + 1)) <==> InsideInList(ts, i)
  {
    TopAnswers(ts, i + 1);
    OpenAfterIsOpen(ts, i + 1);
    OpenAfterEndsInnermost(ts, i + 1, OpenAfter(ts, i + 1));
    InsideIsLast(ts, i, OpenAfter(ts, i + 1));
  }

  // ---------------------------------------------------------------- the text

  /** The query text in pieces: text that is kept, and marks that stand for a bound token. */
  datatype Piece = Kept(text: string) | Mark(span: string, param: string)

  function Written(p: Piece): string {
    if p.Kept? then p.text else "?"
  }

  function Original(p: Piece): string {
    if p.Kept? then p.text else p.span
  }

  /** The text that is sent: `?` for every mark. */
  function Sent(ps: seq<Piece>): string {
    if ps == [] then "" else Sent(ps[..|ps| - 1]) + Written(ps[|ps| - 1])
  }

  /** The text with every mark replaced by the span it stands for. */
  function Restored(ps: seq<Piece>): string {
    if ps == [] then "" else Restored(ps[..|ps| - 1]) + Original(ps[|ps| - 1])
  }

  /** The parameters, in the order of the marks. */
  function ParamsOf(ps: seq<Piece>): seq<string> {
    if ps == [] then []
    else ParamsOf(ps[..|ps| - 1]) + (if ps[|ps| - 1].Mark? then [ps[|ps| - 1].param] else [])
  }

  function MarkOf(sql: string, t: Token): Piece
    requires t.start <= t.end < |sql|
  {
    Mark(sql[t.start..t.end + 1], t.text)
  }

  /** The pieces up to the last of the chosen tokens among the first `n`, and where the text goes on. */
  function Pieces(sql: string, ts: Tokens, chosen: seq<bool>, n: nat): (r: (seq<Piece>, nat))
    requires n <= |ts| == |chosen| && Spans(sql, ts)
    ensures r.1 <= |sql| && forall k :: n <= k < |ts| ==> r.1 <= ts[k].start
  {
    if n == 0 then ([], 0)
    else
      var (ps, last) := Pieces(sql, ts, chosen, n - 1);
      var t := ts[n - 1];
      if chosen[n - 1] then (ps + [Kept(sql[last..t.start]), MarkOf(sql, t)], t.end + 1) else (ps, last)
  }

  function AllPieces(sql: string, ts: Tokens, chosen: seq<bool>): seq<Piece>
    requires |ts| == |chosen| && Spans(sql, ts)
  {
    var (ps, last) := Pieces(sql, ts, chosen, |ts|);
    ps + [Kept(sql[last..])]
  }

  lemma AppendPiece(ps: seq<Piece>, p: Piece)
    ensures Sent(ps + [p]) == Sent(ps) + Written(p)
    ensures Restored(ps + [p]) == Restored(ps) + Original(p)
    ensures ParamsOf(ps + [p]) == ParamsOf(ps) + (if p.Mark? then [p.param] else [])
  {
    assert (ps + [p])[..|ps|] == ps;
  }

  lemma AppendMark(ps: seq<Piece>, kept: string, mark: Piece)
    requires mark.Mark?
    ensures Sent(ps + [Kept(kept), mark]) == Sent(ps) + kept + "?"
    ensures Restored(ps + [Kept(kept), mark]) == Restored(ps) + kept + mark.span
    ensures ParamsOf(ps + [Kept(kept), mark]) == ParamsOf(ps) + [mark.param]
  {
    AppendPiece(ps, Kept(kept));
    AppendPiece(ps + [Kept(kept)], mark);
    assert ps + [Kept(kept)] + [mark] == ps + [Kept(kept), mark];
  }

  lemma Glue(s: string, i: nat, j: nat)
    requires i <= j <= |s|
    ensures s[..i] + s[i..j] == s[..j]
  {
  }

  lemma RestoreMark(sql: string, ps: seq<Piece>, last: nat, t: Token)
    requires last <= t.start <= t.end < |sql| && Restored(ps) == sql[..last]
    ensures Restored(ps + [Kept(sql[last..t.start]), MarkOf(sql, t)]) == sql[..t.end + 1]
  {
    AppendMark(ps, sql[last..t.start], MarkOf(sql, t));
    Glue(sql, last, t.start);
    Glue(sql, t.start, t.end + 1);
  }

  lemma {:induction false} PiecesRestoreText(sql: string, ts: Tokens, chosen: seq<bool>, n: nat)
    requires n <= |ts| == |chosen| && Spans(sql, ts)
    ensures Restored(Pieces(sql, ts, chosen, n).0) == sql[..Pieces(sql, ts, chosen, n).1]
  {
    if n > 0 {
      PiecesRestoreText(sql, ts, chosen, n - 1);
      if chosen[n - 1] {
        var (ps, last) := Pieces(sql, ts, chosen, n - 1);
        RestoreMark(sql, ps, last, ts[n - 1]);
      }
    }
  }

  /** Whatever tokens are bound, putting each one's own span back in place of its mark restores the text. */
  lemma {:induction false} RoundTrip(sql: string, ts: Tokens, chosen: seq<bool>)
    requires |ts| == |chosen| && Spans(sql, ts)
    ensures Restored(AllPieces(sql, ts, chosen)) == sql
  {
    PiecesRestoreText(sql, ts, chosen, |ts|);
    var (ps, last) := Pieces(sql, ts, chosen, |ts|);
    AppendPiece(ps, Kept(sql[last..]));
    assert sql[..last] + sql[last..] == sql;
  }

  /** The text with the chosen tokens from the i-th on replaced, from the last to the first. */
  function Replaced(sql: string, ts: Tokens, chosen: seq<bool>, i: nat): (r: string)
    requires i <= |ts| == |chosen| && Spans(sql, ts)
    ensures forall k :: 0 <= k < i ==> ts[k].end < |r|
    ensures i < |ts| ==> ts[i].start <= |r|
    decreases |ts| - i
  {
    if i == |ts| then sql
    else
      var later := Replaced(sql, ts, chosen, i + 1);
      if chosen[i] then later[..ts[i].start] + "?" + later[ts[i].end + 1..] else later
  }

  /** What comes before the replaced tokens stays. */
  lemma {:induction false} ReplacedPrefix(sql: string, ts: Tokens, chosen: seq<bool>, i: nat, n: nat)
    requires i <= |ts| == |chosen| && Spans(sql, ts) && n <= |sql| && (i < |ts| ==> n <= ts[i].start)
    ensures n <= |Replaced(sql, ts, chosen, i)| && Replaced(sql, ts, chosen, i)[..n] == sql[..n]
    decreases |ts| - i
  {
    if i < |ts| {
      ReplacedPrefix(sql, ts, chosen, i + 1, n);
    }
  }

  /** The text before the last replacement, that replacement, and the rest, put together in either order. */
  lemma ReplaceOne(sent: string, sql: string, later: string, last: nat, start: nat, end: nat)
    requires last <= start <= end < |later| && end < |sql| && later[..end + 1] == sql[..end + 1]
    ensures sent + (later[..start] + "?" + later[end + 1..])[last..]
         == (sent + sql[last..start] + "?") + later[end + 1..]
  {
    assert later[..start] == later[..end + 1][..start] == sql[..start];
  }

  /** The pieces up to a token, and what follows them in the text with the later tokens replaced. */
  predicate Halfway(sql: string, ts: Tokens, chosen: seq<bool>, n: nat, whole: string)
    requires n <= |ts| == |chosen| && Spans(sql, ts)
  {
    var (ps, last) := Pieces(sql, ts, chosen, n);
    var rest := Replaced(sql, ts, chosen, n);
    last <= |rest| && Sent(ps) + rest[last..] == whole
  }

  lemma HalfwayStep(sql: string, ps: seq<Piece>, last: nat, t: Token, later: string, whole: string)
    requires last <= t.start <= t.end < |later| && t.end < |sql| && later[..t.end + 1] == sql[..t.end + 1]
    requires Sent(ps) + (later[..t.start] + "?" + later[t.end + 1..])[last..] == whole
    ensures Sent(ps + [Kept(sql[last..t.start]), MarkOf(sql, t)]) + later[t.end + 1..] == whole
  {
    ReplaceOne(Sent(ps), sql, later, last, t.start, t.end);
    AppendMark(ps, sql[last..t.start], MarkOf(sql, t));
  }

  lemma HalfwayNext(sql: string, ts: Tokens, chosen: seq<bool>, n: nat, whole: string)
    requires n < |ts| == |chosen| && Spans(sql, ts) && Halfway(sql, ts, chosen, n, whole)
    ensures Halfway(sql, ts, chosen, n + 1, whole)
  {
    if chosen[n] {
      var ((ps, last), t, later) := (Pieces(sql, ts, chosen, n), ts[n], Replaced(sql, ts, chosen, n + 1));
      ReplacedPrefix(sql, ts, chosen, n + 1, t.end + 1);
      assert Replaced(sql, ts, chosen, n) == later[..t.start] + "?" + later[t.end + 1..];
      HalfwayStep(sql, ps, last, t, later, whole);
    }
  }

  lemma {:induction false} AlwaysHalfway(sql: string, ts: Tokens, chosen: seq<bool>, n: nat)
    requires n <= |ts| == |chosen| && Spans(sql, ts)
    ensures Halfway(sql, ts, chosen, n, Replaced(sql, ts, chosen, 0))
  {
    if n > 0 {
      AlwaysHalfway(sql, ts, chosen, n - 1);
      HalfwayNext(sql, ts, chosen, n - 1, Replaced(sql, ts, chosen, 0));
    }
  }

  /** The text that is sent is the original with each chosen token replaced by a question mark. */
  lemma SentIsReplaced(sql: string, ts: Tokens, chosen: seq<bool>)
    requires |ts| == |chosen| && Spans(sql, ts)
    ensures Sent(AllPieces(sql, ts, chosen)) == Replaced(sql, ts, chosen, 0)
  {
    var (ps, last) := Pieces(sql, ts, chosen, |ts|);
    AlwaysHalfway(sql, ts, chosen, |ts|);
    AppendPiece(ps, Kept(sql[last..]));
  }

  /** Which tokens are bound. */
  ghost function Choices(ts: Tokens): seq<bool> {
    seq(|ts|, i requires 0 <= i < |ts| => Bound(ts, i))
  }

  /** What token `i` does to the stack of parentheses. */
  method UpdateStack(ts: Tokens, i: nat, stack: seq<bool>) returns (stack': seq<bool>)
    requires i < |ts|
    ensures stack' == StackStep(ts, i, stack)
  {
    stack' := stack;
    if ts[i].kind == LParen {
      var isIn := i > 0 && ts[i - 1].kind == In;
      var subquery := i + 1 < |ts| && (ts[i + 1].kind == Select || ts[i + 1].kind == With);
      stack' := stack + [isIn && !subquery];
    } else if ts[i].kind == RParen && stack != [] {
      stack' := stack[..|stack| - 1];
    }
  }

  /** The decision taken at token `i`, once the stack has seen it. */
  method ShouldBind(ts: Tokens, i: nat, stack: seq<bool>) returns (bind: bool)
    requires i < |ts| && stack == StackAfter(ts, i + 1)
    ensures bind == Choices(ts)[i]
    ensures bind <==> ts[i].kind == String && i > 0 && OperandBehind(ts, i)
  {
    TopIsInnermost(ts, i);
    OperandsAreBound(ts, i);
    if ts[i].kind != String || i == 0 {
      return false;
    }
    var prev := ts[i - 1].kind;
    bind := false;
    if Comparison(prev) {
      bind := true;
    } else if prev == And && BetweenNearby(ts, i) {
      bind := true;
    } else if stack != [] && stack[|stack| - 1] && (prev == LParen || prev == Comma) {
      bind := true;
    }
  }

  function Join(strings: seq<string>): string {
    if strings == [] then "" else Join(strings[..|strings| - 1]) + strings[|strings| - 1]
  }

  lemma JoinAppend(strings: seq<string>, a: string)
    ensures Join(strings + [a]) == Join(strings) + a
  {
    assert (strings + [a])[..|strings|] == strings;
  }

  /** The state of the loop after `i` tokens. */
  ghost predicate Spliced(sql: string, ts: Tokens, chosen: seq<bool>, i: nat, last: nat, out: seq<string>,
                          params: seq<string>)
    requires i <= |ts| == |chosen| && Spans(sql, ts)
  {
    var (ps, at) := Pieces(sql, ts, chosen, i);
    last == at && Join(out) == Sent(ps) && params == ParamsOf(ps)
  }

  lemma SpliceMark(sql: string, ts: Tokens, chosen: seq<bool>, i: nat, last: nat, out: seq<string>, params: seq<string>)
    requires i < |ts| == |chosen| && Spans(sql, ts) && chosen[i] && Spliced(sql, ts, chosen, i, last, out, params)
    ensures last <= ts[i].start <= ts[i].end < |sql|
    ensures Spliced(sql, ts, chosen, i + 1, ts[i].end + 1, out + [sql[last..ts[i].start]] + ["?"],
                    params + [ts[i].text])
  {
    var kept, ps := sql[last..ts[i].start], Pieces(sql, ts, chosen, i).0;
    AppendMark(ps, kept, MarkOf(sql, ts[i]));
    JoinAppend(out, kept);
    JoinAppend(out + [kept], "?");
  }

  lemma SpliceNothing(sql: string, ts: Tokens, chosen: seq<bool>, i: nat, last: nat, out: seq<string>,
                      params: seq<string>)
    requires i < |ts| == |chosen| && Spans(sql, ts) && !chosen[i] && Spliced(sql, ts, chosen, i, last, out, params)
    ensures Spliced(sql, ts, chosen, i + 1, last, out, params)
  {
  }

  lemma SpliceEnd(sql: string, ts: Tokens, chosen: seq<bool>, last: nat, out: seq<string>, params: seq<string>)
    requires |ts| == |chosen| && Spans(sql, ts) && Spliced(sql, ts, chosen, |ts|, last, out, params)
    ensures last <= |sql| && Join(out + [sql[last..]]) == Sent(AllPieces(sql, ts, chosen))
    ensures params == ParamsOf(AllPieces(sql, ts, chosen))
  {
    AppendPiece(Pieces(sql, ts, chosen, |ts|).0, Kept(sql[last..]));
    JoinAppend(out, sql[last..]);
  }

  // ---------------------------------------------------------------- marks and parameters

  /** The marks, in order. */
  function Marks(ps: seq<Piece>): (r: seq<Piece>)
    ensures forall k :: 0 <= k < |r| ==> r[k].Mark?
  {
    if ps == [] then []
    else Marks(ps[..|ps| - 1]) + (if ps[|ps| - 1].Mark? then [ps[|ps| - 1]] else [])
  }

  /** The positions chosen among the first `n`, in order. */
  function Positions(chosen: seq<bool>, n: nat): (r: seq<nat>)
    requires n <= |chosen|
    ensures forall k :: 0 <= k < |r| ==> r[k] < n && chosen[r[k]]
    ensures forall k, l :: 0 <= k < l < |r| ==> r[k] < r[l]
  {
    if n == 0 then [] else Positions(chosen, n - 1) + (if chosen[n - 1] then [n - 1] else [])
  }

  lemma {:induction false} PositionsAreAll(chosen: seq<bool>, n: nat, i: nat)
    requires i < n <= |chosen| && chosen[i]
    ensures i in Positions(chosen, n)
  {
    if i < n - 1 {
      PositionsAreAll(chosen, n - 1, i);
    }
  }

  lemma MarksAppend(ps: seq<Piece>, p: Piece)
    ensures Marks(ps + [p]) == Marks(ps) + (if p.Mark? then [p] else [])
  {
    assert (ps + [p])[..|ps|] == ps;
  }

  lemma MarksAppendMark(ps: seq<Piece>, kept: string, mark: Piece)
    requires mark.Mark?
    ensures Marks(ps + [Kept(kept), mark]) == Marks(ps) + [mark]
  {
    MarksAppend(ps, Kept(kept));
    MarksAppend(ps + [Kept(kept)], mark);
    assert ps + [Kept(kept)] + [mark] == ps + [Kept(kept), mark];
  }

  lemma {:induction false} PiecesAreChosen(sql: string, ts: Tokens, chosen: seq<bool>, n: nat)
    requires n <= |ts| == |chosen| && Spans(sql, ts)
    ensures var (marks, at) := (Marks(Pieces(sql, ts, chosen, n).0), Positions(chosen, n));
            |marks| == |at| && forall k :: 0 <= k < |at| ==> marks[k] == MarkOf(sql, ts[at[k]])
  {
    if n > 0 {
      PiecesAreChosen(sql, ts, chosen, n - 1);
      if chosen[n - 1] {
        var (ps, last) := Pieces(sql, ts, chosen, n - 1);
        MarksAppendMark(ps, sql[last..ts[n - 1].start], MarkOf(sql, ts[n - 1]));
      }
    }
  }

  lemma {:induction false} ParamsAreOfMarks(ps: seq<Piece>)
    ensures |ParamsOf(ps)| == |Marks(ps)| && forall k :: 0 <= k < |Marks(ps)| ==> ParamsOf(ps)[k] == Marks(ps)[k].param
  {
    if ps != [] {
      ParamsAreOfMarks(ps[..|ps| - 1]);
    }
  }

  /** The positions of the bound tokens, in order. */
  ghost predicate AllBound(ts: Tokens, bound: seq<nat>) {
    && (forall k, l :: 0 <= k < l < |bound| ==> bound[k] < bound[l])
    && forall i :: i in bound <==> 0 <= i < |ts| && Bound(ts, i)
  }

  /** The marks stand for exactly the bound tokens, in token order, and the k-th parameter is the text of the k-th of
      them; all of them are string tokens. */
  lemma ParamsMatchMarks(sql: string, ts: Tokens) returns (bound: seq<nat>)
    requires Spans(sql, ts)
    ensures AllBound(ts, bound)
    ensures var (marks, params) := (Marks(AllPieces(sql, ts, Choices(ts))), ParamsOf(AllPieces(sql, ts, Choices(ts))));
            && |marks| == |params| == |bound|
            && forall k :: 0 <= k < |bound| ==>
                 && bound[k] < |ts| && marks[k] == MarkOf(sql, ts[bound[k]])
                 && params[k] == ts[bound[k]].text && ts[bound[k]].kind == String
  {
    var chosen := Choices(ts);
    bound := Positions(chosen, |ts|);
    var (ps, last) := Pieces(sql, ts, chosen, |ts|);
    PiecesAreChosen(sql, ts, chosen, |ts|);
    MarksAppend(ps, Kept(sql[last..]));
    ParamsAreOfMarks(ps + [Kept(sql[last..])]);
    forall i | 0 <= i < |ts| && Bound(ts, i)
      ensures i in bound
    {
      PositionsAreAll(chosen, |ts|, i);
    }
  }

  // ---------------------------------------------------------------- the loop

  /** The parameterized text and its parameters: one `?` for each bound token, its text as the parameter. */
  method ParameterizeLiterals(sql: string, ts: Tokens) returns (text: string, params: seq<string>)
    requires Spans(sql, ts)
    ensures var pieces := AllPieces(sql, ts, Choices(ts)); text == Sent(pieces) && params == ParamsOf(pieces)
    ensures text == Replaced(sql, ts, Choices(ts), 0)
    ensures exists bound :: AllBound(ts, bound) && |params| == |bound|
              && forall k :: 0 <= k < |bound| ==> bound[k] < |ts| && params[k] == ts[bound[k]].text
  {
    ghost var chosen := Choices(ts);
    var out: seq<string>, last: nat := [], 0;
    params := [];
    var stack: seq<bool> := [];
    for i := 0 to |ts|
      invariant stack == StackAfter(ts, i)
      invariant Spliced(sql, ts, chosen, i, last, out, params)
    {
      stack := UpdateStack(ts, i, stack);
      var bind := ShouldBind(ts, i, stack);
      if bind {
        SpliceMark(sql, ts, chosen, i, last, out, params);
        out := out + [sql[last..ts[i].start]] + ["?"];
        params := params + [ts[i].text];
        last := ts[i].end + 1;
      } else {
        SpliceNothing(sql, ts, chosen, i, last, out, params);
      }
    }
    SpliceEnd(sql, ts, chosen, last, out, params);
    SentIsReplaced(sql, ts, chosen);
    var bound := ParamsMatchMarks(sql, ts);
    text := Join(out + [sql[last..]]);
  }
}
