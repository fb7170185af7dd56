/** Optimistic session updates (db.update_session): read, conditional write, re-read, one merge, with the transactions
    of any number of callers interleaved. */
module SessionUpdate {
  import opened Prelude

  type SessionId = nat
  type Field = nat
  type Content = int

  datatype Row = Row(version: nat, owner: nat, fields: map<Field, Content>)
  type Rows = map<SessionId, Row>

  function Overlay(fields: map<Field, Content>, values: map<Field, Content>): map<Field, Content> {
    fields + values
  }

  /** UPDATE ... SET values, version + 1 WHERE id AND version. */
  function UpdateWhere(rows: Rows, id: SessionId, version: nat, values: map<Field, Content>): Rows {
    if id in rows && rows[id].version == version then
      rows[id := rows[id].(version := version + 1, fields := Overlay(rows[id].fields, values))]
    else rows
  }

  /** What a caller remembers between its transactions: the row it first read and, when merging, the one it re-read. */
  datatype Phase =
    | Idle
    | HasRead(seen: Row)
    | LostRace(seen: Row)
    | Merging(seen: Row, reread: Row)
    | Committed(seen: Row)
    | Conflict
    | NotFound

  datatype Call = Call(id: SessionId, values: map<Field, Content>, phase: Phase)

  predicate Unchanged(a: Row, b: Row, values: map<Field, Content>) {
    forall f :: f in values ==> f in a.fields && f in b.fields && a.fields[f] == b.fields[f]
  }

  predicate Active(c: Call) {
    !c.phase.Committed? && c.phase != Conflict && c.phase != NotFound
  }

  /** The next transaction of a call. */
  function NextCall(rows: Rows, c: Call): (Rows, Phase)
    requires Active(c)
  {
    match c.phase
    case Idle => (rows, if c.id in rows then HasRead(rows[c.id]) else NotFound)
    case HasRead(seen) =>
      if c.id in rows && rows[c.id].version == seen.version then
        (UpdateWhere(rows, c.id, seen.version, c.values), Committed(seen))
      else (rows, LostRace(seen))
    case LostRace(seen) =>
      (rows,
       if c.id !in rows || rows[c.id].owner != seen.owner then NotFound
       else if !Unchanged(rows[c.id], seen, c.values) then Conflict
       else Merging(seen, rows[c.id]))
    case Merging(seen, reread) =>
      if c.id in rows && rows[c.id].version == reread.version then
        (UpdateWhere(rows, c.id, reread.version, c.values), Committed(seen))
      else (rows, Conflict)
  }

  /** One row is overwritten: the named fields have the new values, all others and all other rows are as before. */
  predicate Overwritten(before: Rows, after: Rows, id: SessionId, values: map<Field, Content>) {
    && id in before && id in after && after.Keys == before.Keys
    && after[id].version == before[id].version + 1 && after[id].owner == before[id].owner
    && after[id].fields.Keys == before[id].fields.Keys + values.Keys
    && (forall f :: f in values ==> f in after[id].fields && after[id].fields[f] == values[f])
    && (forall f :: f in before[id].fields && f !in values ==>
         f in after[id].fields && after[id].fields[f] == before[id].fields[f])
    && forall x :: x in before && x != id ==> x in after && after[x] == before[x]
  }

  /** A named field has another value in the one row than in the other, or none. */
  predicate Differs(a: Row, b: Row, values: map<Field, Content>) {
    exists f :: f in values && (f !in a.fields || f !in b.fields || a.fields[f] != b.fields[f])
  }

  /** How each transaction of a call ends. The first read finds the row or nothing. The first write commits exactly when
      the version is still the one read. The re-read finds nothing when the row is gone or another user's, a conflict
      when a named field was changed, and otherwise leads to one more write. That commits exactly when the version is
      the one re-read, and else the call ends in a conflict. */
  lemma CallEndsExactly(rows: Rows, c: Call)
    requires Active(c)
    ensures var (after, phase) := NextCall(rows, c);
            match c.phase
            case Idle => after == rows && phase == if c.id in rows then HasRead(rows[c.id]) else NotFound
            case HasRead(seen) =>
              if c.id in rows && rows[c.id].version == seen.version then
                phase == Committed(seen) && Overwritten(rows, after, c.id, c.values)
              else phase == LostRace(seen) && after == rows
            case LostRace(seen) =>
              && after == rows
              && (phase == NotFound <==> c.id !in rows || rows[c.id].owner != seen.owner)
              && (phase == Conflict <==>
                    c.id in rows && rows[c.id].owner == seen.owner && Differs(rows[c.id], seen, c.values))
              && (phase != NotFound && phase != Conflict ==> phase == Merging(seen, rows[c.id]))
            case Merging(seen, reread) =>
              if c.id in rows && rows[c.id].version == reread.version then
                phase == Committed(seen) && Overwritten(rows, after, c.id, c.values)
              else phase == Conflict && after == rows
  {
  }

  // ---------------------------------------------------------------- in the program's own form

  class SessionTable {
    var rows: Rows

    constructor ()
      ensures rows == map[]
    {
      rows := map[];
    }

    method ConditionalUpdate(id: SessionId, version: nat, values: map<Field, Content>) returns (count: nat)
      modifies this
      ensures rows == UpdateWhere(old(rows), id, version, values)
      ensures count == if id in old(rows) && old(rows)[id].version == version then 1 else 0
      ensures count == 0 ==> rows == old(rows)
      ensures count == 1 ==> Overwritten(old(rows), rows, id, values)
    {
      count := 0;
      if id in rows && rows[id].version == version {
        rows := rows[id := rows[id].(version := version + 1, fields := rows[id].fields + values)];
        count := 1;
      }
    }
  }

  /** One call of update_session: its local variables, and the code between two points where others may run. */
  class UpdateCall {
    const id: SessionId
    const values: map<Field, Content>
    var phase: Phase

    constructor (id: SessionId, values: map<Field, Content>, seen: Row)
      ensures this.id == id && this.values == values && phase == HasRead(seen)
    {
      this.id, this.values, phase := id, values, HasRead(seen);
    }

    function View(): Call
      reads this
    {
      Call(id, values, phase)
    }

    method FirstTry(table: SessionTable)
      requires phase.HasRead?
      modifies this, table
      ensures (table.rows, phase) == NextCall(old(table.rows), old(View()))
      ensures phase == if id in old(table.rows) && old(table.rows)[id].version == old(phase).seen.version then
                         Committed(old(phase).seen)
                       else LostRace(old(phase).seen)
      ensures if phase.Committed? then Overwritten(old(table.rows), table.rows, id, values)
              else table.rows == old(table.rows)
    {
      var count := table.ConditionalUpdate(id, phase.seen.version, values);
      phase := if count == 1 then Committed(phase.seen) else LostRace(phase.seen);
    }

    method Reread(table: SessionTable)
      requires phase.LostRace?
      modifies this
      ensures (table.rows, phase) == NextCall(table.rows, old(View()))
      ensures phase == NotFound <==> id !in table.rows || table.rows[id].owner != old(phase).seen.owner
      ensures phase == Conflict <==> id in table.rows && table.rows[id].owner == old(phase).seen.owner
                                     && Differs(table.rows[id], old(phase).seen, values)
      ensures phase != NotFound && phase != Conflict ==> phase == Merging(old(phase).seen, table.rows[id])
    {
      var original := phase.seen;
      if id !in table.rows || table.rows[id].owner != original.owner {
        phase := NotFound;
        return;
      }
      var reread := table.rows[id];
      var conflict := exists f ::
        f in values && !(f in reread.fields && f in original.fields && reread.fields[f] == original.fields[f]);
      phase := if conflict then Conflict else Merging(original, reread);
    }

    method SecondTry(table: SessionTable)
      requires phase.Merging?
      modifies this, table
      ensures (table.rows, phase) == NextCall(old(table.rows), old(View()))
      ensures phase == if id in old(table.rows) && old(table.rows)[id].version == old(phase).reread.version then
                         Committed(old(phase).seen)
                       else Conflict
      ensures if phase.Committed? then Overwritten(old(table.rows), table.rows, id, values)
              else table.rows == old(table.rows)
    {
      var count := table.ConditionalUpdate(id, phase.reread.version, values);
      phase := if count == 1 then Committed(phase.seen) else Conflict;
    }

    /** The whole call when nobody else runs in between: exactly an atomic compare-and-set of the changed fields
        against the row the caller read earlier. */
    method UpdateSession(table: SessionTable)
      requires phase.HasRead? && Remembers(table.rows, id, phase.seen)
      requires values.Keys <= phase.seen.fields.Keys
      modifies this, table
      ensures phase.Committed? <==> CasSucceeds(old(table.rows), id, old(phase).seen, values)
      ensures table.rows == if phase.Committed? then Cas(old(table.rows), id, values) else old(table.rows)
      ensures phase == NotFound <==> id !in old(table.rows)
      ensures phase == Conflict <==>
              id in old(table.rows) && Differs(old(table.rows)[id], old(phase).seen, values)
      ensures phase.Committed? || phase == Conflict || phase == NotFound
      ensures phase.Committed? ==> Overwritten(old(table.rows), table.rows, id, values)
    {
      FirstTry(table);
      if phase.LostRace? {
        Reread(table);
        if phase.Merging? {
          SecondTry(table);
        }
      }
    }
  }

  // ---------------------------------------------------------------- the atomic specification

  ghost predicate CasSucceeds(rows: Rows, id: SessionId, expected: Row, values: map<Field, Content>) {
    id in rows && Unchanged(rows[id], expected, values)
  }

  /** The atomic update: the named fields overwritten, every other field kept, the version raised by one. */
  function Cas(rows: Rows, id: SessionId, values: map<Field, Content>): Rows
    requires id in rows
  {
    rows[id := Row(rows[id].version + 1, rows[id].owner, Overlay(rows[id].fields, values))]
  }

  /** The row is gone, or is what was read, or has a higher version. */
  predicate Remembers(rows: Rows, id: SessionId, seen: Row) {
    id in rows ==> rows[id].owner == seen.owner && rows[id].fields.Keys == seen.fields.Keys
                   && (rows[id] == seen || rows[id].version > seen.version)
  }

  // ---------------------------------------------------------------- runs

  datatype State = State(columns: set<Field>, rows: Rows, used: set<SessionId>, calls: seq<Call>)

  /** The table has fixed columns, and calls name columns. */
  predicate Typed(s: State) {
    && (forall id :: id in s.rows ==> s.rows[id].fields.Keys == s.columns)
    && (forall c :: 0 <= c < |s.calls| ==> s.calls[c].values.Keys <= s.columns)
  }

  /** A transaction of a call, or a session created under a fresh id or deleted. */
  datatype Step = CallStep(c: nat) | CreateStep(id: SessionId, row: Row) | DeleteStep(id: SessionId)

  predicate Enabled(s: State, step: Step) {
    match step
    case CallStep(c) => c < |s.calls| && Active(s.calls[c])
    case CreateStep(id, row) => id !in s.used && row.fields.Keys == s.columns
    case DeleteStep(_) => true
  }

  function Next(s: State, step: Step): State
    requires Enabled(s, step)
  {
    match step
    case CallStep(c) =>
      var (rows, phase) := NextCall(s.rows, s.calls[c]);
      s.(rows := rows, calls := s.calls[c := s.calls[c].(phase := phase)])
    case CreateStep(id, row) => s.(rows := s.rows[id := row], used := s.used + {id})
    case DeleteStep(id) => s.(rows := s.rows - {id})
  }

  ghost predicate Run(states: seq<State>, steps: seq<Step>) {
    && |states| == |steps| + 1
    && states[0].rows.Keys <= states[0].used && Typed(states[0])
    && (forall c :: 0 <= c < |states[0].calls| ==> states[0].calls[c].phase == Idle)
    && forall k :: 0 <= k < |steps| ==> Enabled(states[k], steps[k]) && states[k + 1] == Next(states[k], steps[k])
  }

  predicate CallOk(rows: Rows, used: set<SessionId>, c: Call) {
    match c.phase
    case HasRead(seen) => c.id in used && Remembers(rows, c.id, seen)
    case LostRace(seen) => c.id in used && Remembers(rows, c.id, seen)
    case Merging(seen, reread) => c.id in used && Remembers(rows, c.id, reread) && Unchanged(reread, seen, c.values)
    case _ => true
  }

  ghost predicate Inv(s: State) {
    && s.rows.Keys <= s.used && Typed(s)
    && forall c :: 0 <= c < |s.calls| ==> CallOk(s.rows, s.used, s.calls[c])
  }

  /** Did this step commit an update? */
  predicate Commits(s: State, step: Step)
    requires Enabled(s, step)
  {
    step.CallStep? && Next(s, step).calls[step.c].phase.Committed?
  }

  lemma CommitIsCas(s: State, step: Step)
    requires Inv(s) && Enabled(s, step) && step.CallStep?
    ensures if Commits(s, step) then
              var call := s.calls[step.c];
              && CasSucceeds(s.rows, call.id, Next(s, step).calls[step.c].phase.seen, call.values)
              && Next(s, step).rows == Cas(s.rows, call.id, call.values)
            else Next(s, step).rows == s.rows
  {
    assert CallOk(s.rows, s.used, s.calls[step.c]);
  }

  lemma StepKeepsInv(s: State, step: Step)
    requires Inv(s) && Enabled(s, step)
    ensures Inv(Next(s, step))
  {
    var s' := Next(s, step);
    if step.CallStep? {
      CommitIsCas(s, step);
    }
    forall c | 0 <= c < |s'.calls|
      ensures CallOk(s'.rows, s'.used, s'.calls[c])
    {
      assert CallOk(s.rows, s.used, s.calls[c]);
    }
  }

  lemma {:induction false} ReachableInv(states: seq<State>, steps: seq<Step>, k: nat)
    requires Run(states, steps) && k < |states|
    ensures Inv(states[k])
  {
    if k > 0 {
      ReachableInv(states, steps, k - 1);
      StepKeepsInv(states[k - 1], steps[k - 1]);
    }
  }

  /** Every commit overwrites only fields whose value just before it equals what the caller first read, keeps all
      other fields, and raises the version by one; a step that does not commit writes nothing. */
  lemma EveryCommitIsAtomic(states: seq<State>, steps: seq<Step>, k: nat)
    requires Run(states, steps) && k < |steps| && steps[k].CallStep?
    ensures var (before, after, call) := (states[k].rows, states[k + 1].rows, states[k].calls[steps[k].c]);
            if Commits(states[k], steps[k]) then
              var seen := states[k + 1].calls[steps[k].c].phase.seen;
              && call.id in before && call.id in after
              && (forall f :: f in call.values ==>
                    && f in seen.fields && f in before[call.id].fields && f in after[call.id].fields
                    && before[call.id].fields[f] == seen.fields[f] && after[call.id].fields[f] == call.values[f])
              && after[call.id].fields.Keys == before[call.id].fields.Keys
              && (forall f :: f in before[call.id].fields && f !in call.values ==>
                   after[call.id].fields[f] == before[call.id].fields[f])
              && after[call.id].version == before[call.id].version + 1
              && (forall id :: id != call.id ==>
                   (id in before <==> id in after) && (id in before ==> before[id] == after[id]))
            else after == before
  {
    ReachableInv(states, steps, k);
    CommitIsCas(states[k], steps[k]);
  }

  // ---------------------------------------------------------------- the run is a serial run

  /** The atomic operations of a serial history. */
  datatype Op =
    | CasOp(id: SessionId, expected: Row, values: map<Field, Content>)
    | CreateOp(id: SessionId, row: Row)
    | DeleteOp(id: SessionId)

  ghost function Execute(rows: Rows, op: Op): Option<Rows> {
    match op
    case CreateOp(id, row) => Some(rows[id := row])
    case DeleteOp(id) => Some(rows - {id})
    case CasOp(id, expected, values) =>
      if CasSucceeds(rows, id, expected, values) then Some(Cas(rows, id, values)) else None
  }

  ghost function Serial(rows: Rows, ops: seq<Op>): Option<Rows> {
    if ops == [] then Some(rows)
    else
      var r := Serial(rows, ops[..|ops| - 1]);
      if r.None? then None else Execute(r.value, ops[|ops| - 1])
  }

  /** The operation a step stands for; a step of a call that does not commit stands for none. */
  function OpOf(s: State, step: Step): seq<Op>
    requires Enabled(s, step)
  {
    match step
    case CreateStep(id, row) => [CreateOp(id, row)]
    case DeleteStep(id) => [DeleteOp(id)]
    case CallStep(c) =>
      if Commits(s, step) then [CasOp(s.calls[c].id, Next(s, step).calls[c].phase.seen, s.calls[c].values)] else []
  }

  /** The operations the first k steps of a run committed, in commit order. */
  ghost function OpsOf(states: seq<State>, steps: seq<Step>, k: nat): seq<Op>
    requires Run(states, steps) && k <= |steps|
  {
    if k == 0 then [] else OpsOf(states, steps, k - 1) + OpOf(states[k - 1], steps[k - 1])
  }

  lemma StepIsOp(s: State, step: Step)
    requires Inv(s) && Enabled(s, step)
    ensures if OpOf(s, step) == [] then Next(s, step).rows == s.rows
            else Execute(s.rows, OpOf(s, step)[0]) == Some(Next(s, step).rows)
  {
    if step.CallStep? {
      CommitIsCas(s, step);
    }
  }

  lemma SerialAppend(rows: Rows, ops: seq<Op>, more: seq<Op>, after: Rows, next: Rows)
    requires |more| <= 1 && Serial(rows, ops) == Some(after)
    requires if more == [] then next == after else Execute(after, more[0]) == Some(next)
    ensures Serial(rows, ops + more) == Some(next)
  {
    if more == [] {
      assert ops + more == ops;
    } else {
      assert (ops + more)[..|ops|] == ops;
    }
  }

  /** Serializability: the committed updates, executed one after the other as compare-and-sets against what each caller
      first read, all succeed and produce the same table. */
  lemma {:induction false} RunIsSerial(states: seq<State>, steps: seq<Step>, k: nat)
    requires Run(states, steps) && k <= |steps|
    ensures Serial(states[0].rows, OpsOf(states, steps, k)) == Some(states[k].rows)
  {
    if k > 0 {
      RunIsSerial(states, steps, k - 1);
      ReachableInv(states, steps, k - 1);
      StepIsOp(states[k - 1], steps[k - 1]);
      SerialAppend(states[0].rows, OpsOf(states, steps, k - 1), OpOf(states[k - 1], steps[k - 1]),
                   states[k - 1].rows, states[k].rows);
    }
  }
}
