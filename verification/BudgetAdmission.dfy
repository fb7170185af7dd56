/** When a request is admitted (api.py): a reservation with nobody in between and every reply delivered is granted
    exactly if it fits, charges the estimate, is settled to the real cost, and leaves nothing behind when refused; on
    the Redis counters as on the database ledger. */
module BudgetAdmission {
  import opened Prelude
  import opened Sums
  import D = DbBudget
  import R = RedisBudget

  // ---------------------------------------------------------------- on Redis

  /** The next operation of the request when the reply comes and the write goes through. */
  function Answered(limits: R.Limits, phase: R.Phase): R.Action {
    match phase
    case Idle => if limits.cap > 0.0 then R.IncrReply else R.Pass
    case GlobalSeen(_) => R.Check
    case GlobalUndo(_) => if limits.cap > 0.0 then R.Undo(true) else R.Pass
    case GlobalHeld => R.IncrReply
    case UserSeen(_) => R.Check
    case UserUndo => R.Undo(true)
    case _ => R.Pass
  }

  predicate Answer(s: R.State, limits: R.Limits, i: nat, next: R.State) {
    && R.WellFormed(s, limits) && i < |s.requests|
    && var a := Answered(limits, s.requests[i].phase);
    && R.Enabled(s, limits, i, a) && next == R.Next(s, limits, i, a)
  }

  /** Consecutive states of a request on its own, every operation of which is answered. */
  predicate Answers(states: seq<R.State>, limits: R.Limits, i: nat) {
    states != [] && forall k :: 0 <= k < |states| - 1 ==> Answer(states[k], limits, i, states[k + 1])
  }

  /** The counters hold `global` more and, for the request's user, `user` more than before; other users' are the
      same. */
  predicate Charged(before: R.State, after: R.State, i: nat, global: real, user: real)
    requires i < |before.requests|
  {
    && after.global == before.global + global
    && |after.users| == |before.users| && before.requests[i].user < |before.users|
    && after.users == before.users[before.requests[i].user := before.users[before.requests[i].user] + user]
    && |after.requests| == |before.requests|
    && after.requests == before.requests[i := before.requests[i].(phase := after.requests[i].phase)]
  }

  /** The estimate fits under the all-users cap, if there is one. */
  predicate FitsCap(s: R.State, limits: R.Limits, i: nat)
    requires i < |s.requests|
  {
    limits.cap <= 0.0 || s.global + s.requests[i].est <= limits.cap
  }

  predicate FitsUser(s: R.State, limits: R.Limits, i: nat)
    requires i < |s.requests| && s.requests[i].user < |s.users| == |limits.perUser|
  {
    s.users[s.requests[i].user] + s.requests[i].est <= limits.perUser[s.requests[i].user]
  }

  /** Where the request stands on its way, in terms of the state it started from. */
  predicate OnTheWay(before: R.State, s: R.State, limits: R.Limits, i: nat)
    requires R.WellFormed(before, limits) && i < |before.requests|
  {
    var est := before.requests[i].est;
    var globally := if limits.cap > 0.0 then est else 0.0;
    && |s.requests| == |before.requests|
    && match s.requests[i].phase
       case Idle => Charged(before, s, i, 0.0, 0.0)
       case GlobalSeen(total) => limits.cap > 0.0 && Charged(before, s, i, est, 0.0) && total == before.global + est
       case GlobalHeld => Charged(before, s, i, globally, 0.0) && FitsCap(before, limits, i)
       case UserSeen(total) =>
         && Charged(before, s, i, globally, est) && FitsCap(before, limits, i)
         && total == before.users[before.requests[i].user] + est
       case UserUndo => Charged(before, s, i, globally, est) && !FitsUser(before, limits, i)
       case GlobalUndo(left) =>
         && Charged(before, s, i, globally, 0.0) && left == 0.0
         && !(FitsCap(before, limits, i) && FitsUser(before, limits, i))
       case Held => Charged(before, s, i, globally, est) && FitsCap(before, limits, i) && FitsUser(before, limits, i)
       case Done(globalLeft, userLeft) =>
         && Charged(before, s, i, 0.0, 0.0) && globalLeft == userLeft == 0.0
         && !(FitsCap(before, limits, i) && FitsUser(before, limits, i))
       case _ => false
  }

  /** How far the request still is from being granted or refused. */
  function Distance(phase: R.Phase): nat {
    match phase
    case Idle => 6
    case GlobalSeen(_) => 5
    case GlobalHeld => 4
    case UserSeen(_) => 3
    case UserUndo => 2
    case GlobalUndo(_) => 1
    case _ => 0
  }

  lemma AnsweredStep(before: R.State, s: R.State, limits: R.Limits, i: nat)
    requires R.WellFormed(before, limits) && i < |before.requests| && R.WellFormed(s, limits)
    requires OnTheWay(before, s, limits, i) && Distance(s.requests[i].phase) > 0
    ensures var a := Answered(limits, s.requests[i].phase);
            && R.Enabled(s, limits, i, a) && R.WellFormed(R.Next(s, limits, i, a), limits)
            && OnTheWay(before, R.Next(s, limits, i, a), limits, i)
            && Distance(R.Next(s, limits, i, a).requests[i].phase) < Distance(s.requests[i].phase)
  {
  }

  lemma {:induction false} AnsweredFrom(before: R.State, s: R.State, limits: R.Limits, i: nat)
    returns (states: seq<R.State>)
    requires R.WellFormed(before, limits) && i < |before.requests| && R.WellFormed(s, limits)
    requires OnTheWay(before, s, limits, i)
    ensures Answers(states, limits, i) && states[0] == s
    ensures OnTheWay(before, states[|states| - 1], limits, i)
    ensures Distance(states[|states| - 1].requests[i].phase) == 0
    decreases Distance(s.requests[i].phase)
  {
    if Distance(s.requests[i].phase) == 0 {
      states := [s];
    } else {
      AnsweredStep(before, s, limits, i);
      var next := R.Next(s, limits, i, Answered(limits, s.requests[i].phase));
      var rest := AnsweredFrom(before, next, limits, i);
      states := [s] + rest;
      AnswersGrow(s, rest, limits, i);
      assert states[|states| - 1] == rest[|rest| - 1];
    }
  }

  lemma AnswersGrow(s: R.State, rest: seq<R.State>, limits: R.Limits, i: nat)
    requires Answers(rest, limits, i) && Answer(s, limits, i, rest[0])
    ensures Answers([s] + rest, limits, i)
  {
    var states := [s] + rest;
    forall k | 0 <= k < |states| - 1
      ensures Answer(states[k], limits, i, states[k + 1])
    {
      if k > 0 {
        assert Answer(rest[k - 1], limits, i, rest[k - 1 + 1]);
      }
    }
  }

  /** A reservation on Redis whose every operation is answered, with nobody in between: it is held if and only if the
      all-users counter with the estimate is within the cap, or the cap disabled, and the user's within the user's
      limit. Held, it is on both counters once; refused, it is on neither. */
  lemma RedisReservesExactly(s: R.State, limits: R.Limits, i: nat) returns (states: seq<R.State>)
    requires R.WellFormed(s, limits) && i < |s.requests| && s.requests[i].phase == R.Idle
    ensures Answers(states, limits, i) && states[0] == s
    ensures var (last, u, est) := (states[|states| - 1], s.requests[i].user, s.requests[i].est);
            && |last.requests| == |s.requests|
            && (last.requests[i].phase.Held? <==>
                  && (limits.cap <= 0.0 || s.global + est <= limits.cap)
                  && s.users[u] + est <= limits.perUser[u])
            && if last.requests[i].phase.Held? then
                 && last.global == s.global + (if limits.cap > 0.0 then est else 0.0)
                 && last.users == s.users[u := s.users[u] + est]
               else
                 last.requests[i].phase.Done? && last.global == s.global && last.users == s.users
  {
    assert s.requests == s.requests[i := s.requests[i].(phase := R.Idle)];
    states := AnsweredFrom(s, s, limits, i);
  }

  /** Settling a held request, answered: both counters end with the real cost in place of the estimate. */
  lemma RedisSettlesExactly(s: R.State, limits: R.Limits, i: nat, actual: real)
    requires R.WellFormed(s, limits) && i < |s.requests| && s.requests[i].phase == R.Held
    ensures R.Enabled(s, limits, i, R.Settle(actual, true))
    ensures var half := R.Next(s, limits, i, R.Settle(actual, true));
            var other := if limits.cap > 0.0 then R.SettleOther(true) else R.Pass;
            && R.WellFormed(half, limits) && R.Enabled(half, limits, i, other)
            && var (after, u, est) := (R.Next(half, limits, i, other), s.requests[i].user, s.requests[i].est);
            && after.global == s.global + (if limits.cap > 0.0 then actual - est else 0.0)
            && after.users == s.users[u := s.users[u] + (actual - est)]
            && after.requests[i].phase == R.Settled(actual, true, true)
  {
  }

  // ---------------------------------------------------------------- on the database ledger

  /** The next transaction of a request that is to be granted or refused. */
  function Transaction(phase: D.Phase): D.Action {
    match phase
    case Idle => D.TryReserve
    case Reserved => D.Verify
    case _ => D.BackOut
  }

  predicate Pending(phase: D.Phase) {
    phase.Idle? || phase.Reserved? || phase.BackingOut?
  }

  predicate Transacts(s: D.State, limits: D.Limits, i: nat, next: D.State) {
    && D.WellFormed(s, limits) && i < |s.requests|
    && var a := Transaction(s.requests[i].phase);
    && D.Enabled(s, i, a) && next == D.Next(s, limits, i, a)
  }

  /** Consecutive states of a request on its own. */
  predicate Transactions(states: seq<D.State>, limits: D.Limits, i: nat) {
    states != [] && forall k :: 0 <= k < |states| - 1 ==> Transacts(states[k], limits, i, states[k + 1])
  }

  lemma TransactionsGrow(s: D.State, rest: seq<D.State>, limits: D.Limits, i: nat)
    requires Transactions(rest, limits, i) && Transacts(s, limits, i, rest[0])
    ensures Transactions([s] + rest, limits, i)
    ensures ([s] + rest)[|rest|] == rest[|rest| - 1]
  {
    var states := [s] + rest;
    forall k | 0 <= k < |states| - 1
      ensures Transacts(states[k], limits, i, states[k + 1])
    {
      if k > 0 {
        assert Transacts(rest[k - 1], limits, i, rest[k - 1 + 1]);
      }
    }
  }

  lemma BackOutRestores(costs: seq<real>, u: nat, est: real)
    requires u < |costs|
    ensures costs[u := costs[u] + est][u := costs[u] + est - est] == costs
  {
  }

  /** From the reservation on: verified, and backed out if the total is over the cap. */
  lemma DatabaseVerifiesExactly(s: D.State, limits: D.Limits, i: nat) returns (states: seq<D.State>)
    requires D.WellFormed(s, limits) && i < |s.requests| && s.requests[i].phase == D.Reserved
    ensures Transactions(states, limits, i) && states[0] == s
    ensures var (last, u, est) := (states[|states| - 1], s.requests[i].user, s.requests[i].est);
            && |last.requests| == |s.requests| && !Pending(last.requests[i].phase)
            && (last.requests[i].phase.Held? <==> limits.cap <= 0.0 || Sum(s.costs) <= limits.cap)
            && last.costs == if last.requests[i].phase.Held? then s.costs else s.costs[u := s.costs[u] - est]
  {
    var s1 := D.Next(s, limits, i, D.Verify);
    states := if s1.requests[i].phase.BackingOut? then [s, s1, D.Next(s1, limits, i, D.BackOut)] else [s, s1];
  }

  /** The same reservation on the database, with nobody in between: held if and only if the user has spent less than the
      limit and the total with the estimate is within the cap, or the cap disabled; refused, the ledger is as before. */
  lemma DatabaseReservesExactly(s: D.State, limits: D.Limits, i: nat) returns (states: seq<D.State>)
    requires D.WellFormed(s, limits) && i < |s.requests| && s.requests[i].phase == D.Idle
    ensures Transactions(states, limits, i) && states[0] == s
    ensures var (last, u, est) := (states[|states| - 1], s.requests[i].user, s.requests[i].est);
            && |last.requests| == |s.requests| && !Pending(last.requests[i].phase)
            && (last.requests[i].phase.Held? <==>
                  s.costs[u] < limits.perUser[u] && (limits.cap <= 0.0 || Sum(s.costs) + est <= limits.cap))
            && last.costs == if last.requests[i].phase.Held? then s.costs[u := s.costs[u] + est] else s.costs
  {
    var u, est := s.requests[i].user, s.requests[i].est;
    var s1 := D.Next(s, limits, i, D.TryReserve);
    if s1.requests[i].phase.Reserved? {
      SumUpdate(s.costs, u, s.costs[u] + est);
      var rest := DatabaseVerifiesExactly(s1, limits, i);
      states := [s] + rest;
      TransactionsGrow(s, rest, limits, i);
      BackOutRestores(s.costs, u, est);
    } else {
      states := [s, s1];
    }
  }

  /** A recorded settlement replaces the estimate by the real cost, which counts as zero if negative. */
  lemma DatabaseSettlesExactly(s: D.State, limits: D.Limits, i: nat, actual: real)
    requires D.WellFormed(s, limits) && i < |s.requests| && s.requests[i].phase == D.Held
    ensures D.Enabled(s, i, D.Settle(actual, true))
    ensures var (u, est) := (s.requests[i].user, s.requests[i].est);
            var after := D.Next(s, limits, i, D.Settle(actual, true));
            && after.costs == s.costs[u := s.costs[u] - est + (if actual > 0.0 then actual else 0.0)]
            && after.requests[i].phase == D.Settled(actual, true)
  {
  }
}
