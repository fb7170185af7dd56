/** AI budget reservation on shared Redis counters (api.py): any number of requests, each taking its own steps in any
    interleaving, where every reply and every compensating write may be lost. Amounts are cents, as reals. A cap of zero
    is disabled: the all-users counter is then left alone. */
module RedisBudget {
  import opened Prelude
  import opened Sums

  datatype Counter = Global | User(u: nat)

  /** Where a request stands. `Seen` phases hold the total the increment returned, `left` what a refused request has
      left on a counter for good, and `Settled` whether the correction reached that counter. */
  datatype Phase =
    | Idle
    | GlobalSeen(total: real)
    | GlobalUndo(left: real)
    | GlobalHeld
    | UserSeen(total: real)
    | UserUndo
    | Held
    | UserSettled(actual: real, userCounted: bool)
    | Settled(actual: real, userCounted: bool, globalCounted: bool)
    | Done(globalLeft: real, userLeft: real)

  datatype Request = Request(user: nat, est: real, phase: Phase)

  datatype State = State(global: real, users: seq<real>, requests: seq<Request>)

  /** The limits in force: the all-users cap and one limit per user. */
  datatype Limits = Limits(cap: real, perUser: seq<real>)

  predicate CapEnabled(limits: Limits) {
    limits.cap > 0.0
  }

  /** One network operation of one request, and what became of it. `Pass` is the operation on the all-users counter that
      is not carried out when the cap is disabled. */
  datatype Action =
    | IncrReply
    | IncrLost(applied: bool)
    | ExpireFails
    | Check
    | Undo(applied: bool)
    | Settle(actual: real, applied: bool)
    | SettleOther(applied: bool)
    | Pass

  function Bump(s: State, c: Counter, delta: real, applied: bool): State
    requires c.User? ==> c.u < |s.users|
  {
    if !applied then s
    else if c.Global? then s.(global := s.global + delta)
    else s.(users := s.users[c.u := s.users[c.u] + delta])
  }

  function Move(s: State, i: nat, phase: Phase): State
    requires i < |s.requests|
  {
    s.(requests := s.requests[i := s.requests[i].(phase := phase)])
  }

  function Value(s: State, c: Counter): real
    requires c.User? ==> c.u < |s.users|
  {
    if c.Global? then s.global else s.users[c.u]
  }

  predicate WellFormed(s: State, limits: Limits) {
    && |s.users| == |limits.perUser|
    && forall i :: 0 <= i < |s.requests| ==> s.requests[i].user < |s.users| && s.requests[i].est > 0.0
  }

  function Limit(limits: Limits, c: Counter): real
    requires c.User? ==> c.u < |limits.perUser|
  {
    if c.Global? then limits.cap else limits.perUser[c.u]
  }

  /** The counters in use. */
  predicate InUse(limits: Limits, c: Counter) {
    if c.Global? then CapEnabled(limits) else c.u < |limits.perUser|
  }

  predicate Enabled(s: State, limits: Limits, i: nat, a: Action) {
    && i < |s.requests|
    && var r := s.requests[i];
    match r.phase
    case Idle => if CapEnabled(limits) then a.IncrReply? || a.IncrLost? else a.Pass?
    case GlobalSeen(total) => a.Check? || (a.ExpireFails? && total == r.est)
    case GlobalUndo(_) => if CapEnabled(limits) then a.Undo? else a.Pass?
    case GlobalHeld => a.IncrReply? || a.IncrLost?
    case UserSeen(total) => a.Check? || (a.ExpireFails? && total == r.est)
    case UserUndo => a.Undo?
    case Held => a.Settle?
    case UserSettled(_, _) => if CapEnabled(limits) then a.SettleOther? else a.Pass?
    case Settled(_, _, _) => false
    case Done(_, _) => false
  }

  /** What an increment of a request leaves on a counter: all of it or nothing. */
  function Left(r: Request, there: bool): real {
    if there then r.est else 0.0
  }

  function Next(s: State, limits: Limits, i: nat, a: Action): State
    requires WellFormed(s, limits) && Enabled(s, limits, i, a)
  {
    var r := s.requests[i];
    var mine := User(r.user);
    match r.phase
    case Idle =>
      if a.Pass? then Move(s, i, GlobalHeld)
      else if a.IncrReply? then Move(Bump(s, Global, r.est, true), i, GlobalSeen(s.global + r.est))
      else Move(Bump(s, Global, r.est, a.applied), i, Done(Left(r, a.applied), 0.0))
    case GlobalSeen(total) =>
      Move(s, i, if a.ExpireFails? || total > limits.cap then GlobalUndo(0.0) else GlobalHeld)
    case GlobalUndo(left) =>
      if a.Pass? then Move(s, i, Done(0.0, left))
      else Move(Bump(s, Global, -r.est, a.applied), i, Done(Left(r, !a.applied), left))
    case GlobalHeld =>
      if a.IncrReply? then Move(Bump(s, mine, r.est, true), i, UserSeen(s.users[r.user] + r.est))
      else Move(Bump(s, mine, r.est, a.applied), i, GlobalUndo(Left(r, a.applied)))
    case UserSeen(total) =>
      Move(s, i, if a.ExpireFails? || total > limits.perUser[r.user] then UserUndo else Held)
    case UserUndo =>
      Move(Bump(s, mine, -r.est, a.applied), i, GlobalUndo(Left(r, !a.applied)))
    case Held =>
      Move(Bump(s, mine, a.actual - r.est, a.applied), i, UserSettled(a.actual, a.applied))
    case UserSettled(actual, counted) =>
      if a.Pass? then Move(s, i, Settled(actual, counted, true))
      else Move(Bump(s, Global, actual - r.est, a.applied), i, Settled(actual, counted, a.applied))
    case Settled(_, _, _) => s
    case Done(_, _) => s
  }

  datatype Step = Step(request: nat, action: Action)

  ghost predicate Run(states: seq<State>, limits: Limits, steps: seq<Step>) {
    && |states| == |steps| + 1
    && WellFormed(states[0], limits)
    && (forall i :: 0 <= i < |states[0].requests| ==> states[0].requests[i].phase == Idle)
    && states[0].global >= 0.0 && (forall u :: 0 <= u < |states[0].users| ==> states[0].users[u] >= 0.0)
    && forall k :: 0 <= k < |steps| ==>
         && WellFormed(states[k], limits)
         && Enabled(states[k], limits, steps[k].request, steps[k].action)
         && states[k + 1] == Next(states[k], limits, steps[k].request, steps[k].action)
  }

  // ---------------------------------------------------------------- what is spent, what is counted

  predicate Counts(r: Request, c: Counter) {
    c.Global? || c.u == r.user
  }

  /** Spend a request is entitled to: its reservation while admitted, its real cost once settled. */
  function Spend(r: Request, c: Counter): real {
    if !Counts(r, c) then 0.0
    else match r.phase
      case Held => r.est
      case UserSettled(actual, _) => actual
      case Settled(actual, _, _) => actual
      case _ => 0.0
  }

  function Least(x: real, y: real): real {
    if x < y then x else y
  }

  /** By how much the real cost exceeded the reservation. */
  function Overshoot(r: Request, c: Counter): real {
    if !Counts(r, c) then 0.0
    else match r.phase
      case UserSettled(actual, _) => Positive(actual - r.est)
      case Settled(actual, _, _) => Positive(actual - r.est)
      case _ => 0.0
  }

  /** The settled cost is on the counter. */
  predicate Corrected(r: Request, c: Counter) {
    match r.phase
    case UserSettled(_, counted) => c.User? && counted
    case Settled(_, counted, globalCounted) => if c.Global? then globalCounted else counted
    case _ => false
  }

  /** What the request has on the counter. */
  function OnCounter(r: Request, c: Counter): real {
    if !Counts(r, c) then 0.0
    else match r.phase
      case Idle => 0.0
      case GlobalSeen(_) => if c.Global? then r.est else 0.0
      case GlobalUndo(left) => if c.Global? then r.est else left
      case GlobalHeld => if c.Global? then r.est else 0.0
      case UserSeen(_) => r.est
      case UserUndo => r.est
      case Held => r.est
      case UserSettled(actual, _) => if Corrected(r, c) then actual else r.est
      case Settled(actual, _, _) => if Corrected(r, c) then actual else r.est
      case Done(globalLeft, userLeft) => if c.Global? then globalLeft else userLeft
  }

  /** The part of the spend that is missing on the counter. */
  function Uncounted(r: Request, c: Counter): real {
    Positive(Spend(r, c) - OnCounter(r, c))
  }

  /** What is on the counter and is not spend: steps under way, refunds and downward corrections that were lost. */
  function Leftover(r: Request, c: Counter): real {
    Positive(OnCounter(r, c) - Spend(r, c))
  }

  /** What the request may claim under the limit: granted by the total its increment returned. */
  function Claim(r: Request, c: Counter, limit: real): real {
    if !Counts(r, c) then 0.0
    else match r.phase
      case GlobalSeen(total) => if c.Global? && total <= limit then r.est else 0.0
      case GlobalHeld => if c.Global? then r.est else 0.0
      case UserSeen(total) => if c.Global? || total <= limit then r.est else 0.0
      case UserUndo => if c.Global? then r.est else 0.0
      case Held => r.est
      case UserSettled(actual, _) => Least(actual, r.est)
      case Settled(actual, _, _) => Least(actual, r.est)
      case _ => 0.0
  }

  function Spends(s: State, c: Counter): seq<real> {
    seq(|s.requests|, i requires 0 <= i < |s.requests| => Spend(s.requests[i], c))
  }

  function Overshoots(s: State, c: Counter): seq<real> {
    seq(|s.requests|, i requires 0 <= i < |s.requests| => Overshoot(s.requests[i], c))
  }

  function OnCounters(s: State, c: Counter): seq<real> {
    seq(|s.requests|, i requires 0 <= i < |s.requests| => OnCounter(s.requests[i], c))
  }

  function Uncounteds(s: State, c: Counter): seq<real> {
    seq(|s.requests|, i requires 0 <= i < |s.requests| => Uncounted(s.requests[i], c))
  }

  function Leftovers(s: State, c: Counter): seq<real> {
    seq(|s.requests|, i requires 0 <= i < |s.requests| => Leftover(s.requests[i], c))
  }

  function Claims(s: State, c: Counter, limit: real): seq<real> {
    seq(|s.requests|, i requires 0 <= i < |s.requests| => Claim(s.requests[i], c, limit))
  }

  // ---------------------------------------------------------------- the invariant

  predicate LeftIsWhole(x: real, est: real) {
    x == 0.0 || x == est
  }

  predicate PhaseOk(r: Request) {
    match r.phase
    case GlobalUndo(left) => LeftIsWhole(left, r.est)
    case Done(globalLeft, userLeft) => LeftIsWhole(globalLeft, r.est) && LeftIsWhole(userLeft, r.est)
    case _ => true
  }

  /** The counter holds what it started with and what the requests have on it, and the claims granted stay under the
      limit. */
  ghost predicate Inv(s: State, limits: Limits, c: Counter, start: real) {
    && WellFormed(s, limits) && InUse(limits, c)
    && (forall i :: 0 <= i < |s.requests| ==> PhaseOk(s.requests[i]))
    && Value(s, c) == start + Sum(OnCounters(s, c))
    && (Sum(Claims(s, c, Limit(limits, c))) <= Limit(limits, c) || Sum(Claims(s, c, Limit(limits, c))) <= 0.0)
  }

  lemma StepChangesOneRequest(s: State, limits: Limits, i: nat, a: Action, c: Counter)
    requires WellFormed(s, limits) && Enabled(s, limits, i, a)
    ensures var s' := Next(s, limits, i, a);
            && s'.requests == s.requests[i := s'.requests[i]]
            && OnCounters(s', c) == OnCounters(s, c)[i := OnCounter(s'.requests[i], c)]
            && (forall limit :: Claims(s', c, limit) == Claims(s, c, limit)[i := Claim(s'.requests[i], c, limit)])
  {
  }

  /** The counter moves by exactly what the request then has on it. */
  predicate Accounted(s: State, limits: Limits, i: nat, s': State, c: Counter)
    requires WellFormed(s, limits) && i < |s.requests| && InUse(limits, c)
  {
    && WellFormed(s', limits) && |s'.requests| == |s.requests| && PhaseOk(s'.requests[i])
    && OnCounter(s'.requests[i], c) - OnCounter(s.requests[i], c) == Value(s', c) - Value(s, c)
  }

  lemma GlobalStepOnCounter(s: State, limits: Limits, i: nat, a: Action, c: Counter)
    requires WellFormed(s, limits) && Enabled(s, limits, i, a) && InUse(limits, c) && PhaseOk(s.requests[i])
    requires var phase := s.requests[i].phase; phase.Idle? || phase.GlobalSeen? || phase.GlobalUndo?
    ensures Accounted(s, limits, i, Next(s, limits, i, a), c)
  {
  }

  lemma UserStepOnCounter(s: State, limits: Limits, i: nat, a: Action, c: Counter)
    requires WellFormed(s, limits) && Enabled(s, limits, i, a) && InUse(limits, c) && PhaseOk(s.requests[i])
    requires var phase := s.requests[i].phase; phase.GlobalHeld? || phase.UserSeen? || phase.UserUndo?
    ensures Accounted(s, limits, i, Next(s, limits, i, a), c)
  {
  }

  lemma SettlementOnCounter(s: State, limits: Limits, i: nat, a: Action, c: Counter)
    requires WellFormed(s, limits) && Enabled(s, limits, i, a) && InUse(limits, c) && PhaseOk(s.requests[i])
    requires var phase := s.requests[i].phase; phase.Held? || phase.UserSettled?
    ensures Accounted(s, limits, i, Next(s, limits, i, a), c)
  {
  }

  /** Whatever the reply, in every phase. */
  lemma StepOnCounter(s: State, limits: Limits, i: nat, a: Action, c: Counter)
    requires WellFormed(s, limits) && Enabled(s, limits, i, a) && InUse(limits, c) && PhaseOk(s.requests[i])
    ensures Accounted(s, limits, i, Next(s, limits, i, a), c)
  {
    match s.requests[i].phase {
      case Idle => GlobalStepOnCounter(s, limits, i, a, c);
      case GlobalSeen(_) => GlobalStepOnCounter(s, limits, i, a, c);
      case GlobalUndo(_) => GlobalStepOnCounter(s, limits, i, a, c);
      case Held => SettlementOnCounter(s, limits, i, a, c);
      case UserSettled(_, _) => SettlementOnCounter(s, limits, i, a, c);
      case _ => UserStepOnCounter(s, limits, i, a, c);
    }
  }

  /** A claim grows only when the counter, increment included, is within the limit. */
  lemma StepOnClaim(s: State, limits: Limits, i: nat, a: Action, c: Counter)
    requires WellFormed(s, limits) && Enabled(s, limits, i, a) && InUse(limits, c)
    ensures var s' := Next(s, limits, i, a);
            var (r, r', limit) := (s.requests[i], s'.requests[i], Limit(limits, c));
            || Claim(r', c, limit) <= Claim(r, c, limit)
            || (Claim(r', c, limit) == Claim(r, c, limit) + r.est && Value(s, c) + r.est <= limit)
  {
  }

  lemma ClaimsAreCounted(s: State, limits: Limits, c: Counter, start: real)
    requires Inv(s, limits, c, start) && start >= 0.0
    ensures Sum(Claims(s, c, Limit(limits, c))) <= Value(s, c)
  {
    SumMonotone(Claims(s, c, Limit(limits, c)), OnCounters(s, c));
  }

  lemma StepKeepsInv(s: State, limits: Limits, i: nat, a: Action, c: Counter, start: real)
    requires Inv(s, limits, c, start) && start >= 0.0 && Enabled(s, limits, i, a)
    ensures Inv(Next(s, limits, i, a), limits, c, start)
  {
    var s', limit := Next(s, limits, i, a), Limit(limits, c);
    StepChangesOneRequest(s, limits, i, a, c);
    StepOnCounter(s, limits, i, a, c);
    StepOnClaim(s, limits, i, a, c);
    ClaimsAreCounted(s, limits, c, start);
    SumUpdate(OnCounters(s, c), i, OnCounter(s'.requests[i], c));
    SumUpdate(Claims(s, c, limit), i, Claim(s'.requests[i], c, limit));
  }

  lemma {:induction false} ReachableInv(states: seq<State>, limits: Limits, steps: seq<Step>, k: nat, c: Counter)
    requires Run(states, limits, steps) && k < |states| && InUse(limits, c)
    ensures Inv(states[k], limits, c, Value(states[0], c))
  {
    if k == 0 {
      SumZero(OnCounters(states[0], c));
      SumZero(Claims(states[0], c, Limit(limits, c)));
    } else {
      ReachableInv(states, limits, steps, k - 1, c);
      StepKeepsInv(states[k - 1], limits, steps[k - 1].request, steps[k - 1].action, c, Value(states[0], c));
    }
  }

  /** The cap, all users together and user by user: admitted reservations plus settled spend exceed the limit by at
      most what the real costs overshot their reservations, whatever was lost on the way. */
  lemma CapHolds(states: seq<State>, limits: Limits, steps: seq<Step>, k: nat, c: Counter)
    requires Run(states, limits, steps) && k < |states| && InUse(limits, c)
    requires Limit(limits, c) >= 0.0
    ensures Sum(Spends(states[k], c)) <= Limit(limits, c) + Sum(Overshoots(states[k], c))
  {
    ReachableInv(states, limits, steps, k, c);
    var s, limit := states[k], Limit(limits, c);
    var bound := seq(|s.requests|,
                     i requires 0 <= i < |s.requests| => Claim(s.requests[i], c, limit) + Overshoot(s.requests[i], c));
    SumMonotone(Spends(s, c), bound);
    SumPlus(Claims(s, c, limit), Overshoots(s, c), bound);
  }

  // ---------------------------------------------------------------- counter and spend, exactly

  /** In every state, whatever was lost: the counter and what is missing on it make up what it started with, the spend
      and what was left over. */
  lemma CounterIsExact(states: seq<State>, limits: Limits, steps: seq<Step>, k: nat, c: Counter)
    requires Run(states, limits, steps) && k < |states| && InUse(limits, c)
    ensures c.User? ==> c.u < |states[k].users|
    ensures Value(states[k], c) + Sum(Uncounteds(states[k], c))
         == Value(states[0], c) + Sum(Spends(states[k], c)) + Sum(Leftovers(states[k], c))
  {
    ReachableInv(states, limits, steps, k, c);
    var s := states[k];
    var all := seq(|s.requests|,
                   i requires 0 <= i < |s.requests| => OnCounter(s.requests[i], c) + Uncounted(s.requests[i], c));
    SumPlus(OnCounters(s, c), Uncounteds(s, c), all);
    SumPlus(Spends(s, c), Leftovers(s, c), all);
  }

  /** A counter is below the true spend by at most the overshoots whose correction has not reached it. */
  lemma CounterCoversSpend(states: seq<State>, limits: Limits, steps: seq<Step>, k: nat, c: Counter)
    requires Run(states, limits, steps) && k < |states| && InUse(limits, c)
    ensures c.User? ==> c.u < |states[k].users|
    ensures Sum(Spends(states[k], c)) <= Value(states[k], c) + Sum(Uncounteds(states[k], c))
  {
    CounterIsExact(states, limits, steps, k, c);
    SumPositive(Leftovers(states[k], c));
  }

  /** The counter is below the true spend if and only if more is missing on it than was there and was left over. */
  lemma BelowSpendExactly(states: seq<State>, limits: Limits, steps: seq<Step>, k: nat, c: Counter)
    requires Run(states, limits, steps) && k < |states| && InUse(limits, c)
    ensures c.User? ==> c.u < |states[k].users|
    ensures Value(states[k], c) < Sum(Spends(states[k], c)) <==>
              Sum(Uncounteds(states[k], c)) > Value(states[0], c) + Sum(Leftovers(states[k], c))
  {
    CounterIsExact(states, limits, steps, k, c);
  }

  /** A request that cost more than it reserved, and whose correction is not on the counter. */
  predicate MissesUpward(r: Request, c: Counter) {
    Counts(r, c) && (r.phase.UserSettled? || r.phase.Settled?) && r.phase.actual > r.est && !Corrected(r, c)
  }

  /** What is missing is exactly the overshoot of the requests that miss an upward correction. */
  lemma MissingIsOvershoot(r: Request, c: Counter)
    requires PhaseOk(r) && r.est > 0.0
    ensures Uncounted(r, c) == if MissesUpward(r, c) then Overshoot(r, c) else 0.0
    ensures Uncounted(r, c) > 0.0 <==> MissesUpward(r, c)
  {
  }

  /** On a counter that started at zero and on which nothing is left over, the promise that it is never below the true
      spend fails if and only if some request misses an upward correction. */
  lemma PromiseFailsExactly(states: seq<State>, limits: Limits, steps: seq<Step>, k: nat, c: Counter)
    requires Run(states, limits, steps) && k < |states| && InUse(limits, c) && Value(states[0], c) == 0.0
    requires forall i :: 0 <= i < |states[k].requests| ==> Leftover(states[k].requests[i], c) == 0.0
    ensures c.User? ==> c.u < |states[k].users|
    ensures Value(states[k], c) < Sum(Spends(states[k], c)) <==>
              exists i :: 0 <= i < |states[k].requests| && MissesUpward(states[k].requests[i], c)
  {
    BelowSpendExactly(states, limits, steps, k, c);
    ReachableInv(states, limits, steps, k, c);
    var s := states[k];
    SumZero(Leftovers(s, c));
    SumPositive(Uncounteds(s, c));
    forall i | 0 <= i < |s.requests|
      ensures Uncounteds(s, c)[i] > 0.0 <==> MissesUpward(s.requests[i], c)
    {
      MissingIsOvershoot(s.requests[i], c);
    }
  }

  function OneRequest(global: real, user: real, phase: Phase): State {
    State(global, [user], [Request(0, 1.0, phase)])
  }

  /** One request of one cent, admitted, that turns out to cost five; neither correction arrives. */
  function LossyRun(): (seq<State>, seq<Step>) {
    ([OneRequest(0.0, 0.0, Idle), OneRequest(1.0, 0.0, GlobalSeen(1.0)), OneRequest(1.0, 0.0, GlobalHeld),
      OneRequest(1.0, 1.0, UserSeen(1.0)), OneRequest(1.0, 1.0, Held), OneRequest(1.0, 1.0, UserSettled(5.0, false)),
      OneRequest(1.0, 1.0, Settled(5.0, false, false))],
     [Step(0, IncrReply), Step(0, Check), Step(0, IncrReply), Step(0, Check), Step(0, Settle(5.0, false)),
      Step(0, SettleOther(false))])
  }

  lemma LossyStep(limits: Limits, k: nat)
    requires limits == Limits(10.0, [10.0]) && k < 6
    ensures var (states, steps) := LossyRun();
            && WellFormed(states[k], limits) && Enabled(states[k], limits, steps[k].request, steps[k].action)
            && states[k + 1] == Next(states[k], limits, steps[k].request, steps[k].action)
  {
  }

  /** A lost correction can leave the counter below the true spend, contrary to the comment at api.py:775. */
  lemma LostCorrectionUndercounts(limits: Limits) returns (states: seq<State>, steps: seq<Step>)
    requires limits == Limits(10.0, [10.0])
    ensures Run(states, limits, steps)
    ensures Value(states[|steps|], Global) < Sum(Spends(states[|steps|], Global))
  {
    var run := LossyRun();
    states, steps := run.0, run.1;
    forall k | 0 <= k < |steps|
      ensures && WellFormed(states[k], limits) && Enabled(states[k], limits, steps[k].request, steps[k].action)
              && states[k + 1] == Next(states[k], limits, steps[k].request, steps[k].action)
    {
      LossyStep(limits, k);
    }
    assert Spends(states[6], Global) == [5.0];
    assert [5.0][..0] == [];
    assert Sum([5.0]) == 5.0;
  }
}
