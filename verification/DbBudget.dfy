/** AI budget reservation on the database ledger (db.py, api.py): reserve, then verify against the all-users total, with
    the committed transactions of any number of requests interleaved. Amounts are cents, as reals; the ledger is
    today's row of each user. */
module DbBudget {
  import opened Prelude
  import opened Sums

  // ---------------------------------------------------------------- the transactions on the ledger

  type Ledger = seq<real>

  function Reserve(costs: Ledger, u: nat, est: real, limit: real): (Ledger, bool)
    requires u < |costs|
  {
    if costs[u] < limit then (costs[u := costs[u] + est], true) else (costs, false)
  }

  function SettleCost(costs: Ledger, u: nat, reserved: real, actual: real): Ledger
    requires u < |costs|
  {
    costs[u := costs[u] + (Positive(actual) - reserved)]
  }

  /** The ledger table and the transactions on it. */
  class UsageDaily {
    var costs: Ledger

    constructor (users: nat)
      ensures costs == seq(users, _ => 0.0)
    {
      costs := seq(users, _ => 0.0);
    }

    /** One conditional update decides and reserves. */
    method ReserveDailyBudget(u: nat, est: real, limit: real) returns (ok: bool)
      requires u < |costs|
      modifies this
      ensures (costs, ok) == Reserve(old(costs), u, est, limit)
      ensures |costs| == |old(costs)| && (ok <==> old(costs)[u] < limit)
      ensures costs[u] == old(costs)[u] + (if ok then est else 0.0)
      ensures forall v :: 0 <= v < |costs| && v != u ==> costs[v] == old(costs)[v]
      ensures Sum(costs) == Sum(old(costs)) + (if ok then est else 0.0)
    {
      ok := costs[u] < limit;
      if ok {
        SumUpdate(costs, u, costs[u] + est);
        costs := costs[u := costs[u] + est];
      }
    }

    method SettleDailyBudget(u: nat, reserved: real, actual: real)
      requires u < |costs|
      modifies this
      ensures costs == SettleCost(old(costs), u, reserved, actual)
      ensures |costs| == |old(costs)| && costs[u] == old(costs)[u] - reserved + (if actual > 0.0 then actual else 0.0)
      ensures forall v :: 0 <= v < |costs| && v != u ==> costs[v] == old(costs)[v]
      ensures Sum(costs) == Sum(old(costs)) + Positive(actual) - reserved
    {
      var counted := if actual > 0.0 then actual else 0.0;
      SumUpdate(costs, u, costs[u] + (counted - reserved));
      costs := costs[u := costs[u] + (counted - reserved)];
    }

    method GlobalSpend() returns (total: real)
      ensures total == Sum(costs)
    {
      total := 0.0;
      for i := 0 to |costs|
        invariant total == Sum(costs[..i])
      {
        assert costs[..i + 1][..i] == costs[..i];
        total := total + costs[i];
      }
      assert costs[..|costs|] == costs;
    }

    /** Reserve, then verify and back out, with nobody else in between: a refusal leaves the ledger as it was. */
    method DbReservePair(u: nat, est: real, userLimit: real, cap: real) returns (admitted: bool)
      requires u < |costs|
      modifies this
      ensures admitted <==> old(costs)[u] < userLimit && (cap <= 0.0 || Sum(old(costs)) + est <= cap)
      ensures costs == if admitted then old(costs)[u := old(costs)[u] + est] else old(costs)
    {
      var ok := ReserveDailyBudget(u, est, userLimit);
      if !ok {
        return false;
      }
      var total := GlobalSpend();
      if cap > 0.0 && total > cap {
        SettleDailyBudget(u, est, 0.0);
        assert costs == old(costs);
        return false;
      }
      return true;
    }
  }

  // ---------------------------------------------------------------- interleaved requests

  datatype Phase = Idle | Reserved | BackingOut | Held | Settled(actual: real, recorded: bool) | Done
  datatype Request = Request(user: nat, est: real, phase: Phase)
  datatype State = State(costs: Ledger, requests: seq<Request>)
  datatype Limits = Limits(cap: real, perUser: seq<real>)

  /** The next transaction of a request. A settlement that fails leaves the reservation in place. */
  datatype Action = TryReserve | Verify | BackOut | Settle(actual: real, recorded: bool)

  predicate WellFormed(s: State, limits: Limits) {
    && |s.costs| == |limits.perUser|
    && forall i :: 0 <= i < |s.requests| ==> s.requests[i].user < |s.costs| && s.requests[i].est > 0.0
  }

  predicate Enabled(s: State, i: nat, a: Action) {
    && i < |s.requests|
    && match s.requests[i].phase
       case Idle => a.TryReserve?
       case Reserved => a.Verify?
       case BackingOut => a.BackOut?
       case Held => a.Settle?
       case _ => false
  }

  function Move(s: State, costs: Ledger, i: nat, phase: Phase): State
    requires i < |s.requests|
  {
    State(costs, s.requests[i := s.requests[i].(phase := phase)])
  }

  function Next(s: State, limits: Limits, i: nat, a: Action): State
    requires WellFormed(s, limits) && Enabled(s, i, a)
  {
    var r := s.requests[i];
    match a
    case TryReserve =>
      var (costs, ok) := Reserve(s.costs, r.user, r.est, limits.perUser[r.user]);
      Move(s, costs, i, if ok then Reserved else Done)
    case Verify => Move(s, s.costs, i, if limits.cap > 0.0 && Sum(s.costs) > limits.cap then BackingOut else Held)
    case BackOut => Move(s, SettleCost(s.costs, r.user, r.est, 0.0), i, Done)
    case Settle(actual, recorded) =>
      Move(s, if recorded then SettleCost(s.costs, r.user, r.est, actual) else s.costs, i, Settled(actual, recorded))
  }

  datatype Step = Step(request: nat, action: Action)

  ghost predicate Run(states: seq<State>, limits: Limits, steps: seq<Step>) {
    && |states| == |steps| + 1
    && WellFormed(states[0], limits)
    && (forall i :: 0 <= i < |states[0].requests| ==> states[0].requests[i].phase == Idle)
    && (forall u :: 0 <= u < |states[0].costs| ==> states[0].costs[u] >= 0.0)
    && forall k :: 0 <= k < |steps| ==>
         && WellFormed(states[k], limits)
         && Enabled(states[k], steps[k].request, steps[k].action)
         && states[k + 1] == Next(states[k], limits, steps[k].request, steps[k].action)
  }

  /** Admitted spend: the reservation until the request is settled, the real cost afterwards. */
  function Spend(r: Request): real {
    match r.phase
    case Held => r.est
    case Settled(actual, _) => Positive(actual)
    case _ => 0.0
  }

  function Overshoot(r: Request): real {
    match r.phase
    case Settled(actual, _) => Positive(Positive(actual) - r.est)
    case _ => 0.0
  }

  /** What the request has on the ledger. */
  function Weight(r: Request): real {
    match r.phase
    case Reserved => r.est
    case BackingOut => r.est
    case Held => r.est
    case Settled(actual, recorded) => if recorded then Positive(actual) else r.est
    case _ => 0.0
  }

  /** Reservations, and settled cost up to the reservation. */
  function Claim(r: Request, verifiedOnly: bool): real {
    match r.phase
    case Reserved => if verifiedOnly then 0.0 else r.est
    case BackingOut => if verifiedOnly then 0.0 else r.est
    case Held => r.est
    case Settled(actual, _) => if Positive(actual) < r.est then Positive(actual) else r.est
    case _ => 0.0
  }

  function OfUser(r: Request, u: nat, x: real): real {
    if r.user == u then x else 0.0
  }

  function Spends(s: State): seq<real> {
    seq(|s.requests|, i requires 0 <= i < |s.requests| => Spend(s.requests[i]))
  }

  function Overshoots(s: State): seq<real> {
    seq(|s.requests|, i requires 0 <= i < |s.requests| => Overshoot(s.requests[i]))
  }

  function Weights(s: State): seq<real> {
    seq(|s.requests|, i requires 0 <= i < |s.requests| => Weight(s.requests[i]))
  }

  function Claims(s: State): seq<real> {
    seq(|s.requests|, i requires 0 <= i < |s.requests| => Claim(s.requests[i], true))
  }

  function UserWeights(s: State, u: nat): seq<real> {
    seq(|s.requests|, i requires 0 <= i < |s.requests| => OfUser(s.requests[i], u, Weight(s.requests[i])))
  }

  function UserClaims(s: State, u: nat): seq<real> {
    seq(|s.requests|, i requires 0 <= i < |s.requests| => OfUser(s.requests[i], u, Claim(s.requests[i], false)))
  }

  function UserSpends(s: State, u: nat): seq<real> {
    seq(|s.requests|, i requires 0 <= i < |s.requests| => OfUser(s.requests[i], u, Spend(s.requests[i])))
  }

  function UserOvershoots(s: State, u: nat): seq<real> {
    seq(|s.requests|, i requires 0 <= i < |s.requests| => OfUser(s.requests[i], u, Overshoot(s.requests[i])))
  }

  /** No request reserves more than `most`. */
  predicate EstimatesUpTo(s: State, most: real) {
    most >= 0.0 && forall i :: 0 <= i < |s.requests| ==> s.requests[i].est <= most
  }

  ghost predicate GlobalInv(s: State, limits: Limits) {
    && WellFormed(s, limits)
    && Sum(Weights(s)) <= Sum(s.costs)
    && (limits.cap > 0.0 ==> Sum(Claims(s)) <= limits.cap || Sum(Claims(s)) <= 0.0)
  }

  ghost predicate UserInv(s: State, limits: Limits, u: nat, most: real) {
    && WellFormed(s, limits) && u < |s.costs| && EstimatesUpTo(s, most)
    && Sum(UserWeights(s, u)) <= s.costs[u]
    && (Sum(UserClaims(s, u)) < limits.perUser[u] + most || Sum(UserClaims(s, u)) <= 0.0)
  }

  lemma StepOnLedger(s: State, limits: Limits, i: nat, a: Action)
    requires WellFormed(s, limits) && Enabled(s, i, a)
    ensures var s' := Next(s, limits, i, a);
            && WellFormed(s', limits)
            && s'.requests == s.requests[i := s'.requests[i]]
            && s'.requests[i] == s.requests[i].(phase := s'.requests[i].phase)
            && s'.costs == s.costs[s.requests[i].user :=
                 s.costs[s.requests[i].user] + (Weight(s'.requests[i]) - Weight(s.requests[i]))]
            && (a == Verify ==> s'.costs == s.costs)
  {
  }

  lemma StepKeepsGlobal(s: State, limits: Limits, i: nat, a: Action)
    requires GlobalInv(s, limits) && Enabled(s, i, a)
    ensures GlobalInv(Next(s, limits, i, a), limits)
  {
    var s' := Next(s, limits, i, a);
    StepOnLedger(s, limits, i, a);
    var u := s.requests[i].user;
    assert Weights(s') == Weights(s)[i := Weight(s'.requests[i])];
    assert Claims(s') == Claims(s)[i := Claim(s'.requests[i], true)];
    SumUpdate(Weights(s), i, Weight(s'.requests[i]));
    SumUpdate(Claims(s), i, Claim(s'.requests[i], true));
    SumUpdate(s.costs, u, s'.costs[u]);
    SumMonotone(Claims(s'), Weights(s'));
  }

  lemma StepKeepsUser(s: State, limits: Limits, i: nat, a: Action, u: nat, most: real)
    requires UserInv(s, limits, u, most) && Enabled(s, i, a)
    ensures UserInv(Next(s, limits, i, a), limits, u, most)
  {
    var s' := Next(s, limits, i, a);
    StepOnLedger(s, limits, i, a);
    var r' := s'.requests[i];
    assert UserWeights(s', u) == UserWeights(s, u)[i := OfUser(r', u, Weight(r'))];
    assert UserClaims(s', u) == UserClaims(s, u)[i := OfUser(r', u, Claim(r', false))];
    SumUpdate(UserWeights(s, u), i, OfUser(r', u, Weight(r')));
    SumUpdate(UserClaims(s, u), i, OfUser(r', u, Claim(r', false)));
    SumMonotone(UserClaims(s, u), UserWeights(s, u));
  }

  lemma {:induction false} ReachableInv(states: seq<State>, limits: Limits, steps: seq<Step>, k: nat)
    requires Run(states, limits, steps) && k < |states|
    ensures GlobalInv(states[k], limits)
    ensures forall u, most :: 0 <= u < |limits.perUser| && EstimatesUpTo(states[0], most) ==>
              UserInv(states[k], limits, u, most)
  {
    if k == 0 {
      SumZero(Weights(states[0]));
      SumZero(Claims(states[0]));
      SumMonotone(seq(|states[0].costs|, _ => 0.0), states[0].costs);
      SumZero(seq(|states[0].costs|, _ => 0.0));
      forall u | 0 <= u < |limits.perUser|
        ensures Sum(UserWeights(states[0], u)) == Sum(UserClaims(states[0], u)) == 0.0
      {
        SumZero(UserWeights(states[0], u));
        SumZero(UserClaims(states[0], u));
      }
    } else {
      ReachableInv(states, limits, steps, k - 1);
      StepKeepsGlobal(states[k - 1], limits, steps[k - 1].request, steps[k - 1].action);
      forall u, most | 0 <= u < |limits.perUser| && EstimatesUpTo(states[0], most)
        ensures UserInv(states[k], limits, u, most)
      {
        StepKeepsUser(states[k - 1], limits, steps[k - 1].request, steps[k - 1].action, u, most);
      }
    }
  }

  /** The all-users cap under every interleaving: admitted reservations plus settled spend exceed it by at most what
      the real costs overshot their reservations. */
  lemma GlobalCapHolds(states: seq<State>, limits: Limits, steps: seq<Step>, k: nat)
    requires Run(states, limits, steps) && k < |states| && limits.cap > 0.0
    ensures Sum(Spends(states[k])) <= limits.cap + Sum(Overshoots(states[k]))
  {
    ReachableInv(states, limits, steps, k);
    var s := states[k];
    var bound := seq(|s.requests|,
                     i requires 0 <= i < |s.requests| => Claim(s.requests[i], true) + Overshoot(s.requests[i]));
    SumMonotone(Spends(s), bound);
    SumPlus(Claims(s), Overshoots(s), bound);
  }

  /** One user's limit: concurrent requests of one user go over it by less than one estimate, overshoots aside. */
  lemma UserLimitHolds(states: seq<State>, limits: Limits, steps: seq<Step>, k: nat, u: nat, most: real)
    requires Run(states, limits, steps) && k < |states| && u < |limits.perUser| && limits.perUser[u] >= 0.0
    requires EstimatesUpTo(states[0], most) && most > 0.0
    ensures Sum(UserSpends(states[k], u)) < limits.perUser[u] + most + Sum(UserOvershoots(states[k], u))
  {
    ReachableInv(states, limits, steps, k);
    var s := states[k];
    assert UserInv(s, limits, u, most);
    var bound := seq(|s.requests|, i requires 0 <= i < |s.requests| =>
      OfUser(s.requests[i], u, Claim(s.requests[i], false)) + OfUser(s.requests[i], u, Overshoot(s.requests[i])));
    SumMonotone(UserSpends(s, u), bound);
    SumPlus(UserClaims(s, u), UserOvershoots(s, u), bound);
  }
}
