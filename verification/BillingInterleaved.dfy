/** Convergence over the runs of the webhook engine themselves: claims, failures, retries after a failure, workers that
    overlap and finish one event twice, and everything that happens to other accounts, in any interleaving. */
module BillingInterleaved {
  import opened Prelude
  import opened Billing
  import opened BillingRuns
  import O = BillingOrder
  import C = BillingConvergence

  // ---------------------------------------------------------------- the account alone

  datatype Finished = Finished(event: Event, now: Time)

  /** An event is absorbed; any other step leaves time, status, period end and plan. */
  predicate AccountStep(before: C.Account, after: C.Account, finished: Option<Finished>, grace: nat) {
    if finished.Some? then after == C.Absorb(before, finished.value.event, finished.value.now, grace)
    else
      && after.plan == before.plan && after.row.status == before.row.status
      && after.row.eventAt == before.row.eventAt && after.row.periodEnd == before.row.periodEnd
  }

  predicate Trace(accounts: seq<C.Account>, finished: seq<Option<Finished>>, grace: nat) {
    && |accounts| == |finished| + 1
    && forall k :: 0 <= k < |finished| ==> AccountStep(accounts[k], accounts[k + 1], finished[k], grace)
  }

  /** The events of the first `j` steps. */
  function EventsUpTo(finished: seq<Option<Finished>>, j: nat): set<Event>
    requires j <= |finished|
  {
    set k | 0 <= k < j && finished[k].Some? :: finished[k].value.event
  }

  function EventsIn(finished: seq<Option<Finished>>): set<Event> {
    EventsUpTo(finished, |finished|)
  }

  function EventOrNone(finished: Option<Finished>): set<Event> {
    if finished.Some? then {finished.value.event} else {}
  }

  lemma OneMoreStep(finished: seq<Option<Finished>>, j: nat)
    requires 0 < j <= |finished|
    ensures EventsUpTo(finished, j) == EventsUpTo(finished, j - 1) + EventOrNone(finished[j - 1])
  {
  }

  lemma {:induction false} KeyAlong(accounts: seq<C.Account>, finished: seq<Option<Finished>>, grace: nat, j: nat)
    requires Trace(accounts, finished, grace) && j <= |finished|
    ensures C.IsMaxKey(C.KeyOfRow(accounts[j].row), C.KeyOfRow(accounts[0].row), EventsUpTo(finished, j))
  {
    if j > 0 {
      KeyAlong(accounts, finished, grace, j - 1);
      OneMoreStep(finished, j);
      assert AccountStep(accounts[j - 1], accounts[j - 1 + 1], finished[j - 1], grace);
    }
  }

  /** The end on the row after the events `done`, of all the events `es`: one that a top event among `done` names; if
      none of them names one, the one at the start or one that a live event among `done` names. */
  predicate EndFrom(done: set<Event>, es: set<Event>, base: Subscription, end: Option<Time>) {
    if C.NamesTopEnd(done, es, base) then
      exists e :: e in done && C.Top(e, es, base) && e.periodEnd.Some? && e.periodEnd == end
    else end == base.periodEnd || exists e :: e in done && C.Live(e, base) && e.periodEnd.Some? && e.periodEnd == end
  }

  lemma EndStep(before: C.Account, after: C.Account, finished: Option<Finished>, grace: nat,
                done: set<Event>, es: set<Event>, base: Subscription)
    requires AccountStep(before, after, finished, grace) && done + EventOrNone(finished) <= es
    requires C.IsMaxKey(C.KeyOfRow(before.row), C.KeyOfRow(base), done)
    requires EndFrom(done, es, base, before.row.periodEnd)
    ensures EndFrom(done + EventOrNone(finished), es, base, after.row.periodEnd)
  {
    if finished.Some? {
      EventOnEnd(before, finished.value.event, finished.value.now, grace, done, es, base);
    } else {
      assert done + EventOrNone(finished) == done;
    }
  }

  lemma EventOnEnd(a: C.Account, e: Event, now: Time, grace: nat, done: set<Event>, es: set<Event>, base: Subscription)
    requires done + {e} <= es && C.IsMaxKey(C.KeyOfRow(a.row), C.KeyOfRow(base), done)
    requires EndFrom(done, es, base, a.row.periodEnd)
    ensures EndFrom(done + {e}, es, base, C.Absorb(a, e, now, grace).row.periodEnd)
  {
    if C.Leq(C.KeyOfRow(a.row), C.KeyOf(e)) {
      assert C.Live(e, base);
      if t :| t in done && C.Top(t, es, base) && t.periodEnd.Some? {
        assert C.Top(e, es, base);
      }
    } else {
      assert !C.Top(e, es, base);
    }
  }

  lemma {:induction false} EndAlong(accounts: seq<C.Account>, finished: seq<Option<Finished>>, grace: nat, j: nat,
                                    es: set<Event>)
    requires Trace(accounts, finished, grace) && j <= |finished| && EventsUpTo(finished, j) <= es
    ensures EndFrom(EventsUpTo(finished, j), es, accounts[0].row, accounts[j].row.periodEnd)
  {
    if j > 0 {
      OneMoreStep(finished, j);
      EndAlong(accounts, finished, grace, j - 1, es);
      KeyAlong(accounts, finished, grace, j - 1);
      assert AccountStep(accounts[j - 1], accounts[j - 1 + 1], finished[j - 1], grace);
      EndStep(accounts[j - 1], accounts[j], finished[j - 1], grace, EventsUpTo(finished, j - 1), es, accounts[0].row);
    } else {
      assert EventsUpTo(finished, 0) == {};
    }
  }

  predicate AllAt(finished: seq<Option<Finished>>, now: Time) {
    forall k :: 0 <= k < |finished| && finished[k].Some? ==> finished[k].value.now == now
  }

  predicate AnyLive(es: set<Event>, base: Subscription) {
    exists e :: e in es && C.Live(e, base)
  }

  lemma {:induction false} PlanAlong(accounts: seq<C.Account>, finished: seq<Option<Finished>>, grace: nat, j: nat,
                                     now: Time)
    requires Trace(accounts, finished, grace) && j <= |finished| && AllAt(finished, now)
    ensures var a := accounts[j];
            a.plan == if AnyLive(EventsUpTo(finished, j), accounts[0].row)
                      then EntitledPlan(Pro, a.row.status, a.row.periodEnd, now, grace) else accounts[0].plan
  {
    if j > 0 {
      OneMoreStep(finished, j);
      PlanAlong(accounts, finished, grace, j - 1, now);
      KeyAlong(accounts, finished, grace, j - 1);
      assert AccountStep(accounts[j - 1], accounts[j - 1 + 1], finished[j - 1], grace);
    }
  }

  /** An event whose key is the one the row ends with. */
  lemma TopEvent(key: C.Key, base: Subscription, es: set<Event>) returns (t: Event)
    requires C.IsMaxKey(key, C.KeyOfRow(base), es) && AnyLive(es, base)
    ensures t in es && C.Top(t, es, base) && C.KeyOf(t) == key
  {
    if key == C.KeyOfRow(base) {
      t :| t in es && C.Live(t, base);
    } else {
      t :| t in es && C.KeyOf(t) == key;
    }
  }

  /** Two traces from one account that absorb the same events: time and status agree, and so does the end if settled. */
  lemma TracesConverge(accounts1: seq<C.Account>, finished1: seq<Option<Finished>>,
                       accounts2: seq<C.Account>, finished2: seq<Option<Finished>>, grace: nat)
    requires Trace(accounts1, finished1, grace) && Trace(accounts2, finished2, grace)
    requires accounts1[0] == accounts2[0] && EventsIn(finished1) == EventsIn(finished2)
    ensures var (row1, row2) := (accounts1[|finished1|].row, accounts2[|finished2|].row);
            && row1.eventAt == row2.eventAt && (row1.eventAt.Some? ==> row1.status == row2.status)
            && (C.EndSettled(EventsIn(finished1), accounts1[0].row) ==> row1.periodEnd == row2.periodEnd)
  {
    var es, base := EventsIn(finished1), accounts1[0].row;
    KeyAlong(accounts1, finished1, grace, |finished1|);
    KeyAlong(accounts2, finished2, grace, |finished2|);
    C.MaxKeyUnique(C.KeyOfRow(accounts1[|finished1|].row), C.KeyOfRow(accounts2[|finished2|].row),
                   C.KeyOfRow(base), es);
    EndAlong(accounts1, finished1, grace, |finished1|, es);
    EndAlong(accounts2, finished2, grace, |finished2|, es);
  }

  lemma TracePlansConverge(accounts1: seq<C.Account>, finished1: seq<Option<Finished>>,
                           accounts2: seq<C.Account>, finished2: seq<Option<Finished>>, grace: nat, now: Time)
    requires Trace(accounts1, finished1, grace) && Trace(accounts2, finished2, grace)
    requires accounts1[0] == accounts2[0] && EventsIn(finished1) == EventsIn(finished2)
    requires AllAt(finished1, now) && AllAt(finished2, now)
    requires C.PlanSettled(EventsIn(finished1), accounts1[0].row, now, grace)
    ensures accounts1[|finished1|].plan == accounts2[|finished2|].plan
  {
    var es, base := EventsIn(finished1), accounts1[0].row;
    var row1, row2 := accounts1[|finished1|].row, accounts2[|finished2|].row;
    PlanAlong(accounts1, finished1, grace, |finished1|, now);
    PlanAlong(accounts2, finished2, grace, |finished2|, now);
    if AnyLive(es, base) {
      KeyAlong(accounts1, finished1, grace, |finished1|);
      KeyAlong(accounts2, finished2, grace, |finished2|);
      C.MaxKeyUnique(C.KeyOfRow(row1), C.KeyOfRow(row2), C.KeyOfRow(base), es);
      var t := TopEvent(C.KeyOfRow(row1), base, es);
      EndAlong(accounts1, finished1, grace, |finished1|, es);
      EndAlong(accounts2, finished2, grace, |finished2|, es);
      assert C.PossibleEnd(es, base, row1.periodEnd) && C.PossibleEnd(es, base, row2.periodEnd);
    }
  }

  // ---------------------------------------------------------------- steps of the engine

  /** No sweep; and an event that is finished is a valid one about the subscription, written to the row on which it was
      decided, or leaves the account alone. */
  ghost predicate Undisturbed(w: World, step: Step, u: UserId, id: Ref) {
    && Enabled(w, step)
    && match step
       case ReconcileStep(_, _) => false
       case FinishStep(e, now, pick) => C.Relevant(w.db, u, id, e) || SameAccount(w.db, Finish(w.db, e, now, pick).0, u)
       case WriteStep(worker) =>
         w.checks[worker].account == u ==> C.Relevant(w.db, u, id, w.checks[worker].event) && Unraced(w, step, u)
       case _ => true
  }

  /** The event about the subscription that a step finishes for the account, if it does. */
  ghost function FinishedBy(w: World, step: Step, u: UserId, id: Ref): Option<Finished> {
    match step
    case FinishStep(e, now, _) => if C.Relevant(w.db, u, id, e) then Some(Finished(e, now)) else None
    case WriteStep(worker) =>
      if worker in w.checks && w.checks[worker].account == u then
        Some(Finished(w.checks[worker].event, w.checks[worker].now))
      else None
    case _ => None
  }

  lemma StaysLinked(db: Db, db': Db, u: UserId, id: Ref)
    requires C.LinkedAccount(db, u, id) && Valid(db')
    requires u in db'.users && u in db'.subs && db'.subs[u].subscription == Some(id)
    ensures C.LinkedAccount(db', u, id)
  {
    assert Holds(db', u, id);
  }

  /** What a step does to the account and its link. */
  ghost predicate OnAccount(db: Db, db': Db, u: UserId, id: Ref, finished: Option<Finished>) {
    && C.LinkedAccount(db, u, id) && C.LinkedAccount(db', u, id) && db'.settings == db.settings
    && AccountStep(C.AccountOf(db, u), C.AccountOf(db', u), finished, db.settings.grace)
  }

  lemma SameOnAccount(db: Db, db': Db, u: UserId, id: Ref)
    requires C.LinkedAccount(db, u, id) && Valid(db') && SameAccount(db, db', u) && db'.settings == db.settings
    ensures OnAccount(db, db', u, id, None)
  {
    assert SubOf(db, u) == SubOf(db', u);
    StaysLinked(db, db', u, id);
  }

  lemma FinishOnAccount(w: World, e: Event, now: Time, pick: UserId, u: UserId, id: Ref)
    requires Inv(w) && Undisturbed(w, FinishStep(e, now, pick), u, id) && C.LinkedAccount(w.db, u, id)
    ensures OnAccount(w.db, Finish(w.db, e, now, pick).0, u, id, FinishedBy(w, FinishStep(e, now, pick), u, id))
  {
    FinishKeepsValid(w.db, e, now, pick);
    if C.Relevant(w.db, u, id, e) {
      C.FinishAbsorbs(w.db, u, id, e, now, pick);
    } else {
      FinishShape(w.db, e, now, pick);
      SameOnAccount(w.db, Finish(w.db, e, now, pick).0, u, id);
    }
  }

  lemma AppliedIsAbsorbed(db: Db, db': Db, e: Event, now: Time, u: UserId, id: Ref)
    requires AppliedTo(db, db', e, now, u) && C.LinkedAccount(db, u, id) && C.Relevant(db, u, id, e) && Valid(db')
    ensures OnAccount(db, db', u, id, Some(Finished(e, now)))
  {
    C.VerdictIsKeyOrder(db.subs[u], e);
    StaysLinked(db, db', u, id);
  }

  lemma WriteOnAccount(w: World, worker: Worker, u: UserId, id: Ref)
    requires Inv(w) && Undisturbed(w, WriteStep(worker), u, id) && C.LinkedAccount(w.db, u, id)
    ensures OnAccount(w.db, Next(w, WriteStep(worker)).db, u, id, FinishedBy(w, WriteStep(worker), u, id))
  {
    var check := w.checks[worker];
    StepKeepsValid(w, WriteStep(worker));
    if check.account == u {
      UnracedWrite(w.db, check);
      AppliedIsAbsorbed(w.db, WriteChecked(w.db, check), check.event, check.now, u, id);
    } else {
      O.WriteLeavesOthers(w.db, check, u);
      SameOnAccount(w.db, WriteChecked(w.db, check), u, id);
    }
  }

  lemma StepOnAccount(w: World, step: Step, u: UserId, id: Ref)
    requires Inv(w) && Undisturbed(w, step, u, id) && C.LinkedAccount(w.db, u, id)
    ensures OnAccount(w.db, Next(w, step).db, u, id, FinishedBy(w, step, u, id))
  {
    if step.FinishStep? {
      FinishOnAccount(w, step.event, step.now, step.pick, u, id);
    } else if step.WriteStep? {
      WriteOnAccount(w, step.worker, u, id);
    } else {
      StepKeepsValid(w, step);
      StaysLinked(w.db, Next(w, step).db, u, id);
    }
  }

  // ---------------------------------------------------------------- along a run

  ghost predicate UndisturbedRun(worlds: seq<World>, steps: seq<Step>, i: nat, j: nat, u: UserId, id: Ref) {
    && Run(worlds, steps) && Initial(worlds[0]) && i <= j < |worlds|
    && C.LinkedAccount(worlds[i].db, u, id)
    && forall k :: i <= k < j ==> Undisturbed(worlds[k], steps[k], u, id)
  }

  function AccountAt(db: Db, u: UserId): C.Account {
    if u in db.subs && u in db.users then C.AccountOf(db, u) else C.Account(BLANK, Free)
  }

  function Accounts(worlds: seq<World>, i: nat, j: nat, u: UserId): seq<C.Account>
    requires i <= j < |worlds|
  {
    seq(j - i + 1, k requires 0 <= k <= j - i => AccountAt(worlds[i + k].db, u))
  }

  ghost function FinishedIn(worlds: seq<World>, steps: seq<Step>, i: nat, j: nat, u: UserId, id: Ref)
    : seq<Option<Finished>>
    requires i <= j <= |steps| && |worlds| == |steps| + 1
  {
    seq(j - i, k requires 0 <= k < j - i => FinishedBy(worlds[i + k], steps[i + k], u, id))
  }

  /** The events about the subscription that the steps from `i` to `j` finish. */
  ghost function FinishedEvents(worlds: seq<World>, steps: seq<Step>, i: nat, j: nat, u: UserId, id: Ref): set<Event>
    requires i <= j <= |steps| && |worlds| == |steps| + 1
  {
    EventsIn(FinishedIn(worlds, steps, i, j, u, id))
  }

  lemma {:induction false} LinkedAlong(worlds: seq<World>, steps: seq<Step>, i: nat, j: nat, u: UserId, id: Ref, k: nat)
    requires UndisturbedRun(worlds, steps, i, j, u, id) && i <= k <= j
    ensures C.LinkedAccount(worlds[k].db, u, id) && worlds[k].db.settings == worlds[i].db.settings
    ensures k < j ==> OnAccount(worlds[k].db, worlds[k + 1].db, u, id, FinishedBy(worlds[k], steps[k], u, id))
  {
    if i < k {
      LinkedAlong(worlds, steps, i, j, u, id, k - 1);
    }
    if k < j {
      ReachableInv(worlds, steps, k);
      assert Follows(worlds[k], steps[k], worlds[k + 1]);
      StepOnAccount(worlds[k], steps[k], u, id);
    }
  }

  lemma RunStepOnTrace(worlds: seq<World>, steps: seq<Step>, i: nat, j: nat, u: UserId, id: Ref, k: nat)
    requires UndisturbedRun(worlds, steps, i, j, u, id) && i <= k < j
    ensures AccountStep(AccountAt(worlds[k].db, u), AccountAt(worlds[k + 1].db, u),
                        FinishedBy(worlds[k], steps[k], u, id), worlds[i].db.settings.grace)
  {
    LinkedAlong(worlds, steps, i, j, u, id, k);
  }

  lemma RunIsTrace(worlds: seq<World>, steps: seq<Step>, i: nat, j: nat, u: UserId, id: Ref)
    requires UndisturbedRun(worlds, steps, i, j, u, id)
    ensures Trace(Accounts(worlds, i, j, u), FinishedIn(worlds, steps, i, j, u, id), worlds[i].db.settings.grace)
    ensures C.LinkedAccount(worlds[j].db, u, id)
    ensures Accounts(worlds, i, j, u)[0] == C.AccountOf(worlds[i].db, u)
    ensures Accounts(worlds, i, j, u)[j - i] == C.AccountOf(worlds[j].db, u)
  {
    LinkedAlong(worlds, steps, i, j, u, id, j);
    var accounts, finished := Accounts(worlds, i, j, u), FinishedIn(worlds, steps, i, j, u, id);
    forall k | 0 <= k < j - i
      ensures AccountStep(accounts[k], accounts[k + 1], finished[k], worlds[i].db.settings.grace)
    {
      RunStepOnTrace(worlds, steps, i, j, u, id, i + k);
      assert accounts[k + 1] == AccountAt(worlds[i + k + 1].db, u);
    }
    assert accounts[0] == AccountAt(worlds[i + 0].db, u) && accounts[j - i] == AccountAt(worlds[i + (j - i)].db, u);
  }

  /** In every such run the row ends at the greatest (occurred_at, status rank) among the events finished and the row at
      the start, however often and in whatever order they were claimed, failed and finished. */
  lemma KeyIsMaximumInRun(worlds: seq<World>, steps: seq<Step>, i: nat, j: nat, u: UserId, id: Ref)
    requires UndisturbedRun(worlds, steps, i, j, u, id)
    ensures C.LinkedAccount(worlds[j].db, u, id)
    ensures C.IsMaxKey(C.KeyOfRow(worlds[j].db.subs[u]), C.KeyOfRow(worlds[i].db.subs[u]),
                       FinishedEvents(worlds, steps, i, j, u, id))
  {
    RunIsTrace(worlds, steps, i, j, u, id);
    KeyAlong(Accounts(worlds, i, j, u), FinishedIn(worlds, steps, i, j, u, id), worlds[i].db.settings.grace, j - i);
  }

  /** Two runs that start from the same account and finish the same events agree on the event time, on the status once
      any event has been applied, and on the period end if it is settled for that set of events. */
  lemma RunsConverge(worlds1: seq<World>, steps1: seq<Step>, i1: nat, j1: nat,
                     worlds2: seq<World>, steps2: seq<Step>, i2: nat, j2: nat, u: UserId, id: Ref)
    requires UndisturbedRun(worlds1, steps1, i1, j1, u, id) && UndisturbedRun(worlds2, steps2, i2, j2, u, id)
    requires SameStart(worlds1[i1].db, worlds2[i2].db, u, id)
    requires FinishedEvents(worlds1, steps1, i1, j1, u, id) == FinishedEvents(worlds2, steps2, i2, j2, u, id)
    ensures u in worlds1[j1].db.subs && u in worlds2[j2].db.subs
    ensures var (row1, row2) := (worlds1[j1].db.subs[u], worlds2[j2].db.subs[u]);
            && row1.eventAt == row2.eventAt && (row1.eventAt.Some? ==> row1.status == row2.status)
            && (C.EndSettled(FinishedEvents(worlds1, steps1, i1, j1, u, id), worlds1[i1].db.subs[u]) ==>
                  row1.periodEnd == row2.periodEnd)
  {
    RunIsTrace(worlds1, steps1, i1, j1, u, id);
    RunIsTrace(worlds2, steps2, i2, j2, u, id);
    TracesConverge(Accounts(worlds1, i1, j1, u), FinishedIn(worlds1, steps1, i1, j1, u, id),
                   Accounts(worlds2, i2, j2, u), FinishedIn(worlds2, steps2, i2, j2, u, id),
                   worlds1[i1].db.settings.grace);
  }

  ghost predicate SameStart(db1: Db, db2: Db, u: UserId, id: Ref) {
    && C.LinkedAccount(db1, u, id) && C.LinkedAccount(db2, u, id)
    && C.AccountOf(db1, u) == C.AccountOf(db2, u) && db1.settings == db2.settings
  }

  /** They agree on the cached plan too, if every event is handled at one time and the possible period ends all entitle
      the same plan. */
  lemma RunPlansConverge(worlds1: seq<World>, steps1: seq<Step>, i1: nat, j1: nat,
                         worlds2: seq<World>, steps2: seq<Step>, i2: nat, j2: nat, u: UserId, id: Ref, now: Time)
    requires UndisturbedRun(worlds1, steps1, i1, j1, u, id) && UndisturbedRun(worlds2, steps2, i2, j2, u, id)
    requires SameStart(worlds1[i1].db, worlds2[i2].db, u, id)
    requires FinishedEvents(worlds1, steps1, i1, j1, u, id) == FinishedEvents(worlds2, steps2, i2, j2, u, id)
    requires AllAt(FinishedIn(worlds1, steps1, i1, j1, u, id), now)
    requires AllAt(FinishedIn(worlds2, steps2, i2, j2, u, id), now)
    requires C.PlanSettled(FinishedEvents(worlds1, steps1, i1, j1, u, id), worlds1[i1].db.subs[u], now,
                           worlds1[i1].db.settings.grace)
    ensures u in worlds1[j1].db.users && u in worlds2[j2].db.users
    ensures worlds1[j1].db.users[u] == worlds2[j2].db.users[u]
  {
    RunIsTrace(worlds1, steps1, i1, j1, u, id);
    RunIsTrace(worlds2, steps2, i2, j2, u, id);
    TracePlansConverge(Accounts(worlds1, i1, j1, u), FinishedIn(worlds1, steps1, i1, j1, u, id),
                       Accounts(worlds2, i2, j2, u), FinishedIn(worlds2, steps2, i2, j2, u, id),
                       worlds1[i1].db.settings.grace, now);
  }
}
