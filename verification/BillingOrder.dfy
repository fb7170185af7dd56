/** The order in which events may change a subscription: what holds however workers overlap, what holds if no write
    falls between the decision on an event and its own write, and runs in which one does. */
module BillingOrder {
  import opened Prelude
  import opened Billing
  import opened BillingRuns

  function EventAt(db: Db, u: UserId): Option<Time> {
    if u in db.subs then db.subs[u].eventAt else None
  }

  function SubscriptionId(db: Db, u: UserId): Option<Ref> {
    if u in db.subs then db.subs[u].subscription else None
  }

  predicate NotLater(a: Option<Time>, b: Option<Time>) {
    a.None? || (b.Some? && a.value <= b.value)
  }

  predicate StrictlyNewer(t: Time, last: Option<Time>) {
    last.None? || t > last.value
  }

  /** The event that a step finishes. */
  function EventOf(w: World, step: Step): Option<Event> {
    match step
    case FinishStep(e, _, _) => Some(e)
    case WriteStep(worker) => if worker in w.checks then Some(w.checks[worker].event) else None
    case _ => None
  }

  // ---------------------------------------------------------------- event time, under any overlap

  predicate Activates(event: Option<Event>, id: Option<Ref>) {
    event.Some? && event.value.status == Word(Active) && event.value.subscription == id
  }

  /** What has been applied to an account: when, and for which subscription id. */
  datatype Applied = Applied(at: Option<Time>, id: Option<Ref>)

  function AppliedOf(db: Db, u: UserId): Applied {
    Applied(EventAt(db, u), SubscriptionId(db, u))
  }

  predicate InOrder(before: Applied, event: Option<Event>, after: Applied) {
    && NotLater(before.at, after.at)
    && (before.id.Some? && after.id != before.id ==>
          after.id.Some? && Activates(event, after.id) && StrictlyNewer(event.value.occurredAt, before.at))
  }

  /** The row found under the lock is not newer than the event, or carried its time already when it was decided. */
  predicate InTime(w: World, step: Step, u: UserId) {
    step.WriteStep? && step.worker in w.checks && w.checks[step.worker].account == u ==>
      var check := w.checks[step.worker];
      || (check.seen.Some? && check.seen.value.eventAt == Some(check.event.occurredAt))
      || NotLater(EventAt(w.db, u), Some(check.event.occurredAt))
  }

  /** A write lowers the event time of its account exactly if it comes too late. */
  lemma WriteTimeExactly(w: World, worker: Worker, u: UserId)
    requires Inv(w) && Enabled(w, WriteStep(worker))
    ensures NotLater(EventAt(w.db, u), EventAt(Next(w, WriteStep(worker)).db, u)) <==> InTime(w, WriteStep(worker), u)
  {
    assert CheckOk(w.db, w.checks[worker]);
  }

  lemma FinishOrder(db: Db, e: Event, now: Time, pick: UserId, u: UserId)
    requires Valid(db) && ValidPick(db, e, pick) && EventKey(e) in db.ledger
    ensures InOrder(AppliedOf(db, u), Some(e), AppliedOf(Finish(db, e, now, pick).0, u))
  {
    FinishShape(db, e, now, pick);
  }

  /** Steps that finish no event change neither event time nor subscription id of an account. */
  lemma OtherStepsKeepApplied(w: World, step: Step, u: UserId)
    requires Enabled(w, step) && !step.FinishStep? && !step.WriteStep?
    ensures AppliedOf(Next(w, step).db, u) == AppliedOf(w.db, u)
  {
  }

  /** One step never lowers the event time of an account, unless it is a write that comes too late. */
  lemma StepTimeExactly(w: World, step: Step, u: UserId)
    requires Inv(w) && Enabled(w, step)
    ensures NotLater(EventAt(w.db, u), EventAt(Next(w, step).db, u)) <==> InTime(w, step, u)
  {
    match step {
      case FinishStep(e, now, pick) => FinishOrder(w.db, e, now, pick, u);
      case WriteStep(worker) => WriteTimeExactly(w, worker, u);
      case _ => OtherStepsKeepApplied(w, step, u);
    }
  }

  function Times(worlds: seq<World>, u: UserId): seq<Option<Time>> {
    seq(|worlds|, i requires 0 <= i < |worlds| => EventAt(worlds[i].db, u))
  }

  predicate Rising(times: seq<Option<Time>>) {
    forall i, j :: 0 <= i <= j < |times| ==> NotLater(times[i], times[j])
  }

  predicate RisesAt(times: seq<Option<Time>>, k: nat)
    requires k + 1 < |times|
  {
    NotLater(times[k], times[k + 1])
  }

  lemma {:induction false} StepsRise(times: seq<Option<Time>>, i: nat, j: nat)
    requires i <= j < |times| && forall k: nat :: k + 1 < |times| ==> RisesAt(times, k)
    ensures NotLater(times[i], times[j])
  {
    if i < j {
      StepsRise(times, i, j - 1);
      assert RisesAt(times, j - 1);
    }
  }

  predicate AllInTime(worlds: seq<World>, steps: seq<Step>, u: UserId) {
    |worlds| == |steps| + 1 && forall k :: 0 <= k < |steps| ==> InTime(worlds[k], steps[k], u)
  }

  lemma RisesExactlyInTime(worlds: seq<World>, steps: seq<Step>, u: UserId, k: nat)
    requires Run(worlds, steps) && Initial(worlds[0]) && k < |steps|
    ensures RisesAt(Times(worlds, u), k) <==> InTime(worlds[k], steps[k], u)
  {
    ReachableInv(worlds, steps, k);
    assert Follows(worlds[k], steps[k], worlds[k + 1]);
    StepTimeExactly(worlds[k], steps[k], u);
  }

  /** `provider_event_at` never decreases along a run if and only if no write of the run comes too late. */
  lemma EventTimeNeverDecreases(worlds: seq<World>, steps: seq<Step>, u: UserId)
    requires Run(worlds, steps) && Initial(worlds[0])
    ensures Rising(Times(worlds, u)) <==> AllInTime(worlds, steps, u)
  {
    var times := Times(worlds, u);
    forall k | 0 <= k < |steps|
      ensures RisesAt(times, k) <==> InTime(worlds[k], steps[k], u)
    {
      RisesExactlyInTime(worlds, steps, u, k);
    }
    if Rising(times) {
      assert forall k :: 0 <= k < |steps| ==> RisesAt(times, k);
    } else {
      var i, j :| 0 <= i <= j < |times| && !NotLater(times[i], times[j]);
      if forall k: nat :: k + 1 < |times| ==> RisesAt(times, k) {
        StepsRise(times, i, j);
      }
    }
  }

  // ---------------------------------------------------------------- subscription ids

  /** If the step writes a checked event to the account, the order rule would still apply it to the row it finds. */
  predicate StillApplies(w: World, step: Step, u: UserId) {
    step.WriteStep? && step.worker in w.checks && w.checks[step.worker].account == u ==>
      var e := w.checks[step.worker].event; OrderVerdict(SubOf(w.db, u), e, StatusOf(e)).Apply?
  }

  predicate Ordered(worlds: seq<World>, steps: seq<Step>, u: UserId) {
    |worlds| == |steps| + 1 && forall k :: 0 <= k < |steps| ==> StillApplies(worlds[k], steps[k], u)
  }

  /** In particular if nothing was written to the row in between. */
  lemma UnracedRunIsOrdered(worlds: seq<World>, steps: seq<Step>, u: UserId)
    requires Run(worlds, steps) && Initial(worlds[0]) && UnracedRun(worlds, steps, u)
    ensures Ordered(worlds, steps, u) && AllInTime(worlds, steps, u)
  {
    forall k | 0 <= k < |steps|
      ensures StillApplies(worlds[k], steps[k], u) && InTime(worlds[k], steps[k], u)
    {
      ReachableInv(worlds, steps, k);
      assert Follows(worlds[k], steps[k], worlds[k + 1]);
      assert Unraced(worlds[k], steps[k], u);
    }
  }

  lemma WriteOrder(w: World, worker: Worker, u: UserId)
    requires Inv(w) && Enabled(w, WriteStep(worker)) && StillApplies(w, WriteStep(worker), u)
    ensures InOrder(AppliedOf(w.db, u), EventOf(w, WriteStep(worker)), AppliedOf(Next(w, WriteStep(worker)).db, u))
  {
    assert CheckOk(w.db, w.checks[worker]);
  }

  /** One step never lowers an account's event time, and replaces its subscription id only by a newer activation. */
  lemma StepOrder(w: World, step: Step, u: UserId)
    requires Inv(w) && Enabled(w, step) && StillApplies(w, step, u)
    ensures InOrder(AppliedOf(w.db, u), EventOf(w, step), AppliedOf(Next(w, step).db, u))
  {
    match step {
      case FinishStep(e, now, pick) => FinishOrder(w.db, e, now, pick, u);
      case WriteStep(worker) => WriteOrder(w, worker, u);
      case _ => OtherStepsKeepApplied(w, step, u);
    }
  }

  function AppliedTrace(worlds: seq<World>, u: UserId): seq<Applied> {
    seq(|worlds|, i requires 0 <= i < |worlds| => AppliedOf(worlds[i].db, u))
  }

  function EventTrace(worlds: seq<World>, steps: seq<Step>): seq<Option<Event>>
    requires |worlds| == |steps| + 1
  {
    seq(|steps|, i requires 0 <= i < |steps| => EventOf(worlds[i], steps[i]))
  }

  predicate Chain(trace: seq<Applied>, events: seq<Option<Event>>) {
    |trace| == |events| + 1 && forall k :: 0 <= k < |events| ==> InOrder(trace[k], events[k], trace[k + 1])
  }

  lemma RunIsChain(worlds: seq<World>, steps: seq<Step>, u: UserId)
    requires Run(worlds, steps) && Initial(worlds[0]) && Ordered(worlds, steps, u)
    ensures Chain(AppliedTrace(worlds, u), EventTrace(worlds, steps))
  {
    forall k | 0 <= k < |steps|
      ensures InOrder(AppliedTrace(worlds, u)[k], EventTrace(worlds, steps)[k], AppliedTrace(worlds, u)[k + 1])
    {
      ReachableInv(worlds, steps, k);
      assert Follows(worlds[k], steps[k], worlds[k + 1]);
      StepOrder(worlds[k], steps[k], u);
    }
  }

  lemma {:induction false} ChainTimes(trace: seq<Applied>, events: seq<Option<Event>>, i: nat, j: nat)
    requires Chain(trace, events) && i <= j < |trace|
    ensures NotLater(trace[i].at, trace[j].at)
  {
    if i < j {
      ChainTimes(trace, events, i, j - 1);
      assert InOrder(trace[j - 1], events[j - 1], trace[j - 1 + 1]);
    }
  }

  lemma {:induction false} ChainIds(trace: seq<Applied>, events: seq<Option<Event>>, i: nat, j: nat) returns (k: nat)
    requires Chain(trace, events) && i <= j < |trace| && trace[i].id.Some?
    ensures trace[j].id.Some?
    ensures trace[i].id != trace[j].id ==>
              && i <= k < j && Activates(events[k], trace[j].id)
              && forall m :: i <= m <= k ==> StrictlyNewer(events[k].value.occurredAt, trace[m].at)
  {
    k := i;
    if i < j {
      k := ChainIds(trace, events, i, j - 1);
      assert InOrder(trace[j - 1], events[j - 1], trace[j - 1 + 1]);
      if trace[j - 1].id != trace[j].id {
        k := j - 1;
        forall m | i <= m <= k
          ensures StrictlyNewer(events[k].value.occurredAt, trace[m].at)
        {
          ChainTimes(trace, events, m, k);
        }
      }
    }
  }

  /** A subscription id on file is never dropped, and if it differs later some step in between finished an active event
      for the new id, strictly newer than everything applied before it. */
  lemma IdChangesOnlyByNewerActivation(worlds: seq<World>, steps: seq<Step>, i: nat, j: nat, u: UserId) returns (k: nat)
    requires Run(worlds, steps) && Initial(worlds[0]) && Ordered(worlds, steps, u) && i <= j < |worlds|
    requires SubscriptionId(worlds[i].db, u).Some?
    ensures SubscriptionId(worlds[j].db, u).Some?
    ensures SubscriptionId(worlds[i].db, u) != SubscriptionId(worlds[j].db, u) ==>
              && i <= k < j
              && Activates(EventOf(worlds[k], steps[k]), SubscriptionId(worlds[j].db, u))
              && forall m :: i <= m <= k ==>
                   StrictlyNewer(EventOf(worlds[k], steps[k]).value.occurredAt, EventAt(worlds[m].db, u))
  {
    var trace, events := AppliedTrace(worlds, u), EventTrace(worlds, steps);
    RunIsChain(worlds, steps, u);
    k := ChainIds(trace, events, i, j);
    if SubscriptionId(worlds[i].db, u) != SubscriptionId(worlds[j].db, u) {
      forall m | i <= m <= k
        ensures StrictlyNewer(EventOf(worlds[k], steps[k]).value.occurredAt, EventAt(worlds[m].db, u))
      {
        assert StrictlyNewer(events[k].value.occurredAt, trace[m].at);
      }
    }
  }

  predicate About(event: Option<Event>, id: Ref) {
    event.Some? && event.value.subscription == Some(id)
  }

  /** An event for subscription `stale` that is no activation newer than `since` (and does more than link ids). */
  predicate LateEvent(event: Option<Event>, stale: Ref, since: Option<Time>) {
    && About(event, stale)
    && (event.value.kind != CheckoutCompleted || !event.value.status.NoStatus?)
    && (event.value.status != Word(Active) || !StrictlyNewer(event.value.occurredAt, since))
  }

  ghost predicate ReplacedBy(db: Db, u: UserId, stale: Ref, since: Option<Time>) {
    && SubscriptionId(db, u).Some?
    && SubscriptionId(db, u) != Some(stale)
    && NotLater(since, EventAt(db, u))
  }

  lemma WriteLeavesOthers(db: Db, check: Check, v: UserId)
    requires CheckOk(db, check) && Writable(db, check) && check.account != v
    ensures SameAccount(db, WriteChecked(db, check), v)
  {
  }

  lemma LateEventLeavesAccount(w: World, step: Step, u: UserId, stale: Ref, since: Option<Time>)
    requires Inv(w) && Enabled(w, step) && StillApplies(w, step, u) && ReplacedBy(w.db, u, stale, since)
    requires LateIfAbout(EventOf(w, step), stale, since)
    ensures ReplacedBy(Next(w, step).db, u, stale, since)
    ensures About(EventOf(w, step), stale) ==> SameAccount(w.db, Next(w, step).db, u)
  {
    StepOrder(w, step, u);
    if About(EventOf(w, step), stale) {
      if step.FinishStep? {
        FinishShape(w.db, step.event, step.now, step.pick);
        Isolation(w.db, step.event, step.now, step.pick, u);
      } else {
        WriteLeavesOthers(w.db, w.checks[step.worker], u);
      }
    }
  }

  predicate LateIfAbout(event: Option<Event>, stale: Ref, since: Option<Time>) {
    About(event, stale) ==> LateEvent(event, stale, since)
  }

  predicate OnlyLateEvents(events: seq<Option<Event>>, i: nat, j: nat, stale: Ref, since: Option<Time>) {
    forall k :: i <= k < j <= |events| ==> LateIfAbout(events[k], stale, since)
  }

  /** One step of a run, seen from the events it finishes. */
  lemma ReplacementStep(worlds: seq<World>, steps: seq<Step>, k: nat, u: UserId, stale: Ref, since: Option<Time>)
    requires Run(worlds, steps) && Initial(worlds[0]) && Ordered(worlds, steps, u) && k < |steps|
    requires ReplacedBy(worlds[k].db, u, stale, since) && LateIfAbout(EventTrace(worlds, steps)[k], stale, since)
    ensures ReplacedBy(worlds[k + 1].db, u, stale, since)
    ensures About(EventOf(worlds[k], steps[k]), stale) ==> SameAccount(worlds[k].db, worlds[k + 1].db, u)
  {
    ReachableInv(worlds, steps, k);
    assert Follows(worlds[k], steps[k], worlds[k + 1]);
    LateEventLeavesAccount(worlds[k], steps[k], u, stale, since);
  }

  lemma {:induction false} ReplacementStays(worlds: seq<World>, steps: seq<Step>, i: nat, j: nat, u: UserId, stale: Ref,
                                            since: Option<Time>)
    requires Run(worlds, steps) && Initial(worlds[0]) && Ordered(worlds, steps, u) && i <= j <= |steps|
    requires ReplacedBy(worlds[i].db, u, stale, since)
    requires OnlyLateEvents(EventTrace(worlds, steps), i, j, stale, since)
    ensures ReplacedBy(worlds[j].db, u, stale, since)
  {
    if i < j {
      ReplacementStays(worlds, steps, i, j - 1, u, stale, since);
      ReplacementStep(worlds, steps, j - 1, u, stale, since);
    }
  }

  /** Once subscription `stale` has been replaced, its cancellations and its older events never alter the account,
      whatever else happens in the run. */
  lemma LateEventsNeverAlterReplacement(worlds: seq<World>, steps: seq<Step>, i: nat, j: nat, u: UserId, stale: Ref)
    requires Run(worlds, steps) && Initial(worlds[0]) && Ordered(worlds, steps, u) && i <= j < |steps|
    requires ReplacedBy(worlds[i].db, u, stale, EventAt(worlds[i].db, u))
    requires OnlyLateEvents(EventTrace(worlds, steps), i, j + 1, stale, EventAt(worlds[i].db, u))
    requires About(EventOf(worlds[j], steps[j]), stale)
    ensures SubscriptionId(worlds[j].db, u).Some? && SubscriptionId(worlds[j].db, u) != Some(stale)
    ensures SameAccount(worlds[j].db, worlds[j + 1].db, u)
  {
    var since := EventAt(worlds[i].db, u);
    ReplacementStays(worlds, steps, i, j, u, stale, since);
    ReplacementStep(worlds, steps, j, u, stale, since);
  }
}
