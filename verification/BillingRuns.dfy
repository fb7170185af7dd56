/** The runs of the billing engine, in which workers may overlap, and what holds along them: account isolation, the
    database constraints, and the cached plan against the entitlement. */
module BillingRuns {
  import opened Prelude
  import opened Billing
  import opened BillingPromises

  type Worker = nat

  /** One committed transaction or, for a check, the reads before the lock. Workers may overlap between the decision on
      an event and its write, crash in between, or process one event twice. FinishStep is an event finished without
      such an overlap; a sweep writes to the rows it read as lapsed, whatever has happened to them since. */
  datatype Step =
    | ClaimStep(event: Event, now: Time)
    | FinishStep(event: Event, now: Time, pick: UserId)
    | CheckStep(worker: Worker, event: Event, now: Time, pick: UserId)
    | WriteStep(worker: Worker)
    | AbandonStep(worker: Worker)
    | FailStep(event: Event)
    | ReconcileStep(now: Time, lapsed: set<UserId>)
    | CheckoutStep(user: UserId, ref: Ref, provider: Ref, expiresAt: Time, customer: Option<Ref>)
    | SignUpStep(user: UserId)

  /** The database, the latest time any step has worked with, and what workers hold between check and write. */
  datatype World = World(db: Db, clock: Time, checks: map<Worker, Check>)

  ghost predicate Enabled(w: World, step: Step) {
    match step
    case FinishStep(e, _, pick) => EventKey(e) in w.db.ledger && ValidPick(w.db, e, pick)
    case CheckStep(worker, e, now, pick) =>
      worker !in w.checks && EventKey(e) in w.db.ledger && ValidPick(w.db, e, pick)
      && CheckEvent(w.db, e, now, pick).Some?
    case WriteStep(worker) => worker in w.checks && Writable(w.db, w.checks[worker])
    case ReconcileStep(_, lapsed) => lapsed <= w.db.subs.Keys
    case CheckoutStep(u, ref, _, _, _) => u in w.db.users && ref !in w.db.checkouts
    case SignUpStep(u) => u !in w.db.users
    case _ => true
  }

  ghost function Next(w: World, step: Step): World
    requires Enabled(w, step)
  {
    match step
    case ClaimStep(e, now) => w.(db := Claim(w.db, e, now))
    case FinishStep(e, now, pick) => w.(db := Finish(w.db, e, now, pick).0, clock := Max(w.clock, now))
    case CheckStep(worker, e, now, pick) => w.(checks := w.checks[worker := CheckEvent(w.db, e, now, pick).value])
    case WriteStep(worker) =>
      var check := w.checks[worker];
      World(WriteChecked(w.db, check), Max(w.clock, check.now), w.checks - {worker})
    case AbandonStep(worker) => w.(checks := w.checks - {worker})
    case FailStep(e) => w.(db := MarkFailed(w.db, e))
    case ReconcileStep(now, lapsed) => w.(db := Sweep(w.db, lapsed), clock := Max(w.clock, now))
    case CheckoutStep(u, ref, provider, expiresAt, customer) =>
      w.(db := StartCheckout(w.db, u, ref, provider, expiresAt, customer))
    case SignUpStep(u) => w.(db := w.db.(users := w.db.users[u := Free]))
  }

  ghost predicate Follows(w: World, step: Step, w': World) {
    Enabled(w, step) && w' == Next(w, step)
  }

  ghost predicate Run(worlds: seq<World>, steps: seq<Step>) {
    |worlds| == |steps| + 1 && forall i :: 0 <= i < |steps| ==> Follows(worlds[i], steps[i], worlds[i + 1])
  }

  /** An installation in which nobody has bought anything yet. */
  ghost predicate Initial(w: World) {
    && w.db.subs == map[] && w.db.checkouts == map[] && w.db.ledger == map[] && w.db.payments == map[]
    && (forall u :: u in w.db.users ==> w.db.users[u] == Free)
    && w.checks == map[]
  }

  // ---------------------------------------------------------------- what every step keeps

  ghost predicate PaidRow(db: Db, u: UserId) {
    && u in db.subs
    && db.subs[u].plan == Pro
    && (db.subs[u].status == Active || (db.subs[u].status == PastDue && db.subs[u].periodEnd.Some?))
  }

  ghost predicate CacheOk(db: Db, u: UserId, clock: Time) {
    && (u in db.subs ==> db.subs[u].plan in {Free, Pro})
    && (u in db.users ==>
         && db.users[u] in {Free, Pro}
         && (Entitlement(db, u, clock) == Pro ==> db.users[u] == Pro)
         && (db.users[u] == Pro ==> PaidRow(db, u)))
  }

  /** What stays true of a decision for as long as its worker holds it. */
  ghost predicate CheckOk(db: Db, check: Check) {
    && ValidateStatus(check.event.status).Some?
    && OrderVerdict(check.seen, check.event, StatusOf(check.event)).Apply?
    && check.account in db.users
    && (check.seen.Some? ==> check.account in db.subs)
    && (check.completes.Some? ==>
          check.completes.value in db.checkouts && db.checkouts[check.completes.value].owner == check.account)
  }

  ghost predicate Inv(w: World) {
    Valid(w.db) && forall k :: k in w.checks ==> CheckOk(w.db, w.checks[k])
  }

  /** Everything an event may change about account `v`, payments aside. */
  ghost predicate SameAccount(db: Db, db': Db, v: UserId) {
    && SubOf(db, v) == SubOf(db', v)
    && (v in db.users <==> v in db'.users)
    && (v in db.users ==> db.users[v] == db'.users[v])
    && forall r ::
         (r in db.checkouts && db.checkouts[r].owner == v) || (r in db'.checkouts && db'.checkouts[r].owner == v) ==>
           r in db.checkouts && r in db'.checkouts && db.checkouts[r] == db'.checkouts[r]
  }

  /** The account held the event's checkout reference, subscription id or customer id. */
  ghost predicate HeldReference(db: Db, e: Event, u: UserId) {
    || (e.checkout.Some? && e.checkout.value in db.checkouts && db.checkouts[e.checkout.value].owner == u
        && db.checkouts[e.checkout.value].provider == e.provider)
    || (e.subscription.Some? && Holds(db, u, e.subscription.value))
    || (e.customer.Some? && u in CustomerHolders(db, e.provider, e.customer.value))
  }

  lemma ResolvedAccountHeldReference(db: Db, e: Event, pick: UserId)
    requires Valid(db) && ValidPick(db, e, pick)
    ensures Resolve(db, e, pick).Found? && Resolve(db, e, pick).account.Some? ==>
              var u := Resolve(db, e, pick).account.value;
              && HeldReference(db, e, u) && u in db.users
              && (Resolve(db, e, pick).checkout.Some? ==>
                    && Resolve(db, e, pick).checkout.value in db.checkouts
                    && db.checkouts[Resolve(db, e, pick).checkout.value].owner == u)
  {
  }

  /** Nothing an account owns differs, payments aside. */
  predicate SameRows(db: Db, db': Db) {
    db'.settings == db.settings && db'.subs == db.subs && db'.users == db.users && db'.checkouts == db.checkouts
  }

  predicate CheckoutsDifferOnlyFor(db: Db, db': Db, u: UserId) {
    && db'.checkouts.Keys == db.checkouts.Keys
    && forall r :: r in db.checkouts ==>
         && db'.checkouts[r].owner == db.checkouts[r].owner
         && (db.checkouts[r].owner != u ==> db'.checkouts[r] == db.checkouts[r])
  }

  /** The change an event makes to account `u`: its subscription row becomes `row`, its cached plan `plan`. */
  predicate Writes(db: Db, db': Db, u: UserId, row: Subscription, plan: Plan) {
    && db'.settings == db.settings
    && db'.subs == db.subs[u := row]
    && db'.users == db.users[u := plan]
    && CheckoutsDifferOnlyFor(db, db', u)
  }

  /** `row` is the outcome of linking: only absent ids are filled in. */
  predicate LinkedRow(db: Db, e: Event, u: UserId, row: Subscription) {
    var base := if u in db.subs then db.subs[u] else BLANK.(provider := e.provider);
    row == base.(customer := base.customer.Or(e.customer), subscription := base.subscription.Or(e.subscription))
  }

  ghost predicate AppliedTo(db: Db, db': Db, e: Event, now: Time, u: UserId) {
    && ValidateStatus(e.status).Some?
    && var status := ValidateStatus(e.status).value;
    && OrderVerdict(SubOf(db, u), e, status).Apply?
    && Writes(db, db', u, Overwrite(SubOf(db, u), e, status),
              EntitledPlan(Pro, status, Overwrite(SubOf(db, u), e, status).periodEnd, now, db.settings.grace))
  }

  ghost predicate LinkedTo(db: Db, db': Db, e: Event, u: UserId) {
    && e.kind == CheckoutCompleted && e.status.NoStatus?
    && u in db.users
    && exists row :: LinkedRow(db, e, u, row) && Writes(db, db', u, row, db.users[u])
  }

  lemma ApplyShape(db: Db, e: Event, u: UserId, checkout: Option<Ref>, now: Time)
    requires u in db.users
    requires checkout.Some? ==> checkout.value in db.checkouts && db.checkouts[checkout.value].owner == u
    ensures var (db', result) := ApplySubscriptionEvent(db, e, u, checkout, now);
            && result.account == Some(u)
            && (SameRows(db, db') || (AppliedTo(db, db', e, now, u) && !OwnedByAnother(db, e, u)))
  {
  }

  lemma LinkShape(db: Db, e: Event, u: UserId, checkout: Ref, now: Time)
    requires u in db.users && checkout in db.checkouts && db.checkouts[checkout].owner == u
    requires e.kind == CheckoutCompleted && e.status.NoStatus?
    ensures var (db', result) := LinkCheckout(db, e, u, checkout, now);
            && result.account == Some(u)
            && (SameRows(db, db') || (LinkedTo(db, db', e, u) && !OwnedByAnother(db, e, u)))
  {
    if !OwnedByAnother(db, e, u) {
      var base := if u in db.subs then db.subs[u] else BLANK.(provider := e.provider);
      var row := base.(customer := base.customer.Or(e.customer), subscription := base.subscription.Or(e.subscription));
      assert LinkedRow(db, e, u, row);
      assert db.users == db.users[u := db.users[u]];
      assert Writes(db, LinkCheckout(db, e, u, checkout, now).0, u, row, db.users[u]);
    }
  }

  /** Every way an event can end: no account row differs, or it was applied or linked to the account it resolved to. */
  ghost predicate Shape(db: Db, db': Db, e: Event, now: Time, account: Option<UserId>) {
    && (account.Some? ==> account.value in db.users && HeldReference(db, e, account.value))
    && (SameRows(db, db') ||
        (account.Some? && !OwnedByAnother(db, e, account.value) &&
         (AppliedTo(db, db', e, now, account.value) || LinkedTo(db, db', e, account.value))))
  }

  lemma DispatchShape(db: Db, e: Event, now: Time, pick: UserId)
    requires Valid(db) && ValidPick(db, e, pick)
    ensures Shape(db, Dispatch(db, e, now, pick).0, e, now, Dispatch(db, e, now, pick).1.account)
  {
    ResolvedAccountHeldReference(db, e, pick);
    var resolution := Resolve(db, e, pick);
    if e.kind != UnknownKind && resolution.Found? && resolution.account.Some? {
      var u, checkout := resolution.account.value, resolution.checkout;
      if AboutSubscription(e) {
        ApplyShape(db, e, u, checkout, now);
      } else if e.kind == CheckoutCompleted && checkout.Some? {
        LinkShape(db, e, u, checkout.value, now);
      }
    }
  }

  lemma FinishShape(db: Db, e: Event, now: Time, pick: UserId)
    requires Valid(db) && ValidPick(db, e, pick) && EventKey(e) in db.ledger
    ensures Shape(db, Finish(db, e, now, pick).0, e, now, Finish(db, e, now, pick).1.account)
  {
    DispatchShape(db, e, now, pick);
    var (db1, result) := Dispatch(db, e, now, pick);
    if !SameRows(db, db1) && !AppliedTo(db, db1, e, now, result.account.value) {
      var u := result.account.value;
      var row :| LinkedRow(db, e, u, row) && Writes(db, db1, u, row, db.users[u]);
      assert Writes(db, Finish(db, e, now, pick).0, u, row, db.users[u]);
    }
  }

  lemma WritesKeepOthers(db: Db, db': Db, u: UserId, row: Subscription, plan: Plan, v: UserId)
    requires Writes(db, db', u, row, plan) && u != v
    ensures SameAccount(db, db', v)
  {
  }

  /** Account isolation: finishing an event touches at most the account it was resolved to, and that account
      already held one of the event's references. */
  lemma Isolation(db: Db, e: Event, now: Time, pick: UserId, v: UserId)
    requires Valid(db) && ValidPick(db, e, pick) && EventKey(e) in db.ledger
    ensures var (db', result) := Finish(db, e, now, pick);
            && (result.account != Some(v) ==> SameAccount(db, db', v))
            && (result.account == Some(v) ==> HeldReference(db, e, v))
  {
    FinishShape(db, e, now, pick);
    var (db', result) := Finish(db, e, now, pick);
    if !SameRows(db, db') && result.account != Some(v) {
      var u := result.account.value;
      if AppliedTo(db, db', e, now, u) {
        WritesKeepOthers(db, db', u, db'.subs[u], db'.users[u], v);
      } else {
        var row :| LinkedRow(db, e, u, row) && Writes(db, db', u, row, db.users[u]);
        WritesKeepOthers(db, db', u, row, db.users[u], v);
      }
    }
  }

  /** A write to an account keeps the database constraints if the id it stores is not held elsewhere. */
  lemma WritesKeepValid(db: Db, db': Db, u: UserId, row: Subscription, plan: Plan)
    requires Valid(db) && Writes(db, db', u, row, plan) && u in db.users
    requires row.subscription.Some? ==> forall v :: Holds(db, v, row.subscription.value) ==> v == u
    ensures Valid(db')
  {
    forall a, b, id | Holds(db', a, id) && Holds(db', b, id)
      ensures a == b
    {
      assert a == u || Holds(db, a, id);
      assert b == u || Holds(db, b, id);
    }
  }

  lemma FinishKeepsValid(db: Db, e: Event, now: Time, pick: UserId)
    requires Valid(db) && ValidPick(db, e, pick) && EventKey(e) in db.ledger
    ensures Valid(Finish(db, e, now, pick).0)
  {
    FinishShape(db, e, now, pick);
    var (db', result) := Finish(db, e, now, pick);
    if SameRows(db, db') {
      assert forall u, id :: Holds(db', u, id) ==> Holds(db, u, id);
    } else {
      var u := result.account.value;
      var row := db'.subs[u];
      if row.subscription.Some? {
        forall v | Holds(db, v, row.subscription.value)
          ensures v == u
        {
          assert u in db.subs && db.subs[u].subscription == row.subscription ==> Holds(db, u, row.subscription.value);
          assert e.subscription == row.subscription || Holds(db, u, row.subscription.value);
        }
      }
      WritesKeepValid(db, db', u, row, db'.users[u]);
    }
  }

  lemma EntitlementShrinks(db: Db, u: UserId, early: Time, late: Time)
    requires early <= late && Entitlement(db, u, late) != Free
    ensures Entitlement(db, u, early) == Entitlement(db, u, late)
  {
  }

  // ---------------------------------------------------------------- check and write

  /** A decision is for an account that held a reference of the event, and it is what the invariant says of it. */
  lemma CheckedAccount(db: Db, e: Event, now: Time, pick: UserId)
    requires Valid(db) && ValidPick(db, e, pick) && CheckEvent(db, e, now, pick).Some?
    ensures var check := CheckEvent(db, e, now, pick).value; HeldReference(db, e, check.account) && CheckOk(db, check)
  {
    ResolvedAccountHeldReference(db, e, pick);
  }

  /** Nobody wrote to the row since the decision: the worker's row is the one it would have read under the lock. */
  lemma UnracedRow(row: Subscription, check: Check)
    requires check.seen == Some(row)
    ensures WrittenRow(Some(row), check) == OwnRow(Some(row), check)
    ensures OwnRow(Some(row), check) == Overwrite(Some(row), check.event, StatusOf(check.event))
  {
  }

  lemma UnracedWrite(db: Db, check: Check)
    requires Writable(db, check) && CheckOk(db, check) && SubOf(db, check.account) == check.seen
    ensures AppliedTo(db, WriteChecked(db, check), check.event, check.now, check.account)
  {
    if check.seen.Some? {
      UnracedRow(check.seen.value, check);
    }
  }

  /** Checking and then writing with nothing in between is finishing the event. */
  lemma CheckThenWriteIsFinish(db: Db, e: Event, now: Time, pick: UserId)
    requires Valid(db) && ValidPick(db, e, pick) && EventKey(e) in db.ledger && CheckEvent(db, e, now, pick).Some?
    ensures var check := CheckEvent(db, e, now, pick).value;
            Writable(db, check) && WriteChecked(db, check) == Finish(db, e, now, pick).0
  {
    CheckedAccount(db, e, now, pick);
    var check := CheckEvent(db, e, now, pick).value;
    if check.seen.Some? {
      UnracedRow(check.seen.value, check);
    }
    var id := WrittenRow(SubOf(db, check.account), check).subscription;
    if id.Some? {
      forall v | Holds(db, v, id.value)
        ensures v == check.account
      {
        assert id == e.subscription || Holds(db, check.account, id.value);
      }
    }
  }

  lemma WriteKeepsValid(db: Db, check: Check)
    requires Valid(db) && CheckOk(db, check) && Writable(db, check)
    ensures Valid(WriteChecked(db, check))
  {
    var db', u := WriteChecked(db, check), check.account;
    WritesKeepValid(db, db', u, db'.subs[u], db'.users[u]);
  }

  lemma StepKeepsValid(w: World, step: Step)
    requires Inv(w) && Enabled(w, step)
    ensures Valid(Next(w, step).db)
  {
    match step {
      case FinishStep(e, now, pick) => FinishKeepsValid(w.db, e, now, pick);
      case WriteStep(worker) => WriteKeepsValid(w.db, w.checks[worker]);
      case _ => assert forall u, id :: Holds(Next(w, step).db, u, id) ==> Holds(w.db, u, id);
    }
  }

  /** Users, subscription rows and checkouts are never deleted. */
  ghost predicate Grows(db: Db, db': Db) {
    && db.users.Keys <= db'.users.Keys
    && db.subs.Keys <= db'.subs.Keys
    && (forall r :: r in db.checkouts ==> r in db'.checkouts && db'.checkouts[r].owner == db.checkouts[r].owner)
  }

  lemma FinishGrows(db: Db, e: Event, now: Time, pick: UserId)
    requires Valid(db) && ValidPick(db, e, pick) && EventKey(e) in db.ledger
    ensures Grows(db, Finish(db, e, now, pick).0)
  {
    FinishShape(db, e, now, pick);
  }

  lemma StepGrows(w: World, step: Step)
    requires Inv(w) && Enabled(w, step)
    ensures Grows(w.db, Next(w, step).db)
  {
    if step.FinishStep? {
      FinishGrows(w.db, step.event, step.now, step.pick);
    }
  }

  /** Every step keeps the database constraints, and every decision stays one that can be written. */
  lemma StepKeepsInv(w: World, step: Step)
    requires Inv(w) && Enabled(w, step)
    ensures Inv(Next(w, step))
  {
    StepKeepsValid(w, step);
    StepGrows(w, step);
    if step.CheckStep? {
      CheckedAccount(w.db, step.event, step.now, step.pick);
    }
  }

  lemma {:induction false} ReachableInv(worlds: seq<World>, steps: seq<Step>, i: nat)
    requires Run(worlds, steps) && Initial(worlds[0]) && i < |worlds|
    ensures Inv(worlds[i])
  {
    if i > 0 {
      ReachableInv(worlds, steps, i - 1);
      assert Follows(worlds[i - 1], steps[i - 1], worlds[i - 1 + 1]);
      StepKeepsInv(worlds[i - 1], steps[i - 1]);
    }
  }

  // ---------------------------------------------------------------- the cached plan

  /** If the step writes a checked event to the account, it finds the row on which the event was decided. */
  predicate Unraced(w: World, step: Step, u: UserId) {
    step.WriteStep? && step.worker in w.checks && w.checks[step.worker].account == u ==>
      SubOf(w.db, u) == w.checks[step.worker].seen
  }

  /** No other write to the account's row falls between the decision on an event and its write. */
  predicate UnracedRun(worlds: seq<World>, steps: seq<Step>, u: UserId) {
    |worlds| == |steps| + 1 && forall k :: 0 <= k < |steps| ==> Unraced(worlds[k], steps[k], u)
  }

  lemma AppliedKeepsCache(db: Db, db': Db, e: Event, now: Time, u: UserId, clock: Time, v: UserId)
    requires AppliedTo(db, db', e, now, u) && CacheOk(db, v, clock)
    ensures CacheOk(db', v, Max(clock, now))
  {
    if v != u && v in db.users && Entitlement(db, v, Max(clock, now)) != Free {
      EntitlementShrinks(db, v, clock, Max(clock, now));
    }
  }

  lemma LinkedKeepsCache(db: Db, db': Db, e: Event, u: UserId, clock: Time, v: UserId)
    requires LinkedTo(db, db', e, u) && CacheOk(db, v, clock)
    ensures CacheOk(db', v, clock)
  {
  }

  lemma LaterKeepsCache(db: Db, v: UserId, early: Time, late: Time)
    requires CacheOk(db, v, early) && early <= late
    ensures CacheOk(db, v, late)
  {
    if Entitlement(db, v, late) != Free {
      EntitlementShrinks(db, v, early, late);
    }
  }

  lemma FinishKeepsCache(w: World, e: Event, now: Time, pick: UserId, v: UserId)
    requires Inv(w) && CacheOk(w.db, v, w.clock) && Enabled(w, FinishStep(e, now, pick))
    ensures CacheOk(Finish(w.db, e, now, pick).0, v, Max(w.clock, now))
  {
    FinishShape(w.db, e, now, pick);
    var (db', result) := Finish(w.db, e, now, pick);
    LaterKeepsCache(w.db, v, w.clock, Max(w.clock, now));
    if !SameRows(w.db, db') {
      if AppliedTo(w.db, db', e, now, result.account.value) {
        AppliedKeepsCache(w.db, db', e, now, result.account.value, w.clock, v);
      } else {
        LinkedKeepsCache(w.db, db', e, result.account.value, Max(w.clock, now), v);
      }
    }
  }

  lemma WriteKeepsCache(w: World, worker: Worker, v: UserId)
    requires Inv(w) && CacheOk(w.db, v, w.clock) && Enabled(w, WriteStep(worker)) && Unraced(w, WriteStep(worker), v)
    ensures CacheOk(Next(w, WriteStep(worker)).db, v, Next(w, WriteStep(worker)).clock)
  {
    var check := w.checks[worker];
    LaterKeepsCache(w.db, v, w.clock, Max(w.clock, check.now));
    if check.account == v {
      UnracedWrite(w.db, check);
      AppliedKeepsCache(w.db, WriteChecked(w.db, check), check.event, check.now, v, w.clock, v);
    }
  }

  lemma StepKeepsCache(w: World, step: Step, u: UserId)
    requires Inv(w) && CacheOk(w.db, u, w.clock) && Enabled(w, step) && Unraced(w, step, u)
    ensures CacheOk(Next(w, step).db, u, Next(w, step).clock)
  {
    match step {
      case FinishStep(e, now, pick) => FinishKeepsCache(w, e, now, pick, u);
      case WriteStep(worker) => WriteKeepsCache(w, worker, u);
      case _ =>
    }
  }

  lemma CacheHoldsNext(worlds: seq<World>, steps: seq<Step>, k: nat, u: UserId)
    requires Run(worlds, steps) && Initial(worlds[0]) && UnracedRun(worlds, steps, u) && k < |steps|
    requires CacheOk(worlds[k].db, u, worlds[k].clock)
    ensures CacheOk(worlds[k + 1].db, u, worlds[k + 1].clock)
  {
    ReachableInv(worlds, steps, k);
    assert Follows(worlds[k], steps[k], worlds[k + 1]) && Unraced(worlds[k], steps[k], u);
    StepKeepsCache(worlds[k], steps[k], u);
  }

  lemma {:induction false} CacheHolds(worlds: seq<World>, steps: seq<Step>, i: nat, u: UserId)
    requires Run(worlds, steps) && Initial(worlds[0]) && UnracedRun(worlds, steps, u) && i < |worlds|
    ensures CacheOk(worlds[i].db, u, worlds[i].clock)
  {
    if i > 0 {
      CacheHolds(worlds, steps, i - 1, u);
      CacheHoldsNext(worlds, steps, i - 1, u);
    }
  }

  /** The cached plan never falls behind the entitlement and is only ever paid for by a live paid row. */
  lemma CachedPlanFollowsEntitlement(worlds: seq<World>, steps: seq<Step>, i: nat, u: UserId, t: Time)
    requires Run(worlds, steps) && Initial(worlds[0]) && UnracedRun(worlds, steps, u) && i < |worlds|
    requires u in worlds[i].db.users && t >= worlds[i].clock
    ensures Entitlement(worlds[i].db, u, t) == Pro ==> worlds[i].db.users[u] == Pro
    ensures worlds[i].db.users[u] != Free ==> worlds[i].db.users[u] == Pro && PaidRow(worlds[i].db, u)
  {
    CacheHolds(worlds, steps, i, u);
    if Entitlement(worlds[i].db, u, t) == Pro {
      EntitlementShrinks(worlds[i].db, u, worlds[i].clock, t);
    }
  }

  /** No two accounts ever share a provider subscription id, however workers overlap. */
  lemma SubscriptionIdsAreUnique(worlds: seq<World>, steps: seq<Step>, i: nat)
    requires Run(worlds, steps) && Initial(worlds[0]) && i < |worlds|
    ensures UniqueSubscriptionIds(worlds[i].db) && Referential(worlds[i].db)
  {
    ReachableInv(worlds, steps, i);
  }

  /** Under any overlap, a write leaves a paid plan on a row that is closed exactly if it computes a paid plan from a
      status that is the one it had seen, and so is not written, while the row has been closed since. */
  lemma PaidPlanOnClosedRowExactly(w: World, worker: Worker)
    requires Inv(w) && Enabled(w, WriteStep(worker))
    ensures var (check, db') := (w.checks[worker], Next(w, WriteStep(worker)).db);
            var (u, found, status) := (check.account, SubOf(w.db, check.account), StatusOf(check.event));
            && u in db'.users && u in db'.subs
            && (db'.users[u] == Pro && db'.subs[u].status in {Inactive, Canceled} <==>
                  && EntitledPlan(Pro, status, OwnRow(found, check).periodEnd, check.now, w.db.settings.grace) == Pro
                  && check.seen.Some? && check.seen.value.status == status
                  && found.value.status in {Inactive, Canceled})
  {
  }

  /** Right after a sweep at `now` that found what is lapsed then, the cached plan is the entitlement, for every
      account: pro exactly for a pro row that is paid at `now`. */
  lemma ReconciledPlanIsEntitlement(worlds: seq<World>, steps: seq<Step>, i: nat, u: UserId)
    requires Run(worlds, steps) && Initial(worlds[0]) && UnracedRun(worlds, steps, u) && i < |steps|
    requires steps[i].ReconcileStep? && steps[i].now >= worlds[i].clock && u in worlds[i].db.users
    requires steps[i].lapsed == LapsedAccounts(worlds[i].db, steps[i].now)
    ensures u in worlds[i + 1].db.users
    ensures var (db, now) := (worlds[i + 1].db, steps[i].now);
            && db.users[u] == Entitlement(db, u, now)
            && (db.users[u] == Pro <==>
                  u in db.subs && db.subs[u].plan == Pro && PaidAt(db.subs[u], now, db.settings.grace))
  {
    CacheHolds(worlds, steps, i, u);
    CacheHolds(worlds, steps, i + 1, u);
    assert Follows(worlds[i], steps[i], worlds[i + 1]);
  }
}
