/** Billing state and the transitions of the webhook engine (billing_service.py), as functions on a snapshot
    of the database. Class BillingService carries the same operations out step by step.

    Identifiers are numbers, times are seconds. A status or plan text is represented by what is left of it
    after trimming and lower-casing. */
module Billing {
  import opened Prelude

  type Time = int
  type UserId = nat
  type Ref = nat

  datatype Plan = Free | Pro | Team | Business
  datatype Status = Inactive | Active | PastDue | Canceled

  datatype StatusText = NoStatus | Word(status: Status) | OtherStatus
  datatype PlanText = NoPlan | Named(plan: Plan) | OtherPlan
  datatype PaymentStatus = Succeeded | Failed | Refunded
  datatype Kind = CheckoutCompleted | SubscriptionUpdated | PaymentNotice(payment: Option<PaymentStatus>) | UnknownKind

  /** An authenticated provider event. */
  datatype Event = Event(
    provider: Ref, eventId: Ref, kind: Kind, occurredAt: Time, plan: PlanText, status: StatusText,
    checkout: Option<Ref>, customer: Option<Ref>, subscription: Option<Ref>,
    periodStart: Option<Time>, periodEnd: Option<Time>, cancelAtPeriodEnd: bool,
    paymentId: Option<Ref>, amount: Option<int>, currency: Option<Ref>)

  datatype Subscription = Subscription(
    plan: Plan, status: Status, provider: Ref, customer: Option<Ref>, subscription: Option<Ref>,
    periodStart: Option<Time>, periodEnd: Option<Time>, cancelAtPeriodEnd: bool, eventAt: Option<Time>)

  datatype CheckoutStatus = Pending | Completed | Expired
  datatype Checkout = Checkout(owner: UserId, plan: PlanText, provider: Ref, status: CheckoutStatus,
                               expiresAt: Time, completedAt: Option<Time>)

  datatype LedgerStatus = Received | LedgerProcessed | LedgerIgnored | LedgerRejected | LedgerDeferred | LedgerFailed
  datatype LedgerRow = LedgerRow(status: LedgerStatus, receivedAt: Time, attempts: nat, account: Option<UserId>,
                                 processedAt: Option<Time>)

  datatype Payment = Payment(account: UserId, subscription: Option<Ref>, amount: Option<int>, currency: Option<Ref>,
                             status: PaymentStatus, occurredAt: Time)

  /** BILLING_GRACE_HOURS and BILLING_UNRESOLVED_RETRY_HOURS, in seconds. */
  datatype Settings = Settings(grace: nat, unresolvedRetry: nat)

  datatype Db = Db(
    settings: Settings,
    users: map<UserId, Plan>,
    subs: map<UserId, Subscription>,
    checkouts: map<Ref, Checkout>,
    ledger: map<(Ref, Ref), LedgerRow>,
    payments: map<(Ref, Option<Ref>), Payment>)

  const CLAIM_LEASE: int := 300

  datatype Outcome = Processed | Duplicate | Ignored | Stale | Rejected | Deferred
  datatype Detail = NoDetail | UnhandledType | ReferenceConflict | UnresolvedReference | PlanNotPurchasable
                  | InvalidStatus | OwnedByAnotherAccount | OtherSubscription | OlderThanApplied | LinkedOnly
                  | NoCheckoutReference
  datatype Result = Result(outcome: Outcome, detail: Detail, account: Option<UserId>)

  // ---------------------------------------------------------------- entitlement

  /** The plan a subscription entitles at `now`. */
  function EntitledPlan(plan: Plan, status: Status, periodEnd: Option<Time>, now: Time, grace: nat): Plan {
    if status != Active && status != PastDue then Free
    else if periodEnd.None? then (if status == Active then plan else Free)
    else if now > periodEnd.value + grace then Free
    else plan
  }

  function Entitlement(db: Db, u: UserId, now: Time): Plan {
    if u !in db.subs then Free
    else EntitledPlan(db.subs[u].plan, db.subs[u].status, db.subs[u].periodEnd, now, db.settings.grace)
  }

  function StatusRank(s: Status): nat {
    match s
    case Inactive => 0
    case Active => 1
    case PastDue => 2
    case Canceled => 3
  }

  function ValidateStatus(text: StatusText): Option<Status> {
    match text
    case NoStatus => Some(Inactive)
    case Word(s) => Some(s)
    case OtherStatus => None
  }

  /** The status of an event that names a known one. */
  function StatusOf(e: Event): Status {
    ValidateStatus(e.status).Or(Some(Inactive)).value
  }

  // ---------------------------------------------------------------- database constraints

  ghost predicate Holds(db: Db, u: UserId, id: Ref) {
    u in db.subs && db.subs[u].subscription == Some(id)
  }

  /** UNIQUE(provider_subscription_id). */
  ghost predicate UniqueSubscriptionIds(db: Db) {
    forall u, v, id :: Holds(db, u, id) && Holds(db, v, id) ==> u == v
  }

  /** Foreign keys to the users table. */
  ghost predicate Referential(db: Db) {
    && db.subs.Keys <= db.users.Keys
    && forall r :: r in db.checkouts ==> db.checkouts[r].owner in db.users
  }

  ghost predicate Valid(db: Db) {
    UniqueSubscriptionIds(db) && Referential(db)
  }

  // ---------------------------------------------------------------- resolution

  ghost function OwnerOf(db: Db, id: Ref): (r: Option<UserId>)
    ensures r.Some? ==> Holds(db, r.value, id)
    ensures r.None? ==> forall u :: !Holds(db, u, id)
  {
    if u: UserId :| Holds(db, u, id) then Some(u) else None
  }

  function CustomerHolders(db: Db, provider: Ref, customer: Ref): set<UserId> {
    set u | u in db.subs && db.subs[u].provider == provider && db.subs[u].customer == Some(customer)
  }

  /** `pick` is the row the database happens to return first among those with the event's customer id. */
  ghost predicate ValidPick(db: Db, e: Event, pick: UserId) {
    e.customer.Some? && CustomerHolders(db, e.provider, e.customer.value) != {} ==>
      pick in CustomerHolders(db, e.provider, e.customer.value)
  }

  datatype Resolution = Conflict | Found(account: Option<UserId>, checkout: Option<Ref>)

  function KnownCheckout(db: Db, e: Event): Option<Ref> {
    if e.checkout.Some? && e.checkout.value in db.checkouts then e.checkout else None
  }

  ghost function HolderOf(db: Db, e: Event, pick: UserId): Option<UserId> {
    var owner := if e.subscription.Some? then OwnerOf(db, e.subscription.value) else None;
    if owner.Some? then owner
    else if e.customer.Some? && CustomerHolders(db, e.provider, e.customer.value) != {} then Some(pick)
    else None
  }

  ghost function Resolve(db: Db, e: Event, pick: UserId): Resolution {
    var checkout := KnownCheckout(db, e);
    var holder := HolderOf(db, e, pick);
    if checkout.None? then Found(holder, None)
    else
      var row := db.checkouts[checkout.value];
      if row.provider != e.provider then Conflict
      else if holder.Some? && holder.value != row.owner then Conflict
      else Found(Some(row.owner), checkout)
  }

  // ---------------------------------------------------------------- subscription events

  datatype Verdict = Apply(status: Status) | Refuse(outcome: Outcome, detail: Detail)

  function EffectivePlan(db: Db, e: Event, checkout: Option<Ref>): PlanText
    requires checkout.Some? ==> checkout.value in db.checkouts
  {
    if e.plan.NoPlan? && checkout.Some? then db.checkouts[checkout.value].plan else e.plan
  }

  ghost predicate OwnedByAnother(db: Db, e: Event, u: UserId) {
    e.subscription.Some? && exists v :: v != u && Holds(db, v, e.subscription.value)
  }

  /** Does an event that passed the identity checks change the row `current`? */
  function OrderVerdict(current: Option<Subscription>, e: Event, status: Status): Verdict {
    if current.None? then Apply(status)
    else
      var last := current.value.eventAt;
      if current.value.subscription.Some? && e.subscription.Some? && current.value.subscription != e.subscription then
        if status == Active && (last.None? || e.occurredAt > last.value) then Apply(status)
        else Refuse(Ignored, OtherSubscription)
      else if last.Some? && e.occurredAt < last.value then Refuse(Stale, OlderThanApplied)
      else if last.Some? && e.occurredAt == last.value && StatusRank(status) < StatusRank(current.value.status) then
        Refuse(Stale, OlderThanApplied)
      else Apply(status)
  }

  function SubOf(db: Db, u: UserId): Option<Subscription> {
    if u in db.subs then Some(db.subs[u]) else None
  }

  ghost function Decide(db: Db, e: Event, u: UserId, checkout: Option<Ref>): Verdict
    requires checkout.Some? ==> checkout.value in db.checkouts
  {
    if EffectivePlan(db, e, checkout) != Named(Pro) then Refuse(Rejected, PlanNotPurchasable)
    else
      var status := ValidateStatus(e.status);
      if status.None? then Refuse(Rejected, InvalidStatus)
      else if OwnedByAnother(db, e, u) then Refuse(Rejected, OwnedByAnotherAccount)
      else OrderVerdict(SubOf(db, u), e, status.value)
  }

  const BLANK := Subscription(Free, Inactive, 0, None, None, None, None, false, None)

  /** The row after a verified event: absent optional fields leave the stored value untouched. */
  function Overwrite(current: Option<Subscription>, e: Event, status: Status): Subscription {
    var base := if current.Some? then current.value else BLANK;
    Subscription(Pro, status, e.provider, e.customer.Or(base.customer), e.subscription.Or(base.subscription),
                 e.periodStart.Or(base.periodStart), e.periodEnd.Or(base.periodEnd), e.cancelAtPeriodEnd,
                 Some(e.occurredAt))
  }

  function ApplyVerified(db: Db, u: UserId, e: Event, status: Status, now: Time): Db {
    var row := Overwrite(SubOf(db, u), e, status);
    db.(subs := db.subs[u := row],
        users := db.users[u := EntitledPlan(Pro, status, row.periodEnd, now, db.settings.grace)])
  }

  function CompleteCheckout(db: Db, checkout: Option<Ref>, now: Time): Db
    requires checkout.Some? ==> checkout.value in db.checkouts
  {
    if checkout.Some? && db.checkouts[checkout.value].status == Pending then
      db.(checkouts := db.checkouts[checkout.value :=
            db.checkouts[checkout.value].(status := Completed, completedAt := Some(now))])
    else db
  }

  ghost function ApplySubscriptionEvent(db: Db, e: Event, u: UserId, checkout: Option<Ref>, now: Time): (Db, Result)
    requires checkout.Some? ==> checkout.value in db.checkouts
  {
    match Decide(db, e, u, checkout)
    case Refuse(outcome, detail) => (db, Result(outcome, detail, Some(u)))
    case Apply(status) =>
      var db1 := ApplyVerified(db, u, e, status, now);
      (if status == Active then CompleteCheckout(db1, checkout, now) else db1, Result(Processed, NoDetail, Some(u)))
  }

  // ---------------------------------------------------------------- linking, payments, dispatch

  ghost function LinkCheckout(db: Db, e: Event, u: UserId, checkout: Ref, now: Time): (Db, Result)
    requires checkout in db.checkouts
  {
    if OwnedByAnother(db, e, u) then (db, Result(Rejected, OwnedByAnotherAccount, Some(u)))
    else
      var row := if u in db.subs then db.subs[u] else BLANK.(provider := e.provider);
      var linked := row.(customer := row.customer.Or(e.customer), subscription := row.subscription.Or(e.subscription));
      (CompleteCheckout(db.(subs := db.subs[u := linked]), Some(checkout), now), Result(Processed, LinkedOnly, Some(u)))
  }

  function ApplyPayment(db: Db, e: Event, u: UserId, status: PaymentStatus): (Db, Result) {
    var key := (e.provider, e.paymentId);
    if key !in db.payments then
      (db.(payments := db.payments[key := Payment(u, e.subscription, e.amount, e.currency, status, e.occurredAt)]),
       Result(Processed, NoDetail, Some(u)))
    else
      var p := db.payments[key];
      if p.occurredAt > e.occurredAt || (p.status == Refunded && status != Refunded) then
        (db, Result(Stale, OlderThanApplied, Some(u)))
      else
        (db.(payments := db.payments[key :=
               p.(status := status, occurredAt := e.occurredAt, amount := e.amount.Or(p.amount),
                  currency := e.currency.Or(p.currency))]),
         Result(Processed, NoDetail, Some(u)))
  }

  function Unresolved(db: Db, e: Event, now: Time): Result {
    Result(if now - e.occurredAt < db.settings.unresolvedRetry then Deferred else Ignored, UnresolvedReference, None)
  }

  /** An event that speaks about the state of a subscription. */
  predicate AboutSubscription(e: Event) {
    e.kind == SubscriptionUpdated || (e.kind == CheckoutCompleted && !e.status.NoStatus?)
  }

  ghost function Dispatch(db: Db, e: Event, now: Time, pick: UserId): (Db, Result) {
    if e.kind == UnknownKind then (db, Result(Ignored, UnhandledType, None))
    else
      match Resolve(db, e, pick)
      case Conflict => (db, Result(Rejected, ReferenceConflict, None))
      case Found(account, checkout) =>
        if account.None? then (db, Unresolved(db, e, now))
        else if AboutSubscription(e) then
          ApplySubscriptionEvent(db, e, account.value, checkout, now)
        else if e.kind == CheckoutCompleted then
          (if checkout.None? then (db, Result(Ignored, NoCheckoutReference, account))
           else LinkCheckout(db, e, account.value, checkout.value, now))
        else if e.kind.payment.Some? then ApplyPayment(db, e, account.value, e.kind.payment.value)
        else (db, Result(Ignored, UnhandledType, account))
  }

  // ---------------------------------------------------------------- ledger

  function EventKey(e: Event): (Ref, Ref) {
    (e.provider, e.eventId)
  }

  predicate Claimable(db: Db, e: Event, now: Time) {
    EventKey(e) !in db.ledger ||
    var row := db.ledger[EventKey(e)];
    row.status in {LedgerFailed, LedgerDeferred} || (row.status == Received && row.receivedAt < now - CLAIM_LEASE)
  }

  /** The committed claim; it changes nothing when the event is handled or being handled. */
  function Claim(db: Db, e: Event, now: Time): Db {
    if !Claimable(db, e, now) then db
    else if EventKey(e) !in db.ledger then
      db.(ledger := db.ledger[EventKey(e) := LedgerRow(Received, now, 1, None, None)])
    else
      var row := db.ledger[EventKey(e)];
      db.(ledger := db.ledger[EventKey(e) := row.(status := Received, receivedAt := now, attempts := row.attempts + 1)])
  }

  function LedgerStatusOf(outcome: Outcome): LedgerStatus {
    match outcome
    case Processed => LedgerProcessed
    case Rejected => LedgerRejected
    case Deferred => LedgerDeferred
    case _ => LedgerIgnored
  }

  function Record(db: Db, e: Event, result: Result, now: Time): Db
    requires EventKey(e) in db.ledger
  {
    db.(ledger := db.ledger[EventKey(e) := db.ledger[EventKey(e)].(
          status := LedgerStatusOf(result.outcome), account := result.account,
          processedAt := if result.outcome == Deferred then None else Some(now))])
  }

  /** The second transaction of processing an event: dispatch, then write the ledger row. */
  ghost function Finish(db: Db, e: Event, now: Time, pick: UserId): (Db, Result)
    requires EventKey(e) in db.ledger
  {
    var (db1, result) := Dispatch(db, e, now, pick);
    (Record(db1.(ledger := db.ledger), e, result, now), result)
  }

  function MarkFailed(db: Db, e: Event): Db {
    if EventKey(e) !in db.ledger then db
    else db.(ledger := db.ledger[EventKey(e) := db.ledger[EventKey(e)].(status := LedgerFailed)])
  }

  /** One uninterrupted delivery of an event. */
  ghost function Process(db: Db, e: Event, now: Time, pick: UserId): (Db, Result) {
    if !Claimable(db, e, now) then (db, Result(Duplicate, NoDetail, None))
    else Finish(Claim(db, e, now), e, now, pick)
  }

  // ---------------------------------------------------------------- a decision and its write, apart

  /** What a worker holds from its decision on an event until the write: the row it decided on, and the pending
      checkout that the write completes. */
  datatype Check = Check(event: Event, now: Time, account: UserId, seen: Option<Subscription>, completes: Option<Ref>)

  /** The decision to apply a subscription event; none if the event is refused or of another kind. */
  ghost function CheckEvent(db: Db, e: Event, now: Time, pick: UserId): Option<Check> {
    if !AboutSubscription(e) then None
    else
      match Resolve(db, e, pick)
      case Conflict => None
      case Found(account, checkout) =>
        if account.None? || Decide(db, e, account.value, checkout).Refuse? then None
        else
          var pending := checkout.Some? && db.checkouts[checkout.value].status == Pending;
          Some(Check(e, now, account.value, SubOf(db, account.value),
                     if pending && StatusOf(e) == Active then checkout else None))
  }

  /** A column is written only if its new value is not the one that was read. */
  function Column<T(==)>(found: T, seen: T, own: T): T {
    if own == seen then found else own
  }

  function MergeRow(found: Subscription, seen: Subscription, own: Subscription): Subscription {
    Subscription(
      Column(found.plan, seen.plan, own.plan), Column(found.status, seen.status, own.status),
      Column(found.provider, seen.provider, own.provider), Column(found.customer, seen.customer, own.customer),
      Column(found.subscription, seen.subscription, own.subscription),
      Column(found.periodStart, seen.periodStart, own.periodStart),
      Column(found.periodEnd, seen.periodEnd, own.periodEnd),
      Column(found.cancelAtPeriodEnd, seen.cancelAtPeriodEnd, own.cancelAtPeriodEnd),
      Column(found.eventAt, seen.eventAt, own.eventAt))
  }

  /** The row as the worker has it: a row it has seen is not read again under the lock, a row it has not seen is. */
  function OwnRow(found: Option<Subscription>, check: Check): Subscription {
    Overwrite(check.seen.Or(found), check.event, StatusOf(check.event))
  }

  function WrittenRow(found: Option<Subscription>, check: Check): Subscription
    requires check.seen.Some? ==> found.Some?
  {
    if check.seen.None? then OwnRow(found, check)
    else MergeRow(found.value, check.seen.value, OwnRow(found, check))
  }

  /** The rows to be updated exist, and the constraint on subscription ids is kept. */
  ghost predicate Writable(db: Db, check: Check) {
    && EventKey(check.event) in db.ledger
    && check.account in db.users
    && (check.seen.Some? ==> check.account in db.subs)
    && (check.completes.Some? ==> check.completes.value in db.checkouts)
    && var id := WrittenRow(SubOf(db, check.account), check).subscription;
       id.Some? ==> forall v :: Holds(db, v, id.value) ==> v == check.account
  }

  ghost function WriteChecked(db: Db, check: Check): Db
    requires Writable(db, check)
  {
    var u, found, ref := check.account, SubOf(db, check.account), check.completes;
    var plan := EntitledPlan(Pro, StatusOf(check.event), OwnRow(found, check).periodEnd, check.now, db.settings.grace);
    var db1 := db.(subs := db.subs[u := WrittenRow(found, check)], users := db.users[u := plan]);
    var db2 := if ref.None? then db1
               else db1.(checkouts := db.checkouts[ref.value :=
                           db.checkouts[ref.value].(status := Completed, completedAt := Some(check.now))]);
    Record(db2, check.event, Result(Processed, NoDetail, Some(u)), check.now)
  }

  // ---------------------------------------------------------------- reconciliation, checkout creation

  predicate Lapsed(db: Db, u: UserId, now: Time) {
    && u in db.subs
    && db.subs[u].status in {Active, PastDue}
    && db.subs[u].periodEnd.Some?
    && db.subs[u].periodEnd.value < now - db.settings.grace
  }

  function LapsedAccounts(db: Db, now: Time): set<UserId> {
    set u | u in db.subs && u in db.users && Lapsed(db, u, now)
  }

  /** The database with the accounts in `done` downgraded. */
  function Sweep(db: Db, done: set<UserId>): Db {
    db.(subs := map u | u in db.subs :: if u in done then db.subs[u].(status := Canceled) else db.subs[u],
        users := map u | u in db.users :: if u in done then Free else db.users[u])
  }

  function Reconcile(db: Db, now: Time): Db {
    Sweep(db, LapsedAccounts(db, now))
  }

  /** create_checkout: a new pending reference, and the provider's customer id if none was on file at the start. */
  function StartCheckout(db: Db, u: UserId, ref: Ref, provider: Ref, expiresAt: Time, customer: Option<Ref>): Db {
    var db1 := db.(checkouts := db.checkouts[ref := Checkout(u, Named(Pro), provider, Pending, expiresAt, None)]);
    if customer.None? then db1
    else
      var row := if u in db.subs then db.subs[u] else BLANK.(provider := provider);
      db1.(subs := db.subs[u := row.(customer := customer)])
  }
}
