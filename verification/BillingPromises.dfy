/** What billing_service.py promises of each operation, in the columns of the rows it reads and writes. The predicates
    are about two snapshots and a result; the lemmas show that the transition functions keep them. */
module BillingPromises {
  import opened Prelude
  import opened Billing

  // ---------------------------------------------------------------- statuses and plans

  /** Status `a` leaves the account at most what status `b` does. */
  predicate AsRestrictive(a: Status, b: Status) {
    a == b || b == Inactive || (b == Active && a != Inactive) || a == Canceled
  }

  lemma RankIsRestriction(a: Status, b: Status)
    ensures StatusRank(a) >= StatusRank(b) <==> AsRestrictive(a, b)
  {
  }

  /** Active rows are paid up to the end of their period and the grace after it, or without limit if no end is known;
      past-due rows only if an end is known; no other row is paid. */
  predicate PaidAt(row: Subscription, now: Time, grace: nat) {
    match row.status
    case Active => row.periodEnd.None? || now - grace <= row.periodEnd.value
    case PastDue => row.periodEnd.Some? && now - grace <= row.periodEnd.value
    case _ => false
  }

  lemma EntitledIsPaid(row: Subscription, now: Time, grace: nat)
    ensures EntitledPlan(row.plan, row.status, row.periodEnd, now, grace)
         == if PaidAt(row, now, grace) then row.plan else Free
  {
  }

  // ---------------------------------------------------------------- resolution

  /** Account `v` has the event's subscription id on file; at most one account has. */
  predicate HasSubscription(db: Db, e: Event, v: UserId) {
    e.subscription.Some? && v in db.subs && db.subs[v].subscription == e.subscription
  }

  predicate HasCustomer(db: Db, e: Event, v: UserId) {
    e.customer.Some? && v in db.subs && db.subs[v].provider == e.provider && db.subs[v].customer == e.customer
  }

  /** The account that the stored ids name: the one with the subscription id, or failing that one with the customer
      id. */
  ghost predicate NamedBy(db: Db, e: Event, account: Option<UserId>) {
    if exists v :: HasSubscription(db, e, v) then account.Some? && HasSubscription(db, e, account.value)
    else if exists v :: HasCustomer(db, e, v) then account.Some? && HasCustomer(db, e, account.value)
    else account.None?
  }

  /** A known checkout of another provider, or of another account than the one named, is a conflict; otherwise its owner
      is the account, or without a known checkout the one named, if any. */
  predicate Resolves(db: Db, e: Event, named: Option<UserId>, r: Resolution) {
    if e.checkout.Some? && e.checkout.value in db.checkouts then
      var row := db.checkouts[e.checkout.value];
      if row.provider == e.provider && (named.None? || named == Some(row.owner)) then
        r == Found(Some(row.owner), e.checkout)
      else r == Conflict
    else r == Found(named, None)
  }

  lemma ResolutionIsKept(db: Db, e: Event, pick: UserId)
    requires Valid(db) && ValidPick(db, e, pick)
    ensures NamedBy(db, e, HolderOf(db, e, pick)) && Resolves(db, e, HolderOf(db, e, pick), Resolve(db, e, pick))
  {
    assert forall v :: HasSubscription(db, e, v) ==> Holds(db, v, e.subscription.value);
    if e.subscription.Some? {
      assert forall v :: Holds(db, v, e.subscription.value) ==> HasSubscription(db, e, v);
    }
    if e.customer.Some? {
      assert forall v :: HasCustomer(db, e, v) <==> v in CustomerHolders(db, e.provider, e.customer.value);
    }
  }

  // ---------------------------------------------------------------- subscription events

  predicate OtherIds(row: Subscription, e: Event) {
    row.subscription.Some? && e.subscription.Some? && row.subscription != e.subscription
  }

  predicate OlderThan(row: Subscription, t: Time) {
    row.eventAt.None? || row.eventAt.value < t
  }

  /** An account without a row takes any event; another subscription replaces the one on file only if it is active and
      newer; otherwise an event applies if it is newer, or as old and at least as restrictive. */
  predicate Due(row: Option<Subscription>, e: Event, status: Status) {
    || row.None?
    || if OtherIds(row.value, e) then status == Active && OlderThan(row.value, e.occurredAt)
       else || OlderThan(row.value, e.occurredAt)
            || (row.value.eventAt == Some(e.occurredAt) && AsRestrictive(status, row.value.status))
  }

  /** What is given replaces what is stored. */
  predicate Taken<T(==)>(given: Option<T>, stored: Option<T>, now: Option<T>) {
    now == if given.Some? then given else stored
  }

  /** The row holds the event; what the event leaves open is as it was, or absent. */
  predicate HoldsEvent(before: Option<Subscription>, e: Event, status: Status, row: Subscription) {
    && row.plan == Pro && row.status == status && row.provider == e.provider
    && row.cancelAtPeriodEnd == e.cancelAtPeriodEnd && row.eventAt == Some(e.occurredAt)
    && var stored := if before.Some? then before.value else BLANK;
    && Taken(e.customer, stored.customer, row.customer) && Taken(e.subscription, stored.subscription, row.subscription)
    && Taken(e.periodStart, stored.periodStart, row.periodStart) && Taken(e.periodEnd, stored.periodEnd, row.periodEnd)
    && (before.None? ==>
          && stored.customer.None? && stored.subscription.None?
          && stored.periodStart.None? && stored.periodEnd.None?)
  }

  /** Nothing but the given checkout differs, and that only if it was pending: it is completed. */
  predicate Completes(db: Db, db': Db, checkout: Option<Ref>, now: Time) {
    if checkout.Some? && checkout.value in db.checkouts && db.checkouts[checkout.value].status == Pending then
      && db'.checkouts.Keys == db.checkouts.Keys
      && (forall r :: r in db.checkouts && r != checkout.value ==> db'.checkouts[r] == db.checkouts[r])
      && var (row, row') := (db.checkouts[checkout.value], db'.checkouts[checkout.value]);
      && row'.owner == row.owner && row'.plan == row.plan && row'.provider == row.provider
      && row'.expiresAt == row.expiresAt && row'.status == Completed && row'.completedAt == Some(now)
    else db'.checkouts == db.checkouts
  }

  /** Only the account's row, its plan and the checkout are written. */
  predicate WritesAccount(db: Db, db': Db, u: UserId) {
    && db'.settings == db.settings && db'.ledger == db.ledger && db'.payments == db.payments
    && u in db'.subs && db'.subs == db.subs[u := db'.subs[u]]
  }

  ghost predicate AnotherHas(db: Db, e: Event, u: UserId) {
    exists v :: v != u && HasSubscription(db, e, v)
  }

  lemma AnotherHasIsOwned(db: Db, e: Event, u: UserId)
    ensures OwnedByAnother(db, e, u) <==> AnotherHas(db, e, u)
  {
    assert forall v :: HasSubscription(db, e, v) ==> Holds(db, v, e.subscription.value);
    if e.subscription.Some? {
      assert forall v :: Holds(db, v, e.subscription.value) ==> HasSubscription(db, e, v);
    }
  }

  function StatusGiven(e: Event): Option<Status> {
    match e.status
    case NoStatus => Some(Inactive)
    case Word(s) => Some(s)
    case OtherStatus => None
  }

  /** The whole of a subscription event. */
  ghost predicate SubscriptionKept(db: Db, e: Event, u: UserId, checkout: Option<Ref>, now: Time, db': Db, r: Result)
    requires checkout.Some? ==> checkout.value in db.checkouts
  {
    var plan := if e.plan.NoPlan? && checkout.Some? then db.checkouts[checkout.value].plan else e.plan;
    var row := if u in db.subs then Some(db.subs[u]) else None;
    && r.account == Some(u)
    && if plan != Named(Pro) then db' == db && r.outcome == Rejected && r.detail == PlanNotPurchasable
       else if StatusGiven(e).None? then db' == db && r.outcome == Rejected && r.detail == InvalidStatus
       else if AnotherHas(db, e, u) then
         db' == db && r.outcome == Rejected && r.detail == OwnedByAnotherAccount
       else if !Due(row, e, StatusGiven(e).value) then
         db' == db && if OtherIds(row.value, e) then r.outcome == Ignored && r.detail == OtherSubscription
                      else r.outcome == Stale && r.detail == OlderThanApplied
       else
         r.outcome == Processed && r.detail == NoDetail
         && EventApplied(db, e, u, StatusGiven(e).value, checkout, now, db')
  }

  /** The row is the event's, the plan what the row is paid for, and an active event completes its checkout. */
  predicate EventApplied(db: Db, e: Event, u: UserId, status: Status, checkout: Option<Ref>, now: Time, db': Db) {
    && WritesAccount(db, db', u)
    && HoldsEvent(if u in db.subs then Some(db.subs[u]) else None, e, status, db'.subs[u])
    && db'.users == db.users[u := if PaidAt(db'.subs[u], now, db.settings.grace) then Pro else Free]
    && Completes(db, db', if status == Active then checkout else None, now)
  }

  lemma EventIsApplied(db: Db, e: Event, u: UserId, status: Status, checkout: Option<Ref>, now: Time)
    requires checkout.Some? ==> checkout.value in db.checkouts
    ensures var db1 := ApplyVerified(db, u, e, status, now);
            var db' := if status == Active then CompleteCheckout(db1, checkout, now) else db1;
            EventApplied(db, e, u, status, checkout, now, db')
  {
    EntitledIsPaid(Overwrite(SubOf(db, u), e, status), now, db.settings.grace);
  }

  /** The order rule is Due. */
  lemma OrderIsDue(row: Option<Subscription>, e: Event, status: Status)
    ensures OrderVerdict(row, e, status) ==
              if Due(row, e, status) then Apply(status)
              else if OtherIds(row.value, e) then Refuse(Ignored, OtherSubscription)
              else Refuse(Stale, OlderThanApplied)
  {
    if row.Some? {
      RankIsRestriction(status, row.value.status);
    }
  }

  lemma SubscriptionIsKept(db: Db, e: Event, u: UserId, checkout: Option<Ref>, now: Time)
    requires checkout.Some? ==> checkout.value in db.checkouts
    ensures var (db', r) := ApplySubscriptionEvent(db, e, u, checkout, now);
            SubscriptionKept(db, e, u, checkout, now, db', r)
  {
    AnotherHasIsOwned(db, e, u);
    if StatusGiven(e).Some? {
      OrderIsDue(SubOf(db, u), e, StatusGiven(e).value);
      EventIsApplied(db, e, u, StatusGiven(e).value, checkout, now);
    }
  }

  // ---------------------------------------------------------------- linking and payments

  /** Linking fills in absent ids and completes the checkout; it grants nothing. */
  ghost predicate LinkKept(db: Db, e: Event, u: UserId, checkout: Ref, now: Time, db': Db, r: Result)
    requires checkout in db.checkouts
  {
    && r.account == Some(u)
    && if AnotherHas(db, e, u) then
         db' == db && r.outcome == Rejected && r.detail == OwnedByAnotherAccount
       else
         && r.outcome == Processed && r.detail == LinkedOnly
         && WritesAccount(db, db', u) && db'.users == db.users && Completes(db, db', Some(checkout), now)
         && var row := db'.subs[u];
         if u in db.subs then
           && Taken(db.subs[u].customer, e.customer, row.customer)
           && Taken(db.subs[u].subscription, e.subscription, row.subscription)
           && row == db.subs[u].(customer := row.customer, subscription := row.subscription)
         else row == Subscription(Free, Inactive, e.provider, e.customer, e.subscription, None, None, false, None)
  }

  lemma LinkIsKept(db: Db, e: Event, u: UserId, checkout: Ref, now: Time)
    requires checkout in db.checkouts
    ensures var (db', r) := LinkCheckout(db, e, u, checkout, now); LinkKept(db, e, u, checkout, now, db', r)
  {
    AnotherHasIsOwned(db, e, u);
  }

  /** A payment is entered once under its id; afterwards a newer or equally old notice changes its state, except that
      nothing but a refund follows a refund. Nothing else is written. */
  predicate PaymentKept(db: Db, e: Event, u: UserId, status: PaymentStatus, db': Db, r: Result) {
    var key := (e.provider, e.paymentId);
    && r.account == Some(u)
    && db' == db.(payments := db'.payments)
    && if key in db.payments
          && (|| e.occurredAt < db.payments[key].occurredAt
              || (db.payments[key].status == Refunded && status != Refunded)) then
         db' == db && r.outcome == Stale && r.detail == OlderThanApplied
       else
         && r.outcome == Processed && r.detail == NoDetail
         && key in db'.payments && db'.payments == db.payments[key := db'.payments[key]]
         && var p := db'.payments[key];
         && p.status == status && p.occurredAt == e.occurredAt
         && if key in db.payments then
              && p.account == db.payments[key].account && p.subscription == db.payments[key].subscription
              && Taken(e.amount, db.payments[key].amount, p.amount)
              && Taken(e.currency, db.payments[key].currency, p.currency)
            else p.account == u && p.subscription == e.subscription && p.amount == e.amount && p.currency == e.currency
  }

  lemma PaymentIsKept(db: Db, e: Event, u: UserId, status: PaymentStatus)
    ensures var (db', r) := ApplyPayment(db, e, u, status); PaymentKept(db, e, u, status, db', r)
  {
  }

  // ---------------------------------------------------------------- dispatch

  /** An event that resolves to nobody is to be sent again while it is young, and ignored afterwards. */
  predicate UnresolvedKept(db: Db, e: Event, now: Time, db': Db, r: Result) {
    && db' == db && r.account.None? && r.detail == UnresolvedReference
    && r.outcome == if e.occurredAt > now - db.settings.unresolvedRetry then Deferred else Ignored
  }

  predicate IgnoredKept(db: Db, detail: Detail, account: Option<UserId>, db': Db, r: Result) {
    db' == db && r.outcome == Ignored && r.detail == detail && r.account == account
  }

  /** What each kind of event leads to, given the account and the checkout that it resolves to. */
  ghost predicate DispatchKept(db: Db, e: Event, now: Time, resolution: Resolution, db': Db, r: Result)
    requires resolution.Found? && resolution.checkout.Some? ==> resolution.checkout.value in db.checkouts
  {
    if e.kind.UnknownKind? then IgnoredKept(db, UnhandledType, None, db', r)
    else
      match resolution
      case Conflict => db' == db && r.outcome == Rejected && r.detail == ReferenceConflict && r.account.None?
      case Found(None, _) => UnresolvedKept(db, e, now, db', r)
      case Found(Some(u), checkout) =>
        match e.kind
        case SubscriptionUpdated => SubscriptionKept(db, e, u, checkout, now, db', r)
        case CheckoutCompleted =>
          if !e.status.NoStatus? then SubscriptionKept(db, e, u, checkout, now, db', r)
          else if checkout.None? then IgnoredKept(db, NoCheckoutReference, Some(u), db', r)
          else LinkKept(db, e, u, checkout.value, now, db', r)
        case PaymentNotice(None) => IgnoredKept(db, UnhandledType, Some(u), db', r)
        case PaymentNotice(Some(status)) => PaymentKept(db, e, u, status, db', r)
        case UnknownKind => true
  }

  lemma DispatchIsKept(db: Db, e: Event, now: Time, pick: UserId)
    requires Valid(db) && ValidPick(db, e, pick)
    ensures var (db', r) := Dispatch(db, e, now, pick); DispatchKept(db, e, now, Resolve(db, e, pick), db', r)
  {
    var resolution := Resolve(db, e, pick);
    if !e.kind.UnknownKind? && resolution.Found? && resolution.account.Some? {
      var u := resolution.account.value;
      if AboutSubscription(e) {
        SubscriptionIsKept(db, e, u, resolution.checkout, now);
      } else if e.kind.CheckoutCompleted? && resolution.checkout.Some? {
        LinkIsKept(db, e, u, resolution.checkout.value, now);
      } else if e.kind.PaymentNotice? && e.kind.payment.Some? {
        PaymentIsKept(db, e, u, e.kind.payment.value);
      }
    }
  }

  // ---------------------------------------------------------------- ledger

  /** Nothing but the event's ledger row differs, and that is as given. */
  predicate LedgerRowIs(db: Db, db': Db, e: Event, row: LedgerRow) {
    db' == db.(ledger := db.ledger[(e.provider, e.eventId) := row])
  }

  /** New events are claimed, and failed, deferred and abandoned ones claimed again; nothing is written otherwise. */
  predicate ClaimKept(db: Db, e: Event, now: Time, db': Db, claimed: bool) {
    var key := (e.provider, e.eventId);
    if key !in db.ledger then claimed && LedgerRowIs(db, db', e, LedgerRow(Received, now, 1, None, None))
    else
      var row := db.ledger[key];
      if || row.status.LedgerFailed? || row.status.LedgerDeferred?
         || (row.status.Received? && row.receivedAt + 300 < now) then
        && claimed
        && LedgerRowIs(db, db', e, LedgerRow(Received, now, row.attempts + 1, row.account, row.processedAt))
      else !claimed && db' == db
  }

  lemma ClaimIsKept(db: Db, e: Event, now: Time)
    ensures ClaimKept(db, e, now, Claim(db, e, now), Claimable(db, e, now))
  {
  }

  /** How a result is entered: a deferred event stays open, every other one is done. */
  predicate RecordKept(before: LedgerRow, r: Result, now: Time, row: LedgerRow) {
    && row.receivedAt == before.receivedAt && row.attempts == before.attempts && row.account == r.account
    && match r.outcome
       case Deferred => row.status == LedgerDeferred && row.processedAt.None?
       case Processed => row.status == LedgerProcessed && row.processedAt == Some(now)
       case Rejected => row.status == LedgerRejected && row.processedAt == Some(now)
       case _ => row.status == LedgerIgnored && row.processedAt == Some(now)
  }

  lemma RecordIsKept(db: Db, e: Event, r: Result, now: Time)
    requires EventKey(e) in db.ledger
    ensures var db' := Record(db, e, r, now);
            && EventKey(e) == (e.provider, e.eventId) && EventKey(e) in db'.ledger
            && LedgerRowIs(db, db', e, db'.ledger[EventKey(e)])
            && RecordKept(db.ledger[EventKey(e)], r, now, db'.ledger[EventKey(e)])
  {
  }

  // ---------------------------------------------------------------- sweep

  /** Rows in an entitling status whose period and grace are over, of accounts that exist. */
  predicate Over(db: Db, u: UserId, now: Time) {
    && u in db.subs && u in db.users && (db.subs[u].status == Active || db.subs[u].status == PastDue)
    && db.subs[u].periodEnd.Some? && db.subs[u].periodEnd.value + db.settings.grace < now
  }

  /** Exactly those are canceled, with nothing else about them changed, and their accounts are free. */
  predicate SweepKept(db: Db, now: Time, db': Db) {
    && db' == db.(subs := db'.subs, users := db'.users)
    && db'.subs.Keys == db.subs.Keys && db'.users.Keys == db.users.Keys
    && (forall u :: u in db.subs ==>
          db'.subs[u] == if Over(db, u, now) then db.subs[u].(status := Canceled) else db.subs[u])
    && (forall u :: u in db.users ==> db'.users[u] == if Over(db, u, now) then Free else db.users[u])
  }

  lemma SweepIsKept(db: Db, now: Time)
    ensures SweepKept(db, now, Reconcile(db, now))
    ensures LapsedAccounts(db, now) == set u | u in db.subs && Over(db, u, now)
  {
    assert forall u :: u in LapsedAccounts(db, now) <==> Over(db, u, now);
  }

  // ---------------------------------------------------------------- a whole delivery

  /** Dispatched as the ids on file say. */
  ghost predicate Dispatched(db: Db, e: Event, now: Time, db': Db, r: Result) {
    exists named, resolution {:trigger Resolves(db, e, named, resolution)} ::
      NamedBy(db, e, named) && Resolves(db, e, named, resolution) && DispatchKept(db, e, now, resolution, db', r)
  }

  lemma EventIsDispatched(db: Db, e: Event, now: Time, pick: UserId)
    requires Valid(db) && ValidPick(db, e, pick)
    ensures var (db', r) := Dispatch(db, e, now, pick); Dispatched(db, e, now, db', r)
  {
    ResolutionIsKept(db, e, pick);
    DispatchIsKept(db, e, now, pick);
    var (db', r) := Dispatch(db, e, now, pick);
    assert Resolves(db, e, HolderOf(db, e, pick), Resolve(db, e, pick));
  }

  /** An event that cannot be claimed is a duplicate and changes nothing; any other is claimed, dispatched on that, and
      entered with its result. */
  ghost predicate Delivered(db: Db, e: Event, now: Time, db': Db, r: Result) {
    || (ClaimKept(db, e, now, db, false) && db' == db && r == Result(Duplicate, NoDetail, None))
    || exists claimed, done {:trigger ClaimKept(db, e, now, claimed, true), Dispatched(claimed, e, now, done, r)} ::
         && ClaimKept(db, e, now, claimed, true) && Dispatched(claimed, e, now, done, r)
         && (e.provider, e.eventId) in claimed.ledger && (e.provider, e.eventId) in db'.ledger
         && LedgerRowIs(done.(ledger := claimed.ledger), db', e, db'.ledger[(e.provider, e.eventId)])
         && RecordKept(claimed.ledger[(e.provider, e.eventId)], r, now, db'.ledger[(e.provider, e.eventId)])
  }

  lemma EventIsDelivered(db: Db, e: Event, now: Time, pick: UserId)
    requires Valid(db) && ValidPick(db, e, pick)
    ensures var (db', r) := Process(db, e, now, pick); Delivered(db, e, now, db', r)
  {
    ClaimIsKept(db, e, now);
    if Claimable(db, e, now) {
      var claimed := Claim(db, e, now);
      assert forall v, id :: Holds(claimed, v, id) <==> Holds(db, v, id);
      EventIsDispatched(claimed, e, now, pick);
      var (done, r) := Dispatch(claimed, e, now, pick);
      RecordIsKept(done.(ledger := claimed.ledger), e, r, now);
      assert ClaimKept(db, e, now, claimed, true) && Dispatched(claimed, e, now, done, r);
    }
  }
}
